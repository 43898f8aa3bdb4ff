/** The virtqueue of kernel/virtio_disk.c, and a device that reads the descriptors it is given and completes requests
    in any order. */
module Virtq {
  import opened Common

  const NUM := 8
  const BSIZE := 1024
  const SECTOR := 512
  const IDX := 65536           // ring indices are uint16

  const FREE := -1             // owners that are not chains
  const HELD := -2

  // What a descriptor's address is that of: disk.ops[h], b->data, disk.info[h].status.
  datatype Place = Nowhere | OpOf(h: int) | DataOf(b: int) | StatusOf(h: int)

  datatype Desc = Desc(addr: Place, len: int, next: int, more: bool, write: bool)   // VRING_DESC_F_NEXT, _F_WRITE
  const NO_DESC := Desc(Nowhere, 0, 0, false, false)

  datatype Op = Op(out: bool, sector: int)   // struct virtio_blk_req

  datatype Phase = Published | Fetched | Completed | Seen

  // A request for buffer buf and block blockno.  want is what the block and the buffer are both to hold in the end.
  datatype Chain = Chain(data: int, status: int, buf: int, blockno: int, write: bool, want: seq<int>, phase: Phase)

  ghost function FreeSet(free: seq<bool>): set<int> {
    set i | 0 <= i < |free| && free[i]
  }

  ghost predicate Distinct(q: seq<int>) {
    forall j, k :: 0 <= j < k < |q| ==> q[j] != q[k]
  }

  ghost function Members(q: seq<int>): set<int> {
    set x | x in q
  }

  lemma {:induction false} DistinctSize(q: seq<int>)
    requires Distinct(q)
    ensures |Members(q)| == |q|
  {
    if q != [] {
      var r := q[..|q| - 1];
      DistinctSize(r);
      assert Members(q) == Members(r) + {q[|q| - 1]};
    }
  }

  ghost function Below(n: nat): (s: set<int>)
    ensures |s| == n && forall x :: x in s <==> 0 <= x < n
  {
    if n == 0 then {} else Below(n - 1) + {n - 1}
  }

  lemma BelowSize(s: set<int>, n: nat)
    requires forall x :: x in s ==> 0 <= x < n
    ensures |s| <= n
  {
    assert Below(n) == s + (Below(n) - s);
  }

  // A queue of distinct descriptors that lacks h has room for one more in the ring.
  lemma RoomInRing(q: seq<int>, h: int)
    requires Distinct(q) && (forall k :: 0 <= k < |q| ==> 0 <= q[k] < NUM) && 0 <= h < NUM && h !in q
    ensures |q| < NUM
  {
    DistinctSize(q);
    BelowSize(Members(q) + {h}, NUM);
  }

  // Ring slot of the k-th entry after a 16-bit index.
  function Slot(idx: int, k: int): int {
    (idx + k) % NUM
  }

  // The ring holds q from index idx on, and the producer's index is behind q.
  ghost predicate Queued(ring: seq<int>, idx: int, end: int, q: seq<int>) {
    && |ring| == NUM && 0 <= idx < IDX && |q| <= NUM && end == (idx + |q|) % IDX
    && forall k :: 0 <= k < |q| ==> ring[Slot(idx, k)] == q[k]
  }

  // The producer's slot, computed from its own wrapped index, is the one after the queue.
  lemma WrappedSlot(idx: int, n: int)
    requires 0 <= idx < IDX && 0 <= n <= NUM
    ensures (idx + n) % IDX % NUM == Slot(idx, n)
  {
    var q := (idx + n) / IDX;
    assert idx + n == NUM * (8192 * q) + (idx + n) % IDX;
  }

  lemma SlotsApart(idx: int, j: int, k: int)
    requires 0 <= idx && 0 <= j < k < j + NUM
    ensures Slot(idx, j) != Slot(idx, k)
  {
    var a, b := (idx + j) / NUM, (idx + k) / NUM;
    assert idx + j == NUM * a + Slot(idx, j) && idx + k == NUM * b + Slot(idx, k);
  }

  // Producing overwrites no entry still queued.
  lemma Produce(ring: seq<int>, idx: int, end: int, q: seq<int>, x: int, ring': seq<int>, end': int, q': seq<int>)
    requires Queued(ring, idx, end, q) && |q| < NUM
    requires ring' == ring[end % NUM := x] && end' == (end + 1) % IDX && q' == q + [x]
    ensures Queued(ring', idx, end', q')
  {
    WrappedSlot(idx, |q|);
    forall k | 0 <= k < |q'| ensures ring'[Slot(idx, k)] == q'[k] {
      if k < |q| {
        SlotsApart(idx, k, |q|);
      }
    }
  }

  // Consuming takes the oldest entry.
  lemma Consume(ring: seq<int>, idx: int, end: int, q: seq<int>, idx': int, q': seq<int>)
    requires Queued(ring, idx, end, q) && |q| > 0 && idx' == (idx + 1) % IDX && q' == q[1..]
    ensures ring[idx % NUM] == q[0] && Queued(ring, idx', end, q')
  {
    assert ring[Slot(idx, 0)] == q[0];
    forall k | 0 <= k < |q'| ensures ring[Slot(idx', k)] == q'[k] {
      assert ring[Slot(idx, k + 1)] == q[k + 1];
      WrapStep(idx, idx', k);
    }
  }

  lemma WrapStep(idx: int, idx': int, k: int)
    requires 0 <= idx < IDX && idx' == (idx + 1) % IDX && 0 <= k
    ensures Slot(idx', k) == Slot(idx, k + 1)
  {
    if idx + 1 == IDX {
      assert idx + k + 1 == NUM * 8192 + k;
    }
  }

  // The consumer's test for work compares wrapped indices.
  lemma NonEmpty(ring: seq<int>, idx: int, end: int, q: seq<int>)
    requires Queued(ring, idx, end, q)
    ensures idx != end <==> |q| > 0
  {
  }

  // Descriptor i belongs to the chain headed by h.
  ghost predicate InChain(chains: map<int, Chain>, h: int, i: int) {
    h in chains && (i == h || i == chains[h].data || i == chains[h].status)
  }

  ghost predicate IsDesc(i: int) {
    0 <= i < NUM
  }

  // The three descriptors of a chain, linked head to data to status.  The device may write the status, and the data
  // exactly if the request reads the disk.
  ghost predicate ChainOk(desc: seq<Desc>, owner: seq<int>, h: int, c: Chain) {
    && |desc| == NUM && |owner| == NUM && IsDesc(h) && IsDesc(c.data) && IsDesc(c.status)
    && h != c.data && h != c.status && c.data != c.status
    && owner[h] == h && owner[c.data] == h && owner[c.status] == h
    && desc[h].more && desc[h].next == c.data && desc[c.data].more && desc[c.data].next == c.status
      && !desc[c.status].more
    && desc[h].addr == OpOf(h) && !desc[h].write
    && desc[c.data].addr == DataOf(c.buf) && desc[c.data].len == BSIZE && desc[c.data].write == !c.write
    && desc[c.status].addr == StatusOf(h) && desc[c.status].len == 1 && desc[c.status].write
  }

  // Each descriptor is free, held, or in exactly one chain.
  ghost predicate Partition(free: seq<bool>, desc: seq<Desc>, owner: seq<int>, chains: map<int, Chain>) {
    && |free| == NUM && |desc| == NUM && |owner| == NUM
    && (forall i :: IsDesc(i) ==> (free[i] <==> owner[i] == FREE))
    && (forall i :: IsDesc(i) && owner[i] >= 0 ==> InChain(chains, owner[i], i))
    && (forall h :: h in chains ==> ChainOk(desc, owner, h, chains[h]))
  }

  ghost predicate PhaseIs(chains: map<int, Chain>, h: int, p: Phase) {
    h in chains && chains[h].phase == p
  }

  // q lists the chains in phase p, once each.
  ghost predicate Lists(q: seq<int>, chains: map<int, Chain>, p: Phase) {
    && Distinct(q) && (forall k :: 0 <= k < |q| ==> PhaseIs(chains, q[k], p))
    && (forall h :: PhaseIs(chains, h, p) ==> h in q)
  }

  // info[h].b is the buffer of chain h, each buffer is in one chain, and its disk flag says whether the driver waits.
  ghost predicate Buffers(info: seq<int>, busy: set<int>, chains: map<int, Chain>) {
    && |info| == NUM
    && (forall h :: h in chains && IsDesc(h) ==> info[h] == chains[h].buf)
    && (forall h, k :: h in chains && k in chains && chains[h].buf == chains[k].buf ==> h == k)
    && (forall h :: h in chains ==> (chains[h].buf in busy <==> chains[h].phase != Seen))
  }

  // ----- What the requests are for -----

  // Block b of a disk of 512-byte sectors.
  function BlockAt(media: seq<seq<int>>, b: int): seq<int> {
    if OnDisk(media, b) then media[2 * b] + media[2 * b + 1] else []
  }

  predicate OnDisk(media: seq<seq<int>>, b: int) {
    0 <= b && 2 * b + 1 < |media|
  }

  ghost predicate MediaOk(media: seq<seq<int>>) {
    |media| < U32 && forall k :: 0 <= k < |media| ==> |media[k]| == SECTOR
  }

  /** The sector is computed in 32 bits: it is that of the block exactly for the lower half of all block numbers. */
  lemma SectorFits(blockno: int)
    requires 0 <= blockno < U32
    ensures blockno * (BSIZE / SECTOR) % U32 == 2 * blockno <==> blockno < 0x8000_0000
  {
  }

  predicate Done(c: Chain) {
    c.phase == Completed || c.phase == Seen
  }

  // Before the device is done the source of the transfer holds what is wanted; afterwards both sides do.
  ghost predicate RequestOk(ops: seq<Op>, status: seq<int>, data: map<int, seq<int>>, media: seq<seq<int>>, h: int,
                            c: Chain) {
    && 0 <= h < |ops| == |status| && ops[h].out == c.write && ops[h].sector == 2 * c.blockno && OnDisk(media, c.blockno)
    && c.buf in data && |data[c.buf]| == BSIZE
    && (Done(c) || c.write ==> data[c.buf] == c.want)
    && (Done(c) || !c.write ==> BlockAt(media, c.blockno) == c.want)
    && (Done(c) ==> status[h] == 0)
  }

  ghost predicate Requests(ops: seq<Op>, status: seq<int>, data: map<int, seq<int>>, media: seq<seq<int>>,
                           chains: map<int, Chain>) {
    && |ops| == |status| == NUM && MediaOk(media)
    && (forall h :: h in chains ==> RequestOk(ops, status, data, media, h, chains[h]))
    && (forall h, k :: h in chains && k in chains && h != k ==> Separate(chains[h], chains[k]))
  }

  predicate Separate(c: Chain, d: Chain) {
    c.blockno != d.blockno && c.buf != d.buf
  }

  // A chain may change phase, but for the device being done with it.
  lemma AdvanceRequests(ops: seq<Op>, status: seq<int>, data: map<int, seq<int>>, media: seq<seq<int>>,
                        chains: map<int, Chain>, h: int, p: Phase, chains': map<int, Chain>)
    requires Requests(ops, status, data, media, chains) && h in chains && chains' == Advance(chains, h, p)
    requires Done(chains[h]) || !Done(chains[h].(phase := p))
    ensures Requests(ops, status, data, media, chains')
  {
    forall k | k in chains' ensures RequestOk(ops, status, data, media, k, chains'[k]) {
      assert RequestOk(ops, status, data, media, k, chains[k]);
    }
  }

  lemma NewRequest(ops: seq<Op>, status: seq<int>, data: map<int, seq<int>>, media: seq<seq<int>>,
                   chains: map<int, Chain>, h: int, c: Chain, ops': seq<Op>, status': seq<int>,
                   chains': map<int, Chain>)
    requires Requests(ops, status, data, media, chains) && 0 <= h < NUM && h !in chains && chains' == chains[h := c]
    requires c.phase == Published && OnDisk(media, c.blockno) && c.buf in data && |data[c.buf]| == BSIZE
    requires c.want == (if c.write then data[c.buf] else BlockAt(media, c.blockno))
             && NotInFlight(chains, c.buf, c.blockno)
    requires ops' == ops[h := Op(c.write, c.blockno * (BSIZE / SECTOR) % U32)] && status' == status[h := 0xff]
    ensures Requests(ops', status', data, media, chains')
  {
    SectorFits(c.blockno);
    forall k | k in chains' ensures RequestOk(ops', status', data, media, k, chains'[k]) {
      if k != h {
        assert RequestOk(ops, status, data, media, k, chains[k]);
      }
    }
  }

  // What a request does once the device carries it out.
  ghost predicate Transferred(data: map<int, seq<int>>, media: seq<seq<int>>, c: Chain, data': map<int, seq<int>>,
                              media': seq<seq<int>>) {
    && MediaOk(media') && |media'| == |media|
    && (if c.write then data' == data && BlockAt(media', c.blockno) == (if c.buf in data then data[c.buf] else [])
        else media' == media && data' == data[c.buf := BlockAt(media, c.blockno)])
    && forall b :: b != c.blockno ==> BlockAt(media', b) == BlockAt(media, b)
  }

  lemma DoneRequest(ops: seq<Op>, status: seq<int>, data: map<int, seq<int>>, media: seq<seq<int>>,
                    chains: map<int, Chain>, h: int, status': seq<int>, data': map<int, seq<int>>,
                    media': seq<seq<int>>, chains': map<int, Chain>)
    requires Requests(ops, status, data, media, chains) && h in chains && !Done(chains[h])
             && chains' == Advance(chains, h, Completed)
    requires Transferred(data, media, chains[h], data', media') && 0 <= h < NUM && status' == status[h := 0]
    ensures Requests(ops, status', data', media', chains')
  {
    assert RequestOk(ops, status, data, media, h, chains[h]);
    forall k | k in chains' ensures RequestOk(ops, status', data', media', k, chains'[k]) {
      assert RequestOk(ops, status, data, media, k, chains[k]);
      if k != h {
        assert Separate(chains[k], chains[h]);
      }
    }
  }

  lemma DropRequest(ops: seq<Op>, status: seq<int>, data: map<int, seq<int>>, media: seq<seq<int>>,
                    chains: map<int, Chain>, h: int)
    requires Requests(ops, status, data, media, chains)
    ensures Requests(ops, status, data, media, chains - {h})
  {
  }

  // Two sectors written are one block.
  lemma WroteBlock(media: seq<seq<int>>, b: int, x: seq<int>, media': seq<seq<int>>)
    requires MediaOk(media) && OnDisk(media, b) && |x| == BSIZE
    requires media' == media[2 * b := x[..SECTOR]][2 * b + 1 := x[SECTOR..]]
    ensures MediaOk(media') && BlockAt(media', b) == x && forall k :: k != b ==> BlockAt(media', k) == BlockAt(media, k)
  {
    assert x[..SECTOR] + x[SECTOR..] == x;
  }

  // ----- Steps on the chains -----

  function Advance(chains: map<int, Chain>, h: int, p: Phase): map<int, Chain> {
    if h in chains then chains[h := chains[h].(phase := p)] else chains
  }

  // A chain may change phase without touching the descriptors.
  lemma AdvancePartition(free: seq<bool>, desc: seq<Desc>, owner: seq<int>, chains: map<int, Chain>, h: int, p: Phase,
                         chains': map<int, Chain>)
    requires Partition(free, desc, owner, chains) && chains' == Advance(chains, h, p)
    ensures Partition(free, desc, owner, chains')
  {
  }

  // The list a chain leaves, when it is the oldest there.
  lemma LeaveList(q: seq<int>, chains: map<int, Chain>, p: Phase, p': Phase, q': seq<int>, chains': map<int, Chain>)
    requires Lists(q, chains, p) && q != [] && p != p' && q' == q[1..] && chains' == Advance(chains, q[0], p')
    ensures Lists(q', chains', p)
  {
    forall h | PhaseIs(chains', h, p) ensures h in q' {
      assert PhaseIs(chains, h, p);
      var k :| 0 <= k < |q| && q[k] == h;
      assert q'[k - 1] == h;
    }
    forall k | 0 <= k < |q'| ensures PhaseIs(chains', q'[k], p) {
      assert PhaseIs(chains, q[k + 1], p);
    }
  }

  // The list a chain enters.
  lemma EnterList(q: seq<int>, chains: map<int, Chain>, h: int, p: Phase, q': seq<int>, chains': map<int, Chain>)
    requires Lists(q, chains, p) && h in chains && chains[h].phase != p && q' == q + [h]
             && chains' == Advance(chains, h, p)
    ensures Lists(q', chains', p)
  {
    forall x | PhaseIs(chains', x, p) ensures x in q' {
      assert x != h ==> PhaseIs(chains, x, p);
    }
    forall k | 0 <= k < |q'| ensures PhaseIs(chains', q'[k], p) {
      assert k < |q| ==> PhaseIs(chains, q[k], p);
    }
    forall j, k | 0 <= j < k < |q'| ensures q'[j] != q'[k] {
      assert PhaseIs(chains, q[j], p);
    }
  }

  // A list the step does not concern.
  lemma SameList(q: seq<int>, chains: map<int, Chain>, h: int, p: Phase, p': Phase, chains': map<int, Chain>)
    requires Lists(q, chains, p) && h in chains && chains[h].phase != p && p' != p && chains' == Advance(chains, h, p')
    ensures Lists(q, chains', p)
  {
    forall x | PhaseIs(chains', x, p) ensures x in q {
      assert PhaseIs(chains, x, p);
    }
    forall k | 0 <= k < |q| ensures PhaseIs(chains', q[k], p) {
      assert PhaseIs(chains, q[k], p);
    }
  }

  lemma AdvanceBuffers(info: seq<int>, busy: set<int>, chains: map<int, Chain>, h: int, p: Phase, busy': set<int>,
                       chains': map<int, Chain>)
    requires Buffers(info, busy, chains) && h in chains && chains[h].phase != Seen && chains' == Advance(chains, h, p)
    requires busy' == if p == Seen then busy - {chains[h].buf} else busy
    ensures Buffers(info, busy', chains')
  {
  }

  // The descriptors of a new chain, formatted.
  ghost predicate Formatted(desc: seq<Desc>, desc': seq<Desc>, h: int, d: int, st: int, b: int, write: bool) {
    && |desc| == |desc'| == NUM && IsDesc(h) && IsDesc(d) && IsDesc(st)
    && (forall i :: IsDesc(i) && i != h && i != d && i != st ==> desc'[i] == desc[i])
    && desc'[h].addr == OpOf(h) && desc'[h].more && desc'[h].next == d && !desc'[h].write
    && desc'[d].addr == DataOf(b) && desc'[d].len == BSIZE && desc'[d].more && desc'[d].next == st
      && desc'[d].write == !write
    && desc'[st].addr == StatusOf(h) && desc'[st].len == 1 && !desc'[st].more && desc'[st].write
  }

  // Work on held descriptors leaves chains alone.
  ghost predicate HeldOnly(desc: seq<Desc>, owner: seq<int>, desc': seq<Desc>, owner': seq<int>) {
    && |desc| == |desc'| == |owner| == |owner'| == NUM
    && forall i :: IsDesc(i) && owner[i] != HELD ==> desc'[i] == desc[i] && owner'[i] == owner[i]
  }

  lemma OtherChain(desc: seq<Desc>, owner: seq<int>, desc': seq<Desc>, owner': seq<int>, k: int, c: Chain)
    requires ChainOk(desc, owner, k, c) && HeldOnly(desc, owner, desc', owner')
    ensures ChainOk(desc', owner', k, c)
  {
  }

  lemma HeldIsNoHead(free: seq<bool>, desc: seq<Desc>, owner: seq<int>, chains: map<int, Chain>, h: int)
    requires Partition(free, desc, owner, chains) && IsDesc(h) && owner[h] == HELD
    ensures h !in chains
  {
  }

  lemma NewChain(free: seq<bool>, desc: seq<Desc>, owner: seq<int>, chains: map<int, Chain>, h: int, d: int, st: int,
                 c: Chain, desc': seq<Desc>, owner': seq<int>, chains': map<int, Chain>)
    requires Partition(free, desc, owner, chains) && c.data == d && c.status == st
    requires ThreeHeld(owner, h, d, st) && Formatted(desc, desc', h, d, st, c.buf, c.write)
    requires owner' == owner[h := h][d := h][st := h] && chains' == chains[h := c]
    ensures Partition(free, desc', owner', chains') && h !in chains
  {
    HeldIsNoHead(free, desc, owner, chains, h);
    assert HeldOnly(desc, owner, desc', owner');
    assert ChainOk(desc', owner', h, chains'[h]);
    forall k | k in chains' ensures ChainOk(desc', owner', k, chains'[k]) {
      if k != h {
        OtherChain(desc, owner, desc', owner', k, chains[k]);
      }
    }
    forall i | IsDesc(i) && owner'[i] >= 0 ensures InChain(chains', owner'[i], i) {
      if i != h && i != d && i != st {
        assert InChain(chains, owner[i], i);
      }
    }
  }

  lemma NewListed(q: seq<int>, chains: map<int, Chain>, h: int, c: Chain, q': seq<int>, chains': map<int, Chain>)
    requires Lists(q, chains, c.phase) && h !in chains && q' == q + [h] && chains' == chains[h := c]
    ensures Lists(q', chains', c.phase)
  {
    forall x | PhaseIs(chains', x, c.phase) ensures x in q' {
      assert x != h ==> PhaseIs(chains, x, c.phase);
    }
    forall k | 0 <= k < |q'| ensures PhaseIs(chains', q'[k], c.phase) {
      assert k < |q| ==> PhaseIs(chains, q[k], c.phase);
    }
    forall j, k | 0 <= j < k < |q'| ensures q'[j] != q'[k] {
      assert PhaseIs(chains, q[j], c.phase);
    }
  }

  lemma NewElsewhere(q: seq<int>, chains: map<int, Chain>, p: Phase, h: int, c: Chain, chains': map<int, Chain>)
    requires Lists(q, chains, p) && h !in chains && c.phase != p && chains' == chains[h := c]
    ensures Lists(q, chains', p)
  {
    forall x | PhaseIs(chains', x, p) ensures x in q {
      assert PhaseIs(chains, x, p);
    }
    forall k | 0 <= k < |q| ensures PhaseIs(chains', q[k], p) {
      assert PhaseIs(chains, q[k], p);
    }
  }

  lemma NewBuffer(info: seq<int>, busy: set<int>, chains: map<int, Chain>, h: int, c: Chain,
                  info': seq<int>, busy': set<int>, chains': map<int, Chain>)
    requires Buffers(info, busy, chains) && IsDesc(h) && h !in chains && c.phase != Seen
    requires forall k :: k in chains ==> chains[k].buf != c.buf
    requires info' == info[h := c.buf] && busy' == busy + {c.buf} && chains' == chains[h := c]
    ensures Buffers(info', busy', chains')
  {
  }

  // A finished chain taken apart: its descriptors are held, the rest is untouched.
  lemma DropChain(free: seq<bool>, desc: seq<Desc>, owner: seq<int>, chains: map<int, Chain>, h: int, owner': seq<int>)
    requires Partition(free, desc, owner, chains) && h in chains && ChainOk(desc, owner, h, chains[h])
    requires owner' == owner[h := HELD][chains[h].data := HELD][chains[h].status := HELD]
    ensures Partition(free, desc, owner', chains - {h})
  {
    var c := chains[h];
    forall i | IsDesc(i) && owner'[i] >= 0 ensures InChain(chains - {h}, owner'[i], i) {
      assert InChain(chains, owner[i], i);
    }
    forall k | k in chains - {h} ensures ChainOk(desc, owner', k, (chains - {h})[k]) {
      assert ChainOk(desc, owner, k, chains[k]);
    }
  }

  lemma DropLists(q: seq<int>, chains: map<int, Chain>, p: Phase, h: int)
    requires Lists(q, chains, p) && h in chains && chains[h].phase != p
    ensures Lists(q, chains - {h}, p)
  {
    forall x | PhaseIs(chains - {h}, x, p) ensures x in q {
      assert PhaseIs(chains, x, p);
    }
    forall k | 0 <= k < |q| ensures PhaseIs(chains - {h}, q[k], p) {
      assert PhaseIs(chains, q[k], p);
    }
  }

  datatype Ring = Ring(slots: seq<int>, idx: int)

  // Who holds each descriptor, the requests under way, and the heads queued in either ring.
  datatype Track = Track(owner: seq<int>, chains: map<int, Chain>, availQ: seq<int>, usedQ: seq<int>)

  function SetOwner(t: Track, i: int, x: int): Track {
    if 0 <= i < |t.owner| then t.(owner := t.owner[i := x]) else t
  }

  class VirtDisk {
    var free: seq<bool>
    var desc: seq<Desc>
    var avail: Ring              // disk.avail: driver to device
    var used: Ring               // disk.used: device to driver
    var seen: int                // disk.used_idx: the driver's place in the used ring
    var info: seq<int>           // disk.info[].b
    var busy: set<int>           // buffers whose b->disk is 1
    var fetched: int             // the device's place in the avail ring
    var ops: seq<Op>             // disk.ops[]
    var status: seq<int>         // disk.info[].status
    var data: map<int, seq<int>> // b->data of each buffer
    var media: seq<seq<int>>     // the disk's sectors
    ghost var t: Track

    ghost predicate DescOk()
      reads this
    {
      Partition(free, desc, t.owner, t.chains)
    }

    ghost predicate RingsOk()
      reads this
    {
      && Queued(avail.slots, fetched, avail.idx, t.availQ) && Lists(t.availQ, t.chains, Published)
      && Queued(used.slots, seen, used.idx, t.usedQ) && Lists(t.usedQ, t.chains, Completed)
      && Buffers(info, busy, t.chains)
    }

    ghost predicate RequestsOk()
      reads this
    {
      Requests(ops, status, data, media, t.chains)
    }

    // Between critical sections: every descriptor is free or in one of the disjoint chains.
    ghost predicate Valid()
      reads this
    {
      DescOk() && RingsOk() && RequestsOk() && NoneHeld(t.owner)
    }

    constructor (media: seq<seq<int>>)
      requires MediaOk(media)
      ensures Valid() && t.chains == map[] && this.media == media
    {
      this.media, data, ops, status := media, map[], seq(NUM, _ => Op(false, 0)), seq(NUM, _ => 0);
      free, desc := seq(NUM, _ => true), seq(NUM, _ => NO_DESC);
      avail, used := Ring(seq(NUM, _ => 0), 0), Ring(seq(NUM, _ => 0), 0);
      seen, info, busy, fetched := 0, seq(NUM, _ => 0), {}, 0;
      t := Track(seq(NUM, _ => FREE), map[], [], []);
    }

    // The holder of a buffer with no request under way may fill it.
    method Fill(b: int, x: seq<int>)
      requires Valid() && (forall k :: k in t.chains ==> t.chains[k].buf != b)
      modifies `data
      ensures Valid() && data == old(data)[b := x]
    {
      ghost var was := data;
      data := data[b := x];
      forall k | k in t.chains ensures RequestOk(ops, status, data, media, k, t.chains[k]) {
        assert RequestOk(ops, status, was, media, k, t.chains[k]);
      }
    }

    // What the descriptor bookkeeping never touches.
    twostate predicate RingsSame()
      reads this
    {
      && unchanged(`avail) && unchanged(`used) && unchanged(`seen) && unchanged(`info) && unchanged(`busy)
        && unchanged(`fetched) && unchanged(`ops) && unchanged(`status) && unchanged(`data) && unchanged(`media)
      && t == old(t).(owner := t.owner)
    }

    // The first free descriptor, or -1.
    method AllocDesc() returns (i: int)
      requires DescOk()
      modifies `free, `t
      ensures DescOk() && RingsSame()
      ensures i == -1 <==> forall k :: IsDesc(k) ==> !old(free)[k]
      ensures i == -1 ==> unchanged(this)
      ensures i != -1 ==> IsDesc(i) && old(free)[i] && free == old(free)[i := false]
                          && t.owner == old(t).owner[i := HELD]
      ensures i != -1 ==> forall k :: 0 <= k < i ==> !old(free)[k]
    {
      i := 0;
      while i < NUM
        invariant 0 <= i <= NUM && unchanged(this)
        invariant forall k :: 0 <= k < i ==> !free[k]
      {
        if free[i] {
          free, t := free[i := false], SetOwner(t, i, HELD);
          return;
        }
        i := i + 1;
      }
      return -1;
    }

    // Mark a descriptor free.  Its panics are the precondition.
    method FreeDesc(i: int)
      requires DescOk() && IsDesc(i) && !free[i] && t.owner[i] == HELD
      modifies `free, `desc, `t
      ensures DescOk() && RingsSame()
      ensures free == old(free)[i := true] && t.owner == old(t).owner[i := FREE]
              && desc == old(desc)[i := NO_DESC]
    {
      ghost var d0, o0 := desc, t.owner;
      desc, free, t := desc[i := NO_DESC], free[i := true], SetOwner(t, i, FREE);
      forall k | k in t.chains ensures ChainOk(desc, t.owner, k, t.chains[k]) {
        OtherChain(d0, o0, desc, t.owner, k, t.chains[k]);
      }
    }

    // Three free descriptors, or none.
    method Alloc3Desc() returns (ok: bool, idx: seq<int>)
      requires DescOk()
      modifies `free, `desc, `t
      ensures DescOk() && RingsSame()
      ensures ok <==> |FreeSet(old(free))| >= 3
      ensures ok ==> |idx| == 3 && Taken(old(free), old(t).owner, idx, free, t.owner)
      ensures !ok ==> free == old(free) && t == old(t)
    {
      ghost var f, o := free, t.owner;
      idx := [];
      var i := 0;
      while i < 3
        invariant 0 <= i == |idx| <= 3 && DescOk() && RingsSame() && Taken(f, o, idx, free, t.owner)
      {
        var d := AllocDesc();
        if d < 0 {
          NoneLeft(f, o, idx, free, t.owner);
          var j := 0;
          while j < i
            invariant 0 <= j <= i == |idx| && DescOk() && RingsSame() && Taken(f, o, idx[j..], free, t.owner)
          {
            TakenOne(f, o, idx[j..], free, t.owner);
            FreeDesc(idx[j]);
            assert idx[j + 1..] == idx[j..][1..];
            j := j + 1;
          }
          assert free == f && t.owner == o;
          return false, [];
        }
        idx := idx + [d];
        i := i + 1;
      }
      ThreeTaken(f, o, idx, free, t.owner);
      ok := true;
    }

    // Free a chain of descriptors by following its links.
    method FreeChain(h: int, ghost c: Chain)
      requires DescOk() && LinkedHeld(desc, t.owner, h, c)
      modifies `free, `desc, `t
      ensures DescOk() && RingsSame()
      ensures t.owner == old(t).owner[h := FREE][c.data := FREE][c.status := FREE]
      ensures free == old(free)[h := true][c.data := true][c.status := true]
    {
      var i := h;
      ghost var step, o, f := 0, t.owner, free;
      while true
        invariant 0 <= step <= 2 && DescOk() && RingsSame()
        invariant step == 0 ==> i == h && desc == old(desc) && t.owner == o && free == f
        invariant step == 1 ==> i == c.data && desc == old(desc)[h := NO_DESC] && t.owner == o[h := FREE]
                                && free == f[h := true]
        invariant step == 2 ==> i == c.status && desc[i] == old(desc)[i] && t.owner == o[h := FREE][c.data := FREE]
                                && free == f[h := true][c.data := true]
        decreases 3 - step
      {
        var more, nxt := desc[i].more, desc[i].next;
        FreeDesc(i);
        if more {
          i := nxt;
        } else {
          break;
        }
        step := step + 1;
      }
    }

    // virtio_disk_rw up to the notify: post a request for buffer b, or find no three descriptors.
    method Submit(b: int, blockno: int, write: bool) returns (ok: bool, h: int)
      requires Valid() && NotInFlight(t.chains, b, blockno) && OnDisk(media, blockno) && b in data && |data[b]| == BSIZE
      modifies this
      ensures Valid() && (ok <==> |FreeSet(old(free))| >= 3) && data == old(data) && media == old(media)
      ensures !ok ==> t == old(t) && busy == old(busy)
      ensures ok ==> h !in old(t).chains && h in t.chains && t.chains == old(t).chains[h := t.chains[h]]
      ensures ok ==> t.chains[h].buf == b && t.chains[h].phase == Published && t.availQ == old(t).availQ + [h]
      ensures ok ==> t.chains[h].blockno == blockno && t.chains[h].write == write
                     && t.chains[h].want == if write then data[b] else BlockAt(media, blockno)
      ensures ok ==> t.usedQ == old(t).usedQ && busy == old(busy) + {b}
    {
      ghost var f, o := free, t.owner;
      var idx;
      ok, idx := Alloc3Desc();
      if !ok {
        return false, -1;
      }
      h := idx[0];
      var d, st := idx[1], idx[2];
      HeldAreThese(f, o, idx, free, t.owner, h, d, st);
      ghost var want := if write then data[b] else BlockAt(media, blockno);
      ghost var t1, c := t, Chain(d, st, b, blockno, write, want, Published);
      Start(h, d, st, b, blockno, write, c);
      AllPosted(t1, h, c);
    }

    // Everything between the allocation and the notify.
    method Start(h: int, d: int, st: int, b: int, blockno: int, write: bool, ghost c: Chain)
      requires DescOk() && RingsOk() && RequestsOk() && ThreeHeld(t.owner, h, d, st)
               && NotInFlight(t.chains, b, blockno)
      requires c == Chain(d, st, b, blockno, write, c.want, Published) && b in data && |data[b]| == BSIZE
      requires OnDisk(media, blockno) && c.want == if write then data[b] else BlockAt(media, blockno)
      modifies `desc, `ops, `status, `busy, `info, `avail, `t
      ensures DescOk() && RingsOk() && RequestsOk() && h !in old(t).chains && busy == old(busy) + {b}
      ensures t == Posted(old(t), h, c)
    {
      Describe(h, d, st, b, blockno, write, c);
      Post(h, b, c);
    }

    // The operation, the status byte and the three descriptors of a new request.
    method Describe(h: int, d: int, st: int, b: int, blockno: int, write: bool, ghost c: Chain)
      requires DescOk() && RequestsOk() && ThreeHeld(t.owner, h, d, st) && NotInFlight(t.chains, b, blockno)
      requires c == Chain(d, st, b, blockno, write, c.want, Published) && b in data && |data[b]| == BSIZE
      requires OnDisk(media, blockno) && c.want == if write then data[b] else BlockAt(media, blockno)
      modifies `desc, `ops, `status
      ensures Partition(free, desc, Posted(t, h, c).owner, Posted(t, h, c).chains) && h !in t.chains
      ensures Requests(ops, status, data, media, Posted(t, h, c).chains)
    {
      var desc' := FormatDescs(h, d, st, b, write);
      NewChain(free, desc, t.owner, t.chains, h, d, st, c, desc', Posted(t, h, c).owner, Posted(t, h, c).chains);
      var ops', status' := ops[h := Op(write, blockno * (BSIZE / SECTOR) % U32)], status[h := 0xff];
      NewRequest(ops, status, data, media, t.chains, h, c, ops', status', Posted(t, h, c).chains);
      desc, ops, status := desc', ops', status';
    }

    // Record the buffer and put the head in the avail ring.
    method Post(h: int, b: int, ghost c: Chain)
      requires RingsOk() && IsDesc(h) && h !in t.chains && c.buf == b && c.phase == Published
      requires Partition(free, desc, Posted(t, h, c).owner, Posted(t, h, c).chains)
               && Posted(t, h, c).chains == t.chains[h := c] && NotInFlight(t.chains, b, c.blockno)
      modifies `busy, `info, `avail, `t
      ensures DescOk() && RingsOk() && busy == old(busy) + {b} && t == Posted(old(t), h, c)
    {
      ghost var t' := Posted(t, h, c);
      var avail' := Ring(avail.slots[avail.idx % NUM := h], (avail.idx + 1) % IDX);
      var info', busy' := info[h := b], busy + {b};
      NewBuffer(info, busy, t.chains, h, c, info', busy', t'.chains);
      NewListed(t.availQ, t.chains, h, c, t'.availQ, t'.chains);
      NewElsewhere(t.usedQ, t.chains, Completed, h, c, t'.chains);
      PublishedRoom(t.availQ, t.chains, t'.owner, desc, h, c, t'.chains);
      Produce(avail.slots, fetched, avail.idx, t.availQ, h, avail'.slots, avail'.idx, t'.availQ);
      busy, info, avail, t := busy', info', avail', t';
    }

    // The writes to disk.desc[], one descriptor after the other.
    method FormatDescs(h: int, d: int, st: int, b: int, write: bool) returns (desc': seq<Desc>)
      requires |desc| == NUM && IsDesc(h) && IsDesc(d) && IsDesc(st) && h != d && h != st && d != st
      ensures Formatted(desc, desc', h, d, st, b, write)
    {
      desc' := desc[h := Desc(OpOf(h), 16, d, true, false)];
      desc' := desc'[d := Desc(DataOf(b), BSIZE, st, true, !write)];
      desc' := desc'[st := Desc(StatusOf(h), 1, 0, false, true)];
    }

    // The device fetches the next request: the oldest one posted.
    method Fetch() returns (h: int)
      requires Valid() && fetched != avail.idx
      modifies `fetched, `t
      ensures Valid() && old(t).availQ != [] && h == old(t).availQ[0] && PhaseIs(old(t).chains, h, Published)
      ensures t == old(t).(chains := Advance(old(t).chains, h, Fetched), availQ := old(t).availQ[1..])
    {
      NonEmpty(avail.slots, fetched, avail.idx, t.availQ);
      h := avail.slots[fetched % NUM];
      var fetched' := (fetched + 1) % IDX;
      assert PhaseIs(t.chains, t.availQ[0], Published);
      ghost var x, q', ch := t.availQ[0], t.availQ[1..], Advance(t.chains, t.availQ[0], Fetched);
      Consume(avail.slots, fetched, avail.idx, t.availQ, fetched', q');
      LeaveList(t.availQ, t.chains, Published, Fetched, q', ch);
      SameList(t.usedQ, t.chains, x, Completed, Fetched, ch);
      AdvanceBuffers(info, busy, t.chains, x, Fetched, busy, ch);
      AdvancePartition(free, desc, t.owner, t.chains, x, Fetched, ch);
      AdvanceRequests(ops, status, data, media, t.chains, x, Fetched, ch);
      fetched, t := fetched', t.(chains := ch, availQ := q');
    }

    // The device carries out the request whose head is h.  All it goes by is memory: the three descriptors, the
    // operation the first one points to, and the data the second one points to.
    method Perform(h: int)
      requires Valid() && PhaseIs(t.chains, h, Fetched)
      modifies `data, `media, `status
      ensures Transferred(old(data), old(media), t.chains[h], data, media)
      ensures Requests(ops, status, data, media, Advance(t.chains, h, Completed))
    {
      ghost var c, data0, media0, status0 := t.chains[h], data, media, status;
      assert ChainOk(desc, t.owner, h, c) && RequestOk(ops, status, data, media, h, c);
      var d := desc[desc[h].next];
      var st := desc[d.next];
      var op := ops[desc[h].addr.h];
      var s := op.sector;
      if op.out && !d.write {
        var x := data[d.addr.b][..d.len];
        assert x == data[c.buf];
        WroteBlock(media, c.blockno, x, media[s := x[..SECTOR]][s + 1 := x[SECTOR..]]);
        media := media[s := x[..SECTOR]][s + 1 := x[SECTOR..]];
      } else if !op.out && d.write {
        var x := media[s] + media[s + 1];
        assert x[..d.len] == x == BlockAt(media, c.blockno);
        data := data[d.addr.b := x[..d.len]];
      } else {
        // a direction the device may not go: the request fails
        assert false;
      }
      status := status[st.addr.h := 0];
      DoneRequest(ops, status0, data0, media0, t.chains, h, status, data, media, Advance(t.chains, h, Completed));
    }

    // The device completes a request it has fetched, in whatever order it likes.
    method Complete(h: int)
      requires Valid() && PhaseIs(t.chains, h, Fetched)
      modifies `data, `media, `status, `used, `t
      ensures Valid() && t == old(t).(chains := Advance(old(t).chains, h, Completed), usedQ := old(t).usedQ + [h])
      ensures Transferred(old(data), old(media), old(t).chains[h], data, media)
    {
      Perform(h);
      Return(h);
    }

    // The head goes in the used ring.
    method Return(h: int)
      requires DescOk() && RingsOk() && PhaseIs(t.chains, h, Fetched)
      modifies `used, `t
      ensures DescOk() && RingsOk()
      ensures t == old(t).(chains := Advance(old(t).chains, h, Completed), usedQ := old(t).usedQ + [h])
    {
      ghost var ch, q' := Advance(t.chains, h, Completed), t.usedQ + [h];
      CompletedRoom(t.usedQ, t.chains, t.owner, desc, h);
      var used' := Ring(used.slots[used.idx % NUM := h], (used.idx + 1) % IDX);
      Produce(used.slots, seen, used.idx, t.usedQ, h, used'.slots, used'.idx, q');
      EnterList(t.usedQ, t.chains, h, Completed, q', ch);
      SameList(t.availQ, t.chains, h, Published, Completed, ch);
      AdvanceBuffers(info, busy, t.chains, h, Completed, busy, ch);
      AdvancePartition(free, desc, t.owner, t.chains, h, Completed, ch);
      used, t := used', t.(chains := ch, usedQ := q');
    }

    // One turn of the interrupt handler's loop.
    method See() returns (b: int)
      requires Valid() && seen != used.idx
      modifies `busy, `seen, `t
      ensures Valid() && old(t).usedQ != [] && PhaseIs(old(t).chains, old(t).usedQ[0], Completed)
      ensures t == old(t).(chains := Advance(old(t).chains, old(t).usedQ[0], Seen), usedQ := old(t).usedQ[1..])
      ensures b == old(t).chains[old(t).usedQ[0]].buf && busy == old(busy) - {b}
    {
      NonEmpty(used.slots, seen, used.idx, t.usedQ);
      assert PhaseIs(t.chains, t.usedQ[0], Completed);
      ghost var x, q', ch := t.usedQ[0], t.usedQ[1..], Advance(t.chains, t.usedQ[0], Seen);
      var seen' := (seen + 1) % IDX;
      Consume(used.slots, seen, used.idx, t.usedQ, seen', q');
      var id := used.slots[seen % NUM];
      assert RequestOk(ops, status, data, media, x, t.chains[x]);
      if status[id] != 0 {
        assert false; // "virtio_disk_intr status"
      }
      b := info[id];
      var busy' := busy - {b};
      LeaveList(t.usedQ, t.chains, Completed, Seen, q', ch);
      SameList(t.availQ, t.chains, x, Published, Seen, ch);
      AdvanceBuffers(info, busy, t.chains, x, Seen, busy', ch);
      AdvancePartition(free, desc, t.owner, t.chains, x, Seen, ch);
      AdvanceRequests(ops, status, data, media, t.chains, x, Seen, ch);
      busy, seen, t := busy', seen', t.(chains := ch, usedQ := q');
    }

    // The interrupt handler: every completed request is seen, in order, and its buffer released.
    method Intr()
      requires Valid()
      modifies `busy, `seen, `t
      ensures Valid() && t.usedQ == [] && t.availQ == old(t).availQ && t.owner == old(t).owner
      ensures SeenExactly(old(t).chains, old(t).usedQ, t.chains)
    {
      SeeAll();
      EachSeen(old(t).chains, old(t).usedQ);
    }

    method SeeAll()
      requires Valid()
      modifies `busy, `seen, `t
      ensures Valid() && t.usedQ == [] && t.availQ == old(t).availQ && t.owner == old(t).owner
      ensures t.chains == AllSeen(old(t).chains, old(t).usedQ)
    {
      ghost var n, t0 := 0, t;
      SeenNone(t0);
      while seen != used.idx
        invariant Valid() && SeenTo(t0, t, n)
        decreases |t.usedQ|
      {
        ghost var t1 := t;
        var b := See();
        SeenOn(t0, t1, n, t);
        n := n + 1;
      }
      NonEmpty(used.slots, seen, used.idx, t.usedQ);
      SeenEnd(t0, t, n);
    }

    // virtio_disk_rw once b->disk is 0: the request is over, and its descriptors are free again.
    method Finish(h: int, b: int)
      requires Valid() && h in t.chains && t.chains[h].buf == b && b !in busy
      modifies `free, `desc, `info, `t
      ensures Valid() && old(t).chains[h].phase == Seen && t.chains == old(t).chains - {h}
              && NotInFlight(t.chains, b, old(t).chains[h].blockno)
      ensures b in data && data[b] == BlockAt(media, old(t).chains[h].blockno) == old(t).chains[h].want
      ensures t.availQ == old(t).availQ && t.usedQ == old(t).usedQ
      ensures forall i :: IsDesc(i) ==> (free[i] <==> old(free)[i] || InChain(old(t).chains, h, i))
    {
      ghost var c, o := t.chains[h], t.owner;
      ghost var t' := Track(o[h := HELD][c.data := HELD][c.status := HELD], t.chains - {h}, t.availQ, t.usedQ);
      assert ChainOk(desc, o, h, c);
      DropChain(free, desc, o, t.chains, h, t'.owner);
      DropLists(t.availQ, t.chains, Published, h);
      DropLists(t.usedQ, t.chains, Completed, h);
      assert RequestOk(ops, status, data, media, h, c);
      DropRequest(ops, status, data, media, t.chains, h);
      info, t := info[h := 0], t';
      FreeChain(h, c);
      assert NoneHeld(t.owner);
    }
  }

  ghost predicate NoneHeld(owner: seq<int>) {
    |owner| == NUM && forall i :: IsDesc(i) ==> owner[i] != HELD
  }

  ghost predicate ThreeHeld(owner: seq<int>, h: int, d: int, st: int) {
    && |owner| == NUM && IsDesc(h) && IsDesc(d) && IsDesc(st) && h != d && h != st && d != st
    && owner[h] == HELD && owner[d] == HELD && owner[st] == HELD
  }

  ghost predicate OnlyHeld(owner: seq<int>, h: int, d: int, st: int) {
    |owner| == NUM && forall i :: IsDesc(i) && owner[i] == HELD ==> i == h || i == d || i == st
  }

  lemma HeldAreThese(free: seq<bool>, owner: seq<int>, idx: seq<int>, free': seq<bool>, owner': seq<int>, h: int,
                     d: int, st: int)
    requires Taken(free, owner, idx, free', owner') && NoneHeld(owner) && |idx| == 3 && h == idx[0] && d == idx[1]
             && st == idx[2]
    ensures ThreeHeld(owner', h, d, st) && OnlyHeld(owner', h, d, st)
  {
    assert h in idx && d in idx && st in idx;
  }

  lemma AllPosted(t: Track, h: int, c: Chain)
    requires ThreeHeld(t.owner, h, c.data, c.status) && OnlyHeld(t.owner, h, c.data, c.status)
    ensures NoneHeld(Posted(t, h, c).owner)
  {
  }

  // No request under way is about this buffer or this block.
  ghost predicate NotInFlight(chains: map<int, Chain>, b: int, blockno: int) {
    forall k :: k in chains ==> chains[k].buf != b && chains[k].blockno != blockno
  }

  ghost function Posted(t: Track, h: int, c: Chain): Track {
    if |t.owner| == NUM && 0 <= h < NUM && 0 <= c.data < NUM && 0 <= c.status < NUM
    then Track(t.owner[h := h][c.data := h][c.status := h], t.chains[h := c], t.availQ + [h], t.usedQ)
    else t
  }

  // The chains once those of q have been seen.
  function AllSeen(chains: map<int, Chain>, q: seq<int>): map<int, Chain> {
    if q == [] then chains else Advance(AllSeen(chains, q[..|q| - 1]), q[|q| - 1], Seen)
  }

  // The first n completions in the used ring have been seen.
  ghost predicate SeenTo(t0: Track, t: Track, n: nat) {
    n <= |t0.usedQ| && t == t0.(chains := AllSeen(t0.chains, t0.usedQ[..n]), usedQ := t0.usedQ[n..])
  }

  lemma SeenNone(t: Track)
    ensures SeenTo(t, t, 0)
  {
    assert t.usedQ[..0] == [] && t.usedQ[0..] == t.usedQ;
  }

  lemma SeenOn(t0: Track, t: Track, n: nat, t': Track)
    requires SeenTo(t0, t, n) && t.usedQ != []
    requires t' == t.(chains := Advance(t.chains, t.usedQ[0], Seen), usedQ := t.usedQ[1..])
    ensures SeenTo(t0, t', n + 1)
  {
    var q := t0.usedQ;
    assert q[..n + 1][..n] == q[..n] && q[n..][1..] == q[n + 1..];
  }

  lemma SeenEnd(t0: Track, t: Track, n: nat)
    requires SeenTo(t0, t, n) && t.usedQ == []
    ensures t == t0.(chains := AllSeen(t0.chains, t0.usedQ), usedQ := [])
  {
    assert t0.usedQ[..n] == t0.usedQ;
  }

  // What the interrupt handler did, chain by chain.
  lemma {:induction false} AllSeenAt(chains: map<int, Chain>, q: seq<int>, h: int)
    requires h in chains
    ensures h in AllSeen(chains, q)
    ensures AllSeen(chains, q)[h] == if h in q then chains[h].(phase := Seen) else chains[h]
  {
    if q != [] {
      AllSeenAt(chains, q[..|q| - 1], h);
    }
  }

  // The chains that were completed are seen, and all others are as they were.
  ghost predicate SeenExactly(chains: map<int, Chain>, q: seq<int>, chains': map<int, Chain>) {
    && (forall h :: h in chains' ==> h in chains)
    && forall h :: h in chains ==> h in chains' && chains'[h] == if h in q then chains[h].(phase := Seen) else chains[h]
  }

  lemma EachSeen(chains: map<int, Chain>, q: seq<int>)
    ensures SeenExactly(chains, q, AllSeen(chains, q))
  {
    forall h | h in chains
      ensures h in AllSeen(chains, q)
              && AllSeen(chains, q)[h] == if h in q then chains[h].(phase := Seen) else chains[h]
    {
      AllSeenAt(chains, q, h);
    }
    NoneAdded(chains, q);
  }

  lemma {:induction false} NoneAdded(chains: map<int, Chain>, q: seq<int>)
    ensures forall h :: h in AllSeen(chains, q) ==> h in chains
  {
    if q != [] {
      NoneAdded(chains, q[..|q| - 1]);
    }
  }

  // The used ring has room for a request that is not in it.
  lemma CompletedRoom(q: seq<int>, chains: map<int, Chain>, owner: seq<int>, desc: seq<Desc>, h: int)
    requires PhaseIs(chains, h, Fetched) && Lists(q, chains, Completed)
             && forall k :: k in chains ==> ChainOk(desc, owner, k, chains[k])
    ensures |q| < NUM
  {
    assert ChainOk(desc, owner, h, chains[h]);
    forall k | 0 <= k < |q| ensures 0 <= q[k] < NUM && q[k] != h {
      assert PhaseIs(chains, q[k], Completed);
    }
    RoomInRing(q, h);
  }

  ghost predicate LinkedHeld(desc: seq<Desc>, owner: seq<int>, h: int, c: Chain) {
    && |desc| == NUM && |owner| == NUM && IsDesc(h) && IsDesc(c.data) && IsDesc(c.status)
    && h != c.data && h != c.status && c.data != c.status
    && owner[h] == HELD && owner[c.data] == HELD && owner[c.status] == HELD
    && desc[h].more && desc[h].next == c.data && desc[c.data].more && desc[c.data].next == c.status
      && !desc[c.status].more
  }

  // A head that is in no chain yet finds room in either ring.
  lemma PublishedRoom(q: seq<int>, chains: map<int, Chain>, owner: seq<int>, desc: seq<Desc>, h: int, c: Chain,
                      chains': map<int, Chain>)
    requires IsDesc(h) && h !in chains && Lists(q, chains, Published) && chains' == chains[h := c]
             && forall k :: k in chains' ==> ChainOk(desc, owner, k, chains'[k])
    ensures |q| < NUM
  {
    forall k | 0 <= k < |q| ensures 0 <= q[k] < NUM && q[k] != h {
      assert PhaseIs(chains, q[k], Published) && q[k] in chains';
    }
    RoomInRing(q, h);
  }

  // The descriptors of idx, distinct and free before, are held now; the others are as before.
  ghost predicate Taken(free: seq<bool>, owner: seq<int>, idx: seq<int>, free': seq<bool>, owner': seq<int>) {
    && |free| == |owner| == |free'| == |owner'| == NUM && Distinct(idx)
    && (forall k :: 0 <= k < |idx| ==> IsDesc(idx[k]) && free[idx[k]])
    && (forall i :: IsDesc(i) ==> free'[i] == (free[i] && i !in idx)
                                  && owner'[i] == if i in idx then HELD else owner[i])
  }

  lemma TakenOne(free: seq<bool>, owner: seq<int>, idx: seq<int>, free': seq<bool>, owner': seq<int>)
    requires Taken(free, owner, idx, free', owner') && idx != []
             && forall i :: IsDesc(i) ==> (free[i] <==> owner[i] == FREE)
    ensures IsDesc(idx[0]) && !free'[idx[0]] && owner'[idx[0]] == HELD
    ensures Taken(free, owner, idx[1..], free'[idx[0] := true], owner'[idx[0] := FREE])
  {
    forall i | IsDesc(i) ensures i in idx <==> i == idx[0] || i in idx[1..] {
    }
  }

  lemma NoneLeft(free: seq<bool>, owner: seq<int>, idx: seq<int>, free': seq<bool>, owner': seq<int>)
    requires Taken(free, owner, idx, free', owner') && forall i :: IsDesc(i) ==> !free'[i]
    ensures |FreeSet(free)| <= |idx|
  {
    forall x | x in FreeSet(free) ensures x in Members(idx) {
      assert IsDesc(x);
    }
    DistinctSize(idx);
    assert Members(idx) == FreeSet(free) + (Members(idx) - FreeSet(free));
  }

  lemma ThreeTaken(free: seq<bool>, owner: seq<int>, idx: seq<int>, free': seq<bool>, owner': seq<int>)
    requires Taken(free, owner, idx, free', owner')
    ensures |idx| <= |FreeSet(free)|
  {
    DistinctSize(idx);
    assert FreeSet(free) == Members(idx) + (FreeSet(free) - Members(idx));
  }
}
