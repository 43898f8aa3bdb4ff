/** The buffer cache (kernel/bio.c): NBUF buffers on a doubly linked list in order of use,
    over a disk that virtio_disk_rw reads and writes one block at a time. */
module Bio {
  import opened Blocks
  import opened Common

  datatype Buf = Buf(dev: nat, blockno: nat, valid: bool, refcnt: nat, data: Block)

  predicate Tagged(u: Buf, b: int) {
    u.dev == ROOTDEV && u.blockno == b
  }

  predicate Caches(u: Buf, b: int) {
    u.valid && Tagged(u, b)
  }

  // At most one buffer per block of a real device (buffers start out tagged 0/0).
  predicate Unique(bufs: seq<Buf>) {
    forall i, j :: 0 <= i < j < |bufs| && bufs[i].dev != 0 && bufs[i].dev == bufs[j].dev
                   ==> bufs[i].blockno != bufs[j].blockno
  }

  // The logical content of a block: its valid cached copy if there is one, else the disk block.
  ghost function Content(disk: seq<Block>, bufs: seq<Buf>, b: nat): Block
    requires b < |disk|
  {
    if i :| 0 <= i < |bufs| && Caches(bufs[i], b) then bufs[i].data else disk[b]
  }

  ghost function RefCount(bufs: seq<Buf>, b: int): nat {
    if i :| 0 <= i < |bufs| && Tagged(bufs[i], b) then bufs[i].refcnt else 0
  }

  // A buffer that nobody references holds what the disk holds, so it may be recycled.
  predicate IdleClean(disk: seq<Block>, bufs: seq<Buf>) {
    forall i :: 0 <= i < |bufs| && bufs[i].dev == ROOTDEV ==>
      && bufs[i].blockno < |disk|
      && (bufs[i].valid && bufs[i].refcnt == 0 ==> bufs[i].data == disk[bufs[i].blockno])
  }

  predicate OnlyRootUsed(bufs: seq<Buf>) {
    forall i :: 0 <= i < |bufs| && bufs[i].refcnt > 0 ==> bufs[i].dev == ROOTDEV
  }

  lemma ContentOf(disk: seq<Block>, bufs: seq<Buf>, i: nat)
    requires Unique(bufs) && i < |bufs| && bufs[i].dev == ROOTDEV && bufs[i].blockno < |disk|
    ensures Content(disk, bufs, bufs[i].blockno) == if bufs[i].valid then bufs[i].data else disk[bufs[i].blockno]
    ensures RefCount(bufs, bufs[i].blockno) == bufs[i].refcnt
  {
    var b := bufs[i].blockno;
    assert Tagged(bufs[i], b);
    forall j | 0 <= j < |bufs| && Tagged(bufs[j], b) ensures j == i {}
  }

  // An unreferenced block is logically what is on disk, whether it is cached or not.
  lemma IdleContent(disk: seq<Block>, bufs: seq<Buf>, b: nat)
    requires Unique(bufs) && IdleClean(disk, bufs) && b < |disk| && RefCount(bufs, b) == 0
    ensures Content(disk, bufs, b) == disk[b]
  {
    if i :| 0 <= i < |bufs| && Tagged(bufs[i], b) {
      ContentOf(disk, bufs, i);
    }
  }

  // What changing one buffer does to contents and reference counts.
  lemma UpdateContent(disk: seq<Block>, bufs: seq<Buf>, bufs': seq<Buf>, i: nat)
    requires Unique(bufs) && i < |bufs| == |bufs'| && bufs' == bufs[i := bufs'[i]]
    requires bufs[i].dev == bufs'[i].dev == ROOTDEV && bufs[i].blockno == bufs'[i].blockno < |disk|
    ensures Unique(bufs')
    ensures forall b :: 0 <= b < |disk| ==>
              Content(disk, bufs', b) ==
              if b != bufs'[i].blockno then Content(disk, bufs, b) else if bufs'[i].valid then bufs'[i].data
                else disk[b]
    ensures forall b :: RefCount(bufs', b) == if b == bufs'[i].blockno then bufs'[i].refcnt else RefCount(bufs, b)
  {
    ContentOf(disk, bufs', i);
    forall b | b != bufs'[i].blockno ensures RefCount(bufs', b) == RefCount(bufs, b) {
      SameElsewhere(bufs, bufs', b);
      if j :| 0 <= j < |bufs| && Tagged(bufs[j], b) {
        OnlyTagged(bufs, j);
        OnlyTagged(bufs', j);
      }
    }
    forall b | 0 <= b < |disk| && b != bufs'[i].blockno ensures Content(disk, bufs', b) == Content(disk, bufs, b) {
      SameElsewhere(bufs, bufs', b);
      if j :| 0 <= j < |bufs| && Caches(bufs[j], b) {
        ContentOf(disk, bufs, j);
        ContentOf(disk, bufs', j);
      }
    }
  }

  lemma OnlyTagged(bufs: seq<Buf>, i: nat)
    requires Unique(bufs) && i < |bufs| && bufs[i].dev == ROOTDEV
    ensures RefCount(bufs, bufs[i].blockno) == bufs[i].refcnt
  {
    assert Tagged(bufs[i], bufs[i].blockno);
  }

  // The buffers of block b are the same ones in both states.
  lemma SameElsewhere(bufs: seq<Buf>, bufs': seq<Buf>, b: int)
    requires |bufs| == |bufs'|
    requires forall j :: 0 <= j < |bufs| ==> bufs'[j] == bufs[j] || (!Tagged(bufs[j], b) && !Tagged(bufs'[j], b))
    ensures forall j :: 0 <= j < |bufs| ==> (Tagged(bufs[j], b) <==> Tagged(bufs'[j], b))
    ensures forall j :: 0 <= j < |bufs| ==> (Caches(bufs[j], b) <==> Caches(bufs'[j], b))
  {
  }

  // Recycling an unreferenced buffer for an uncached block changes no logical content.
  lemma RecycleContent(disk: seq<Block>, bufs: seq<Buf>, bufs': seq<Buf>, i: nat, b: nat)
    requires Unique(bufs) && IdleClean(disk, bufs) && i < |bufs| && bufs[i].refcnt == 0 && b < |disk|
    requires forall j :: 0 <= j < |bufs| ==> !Tagged(bufs[j], b)
    requires bufs' == bufs[i := Buf(ROOTDEV, b, false, 1, bufs[i].data)]
    ensures Unique(bufs') && IdleClean(disk, bufs')
    ensures forall c :: 0 <= c < |disk| ==> Content(disk, bufs', c) == Content(disk, bufs, c)
    ensures forall c :: RefCount(bufs', c) == if c == b then 1 else RefCount(bufs, c)
    ensures RefCount(bufs, b) == 0
  {
    ContentOf(disk, bufs', i);
    forall c | c != b ensures RefCount(bufs', c) == RefCount(bufs, c) {
      if j :| 0 <= j < |bufs| && j != i && Tagged(bufs[j], c) {
        OnlyTagged(bufs, j);
        OnlyTagged(bufs', j);
      } else if Tagged(bufs[i], c) {
        OnlyTagged(bufs, i);
      }
    }
    forall c | 0 <= c < |disk| ensures Content(disk, bufs', c) == Content(disk, bufs, c) {
      if j :| 0 <= j < |bufs| && j != i && Tagged(bufs[j], c) {
        ContentOf(disk, bufs, j);
        ContentOf(disk, bufs', j);
      } else if Tagged(bufs[i], c) {
        ContentOf(disk, bufs, i);
      }
    }
  }

  // ----- What clients see -----

  // mem gives each block its logical content, refs counts the references to it.
  ghost predicate View(disk: seq<Block>, bufs: seq<Buf>, mem: seq<Block>, refs: multiset<int>) {
    && |mem| == |disk|
    && (forall b {:trigger Content(disk, bufs, b)} :: 0 <= b < |disk| ==> mem[b] == Content(disk, bufs, b))
    && (forall b {:trigger RefCount(bufs, b)} :: refs[b] == RefCount(bufs, b))
  }

  lemma ViewAt(disk: seq<Block>, bufs: seq<Buf>, mem: seq<Block>, refs: multiset<int>, i: nat)
    requires View(disk, bufs, mem, refs) && Unique(bufs)
    requires i < |bufs| && bufs[i].dev == ROOTDEV && bufs[i].blockno < |disk|
    ensures mem[bufs[i].blockno] == if bufs[i].valid then bufs[i].data else disk[bufs[i].blockno]
    ensures refs[bufs[i].blockno] == bufs[i].refcnt
  {
    ContentOf(disk, bufs, i);
  }

  lemma UpdateView(disk: seq<Block>, bufs: seq<Buf>, mem: seq<Block>, refs: multiset<int>, i: nat, u: Buf)
    requires View(disk, bufs, mem, refs) && Unique(bufs)
    requires i < |bufs| && bufs[i].dev == u.dev == ROOTDEV && bufs[i].blockno == u.blockno < |disk|
    ensures Unique(bufs[i := u])
    ensures View(disk, bufs[i := u], mem[u.blockno := if u.valid then u.data else disk[u.blockno]],
                 refs[u.blockno := u.refcnt])
  {
    UpdateContent(disk, bufs, bufs[i := u], i);
    var bufs', refs' := bufs[i := u], refs[u.blockno := u.refcnt];
    var mem' := mem[u.blockno := if u.valid then u.data else disk[u.blockno]];
    forall b | 0 <= b < |disk| ensures mem'[b] == Content(disk, bufs', b) {
      assert mem[b] == Content(disk, bufs, b);
    }
    forall b ensures refs'[b] == RefCount(bufs', b) {
      assert refs[b] == RefCount(bufs, b);
    }
  }

  lemma RecycleView(disk: seq<Block>, bufs: seq<Buf>, mem: seq<Block>, refs: multiset<int>, i: nat, b: nat)
    requires View(disk, bufs, mem, refs) && Unique(bufs) && IdleClean(disk, bufs)
    requires i < |bufs| && bufs[i].refcnt == 0 && b < |disk|
    requires forall j :: 0 <= j < |bufs| ==> !Tagged(bufs[j], b)
    ensures var bufs' := bufs[i := Buf(ROOTDEV, b, false, 1, bufs[i].data)];
            Unique(bufs') && IdleClean(disk, bufs') && View(disk, bufs', mem, refs[b := 1]) && refs[b] == 0
  {
    RecycleContent(disk, bufs, bufs[i := Buf(ROOTDEV, b, false, 1, bufs[i].data)], i, b);
  }

  lemma WriteView(disk: seq<Block>, bufs: seq<Buf>, mem: seq<Block>, refs: multiset<int>, i: nat)
    requires View(disk, bufs, mem, refs) && Unique(bufs) && IdleClean(disk, bufs)
    requires i < |bufs| && Caches(bufs[i], bufs[i].blockno)
    ensures var disk' := disk[bufs[i].blockno := bufs[i].data];
            IdleClean(disk', bufs) && View(disk', bufs, mem, refs)
  {
    var disk' := disk[bufs[i].blockno := bufs[i].data];
    ContentOf(disk, bufs, i);
    ContentOf(disk', bufs, i);
    assert IdleClean(disk', bufs);
    forall b | 0 <= b < |disk| && b != bufs[i].blockno ensures Content(disk', bufs, b) == Content(disk, bufs, b) {}
  }

  // ----- Counting buffers -----

  lemma {:induction false} Crowded(bufs: seq<Buf>, n: nat, busy: set<int>)
    requires Unique(bufs) && n <= |bufs|
    requires forall i :: 0 <= i < n ==> bufs[i].dev == ROOTDEV && bufs[i].blockno in busy
    ensures n <= |busy|
  {
    if n > 0 {
      Crowded(bufs, n - 1, busy - {bufs[n - 1].blockno});
    }
  }

  // Fewer than NBUF blocks in use leave a buffer free.
  lemma FreeBuffer(bufs: seq<Buf>, busy: set<int>)
    requires Unique(bufs) && OnlyRootUsed(bufs) && |busy| < |bufs|
    requires forall b :: RefCount(bufs, b) > 0 ==> b in busy
    ensures exists i :: 0 <= i < |bufs| && bufs[i].refcnt == 0
  {
    if forall i :: 0 <= i < |bufs| ==> bufs[i].refcnt > 0 {
      forall i | 0 <= i < |bufs| ensures bufs[i].blockno in busy {
        OnlyTagged(bufs, i);
      }
      Crowded(bufs, |bufs|, busy);
    }
  }

  lemma {:induction false} Occupied(bufs: seq<Buf>, used: seq<int>, n: nat) returns (at: set<nat>)
    requires n <= |used| && forall i, j :: 0 <= i < j < |used| ==> used[i] != used[j]
    requires forall i :: 0 <= i < |used| ==> RefCount(bufs, used[i]) > 0
    ensures |at| == n
    ensures forall i :: i in at ==> i < |bufs| && bufs[i].refcnt > 0 && bufs[i].blockno in used[..n]
  {
    if n == 0 {
      at := {};
    } else {
      at := Occupied(bufs, used, n - 1);
      var i :| 0 <= i < |bufs| && Tagged(bufs[i], used[n - 1]) && bufs[i].refcnt == RefCount(bufs, used[n - 1]);
      at := at + {i};
    }
  }

  // NBUF blocks in use leave none.
  lemma NoFreeBuffer(bufs: seq<Buf>, used: seq<int>)
    requires |used| >= |bufs| && forall i, j :: 0 <= i < j < |used| ==> used[i] != used[j]
    requires forall i :: 0 <= i < |used| ==> RefCount(bufs, used[i]) > 0
    ensures forall i :: 0 <= i < |bufs| ==> bufs[i].refcnt > 0
  {
    var at := Occupied(bufs, used, |used|);
    if free :| 0 <= free < |bufs| && bufs[free].refcnt == 0 {
      AllBelow(at, free, |bufs|);
    }
  }

  // Distinct indices below n that avoid one of them are fewer than n.
  lemma {:induction false} AllBelow(at: set<nat>, free: nat, n: nat)
    requires free < n && free !in at && forall i :: i in at ==> i < n
    ensures |at| < n
  {
    if free < n - 1 {
      AllBelow(at - {n - 1}, free, n - 1);
    } else if n > 1 && n - 2 !in at {
      AllBelow(at, n - 2, n - 1);
    } else if n > 1 {
      AllBelow(at - {n - 2}, n - 2, n - 1);
    } else {
      assert at == {};
    }
  }

  // ----- The list -----

  // Node k of the list: the head (index NBUF) closes the circle at both ends.
  function Node(order: seq<nat>, k: int): nat
    requires 0 <= k <= |order| + 1
  {
    if 1 <= k <= |order| then order[k - 1] else NBUF
  }

  predicate LinkAt(next: seq<nat>, prev: seq<nat>, order: seq<nat>, k: int)
    requires |next| == |prev| == NBUF + 1 && 0 <= k <= |order|
    requires forall k :: 0 <= k < |order| ==> order[k] < NBUF
  {
    next[Node(order, k)] == Node(order, k + 1) && prev[Node(order, k + 1)] == Node(order, k)
  }

  predicate Linked(next: seq<nat>, prev: seq<nat>, order: seq<nat>) {
    && |next| == |prev| == NBUF + 1
    && (forall k :: 0 <= k < |order| ==> order[k] < NBUF)
    && (forall j, k :: 0 <= j < k < |order| ==> order[j] != order[k])
    && (forall k :: 0 <= k <= |order| ==> LinkAt(next, prev, order, k))
  }

  // Splicing a buffer in behind the head.
  function PushNext(next: seq<nat>, b: nat): seq<nat>
    requires |next| == NBUF + 1 && b < NBUF
  {
    next[b := next[NBUF]][NBUF := b]
  }

  function PushPrev(next: seq<nat>, prev: seq<nat>, b: nat): seq<nat>
    requires |next| == |prev| == NBUF + 1 && b < NBUF && next[NBUF] <= NBUF
  {
    prev[b := NBUF][next[NBUF] := b]
  }

  lemma PushLinked(next: seq<nat>, prev: seq<nat>, order: seq<nat>, b: nat)
    requires Linked(next, prev, order) && b < NBUF && b !in order
    ensures Node(order, 0) == NBUF && next[NBUF] == Node(order, 1) <= NBUF
    ensures Linked(PushNext(next, b), PushPrev(next, prev, b), [b] + order)
  {
    var order' := [b] + order;
    assert LinkAt(next, prev, order, 0);
    var next', prev' := PushNext(next, b), PushPrev(next, prev, b);
    forall k | 0 <= k <= |order'| ensures LinkAt(next', prev', order', k) {
      if k >= 2 {
        assert LinkAt(next, prev, order, k - 1);
        assert Node(order', k) == Node(order, k - 1) && Node(order', k + 1) == Node(order, k);
      }
    }
  }

  // The order without its position k.
  function Without(order: seq<nat>, k: nat): (r: seq<nat>)
    requires k < |order|
    ensures |r| == |order| - 1
    ensures forall j :: 0 <= j < |r| ==> r[j] == order[if j < k then j else j + 1]
  {
    order[..k] + order[k + 1..]
  }

  lemma WithoutDistinct(order: seq<nat>, k: nat)
    requires k < |order|
    requires forall k :: 0 <= k < |order| ==> order[k] < NBUF
    requires forall j, k :: 0 <= j < k < |order| ==> order[j] != order[k]
    ensures order[k] !in Without(order, k)
    ensures forall j :: 0 <= j < |order| - 1 ==> Without(order, k)[j] < NBUF
    ensures forall i, j :: 0 <= i < j < |order| - 1 ==> Without(order, k)[i] != Without(order, k)[j]
  {
  }

  lemma UnlinkAt(next: seq<nat>, prev: seq<nat>, order: seq<nat>, k: nat, j: nat)
    requires Linked(next, prev, order) && k < |order| && j < |order|
    requires prev[order[k]] == Node(order, k) && next[order[k]] == Node(order, k + 2)
    requires forall j :: 0 <= j < |order| - 1 ==> Without(order, k)[j] < NBUF
    ensures var b := order[k];
            LinkAt(next[prev[b] := next[b]], prev[next[b] := prev[b]], Without(order, k), j)
  {
    var i := if j <= k then j else j + 1;
    assert LinkAt(next, prev, order, i);
    var r := Without(order, k);
    assert Node(r, j) == Node(order, i);
    if j < k {
      assert Node(r, j + 1) == Node(order, j + 1) && Node(order, j + 1) != Node(order, k + 2);
    } else {
      assert Node(r, j + 1) == Node(order, j + 2);
    }
  }

  // Unlinking the buffer at position k.
  lemma UnlinkLinked(next: seq<nat>, prev: seq<nat>, order: seq<nat>, k: nat)
    requires Linked(next, prev, order) && k < |order|
    ensures var b := order[k];
            && prev[b] == Node(order, k) <= NBUF && next[b] == Node(order, k + 2) <= NBUF
            && Linked(next[prev[b] := next[b]], prev[next[b] := prev[b]], Without(order, k))
            && b !in Without(order, k)
  {
    assert LinkAt(next, prev, order, k) && LinkAt(next, prev, order, k + 1);
    WithoutDistinct(order, k);
    var b, r := order[k], Without(order, k);
    var next', prev' := next[prev[b] := next[b]], prev[next[b] := prev[b]];
    forall j | 0 <= j < |order| ensures LinkAt(next', prev', r, j) {
      UnlinkAt(next, prev, order, k, j);
    }
  }

  ghost predicate Everything(order: seq<nat>) {
    |order| == NBUF && forall i :: 0 <= i < NBUF ==> i in order
  }

  lemma FrontEverything(order: seq<nat>, k: nat)
    requires Everything(order) && k < NBUF
    ensures Everything([order[k]] + Without(order, k))
  {
    var r := [order[k]] + Without(order, k);
    forall c | 0 <= c < NBUF ensures c in r {
      assert c in order;
      var j :| 0 <= j < NBUF && order[j] == c;
      if j < k {
        assert r[j + 1] == c;
      } else if j > k {
        assert r[j] == c;
      }
    }
  }

  ghost predicate LeastRecent(order: seq<nat>, bufs: seq<Buf>, p: nat) {
    && p < |bufs| && bufs[p].refcnt == 0
    && exists k :: 0 <= k < |order| && order[k] == p
                   && forall j :: k < j < |order| ==> order[j] < |bufs| && bufs[order[j]].refcnt > 0
  }

  function Ref(u: Buf): Buf {
    u.(refcnt := u.refcnt + 1)
  }

  // What bget does to the buffers when it returns buffer p for block b.
  ghost predicate Got(bufs: seq<Buf>, bufs': seq<Buf>, order: seq<nat>, p: nat, b: nat) {
    && p < |bufs|
    && if exists j :: 0 <= j < |bufs| && Tagged(bufs[j], b)
       then Tagged(bufs[p], b) && bufs' == bufs[p := Ref(bufs[p])]
       else LeastRecent(order, bufs, p) && bufs' == bufs[p := Buf(ROOTDEV, b, false, 1, bufs[p].data)]
  }

  class BufferCache {
    var disk: seq<Block>
    var bufs: seq<Buf>
    var next: seq<nat>
    var prev: seq<nat>
    ghost var order: seq<nat>              // the list from most to least recently used
    ghost var mem: seq<Block>              // the logical content of every block
    ghost var refs: multiset<int>          // the blocks in use, once per reference
    ghost var writes: seq<seq<Block>>      // the disk after each block write

    ghost predicate Valid()
      reads this
    {
      && |bufs| == NBUF && Unique(bufs) && IdleClean(disk, bufs) && OnlyRootUsed(bufs)
      && Linked(next, prev, order) && Everything(order)
      && View(disk, bufs, mem, refs)
    }

    // A buffer in use for block b: tagged, read in and referenced.
    ghost predicate Handle(i: nat, b: nat)
      reads this
    {
      i < |bufs| && b < |disk| && Caches(bufs[i], b) && bufs[i].refcnt > 0
    }

    ghost predicate HasRoom(b: nat)
      reads this
    {
      exists i :: 0 <= i < |bufs| && (Tagged(bufs[i], b) || bufs[i].refcnt == 0)
    }

    // binit
    constructor (disk: seq<Block>)
      ensures Valid() && this.disk == disk && writes == [] && mem == disk && refs == multiset{}
    {
      this.disk := disk;
      bufs := seq(NBUF, _ => Buf(0, 0, false, 0, seq(WORDS, _ => 0)));
      next := seq(NBUF + 1, _ => NBUF);
      prev := seq(NBUF + 1, _ => NBUF);
      order, mem, refs, writes := [], disk, multiset{}, [];
      new;
      var b := 0;
      while b < NBUF
        invariant 0 <= b <= NBUF && |order| == b && Linked(next, prev, order)
        invariant forall i :: 0 <= i < NBUF ==> (i in order <==> i < b)
        invariant bufs == seq(NBUF, _ => Buf(0, 0, false, 0, seq(WORDS, _ => 0)))
        invariant this.disk == disk && mem == disk && refs == multiset{} && writes == []
      {
        PushLinked(next, prev, order, b);
        prev := PushPrev(next, prev, b);
        next := PushNext(next, b);
        order := [b] + order;
        b := b + 1;
      }
    }

    // First loop of bget: the buffer tagged with block b, or NBUF.
    method FindCached(b: nat) returns (p: nat)
      requires Valid()
      ensures p <= NBUF
      ensures p < NBUF ==> Tagged(bufs[p], b)
      ensures p == NBUF ==> forall i :: 0 <= i < NBUF ==> !Tagged(bufs[i], b)
    {
      assert LinkAt(next, prev, order, 0);
      p := next[NBUF];
      ghost var k := 1;
      while p != NBUF && !Tagged(bufs[p], b)
        invariant 1 <= k <= NBUF + 1 && p == Node(order, k)
        invariant forall j :: 0 <= j < k - 1 ==> !Tagged(bufs[order[j]], b)
        decreases NBUF + 1 - k
      {
        assert LinkAt(next, prev, order, k);
        p := next[p];
        k := k + 1;
      }
      if p == NBUF {
        forall i | 0 <= i < NBUF ensures !Tagged(bufs[i], b) {
          assert i in order;
          var j :| 0 <= j < |order| && order[j] == i;
        }
      }
    }

    // Second loop of bget: the least recently used buffer without references, or NBUF.
    method FindFree() returns (p: nat)
      requires Valid()
      ensures p <= NBUF
      ensures p < NBUF ==> LeastRecent(order, bufs, p)
      ensures p == NBUF ==> forall i :: 0 <= i < NBUF ==> bufs[i].refcnt > 0
    {
      assert LinkAt(next, prev, order, NBUF);
      p := prev[NBUF];
      ghost var k := NBUF;
      while p != NBUF && bufs[p].refcnt != 0
        invariant 0 <= k <= NBUF && p == Node(order, k)
        invariant forall j :: k <= j < NBUF ==> bufs[order[j]].refcnt > 0
        decreases k
      {
        assert LinkAt(next, prev, order, k - 1);
        p := prev[p];
        k := k - 1;
      }
      if p == NBUF {
        forall i | 0 <= i < NBUF ensures bufs[i].refcnt > 0 {
          assert i in order;
          var j :| 0 <= j < |order| && order[j] == i;
        }
      } else {
        assert order[k - 1] == p;
      }
    }

    // bget's critical section.  A cached block gets one more reference; otherwise the least
    // recently used unreferenced buffer is recycled; None stands for the panic.
    method Bget(b: nat) returns (r: Option<nat>)
      requires Valid() && b < |disk|
      modifies this`bufs, this`refs
      ensures unchanged(`disk) && unchanged(`mem) && unchanged(`writes)
      ensures Valid()
      ensures r.None? <==> !old(HasRoom(b))
      ensures r.None? ==> bufs == old(bufs) && refs == old(refs)
      ensures r.Some? ==> r.value < |bufs| && Got(old(bufs), bufs, order, r.value, b) && refs == old(refs) + multiset{b}
      ensures r.Some? ==> forall j, c :: old(Handle(j, c)) ==> Handle(j, c)
    {
      var p := FindCached(b);
      if p < NBUF {
        ViewAt(disk, bufs, mem, refs, p);
        UpdateView(disk, bufs, mem, refs, p, Ref(bufs[p]));
        bufs := bufs[p := Ref(bufs[p])];
        refs := refs + multiset{b};
        return Some(p);
      }
      p := FindFree();
      if p < NBUF {
        RecycleView(disk, bufs, mem, refs, p, b);
        bufs := bufs[p := Buf(ROOTDEV, b, false, 1, bufs[p].data)];
        refs := refs + multiset{b};
        return Some(p);
      }
      return None;
    }

    // bread: the buffer of block b, read from disk if it was not valid.
    method Bread(b: nat) returns (i: nat)
      requires Valid() && b < |disk| && (b in refs || HasRoom(b))
      modifies this`bufs, this`refs
      ensures unchanged(`disk) && unchanged(`mem) && unchanged(`writes)
      ensures Valid() && Handle(i, b) && bufs[i].data == mem[b] && refs == old(refs) + multiset{b}
      ensures forall j, c :: old(Handle(j, c)) ==> Handle(j, c)
    {
      if b in refs {
        assert RefCount(bufs, b) > 0;
      }
      var r := Bget(b);
      i := r.value;
      if !bufs[i].valid {
        Fill(i, b);
      }
      ViewAt(disk, bufs, mem, refs, i);
    }

    // virtio_disk_rw(b, 0); b->valid = 1
    method Fill(i: nat, ghost b: nat)
      requires Valid() && b < |disk| && i < NBUF && Tagged(bufs[i], b) && !bufs[i].valid
      modifies this`bufs
      ensures unchanged(`disk) && unchanged(`mem) && unchanged(`refs) && unchanged(`writes)
      ensures Valid() && Caches(bufs[i], b) && bufs[i].refcnt == old(bufs[i].refcnt)
      ensures forall j, c :: old(Handle(j, c)) ==> Handle(j, c)
    {
      var u := bufs[i].(valid := true, data := disk[bufs[i].blockno]);
      ViewAt(disk, bufs, mem, refs, i);
      UpdateView(disk, bufs, mem, refs, i, u);
      bufs := bufs[i := u];
    }

    // The holder of a buffer overwrites its data.
    method SetData(i: nat, ghost b: nat, data: Block)
      requires Valid() && Handle(i, b)
      modifies this`bufs, this`mem
      ensures unchanged(`disk) && unchanged(`refs) && unchanged(`writes)
      ensures Valid() && mem == old(mem)[b := data] && bufs[i].data == data
      ensures forall j, c :: old(Handle(j, c)) ==> Handle(j, c)
    {
      ViewAt(disk, bufs, mem, refs, i);
      UpdateView(disk, bufs, mem, refs, i, bufs[i].(data := data));
      bufs := bufs[i := bufs[i].(data := data)];
      mem := mem[b := data];
    }

    // bwrite: the cached copy reaches the disk; no reader sees a difference.
    method Bwrite(i: nat, ghost b: nat)
      requires Valid() && Handle(i, b)
      modifies this`disk, this`writes
      ensures unchanged(`bufs) && unchanged(`mem) && unchanged(`refs)
      ensures Valid() && disk == old(disk)[b := mem[b]] && writes == old(writes) + [disk]
    {
      ViewAt(disk, bufs, mem, refs, i);
      WriteView(disk, bufs, mem, refs, i);
      disk := disk[bufs[i].blockno := bufs[i].data];   // virtio_disk_rw(b, 1)
      writes := writes + [disk];
    }

    // bunpin, and the first half of brelse.
    method Bunpin(i: nat, ghost b: nat)
      requires Valid() && Handle(i, b) && (refs[b] > 1 || mem[b] == disk[b])
      modifies this`bufs, this`refs
      ensures unchanged(`disk) && unchanged(`mem) && unchanged(`writes)
      ensures Valid() && refs == old(refs) - multiset{b}
      ensures forall j, c :: c != b && old(Handle(j, c)) ==> Handle(j, c)
      ensures bufs[i].refcnt == refs[b] && (refs[b] > 0 ==> Handle(i, b))
    {
      var u := bufs[i].(refcnt := bufs[i].refcnt - 1);
      ViewAt(disk, bufs, mem, refs, i);
      UpdateView(disk, bufs, mem, refs, i, u);
      bufs := bufs[i := u];
      refs := refs - multiset{b};
    }

    // brelse: drop the reference; an unreferenced buffer becomes the most recently used.
    method Brelse(i: nat, ghost b: nat)
      requires Valid() && Handle(i, b) && (refs[b] > 1 || mem[b] == disk[b])
      modifies this`bufs, this`refs, this`next, this`prev, this`order
      ensures unchanged(`disk) && unchanged(`mem) && unchanged(`writes)
      ensures Valid() && refs == old(refs) - multiset{b}
      ensures forall j, c :: c != b && old(Handle(j, c)) ==> Handle(j, c)
      ensures refs[b] > 0 ==> order == old(order) && Handle(i, b)
      ensures refs[b] == 0 ==> exists k :: 0 <= k < NBUF && old(order)[k] == i && order == [i] + Without(old(order), k)
    {
      Bunpin(i, b);
      if bufs[i].refcnt == 0 {
        MoveToFront(i);
      }
    }

    // The splice in brelse.
    method MoveToFront(i: nat)
      requires Linked(next, prev, order) && Everything(order) && i < NBUF
      modifies this`next, this`prev, this`order
      ensures Linked(next, prev, order) && Everything(order)
      ensures exists k :: 0 <= k < NBUF && old(order)[k] == i && order == [i] + Without(old(order), k)
    {
      assert i in order;
      ghost var k :| 0 <= k < |order| && order[k] == i;
      UnlinkLinked(next, prev, order, k);
      var n, p := next[i], prev[i];
      prev := prev[n := p];
      next := next[p := n];
      PushLinked(next, prev, Without(order, k), i);
      prev := PushPrev(next, prev, i);
      next := PushNext(next, i);
      FrontEverything(order, k);
      order := [i] + Without(order, k);
    }

    // bpin
    method Bpin(i: nat, ghost b: nat)
      requires Valid() && Handle(i, b)
      modifies this`bufs, this`refs
      ensures unchanged(`disk) && unchanged(`mem) && unchanged(`writes)
      ensures Valid() && refs == old(refs) + multiset{b}
      ensures forall j, c :: old(Handle(j, c)) ==> Handle(j, c)
    {
      ViewAt(disk, bufs, mem, refs, i);
      UpdateView(disk, bufs, mem, refs, i, Ref(bufs[i]));
      bufs := bufs[i := Ref(bufs[i])];
      refs := refs + multiset{b};
    }
  }
}
