/** Who owns which block, and what bytes a file holds, read off the inode table and the disk. */
module FsMap {
  import opened FsLayout

  // Places that hold a block number: block bn of file i, or the indirect block of file i.
  datatype Ref = Data(i: int, bn: int) | Indirect(i: int)

  type Table = seq<Inode>

  predicate TableOk(g: Super, t: Table) {
    |t| == g.ninodes && forall i :: 0 <= i < |t| ==> InodeOk(t[i])
  }

  function AddrAt(t: Table, i: int, k: int): int {
    if 0 <= i < |t| && 0 <= k < |t[i].addrs| then t[i].addrs[k] else 0
  }

  // The block that holds block bn of file i; 0 if there is none.
  function BlockOf(t: Table, d: Disk, i: int, bn: int): int {
    if bn < NDIRECT then AddrAt(t, i, bn)
    else if bn < MAXFILE && AddrAt(t, i, NDIRECT) != 0 then Word(BlockAt(d, AddrAt(t, i, NDIRECT)), bn - NDIRECT)
    else 0
  }

  function Addr(t: Table, d: Disk, r: Ref): int {
    match r
    case Data(i, bn) => BlockOf(t, d, i, bn)
    case Indirect(i) => AddrAt(t, i, NDIRECT)
  }

  type Owner = map<int, Ref>

  // Every block number in use leads back to the one place that holds it; every owned block is a
  // data block held where owner says; the bitmap marks the metadata and the owned blocks, no others.
  ghost predicate Own(g: Super, t: Table, d: Disk, owner: Owner) {
    Linked(g, t, d, owner) && Marked(g, d, owner)
  }

  ghost predicate Linked(g: Super, t: Table, d: Disk, owner: Owner) {
    && (forall r: Ref :: Addr(t, d, r) != 0 ==> Addr(t, d, r) in owner && owner[Addr(t, d, r)] == r)
    && (forall b :: b in owner ==> DataStart(g) <= b < g.size && Addr(t, d, owner[b]) == b)
  }

  ghost predicate Marked(g: Super, d: Disk, owner: Owner) {
    forall b :: 0 <= b < g.size ==> (Bit(g, d, b) <==> b < DataStart(g) || b in owner)
  }

  ghost predicate Held(t: Table, d: Disk, b: int) {
    exists q :: Addr(t, d, q) == b
  }

  // No block is reachable from two places, and no marked data block is unreachable.
  lemma OwnershipIsExclusive(g: Super, t: Table, d: Disk, owner: Owner, r: Ref, s: Ref)
    requires SuperOk(g) && Own(g, t, d, owner)
    ensures Addr(t, d, r) == Addr(t, d, s) != 0 ==> r == s
    ensures forall b :: DataStart(g) <= b < g.size ==> (Bit(g, d, b) <==> Held(t, d, b))
  {
    DataPositive(g);
    forall b | DataStart(g) <= b < g.size ensures Bit(g, d, b) <==> Held(t, d, b) {
      if Bit(g, d, b) {
        assert Addr(t, d, owner[b]) == b;
      }
    }
  }

  lemma DataPositive(g: Super)
    requires SuperOk(g)
    ensures 0 < g.bmapstart < DataStart(g) < g.size
  {
    BBlockRange(g, g.size - 1);
  }

  // Holding a fresh block at an empty place.
  lemma AddStep(g: Super, t: Table, d: Disk, o: Owner, t': Table, d': Disk, o': Owner, r: Ref, b: int)
    requires Linked(g, t, d, o) && 0 < DataStart(g) <= b < g.size && b !in o && Addr(t, d, r) == 0 && o' == o[b := r]
    requires forall s :: Addr(t', d', s) == if s == r then b else Addr(t, d, s)
    ensures Linked(g, t', d', o')
  {
  }

  // Clearing the place that held a block.
  lemma RemoveStep(g: Super, t: Table, d: Disk, o: Owner, t': Table, d': Disk, o': Owner, r: Ref, b: int)
    requires Linked(g, t, d, o) && Addr(t, d, r) == b != 0 && o' == o - {b}
    requires forall s :: Addr(t', d', s) == if s == r then 0 else Addr(t, d, s)
    ensures Linked(g, t', d', o')
  {
    forall c | c in o' ensures Addr(t', d', o'[c]) == c {
      assert Addr(t, d, o[c]) == c;
    }
  }

  lemma KeepStep(g: Super, t: Table, d: Disk, o: Owner, t': Table, d': Disk)
    requires Linked(g, t, d, o)
    requires forall s :: Addr(t', d', s) == Addr(t, d, s)
    ensures Linked(g, t', d', o)
  {
  }

  lemma MarkedKept(g: Super, d: Disk, o: Owner, d': Disk)
    requires SuperOk(g) && Marked(g, d, o)
    requires forall x :: g.bmapstart <= x < DataStart(g) ==> BlockAt(d', x) == BlockAt(d, x)
    ensures Marked(g, d', o)
  {
    forall b | 0 <= b < g.size ensures Bit(g, d', b) <==> Bit(g, d, b) {
      BitElsewhere(g, d, d', b);
    }
  }

  // Only blocks in use as indirect blocks matter for addresses.
  lemma SameAddrs(t: Table, d: Disk, d': Disk)
    requires forall i :: AddrAt(t, i, NDIRECT) != 0 ==>
                         BlockAt(d', AddrAt(t, i, NDIRECT)) == BlockAt(d, AddrAt(t, i, NDIRECT))
    ensures forall s :: Addr(t, d', s) == Addr(t, d, s)
  {
  }

  // An indirect block is owned as such.
  lemma IndirectOwned(g: Super, t: Table, d: Disk, o: Owner, i: int)
    requires Linked(g, t, d, o) && AddrAt(t, i, NDIRECT) != 0
    ensures AddrAt(t, i, NDIRECT) in o && o[AddrAt(t, i, NDIRECT)] == Indirect(i)
    ensures DataStart(g) <= AddrAt(t, i, NDIRECT) < g.size
  {
    assert Addr(t, d, Indirect(i)) == AddrAt(t, i, NDIRECT);
  }

  // Changing blocks that are not indirect blocks changes no address.
  lemma AddrsKept(g: Super, t: Table, d: Disk, o: Owner, d': Disk)
    requires Linked(g, t, d, o)
    requires forall b :: b in o && o[b].Indirect? ==> BlockAt(d', b) == BlockAt(d, b)
    ensures forall s :: Addr(t, d', s) == Addr(t, d, s)
  {
    forall i | AddrAt(t, i, NDIRECT) != 0
      ensures BlockAt(d', AddrAt(t, i, NDIRECT)) == BlockAt(d, AddrAt(t, i, NDIRECT))
    {
      IndirectOwned(g, t, d, o, i);
    }
    SameAddrs(t, d, d');
  }

  function SetAddr(t: Table, i: int, k: int, b: int): Table {
    if 0 <= i < |t| && 0 <= k < |t[i].addrs| then t[i := t[i].(addrs := t[i].addrs[k := b])] else t
  }

  // Storing in ip->addrs[k], k a direct slot.
  lemma StoreDirect(t: Table, d: Disk, i: int, k: int, b: int, t': Table)
    requires 0 <= i < |t| && |t[i].addrs| == NDIRECT + 1 && 0 <= k < NDIRECT && t' == SetAddr(t, i, k, b)
    ensures forall s :: Addr(t', d, s) == if s == Data(i, k) then b else Addr(t, d, s)
  {
  }

  // Storing in ip->addrs[NDIRECT] a block whose entries are all zero, where there was none.
  lemma StoreIndirect(t: Table, d: Disk, i: int, b: int, t': Table)
    requires 0 <= i < |t| && |t[i].addrs| == NDIRECT + 1 && t' == SetAddr(t, i, NDIRECT, b)
    requires AddrAt(t, i, NDIRECT) == 0 && BlockAt(d, b) == Zeros()
    ensures forall s :: Addr(t', d, s) == if s == Indirect(i) then b else Addr(t, d, s)
  {
    forall s ensures Addr(t', d, s) == if s == Indirect(i) then b else Addr(t, d, s) {
      if s.Data? && s.i == i {
        ZeroWords(s.bn - NDIRECT);
      }
    }
  }

  // Storing the entry of block bn in the indirect block of file i.
  lemma StoreEntry(g: Super, t: Table, d: Disk, o: Owner, i: int, bn: int, v: int, d': Disk)
    requires Linked(g, t, d, o) && NDIRECT <= bn < MAXFILE && AddrAt(t, i, NDIRECT) != 0
    requires WordSet(BlockAt(d, AddrAt(t, i, NDIRECT)), BlockAt(d', AddrAt(t, i, NDIRECT)), bn - NDIRECT, v)
    requires forall b :: b in o && o[b].Indirect? && o[b].i != i ==> BlockAt(d', b) == BlockAt(d, b)
    ensures forall s :: Addr(t, d', s) == if s == Data(i, bn) then v else Addr(t, d, s)
  {
    forall s ensures Addr(t, d', s) == if s == Data(i, bn) then v else Addr(t, d, s) {
      if s.Data? && NDIRECT <= s.bn < MAXFILE && AddrAt(t, s.i, NDIRECT) != 0 {
        IndirectOwned(g, t, d, o, s.i);
      }
    }
  }

  // ----- File contents -----

  function FileByte(t: Table, d: Disk, i: int, p: int): int {
    Byte(d, BlockOf(t, d, i, p / BSIZE), p % BSIZE)
  }

  function Size(t: Table, i: int): int {
    if 0 <= i < |t| then t[i].size else 0
  }

  // The byte string of file i.
  function Content(t: Table, d: Disk, i: int): seq<int> {
    seq(if Size(t, i) < 0 then 0 else Size(t, i), p => FileByte(t, d, i, p))
  }

  // Every block below the end of a file is there.
  ghost predicate Mapped(t: Table, d: Disk, i: int) {
    && 0 <= Size(t, i) <= MAXFILE * BSIZE
    && forall bn :: 0 <= bn && bn * BSIZE < Size(t, i) ==> BlockOf(t, d, i, bn) != 0
  }

  ghost predicate AllMapped(t: Table, d: Disk) {
    forall i :: 0 <= i < |t| ==> Mapped(t, d, i)
  }

  lemma MappedAt(t: Table, d: Disk, i: int, p: int)
    requires Mapped(t, d, i) && 0 <= p < Size(t, i)
    ensures BlockOf(t, d, i, p / BSIZE) != 0 && 0 <= p / BSIZE < MAXFILE
  {
    assert p / BSIZE * BSIZE <= p;
  }

  // File i has its blocks where it had them, with the same data.
  ghost predicate SameData(t: Table, d: Disk, t': Table, d': Disk, i: int) {
    forall bn :: BlockOf(t, d, i, bn) != 0 ==>
      && BlockOf(t', d', i, bn) == BlockOf(t, d, i, bn)
      && BlockAt(d', BlockOf(t, d, i, bn)) == BlockAt(d, BlockOf(t, d, i, bn))
  }

  ghost predicate SameFile(t: Table, d: Disk, t': Table, d': Disk, i: int) {
    0 <= i < |t| == |t'| && t'[i] == t[i] && SameData(t, d, t', d', i)
  }

  lemma SameContent(t: Table, d: Disk, t': Table, d': Disk, i: int)
    requires SameFile(t, d, t', d', i) && Mapped(t, d, i)
    ensures Content(t', d', i) == Content(t, d, i) && Mapped(t', d', i)
  {
    forall p | 0 <= p < Size(t, i) ensures FileByte(t', d', i, p) == FileByte(t, d, i, p) {
      MappedAt(t, d, i, p);
    }
  }
}
