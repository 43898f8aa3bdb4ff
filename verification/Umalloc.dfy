/** The storage allocator of user/umalloc.c.  Addresses count headers (16 bytes each). */
module Umalloc {
  const HEADER := 16

  // Blocks by header address, with their sizes in headers.
  type Blocks = map<int, int>

  function Next(k: int, n: int): int {
    if k + 1 == n then 0 else k + 1
  }

  // The free list as memory has it: a cycle through list, by ascending address.
  ghost predicate Cycle(ptr: map<int, int>, list: seq<int>) {
    forall k :: 0 <= k < |list| ==> LinkAt(ptr, list, k)
  }

  ghost predicate LinkAt(ptr: map<int, int>, list: seq<int>, k: int)
    requires 0 <= k < |list|
  {
    list[k] in ptr && ptr[list[k]] == list[Next(k, |list|)]
  }

  ghost predicate Ascending(list: seq<int>) {
    forall j, k :: 0 <= j < k < |list| ==> list[j] < list[k]
  }

  // Blocks above base that do not overlap.
  ghost predicate Disjoint(base: int, blk: Blocks) {
    && (forall a :: a in blk ==> base < a && 1 <= blk[a])
    && (forall a, b :: a in blk && b in blk && a < b ==> a + blk[a] <= b)
  }

  // Member k of the free list, k > 0, is a block; the first is base, which has no room.
  ghost predicate OnList(base: int, blk: Blocks, list: seq<int>) {
    && |list| > 0 && list[0] == base && Ascending(list)
    && forall k :: 0 < k < |list| ==> list[k] in blk
  }

  // No free block ends where another begins.
  ghost predicate Merged(blk: Blocks, list: seq<int>) {
    forall j, k :: 0 < j < |list| && 0 < k < |list| && list[j] in blk ==> list[j] + blk[list[j]] != list[k]
  }

  ghost predicate Sizes(size: map<int, int>, base: int, blk: Blocks) {
    base in size && size[base] == 0 && forall a :: a in blk ==> a in size && size[a] == blk[a]
  }

  ghost predicate Holds(blk: Blocks, a: int, u: int) {
    a in blk && a <= u < a + blk[a]
  }

  // Every unit obtained from sbrk lies in a block, and every block consists of such units.
  ghost predicate Covers(blk: Blocks, units: set<int>) {
    && (forall u :: u in units ==> exists a :: Holds(blk, a, u))
    && (forall a, u :: Holds(blk, a, u) ==> u in units)
  }

  // bp belongs between list[k] and its successor.
  ghost predicate Slot(list: seq<int>, bp: int, k: int) {
    0 <= k < |list| && list[k] < bp && (k + 1 < |list| ==> bp < list[k + 1])
  }

  lemma {:induction false} SlotExists(list: seq<int>, bp: int, n: int) returns (k: int)
    requires Ascending(list) && 0 < n <= |list| && list[0] < bp && bp !in list && (n < |list| ==> bp < list[n])
    ensures Slot(list, bp, k)
  {
    if list[n - 1] < bp {
      k := n - 1;
    } else {
      assert list[n - 1] != bp;
      k := SlotExists(list, bp, n - 1);
    }
  }

  // Steps along the cycle from position j to position k.
  function Ahead(j: int, k: int, n: int): int {
    if j <= k then k - j else k - j + n
  }

  // The list without the member after position k.
  function Unlinked(list: seq<int>, k: int): (r: seq<int>)
    requires 0 <= k && k + 1 < |list|
    ensures UnlinkedAt(list, k, r)
  {
    list[..k + 1] + list[k + 2..]
  }

  // The list with bp after position k.
  function Inserted(list: seq<int>, k: int, bp: int): (r: seq<int>)
    requires 0 <= k < |list|
    ensures InsertedAt(list, k, bp, r)
  {
    list[..k + 1] + [bp] + list[k + 1..]
  }

  // Where position m goes when position k + 1 is opened.
  function Past(k: int, m: int): int {
    if m <= k then m else m + 1
  }

  function Back(k: int, m: int): int {
    if m <= k then m else m - 1
  }

  ghost predicate UnlinkedAt(list: seq<int>, k: int, list': seq<int>) {
    && 0 <= k && k + 1 < |list| && |list'| == |list| - 1
    && forall m :: 0 <= m < |list'| ==> list'[m] == list[Past(k, m)]
  }

  ghost predicate InsertedAt(list: seq<int>, k: int, bp: int, list': seq<int>) {
    && 0 <= k < |list| && |list'| == |list| + 1
    && list'[k + 1] == bp && forall m :: 0 <= m < |list'| && m != k + 1 ==> list'[m] == list[Back(k, m)]
  }

  // Unlinking the successor of p = list[k].
  lemma UnlinkCycle(ptr: map<int, int>, list: seq<int>, k: int, ptr': map<int, int>, list': seq<int>)
    requires Cycle(ptr, list) && Ascending(list) && UnlinkedAt(list, k, list')
    requires list[k + 1] in ptr && ptr' == ptr[list[k] := ptr[list[k + 1]]]
    ensures Cycle(ptr', list')
  {
    assert LinkAt(ptr, list, k + 1);
    forall m | 0 <= m < |list'| ensures LinkAt(ptr', list', m) {
      assert LinkAt(ptr, list, Past(k, m)) && list'[m] == list[Past(k, m)];
    }
  }

  lemma UnlinkOrder(list: seq<int>, k: int, list': seq<int>)
    requires Ascending(list) && UnlinkedAt(list, k, list')
    ensures Ascending(list') && list'[0] == list[0]
    ensures forall a :: a in list' <==> a in list && a != list[k + 1]
  {
    forall a | a in list && a != list[k + 1] ensures a in list' {
      var m :| 0 <= m < |list| && list[m] == a;
      var n := if m <= k then m else m - 1;
      assert Past(k, n) == m && list'[n] == a;
    }
  }

  // Linking bp in behind p = list[k].
  lemma InsertCycle(ptr: map<int, int>, list: seq<int>, k: int, bp: int, ptr': map<int, int>, list': seq<int>)
    requires Cycle(ptr, list) && Ascending(list) && Slot(list, bp, k) && InsertedAt(list, k, bp, list')
    requires list[k] in ptr && ptr' == ptr[bp := ptr[list[k]]][list[k] := bp]
    ensures Cycle(ptr', list')
  {
    assert LinkAt(ptr, list, k);
    forall m | 0 <= m < |list'| ensures LinkAt(ptr', list', m) {
      if m != k + 1 {
        var was := Back(k, m);
        assert LinkAt(ptr, list, was) && list'[m] == list[was];
      }
    }
  }

  lemma InsertOrder(list: seq<int>, k: int, bp: int, list': seq<int>)
    requires Ascending(list) && Slot(list, bp, k) && InsertedAt(list, k, bp, list')
    ensures Ascending(list') && list'[0] == list[0]
    ensures forall a :: a in list' <==> a in list || a == bp
  {
    forall a | a in list ensures a in list' {
      var m :| 0 <= m < |list| && list[m] == a;
      assert Back(k, Past(k, m)) == m && list'[Past(k, m)] == a;
    }
    assert list'[k + 1] == bp;
  }

  // The blocks after bp is joined with its neighbours.
  function JoinNext(blk: Blocks, bp: int, next: int): Blocks {
    if bp in blk && next in blk then (blk - {next})[bp := blk[bp] + blk[next]] else blk
  }

  // Joining a block with the one that follows it keeps blocks apart and covers the same units.
  lemma JoinKeeps(base: int, blk: Blocks, bp: int, next: int, units: set<int>, blk': Blocks)
    requires Disjoint(base, blk) && Covers(blk, units) && bp in blk && next in blk && bp + blk[bp] == next
    requires blk' == JoinNext(blk, bp, next)
    ensures Disjoint(base, blk') && Covers(blk', units)
  {
    forall u | u in units ensures exists a :: Holds(blk', a, u) {
      var a :| Holds(blk, a, u);
      assert Holds(blk', if a == next then bp else a, u);
    }
    forall a, u | Holds(blk', a, u) ensures u in units {
      if a == bp {
        assert Holds(blk, bp, u) || Holds(blk, next, u);
      } else {
        assert Holds(blk, a, u);
      }
    }
  }

  // The allocator's memory is in order: a free list of blocks, apart from each other and from the rest.
  ghost predicate HeapOk(base: int, blk: Blocks, list: seq<int>, units: set<int>) {
    Disjoint(base, blk) && OnList(base, blk, list) && Merged(blk, list) && Covers(blk, units)
  }

  // No free block starts where bp ends.
  ghost predicate EndClear(blk: Blocks, list: seq<int>, bp: int) {
    bp in blk && forall m :: 0 < m < |list| ==> bp + blk[bp] != list[m]
  }

  // Nothing to join behind bp.
  lemma NoNext(base: int, blk: Blocks, list: seq<int>, units: set<int>, bp: int, k: int)
    requires HeapOk(base, blk, list, units) && bp in blk && Slot(list, bp, k)
    requires k + 1 < |list| ==> bp + blk[bp] != list[k + 1]
    ensures EndClear(blk, list, bp)
  {
  }

  // bp swallows the free block behind it.
  lemma TakeNext(base: int, blk: Blocks, list: seq<int>, units: set<int>, bp: int, k: int, blk': Blocks,
                 list': seq<int>)
    requires HeapOk(base, blk, list, units) && bp in blk && bp !in list && Slot(list, bp, k)
    requires k + 1 < |list| && bp + blk[bp] == list[k + 1] && UnlinkedAt(list, k, list')
             && blk' == JoinNext(blk, bp, list[k + 1])
    ensures HeapOk(base, blk', list', units) && EndClear(blk', list', bp) && Slot(list', bp, k) && bp !in list'
  {
    UnlinkOrder(list, k, list');
    JoinKeeps(base, blk, bp, list[k + 1], units, blk');
    forall m | 0 < m < |list'| ensures list'[m] in blk' && bp + blk'[bp] != list'[m] {
      assert list'[m] == list[Past(k, m)];
    }
    forall a, b | 0 < a < |list'| && 0 < b < |list'| && list'[a] in blk' ensures list'[a] + blk'[list'[a]] != list'[b] {
      assert list'[a] == list[Past(k, a)] && list'[b] == list[Past(k, b)];
    }
  }

  // The free block before bp swallows it.
  lemma JoinPrev(base: int, blk: Blocks, list: seq<int>, units: set<int>, bp: int, k: int, blk': Blocks)
    requires HeapOk(base, blk, list, units) && EndClear(blk, list, bp) && bp !in list && Slot(list, bp, k)
    requires 0 < k && list[k] + blk[list[k]] == bp && blk' == JoinNext(blk, list[k], bp)
    ensures HeapOk(base, blk', list, units)
  {
    JoinKeeps(base, blk, list[k], bp, units, blk');
  }

  // bp becomes a free block of its own.
  lemma JoinNone(base: int, blk: Blocks, list: seq<int>, units: set<int>, bp: int, k: int, list': seq<int>)
    requires HeapOk(base, blk, list, units) && EndClear(blk, list, bp) && bp !in list && Slot(list, bp, k)
    requires k > 0 ==> list[k] + blk[list[k]] != bp
    requires InsertedAt(list, k, bp, list')
    ensures HeapOk(base, blk, list', units)
  {
    InsertOrder(list, k, bp, list');
    forall m | 0 < m < |list'| ensures list'[m] in blk {
      assert m != k + 1 ==> list'[m] == list[Back(k, m)];
    }
    forall a, b | 0 < a < |list'| && 0 < b < |list'| && list'[a] in blk ensures list'[a] + blk[list'[a]] != list'[b] {
      assert a != k + 1 ==> list'[a] == list[Back(k, a)];
      assert b != k + 1 ==> list'[b] == list[Back(k, b)];
    }
  }

  // A free block handed out whole.
  lemma TakeWhole(base: int, blk: Blocks, list: seq<int>, units: set<int>, k: int, list': seq<int>)
    requires HeapOk(base, blk, list, units) && UnlinkedAt(list, k, list')
    ensures HeapOk(base, blk, list', units)
  {
    UnlinkOrder(list, k, list');
    forall m | 0 < m < |list'| ensures list'[m] in blk {
      assert list'[m] == list[Past(k, m)];
    }
    forall a, b | 0 < a < |list'| && 0 < b < |list'| && list'[a] in blk ensures list'[a] + blk[list'[a]] != list'[b] {
      assert list'[a] == list[Past(k, a)] && list'[b] == list[Past(k, b)];
    }
  }

  // The tail of a free block handed out.
  lemma TakeTail(base: int, blk: Blocks, list: seq<int>, units: set<int>, k: int, n: int, blk': Blocks)
    requires HeapOk(base, blk, list, units) && 0 < k < |list| && 1 <= n < blk[list[k]]
    requires blk' == blk[list[k] := blk[list[k]] - n][list[k] + blk[list[k]] - n := n]
    ensures HeapOk(base, blk', list, units) && list[k] + blk[list[k]] - n !in blk && list[k] + blk[list[k]] - n !in list
  {
    var p, q := list[k], list[k] + blk[list[k]] - n;
    forall u | u in units ensures exists a :: Holds(blk', a, u) {
      var a :| Holds(blk, a, u);
      assert Holds(blk', if a == p && u >= q then q else a, u);
    }
    forall a, u | Holds(blk', a, u) ensures u in units {
      assert Holds(blk, if a == q then p else a, u);
    }
  }

  predicate InRegion(hp: int, n: int, u: int) {
    hp <= u < hp + n
  }

  ghost function Region(hp: int, n: int): set<int> {
    set u | hp <= u < hp + n && InRegion(hp, n, u)
  }

  // Memory fresh from sbrk, above all that was there, is a block of its own.
  lemma AddRegion(base: int, blk: Blocks, list: seq<int>, units: set<int>, hp: int, n: int, blk': Blocks,
                  units': set<int>)
    requires HeapOk(base, blk, list, units) && base < hp && 1 <= n && (forall u :: u in units ==> u < hp)
    requires blk' == blk[hp := n] && units' == units + Region(hp, n)
    ensures HeapOk(base, blk', list, units') && hp !in blk && hp !in list
  {
    forall a | a in blk ensures a + blk[a] <= hp {
      assert Holds(blk, a, a + blk[a] - 1);
    }
    forall u | u in units' ensures exists a :: Holds(blk', a, u) {
      if u in units {
        var a :| Holds(blk, a, u);
        assert Holds(blk', a, u);
      } else {
        assert InRegion(hp, n, u) && Holds(blk', hp, u);
      }
    }
    forall a, u | Holds(blk', a, u) ensures u in units' {
      assert a != hp ==> Holds(blk, a, u);
      assert a == hp ==> InRegion(hp, n, u);
    }
  }

  const NULL := 0

  // What a caller holds: blocks that are not on the free list.
  ghost predicate Live(blk: Blocks, list: seq<int>, a: int) {
    a in blk && a !in list
  }

  // Some free block contains the n units at bp.
  ghost predicate Absorbed(blk: Blocks, list: seq<int>, bp: int, n: int) {
    exists m :: 0 < m < |list| && Within(blk, list[m], bp, n)
  }

  ghost predicate Within(blk: Blocks, a: int, bp: int, n: int) {
    a in blk && a <= bp && bp + n <= a + blk[a]
  }

  // The callers' blocks, but for x, are as they were.
  ghost predicate LiveBut(blk: Blocks, list: seq<int>, blk': Blocks, list': seq<int>, x: int) {
    forall a :: a != x ==> (Live(blk', list', a) <==> Live(blk, list, a)) && (Live(blk, list, a) ==> blk'[a] == blk[a])
  }

  // bp went from its caller's hands into a free block; nothing else changed hands.
  ghost predicate Given(blk: Blocks, list: seq<int>, blk': Blocks, list': seq<int>, bp: int) {
    bp in blk && !Live(blk', list', bp) && LiveBut(blk, list, blk', list', bp) && Absorbed(blk', list', bp, blk[bp])
  }

  // Between the two halves of free: bp is joined with what is behind it, and links on from list[k].
  ghost predicate Pending(ptr: map<int, int>, size: map<int, int>, base: int, blk: Blocks, list: seq<int>,
                          units: set<int>, bp: int, k: int) {
    && bp in ptr && Slot(list, bp, k) && bp !in list && Cycle(ptr[list[k] := ptr[bp]], list)
    && HeapOk(base, blk, list, units) && EndClear(blk, list, bp) && Sizes(size, base, blk)
  }

  lemma PendingJoined(ptr: map<int, int>, size: map<int, int>, base: int, blk: Blocks, list: seq<int>, units: set<int>,
                      bp: int, k: int,
                      ptr': map<int, int>, size': map<int, int>, blk': Blocks, list': seq<int>)
    requires Cycle(ptr, list) && Sizes(size, base, blk) && HeapOk(base, blk, list, units) && Live(blk, list, bp)
             && Slot(list, bp, k)
    requires k + 1 < |list| && bp + blk[bp] == list[k + 1] && list[k + 1] in ptr && list[k + 1] in size && bp in size
    requires ptr' == ptr[bp := ptr[list[k + 1]]] && size' == size[bp := size[bp] + size[list[k + 1]]]
    requires blk' == JoinNext(blk, bp, list[k + 1]) && UnlinkedAt(list, k, list')
    ensures Pending(ptr', size', base, blk', list', units, bp, k) && list'[k] == list[k]
            && LiveBut(blk, list, blk', list', bp)
    ensures blk'[bp] >= blk[bp]
  {
    TakeNext(base, blk, list, units, bp, k, blk', list');
    UnlinkOrder(list, k, list');
    assert list'[k] == list[Past(k, k)];
    var ptr1 := ptr[list[k] := ptr[list[k + 1]]];
    UnlinkCycle(ptr, list, k, ptr1, list');
    CycleKept(ptr1, list', bp, ptr'[list'[k] := ptr'[bp]]);
  }

  lemma PendingAlone(ptr: map<int, int>, size: map<int, int>, base: int, blk: Blocks, list: seq<int>, units: set<int>,
                     bp: int, k: int,
                     ptr': map<int, int>)
    requires Cycle(ptr, list) && Sizes(size, base, blk) && HeapOk(base, blk, list, units) && Live(blk, list, bp)
             && Slot(list, bp, k)
    requires list[k] in ptr && ptr' == ptr[bp := ptr[list[k]]] && bp + blk[bp] != ptr[list[k]]
    ensures Pending(ptr', size, base, blk, list, units, bp, k)
  {
    assert LinkAt(ptr, list, k);
    NoNext(base, blk, list, units, bp, k);
    CycleKept(ptr, list, bp, ptr'[list[k] := ptr'[bp]]);
  }

  lemma DoneJoined(ptr: map<int, int>, size: map<int, int>, base: int, blk: Blocks, list: seq<int>, units: set<int>,
                   bp: int, k: int,
                   ptr': map<int, int>, size': map<int, int>, blk': Blocks)
    requires Pending(ptr, size, base, blk, list, units, bp, k) && list[k] in size && list[k] + size[list[k]] == bp
             && bp in size
    requires ptr' == ptr[list[k] := ptr[bp]] && size' == size[list[k] := size[list[k]] + size[bp]]
             && blk' == JoinNext(blk, list[k], bp)
    ensures Cycle(ptr', list) && Sizes(size', base, blk') && HeapOk(base, blk', list, units) && base <= list[k]
    ensures Given(blk, list, blk', list, bp)
  {
    JoinPrev(base, blk, list, units, bp, k, blk');
    assert Within(blk', list[k], bp, blk[bp]);
  }

  lemma DoneAlone(ptr: map<int, int>, size: map<int, int>, base: int, blk: Blocks, list: seq<int>, units: set<int>,
                  bp: int, k: int,
                  ptr': map<int, int>, list': seq<int>)
    requires Pending(ptr, size, base, blk, list, units, bp, k) && list[k] in size && list[k] + size[list[k]] != bp
    requires ptr' == ptr[list[k] := bp] && InsertedAt(list, k, bp, list')
    ensures Cycle(ptr', list') && HeapOk(base, blk, list', units) && list[k] in list' && base <= list[k]
    ensures Given(blk, list, blk, list', bp)
  {
    assert Within(blk, list'[k + 1], bp, blk[bp]);
    JoinNone(base, blk, list, units, bp, k, list');
    InsertOrder(list, k, bp, list');
    var ptr0 := ptr[list[k] := ptr[bp]];
    assert ptr' == ptr0[bp := ptr0[list[k]]][list[k] := bp];
    InsertCycle(ptr0, list, k, bp, ptr', list');
  }

  // Going round from the member after freep, no block before member kp has room.
  ghost predicate FirstFit(blk: Blocks, list: seq<int>, freep: int, nunits: int, kp: int) {
    exists start :: 0 <= start < |list| && list[start] == freep && Tried(blk, list, nunits, start, kp)
  }

  ghost predicate Tried(blk: Blocks, list: seq<int>, nunits: int, start: int, kp: int) {
    && 0 <= start < |list| && 0 <= kp < |list|
    && forall m :: 0 < m < |list| && Ahead(Next(start, |list|), m, |list|) < Ahead(Next(start, |list|), kp, |list|) ==>
         list[m] in blk && blk[list[m]] < nunits
  }

  ghost predicate TooSmall(blk: Blocks, list: seq<int>, nunits: int) {
    forall m :: 0 < m < |list| ==> list[m] in blk && blk[list[m]] < nunits
  }

  lemma TriedNext(blk: Blocks, list: seq<int>, nunits: int, start: int, kp: int)
    requires Tried(blk, list, nunits, start, kp) && (kp > 0 ==> list[kp] in blk && blk[list[kp]] < nunits)
    ensures kp == start ==> TooSmall(blk, list, nunits)
    ensures kp != start ==> Tried(blk, list, nunits, start, Next(kp, |list|))
    ensures var n := |list|;
            kp != start ==> Ahead(Next(start, n), Next(kp, n), n) == Ahead(Next(start, n), kp, n) + 1 < n
  {
    var n := |list|;
    forall m | 0 < m < n
      ensures Ahead(Next(start, n), m, n) <= Ahead(Next(start, n), kp, n) ==>
                list[m] in blk && blk[list[m]] < nunits
    {
    }
  }

  lemma OnePlace(list: seq<int>, j: int, k: int)
    requires Ascending(list) && 0 <= j < |list| && 0 <= k < |list|
    ensures list[j] == list[k] <==> j == k
  {
  }

  lemma SizeIs(size: map<int, int>, base: int, blk: Blocks, list: seq<int>, k: int)
    requires Sizes(size, base, blk) && OnList(base, blk, list) && 0 <= k < |list|
    ensures list[k] in size && size[list[k]] == if k == 0 then 0 else blk[list[k]]
  {
  }

  class Heap {
    const base: int              // &base, the header that is always on the list
    var ptr: map<int, int>       // s.ptr and s.size of the header at an address
    var size: map<int, int>
    var freep: int
    ghost var blk: Blocks
    ghost var list: seq<int>
    ghost var units: set<int>    // what sbrk has given

    ghost predicate Started()
      reads this
    {
      freep in list && Cycle(ptr, list) && Sizes(size, base, blk) && HeapOk(base, blk, list, units)
    }

    ghost predicate Valid()
      reads this
    {
      NULL < base && (if freep == NULL then blk == map[] && units == {} && list == [] else Started())
    }

    constructor (at: int)
      requires NULL < at
      ensures Valid() && base == at && blk == map[]
    {
      base := at;
      ptr, size, freep := map[], map[], NULL;
      blk, list, units := map[], [], {};
    }

    // The search loop of free: the list member after which bp belongs.
    method FindSlot(bp: int) returns (p: int, ghost k: int)
      requires Started() && base < bp && bp !in list
      ensures Slot(list, bp, k) && p == list[k]
    {
      ghost var kp := SlotExists(list, bp, |list|);
      p := freep;
      k :| 0 <= k < |list| && list[k] == freep;
      assert LinkAt(ptr, list, k);
      while !(bp > p && bp < ptr[p])
        invariant 0 <= k < |list| && p == list[k] && LinkAt(ptr, list, k)
        decreases Ahead(k, kp, |list|)
      {
        if p >= ptr[p] && (bp > p || bp < ptr[p]) {
          break;
        }
        p := ptr[p];
        k := Next(k, |list|);
        assert LinkAt(ptr, list, k);
      }
    }

    // Give back a block: it joins its free neighbours, and only it leaves the callers' hands.
    method Free(ap: int)
      requires Valid() && Live(blk, list, ap - 1)
      modifies this
      ensures Valid() && freep != NULL && Given(old(blk), old(list), blk, list, ap - 1) && units == old(units)
    {
      var bp := ap - 1;
      var p;
      ghost var k;
      p, k := FindSlot(bp);
      LinkAfter(bp, p, k);
      ghost var n := blk[bp];
      LinkBefore(bp, p, k);
      AbsorbedLess(blk, list, bp, n, old(blk)[bp]);
    }

    // if (bp + bp->s.size == p->s.ptr) ... else ...
    method LinkAfter(bp: int, p: int, ghost k: int)
      requires Started() && Live(blk, list, bp) && Slot(list, bp, k) && p == list[k]
      modifies `ptr, `size, `blk, `list
      ensures unchanged(`freep) && unchanged(`units)
      ensures Pending(ptr, size, base, blk, list, units, bp, k) && list[k] == p && blk[bp] >= old(blk)[bp]
      ensures LiveBut(old(blk), old(list), blk, list, bp)
    {
      assert LinkAt(ptr, list, k);
      var next := ptr[p];
      if bp + size[bp] == next {
        NextIs(base, list, bp, k, next);
        SwallowNext(bp, next, k);
      } else {
        ptr := ptr[bp := next];
        PendingAlone(old(ptr), size, base, blk, list, units, bp, k, ptr);
      }
    }

    method SwallowNext(bp: int, next: int, ghost k: int)
      requires Started() && Live(blk, list, bp) && Slot(list, bp, k) && k + 1 < |list|
               && bp + blk[bp] == next == list[k + 1]
      modifies `ptr, `size, `blk, `list
      ensures unchanged(`freep) && unchanged(`units)
      ensures Pending(ptr, size, base, blk, list, units, bp, k) && list[k] == old(list)[k] && blk[bp] >= old(blk)[bp]
      ensures LiveBut(old(blk), old(list), blk, list, bp)
    {
      assert LinkAt(ptr, list, k + 1);
      size := size[bp := size[bp] + size[next]];
      ptr := ptr[bp := ptr[next]];
      blk, list := JoinNext(blk, bp, next), Unlinked(list, k);
      PendingJoined(old(ptr), old(size), base, old(blk), old(list), units, bp, k, ptr, size, blk, list);
    }

    // if (p + p->s.size == bp) ... else ...; freep = p
    method LinkBefore(bp: int, p: int, ghost k: int)
      requires NULL < base && 0 <= k < |list| && p == list[k] && Pending(ptr, size, base, blk, list, units, bp, k)
      modifies this
      ensures Valid() && freep != NULL && Given(old(blk), old(list), blk, list, bp) && unchanged(`units)
    {
      SizeIs(size, base, blk, list, k);
      if p + size[p] == bp {
        JoinTo(bp, p, k);
      } else {
        LinkIn(bp, p, k);
      }
      assert freep != NULL;
    }

    method JoinTo(bp: int, p: int, ghost k: int)
      requires 0 <= k < |list| && p == list[k] && Pending(ptr, size, base, blk, list, units, bp, k)
      requires p in size && p + size[p] == bp
      modifies this
      ensures Started() && freep == p >= base && Given(old(blk), old(list), blk, list, bp) && unchanged(`units)
    {
      var size', ptr' := size[p := size[p] + size[bp]], ptr[p := ptr[bp]];
      ghost var blk' := JoinNext(blk, p, bp);
      DoneJoined(ptr, size, base, blk, list, units, bp, k, ptr', size', blk');
      size, ptr, freep, blk := size', ptr', p, blk';
    }

    method LinkIn(bp: int, p: int, ghost k: int)
      requires 0 <= k < |list| && p == list[k] && Pending(ptr, size, base, blk, list, units, bp, k)
      requires p in size && p + size[p] != bp
      modifies this
      ensures Started() && freep == p >= base && Given(old(blk), old(list), blk, list, bp) && unchanged(`units)
    {
      var ptr' := ptr[p := bp];
      ghost var list' := Inserted(list, k, bp);
      DoneAlone(ptr, size, base, blk, list, units, bp, k, ptr', list');
      ptr, freep, list := ptr', p, list';
    }

    // malloc's search from freep: the first block with room, and the member before it.
    method Search(nunits: int) returns (found: bool, prevp: int, ghost k: int)
      requires Started() && 1 <= nunits
      ensures found ==> 0 <= k && k + 1 < |list| && prevp == list[k] && blk[list[k + 1]] >= nunits
      ensures found ==> FirstFit(blk, list, freep, nunits, k + 1)
      ensures !found ==> TooSmall(blk, list, nunits)
    {
      ghost var n := |list|;
      ghost var start :| 0 <= start < n && list[start] == freep;
      prevp, k := freep, start;
      assert LinkAt(ptr, list, k);
      var p := ptr[prevp];
      ghost var kp := Next(k, n);
      while true
        invariant 0 <= k < n && prevp == list[k] && kp == Next(k, n) && p == list[kp]
        invariant Tried(blk, list, nunits, start, kp)
        invariant 0 <= Ahead(Next(start, n), kp, n) < n
        decreases n - Ahead(Next(start, n), kp, n)
      {
        SizeIs(size, base, blk, list, kp);
        if size[p] >= nunits {
          found := true;
          return;
        }
        TriedNext(blk, list, nunits, start, kp);
        OnePlace(list, kp, start);
        if p == freep {
          found := false;
          return;
        }
        assert LinkAt(ptr, list, kp);
        prevp, p := p, ptr[p];
        k, kp := kp, Next(kp, n);
      }
    }

    // Take nunits from the block after prevp: all of it, or its tail.
    method Take(nunits: int, prevp: int, ghost k: int) returns (p: int)
      requires NULL < base && Started() && 1 <= nunits && 0 <= k && k + 1 < |list| && prevp == list[k]
               && blk[list[k + 1]] >= nunits
      modifies this
      ensures Valid() && freep == prevp && freep != NULL && units == old(units)
      ensures base < p && Live(blk, list, p) && blk[p] == nunits && !Live(old(blk), old(list), p)
      ensures LiveBut(old(blk), old(list), blk, list, p)
    {
      assert LinkAt(ptr, list, k) && LinkAt(ptr, list, k + 1);
      p := ptr[prevp];
      if size[p] == nunits {
        ptr := ptr[prevp := ptr[p]];
        list := Unlinked(list, k);
        WholeTaken(old(ptr), base, blk, old(list), units, k, ptr, list);
      } else {
        size := size[p := size[p] - nunits];
        blk := blk[p := blk[p] - nunits];
        p := p + size[p];
        size := size[p := nunits];
        blk := blk[p := nunits];
        TailTaken(old(size), base, old(blk), list, units, k + 1, nunits, size, blk, p);
      }
      freep := prevp;
    }

    // Ask sbrk for at least nu units; it grants them at hp, above all it gave before, or not at all.
    method Morecore(nu: int, grant: bool, hp: int) returns (r: int, ghost asked: int)
      requires Valid() && freep != NULL && 1 <= nu && SbrkFits(nu)
      requires grant ==> base < hp && forall u :: u in units ==> u < hp
      modifies this
      ensures Valid() && freep != NULL && LiveBut(old(blk), old(list), blk, list, hp)
      ensures !grant ==> r == NULL && unchanged(this)
      ensures asked == HEADER * if nu < 4096 then 4096 else nu
      ensures grant ==> r == freep && !TooSmall(blk, list, nu) && !Live(blk, list, hp)
      ensures grant ==> units == old(units) + Region(hp, if nu < 4096 then 4096 else nu)
      ensures grant ==> !Live(old(blk), old(list), hp)
    {
      var n := AtLeast(nu);
      asked := Int32(n * HEADER);
      if !grant {
        return NULL, asked;
      }
      AddRegion(base, blk, list, units, hp, n, blk[hp := n], units + Region(hp, n));
      size := size[hp := n];
      blk, units := blk[hp := n], units + Region(hp, n);
      Free(hp + 1);
      AbsorbedFits(blk, list, hp, n, nu);
      return freep, asked;
    }

    // The list before the first allocation: base alone.
    method Start()
      requires Valid() && freep == NULL
      modifies this
      ensures Valid() && freep != NULL && unchanged(`blk) && unchanged(`units) && list == [base]
    {
      ptr, size := ptr[base := base], size[base := 0];
      freep, list := base, [base];
      assert LinkAt(ptr, list, 0);
    }

    // Memory for nbytes bytes, or NULL if sbrk will not grant more when it is asked.
    method Malloc(nbytes: int, grant: bool, hp: int) returns (ap: int)
      requires Valid() && 0 <= nbytes < 0x1_0000_0000 && SbrkFits(Units(nbytes))
      requires grant ==> base < hp && forall u :: u in units ==> u < hp
      modifies this
      ensures Valid()
      ensures ap == NULL ==> !grant && TooSmall(blk, list, Units(nbytes)) && units == old(units)
                             && Kept(old(blk), old(list), blk, list)
      ensures ap != NULL ==> Live(blk, list, ap - 1) && blk[ap - 1] == Units(nbytes)
                             && !Live(old(blk), old(list), ap - 1)
      ensures ap != NULL ==> LiveBut(old(blk), old(list), blk, list, ap - 1)
      ensures ap != NULL && units != old(units) ==>
                units == old(units) + Region(hp, if Units(nbytes) < 4096 then 4096 else Units(nbytes))
    {
      var nunits := (nbytes + HEADER - 1) / HEADER + 1;
      if freep == NULL {
        Start();
      }
      ghost var blk0, list0 := blk, list;
      var found, prevp;
      ghost var k;
      found, prevp, k := Search(nunits);
      if !found {
        var p, asked := Morecore(nunits, grant, hp);
        if p == NULL {
          return NULL;
        }
        KeptOver(blk0, list0, blk, list, hp);
        found, prevp, k := Search(nunits);
      }
      ghost var blk1, list1 := blk, list;
      var p := Take(nunits, prevp, k);
      KeptThen(old(blk), old(list), blk1, list1, blk, list, p);
      return p + 1;
    }
  }

  // No block changed hands.
  ghost predicate Kept(blk: Blocks, list: seq<int>, blk': Blocks, list': seq<int>) {
    forall a :: (Live(blk', list', a) <==> Live(blk, list, a)) && (Live(blk, list, a) ==> blk'[a] == blk[a])
  }

  lemma KeptOver(blk: Blocks, list: seq<int>, blk': Blocks, list': seq<int>, x: int)
    requires LiveBut(blk, list, blk', list', x) && !Live(blk, list, x) && !Live(blk', list', x)
    ensures Kept(blk, list, blk', list')
  {
  }

  lemma KeptThen(blk: Blocks, list: seq<int>, blk1: Blocks, list1: seq<int>, blk2: Blocks, list2: seq<int>, x: int)
    requires Kept(blk, list, blk1, list1) && LiveBut(blk1, list1, blk2, list2, x) && !Live(blk1, list1, x)
    ensures LiveBut(blk, list, blk2, list2, x) && !Live(blk, list, x)
  {
  }

  const MIN_CORE := 4096

  function AtLeast(nu: int): int {
    if nu < MIN_CORE then MIN_CORE else nu
  }

  // An int argument: what is left of x in 32 signed bits.
  function Int32(x: int): int {
    var y := x % 0x1_0000_0000;
    if y < 0x8000_0000 then y else y - 0x1_0000_0000
  }

  // sbrk is asked for as many bytes as morecore believes.
  predicate SbrkFits(nu: int) {
    Int32(AtLeast(nu) * HEADER) == AtLeast(nu) * HEADER
  }

  function Units(nbytes: int): int {
    (nbytes + HEADER - 1) / HEADER + 1
  }

  lemma AbsorbedLess(blk: Blocks, list: seq<int>, bp: int, n: int, less: int)
    requires Absorbed(blk, list, bp, n) && less <= n
    ensures Absorbed(blk, list, bp, less)
  {
    var m :| 0 < m < |list| && Within(blk, list[m], bp, n);
    assert Within(blk, list[m], bp, less);
  }

  lemma AbsorbedFits(blk: Blocks, list: seq<int>, bp: int, n: int, nu: int)
    requires Absorbed(blk, list, bp, n) && nu <= n
    ensures !TooSmall(blk, list, nu)
  {
    var m :| 0 < m < |list| && Within(blk, list[m], bp, n);
  }

  lemma TailTaken(size: map<int, int>, base: int, blk: Blocks, list: seq<int>, units: set<int>, k: int, n: int,
                  size': map<int, int>, blk': Blocks, q: int)
    requires Sizes(size, base, blk) && HeapOk(base, blk, list, units) && 0 < k < |list| && 1 <= n < blk[list[k]]
    requires q == list[k] + (blk[list[k]] - n)
    requires size' == size[list[k] := blk[list[k]] - n][q := n] && blk' == blk[list[k] := blk[list[k]] - n][q := n]
    ensures Sizes(size', base, blk') && HeapOk(base, blk', list, units) && base < q && q !in blk && q !in list
    ensures Live(blk', list, q) && LiveBut(blk, list, blk', list, q)
  {
    TakeTail(base, blk, list, units, k, n, blk');
  }

  lemma WholeTaken(ptr: map<int, int>, base: int, blk: Blocks, list: seq<int>, units: set<int>, k: int,
                   ptr': map<int, int>, list': seq<int>)
    requires Cycle(ptr, list) && HeapOk(base, blk, list, units) && UnlinkedAt(list, k, list')
    requires list[k + 1] in ptr && ptr' == ptr[list[k] := ptr[list[k + 1]]]
    ensures Cycle(ptr', list') && HeapOk(base, blk, list', units) && list[k] in list' && Live(blk, list', list[k + 1])
    ensures LiveBut(blk, list, blk, list', list[k + 1]) && base < list[k + 1]
  {
    TakeWhole(base, blk, list, units, k, list');
    UnlinkOrder(list, k, list');
    UnlinkCycle(ptr, list, k, ptr', list');
  }

  // The cycle's wrap-around leads to base, below every block.
  lemma NextIs(base: int, list: seq<int>, bp: int, k: int, next: int)
    requires |list| > 0 && list[0] == base && Slot(list, bp, k) && next == list[Next(k, |list|)] && base < bp < next
    ensures k + 1 < |list| && next == list[k + 1]
  {
  }

  lemma CycleKept(ptr: map<int, int>, list: seq<int>, bp: int, ptr': map<int, int>)
    requires Cycle(ptr, list) && bp !in list && bp in ptr' && ptr' == ptr[bp := ptr'[bp]]
    ensures Cycle(ptr', list)
  {
    forall k | 0 <= k < |list| ensures LinkAt(ptr', list, k) {
      assert LinkAt(ptr, list, k);
    }
  }

  // The units malloc takes hold nbytes bytes behind the header, with less than a header to spare.
  lemma UnitsHold(nbytes: int)
    requires 0 <= nbytes
    ensures nbytes <= (Units(nbytes) - 1) * HEADER < nbytes + HEADER && 1 <= Units(nbytes)
  {
  }

  // The size handed to sbrk is an int: it survives exactly for requests up to 2^31 - 32 bytes.
  lemma SbrkFitsUpTo(nbytes: int)
    requires 0 <= nbytes < 0x1_0000_0000
    ensures SbrkFits(Units(nbytes)) <==> nbytes <= 0x7fff_ffe0
  {
    var x := AtLeast(Units(nbytes)) * HEADER;
    assert 0 <= x < 0x2_0000_0000;
    assert x < 0x8000_0000 <==> nbytes <= 0x7fff_ffe0;
  }

  // The largest request: morecore records 2^28 + 1 units and sbrk is asked for one.
  lemma HugeRequest()
    ensures Units(0xffff_ffff) == 0x1000_0001 && Int32(AtLeast(Units(0xffff_ffff)) * HEADER) == HEADER
  {
  }
}
