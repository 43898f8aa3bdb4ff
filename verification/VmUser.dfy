/** User memory: growing, shrinking, faulting in, copying, and giving it all back.  Sizes and addresses in bytes. */
module VmUser {
  import opened VmTable
  import opened VmSteps
  import opened Vm
  import opened Common

  // PGROUNDUP(sz) / PGSIZE
  function Pages(sz: int): int {
    (sz + PGSIZE - 1) / PGSIZE
  }

  // No user page is mapped at or above the process's size, and what is mapped above is not for users.
  ghost predicate UserOk(m: Mem, r: int, sz: int) {
    forall v {:trigger LeafPte(m, r, v)} ::
      LeafPte(m, r, v).valid ==> if v < TRAPFRAME then 0 <= v < Pages(sz) else v < MAXVPN && !LeafPte(m, r, v).u
  }

  predicate SizeOk(sz: int) {
    0 <= sz <= TRAPFRAME * PGSIZE
  }

  /** The pages of sz bytes: as few as hold them. */
  lemma PagesHold(sz: int, n: int)
    requires 0 <= sz
    ensures sz <= n * PGSIZE <==> Pages(sz) <= n
  {
  }

  lemma PagesFit(sz: int)
    requires SizeOk(sz)
    ensures 0 <= Pages(sz) <= TRAPFRAME
  {
  }

  lemma PagesMonotone(a: int, b: int)
    requires 0 <= a <= b
    ensures Pages(a) <= Pages(b)
  {
  }

  // ----- What a process sees -----

  datatype Seen = Byte(b: int) | Fault

  function ByteIn(x: Page, k: int): int {
    if x.DataPage? && 0 <= k < |x.bytes| then x.bytes[k] else 0
  }

  // The byte at va: its page's if there is one, zero if it was never touched, a fault outside.
  function Vis(m: Mem, r: int, sz: int, va: int): Seen {
    var e := LeafPte(m, r, va / PGSIZE);
    if va < 0 || va / PGSIZE >= Pages(sz) then Fault
    else if !e.valid then Byte(0)
    else if !e.u then Fault
    else Byte(ByteIn(PageAt(m, e.ppn), va % PGSIZE))
  }

  // Every process sees what it saw.
  ghost predicate SameVis(m: Mem, m': Mem, roots: set<int>) {
    forall q, sz, va {:trigger Vis(m', q, sz, va)} :: q in roots && SizeOk(sz) ==>
                                                      Vis(m', q, sz, va) == Vis(m, q, sz, va)
  }

  // Outside the pages that changed, nobody sees a difference.
  lemma OutsideVis(m: Mem, h: Hands, m': Mem, h': Hands, r: int, lo: int, hi: int, q: int, sz: int, va: int)
    requires Outside(m, h, m', h', r, lo, hi) && q in h.roots && SizeOk(sz) && !Within(q, va / PGSIZE, r, lo, hi)
    ensures Vis(m', q, sz, va) == Vis(m, q, sz, va)
  {
    PagesFit(sz);
    var e := LeafPte(m', q, va / PGSIZE);
    assert SameMapping(m, m', q, va / PGSIZE);
  }

  lemma OutsideSame(m: Mem, h: Hands, m': Mem, h': Hands, r: int, lo: int)
    requires Outside(m, h, m', h', r, lo, lo)
    ensures SameVis(m, m', h.roots)
  {
    forall q, sz, va | q in h.roots && SizeOk(sz) ensures Vis(m', q, sz, va) == Vis(m, q, sz, va) {
      OutsideVis(m, h, m', h', r, lo, lo, q, sz, va);
    }
  }

  // A zero page where there was none shows as what was seen before.
  lemma FaultSame(m: Mem, h: Hands, m': Mem, h': Hands, r: int, v: int)
    requires Outside(m, h, m', h', r, v, v + 1) && !LeafPte(m, r, v).valid
    requires LeafPte(m', r, v).valid ==> LeafPte(m', r, v).u && PageAt(m', LeafPte(m', r, v).ppn) == ZeroData()
    ensures SameVis(m, m', h.roots)
  {
    forall q, sz, va | q in h.roots && SizeOk(sz) ensures Vis(m', q, sz, va) == Vis(m, q, sz, va) {
      if !Within(q, va / PGSIZE, r, v, v + 1) {
        OutsideVis(m, h, m', h', r, v, v + 1, q, sz, va);
      }
    }
  }

  // Of table r only user mappings changed, and of the other tables none.
  ghost predicate UserOnly(m: Mem, m': Mem, roots: set<int>, r: int) {
    forall q, v {:trigger LeafPte(m', q, v)} :: q in roots && (q != r || v >= TRAPFRAME) ==>
                                                LeafPte(m', q, v) == LeafPte(m, q, v)
  }

  lemma OutsideUser(m: Mem, h: Hands, m': Mem, h': Hands, r: int, lo: int, hi: int)
    requires Outside(m, h, m', h', r, lo, hi) && (lo >= hi || hi <= TRAPFRAME)
    ensures UserOnly(m, m', h.roots, r)
  {
    forall q, v | q in h.roots && (q != r || v >= TRAPFRAME) ensures LeafPte(m', q, v) == LeafPte(m, q, v) {
      assert !Within(q, v, r, lo, hi);
    }
  }

  lemma UserOnlyTwice(m: Mem, m1: Mem, m2: Mem, roots: set<int>, r: int)
    requires UserOnly(m, m1, roots, r) && UserOnly(m1, m2, roots, r)
    ensures UserOnly(m, m2, roots, r)
  {
    forall q, v | q in roots && (q != r || v >= TRAPFRAME) ensures LeafPte(m2, q, v) == LeafPte(m, q, v) {
      assert LeafPte(m1, q, v) == LeafPte(m, q, v);
    }
  }

  function UserPte(w: bool, x: bool, p: int): Pte {
    Pte(true, true, w, x, true, p)
  }

  // A page taken and filled with x, or 0.
  method TakePage(k: Kernel, x: Page, r: int, v: int) returns (b: int)
    requires k.Valid()
    modifies k
    ensures k.Valid() && Outside(old(k.mem), old(k.h), k.mem, k.h, r, v, v) && k.h.owner == old(k.h).owner
    ensures b == 0 ==> k.h == old(k.h) && k.h.free == []
    ensures b != 0 ==> b !in old(k.h).ext && k.h.ext == old(k.h).ext + {b} && 0 < b < |k.mem| && k.mem[b] == x
    ensures b != 0 ==> |k.h.free| == |old(k.h).free| - 1
    ensures SamePtes(old(k.mem), k.mem, k.h.roots)
  {
    ghost var m0, h0, hd0 := k.mem, k.h, k.freelist;
    b := k.Kalloc();
    if b == 0 {
      GrewOutside(m0, hd0, h0, k.pages, k.mem, k.h, r, v);
      return;
    }
    FillOutside(m0, hd0, h0, k.pages, b, k.mem, k.h, r, v);
    ghost var m1, h1, hd1 := k.mem, k.h, k.freelist;
    k.mem := k.mem[b := x];
    FillStep(m1, hd1, h1, k.pages, b, x, k.mem);
    FillOutside(m1, hd1, h1, k.pages, b, k.mem, k.h, r, v);
    OutsideTwice(m0, h0, m1, h1, k.mem, k.h, r, v, v);
    forall q: Ref | q.r in k.h.roots ensures PteAt(k.mem, q) == PteAt(m0, q) {
      assert PteAt(m1, q) == PteAt(m0, q);
    }
  }

  lemma NeedSame(m: Mem, m': Mem, roots: set<int>, r: int, v: int)
    requires SamePtes(m, m', roots) && r in roots
    ensures Need(m', r, v) == Need(m, r, v)
  {
    assert PteAt(m', Mid(r, v / NPTE / NPTE)) == PteAt(m, Mid(r, v / NPTE / NPTE));
    assert PteAt(m', Low(r, v / NPTE)) == PteAt(m, Low(r, v / NPTE));
  }

  // A new page holding x mapped at page v with the flags of e: kalloc, memset or memmove, mappages, and the undo.
  method MapNew(k: Kernel, r: int, v: int, e: Pte, x: Page) returns (b: int)
    requires k.Valid() && r in k.h.roots && 0 <= v < TRAPFRAME && !LeafPte(k.mem, r, v).valid
    requires e.valid && IsLeaf(e) && x.DataPage? && |x.bytes| == PGSIZE
    modifies k
    ensures k.Valid() && k.h.ext == old(k.h).ext && Outside(old(k.mem), old(k.h), k.mem, k.h, r, v, v + 1)
            && OthersKeep(old(k.h), k.h, r)
    ensures b != 0 ==> LeafPte(k.mem, r, v) == e.(ppn := b) && PageAt(k.mem, b) == x
    ensures b == 0 ==> !LeafPte(k.mem, r, v).valid && Outside(old(k.mem), old(k.h), k.mem, k.h, r, v, v)
                       && |k.h.free| <= 1
    ensures b != 0 <==> |old(k.h).free| > Need(old(k.mem), r, v)
    ensures b != 0 ==> |k.h.free| == |old(k.h).free| - 1 - Need(old(k.mem), r, v)
  {
    ghost var m0, h0 := k.mem, k.h;
    b := TakePage(k, x, r, v);
    ghost var m2, h2 := k.mem, k.h;
    NeedSame(m0, m2, h0.roots, r, v);
    OutsideMore(m0, h0, m2, h2, r, v, v, v, v + 1);
    assert LeafPte(m2, r, v) == LeafPte(m0, r, v);
    if b == 0 {
      return;
    }
    var ok := k.MapPage(r, v, e.(ppn := b));
    OutsideTwice(m0, h0, m2, h2, k.mem, k.h, r, v, v + 1);
    if !ok {
      UndoMap(k, m0, h0, m2, h2, r, v, b);
      b := 0;
    }
  }

  // A zeroed page for the user.
  method MapZero(k: Kernel, r: int, v: int, w: bool, x: bool) returns (b: int)
    requires k.Valid() && r in k.h.roots && 0 <= v < TRAPFRAME && !LeafPte(k.mem, r, v).valid
    modifies k
    ensures k.Valid() && k.h.ext == old(k.h).ext && Outside(old(k.mem), old(k.h), k.mem, k.h, r, v, v + 1)
    ensures b != 0 ==> LeafPte(k.mem, r, v) == UserPte(w, x, b) && PageAt(k.mem, b) == ZeroData()
    ensures b == 0 ==> !LeafPte(k.mem, r, v).valid && Outside(old(k.mem), old(k.h), k.mem, k.h, r, v, v)
                       && |k.h.free| <= 1
    ensures b != 0 <==> |old(k.h).free| > Need(old(k.mem), r, v)
    ensures b != 0 ==> |k.h.free| == |old(k.h).free| - 1 - Need(old(k.mem), r, v)
  {
    b := MapNew(k, r, v, UserPte(w, x, 0), ZeroData());
  }

  // The undo of MapNew: the page goes back, and the mappings are as before.
  method UndoMap(k: Kernel, ghost m0: Mem, ghost h0: Hands, ghost m2: Mem, ghost h2: Hands, r: int, v: int, b: int)
    requires k.Valid() && b in k.h.ext && 0 < b < |k.mem| && Grew(m2, h2, k.mem, k.h) && b !in h0.ext
             && k.h.ext == h0.ext + {b}
    requires Outside(m0, h0, m2, h2, r, v, v) && r in h0.roots && (exists hd :: Inv(m2, hd, h2, k.pages))
             && !LeafPte(m0, r, v).valid
    requires k.h.free == []
    modifies k
    ensures k.Valid() && k.h.ext == h0.ext && Outside(m0, h0, k.mem, k.h, r, v, v)
            && Outside(m0, h0, k.mem, k.h, r, v, v + 1)
    ensures !LeafPte(k.mem, r, v).valid && |k.h.free| <= 1 && k.h.owner == old(k.h).owner
  {
    ghost var hd :| Inv(m2, hd, h2, k.pages);
    ghost var m3, h3, hd3 := k.mem, k.h, k.freelist;
    GrewOutside(m2, hd, h2, k.pages, m3, h3, r, v);
    OutsideTwice(m0, h0, m2, h2, m3, h3, r, v, v);
    assert OneHand(h3, b);
    k.Release(b);
    FillOutside(m3, hd3, h3, k.pages, b, k.mem, k.h, r, v);
    OutsideTwice(m0, h0, m3, h3, k.mem, k.h, r, v, v);
    OutsideMore(m0, h0, k.mem, k.h, r, v, v, v, v + 1);
    assert LeafPte(k.mem, r, v) == LeafPte(m0, r, v);
  }

  // ismapped
  method IsMapped(k: Kernel, r: int, v: int) returns (b: bool)
    requires k.Valid() && r in k.h.roots && 0 <= v < MAXVPN
    modifies k
    ensures unchanged(k) && b == LeafPte(k.mem, r, v).valid
  {
    var p := k.Walk(r, v, false);
    if p == 0 {
      return false;
    }
    PteIsEntry(k.mem, Leaf(r, v));
    b := k.mem[p].ptes[v % NPTE].valid;
  }

  // Give a page to an address below the size that has none.  The page, or 0.
  method Vmfault(k: Kernel, r: int, psz: int, va: int) returns (b: int)
    requires k.Valid() && r in k.h.roots && SizeOk(psz) && 0 <= va
    modifies k
    ensures k.Valid() && k.h.ext == old(k.h).ext && k.h.roots == old(k.h).roots
    ensures SameVis(old(k.mem), k.mem, k.h.roots) && UserOnly(old(k.mem), k.mem, k.h.roots, r)
    ensures Outside(old(k.mem), old(k.h), k.mem, k.h, r, va / PGSIZE, va / PGSIZE + 1)
    ensures b != 0 ==> va < psz && !LeafPte(old(k.mem), r, va / PGSIZE).valid
    ensures b != 0 ==> LeafPte(k.mem, r, va / PGSIZE) == UserPte(true, false, b)
    ensures b != 0 ==> var e := LeafPte(k.mem, r, va / PGSIZE); e.valid && e.u && e.r && e.w && !e.x && e.ppn == b
    ensures b == 0 ==> LeafPte(k.mem, r, va / PGSIZE) == LeafPte(old(k.mem), r, va / PGSIZE)
    ensures b == 0 ==> va >= psz || LeafPte(k.mem, r, va / PGSIZE).valid || |k.h.free| <= 1
    ensures b != 0 <==> va < psz && !LeafPte(old(k.mem), r, va / PGSIZE).valid
                        && |old(k.h).free| > Need(old(k.mem), r, va / PGSIZE)
  {
    ghost var m0, h0 := k.mem, k.h;
    var v := va / PGSIZE;
    GrewOutside(m0, k.freelist, h0, k.pages, m0, h0, r, v);
    OutsideSame(m0, h0, m0, h0, r, v);
    OutsideMore(m0, h0, m0, h0, r, v, v, v, v + 1);
    if va >= psz {
      return 0;
    }
    FaultPage(va, psz);
    var mapped := IsMapped(k, r, v);
    if mapped {
      return 0;
    }
    b := MapZero(k, r, v, true, false);
    OutsideUser(m0, h0, k.mem, k.h, r, v, v + 1);
    if b == 0 {
      OutsideSame(m0, h0, k.mem, k.h, r, v);
      assert LeafPte(k.mem, r, v) == LeafPte(m0, r, v);
    } else {
      FaultSame(m0, h0, k.mem, k.h, r, v);
    }
  }

  lemma FaultPage(va: int, psz: int)
    requires SizeOk(psz) && 0 <= va < psz
    ensures 0 <= va / PGSIZE < Pages(psz) <= TRAPFRAME
  {
  }

  // uvmdealloc: shrink to newsz; nothing if that is no smaller.
  method Uvmdealloc(k: Kernel, r: int, oldsz: int, newsz: int) returns (sz: int)
    requires k.Valid() && r in k.h.roots && SizeOk(oldsz) && 0 <= newsz
    modifies k
    ensures k.Valid() && k.h.ext == old(k.h).ext && sz == if newsz >= oldsz then oldsz else newsz
    ensures Outside(old(k.mem), old(k.h), k.mem, k.h, r, Pages(sz), Pages(oldsz))
    ensures Gone(k.mem, r, Pages(sz), Pages(oldsz))
    ensures UserOk(old(k.mem), r, oldsz) ==> UserOk(k.mem, r, sz)
    ensures forall p :: p in k.h.ext && 0 <= p < |k.mem| ==> k.mem[p] == old(k.mem)[p]
  {
    ghost var m0, h0 := k.mem, k.h;
    PagesFit(oldsz);
    if newsz >= oldsz {
      GrewOutside(m0, k.freelist, h0, k.pages, m0, h0, r, Pages(oldsz));
      return oldsz;
    }
    PagesMonotone(newsz, oldsz);
    PagesFit(newsz);
    var lo, hi := Pages(newsz), Pages(oldsz);
    if lo < hi {
      k.Uvmunmap(r, lo, hi - lo, true);
    } else {
      GrewOutside(m0, k.freelist, h0, k.pages, m0, h0, r, lo);
    }
    Shrunk(m0, h0, k.mem, k.h, r, oldsz, newsz);
    sz := newsz;
  }

  lemma Shrunk(m: Mem, h: Hands, m': Mem, h': Hands, r: int, oldsz: int, newsz: int)
    requires Outside(m, h, m', h', r, Pages(newsz), Pages(oldsz)) && Gone(m', r, Pages(newsz), Pages(oldsz))
             && r in h.roots
    ensures UserOk(m, r, oldsz) ==> UserOk(m', r, newsz)
  {
    if UserOk(m, r, oldsz) {
      forall v | LeafPte(m', r, v).valid ensures if v < TRAPFRAME then 0 <= v < Pages(newsz) else !LeafPte(m', r, v).u {
        assert LeafPte(m, r, v) == LeafPte(m', r, v) || Within(r, v, r, Pages(newsz), Pages(oldsz));
      }
    }
  }

  // Pages lo..hi of r are fresh: mapped for the user, and zero.
  ghost predicate Fresh(m: Mem, r: int, lo: int, hi: int, w: bool, x: bool) {
    forall v {:trigger LeafPte(m, r, v)} :: lo <= v < hi ==>
      LeafPte(m, r, v) == UserPte(w, x, LeafPte(m, r, v).ppn) && PageAt(m, LeafPte(m, r, v).ppn) == ZeroData()
  }

  ghost predicate Unmapped(m: Mem, r: int, lo: int, hi: int) {
    forall v {:trigger LeafPte(m, r, v)} :: lo <= v < hi ==> !LeafPte(m, r, v).valid
  }

  lemma FreshMore(m: Mem, h: Hands, m': Mem, h': Hands, r: int, lo: int, a: int, hi: int, w: bool, x: bool)
    requires Fresh(m, r, lo, a, w, x) && Unmapped(m, r, a, hi) && Outside(m, h, m', h', r, a, a + 1) && r in h.roots
             && 0 <= lo <= a < hi <= TRAPFRAME
    requires LeafPte(m', r, a) == UserPte(w, x, LeafPte(m', r, a).ppn)
             && PageAt(m', LeafPte(m', r, a).ppn) == ZeroData()
    ensures Fresh(m', r, lo, a + 1, w, x) && Unmapped(m', r, a + 1, hi)
  {
    forall v | lo <= v < hi && v != a ensures SameMapping(m, m', r, v) {
      var e := LeafPte(m', r, v);
      assert !Within(r, v, r, a, a + 1);
    }
    forall v | lo <= v < a + 1
      ensures LeafPte(m', r, v) == UserPte(w, x, LeafPte(m', r, v).ppn)
              && PageAt(m', LeafPte(m', r, v).ppn) == ZeroData()
    {
      if v < a {
        assert SameMapping(m, m', r, v) && LeafPte(m, r, v).valid;
      }
    }
    forall v | a + 1 <= v < hi ensures !LeafPte(m', r, v).valid {
      assert SameMapping(m, m', r, v);
    }
  }

  lemma SameVisTwice(m: Mem, m1: Mem, m2: Mem, roots: set<int>)
    requires SameVis(m, m1, roots) && SameVis(m1, m2, roots)
    ensures SameVis(m, m2, roots)
  {
    forall q, sz, va | q in roots && SizeOk(sz) ensures Vis(m2, q, sz, va) == Vis(m, q, sz, va) {
      assert Vis(m1, q, sz, va) == Vis(m, q, sz, va);
    }
  }

  // Changes undone: pages that were not mapped are not mapped.
  lemma RolledBack(m: Mem, head: int, h: Hands, pages: set<int>, m': Mem, h': Hands, r: int, lo: int, hi: int)
    requires Inv(m, head, h, pages) && Outside(m, h, m', h', r, lo, hi) && r in h.roots && Unmapped(m, r, lo, hi)
             && Gone(m', r, lo, hi)
    ensures Outside(m, h, m', h', r, lo, lo)
  {
    forall q, v | q in h.roots ensures SameMapping(m, m', q, v) {
      var e := LeafPte(m', q, v);
      if Within(q, v, r, lo, hi) {
        assert PteAt(m, Leaf(r, v)) == NO_PTE;
      }
    }
  }

  // Free pages enough for n more mapped pages, whatever tables they need.
  function PerPage(n: int): int {
    3 * n
  }

  // Grow with zeroed pages; on failure everything is as before, and the result is 0.
  method Uvmalloc(k: Kernel, r: int, oldsz: int, newsz: int, w: bool, x: bool) returns (sz: int)
    requires k.Valid() && r in k.h.roots && SizeOk(oldsz) && SizeOk(newsz) && UserOk(k.mem, r, oldsz)
    modifies k
    ensures k.Valid() && k.h.ext == old(k.h).ext && k.h.roots == old(k.h).roots && SameVis(old(k.mem), k.mem, k.h.roots)
    ensures sz == (if newsz < oldsz then oldsz else newsz) || (sz == 0 && newsz >= oldsz)
    ensures newsz >= oldsz && sz == newsz != 0 ==>
            UserOk(k.mem, r, newsz) && Fresh(k.mem, r, Pages(oldsz), Pages(newsz), w, x)
    ensures newsz >= oldsz && sz == newsz != 0 ==> forall v :: Pages(oldsz) <= v < Pages(newsz) ==>
              var e := LeafPte(k.mem, r, v); e.valid && e.u && e.r && e.w == w && e.x == x
    ensures newsz >= oldsz && sz == newsz != 0 ==>
            Outside(old(k.mem), old(k.h), k.mem, k.h, r, Pages(oldsz), Pages(newsz))
    ensures newsz < oldsz || sz != newsz ==>
            UserOk(k.mem, r, oldsz) && Outside(old(k.mem), old(k.h), k.mem, k.h, r, 0, 0)
    ensures newsz >= oldsz && sz != newsz ==> |old(k.h).free| < PerPage(Pages(newsz) - Pages(oldsz))
  {
    ghost var m0, h0, hd0 := k.mem, k.h, k.freelist;
    GrewOutside(m0, hd0, h0, k.pages, m0, h0, r, 0);
    OutsideSame(m0, h0, m0, h0, r, 0);
    if newsz < oldsz {
      return oldsz;
    }
    PagesMonotone(oldsz, newsz);
    PagesFit(newsz);
    var lo, hi := Pages(oldsz), Pages(newsz);
    var a := lo;
    OutsideMore(m0, h0, m0, h0, r, 0, 0, lo, hi);
    while a < hi
      invariant lo <= a <= hi && k.Valid() && k.h.ext == h0.ext && Outside(m0, h0, k.mem, k.h, r, lo, hi)
      invariant SameVis(m0, k.mem, h0.roots) && Fresh(k.mem, r, lo, a, w, x) && Unmapped(k.mem, r, a, hi)
      invariant |h0.free| <= |k.h.free| + PerPage(a - lo)
    {
      var b := GrowPage(k, r, lo, a, hi, w, x, m0, h0);
      if b == 0 {
        Shrink(k, r, lo, a, hi, hd0, m0, h0, oldsz);
        return 0;
      }
      a := a + 1;
    }
    Grown(m0, h0, k.mem, k.h, r, oldsz, newsz);
    sz := newsz;
  }

  // One turn of uvmalloc's loop.
  method GrowPage(k: Kernel, r: int, lo: int, a: int, hi: int, w: bool, x: bool, ghost m0: Mem, ghost h0: Hands)
    returns (b: int)
    requires k.Valid() && r in h0.roots && 0 <= lo <= a < hi <= TRAPFRAME && k.h.ext == h0.ext
    requires Outside(m0, h0, k.mem, k.h, r, lo, hi) && SameVis(m0, k.mem, h0.roots)
    requires Fresh(k.mem, r, lo, a, w, x) && Unmapped(k.mem, r, a, hi)
    modifies k
    ensures k.Valid() && k.h.ext == h0.ext && Outside(m0, h0, k.mem, k.h, r, lo, hi) && SameVis(m0, k.mem, h0.roots)
    ensures b != 0 ==> Fresh(k.mem, r, lo, a + 1, w, x) && Unmapped(k.mem, r, a + 1, hi)
    ensures b == 0 ==> Unmapped(k.mem, r, a, hi) && |old(k.h).free| < 3
    ensures b != 0 ==> |old(k.h).free| <= |k.h.free| + 3
  {
    ghost var m1, h1 := k.mem, k.h;
    b := MapZero(k, r, a, w, x);
    OutsideMore(m1, h1, k.mem, k.h, r, a, a + 1, lo, hi);
    OutsideTwice(m0, h0, m1, h1, k.mem, k.h, r, lo, hi);
    FaultSame(m1, h1, k.mem, k.h, r, a);
    SameVisTwice(m0, m1, k.mem, h0.roots);
    if b != 0 {
      FreshMore(m1, h1, k.mem, k.h, r, lo, a, hi, w, x);
    } else {
      forall v | a <= v < hi ensures !LeafPte(k.mem, r, v).valid {
        assert LeafPte(k.mem, r, v) == LeafPte(m1, r, v);
      }
    }
  }

  // uvmalloc's way out: the pages it added are freed again.
  method Shrink(k: Kernel, r: int, lo: int, a: int, hi: int, ghost hd0: int, ghost m0: Mem, ghost h0: Hands,
                ghost oldsz: int)
    requires k.Valid() && r in h0.roots && 0 <= lo <= a <= hi <= TRAPFRAME && k.h.ext == h0.ext
             && Inv(m0, hd0, h0, k.pages)
    requires Outside(m0, h0, k.mem, k.h, r, lo, hi) && Unmapped(k.mem, r, a, hi) && SizeOk(oldsz) && lo == Pages(oldsz)
             && UserOk(m0, r, oldsz)
    modifies k
    ensures k.Valid() && k.h.ext == h0.ext && Outside(m0, h0, k.mem, k.h, r, 0, 0) && UserOk(k.mem, r, oldsz)
    ensures SameVis(m0, k.mem, h0.roots) && k.h.roots == h0.roots
  {
    ghost var m1, h1, hd1 := k.mem, k.h, k.freelist;
    k.Uvmunmap(r, lo, a - lo, true);
    OutsideMore(m1, h1, k.mem, k.h, r, lo, a, lo, hi);
    OutsideTwice(m0, h0, m1, h1, k.mem, k.h, r, lo, hi);
    forall v | lo <= v < hi ensures LeafPte(k.mem, r, v) == NO_PTE {
      if v >= a {
        assert LeafPte(k.mem, r, v) == LeafPte(m1, r, v) && PteAt(m1, Leaf(r, v)) == NO_PTE;
      }
    }
    assert Unmapped(m0, r, lo, hi);
    RolledBack(m0, hd0, h0, k.pages, k.mem, k.h, r, lo, hi);
    OutsideMore(m0, h0, k.mem, k.h, r, lo, lo, 0, 0);
    OutsideSame(m0, h0, k.mem, k.h, r, 0);
    forall v ensures LeafPte(k.mem, r, v) == LeafPte(m0, r, v) {
    }
  }

  lemma Grown(m: Mem, h: Hands, m': Mem, h': Hands, r: int, oldsz: int, newsz: int)
    requires Outside(m, h, m', h', r, Pages(oldsz), Pages(newsz)) && UserOk(m, r, oldsz) && r in h.roots
             && 0 <= Pages(oldsz) <= Pages(newsz) <= TRAPFRAME
    ensures UserOk(m', r, newsz)
  {
    forall v | LeafPte(m', r, v).valid ensures if v < TRAPFRAME then 0 <= v < Pages(newsz) else !LeafPte(m', r, v).u {
      assert LeafPte(m, r, v) == LeafPte(m', r, v) || Within(r, v, r, Pages(oldsz), Pages(newsz));
    }
  }

  // ----- Copying to and from user memory -----

  // walkaddr: the page at v if the user may use it, or 0.
  method WalkAddr(k: Kernel, r: int, v: int) returns (p: int)
    requires k.Valid() && r in k.h.roots && 0 <= v
    modifies k
    ensures unchanged(k)
    ensures var e := LeafPte(k.mem, r, v); p == if v < MAXVPN && e.valid && e.u then e.ppn else 0
  {
    if v >= MAXVPN {
      return 0;
    }
    var t := k.Walk(r, v, false);
    if t == 0 {
      return 0;
    }
    PteIsEntry(k.mem, Leaf(r, v));
    var e := k.mem[t].ptes[v % NPTE];
    if !e.valid || !e.u {
      return 0;
    }
    return e.ppn;
  }

  // The page a copy uses for page v: walkaddr, or vmfault.  0 if there is none.
  method UserPageFor(k: Kernel, r: int, psz: int, v: int) returns (p: int)
    requires k.Valid() && r in k.h.roots && SizeOk(psz) && 0 <= v && UserOk(k.mem, r, psz)
    modifies k
    ensures k.Valid() && k.h.ext == old(k.h).ext && k.h.roots == old(k.h).roots && SameVis(old(k.mem), k.mem, k.h.roots)
    ensures UserOk(k.mem, r, psz) && UserOnly(old(k.mem), k.mem, k.h.roots, r)
    ensures p != 0 ==> 0 <= v < Pages(psz) <= TRAPFRAME && LeafPte(k.mem, r, v).valid && LeafPte(k.mem, r, v).u
                       && LeafPte(k.mem, r, v).ppn == p
    ensures p == 0 ==> Vis(k.mem, r, psz, v * PGSIZE) == Fault || |k.h.free| <= 1
  {
    ghost var m0, h0, hd0 := k.mem, k.h, k.freelist;
    PagesFit(psz);
    GrewOutside(m0, hd0, h0, k.pages, m0, h0, r, v);
    OutsideSame(m0, h0, m0, h0, r, v);
    p := WalkAddr(k, r, v);
    if p != 0 {
      return;
    }
    if v < TRAPFRAME && LeafPte(k.mem, r, v).valid {
      UserPage(m0, hd0, h0, k.pages, r, v);
    }
    var va0 := v * PGSIZE;
    PageBase(v, psz);
    p := Vmfault(k, r, psz, va0);
    StillUser(m0, h0, k.mem, k.h, r, psz, v);
  }

  lemma PageBase(v: int, psz: int)
    requires 0 <= v && 0 <= psz
    ensures v * PGSIZE / PGSIZE == v && v * PGSIZE % PGSIZE == 0 && (v * PGSIZE < psz <==> v < Pages(psz))
  {
  }

  lemma StillUser(m: Mem, h: Hands, m': Mem, h': Hands, r: int, psz: int, v: int)
    requires UserOk(m, r, psz) && Outside(m, h, m', h', r, v, v + 1) && r in h.roots && Pages(psz) <= TRAPFRAME
             && 0 <= v
    requires v < Pages(psz) || LeafPte(m', r, v) == LeafPte(m, r, v)
    ensures UserOk(m', r, psz)
  {
    forall a | LeafPte(m', r, a).valid ensures if a < TRAPFRAME then 0 <= a < Pages(psz) else !LeafPte(m', r, a).u {
      assert LeafPte(m', r, a) == LeafPte(m, r, a) || Within(r, a, r, v, v + 1);
    }
  }

  // data is what the process sees from va on.
  ghost predicate SeenAt(m: Mem, r: int, psz: int, va: int, data: seq<int>) {
    forall j {:trigger data[j]} :: 0 <= j < |data| ==> Vis(m, r, psz, va + j) == Byte(data[j])
  }

  lemma SeenOn(m: Mem, r: int, psz: int, va: int, data: seq<int>, cur: int, more: seq<int>, all: seq<int>)
    requires SeenAt(m, r, psz, va, data) && SeenAt(m, r, psz, cur, more) && cur == va + |data| && all == data + more
    ensures SeenAt(m, r, psz, va, all)
  {
    forall j | 0 <= j < |all| ensures Vis(m, r, psz, va + j) == Byte(all[j]) {
      if j >= |data| {
        assert va + j == cur + (j - |data|) && all[j] == more[j - |data|];
      } else {
        assert all[j] == data[j];
      }
    }
  }

  // Bytes of one page, as the process sees them.
  lemma PieceSeen(m: Mem, r: int, psz: int, cur: int, v: int, off: int, n: int, x: Page, piece: seq<int>)
    requires v == cur / PGSIZE && off == cur % PGSIZE && 0 <= cur && 0 <= n && off + n <= PGSIZE && 0 <= v < Pages(psz)
    requires LeafPte(m, r, v).valid && LeafPte(m, r, v).u && PageAt(m, LeafPte(m, r, v).ppn) == x
    requires x.DataPage? && |x.bytes| == PGSIZE && piece == x.bytes[off..off + n]
    ensures SeenAt(m, r, psz, cur, piece)
  {
    forall j | 0 <= j < |piece| ensures Vis(m, r, psz, cur + j) == Byte(piece[j]) {
      InPage(cur, j);
    }
  }

  lemma InPage(cur: int, j: int)
    requires 0 <= cur && 0 <= j && cur % PGSIZE + j < PGSIZE
    ensures (cur + j) / PGSIZE == cur / PGSIZE && (cur + j) % PGSIZE == cur % PGSIZE + j
  {
  }

  lemma SeenSame(m: Mem, m': Mem, roots: set<int>, r: int, psz: int, va: int, data: seq<int>)
    requires SameVis(m, m', roots) && r in roots && SizeOk(psz) && SeenAt(m', r, psz, va, data)
    ensures SeenAt(m, r, psz, va, data)
  {
    forall j | 0 <= j < |data| ensures Vis(m, r, psz, va + j) == Byte(data[j]) {
      assert Vis(m', r, psz, va + j) == Vis(m, r, psz, va + j);
    }
  }

  // A page faults as a whole or not at all.
  lemma FaultsWhole(m: Mem, r: int, psz: int, cur: int, v: int)
    requires 0 <= cur && v == cur / PGSIZE
    ensures Vis(m, r, psz, v * PGSIZE) == Fault <==> Vis(m, r, psz, cur) == Fault
  {
    PageBase(v, 0);
  }

  // Copy len bytes from user address va: what the process sees there, or where it stopped.
  method CopyIn(k: Kernel, r: int, psz: int, va: int, len: int) returns (ok: bool, dst: seq<int>)
    requires k.Valid() && r in k.h.roots && SizeOk(psz) && 0 <= va && 0 <= len && UserOk(k.mem, r, psz)
    modifies k
    ensures k.Valid() && UserOk(k.mem, r, psz) && k.h.ext == old(k.h).ext && k.h.roots == old(k.h).roots
    ensures SameVis(old(k.mem), k.mem, k.h.roots) && SeenAt(old(k.mem), r, psz, va, dst) && |dst| <= len
            && (ok <==> |dst| == len)
    ensures !ok ==> Vis(old(k.mem), r, psz, va + |dst|) == Fault || |k.h.free| <= 1
    ensures UserOnly(old(k.mem), k.mem, k.h.roots, r)
  {
    ghost var m0, roots := k.mem, k.h.roots;
    SameVisRefl(m0, roots);
    var cur := va;
    dst := [];
    while |dst| < len
      invariant k.Valid() && UserOk(k.mem, r, psz) && k.h.ext == old(k.h).ext && k.h.roots == roots
                && SameVis(m0, k.mem, roots)
      invariant |dst| <= len && SeenAt(m0, r, psz, va, dst) && (|dst| < len ==> cur == va + |dst|)
                && UserOnly(m0, k.mem, roots, r)
    {
      ghost var m1 := k.mem;
      var v := cur / PGSIZE;
      var p := UserPageFor(k, r, psz, v);
      SameVisTwice(m0, m1, k.mem, roots);
      UserOnlyTwice(m0, m1, k.mem, roots, r);
      if p == 0 {
        FaultsWhole(k.mem, r, psz, cur, v);
        assert Vis(k.mem, r, psz, cur) == Vis(m0, r, psz, cur);
        return false, dst;
      }
      var off := cur % PGSIZE;
      var n := Min(PGSIZE - off, len - |dst|);
      UserPage(k.mem, k.freelist, k.h, k.pages, r, v);
      var piece := k.mem[p].bytes[off..off + n];
      PieceSeen(k.mem, r, psz, cur, v, off, n, k.mem[p], piece);
      SeenSame(m0, k.mem, roots, r, psz, cur, piece);
      SeenOn(m0, r, psz, va, dst, cur, piece, dst + piece);
      NextPage(cur, n, len - |dst|);
      dst := dst + piece;
      cur := (v + 1) * PGSIZE;
    }
    ok := true;
  }

  lemma SameVisRefl(m: Mem, roots: set<int>)
    ensures SameVis(m, m, roots)
  {
  }

  lemma NextPage(cur: int, n: int, left: int)
    requires 0 <= cur && 0 < left && n == Min(PGSIZE - cur % PGSIZE, left)
    ensures 0 < n && (n < left ==> (cur / PGSIZE + 1) * PGSIZE == cur + n)
  {
  }

  // Process r sees data at va, where it saw something before; nothing else looks different to anyone.
  ghost predicate Wrote(m: Mem, m': Mem, roots: set<int>, r: int, va: int, data: seq<int>) {
    forall q, sz, a {:trigger Vis(m', q, sz, a)} :: q in roots && SizeOk(sz) ==>
      Vis(m', q, sz, a) == if q == r && va <= a < va + |data| && Vis(m, q, sz, a) != Fault then Byte(data[a - va])
        else Vis(m, q, sz, a)
  }

  ghost predicate NoFault(m: Mem, r: int, psz: int, va: int, n: int) {
    forall a {:trigger Vis(m, r, psz, a)} :: va <= a < va + n ==> Vis(m, r, psz, a) != Fault
  }

  lemma WroteOn(m: Mem, m1: Mem, m2: Mem, roots: set<int>, r: int, va: int, data: seq<int>, cur: int, more: seq<int>,
                all: seq<int>)
    requires Wrote(m, m1, roots, r, va, data) && Wrote(m1, m2, roots, r, cur, more) && cur == va + |data|
             && all == data + more
    ensures Wrote(m, m2, roots, r, va, all)
  {
    forall q, sz, a | q in roots && SizeOk(sz)
      ensures Vis(m2, q, sz, a) == if q == r && va <= a < va + |all| && Vis(m, q, sz, a) != Fault
              then Byte(all[a - va]) else Vis(m, q, sz, a)
    {
      var x := Vis(m1, q, sz, a);
    }
  }

  lemma WroteAfter(m: Mem, m1: Mem, m2: Mem, roots: set<int>, r: int, va: int, data: seq<int>)
    requires SameVis(m, m1, roots) && Wrote(m1, m2, roots, r, va, data)
    ensures Wrote(m, m2, roots, r, va, data)
  {
    forall q, sz, a | q in roots && SizeOk(sz)
      ensures Vis(m2, q, sz, a) == if q == r && va <= a < va + |data| && Vis(m, q, sz, a) != Fault
              then Byte(data[a - va]) else Vis(m, q, sz, a)
    {
      var x := Vis(m1, q, sz, a);
    }
  }

  function Patched(bytes: seq<int>, off: int, data: seq<int>): seq<int>
    requires 0 <= off && off + |data| <= |bytes|
  {
    bytes[..off] + data + bytes[off + |data|..]
  }

  // A write into the page at v shows only in that page, only to that process.
  lemma PokeVis(m: Mem, head: int, h: Hands, pages: set<int>, r: int, cur: int, v: int, off: int, b: int,
                data: seq<int>, x: Page, m': Mem)
    requires Inv(m, head, h, pages) && r in h.roots && 0 <= v < TRAPFRAME && LeafPte(m, r, v).valid
             && LeafPte(m, r, v).u && LeafPte(m, r, v).ppn == b
    requires 0 <= cur && v == cur / PGSIZE && off == cur % PGSIZE && off + |data| <= PGSIZE && IsData(m, b)
    requires x == DataPage(Patched(m[b].bytes, off, data)) && SamePtes(m, m', h.roots) && OnlyPage(m, m', b)
             && m'[b] == x
    ensures Wrote(m, m', h.roots, r, cur, data)
  {
    forall q, sz, a | q in h.roots && SizeOk(sz)
      ensures Vis(m', q, sz, a) == if q == r && cur <= a < cur + |data| && Vis(m, q, sz, a) != Fault
              then Byte(data[a - cur]) else Vis(m, q, sz, a)
    {
      var w := a / PGSIZE;
      assert PteAt(m', Leaf(q, w)) == PteAt(m, Leaf(q, w));
      if q == r && w == v {
        SamePage(cur, a);
      } else {
        if q == r && cur <= a < cur + |data| {
          InPage(cur, a - cur);
        }
        PagesFit(sz);
        OtherPage(m, head, h, pages, r, v, q, w);
      }
    }
  }

  lemma SamePage(cur: int, a: int)
    requires 0 <= cur && a / PGSIZE == cur / PGSIZE
    ensures a % PGSIZE - cur % PGSIZE == a - cur
  {
  }

  // Different mappings have different pages.
  lemma OtherPage(m: Mem, head: int, h: Hands, pages: set<int>, r: int, v: int, q: int, w: int)
    requires Inv(m, head, h, pages) && r in h.roots && q in h.roots && (q != r || w != v) && v < TRAPFRAME
             && LeafPte(m, r, v).valid
    ensures LeafPte(m, q, w).valid && w < TRAPFRAME ==> LeafPte(m, q, w).ppn != LeafPte(m, r, v).ppn
  {
    if LeafPte(m, q, w).valid && w < TRAPFRAME {
      UserPage(m, head, h, pages, q, w);
      UserPage(m, head, h, pages, r, v);
    }
  }

  // One turn of copyout: data go to cur, inside one page.
  method PokePage(k: Kernel, r: int, psz: int, cur: int, data: seq<int>) returns (ok: bool)
    requires k.Valid() && r in k.h.roots && SizeOk(psz) && 0 <= cur && cur % PGSIZE + |data| <= PGSIZE
             && UserOk(k.mem, r, psz)
    modifies k
    ensures k.Valid() && UserOk(k.mem, r, psz) && k.h.ext == old(k.h).ext && k.h.roots == old(k.h).roots
    ensures ok ==> Arrived(old(k.mem), k.mem, k.h.roots, r, psz, cur, data)
    ensures !ok ==> SameVis(old(k.mem), k.mem, k.h.roots)
    ensures !ok ==> Vis(old(k.mem), r, psz, cur) == Fault || !LeafPte(k.mem, r, cur / PGSIZE).w || |k.h.free| <= 1
    ensures UserOnly(old(k.mem), k.mem, k.h.roots, r)
  {
    ghost var m0, roots := k.mem, k.h.roots;
    var v := cur / PGSIZE;
    if v >= MAXVPN {
      PagesFit(psz);
      SameVisRefl(m0, roots);
      return false;
    }
    var b := UserPageFor(k, r, psz, v);
    if b == 0 {
      FaultsWhole(k.mem, r, psz, cur, v);
      assert Vis(k.mem, r, psz, cur) == Vis(m0, r, psz, cur);
      return false;
    }
    var t := k.Walk(r, v, false);
    PteIsEntry(k.mem, Leaf(r, v));
    if !k.mem[t].ptes[v % NPTE].w {
      return false;
    }
    UserPage(k.mem, k.freelist, k.h, k.pages, r, v);
    ghost var m1 := k.mem;
    PageNoFault(m0, m1, roots, r, psz, cur, v, |data|);
    var off := cur % PGSIZE;
    var x := DataPage(Patched(k.mem[b].bytes, off, data));
    k.mem := k.mem[b := x];
    WriteStep(m1, k.freelist, k.h, k.pages, b, x, k.mem);
    PokeVis(m1, k.freelist, k.h, k.pages, r, cur, v, off, b, data, x, k.mem);
    WroteAfter(m0, m1, k.mem, roots, r, cur, data);
    forall q, a | q in roots ensures LeafPte(k.mem, q, a) == LeafPte(m1, q, a) {
      assert PteAt(k.mem, Leaf(q, a)) == PteAt(m1, Leaf(q, a));
    }
    UserOnlyTwice(m0, m1, k.mem, roots, r);
    ok := true;
  }

  lemma PageNoFault(m: Mem, m': Mem, roots: set<int>, r: int, psz: int, cur: int, v: int, n: int)
    requires SameVis(m, m', roots) && r in roots && SizeOk(psz) && 0 <= cur && v == cur / PGSIZE
             && cur % PGSIZE + n <= PGSIZE
    requires 0 <= v < Pages(psz) && LeafPte(m', r, v).valid && LeafPte(m', r, v).u
    ensures NoFault(m, r, psz, cur, n)
  {
    forall a | cur <= a < cur + n ensures Vis(m, r, psz, a) != Fault {
      InPage(cur, a - cur);
      assert Vis(m', r, psz, a) == Vis(m, r, psz, a);
    }
  }

  lemma NoFaultOn(m: Mem, m1: Mem, roots: set<int>, r: int, psz: int, va: int, data: seq<int>, cur: int, n: int)
    requires NoFault(m, r, psz, va, |data|) && Wrote(m, m1, roots, r, va, data) && NoFault(m1, r, psz, cur, n)
             && cur == va + |data|
    requires r in roots && SizeOk(psz)
    ensures NoFault(m, r, psz, va, |data| + n)
  {
    forall a | va <= a < va + |data| + n ensures Vis(m, r, psz, a) != Fault {
      if a >= cur {
        assert Vis(m1, r, psz, a) != Fault;
      }
    }
  }

  lemma WroteSeen(m: Mem, m': Mem, roots: set<int>, r: int, psz: int, va: int, data: seq<int>)
    requires NoFault(m, r, psz, va, |data|) && Wrote(m, m', roots, r, va, data) && r in roots && SizeOk(psz)
    ensures SeenAt(m', r, psz, va, data)
  {
    forall j | 0 <= j < |data| ensures Vis(m', r, psz, va + j) == Byte(data[j]) {
      var a := va + j;
      assert Vis(m, r, psz, a) != Fault && Vis(m', r, psz, a) == Byte(data[a - va]);
    }
  }

  // Copy src to user address va: w bytes arrived, all of them if it succeeds.
  method CopyOut(k: Kernel, r: int, psz: int, va: int, src: seq<int>) returns (ok: bool, ghost w: int)
    requires k.Valid() && r in k.h.roots && SizeOk(psz) && 0 <= va && UserOk(k.mem, r, psz)
    modifies k
    ensures k.Valid() && UserOk(k.mem, r, psz) && k.h.ext == old(k.h).ext && k.h.roots == old(k.h).roots
    ensures 0 <= w <= |src| && (ok <==> w == |src|) && Wrote(old(k.mem), k.mem, k.h.roots, r, va, src[..w])
    ensures SeenAt(k.mem, r, psz, va, src[..w]) && UserOnly(old(k.mem), k.mem, k.h.roots, r)
    ensures !ok ==> Vis(k.mem, r, psz, va + w) == Fault || !LeafPte(k.mem, r, (va + w) / PGSIZE).w || |k.h.free| <= 1
  {
    ghost var m0, roots := k.mem, k.h.roots;
    SameVisRefl(m0, roots);
    var cur, done := va, 0;
    w := 0;
    assert src[..0] == [];
    while done < |src|
      invariant k.Valid() && UserOk(k.mem, r, psz) && k.h.ext == old(k.h).ext && k.h.roots == roots
      invariant 0 <= done == w <= |src| && (done < |src| ==> cur == va + done)
                && Arrived(m0, k.mem, roots, r, psz, va, src[..w])
    {
      ghost var m1 := k.mem;
      var n := Min(PGSIZE - cur % PGSIZE, |src| - done);
      NextPage(cur, n, |src| - done);
      var data := src[done..done + n];
      ok := PokePage(k, r, psz, cur, data);
      if !ok {
        NoneArrived(m1, k.mem, roots, r, psz, cur);
        ArrivedOn(m0, m1, k.mem, roots, r, psz, va, src[..w], cur, [], src[..w]);
        assert Vis(k.mem, r, psz, cur) == Vis(m1, r, psz, cur);
        WroteSeen(m0, k.mem, roots, r, psz, va, src[..w]);
        return;
      }
      ArrivedOn(m0, m1, k.mem, roots, r, psz, va, src[..w], cur, data, src[..w + n]);
      cur, done := (cur / PGSIZE + 1) * PGSIZE, done + n;
      w := done;
    }
    WroteSeen(m0, k.mem, roots, r, psz, va, src[..w]);
    ok := true;
  }

  // data is at va, where the process could see, and no other byte and no mapping but r's user mappings changed.
  ghost predicate Arrived(m: Mem, m': Mem, roots: set<int>, r: int, psz: int, va: int, data: seq<int>) {
    Wrote(m, m', roots, r, va, data) && NoFault(m, r, psz, va, |data|) && UserOnly(m, m', roots, r)
  }

  lemma NoneArrived(m: Mem, m': Mem, roots: set<int>, r: int, psz: int, va: int)
    requires SameVis(m, m', roots) && UserOnly(m, m', roots, r)
    ensures Arrived(m, m', roots, r, psz, va, [])
  {
  }

  lemma ArrivedOn(m: Mem, m1: Mem, m2: Mem, roots: set<int>, r: int, psz: int, va: int, data: seq<int>, cur: int,
                  more: seq<int>, all: seq<int>)
    requires Arrived(m, m1, roots, r, psz, va, data) && Arrived(m1, m2, roots, r, psz, cur, more) && cur == va + |data|
             && all == data + more
    requires r in roots && SizeOk(psz)
    ensures Arrived(m, m2, roots, r, psz, va, all)
  {
    NoFaultOn(m, m1, roots, r, psz, va, data, cur, |more|);
    WroteOn(m, m1, m2, roots, r, va, data, cur, more, all);
    UserOnlyTwice(m, m1, m2, roots, r);
  }
}
