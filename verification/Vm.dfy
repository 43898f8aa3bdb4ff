/** kernel/vm.c over kernel/kalloc.c: page tables built, changed and taken apart in place.  Addresses are page
    numbers. */
module Vm {
  import opened VmTable
  import opened VmSteps

  // The entry for page v at each level: PX(2), PX(1), PX(0).
  function RefAt(level: int, r: int, v: int): Ref {
    if level == 2 then Mid(r, v / NPTE / NPTE) else if level == 1 then Low(r, v / NPTE) else Leaf(r, v)
  }

  // Tables may have been added: no entry that was there and no leaf changed, and no page but free ones.
  ghost predicate Grew(m: Mem, h: Hands, m': Mem, h': Hands) {
    && |m'| == |m| && h'.roots == h.roots && h'.ext == h.ext && SameLeaves(m, m', h.roots)
    && (forall p :: p in h.owner ==> p in h'.owner && h'.owner[p] == h.owner[p])
    && (forall p :: p in h'.owner && p !in h.owner ==> !h'.owner[p].Leaf?)
    && (forall p :: 0 <= p < |m| && (p in h.ext || (p in h.owner && h.owner[p].Leaf?)) ==> m'[p] == m[p])
  }

  ghost predicate SameLeaves(m: Mem, m': Mem, roots: set<int>) {
    forall r, v {:trigger LeafPte(m', r, v)} :: r in roots ==> LeafPte(m', r, v) == LeafPte(m, r, v)
  }

  lemma GrewTwice(m: Mem, h: Hands, m1: Mem, h1: Hands, m2: Mem, h2: Hands)
    requires Grew(m, h, m1, h1) && Grew(m1, h1, m2, h2)
    ensures Grew(m, h, m2, h2)
  {
    forall r, v | r in h.roots ensures LeafPte(m2, r, v) == LeafPte(m, r, v) {
      assert LeafPte(m1, r, v) == LeafPte(m, r, v);
    }
  }

  function PageAt(m: Mem, p: int): Page {
    if 0 <= p < |m| then m[p] else FreePage(0)
  }

  // Is v one of pages lo..hi of table r?
  predicate Within(q: int, v: int, r: int, lo: int, hi: int) {
    q == r && lo <= v < hi
  }

  // Outside pages lo..hi of table r every mapping and every user page is as it was.
  ghost predicate Outside(m: Mem, h: Hands, m': Mem, h': Hands, r: int, lo: int, hi: int) {
    && |m'| == |m| && h'.roots == h.roots
    && (forall q, v {:trigger LeafPte(m', q, v)} :: q in h.roots && !Within(q, v, r, lo, hi) ==>
                                                    SameMapping(m, m', q, v))
  }

  ghost predicate SameMapping(m: Mem, m': Mem, q: int, v: int) {
    && LeafPte(m', q, v) == LeafPte(m, q, v)
    && (LeafPte(m, q, v).valid && v < TRAPFRAME ==> PageAt(m', LeafPte(m, q, v).ppn) == PageAt(m, LeafPte(m, q, v).ppn))
  }

  // Tables other than r hold the pages they held.
  ghost predicate OthersKeep(h: Hands, h': Hands, r: int) {
    forall p :: (p in h.owner && h.owner[p].r != r) || (p in h'.owner && h'.owner[p].r != r) ==>
      p in h.owner && p in h'.owner && h'.owner[p] == h.owner[p]
  }

  lemma OutsideTwice(m: Mem, h: Hands, m1: Mem, h1: Hands, m2: Mem, h2: Hands, r: int, lo: int, hi: int)
    requires Outside(m, h, m1, h1, r, lo, hi) && Outside(m1, h1, m2, h2, r, lo, hi)
    ensures Outside(m, h, m2, h2, r, lo, hi)
  {
    forall q, v | q in h.roots && !Within(q, v, r, lo, hi) ensures SameMapping(m, m2, q, v) {
      assert LeafPte(m1, q, v) == LeafPte(m, q, v);
    }
  }

  lemma OutsideMore(m: Mem, h: Hands, m': Mem, h': Hands, r: int, lo: int, hi: int, lo': int, hi': int)
    requires Outside(m, h, m', h', r, lo, hi) && (lo >= hi || (lo' <= lo && hi <= hi'))
    ensures Outside(m, h, m', h', r, lo', hi')
  {
    forall q, v | q in h.roots && !Within(q, v, r, lo', hi') ensures SameMapping(m, m', q, v) {
      assert !Within(q, v, r, lo, hi);
      var e := LeafPte(m', q, v);
    }
  }

  // A user page is held by its entry.
  lemma UserPage(m: Mem, head: int, h: Hands, pages: set<int>, q: int, v: int)
    requires Inv(m, head, h, pages) && q in h.roots && LeafPte(m, q, v).valid && v < TRAPFRAME
    ensures var p := LeafPte(m, q, v).ppn; p in h.owner && h.owner[p] == Leaf(q, v) && IsData(m, p) && p !in h.free
                                           && p !in h.ext
    ensures LeafPte(m, q, v).ppn !in h.roots && 0 < LeafPte(m, q, v).ppn < |m|
  {
    assert PteAt(m, Leaf(q, v)).valid;
    var p := LeafPte(m, q, v).ppn;
    assert OneHand(h, p) && InHands(h, p);
  }

  lemma GrewOutside(m: Mem, head: int, h: Hands, pages: set<int>, m': Mem, h': Hands, r: int, lo: int)
    requires Inv(m, head, h, pages) && Grew(m, h, m', h')
    ensures Outside(m, h, m', h', r, lo, lo)
  {
    forall q, v | q in h.roots ensures SameMapping(m, m', q, v) {
      if LeafPte(m, q, v).valid && v < TRAPFRAME {
        UserPage(m, head, h, pages, q, v);
      }
    }
  }

  // One entry changed, in a table page.
  lemma PutOutside(m: Mem, head: int, h: Hands, pages: set<int>, r: int, v: int, e: Pte, m': Mem, h': Hands)
    requires Inv(m, head, h, pages) && r in h.roots && OnePte(m, m', h.roots, Leaf(r, v), e)
             && TableOf(m, Leaf(r, v)) >= 0
    requires OnlyPage(m, m', TableOf(m, Leaf(r, v))) && h'.roots == h.roots
    ensures Outside(m, h, m', h', r, v, v + 1) && LeafPte(m', r, v) == e
  {
    assert PteAt(m', Leaf(r, v)) == e;
    TableHeld(m, h.roots, h.owner, Leaf(r, v));
    forall q, w | q in h.roots && !Within(q, w, r, v, v + 1) ensures SameMapping(m, m', q, w) {
      assert PteAt(m', Leaf(q, w)) == PteAt(m, Leaf(q, w));
      if LeafPte(m, q, w).valid && w < TRAPFRAME {
        UserPage(m, head, h, pages, q, w);
      }
    }
  }

  lemma ReleaseOutside(m: Mem, head: int, h: Hands, pages: set<int>, r: int, v: int, b: int, m': Mem, h': Hands)
    requires Inv(m, head, h, pages) && r in h.roots && OnePte(m, m', h.roots, Leaf(r, v), NO_PTE)
             && TableOf(m, Leaf(r, v)) >= 0
    requires |m'| == |m| && (forall p :: 0 <= p < |m| && p != b && p != TableOf(m, Leaf(r, v)) ==> m'[p] == m[p])
    requires h'.roots == h.roots && b in h.owner && h.owner[b] == Leaf(r, v)
    ensures Outside(m, h, m', h', r, v, v + 1) && LeafPte(m', r, v) == NO_PTE
  {
    assert PteAt(m', Leaf(r, v)) == NO_PTE;
    TableHeld(m, h.roots, h.owner, Leaf(r, v));
    forall q, w | q in h.roots && !Within(q, w, r, v, v + 1) ensures SameMapping(m, m', q, w) {
      assert PteAt(m', Leaf(q, w)) == PteAt(m, Leaf(q, w));
      if LeafPte(m, q, w).valid && w < TRAPFRAME {
        UserPage(m, head, h, pages, q, w);
      }
    }
  }

  // A change to a page outside the tables.
  lemma FillOutside(m: Mem, head: int, h: Hands, pages: set<int>, b: int, m': Mem, h': Hands, r: int, lo: int)
    requires Inv(m, head, h, pages) && SamePtes(m, m', h.roots) && OnlyPage(m, m', b) && b !in h.owner
             && h'.roots == h.roots
    ensures Outside(m, h, m', h', r, lo, lo)
  {
    forall q, v | q in h.roots ensures SameMapping(m, m', q, v) {
      assert PteAt(m', Leaf(q, v)) == PteAt(m, Leaf(q, v));
      if LeafPte(m, q, v).valid && v < TRAPFRAME {
        UserPage(m, head, h, pages, q, v);
      }
    }
  }

  // The pages from lo up to hi.
  ghost function PageRange(lo: int, hi: int): (r: set<int>)
    ensures forall p :: p in r <==> lo <= p < hi
    decreases hi - lo
  {
    if lo >= hi then {} else {lo} + PageRange(lo + 1, hi)
  }

  class Kernel {
    var mem: Mem
    var freelist: int            // kmem.freelist; 0 is none
    ghost var h: Hands
    ghost const pages: set<int>

    ghost predicate Valid()
      reads this
    {
      Inv(mem, freelist, h, pages)
    }

    // kinit: every page from first up to last is freed, and no table exists.
    constructor (first: int, last: int)
      requires 0 < first <= last
      ensures Valid() && h.roots == {} && h.owner == map[] && h.ext == {} && pages == PageRange(first, last)
    {
      var m := seq(last, _ => DataPage([]));
      mem, freelist := m, 0;
      pages := PageRange(first, last);
      h := Hands([], {}, map[], PageRange(first, last));
      new;
      Freerange(first, last);
    }

    // Free the pages from first up to last, which are in nobody's hands yet.
    method Freerange(first: int, last: int)
      requires Valid() && first <= last && h.roots == {} && h.owner == map[] && h.ext == PageRange(first, last)
      modifies this
      ensures Valid() && h.roots == {} && h.owner == map[] && h.ext == {}
    {
      var p := first;
      while p < last
        invariant first <= p <= last && Valid() && h.roots == {} && h.owner == map[] && h.ext == PageRange(p, last)
      {
        assert InHands(h, p);
        Release(p);
        assert h.ext == PageRange(p + 1, last);
        p := p + 1;
      }
    }

    // A free page, filled with junk, or 0.
    method Kalloc() returns (b: int)
      requires Valid()
      modifies this
      ensures Valid() && SamePtes(old(mem), mem, h.roots)
      ensures b == 0 <==> old(h).free == []
      ensures b == 0 ==> unchanged(this)
      ensures b != 0 ==> b == old(h).free[0] && h == old(h).(free := old(h).free[1..], ext := old(h).ext + {b})
      ensures b != 0 ==> OnlyPage(old(mem), mem, b) && 0 < b < |mem| && b !in old(h).ext && b !in h.roots
                         && b !in h.owner
    {
      b := freelist;
      if b == 0 {
        EmptyList(mem, freelist, h.free);
        return;
      }
      EmptyList(mem, freelist, h.free);
      ghost var m, h0 := mem, h;
      assert LinkAt(mem, h.free, 0) && OneHand(h, b);
      var next := mem[b].next;
      var junk := DataPage(seq(PGSIZE, _ => 5));
      mem := mem[b := junk];
      freelist := next;
      h := h.(free := h.free[1..], ext := h.ext + {b});
      TakeStep(m, b, h0, pages, junk, mem, next, h);
    }

    // Push b on the free list.  Its panics are the precondition.
    method Kfree(b: int)
      requires 0 < b < |mem|
      modifies `mem, `freelist
      ensures mem == SetPage(old(mem), b, FreePage(old(freelist))) && freelist == b && unchanged(`h)
    {
      mem := mem[b := FreePage(freelist)];
      freelist := b;
    }

    // Give back a page that is in no table.
    method Release(b: int)
      requires Valid() && b in h.ext && 0 < b < |mem|
      modifies this
      ensures Valid() && SamePtes(old(mem), mem, h.roots) && OnlyPage(old(mem), mem, b)
      ensures h == old(h).(free := [b] + old(h).free, ext := old(h).ext - {b})
    {
      ghost var m, hd, h0 := mem, freelist, h;
      Kfree(b);
      h := h.(free := [b] + h.free, ext := h.ext - {b});
      GiveStep(m, hd, h0, pages, b, mem, h);
    }

    // walk's allocation of a missing table at entry i of page p.
    method NewTable(ghost s: Ref, p: int, i: int) returns (b: int)
      requires Valid() && s.r in h.roots && !s.Leaf? && p == TableOf(mem, s) && IsTable(mem, p) && 0 <= i < NPTE
               && i == IndexOf(s)
      requires !PteAt(mem, s).valid
      modifies this
      ensures Valid() && Grew(old(mem), old(h), mem, h) && OthersKeep(old(h), h, s.r)
      ensures b == 0 ==> unchanged(this) && h.free == []
      ensures b != 0 ==> PteAt(mem, s) == TablePte(b) && IsTable(mem, b)
      ensures b != 0 ==> var e := PteAt(mem, s); e.valid && e.ppn == b && !e.r && !e.w && !e.x && !e.u
      ensures b != 0 ==> OnePte(old(mem), mem, h.roots, s, TablePte(b)) && |h.free| == |old(h).free| - 1
    {
      ghost var m0, h0 := mem, h;
      b := Kalloc();
      if b == 0 {
        return;
      }
      ghost var m1, h1, hd := mem, h, freelist;
      mem := mem[b := ZeroTable()];
      FillStep(m1, hd, h1, pages, b, ZeroTable(), mem);
      ghost var m2 := mem;
      TablesApart(m0, h0, s, b, m2);
      mem := mem[p := TablePage(mem[p].ptes[i := TablePte(b)])];
      h := h.(owner := h.owner[b := s], ext := h.ext - {b});
      LinkStep(m2, hd, h1, pages, s, TablePte(b), b, mem, h);
      TableHeld(m0, h0.roots, h0.owner, s);
      assert OneHand(h0, p) && h.ext == h0.ext;
      GrewByTable(m0, h0, s, b, m2, mem, h);
      OneTable(m0, m2, mem, h.roots, s, TablePte(b));
    }

    // The page holding the last-level entry for page v, its tables allocated if asked; 0 if there is none.
    method Walk(r: int, v: int, alloc: bool) returns (p: int)
      requires Valid() && r in h.roots && 0 <= v < MAXVPN
      modifies this
      ensures Valid() && Grew(old(mem), old(h), mem, h) && OthersKeep(old(h), h, r)
      ensures !alloc ==> unchanged(this)
      ensures p != 0 ==> p == TableOf(mem, Leaf(r, v)) && IsTable(mem, p)
      ensures p == 0 ==> LeafPte(mem, r, v) == NO_PTE && (alloc ==> h.free == [])
      ensures alloc ==> (p == 0 <==> |old(h).free| < Need(old(mem), r, v))
      ensures alloc && p != 0 ==> |h.free| == |old(h).free| - Need(old(mem), r, v)
    {
      assert InHands(h, r);
      p := r;
      var level := 2;
      while level > 0
        invariant 0 <= level <= 2 && Valid() && Grew(old(mem), old(h), mem, h) && (!alloc ==> unchanged(this))
        invariant OthersKeep(old(h), h, r)
        invariant |h.free| == |old(h).free| - Need(old(mem), r, v) + Need(mem, r, v)
                  && (level == 0 ==> Need(mem, r, v) == 0)
        invariant p == TableOf(mem, RefAt(level, r, v)) && p != 0 && IsTable(mem, p)
      {
        ghost var s := RefAt(level, r, v);
        var i := if level == 2 then v / NPTE / NPTE else v / NPTE % NPTE;
        IndexIs(level, r, v);
        NeedThere(mem, level, r, v);
        PteIsEntry(mem, s);
        var e := mem[p].ptes[i];
        if e.valid {
          assert e.ppn in h.owner && OneHand(h, e.ppn) && InHands(h, e.ppn);
          p := e.ppn;
        } else {
          if !alloc {
            NoLeaf(mem, level, r, v);
            return 0;
          }
          ghost var m1, h1 := mem, h;
          p := NewTable(s, p, i);
          GrewTwice(old(mem), old(h), m1, h1, mem, h);
          if p == 0 {
            NoLeaf(mem, level, r, v);
            return;
          }
          NeedLess(m1, mem, h.roots, level, r, v, p);
        }
        level := level - 1;
      }
    }

    // Write the entry for page v into the table page p.
    method PutLeaf(r: int, v: int, p: int, e: Pte)
      requires Valid() && r in h.roots && 0 <= v < MAXVPN && !LeafPte(mem, r, v).valid && e.valid && IsLeaf(e)
      requires p == TableOf(mem, Leaf(r, v)) && IsTable(mem, p)
               && (v < TRAPFRAME ==> e.ppn in h.ext && IsData(mem, e.ppn))
      modifies this
      ensures Valid() && Outside(old(mem), old(h), mem, h, r, v, v + 1) && OthersKeep(old(h), h, r)
      ensures LeafPte(mem, r, v) == e && h.ext == (if v < TRAPFRAME then old(h).ext - {e.ppn} else old(h).ext)
      ensures OnlyPage(old(mem), mem, p) && p !in old(h).ext && h.free == old(h).free
    {
      ghost var m1, h1, hd := mem, h, freelist;
      ghost var s := Leaf(r, v);
      PteIsEntry(m1, s);
      TableHeld(m1, h1.roots, h1.owner, s);
      assert OneHand(h1, p);
      mem := mem[p := TablePage(mem[p].ptes[v % NPTE := e])];
      if v < TRAPFRAME {
        assert OneHand(h1, e.ppn);
        h := h.(owner := h.owner[e.ppn := s], ext := h.ext - {e.ppn});
        LinkStep(m1, hd, h1, pages, s, e, e.ppn, mem, h);
      } else {
        RemapStep(m1, hd, h1, pages, s, e, mem);
      }
      PutOutside(m1, hd, h1, pages, r, v, e, mem, h);
    }

    // One turn of mappages: page v of table r gets entry e.
    method MapPage(r: int, v: int, e: Pte) returns (ok: bool)
      requires Valid() && r in h.roots && 0 <= v < MAXVPN && !LeafPte(mem, r, v).valid && e.valid && IsLeaf(e)
      requires v < TRAPFRAME ==> e.ppn in h.ext && IsData(mem, e.ppn)
      modifies this
      ensures Valid() && Outside(old(mem), old(h), mem, h, r, v, v + 1) && OthersKeep(old(h), h, r)
      ensures ok ==> LeafPte(mem, r, v) == e && h.ext == (if v < TRAPFRAME then old(h).ext - {e.ppn} else old(h).ext)
      ensures ok ==> forall p :: 0 <= p < |mem| && (p in h.ext || p == e.ppn) && p in old(h).ext ==>
                                 mem[p] == old(mem)[p]
      ensures !ok ==> Grew(old(mem), old(h), mem, h) && h.free == []
      ensures ok <==> |old(h).free| >= Need(old(mem), r, v)
      ensures ok ==> |h.free| == |old(h).free| - Need(old(mem), r, v)
    {
      ghost var m0, h0, hd0 := mem, h, freelist;
      var p := Walk(r, v, true);
      GrewOutside(m0, hd0, h0, pages, mem, h, r, v);
      OutsideMore(m0, h0, mem, h, r, v, v, v, v + 1);
      if p == 0 {
        return false;
      }
      ghost var m1, h1 := mem, h;
      assert LeafPte(m1, r, v) == LeafPte(m0, r, v);
      PutLeaf(r, v, p, e);
      OutsideTwice(m0, h0, m1, h1, mem, h, r, v, v + 1);
      ok := true;
    }

    // One turn of uvmunmap.
    method UnmapPage(r: int, v: int, doFree: bool)
      requires Valid() && r in h.roots && 0 <= v < MAXVPN && (doFree <==> v < TRAPFRAME)
      modifies this
      ensures Valid() && Outside(old(mem), old(h), mem, h, r, v, v + 1) && LeafPte(mem, r, v) == NO_PTE
              && OthersKeep(old(h), h, r)
      ensures h.ext == old(h).ext && forall p :: p in h.ext && 0 <= p < |mem| ==> mem[p] == old(mem)[p]
    {
      ghost var m0, h0, hd := mem, h, freelist;
      ghost var s := Leaf(r, v);
      GrewOutside(m0, hd, h0, pages, m0, h0, r, v);
      OutsideMore(m0, h0, m0, h0, r, v, v, v, v + 1);
      var p := Walk(r, v, false);
      if p == 0 {
        return;
      }
      PteIsEntry(mem, s);
      TableHeld(mem, h.roots, h.owner, s);
      assert OneHand(h, p);
      var e := mem[p].ptes[v % NPTE];
      if !e.valid {
        assert PteAt(mem, s) == NO_PTE;
        return;
      }
      if doFree {
        UserPage(mem, freelist, h, pages, r, v);
        var b := e.ppn;
        NotOwnTable(mem, h.roots, h.owner, s);
        Kfree(b);
        ghost var m1 := mem;
        mem := mem[p := TablePage(mem[p].ptes[v % NPTE := NO_PTE])];
        h := h.(owner := h.owner - {b}, free := [b] + h.free);
        ReleaseStep(m0, hd, h0, pages, s, b, m1, mem, h);
        ReleaseOutside(m0, hd, h0, pages, r, v, b, mem, h);
      } else {
        mem := mem[p := TablePage(mem[p].ptes[v % NPTE := NO_PTE])];
        RemapStep(m0, hd, h0, pages, s, NO_PTE, mem);
        PutOutside(m0, hd, h0, pages, r, v, NO_PTE, mem, h);
      }
    }

    // Remove n mappings from page v on, with their pages if asked.
    method Uvmunmap(r: int, v: int, n: int, doFree: bool)
      requires Valid() && r in h.roots && 0 <= v && 0 <= n && v + n <= MAXVPN
      requires if doFree then v + n <= TRAPFRAME else v >= TRAPFRAME
      modifies this
      ensures Valid() && Outside(old(mem), old(h), mem, h, r, v, v + n) && OthersKeep(old(h), h, r)
      ensures forall a :: v <= a < v + n ==> LeafPte(mem, r, a) == NO_PTE
      ensures h.ext == old(h).ext && forall p :: p in h.ext && 0 <= p < |mem| ==> mem[p] == old(mem)[p]
    {
      ghost var m0, h0 := mem, h;
      var a := v;
      GrewOutside(m0, freelist, h0, pages, m0, h0, r, v);
      OutsideMore(m0, h0, m0, h0, r, v, v, v, v + n);
      while a < v + n
        invariant v <= a <= v + n && Valid() && Outside(m0, h0, mem, h, r, v, v + n)
        invariant Gone(mem, r, v, a) && OthersKeep(h0, h, r)
        invariant h.ext == h0.ext && forall p :: p in h.ext && 0 <= p < |mem| ==> mem[p] == m0[p]
      {
        ghost var m1, h1 := mem, h;
        UnmapPage(r, a, doFree);
        OutsideMore(m1, h1, mem, h, r, a, a + 1, v, v + n);
        OutsideTwice(m0, h0, m1, h1, mem, h, r, v, v + n);
        GoneMore(m1, h1, mem, h, r, v, a);
        a := a + 1;
      }
    }
  }

  lemma OneTable(m: Mem, m2: Mem, m': Mem, roots: set<int>, s: Ref, e: Pte)
    requires SamePtes(m, m2, roots) && OnePte(m2, m', roots, s, e) && s.r in roots
    ensures OnePte(m, m', roots, s, e) && PteAt(m', s) == e
  {
    forall q: Ref | q.r in roots ensures PteAt(m', q) == if q == s then e else PteAt(m, q) {
      var x := PteAt(m2, q);
    }
  }

  // How many tables a walk to page v has to add.
  function Need(m: Mem, r: int, v: int): nat {
    if !MidPte(m, r, v / NPTE / NPTE).valid then 2 else if !LowPte(m, r, v / NPTE).valid then 1 else 0
  }

  lemma NeedLess(m: Mem, m': Mem, roots: set<int>, level: int, r: int, v: int, b: int)
    requires (level == 2 || level == 1) && r in roots && OnePte(m, m', roots, RefAt(level, r, v), TablePte(b))
             && !PteAt(m, RefAt(level, r, v)).valid
    requires level == 1 ==> MidPte(m, r, v / NPTE / NPTE).valid
    ensures Need(m', r, v) == Need(m, r, v) - 1
  {
    var x, y := PteAt(m', Mid(r, v / NPTE / NPTE)), PteAt(m', Low(r, v / NPTE));
    assert PteAt(m, Mid(r, v / NPTE / NPTE)) == MidPte(m, r, v / NPTE / NPTE)
           && PteAt(m, Low(r, v / NPTE)) == LowPte(m, r, v / NPTE);
  }

  lemma NeedThere(m: Mem, level: int, r: int, v: int)
    requires (level == 2 || level == 1) && 0 <= v < MAXVPN
    ensures !PteAt(m, RefAt(level, r, v)).valid ==> Need(m, r, v) > 0
    ensures level == 1 && TableOf(m, RefAt(1, r, v)) >= 0 ==> MidPte(m, r, v / NPTE / NPTE).valid
    ensures level == 1 && PteAt(m, RefAt(1, r, v)).valid ==> Need(m, r, v) == 0
  {
  }

  ghost predicate Gone(m: Mem, r: int, lo: int, hi: int) {
    forall a :: lo <= a < hi ==> LeafPte(m, r, a) == NO_PTE
  }

  lemma GoneMore(m: Mem, h: Hands, m': Mem, h': Hands, r: int, lo: int, a: int)
    requires Gone(m, r, lo, a) && Outside(m, h, m', h', r, a, a + 1) && LeafPte(m', r, a) == NO_PTE && r in h.roots
    ensures Gone(m', r, lo, a + 1)
  {
    forall v | lo <= v < a + 1 ensures LeafPte(m', r, v) == NO_PTE {
      if v < a {
        assert LeafPte(m, r, v) == NO_PTE && !Within(r, v, r, a, a + 1);
      }
    }
  }

  lemma IndexIs(level: int, r: int, v: int)
    requires 0 <= v < MAXVPN && (level == 2 || level == 1)
    ensures IndexOf(RefAt(level, r, v)) == (if level == 2 then v / NPTE / NPTE else v / NPTE % NPTE)
    ensures 0 <= IndexOf(RefAt(level, r, v)) < NPTE && Up(RefAt(level - 1, r, v)) == RefAt(level, r, v)
  {
  }

  // Below a missing table there is no leaf.
  lemma NoLeaf(m: Mem, level: int, r: int, v: int)
    requires (level == 2 || level == 1) && !PteAt(m, RefAt(level, r, v)).valid
    ensures LeafPte(m, r, v) == NO_PTE
  {
  }

  // The page taken is not the table that is to point to it.
  lemma TablesApart(m: Mem, h: Hands, s: Ref, b: int, m2: Mem)
    requires Linked(m, h.roots, h.owner) && s.r in h.roots && TableOf(m, s) >= 0 && b !in h.roots && b !in h.owner
    requires SamePtes(m, m2, h.roots) && OnlyPage(m, m2, b)
    ensures TableOf(m, s) != b && TableOf(m2, s) == TableOf(m, s) && PteAt(m2, s) == PteAt(m, s)
  {
    TableHeld(m, h.roots, h.owner, s);
    assert PteAt(m2, Up(s)) == PteAt(m, Up(s));
  }

  lemma GrewByTable(m: Mem, h: Hands, s: Ref, b: int, m2: Mem, m': Mem, h': Hands)
    requires !s.Leaf? && SamePtes(m, m2, h.roots) && OnlyPage(m, m2, b) && OnePte(m2, m', h.roots, s, TablePte(b))
    requires OnlyPage(m2, m', TableOf(m, s)) && b !in h.ext && b !in h.owner && b !in h.roots
    requires h'.roots == h.roots && h'.ext == h.ext && h'.owner == h.owner[b := s]
    requires TableOf(m, s) !in h.ext && (TableOf(m, s) in h.owner ==> !h.owner[TableOf(m, s)].Leaf?)
    ensures Grew(m, h, m', h')
  {
    forall r, v | r in h.roots ensures LeafPte(m', r, v) == LeafPte(m, r, v) {
      assert PteAt(m', Leaf(r, v)) == PteAt(m2, Leaf(r, v)) == PteAt(m, Leaf(r, v));
    }
  }

  lemma EmptyList(m: Mem, head: int, free: seq<int>)
    requires Chain(m, head, free)
    ensures head == 0 <==> free == []
  {
    if free != [] {
      assert LinkAt(m, free, 0);
    }
  }
}
