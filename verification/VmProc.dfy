/** fork's copy of user memory, sbrk, and the life of a process's page table. */
module VmProc {
  import opened VmTable
  import opened VmSteps
  import opened Vm
  import opened VmUser

  // ----- uvmcopy -----

  // Page v of q is a copy of page v of r, on a page of its own.
  ghost predicate CopyAt(m: Mem, r: int, q: int, v: int) {
    var e, f := LeafPte(m, r, v), LeafPte(m, q, v);
    if !e.valid then !f.valid
    else f == e.(ppn := f.ppn) && f.ppn != e.ppn && PageAt(m, f.ppn) == PageAt(m, e.ppn)
  }

  ghost predicate Copied(m: Mem, r: int, q: int, hi: int) {
    forall v {:trigger LeafPte(m, q, v)} :: 0 <= v < hi ==> CopyAt(m, r, q, v)
  }

  // Copies stay copies while only page v of q changes.
  lemma CopiedMore(m: Mem, h: Hands, m': Mem, h': Hands, r: int, q: int, v: int)
    requires Copied(m, r, q, v) && Outside(m, h, m', h', q, v, v + 1) && r in h.roots && q in h.roots && r != q
             && 0 <= v < TRAPFRAME
    requires CopyAt(m', r, q, v)
    ensures Copied(m', r, q, v + 1)
  {
    forall a | 0 <= a < v + 1 ensures CopyAt(m', r, q, a) {
      if a < v {
        var e, f := LeafPte(m', r, a), LeafPte(m', q, a);
        assert SameMapping(m, m', r, a) && SameMapping(m, m', q, a);
        assert CopyAt(m, r, q, a);
      }
    }
  }

  // A complete copy looks the same.
  lemma CopySeen(m: Mem, r: int, q: int, sz: int, va: int)
    requires Copied(m, r, q, Pages(sz)) && SizeOk(sz)
    ensures Vis(m, q, sz, va) == Vis(m, r, sz, va)
  {
    var v := va / PGSIZE;
    if 0 <= va && v < Pages(sz) {
      assert CopyAt(m, r, q, v);
    }
  }

  // Copy a process's memory into an empty table; on failure the table is empty again.
  method Uvmcopy(k: Kernel, r: int, q: int, sz: int) returns (ok: bool)
    requires k.Valid() && r in k.h.roots && q in k.h.roots && r != q && SizeOk(sz) && UserOk(k.mem, q, 0)
    modifies k
    ensures k.Valid() && k.h.ext == old(k.h).ext && k.h.roots == old(k.h).roots
    ensures Outside(old(k.mem), old(k.h), k.mem, k.h, q, 0, if ok then Pages(sz) else 0) && OthersKeep(old(k.h), k.h, q)
    ensures ok ==> Copied(k.mem, r, q, Pages(sz)) && UserOk(k.mem, q, sz)
                   && forall va :: Vis(k.mem, q, sz, va) == Vis(k.mem, r, sz, va)
    ensures !ok ==> UserOk(k.mem, q, 0) && |old(k.h).free| < PerPage(Pages(sz))
  {
    ghost var m0, h0, hd0 := k.mem, k.h, k.freelist;
    PagesFit(sz);
    var hi := Pages(sz);
    assert Pages(0) == 0;
    GrewOutside(m0, hd0, h0, k.pages, m0, h0, q, 0);
    OutsideMore(m0, h0, m0, h0, q, 0, 0, 0, hi);
    var i := 0;
    while i < hi
      invariant 0 <= i <= hi && k.Valid() && k.h.ext == h0.ext && Outside(m0, h0, k.mem, k.h, q, 0, hi)
      invariant Copied(k.mem, r, q, i) && Unmapped(k.mem, q, i, hi) && OthersKeep(h0, k.h, q)
      invariant |h0.free| <= |k.h.free| + PerPage(i)
    {
      ok := CopyPage(k, r, q, i, hi, m0, h0);
      if !ok {
        Forget(k, q, i, hi, hd0, m0, h0);
        return;
      }
      i := i + 1;
    }
    Grown(m0, h0, k.mem, k.h, q, 0, sz);
    forall va ensures Vis(k.mem, q, sz, va) == Vis(k.mem, r, sz, va) {
      CopySeen(k.mem, r, q, sz, va);
    }
    ok := true;
  }

  // One turn of uvmcopy's loop.
  method CopyPage(k: Kernel, r: int, q: int, i: int, hi: int, ghost m0: Mem, ghost h0: Hands) returns (ok: bool)
    requires k.Valid() && r in h0.roots && q in h0.roots && r != q && 0 <= i < hi <= TRAPFRAME && k.h.ext == h0.ext
    requires Outside(m0, h0, k.mem, k.h, q, 0, hi) && Copied(k.mem, r, q, i) && Unmapped(k.mem, q, i, hi)
             && OthersKeep(h0, k.h, q)
    modifies k
    ensures k.Valid() && k.h.ext == h0.ext && Outside(m0, h0, k.mem, k.h, q, 0, hi) && OthersKeep(h0, k.h, q)
    ensures ok ==> Copied(k.mem, r, q, i + 1) && Unmapped(k.mem, q, i + 1, hi)
    ensures !ok ==> Unmapped(k.mem, q, i, hi) && |old(k.h).free| < 3
    ensures ok ==> |old(k.h).free| <= |k.h.free| + 3
  {
    ghost var m1, h1 := k.mem, k.h;
    GrewOutside(m1, k.freelist, h1, k.pages, m1, h1, q, i);
    OutsideMore(m1, h1, m1, h1, q, i, i, i, i + 1);
    ok := true;
    var t := k.Walk(r, i, false);
    PteIsEntry(k.mem, Leaf(r, i));
    if t != 0 && k.mem[t].ptes[i % NPTE].valid {
      var e := k.mem[t].ptes[i % NPTE];
      UserPage(m1, k.freelist, h1, k.pages, r, i);
      assert IsLeaf(PteAt(k.mem, Leaf(r, i)));
      var b := MapNew(k, q, i, e, k.mem[e.ppn]);
      OutsideMore(m1, h1, k.mem, k.h, q, i, i + 1, 0, hi);
      OutsideTwice(m0, h0, m1, h1, k.mem, k.h, q, 0, hi);
      if b == 0 {
        StillUnmapped(m1, h1, k.mem, k.h, q, i, hi);
        return false;
      }
      assert LeafPte(k.mem, r, i) == LeafPte(m1, r, i) && SameMapping(m1, k.mem, r, i);
      OtherPage(k.mem, k.freelist, k.h, k.pages, r, i, q, i);
      assert CopyAt(k.mem, r, q, i);
    }
    CopiedMore(m1, h1, k.mem, k.h, r, q, i);
    StillUnmapped(m1, h1, k.mem, k.h, q, i, hi);
  }

  lemma StillUnmapped(m: Mem, h: Hands, m': Mem, h': Hands, q: int, i: int, hi: int)
    requires Unmapped(m, q, i, hi) && Outside(m, h, m', h', q, i, i + 1) && q in h.roots
    ensures Unmapped(m', q, i + 1, hi) && (!LeafPte(m', q, i).valid ==> Unmapped(m', q, i, hi))
  {
    forall v | i + 1 <= v < hi ensures !LeafPte(m', q, v).valid {
      assert LeafPte(m', q, v) == LeafPte(m, q, v);
    }
  }

  // uvmcopy's way out: what was copied is freed.
  method Forget(k: Kernel, q: int, i: int, hi: int, ghost hd0: int, ghost m0: Mem, ghost h0: Hands)
    requires k.Valid() && q in h0.roots && 0 <= i < hi <= TRAPFRAME && k.h.ext == h0.ext && Inv(m0, hd0, h0, k.pages)
    requires Outside(m0, h0, k.mem, k.h, q, 0, hi) && Unmapped(k.mem, q, i, hi) && UserOk(m0, q, 0)
             && OthersKeep(h0, k.h, q)
    modifies k
    ensures k.Valid() && k.h.ext == h0.ext && Outside(m0, h0, k.mem, k.h, q, 0, 0) && UserOk(k.mem, q, 0)
            && OthersKeep(h0, k.h, q)
  {
    ghost var m1, h1 := k.mem, k.h;
    k.Uvmunmap(q, 0, i, true);
    OutsideMore(m1, h1, k.mem, k.h, q, 0, i, 0, hi);
    OutsideTwice(m0, h0, m1, h1, k.mem, k.h, q, 0, hi);
    forall v | 0 <= v < hi ensures LeafPte(k.mem, q, v) == NO_PTE {
      if v >= i {
        assert LeafPte(k.mem, q, v) == LeafPte(m1, q, v) && PteAt(m1, Leaf(q, v)) == NO_PTE;
      }
    }
    assert Pages(0) == 0 && Unmapped(m0, q, 0, hi);
    RolledBack(m0, hd0, h0, k.pages, k.mem, k.h, q, 0, hi);
    forall v ensures LeafPte(k.mem, q, v) == LeafPte(m0, q, v) {
    }
  }

  // ----- sbrk -----

  // growproc and sys_sbrk: eager growth, lazy growth and shrinking by n bytes.  The old size, or -1.
  method Sbrk(k: Kernel, r: int, sz: int, n: int, eager: bool) returns (addr: int, sz': int)
    requires k.Valid() && r in k.h.roots && SizeOk(sz) && UserOk(k.mem, r, sz) && -0x8000_0000 <= n < 0x8000_0000
    modifies k
    ensures k.Valid() && k.h.ext == old(k.h).ext && k.h.roots == old(k.h).roots && SizeOk(sz') && UserOk(k.mem, r, sz')
    ensures addr == -1 ==> sz' == sz && SameVis(old(k.mem), k.mem, k.h.roots)
    ensures addr == -1 ==> sz + n > TRAPFRAME * PGSIZE
                           || (eager && |old(k.h).free| < PerPage(Pages(sz + n) - Pages(sz)))
    ensures forall va :: Pages(sz) * PGSIZE <= va < Pages(sz') * PGSIZE ==> Vis(k.mem, r, sz', va) == Byte(0)
    ensures forall v :: Pages(sz) <= v < Pages(sz') ==>
              var e := LeafPte(k.mem, r, v);
              if eager then e.valid && e.u && e.r && e.w && !e.x else !e.valid
    ensures UserOnly(old(k.mem), k.mem, k.h.roots, r)
    ensures addr != -1 ==> addr == sz && sz' == if sz + n < 0 then sz else sz + n
    ensures forall va :: Vis(k.mem, r, sz', va) == Vis(old(k.mem), r, sz', va)
    ensures forall q, z, va :: q in k.h.roots && q != r && SizeOk(z) ==>
                               Vis(k.mem, q, z, va) == Vis(old(k.mem), q, z, va)
  {
    ghost var m0, h0 := k.mem, k.h;
    SameVisRefl(m0, h0.roots);
    forall z, va | SizeOk(z) && Pages(sz) * PGSIZE <= va < Pages(z) * PGSIZE ensures Vis(m0, r, z, va) == Byte(0) {
      NewIsZero(m0, r, sz, z, va);
    }
    addr, sz' := sz, sz;
    if eager || n < 0 {
      if n > 0 {
        if sz + n > TRAPFRAME * PGSIZE {
          return -1, sz;
        }
        var got := Uvmalloc(k, r, sz, sz + n, true, false);
        PagesFit(sz + n);
        OutsideUser(m0, h0, k.mem, k.h, r, if got == 0 then 0 else Pages(sz), if got == 0 then 0 else Pages(sz + n));
        if got == 0 {
          return -1, sz;
        }
        sz' := got;
      } else if n < 0 {
        // sz + n is unsigned: below zero it is a huge size, and nothing happens
        if sz + n < 0 {
          return;
        }
        sz' := Uvmdealloc(k, r, sz, sz + n);
        ShrinkVis(m0, h0, k.mem, k.h, r, sz, sz');
        PagesFit(sz);
        OutsideUser(m0, h0, k.mem, k.h, r, Pages(sz'), Pages(sz));
      }
    } else {
      if sz + n > TRAPFRAME * PGSIZE {
        return -1, sz;
      }
      sz' := sz + n;
      PagesMonotone(sz, sz');
    }
  }

  // Above the last page of the old size nothing is mapped, so memory gained there reads as zero.
  lemma NewIsZero(m: Mem, r: int, sz: int, z: int, va: int)
    requires UserOk(m, r, sz) && SizeOk(sz) && SizeOk(z) && Pages(sz) * PGSIZE <= va < Pages(z) * PGSIZE
    ensures Vis(m, r, z, va) == Byte(0)
  {
    PagesFit(z);
    assert Pages(sz) <= va / PGSIZE < Pages(z);
  }

  lemma ShrinkVis(m: Mem, h: Hands, m': Mem, h': Hands, r: int, sz: int, sz': int)
    requires Outside(m, h, m', h', r, Pages(sz'), Pages(sz)) && r in h.roots && SizeOk(sz')
    ensures forall va :: Vis(m', r, sz', va) == Vis(m, r, sz', va)
    ensures forall q, z, va :: q in h.roots && q != r && SizeOk(z) ==> Vis(m', q, z, va) == Vis(m, q, z, va)
  {
    forall va ensures Vis(m', r, sz', va) == Vis(m, r, sz', va) {
      if va / PGSIZE < Pages(sz') {
        OutsideVis(m, h, m', h', r, Pages(sz'), Pages(sz), r, sz', va);
      }
    }
    forall q, z, va | q in h.roots && q != r && SizeOk(z) ensures Vis(m', q, z, va) == Vis(m, q, z, va) {
      OutsideVis(m, h, m', h', r, Pages(sz'), Pages(sz), q, z, va);
    }
  }

  // ----- Taking a table apart -----

  // A table page of r: the root, or the one an entry leads to.
  datatype Node = Root(r: int) | At(s: Ref)

  function Child(n: Node, i: int): Ref {
    match n
    case Root(r) => Mid(r, i)
    case At(s) => if s.Mid? then Low(s.r, s.i * NPTE + i) else Leaf(s.r, s.i * NPTE + i)
  }

  function NodeRoot(n: Node): int {
    if n.Root? then n.r else n.s.r
  }

  function NodePage(m: Mem, n: Node): int {
    if n.Root? then n.r else Target(PteAt(m, n.s))
  }

  // x stands in the table of s, or in one below it; or is s.
  predicate Under(s: Ref, x: Ref) {
    x == s || (!x.Mid? && Up(x) == s) || (x.Leaf? && Up(Up(x)) == s)
  }

  predicate Beneath(n: Node, x: Ref) {
    if n.Root? then x.r == n.r else Under(n.s, x) && x != n.s
  }

  // Which child of n leads to x.
  function Branch(n: Node, x: Ref): int {
    match n
    case Root(r) => if x.Mid? then x.i else if x.Low? then x.i / NPTE else x.i / NPTE / NPTE
    case At(s) => if Up(x) == s then x.i % NPTE else x.i / NPTE % NPTE
  }

  lemma BranchIs(n: Node, x: Ref, i: int)
    requires (n.At? ==> !n.s.Leaf?) && 0 <= i < NPTE
    ensures Under(Child(n, i), x) <==> Beneath(n, x) && Branch(n, x) == i
  {
  }

  // Entries in branches before i are gone; all others are as they were.
  ghost predicate Pruning(m: Mem, m': Mem, roots: set<int>, n: Node, i: int) {
    forall x: Ref {:trigger PteAt(m', x)} :: x.r in roots ==>
      PteAt(m', x) == if Beneath(n, x) && Branch(n, x) < i then NO_PTE else PteAt(m, x)
  }

  ghost predicate Pruned(m: Mem, m': Mem, roots: set<int>, s: Ref) {
    forall x: Ref {:trigger PteAt(m', x)} ::
      x.r in roots ==> PteAt(m', x) == if Under(s, x) then NO_PTE else PteAt(m, x)
  }

  // No page is mapped below n.
  ghost predicate NoLeaves(m: Mem, n: Node) {
    forall v {:trigger LeafPte(m, NodeRoot(n), v)} :: Beneath(n, Leaf(NodeRoot(n), v)) ==>
                                                      !LeafPte(m, NodeRoot(n), v).valid
  }

  lemma ChildEntry(m: Mem, n: Node, i: int)
    requires 0 <= i < NPTE && (n.At? ==> !n.s.Leaf?)
    ensures PteAt(m, Child(n, i)) == Entry(m, NodePage(m, n), i) && Child(n, i).r == NodeRoot(n)
            && IndexOf(Child(n, i)) == i
    ensures TableOf(m, Child(n, i)) == NodePage(m, n) && Beneath(n, Child(n, i)) && (n.Root? ==> !Child(n, i).Leaf?)
  {
    if n.At? {
      assert (n.s.i * NPTE + i) / NPTE == n.s.i && (n.s.i * NPTE + i) % NPTE == i;
    }
    PteIsEntry(m, Child(n, i));
  }

  // An entry that leads nowhere has nothing below it.
  lemma NothingUnder(m: Mem, roots: set<int>, owner: Owner, s: Ref, x: Ref)
    requires Kinds(m, roots, owner) && s.r in roots && !PteAt(m, s).valid && Under(s, x)
    ensures PteAt(m, x) == NO_PTE
  {
    assert PteAt(m, s) == NO_PTE;
  }

  lemma PruneSkip(m: Mem, m': Mem, roots: set<int>, owner: Owner, n: Node, i: int)
    requires Pruning(m, m', roots, n, i) && Kinds(m', roots, owner) && NodeRoot(n) in roots && 0 <= i < NPTE
             && (n.At? ==> !n.s.Leaf?)
    requires !PteAt(m', Child(n, i)).valid
    ensures Pruning(m, m', roots, n, i + 1)
  {
    forall x: Ref | x.r in roots
      ensures PteAt(m', x) == if Beneath(n, x) && Branch(n, x) < i + 1 then NO_PTE else PteAt(m, x)
    {
      BranchIs(n, x, i);
      ChildEntry(m', n, i);
      if Under(Child(n, i), x) {
        NothingUnder(m', roots, owner, Child(n, i), x);
      }
    }
  }

  lemma PruneChild(m: Mem, m1: Mem, m2: Mem, roots: set<int>, n: Node, i: int)
    requires Pruning(m, m1, roots, n, i) && Pruned(m1, m2, roots, Child(n, i)) && 0 <= i < NPTE
             && (n.At? ==> !n.s.Leaf?)
    ensures Pruning(m, m2, roots, n, i + 1)
  {
    forall x: Ref | x.r in roots
      ensures PteAt(m2, x) == if Beneath(n, x) && Branch(n, x) < i + 1 then NO_PTE else PteAt(m, x)
    {
      BranchIs(n, x, i);
      var e := PteAt(m1, x);
    }
  }

  // Nothing is left below n, and n itself is where it was.
  lemma PruneDone(m: Mem, m': Mem, roots: set<int>, s: Ref)
    requires Pruning(m, m', roots, At(s), NPTE) && s.r in roots && !s.Leaf?
             && (PteAt(m, s).valid ==> IsTable(m', PteAt(m, s).ppn))
    ensures PteAt(m', s) == PteAt(m, s) && TableOf(m', s) == TableOf(m, s)
    ensures PteAt(m, s).valid ==> forall j :: Entry(m', PteAt(m, s).ppn, j) == NO_PTE
  {
    assert PteAt(m', s) == PteAt(m, s) && PteAt(m', Up(s)) == PteAt(m, Up(s));
    if PteAt(m, s).valid {
      forall j ensures Entry(m', PteAt(m, s).ppn, j) == NO_PTE {
        if 0 <= j < NPTE {
          ChildEntry(m', At(s), j);
          BranchIs(At(s), Child(At(s), j), j);
          assert PteAt(m', Child(At(s), j)) == NO_PTE;
        }
      }
    }
  }

  // Freeing table pages touches no mapping that is left and no user page.
  lemma FreedOutside(m: Mem, head: int, h: Hands, pages: set<int>, m': Mem, h': Hands, s: Ref, b: int)
    requires Inv(m, head, h, pages) && s.r in h.roots && !s.Leaf? && b in h.owner && h.owner[b] == s
             && OnePte(m, m', h.roots, s, NO_PTE)
    requires |m'| == |m| && TableOf(m, s) >= 0
    requires forall p :: 0 <= p < |m| && p != b && p != TableOf(m, s) ==> m'[p] == m[p]
    requires h'.roots == h.roots
    ensures Outside(m, h, m', h', s.r, 0, 0)
  {
    TableHeld(m, h.roots, h.owner, s);
    forall q, v | q in h.roots ensures SameMapping(m, m', q, v) {
      assert PteAt(m', Leaf(q, v)) == PteAt(m, Leaf(q, v));
      if LeafPte(m, q, v).valid && v < TRAPFRAME {
        UserPage(m, head, h, pages, q, v);
      }
    }
  }

  lemma PrunedBy(m: Mem, m1: Mem, m2: Mem, roots: set<int>, s: Ref)
    requires Pruning(m, m1, roots, At(s), NPTE) && OnePte(m1, m2, roots, s, NO_PTE) && s.r in roots && !s.Leaf?
    requires forall x: Ref :: x.r in roots && Beneath(At(s), x) && Branch(At(s), x) >= NPTE ==> PteAt(m, x) == NO_PTE
    ensures Pruned(m, m2, roots, s)
  {
    forall x: Ref | x.r in roots ensures PteAt(m2, x) == if Under(s, x) then NO_PTE else PteAt(m, x) {
      var e := PteAt(m1, x);
    }
  }

  // The state freewalk leaves: the freed table's entry still stands in its parent, and only that is wrong.
  ghost predicate Dangling(k: Kernel, m0: Mem, h0: Hands, s: Ref)
    reads k
  {
    var t := TableOf(m0, s);
    var m := PutPte(k.mem, t, IndexOf(s), NO_PTE);
    && Inv(m, k.freelist, k.h, k.pages) && IsTable(k.mem, t) && Pruned(m0, m, h0.roots, s)
    && k.h.roots == h0.roots && k.h.ext == h0.ext && Outside(m0, h0, m, k.h, s.r, 0, 0) && OthersKeep(h0, k.h, s.r)
  }

  // freewalk on the table page p that entry s leads to.
  method Freewalk(k: Kernel, p: int, ghost s: Ref)
    requires k.Valid() && s.r in k.h.roots && !s.Leaf? && 0 <= IndexOf(s) < NPTE && PteAt(k.mem, s).valid
             && PteAt(k.mem, s).ppn == p
    requires NoLeaves(k.mem, At(s))
    modifies k
    ensures Dangling(k, old(k.mem), old(k.h), s)
    decreases if s.Mid? then 3 else 1
  {
    ghost var m0, h0 := k.mem, k.h;
    ClearEntries(k, p, At(s));
    ghost var m1, h1, hd1 := k.mem, k.h, k.freelist;
    assert PteAt(m1, s) == PteAt(m0, s);
    assert p in h1.owner && h1.owner[p] == s && InHands(h1, p);
    PruneDone(m0, m1, h0.roots, s);
    TableHeld(m1, h1.roots, h1.owner, s);
    NotOwnTable(m1, h1.roots, h1.owner, s);
    k.Kfree(p);
    k.h := k.h.(owner := k.h.owner - {p}, free := [p] + k.h.free);
    ghost var m2 := PutPte(k.mem, TableOf(m1, s), IndexOf(s), NO_PTE);
    ReleaseStep(m1, hd1, h1, k.pages, s, p, k.mem, m2, k.h);
    FreedOutside(m1, hd1, h1, k.pages, m2, k.h, s, p);
    OutsideTwice(m0, h0, m1, h1, m2, k.h, s.r, 0, 0);
    PrunedBy(m0, m1, m2, h0.roots, s);
  }

  // freewalk's loop over the 512 entries of the table page p of n.
  method ClearEntries(k: Kernel, p: int, ghost n: Node)
    requires k.Valid() && NodeRoot(n) in k.h.roots && (n.At? ==> !n.s.Leaf? && PteAt(k.mem, n.s).valid)
             && p == NodePage(k.mem, n)
    requires NoLeaves(k.mem, n)
    modifies k
    ensures k.Valid() && k.h.roots == old(k.h).roots && k.h.ext == old(k.h).ext
            && Pruning(old(k.mem), k.mem, k.h.roots, n, NPTE)
    ensures Outside(old(k.mem), old(k.h), k.mem, k.h, NodeRoot(n), 0, 0) && OthersKeep(old(k.h), k.h, NodeRoot(n))
    decreases if n.Root? then 4 else if n.s.Mid? then 2 else 0
  {
    ghost var m0, h0, r := k.mem, k.h, NodeRoot(n);
    GrewOutside(m0, k.freelist, h0, k.pages, m0, h0, r, 0);
    var i := 0;
    while i < NPTE
      invariant 0 <= i <= NPTE && k.Valid() && k.h.roots == h0.roots && k.h.ext == h0.ext
                && Pruning(m0, k.mem, h0.roots, n, i)
      invariant Outside(m0, h0, k.mem, k.h, r, 0, 0) && OthersKeep(h0, k.h, r)
    {
      ghost var m1, h1, s := k.mem, k.h, Child(n, i);
      SameNode(m0, m1, h0.roots, n, i);
      NodeIsTable(m1, h1.roots, h1.owner, n);
      ChildEntry(m1, n, i);
      LeavesBelow(m0, m1, h0.roots, n, i, s);
      var e := k.mem[p].ptes[i];
      if e.valid && !IsLeaf(e) {
        Freewalk(k, e.ppn, s);
        k.mem := k.mem[p := TablePage(k.mem[p].ptes[i := NO_PTE])];
        PruneChild(m0, m1, k.mem, h0.roots, n, i);
        OutsideTwice(m0, h0, m1, h1, k.mem, k.h, r, 0, 0);
      } else {
        // a leaf here would be freewalk's panic
        assert !e.valid;
        PruneSkip(m0, m1, h0.roots, h1.owner, n, i);
      }
      i := i + 1;
    }
  }

  // The table page of n stays while what is below it goes.
  lemma SameNode(m: Mem, m': Mem, roots: set<int>, n: Node, i: int)
    requires Pruning(m, m', roots, n, i) && NodeRoot(n) in roots
    ensures NodePage(m', n) == NodePage(m, n) && (n.At? ==> PteAt(m', n.s) == PteAt(m, n.s))
  {
    if n.At? {
      var e := PteAt(m', n.s);
    }
  }

  lemma NodeIsTable(m: Mem, roots: set<int>, owner: Owner, n: Node)
    requires Linked(m, roots, owner) && Kinds(m, roots, owner) && NodeRoot(n) in roots
             && (n.At? ==> !n.s.Leaf? && PteAt(m, n.s).valid)
    ensures IsTable(m, NodePage(m, n))
  {
  }

  lemma LeavesBelow(m: Mem, m': Mem, roots: set<int>, n: Node, i: int, s: Ref)
    requires Pruning(m, m', roots, n, i) && NodeRoot(n) in roots && NoLeaves(m, n) && (n.At? ==> !n.s.Leaf?)
             && 0 <= i < NPTE && s == Child(n, i)
    ensures if s.Leaf? then !PteAt(m', s).valid else NoLeaves(m', At(s))
  {
    ChildEntry(m, n, i);
    forall v | Under(s, Leaf(s.r, v)) ensures !LeafPte(m', s.r, v).valid {
      BranchIs(n, Leaf(s.r, v), i);
      assert PteAt(m', Leaf(s.r, v)) == PteAt(m, Leaf(s.r, v)) || PteAt(m', Leaf(s.r, v)) == NO_PTE;
      assert LeafPte(m, NodeRoot(n), v) == PteAt(m, Leaf(s.r, v));
    }
  }

  // ----- A table's beginning and end -----

  // Nothing but user pages below sz is mapped.
  ghost predicate OnlyUser(m: Mem, r: int, sz: int) {
    forall v {:trigger LeafPte(m, r, v)} :: LeafPte(m, r, v).valid ==> 0 <= v < Pages(sz)
  }

  // Table r is gone: no page is held by it, and other processes see what they saw and hold what they held.
  ghost predicate Freed(m: Mem, h: Hands, m': Mem, h': Hands, r: int) {
    && h'.roots == h.roots - {r} && h'.ext == h.ext && OthersKeep(h, h', r) && SameVis(m, m', h'.roots)
      && SameLeaves(m, m', h'.roots)
    && (forall p :: p in h'.owner ==> h'.owner[p].r != r)
  }

  // Every page the table used is free again, and no other page is.
  ghost predicate AllBack(h: Hands, h': Hands, r: int) {
    forall p :: p in h'.free <==> p in h.free || p == r || (p in h.owner && h.owner[p].r == r)
  }

  lemma PagesBack(m: Mem, h: Hands, m': Mem, h': Hands, r: int, pages: set<int>)
    requires Freed(m, h, m', h', r) && Covered(h, pages) && Covered(h', pages) && r in h.roots
    ensures AllBack(h, h', r)
  {
    forall p ensures p in h'.free <==> p in h.free || p == r || (p in h.owner && h.owner[p].r == r) {
      assert OneHand(h, p) && OneHand(h', p);
      assert InHands(h, p) <==> InHands(h', p);
    }
  }

  lemma SameLeavesTwice(m: Mem, m1: Mem, m2: Mem, roots: set<int>)
    requires SameLeaves(m, m1, roots) && SameLeaves(m1, m2, roots)
    ensures SameLeaves(m, m2, roots)
  {
    forall q, v | q in roots ensures LeafPte(m2, q, v) == LeafPte(m, q, v) {
      assert LeafPte(m1, q, v) == LeafPte(m, q, v);
    }
  }

  lemma OthersSee(m: Mem, h: Hands, m': Mem, h': Hands, r: int, lo: int, hi: int, others: set<int>)
    requires Outside(m, h, m', h', r, lo, hi) && others <= h.roots && r !in others
    ensures SameVis(m, m', others) && SameLeaves(m, m', others)
  {
    forall q, v | q in others ensures LeafPte(m', q, v) == LeafPte(m, q, v) {
      assert !Within(q, v, r, lo, hi);
    }
    forall q, sz, va | q in others && SizeOk(sz) ensures Vis(m', q, sz, va) == Vis(m, q, sz, va) {
      OutsideVis(m, h, m', h', r, lo, hi, q, sz, va);
    }
  }

  // A table without leaves is empty once its entries are cleared.
  lemma RootCleared(m: Mem, m': Mem, roots: set<int>, r: int, s: Ref)
    requires Pruning(m, m', roots, Root(r), NPTE) && r in roots && IsTable(m, r) && s.r == r
    ensures PteAt(m', s) == NO_PTE
  {
    assert Branch(Root(r), s) >= NPTE ==> PteAt(m, s) == NO_PTE;
  }

  // freewalk on the root.
  method FreeTable(k: Kernel, r: int)
    requires k.Valid() && r in k.h.roots && NoLeaves(k.mem, Root(r))
    modifies k
    ensures k.Valid() && Freed(old(k.mem), old(k.h), k.mem, k.h, r)
  {
    ghost var m0, h0 := k.mem, k.h;
    ClearEntries(k, r, Root(r));
    ghost var m1, h1, others := k.mem, k.h, k.h.roots - {r};
    OthersSee(m0, h0, m1, h1, r, 0, 0, others);
    forall s: Ref | s.r == r ensures PteAt(m1, s) == NO_PTE {
      RootCleared(m0, m1, h0.roots, r, s);
    }
    k.h := k.h.(roots := others, ext := k.h.ext + {r});
    DropRootStep(m1, k.freelist, h1, k.pages, r, k.h);
    ghost var h2, hd := k.h, k.freelist;
    forall p | p in h2.owner ensures h2.owner[p].r != r {
      assert HeldAt(m1, h2.roots, h2.owner, p);
    }
    assert OneHand(h1, r) && OneHand(h2, r);
    k.Release(r);
    FillOutside(m1, hd, h2, k.pages, r, k.mem, k.h, 0, 0);
    OutsideSame(m1, h2, k.mem, k.h, 0, 0);
    SameVisTwice(m0, m1, k.mem, others);
    assert k.h.ext == h0.ext;
  }

  // Free user memory, then the table's own pages.
  method Uvmfree(k: Kernel, r: int, sz: int)
    requires k.Valid() && r in k.h.roots && SizeOk(sz) && OnlyUser(k.mem, r, sz)
    modifies k
    ensures k.Valid() && Freed(old(k.mem), old(k.h), k.mem, k.h, r) && AllBack(old(k.h), k.h, r)
  {
    ghost var m0, h0, others := k.mem, k.h, k.h.roots - {r};
    PagesFit(sz);
    var n := Pages(sz);
    GrewOutside(m0, k.freelist, h0, k.pages, m0, h0, r, 0);
    OutsideMore(m0, h0, m0, h0, r, 0, 0, 0, n);
    if sz > 0 {
      k.Uvmunmap(r, 0, n, true);
    }
    ghost var m1, h1 := k.mem, k.h;
    OthersSee(m0, h0, m1, h1, r, 0, n, others);
    forall v ensures !LeafPte(m1, r, v).valid {
      if v < 0 || v >= n {
        assert LeafPte(m1, r, v) == LeafPte(m0, r, v);
      }
    }
    FreeTable(k, r);
    SameVisTwice(m0, m1, k.mem, others);
    PagesBack(m0, h0, k.mem, k.h, r, k.pages);
  }

  // An empty table, or 0 if no page is free.
  method Uvmcreate(k: Kernel) returns (r: int)
    requires k.Valid()
    modifies k
    ensures k.Valid() && k.h.owner == old(k.h).owner && k.h.ext == old(k.h).ext
    ensures SameVis(old(k.mem), k.mem, old(k.h).roots) && SameLeaves(old(k.mem), k.mem, old(k.h).roots)
    ensures r == 0 ==> unchanged(k) && k.h.free == []
    ensures r != 0 ==> r in old(k.h).free && r !in old(k.h).roots && k.h.roots == old(k.h).roots + {r}
    ensures r != 0 ==> (forall v :: LeafPte(k.mem, r, v) == NO_PTE) && |k.h.free| == |old(k.h).free| - 1
  {
    ghost var m0, h0, hd0 := k.mem, k.h, k.freelist;
    SameVisRefl(m0, h0.roots);
    r := k.Kalloc();
    if r == 0 {
      return;
    }
    ghost var m1, h1, hd1 := k.mem, k.h, k.freelist;
    assert OneHand(h0, r);
    FillOutside(m0, hd0, h0, k.pages, r, m1, h1, 0, 0);
    OutsideSame(m0, h0, m1, h1, 0, 0);
    k.mem := k.mem[r := ZeroTable()];
    FillStep(m1, hd1, h1, k.pages, r, ZeroTable(), k.mem);
    FillOutside(m1, hd1, h1, k.pages, r, k.mem, h1, 0, 0);
    OutsideSame(m1, h1, k.mem, h1, 0, 0);
    SameVisTwice(m0, m1, k.mem, h0.roots);
    k.h := k.h.(roots := k.h.roots + {r}, ext := k.h.ext - {r});
    NewRootStep(k.mem, hd1, h1, k.pages, r, k.h);
    assert k.h.ext == h0.ext;
    forall v ensures LeafPte(k.mem, r, v) == NO_PTE {
      assert PteAt(k.mem, Leaf(r, v)) == NO_PTE;
    }
  }

  // Free a process's memory and its table; what the kernel only mapped there stays.
  method ProcFreepagetable(k: Kernel, r: int, sz: int)
    requires k.Valid() && r in k.h.roots && SizeOk(sz) && UserOk(k.mem, r, sz)
    modifies k
    ensures k.Valid() && Freed(old(k.mem), old(k.h), k.mem, k.h, r) && AllBack(old(k.h), k.h, r)
  {
    ghost var m0, h0, others := k.mem, k.h, k.h.roots - {r};
    k.Uvmunmap(r, TRAMPOLINE, 1, false);
    ghost var m1, h1 := k.mem, k.h;
    k.Uvmunmap(r, TRAPFRAME, 1, false);
    ghost var m2, h2 := k.mem, k.h;
    OthersSee(m0, h0, m1, h1, r, TRAMPOLINE, TRAMPOLINE + 1, others);
    OthersSee(m1, h1, m2, h2, r, TRAPFRAME, TRAPFRAME + 1, others);
    SameVisTwice(m0, m1, m2, others);
    forall v | LeafPte(m2, r, v).valid ensures 0 <= v < Pages(sz) {
      assert v != TRAPFRAME && v != TRAMPOLINE;
      assert LeafPte(m2, r, v) == LeafPte(m1, r, v) == LeafPte(m0, r, v);
    }
    Uvmfree(k, r, sz);
    SameVisTwice(m0, m2, k.mem, others);
    PagesBack(m0, h0, k.mem, k.h, r, k.pages);
  }

  // Exactly the pages that were free are.
  ghost predicate SameFree(h: Hands, h': Hands) {
    h'.roots == h.roots && h'.owner == h.owner && h'.ext == h.ext && forall p :: p in h'.free <==> p in h.free
  }

  // Between m0 and now, table r was made and other processes noticed nothing.
  ghost predicate Making(m0: Mem, h0: Hands, m: Mem, h: Hands, r: int) {
    && r !in h0.roots && h.roots == h0.roots + {r} && h.ext == h0.ext && OthersKeep(h0, h, r)
    && SameVis(m0, m, h0.roots) && SameLeaves(m0, m, h0.roots)
  }

  lemma MakingOn(m0: Mem, h0: Hands, m1: Mem, h1: Hands, m2: Mem, h2: Hands, r: int, v: int)
    requires Making(m0, h0, m1, h1, r) && Outside(m1, h1, m2, h2, r, v, v + 1) && OthersKeep(h1, h2, r)
             && h2.ext == h1.ext
    ensures Making(m0, h0, m2, h2, r)
  {
    OthersSee(m1, h1, m2, h2, r, v, v + 1, h0.roots);
    SameVisTwice(m0, m1, m2, h0.roots);
  }

  lemma NothingKept(m0: Mem, head: int, h0: Hands, pages: set<int>, m: Mem, h: Hands, m': Mem, h': Hands, r: int)
    requires Inv(m0, head, h0, pages) && Making(m0, h0, m, h, r) && Freed(m, h, m', h', r) && Covered(h', pages)
    ensures SameFree(h0, h')
  {
    forall p | p in h0.owner ensures p in h'.owner && h'.owner[p] == h0.owner[p] {
      assert HeldAt(m0, h0.roots, h0.owner, p);
      assert p in h.owner && h.owner[p] == h0.owner[p];
    }
    forall p | p in h'.owner ensures p in h0.owner {
      assert p in h.owner && h.owner[p].r != r;
    }
    assert h'.roots == h0.roots;
    forall p ensures p in h'.free <==> p in h0.free {
      assert OneHand(h0, p) && OneHand(h', p);
      assert InHands(h0, p) <==> InHands(h', p);
    }
  }

  // proc_pagetable's mapping of one of the kernel's pages.
  method MapKernel(k: Kernel, r: int, v: int, e: Pte, ghost m0: Mem, ghost h0: Hands) returns (ok: bool)
    requires k.Valid() && Making(m0, h0, k.mem, k.h, r) && TRAPFRAME <= v < MAXVPN && !LeafPte(k.mem, r, v).valid
             && e.valid && IsLeaf(e)
    modifies k
    ensures k.Valid() && Making(m0, h0, k.mem, k.h, r)
    ensures forall w :: LeafPte(k.mem, r, w) == if ok && w == v then e else LeafPte(old(k.mem), r, w)
    ensures if ok then |old(k.h).free| <= |k.h.free| + 2 else |old(k.h).free| < 2
  {
    ghost var m1, h1 := k.mem, k.h;
    ok := k.MapPage(r, v, e);
    MakingOn(m0, h0, m1, h1, k.mem, k.h, r, v);
    forall w ensures LeafPte(k.mem, r, w) == if ok && w == v then e else LeafPte(m1, r, w) {
      assert Within(r, w, r, v, v + 1) <==> w == v;
    }
  }

  // What a new table maps.
  function KernelPte(v: int, trampoline: int, tf: int): Pte {
    if v == TRAMPOLINE then Pte(true, true, false, true, false, trampoline)
    else if v == TRAPFRAME then Pte(true, true, true, false, false, tf) else NO_PTE
  }

  // Both mappings, or none.
  method MapBoth(k: Kernel, r: int, trampoline: int, tf: int, ghost m0: Mem, ghost h0: Hands) returns (ok: bool)
    requires k.Valid() && Making(m0, h0, k.mem, k.h, r) && forall v :: LeafPte(k.mem, r, v) == NO_PTE
    modifies k
    ensures k.Valid() && Making(m0, h0, k.mem, k.h, r)
    ensures forall v :: LeafPte(k.mem, r, v) == if ok then KernelPte(v, trampoline, tf) else NO_PTE
    ensures if ok then |old(k.h).free| <= |k.h.free| + 4 else |old(k.h).free| < 4
  {
    ok := MapKernel(k, r, TRAMPOLINE, KernelPte(TRAMPOLINE, trampoline, tf), m0, h0);
    if !ok {
      return;
    }
    ok := MapKernel(k, r, TRAPFRAME, KernelPte(TRAPFRAME, trampoline, tf), m0, h0);
    if !ok {
      ghost var m1, h1 := k.mem, k.h;
      k.Uvmunmap(r, TRAMPOLINE, 1, false);
      MakingOn(m0, h0, m1, h1, k.mem, k.h, r, TRAMPOLINE);
      forall v ensures LeafPte(k.mem, r, v) == NO_PTE {
        assert v != TRAMPOLINE ==> LeafPte(k.mem, r, v) == LeafPte(m1, r, v);
      }
    }
  }

  // A table with the trampoline and the trapframe page tf; 0 if memory ran out, and then none is used.
  method ProcPagetable(k: Kernel, trampoline: int, tf: int) returns (r: int)
    requires k.Valid()
    modifies k
    ensures k.Valid() && SameVis(old(k.mem), k.mem, old(k.h).roots) && SameLeaves(old(k.mem), k.mem, old(k.h).roots)
    ensures r == 0 ==> SameFree(old(k.h), k.h)
    ensures r != 0 ==> r in old(k.h).free && Making(old(k.mem), old(k.h), k.mem, k.h, r)
    ensures r != 0 ==> UserOk(k.mem, r, 0) && forall v :: LeafPte(k.mem, r, v) == KernelPte(v, trampoline, tf)
    ensures r != 0 ==> var e := LeafPte(k.mem, r, TRAMPOLINE);
                       e.valid && e.ppn == trampoline && e.r && !e.w && e.x && !e.u
    ensures r != 0 ==> var e := LeafPte(k.mem, r, TRAPFRAME); e.valid && e.ppn == tf && e.r && e.w && !e.x && !e.u
    ensures r != 0 ==> forall v :: v != TRAMPOLINE && v != TRAPFRAME ==> !LeafPte(k.mem, r, v).valid
    ensures if r != 0 then |old(k.h).free| <= |k.h.free| + 5 else |old(k.h).free| < 5
  {
    ghost var m0, h0, hd0 := k.mem, k.h, k.freelist;
    r := Uvmcreate(k);
    if r == 0 {
      return;
    }
    var ok := MapBoth(k, r, trampoline, tf, m0, h0);
    if !ok {
      Abandon(k, r, hd0, m0, h0);
      return 0;
    }
  }

  // Give up a table in which nothing is mapped any more.
  method Abandon(k: Kernel, r: int, ghost hd0: int, ghost m0: Mem, ghost h0: Hands)
    requires k.Valid() && Inv(m0, hd0, h0, k.pages) && Making(m0, h0, k.mem, k.h, r) && OnlyUser(k.mem, r, 0)
    modifies k
    ensures k.Valid() && SameFree(h0, k.h) && SameVis(m0, k.mem, h0.roots) && SameLeaves(m0, k.mem, h0.roots)
  {
    ghost var m1, h1 := k.mem, k.h;
    Uvmfree(k, r, 0);
    NothingKept(m0, hd0, h0, k.pages, m1, h1, k.mem, k.h, r);
    SameVisTwice(m0, m1, k.mem, h0.roots);
    SameLeavesTwice(m0, m1, k.mem, h0.roots);
  }
}
