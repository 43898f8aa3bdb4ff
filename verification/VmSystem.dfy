/** Processes over the page tables: allocproc, fork, sbrk, page faults, copies and exit, in any order.  Every page
    is free, a table, a table's, or some process's trapframe, and stays in one place. */
module VmSystem {
  import opened VmTable
  import opened VmSteps
  import opened Vm
  import opened VmUser
  import opened VmProc

  // p->sz and p->trapframe; a process is known by its page table.
  datatype Proc = Proc(sz: int, tf: int)

  ghost predicate ProcOk(m: Mem, r: int, p: Proc, trampoline: int) {
    && SizeOk(p.sz) && UserOk(m, r, p.sz)
    && forall v {:trigger LeafPte(m, r, v)} :: v >= TRAPFRAME ==> LeafPte(m, r, v) == KernelPte(v, trampoline, p.tf)
  }

  /** In the address space of every process, at any time: the trampoline is code that the kernel alone may run, the
      trapframe page is that process's own and the kernel's to write, and nothing else is mapped up there. */
  lemma TrapPages(m: Mem, r: int, p: Proc, trampoline: int)
    requires ProcOk(m, r, p, trampoline)
    ensures var e := LeafPte(m, r, TRAMPOLINE); e.valid && e.ppn == trampoline && e.r && !e.w && e.x && !e.u
    ensures var e := LeafPte(m, r, TRAPFRAME); e.valid && e.ppn == p.tf && e.r && e.w && !e.x && !e.u
    ensures forall v :: v > TRAMPOLINE ==> !LeafPte(m, r, v).valid
  {
  }

  lemma OnlyTrapPages(m: Mem, r: int, p: Proc, trampoline: int)
    requires ProcOk(m, r, p, trampoline) && p.sz == 0
    ensures forall v :: v != TRAMPOLINE && v != TRAPFRAME ==> !LeafPte(m, r, v).valid
  {
    assert Pages(0) == 0;
  }

  ghost predicate AllOk(m: Mem, procs: map<int, Proc>, trampoline: int) {
    forall r :: r in procs ==> ProcOk(m, r, procs[r], trampoline)
  }

  // The pages in ext are the trapframes, one for each process.
  ghost predicate Frames(procs: map<int, Proc>, ext: set<int>) {
    && (forall r :: r in procs ==> procs[r].tf in ext)
    && (forall q, r :: q in procs && r in procs && procs[q].tf == procs[r].tf ==> q == r)
    && (forall b :: b in ext ==> exists r :: r in procs && procs[r].tf == b)
  }

  // A change to r's user mappings leaves every process sound if it leaves r sound.
  lemma StillAllOk(m: Mem, m': Mem, procs: map<int, Proc>, trampoline: int, r: int, sz: int, procs': map<int, Proc>)
    requires AllOk(m, procs, trampoline) && r in procs && UserOnly(m, m', procs.Keys, r) && SizeOk(sz)
             && UserOk(m', r, sz)
    requires procs' == procs[r := procs[r].(sz := sz)]
    ensures AllOk(m', procs', trampoline)
  {
    forall q | q in procs' ensures ProcOk(m', q, procs'[q], trampoline) {
      assert ProcOk(m, q, procs[q], trampoline);
      if q != r {
        SameTableOk(m, m', q, procs[q], trampoline);
      }
    }
  }

  lemma SameTableOk(m: Mem, m': Mem, q: int, p: Proc, trampoline: int)
    requires ProcOk(m, q, p, trampoline) && forall v :: LeafPte(m', q, v) == LeafPte(m, q, v)
    ensures ProcOk(m', q, p, trampoline)
  {
  }

  // A table made and given up: every page is where it was.
  lemma AllReturned(m: Mem, head: int, h: Hands, pages: set<int>, h': Hands, r: int)
    requires Inv(m, head, h, pages) && Covered(h', pages) && r !in h.roots && OthersKeep(h, h', r)
             && (forall p :: p in h'.owner ==> h'.owner[p].r != r)
    requires h'.roots == h.roots && h'.ext == h.ext
    ensures SameFree(h, h')
  {
    forall p | p in h.owner ensures p in h'.owner && h'.owner[p] == h.owner[p] {
      assert HeldAt(m, h.roots, h.owner, p);
    }
    forall p | p in h'.owner ensures p in h.owner {
      assert h'.owner[p].r != r;
    }
    forall p ensures p in h'.free <==> p in h.free {
      assert OneHand(h, p) && OneHand(h', p);
      assert InHands(h, p) <==> InHands(h', p);
    }
  }

  class Machine {
    const k: Kernel
    const trampoline: int
    var procs: map<int, Proc>

    ghost predicate Valid()
      reads this, k
    {
      k.Valid() && procs.Keys == k.h.roots && Frames(procs, k.h.ext) && AllOk(k.mem, procs, trampoline)
    }

    constructor (first: int, last: int, trampoline: int)
      requires 0 < first <= last
      ensures Valid() && fresh(k) && procs == map[]
    {
      this.trampoline := trampoline;
      procs := map[];
      k := new Kernel(first, last);
    }

    // allocproc: a process without memory, or 0 and not one page is lost.
    method Allocproc() returns (q: int)
      requires Valid()
      modifies this, k
      ensures Valid() && Unseen(old(k.mem), k.mem, old(k.h).roots)
      ensures q == 0 ==> procs == old(procs) && SameFree(old(k.h), k.h)
      ensures q != 0 ==> q !in old(procs) && q in procs && procs == old(procs)[q := Proc(0, procs[q].tf)]
      ensures q != 0 ==> OthersKeep(old(k.h), k.h, q) && k.h.ext == old(k.h).ext + {procs[q].tf}
                         && procs[q].tf !in old(k.h).ext
      ensures if q != 0 then |old(k.h).free| <= |k.h.free| + 6 else |old(k.h).free| < 6
      ensures q != 0 ==> var e := LeafPte(k.mem, q, TRAMPOLINE);
                         e.valid && e.ppn == trampoline && e.r && !e.w && e.x && !e.u
      ensures q != 0 ==> var e := LeafPte(k.mem, q, TRAPFRAME);
                         e.valid && e.ppn == procs[q].tf && e.r && e.w && !e.x && !e.u
      ensures q != 0 ==> forall v :: v != TRAMPOLINE && v != TRAPFRAME ==> !LeafPte(k.mem, q, v).valid
    {
      q := NewProc();
      if q != 0 {
        assert ProcOk(k.mem, q, procs[q], trampoline);
        TrapPages(k.mem, q, procs[q], trampoline);
        OnlyTrapPages(k.mem, q, procs[q], trampoline);
      }
    }

    // The steps of allocproc, and who holds what afterwards.
    method NewProc() returns (q: int)
      requires Valid()
      modifies this, k
      ensures Valid() && Unseen(old(k.mem), k.mem, old(k.h).roots)
      ensures q == 0 ==> procs == old(procs) && SameFree(old(k.h), k.h)
      ensures q != 0 ==> q !in old(procs) && q in procs && procs == old(procs)[q := Proc(0, procs[q].tf)]
      ensures q != 0 ==> OthersKeep(old(k.h), k.h, q) && k.h.ext == old(k.h).ext + {procs[q].tf}
                         && procs[q].tf !in old(k.h).ext
      ensures if q != 0 then |old(k.h).free| <= |k.h.free| + 6 else |old(k.h).free| < 6
    {
      ghost var m0, h0, hd0, ps := k.mem, k.h, k.freelist, procs;
      var tf := k.Kalloc();
      if tf == 0 {
        SameVisRefl(m0, h0.roots);
        return 0;
      }
      ghost var m1, h1 := k.mem, k.h;
      HandedOver(m0, hd0, h0, k.pages, tf, m1, h1);
      q := ProcPagetable(k, trampoline, tf);
      ghost var m2, h2, hd2 := k.mem, k.h, k.freelist;
      UnseenTwice(m0, m1, m2, h0.roots);
      if q == 0 {
        assert InHands(h2, tf) && OneHand(h2, tf);
        k.Release(tf);
        HandedOver(m2, hd2, h2, k.pages, tf, k.mem, k.h);
        UnseenTwice(m0, m2, k.mem, h0.roots);
        GivenBack(h0, h1, h2, k.h, tf);
        UnseenOk(m0, k.mem, ps, trampoline);
        return;
      }
      procs := procs[q := Proc(0, tf)];
      Enlisted(m0, m2, ps, trampoline, h0.ext, q, tf);
    }

    // freeproc: the trapframe, the memory and the table of r go back, and nothing else.
    method Freeproc(r: int)
      requires Valid() && r in procs
      modifies this, k
      ensures Valid() && procs == old(procs) - {r} && Unseen(old(k.mem), k.mem, procs.Keys)
      ensures LeftBy(old(k.h), k.h, r, old(procs)[r].tf) && Returned(old(k.h), k.h, r, old(procs)[r].tf)
    {
      ghost var m0, h0, hd0, ps := k.mem, k.h, k.freelist, procs;
      var p := procs[r];
      assert ProcOk(m0, r, p, trampoline);
      assert InHands(h0, p.tf) && OneHand(h0, p.tf);
      k.Release(p.tf);
      ghost var m1, h1 := k.mem, k.h;
      HandedOver(m0, hd0, h0, k.pages, p.tf, m1, h1);
      SameTableOk(m0, m1, r, p, trampoline);
      ProcFreepagetable(k, r, p.sz);
      procs := procs - {r};
      UnseenBut(m0, m1, h0.roots, procs.Keys);
      UnseenTwice(m0, m1, k.mem, procs.Keys);
      LeftOver(m0, k.mem, ps, trampoline, h0.ext, r);
      TfBack(h0, h1, k.h, r, p.tf);
    }

    // kfork: a child that sees what its parent sees, on pages of its own; or 0 and not one page is lost.
    method Fork(r: int) returns (q: int)
      requires Valid() && r in procs
      modifies this, k
      ensures Valid() && SameVis(old(k.mem), k.mem, old(k.h).roots)
      ensures q == 0 ==> procs == old(procs) && SameFree(old(k.h), k.h)
                         && |old(k.h).free| < 6 + PerPage(Pages(procs[r].sz))
      ensures q != 0 ==> q !in old(procs) && q in procs && procs == old(procs)[q := Proc(old(procs)[r].sz, procs[q].tf)]
      ensures q != 0 ==> Copied(k.mem, r, q, Pages(old(procs)[r].sz))
      ensures q != 0 ==> forall va :: Vis(k.mem, q, old(procs)[r].sz, va) == Vis(old(k.mem), r, old(procs)[r].sz, va)
    {
      ghost var m0, h0, hd0, ps := k.mem, k.h, k.freelist, procs;
      q := NewProc();
      if q == 0 {
        return;
      }
      ghost var m1, h1, ps1 := k.mem, k.h, procs;
      assert ProcOk(m1, r, ps1[r], trampoline) && ProcOk(m1, q, ps1[q], trampoline);
      var sz := procs[r].sz;
      var ok := Uvmcopy(k, r, q, sz);
      ghost var m2, h2 := k.mem, k.h;
      PagesFit(sz);
      OutsideUser(m1, h1, m2, h2, q, 0, if ok then Pages(sz) else 0);
      OthersSee(m1, h1, m2, h2, q, 0, if ok then Pages(sz) else 0, h0.roots);
      SameVisTwice(m0, m1, m2, h0.roots);
      StillAllOk(m1, m2, ps1, trampoline, q, if ok then sz else 0, ps1[q := ps1[q].(sz := if ok then sz else 0)]);
      if ok {
        procs := procs[q := procs[q].(sz := sz)];
        SameFrames(ps1, procs, h1.ext);
        return;
      }
      assert ps1[q := ps1[q].(sz := 0)] == ps1;
      Freeproc(q);
      SameVisTwice(m0, m2, k.mem, h0.roots);
      assert procs == ps;
      AllReturned(m0, hd0, h0, k.pages, k.h, q);
      q := 0;
    }

    // sys_sbrk: what is left of the old memory, and what every other process sees, is unchanged.
    method Sbrk(r: int, n: int, eager: bool) returns (addr: int)
      requires Valid() && r in procs && -0x8000_0000 <= n < 0x8000_0000
      modifies this, k
      ensures Valid() && procs.Keys == old(procs).Keys && procs == old(procs)[r := procs[r]]
              && procs[r].tf == old(procs)[r].tf
      ensures addr == -1 ==> procs == old(procs) && CannotGrow(procs[r].sz, n, eager, |old(k.h).free|)
      ensures addr != -1 ==> forall va :: Pages(addr) * PGSIZE <= va < Pages(procs[r].sz) * PGSIZE ==>
                                          Vis(k.mem, r, procs[r].sz, va) == Byte(0)
      ensures addr != -1 ==> forall v :: Pages(addr) <= v < Pages(procs[r].sz) ==>
                var e := LeafPte(k.mem, r, v);
                if eager then e.valid && e.u && e.r && e.w && !e.x else !e.valid
      ensures addr != -1 ==> addr == old(procs)[r].sz && procs[r].sz == if addr + n < 0 then addr else addr + n
      ensures forall va :: Vis(k.mem, r, procs[r].sz, va) == Vis(old(k.mem), r, procs[r].sz, va)
      ensures forall q, va :: q in procs && q != r ==>
                              Vis(k.mem, q, procs[q].sz, va) == Vis(old(k.mem), q, procs[q].sz, va)
    {
      ghost var m0, ps := k.mem, procs;
      assert ProcOk(m0, r, ps[r], trampoline);
      var sz;
      addr, sz := VmProc.Sbrk(k, r, procs[r].sz, n, eager);
      procs := procs[r := procs[r].(sz := sz)];
      StillAllOk(m0, k.mem, ps, trampoline, r, sz, procs);
      SameFrames(ps, procs, k.h.ext);
      assert forall q :: q in procs ==> ProcOk(k.mem, q, procs[q], trampoline);
    }

    // A page fault of r at va: the page it needed is there, or the process is to be killed; nobody sees a change.
    method Fault(r: int, va: int) returns (b: int)
      requires Valid() && r in procs && 0 <= va
      modifies this, k
      ensures Valid() && procs == old(procs) && SameVis(old(k.mem), k.mem, procs.Keys)
      ensures b != 0 ==> var e := LeafPte(k.mem, r, va / PGSIZE); e.valid && e.u && e.r && e.w && !e.x && e.ppn == b
      ensures b != 0 <==> va < procs[r].sz && !LeafPte(old(k.mem), r, va / PGSIZE).valid
                          && |old(k.h).free| > Need(old(k.mem), r, va / PGSIZE)
    {
      ghost var m0, h0 := k.mem, k.h;
      assert ProcOk(m0, r, procs[r], trampoline);
      b := Vmfault(k, r, procs[r].sz, va);
      var v := va / PGSIZE;
      PagesFit(procs[r].sz);
      if b != 0 {
        FaultPage(va, procs[r].sz);
      }
      StillUser(m0, h0, k.mem, k.h, r, procs[r].sz, v);
      StillAllOk(m0, k.mem, procs, trampoline, r, procs[r].sz, procs[r := procs[r].(sz := procs[r].sz)]);
      assert procs[r := procs[r].(sz := procs[r].sz)] == procs;
    }

    // copyin: the bytes r sees at va.
    method Read(r: int, va: int, len: int) returns (ok: bool, dst: seq<int>)
      requires Valid() && r in procs && 0 <= va && 0 <= len
      modifies this, k
      ensures Valid() && procs == old(procs) && SameVis(old(k.mem), k.mem, procs.Keys)
      ensures SeenAt(old(k.mem), r, procs[r].sz, va, dst) && |dst| <= len && (ok <==> |dst| == len)
      ensures !ok ==> Vis(old(k.mem), r, procs[r].sz, va + |dst|) == VmUser.Fault || |k.h.free| <= 1
    {
      ghost var m0 := k.mem;
      assert ProcOk(m0, r, procs[r], trampoline);
      ok, dst := CopyIn(k, r, procs[r].sz, va, len);
      StillAllOk(m0, k.mem, procs, trampoline, r, procs[r].sz, procs[r := procs[r].(sz := procs[r].sz)]);
      assert procs[r := procs[r].(sz := procs[r].sz)] == procs;
    }

    // copyout: exactly the bytes that arrived change, and only for r.
    method Write(r: int, va: int, src: seq<int>) returns (ok: bool, ghost w: int)
      requires Valid() && r in procs && 0 <= va
      modifies this, k
      ensures Valid() && procs == old(procs) && 0 <= w <= |src| && (ok <==> w == |src|)
      ensures Wrote(old(k.mem), k.mem, procs.Keys, r, va, src[..w]) && SeenAt(k.mem, r, procs[r].sz, va, src[..w])
      ensures !ok ==> Vis(k.mem, r, procs[r].sz, va + w) == VmUser.Fault || !LeafPte(k.mem, r, (va + w) / PGSIZE).w
                      || |k.h.free| <= 1
    {
      ghost var m0 := k.mem;
      assert ProcOk(m0, r, procs[r], trampoline);
      ok, w := CopyOut(k, r, procs[r].sz, va, src);
      StillAllOk(m0, k.mem, procs, trampoline, r, procs[r].sz, procs[r := procs[r].(sz := procs[r].sz)]);
      assert procs[r := procs[r].(sz := procs[r].sz)] == procs;
    }
  }

  // Why sbrk refuses: the size would reach the trapframe, or memory to be mapped now may run out.
  predicate CannotGrow(sz: int, n: int, eager: bool, free: int) {
    sz + n > TRAPFRAME * PGSIZE || (eager && free < PerPage(Pages(sz + n) - Pages(sz)))
  }

  // Who holds what once r and its trapframe tf are given up.
  ghost predicate LeftBy(h: Hands, h': Hands, r: int, tf: int) {
    h'.roots == h.roots - {r} && h'.ext == h.ext - {tf} && OthersKeep(h, h', r)
      && forall p :: p in h'.owner ==> h'.owner[p].r != r
  }

  // Exactly r's pages are free that were not.
  ghost predicate Returned(h: Hands, h': Hands, r: int, tf: int) {
    forall p :: p in h'.free <==> p in h.free || p == r || p == tf || (p in h.owner && h.owner[p].r == r)
  }

  lemma TfBack(h: Hands, h1: Hands, h': Hands, r: int, tf: int)
    requires h1 == h.(free := [tf] + h.free, ext := h.ext - {tf}) && AllBack(h1, h', r)
    ensures Returned(h, h', r, tf)
  {
    forall p ensures p in h1.free <==> p in h.free || p == tf {
    }
  }

  lemma UnseenBut(m: Mem, m': Mem, roots: set<int>, some: set<int>)
    requires Unseen(m, m', roots) && some <= roots
    ensures Unseen(m, m', some)
  {
  }

  lemma SameFrames(procs: map<int, Proc>, procs': map<int, Proc>, ext: set<int>)
    requires Frames(procs, ext) && procs'.Keys == procs.Keys && forall r :: r in procs ==> procs'[r].tf == procs[r].tf
    ensures Frames(procs', ext)
  {
    forall b | b in ext ensures exists r :: r in procs' && procs'[r].tf == b {
      var r :| r in procs && procs[r].tf == b;
      assert procs'[r].tf == b;
    }
  }

  lemma LeftOver(m: Mem, m': Mem, procs: map<int, Proc>, trampoline: int, ext: set<int>, r: int)
    requires AllOk(m, procs, trampoline) && Frames(procs, ext) && r in procs && Unseen(m, m', (procs - {r}).Keys)
    ensures AllOk(m', procs - {r}, trampoline) && Frames(procs - {r}, ext - {procs[r].tf})
  {
    var rest := procs - {r};
    UnseenOk(m, m', rest, trampoline);
    forall b | b in ext - {procs[r].tf} ensures exists q :: q in rest && rest[q].tf == b {
      var q :| q in procs && procs[q].tf == b;
      assert q in rest && rest[q].tf == b;
    }
  }

  // No process can tell the difference.
  ghost predicate Unseen(m: Mem, m': Mem, roots: set<int>) {
    SameVis(m, m', roots) && SameLeaves(m, m', roots)
  }

  lemma UnseenTwice(m: Mem, m1: Mem, m2: Mem, roots: set<int>)
    requires Unseen(m, m1, roots) && Unseen(m1, m2, roots)
    ensures Unseen(m, m2, roots)
  {
    SameVisTwice(m, m1, m2, roots);
    SameLeavesTwice(m, m1, m2, roots);
  }

  lemma UnseenOk(m: Mem, m': Mem, procs: map<int, Proc>, trampoline: int)
    requires AllOk(m, procs, trampoline) && Unseen(m, m', procs.Keys)
    ensures AllOk(m', procs, trampoline)
  {
    forall q | q in procs ensures ProcOk(m', q, procs[q], trampoline) {
      SameTableOk(m, m', q, procs[q], trampoline);
    }
  }

  // Taking or giving a page that no table holds shows nowhere.
  lemma HandedOver(m: Mem, head: int, h: Hands, pages: set<int>, b: int, m': Mem, h': Hands)
    requires Inv(m, head, h, pages) && SamePtes(m, m', h.roots) && OnlyPage(m, m', b) && b !in h.owner
             && h'.roots == h.roots
    ensures Unseen(m, m', h.roots)
  {
    FillOutside(m, head, h, pages, b, m', h', 0, 0);
    OutsideSame(m, h, m', h', 0, 0);
    forall q, v | q in h.roots ensures LeafPte(m', q, v) == LeafPte(m, q, v) {
      assert PteAt(m', Leaf(q, v)) == PteAt(m, Leaf(q, v));
    }
  }

  lemma GivenBack(h0: Hands, h1: Hands, h2: Hands, h3: Hands, tf: int)
    requires h0.free != [] && tf == h0.free[0] && tf !in h0.ext
             && h1 == h0.(free := h0.free[1..], ext := h0.ext + {tf}) && SameFree(h1, h2)
    requires h3 == h2.(free := [tf] + h2.free, ext := h2.ext - {tf})
    ensures SameFree(h0, h3)
  {
    assert h0.free == [tf] + h0.free[1..];
    assert h3.ext == h0.ext;
  }

  lemma Enlisted(m: Mem, m': Mem, procs: map<int, Proc>, trampoline: int, ext: set<int>, q: int, tf: int)
    requires AllOk(m, procs, trampoline) && Unseen(m, m', procs.Keys) && Frames(procs, ext) && q !in procs && tf !in ext
    requires UserOk(m', q, 0) && forall v :: LeafPte(m', q, v) == KernelPte(v, trampoline, tf)
    ensures AllOk(m', procs[q := Proc(0, tf)], trampoline) && Frames(procs[q := Proc(0, tf)], ext + {tf})
  {
    UnseenOk(m, m', procs, trampoline);
    var ps := procs[q := Proc(0, tf)];
    forall b | b in ext + {tf} ensures exists r :: r in ps && ps[r].tf == b {
      if b == tf {
        assert ps[q].tf == b;
      } else {
        var r :| r in procs && procs[r].tf == b;
        assert ps[r].tf == b;
      }
    }
  }
}
