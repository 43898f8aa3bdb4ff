/** The steps that move pages between hands, each keeping the page tables sound. */
module VmSteps {
  import opened VmTable

  // Pages other than b are as they were.
  ghost predicate OnlyPage(m: Mem, m': Mem, b: int) {
    |m'| == |m| && forall p :: 0 <= p < |m| && p != b ==> m'[p] == m[p]
  }

  lemma ChainKept(m: Mem, m': Mem, b: int, head: int, free: seq<int>)
    requires Chain(m, head, free) && OnlyPage(m, m', b) && b !in free
    ensures Chain(m', head, free)
  {
    forall k | 0 <= k < |free| ensures LinkAt(m', free, k) {
      assert LinkAt(m, free, k);
    }
  }

  // ----- Pages that are in no table -----

  // A change to a page outside the tables changes no entry.
  lemma OutsideKept(m: Mem, m': Mem, b: int, roots: set<int>, owner: Owner)
    requires Linked(m, roots, owner) && Kinds(m, roots, owner) && OnlyPage(m, m', b) && b !in roots && b !in owner
    ensures SamePtes(m, m', roots) && Linked(m', roots, owner) && Kinds(m', roots, owner)
  {
    KeptEffect(m, m', roots, owner);
    LinkedSame(m, m', roots, owner);
  }

  lemma LinkedSame(m: Mem, m': Mem, roots: set<int>, owner: Owner)
    requires Linked(m, roots, owner) && SamePtes(m, m', roots)
    ensures Linked(m', roots, owner)
  {
    forall p | p in owner ensures HeldAt(m', roots, owner, p) {
      assert HeldAt(m, roots, owner, p);
    }
  }

  function SetPage(m: Mem, b: int, x: Page): Mem {
    if 0 <= b < |m| then m[b := x] else m
  }

  // memset or memmove on a page in other hands.
  lemma FillStep(m: Mem, head: int, h: Hands, pages: set<int>, b: int, x: Page, m': Mem)
    requires Inv(m, head, h, pages) && b in h.ext && m' == SetPage(m, b, x)
    ensures Inv(m', head, h, pages) && SamePtes(m, m', h.roots) && OnlyPage(m, m', b) && 0 < b < |m'| && m'[b] == x
  {
    assert OneHand(h, b) && InHands(h, b);
    ChainKept(m, m', b, head, h.free);
    OutsideKept(m, m', b, h.roots, h.owner);
  }

  function NextFree(m: Mem, p: int): int {
    if 0 <= p < |m| && m[p].FreePage? then m[p].next else 0
  }

  // kalloc: the head of the free list, filled with junk.
  lemma TakeStep(m: Mem, head: int, h: Hands, pages: set<int>, x: Page, m': Mem, head': int, h': Hands)
    requires Inv(m, head, h, pages) && h.free != [] && m' == SetPage(m, head, x)
    requires head' == NextFree(m, head) && h' == h.(free := h.free[1..], ext := h.ext + {head})
    ensures Inv(m', head', h', pages) && SamePtes(m, m', h.roots) && OnlyPage(m, m', head) && head in h'.ext
            && 0 < head < |m'|
  {
    assert LinkAt(m, h.free, 0) && OneHand(h, head) && InHands(h, head);
    var rest := h.free[1..];
    forall k | 0 <= k < |rest| ensures LinkAt(m', rest, k) {
      assert LinkAt(m, h.free, k + 1);
    }
    OutsideKept(m, m', head, h.roots, h.owner);
    forall p ensures OneHand(h', p) && (InHands(h', p) <==> InHands(h, p)) {
      assert OneHand(h, p);
      assert p in h.free <==> p == head || p in rest;
    }
  }

  // kfree: b goes to the head of the free list.
  lemma GiveStep(m: Mem, head: int, h: Hands, pages: set<int>, b: int, m': Mem, h': Hands)
    requires Inv(m, head, h, pages) && b in h.ext && m' == SetPage(m, b, FreePage(head))
    requires h' == h.(free := [b] + h.free, ext := h.ext - {b})
    ensures Inv(m', b, h', pages) && SamePtes(m, m', h.roots) && OnlyPage(m, m', b)
  {
    assert OneHand(h, b) && InHands(h, b);
    var free' := [b] + h.free;
    forall k | 0 <= k < |free'| ensures LinkAt(m', free', k) {
      if k > 0 {
        assert LinkAt(m, h.free, k - 1);
      }
    }
    OutsideKept(m, m', b, h.roots, h.owner);
    forall p ensures OneHand(h', p) && (InHands(h', p) <==> InHands(h, p)) {
      assert OneHand(h, p);
      assert p in free' <==> p == b || p in h.free;
    }
  }

  // ----- Linking and unlinking -----

  // A table page stays a table when one of its entries changes.
  lemma PutShape(m: Mem, p: int, i: int, e: Pte, m': Mem)
    requires IsTable(m, p) && 0 <= i < NPTE && m' == PutPte(m, p, i, e)
    ensures OnlyPage(m, m', p) && IsTable(m', p) && !m[p].FreePage?
  {
  }

  // The page an entry stands in is the root or a table held by the table.
  lemma TableHeld(m: Mem, roots: set<int>, owner: Owner, s: Ref)
    requires Linked(m, roots, owner) && s.r in roots && TableOf(m, s) >= 0
    ensures TableOf(m, s) in roots || (TableOf(m, s) in owner && !owner[TableOf(m, s)].Leaf?)
  {
    if !s.Mid? {
      assert PteAt(m, Up(s)).valid;
    }
  }

  lemma LinkedAdd(m: Mem, m': Mem, roots: set<int>, owner: Owner, s: Ref, e: Pte, b: int, owner': Owner)
    requires Linked(m, roots, owner) && OnePte(m, m', roots, s, e) && s.r in roots && !PteAt(m, s).valid && Owned(s)
    requires e.valid && e.ppn == b && b !in owner && b !in roots && owner' == owner[b := s]
    ensures Linked(m', roots, owner')
  {
    forall p | p in owner' ensures HeldAt(m', roots, owner', p) {
      if p != b {
        assert HeldAt(m, roots, owner, p);
        assert PteAt(m', owner[p]) == PteAt(m, owner[p]);
      } else {
        assert PteAt(m', s) == e;
      }
    }
  }

  lemma LinkedDrop(m: Mem, m': Mem, roots: set<int>, owner: Owner, s: Ref, b: int, owner': Owner)
    requires Linked(m, roots, owner) && OnePte(m, m', roots, s, NO_PTE) && s.r in roots && PteAt(m, s).valid && Owned(s)
    requires b == PteAt(m, s).ppn && owner' == owner - {b}
    ensures Linked(m', roots, owner') && b in owner && owner[b] == s
  {
    forall p | p in owner' ensures HeldAt(m', roots, owner', p) {
      assert HeldAt(m, roots, owner, p);
      assert PteAt(m', owner[p]) == PteAt(m, owner[p]);
    }
  }

  // A change of an entry that holds nothing, or to the same page.
  lemma LinkedKeep(m: Mem, m': Mem, roots: set<int>, owner: Owner, s: Ref, e: Pte)
    requires Linked(m, roots, owner) && OnePte(m, m', roots, s, e) && s.r in roots
    requires !Owned(s) || (PteAt(m, s).valid && e.valid && e.ppn == PteAt(m, s).ppn)
    ensures Linked(m', roots, owner)
  {
    forall p | p in owner ensures HeldAt(m', roots, owner, p) {
      assert HeldAt(m, roots, owner, p);
      assert PteAt(m', owner[p]) == if owner[p] == s then e else PteAt(m, owner[p]);
    }
  }

  // An entry that may stand at s.
  predicate Suits(s: Ref, e: Pte) {
    if e.valid then s.Leaf? <==> IsLeaf(e) else e == NO_PTE
  }

  lemma KindsAfter(m: Mem, m': Mem, roots: set<int>, owner: Owner, s: Ref, e: Pte, owner': Owner)
    requires Kinds(m, roots, owner) && OnePte(m, m', roots, s, e) && Suits(s, e) && OnlyPage(m, m', TableOf(m, s))
    requires IsTable(m, TableOf(m, s)) && IsTable(m', TableOf(m, s))
    requires forall p :: p in owner' ==> (p in owner && owner'[p] == owner[p])
                                         || (owner'[p] == s && if s.Leaf? then IsData(m, p) else IsTable(m, p))
    ensures Kinds(m', roots, owner')
  {
  }

  // What an entry of a sound table needs before it is written.
  lemma CanPutHere(m: Mem, head: int, h: Hands, pages: set<int>, s: Ref, e: Pte)
    requires Inv(m, head, h, pages) && s.r in h.roots && TableOf(m, s) >= 0 && 0 <= IndexOf(s) < NPTE
    requires !s.Leaf? ==> LeadsNowhere(m, PteAt(m, s), TableOf(m, s)) && LeadsNowhere(m, e, TableOf(m, s))
    ensures CanPut(m, h.roots, h.owner, s, e) && TableOf(m, s) !in h.free && TableOf(m, s) !in h.ext
  {
    TableHeld(m, h.roots, h.owner, s);
    assert OneHand(h, TableOf(m, s));
  }

  // Hands after page b moved from ext to the table, or back.
  lemma HandsMove(h: Hands, pages: set<int>, b: int, s: Ref, h': Hands)
    requires Covered(h, pages)
    requires || (b in h.ext && h' == h.(owner := h.owner[b := s], ext := h.ext - {b}))
             || (b in h.owner && h' == h.(owner := h.owner - {b}, ext := h.ext + {b}))
             || (b in h.ext && h' == h.(roots := h.roots + {b}, ext := h.ext - {b}))
             || (b in h.roots && h' == h.(roots := h.roots - {b}, ext := h.ext + {b}))
    ensures Covered(h', pages)
  {
    assert OneHand(h, b);
    forall p ensures OneHand(h', p) && (InHands(h', p) <==> InHands(h, p)) {
      assert OneHand(h, p);
    }
  }

  // A fresh page put at s: an empty table above the last level, a data page there.
  lemma LinkStep(m: Mem, head: int, h: Hands, pages: set<int>, s: Ref, e: Pte, b: int, m': Mem, h': Hands)
    requires Inv(m, head, h, pages) && s.r in h.roots && TableOf(m, s) >= 0 && 0 <= IndexOf(s) < NPTE && Owned(s)
    requires !PteAt(m, s).valid && e.valid && e.ppn == b && b in h.ext && Suits(s, e)
    requires if s.Leaf? then IsData(m, b) else 0 <= b < |m| && m[b] == ZeroTable()
    requires m' == PutPte(m, TableOf(m, s), IndexOf(s), e) && h' == h.(owner := h.owner[b := s], ext := h.ext - {b})
    ensures Inv(m', head, h', pages) && OnePte(m, m', h.roots, s, e) && OnlyPage(m, m', TableOf(m, s))
  {
    var t := TableOf(m, s);
    assert OneHand(h, b);
    TableHeld(m, h.roots, h.owner, s);
    CanPutHere(m, head, h, pages, s, e);
    PutEffect(m, h.roots, h.owner, s, e, m');
    PutShape(m, t, IndexOf(s), e, m');
    LinkedAdd(m, m', h.roots, h.owner, s, e, b, h'.owner);
    KindsAfter(m, m', h.roots, h.owner, s, e, h'.owner);
    ChainKept(m, m', t, head, h.free);
    HandsMove(h, pages, b, s, h');
  }

  // The page at s taken out of the table: a data page, or a table without entries.
  lemma UnlinkStep(m: Mem, head: int, h: Hands, pages: set<int>, s: Ref, b: int, m': Mem, h': Hands)
    requires Inv(m, head, h, pages) && s.r in h.roots && TableOf(m, s) >= 0 && 0 <= IndexOf(s) < NPTE && Owned(s)
    requires PteAt(m, s).valid && PteAt(m, s).ppn == b && (s.Leaf? || forall k :: Entry(m, b, k) == NO_PTE)
    requires m' == PutPte(m, TableOf(m, s), IndexOf(s), NO_PTE) && h' == h.(owner := h.owner - {b}, ext := h.ext + {b})
    ensures Inv(m', head, h', pages) && OnePte(m, m', h.roots, s, NO_PTE) && OnlyPage(m, m', TableOf(m, s))
            && b in h'.ext
    ensures b != TableOf(m, s) && m'[b] == m[b]
  {
    var t := TableOf(m, s);
    assert h.owner[b] == s && OneHand(h, b) && InHands(h, b);
    NotOwnTable(m, h.roots, h.owner, s);
    CanPutHere(m, head, h, pages, s, NO_PTE);
    PutEffect(m, h.roots, h.owner, s, NO_PTE, m');
    PutShape(m, t, IndexOf(s), NO_PTE, m');
    LinkedDrop(m, m', h.roots, h.owner, s, b, h'.owner);
    KindsAfter(m, m', h.roots, h.owner, s, NO_PTE, h'.owner);
    ChainKept(m, m', t, head, h.free);
    HandsMove(h, pages, b, s, h');
  }

  // No table is its own entry.
  lemma NotOwnTable(m: Mem, roots: set<int>, owner: Owner, s: Ref)
    requires Linked(m, roots, owner) && s.r in roots && PteAt(m, s).valid && Owned(s) && TableOf(m, s) >= 0
    ensures PteAt(m, s).ppn != TableOf(m, s)
  {
    assert HeldAt(m, roots, owner, PteAt(m, s).ppn);
    if !s.Mid? {
      assert PteAt(m, Up(s)).valid && owner[PteAt(m, Up(s)).ppn] == Up(s);
    }
  }

  // An entry that holds no page of the table written or cleared, or permissions changed.
  lemma RemapStep(m: Mem, head: int, h: Hands, pages: set<int>, s: Ref, e: Pte, m': Mem)
    requires Inv(m, head, h, pages) && s.r in h.roots && s.Leaf? && TableOf(m, s) >= 0 && Suits(s, e)
    requires !Owned(s) || (PteAt(m, s).valid && e.valid && e.ppn == PteAt(m, s).ppn)
    requires m' == PutPte(m, TableOf(m, s), IndexOf(s), e)
    ensures Inv(m', head, h, pages) && OnePte(m, m', h.roots, s, e) && OnlyPage(m, m', TableOf(m, s))
  {
    var t := TableOf(m, s);
    TableHeld(m, h.roots, h.owner, s);
    CanPutHere(m, head, h, pages, s, e);
    PutEffect(m, h.roots, h.owner, s, e, m');
    PutShape(m, t, IndexOf(s), e, m');
    LinkedKeep(m, m', h.roots, h.owner, s, e);
    KindsAfter(m, m', h.roots, h.owner, s, e, h.owner);
    ChainKept(m, m', t, head, h.free);
  }

  // uvmcreate: an empty table of its own.
  lemma NewRootStep(m: Mem, head: int, h: Hands, pages: set<int>, b: int, h': Hands)
    requires Inv(m, head, h, pages) && b in h.ext && 0 <= b < |m| && m[b] == ZeroTable()
    requires h' == h.(roots := h.roots + {b}, ext := h.ext - {b})
    ensures Inv(m, head, h', pages) && forall s: Ref :: s.r == b ==> PteAt(m, s) == NO_PTE
  {
    assert OneHand(h, b);
    forall s: Ref | s.r == b ensures PteAt(m, s) == NO_PTE {
      assert forall k :: Entry(m, b, k) == NO_PTE;
    }
    forall p | p in h'.owner ensures HeldAt(m, h'.roots, h'.owner, p) {
      assert HeldAt(m, h.roots, h.owner, p);
    }
    HandsMove(h, pages, b, Mid(b, 0), h');
  }

  // A root without entries given up.
  lemma DropRootStep(m: Mem, head: int, h: Hands, pages: set<int>, r: int, h': Hands)
    requires Inv(m, head, h, pages) && r in h.roots && (forall s: Ref :: s.r == r ==> !PteAt(m, s).valid)
    requires h' == h.(roots := h.roots - {r}, ext := h.ext + {r})
    ensures Inv(m, head, h', pages) && r in h'.ext && 0 < r < |m|
  {
    assert OneHand(h, r) && InHands(h, r);
    forall p | p in h'.owner ensures HeldAt(m, h'.roots, h'.owner, p) {
      assert HeldAt(m, h.roots, h.owner, p);
    }
    HandsMove(h, pages, r, Mid(r, 0), h');
  }

  // New contents for a user page.
  lemma WriteStep(m: Mem, head: int, h: Hands, pages: set<int>, b: int, x: Page, m': Mem)
    requires Inv(m, head, h, pages) && b in h.owner && h.owner[b].Leaf? && x.DataPage? && |x.bytes| == PGSIZE
             && m' == SetPage(m, b, x)
    ensures Inv(m', head, h, pages) && SamePtes(m, m', h.roots) && OnlyPage(m, m', b) && 0 < b < |m'| && m'[b] == x
  {
    assert OneHand(h, b) && InHands(h, b) && HeldAt(m, h.roots, h.owner, b);
    ChainKept(m, m', b, head, h.free);
    assert TablesKept(m, m', h.roots, h.owner) by {
      forall r | r in h.roots ensures 0 <= r < |m| && r != b {
        assert IsTable(m, r);
      }
    }
    KeptEffect(m, m', h.roots, h.owner);
    LinkedSame(m, m', h.roots, h.owner);
  }

  // kfree(pa); *pte = 0: the page at s goes to the free list.
  lemma ReleaseStep(m: Mem, head: int, h: Hands, pages: set<int>, s: Ref, b: int, m1: Mem, m': Mem, h': Hands)
    requires Inv(m, head, h, pages) && s.r in h.roots && TableOf(m, s) >= 0 && 0 <= IndexOf(s) < NPTE && Owned(s)
    requires PteAt(m, s).valid && PteAt(m, s).ppn == b && (s.Leaf? || forall k :: Entry(m, b, k) == NO_PTE)
    requires m1 == SetPage(m, b, FreePage(head)) && m' == PutPte(m1, TableOf(m, s), IndexOf(s), NO_PTE)
    requires h' == h.(owner := h.owner - {b}, free := [b] + h.free)
    ensures Inv(m', b, h', pages) && OnePte(m, m', h.roots, s, NO_PTE) && b != TableOf(m, s) && b in h.owner
    ensures |m'| == |m| && forall p :: 0 <= p < |m| && p != b && p != TableOf(m, s) ==> m'[p] == m[p]
  {
    var t, i := TableOf(m, s), IndexOf(s);
    var mA, hA := PutPte(m, t, i, NO_PTE), h.(owner := h.owner - {b}, ext := h.ext + {b});
    UnlinkStep(m, head, h, pages, s, b, mA, hA);
    assert OneHand(h, b) && InHands(hA, b);
    var mB := SetPage(mA, b, FreePage(head));
    GiveStep(mA, head, hA, pages, b, mB, hA.(free := [b] + h.free, ext := hA.ext - {b}));
    assert hA.ext - {b} == h.ext;
    assert mB == m';
  }
}
