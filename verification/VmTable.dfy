/** Physical pages, three-level page tables and who holds which page. */
module VmTable {
  const NPTE := 512
  const PGSIZE := 4096
  const MAXVPN := 0x400_0000   // MAXVA / PGSIZE
  const TRAMPOLINE := MAXVPN - 1
  const TRAPFRAME := MAXVPN - 2

  datatype Pte = Pte(valid: bool, r: bool, w: bool, x: bool, u: bool, ppn: int)

  const NO_PTE := Pte(false, false, false, false, false, 0)

  function TablePte(p: int): Pte {
    Pte(true, false, false, false, false, p)
  }

  predicate IsLeaf(e: Pte) {
    e.r || e.w || e.x
  }

  // What a physical page is used as.
  datatype Page = FreePage(next: int) | TablePage(ptes: seq<Pte>) | DataPage(bytes: seq<int>)
  type Mem = seq<Page>

  predicate IsTable(m: Mem, p: int) {
    0 <= p < |m| && m[p].TablePage? && |m[p].ptes| == NPTE
  }

  predicate IsData(m: Mem, p: int) {
    0 <= p < |m| && m[p].DataPage? && |m[p].bytes| == PGSIZE
  }

  function ZeroTable(): Page {
    TablePage(seq(NPTE, _ => NO_PTE))
  }

  function ZeroData(): Page {
    DataPage(seq(PGSIZE, _ => 0))
  }

  function Entry(m: Mem, p: int, i: int): Pte {
    if 0 <= p < |m| && m[p].TablePage? && 0 <= i < |m[p].ptes| then m[p].ptes[i] else NO_PTE
  }

  function Target(e: Pte): int {
    if e.valid then e.ppn else -1
  }

  // Entries of the table rooted at r: PX(2), then PX(1), then PX(0).
  datatype Ref = Mid(r: int, i: int) | Low(r: int, i: int) | Leaf(r: int, i: int)

  function MidPte(m: Mem, r: int, i: int): Pte {
    Entry(m, r, i)
  }

  function LowPte(m: Mem, r: int, j: int): Pte {
    Entry(m, Target(MidPte(m, r, j / NPTE)), j % NPTE)
  }

  function LeafPte(m: Mem, r: int, v: int): Pte {
    Entry(m, Target(LowPte(m, r, v / NPTE)), v % NPTE)
  }

  // The entry that the hardware finds for page v from the table at p on, its index at each level nine bits of v.
  function Sv39(m: Mem, p: int, v: int, level: nat): Pte
    decreases level
  {
    var e := Entry(m, p, v / Span(level) % NPTE);
    if level == 0 then e else if !e.valid then NO_PTE else Sv39(m, e.ppn, v, level - 1)
  }

  // Pages below one entry of a table at this level.
  function Span(level: nat): (n: nat)
    ensures n > 0
  {
    if level == 0 then 1 else NPTE * Span(level - 1)
  }

  /** The leaf of a table is what the address translation of the RISC-V privileged specification (Sv39) finds. */
  lemma LeafIsSv39(m: Mem, r: int, v: int)
    requires 0 <= v < MAXVPN
    ensures LeafPte(m, r, v) == Sv39(m, r, v, 2)
  {
    assert Span(1) == NPTE && Span(2) == NPTE * NPTE;
    assert v / (NPTE * NPTE) == v / NPTE / NPTE && v / (NPTE * NPTE) % NPTE == v / NPTE / NPTE;
    var e := Entry(m, r, v / NPTE / NPTE);
    if e.valid {
      assert Sv39(m, r, v, 2) == Sv39(m, e.ppn, v, 1);
      var f := Entry(m, e.ppn, v / NPTE % NPTE);
      if f.valid {
        assert Sv39(m, e.ppn, v, 1) == Sv39(m, f.ppn, v, 0);
      }
    }
  }

  function PteAt(m: Mem, s: Ref): Pte {
    match s
    case Mid(r, i) => MidPte(m, r, i)
    case Low(r, j) => LowPte(m, r, j)
    case Leaf(r, v) => LeafPte(m, r, v)
  }

  // The entry above s, for a table that is not the root.
  function Up(s: Ref): Ref {
    match s
    case Mid(r, i) => s
    case Low(r, j) => Mid(r, j / NPTE)
    case Leaf(r, v) => Low(r, v / NPTE)
  }

  // The page and the index at which s stands.
  function TableOf(m: Mem, s: Ref): int {
    if s.Mid? then s.r else Target(PteAt(m, Up(s)))
  }

  function IndexOf(s: Ref): int {
    if s.Mid? then s.i else s.i % NPTE
  }

  lemma PteIsEntry(m: Mem, s: Ref)
    ensures PteAt(m, s) == Entry(m, TableOf(m, s), IndexOf(s))
  {
  }

  // User pages belong to the table; the trampoline and trapframe are only mapped by it.
  predicate Owned(s: Ref) {
    !s.Leaf? || s.i < TRAPFRAME
  }

  type Owner = map<int, Ref>

  ghost predicate Linked(m: Mem, roots: set<int>, owner: Owner) {
    && (forall s: Ref {:trigger PteAt(m, s)} :: s.r in roots && PteAt(m, s).valid && Owned(s) ==>
          PteAt(m, s).ppn in owner && owner[PteAt(m, s).ppn] == s)
    && (forall p :: p in owner ==> HeldAt(m, roots, owner, p))
  }

  ghost predicate HeldAt(m: Mem, roots: set<int>, owner: Owner, p: int)
    requires p in owner
  {
    owner[p].r in roots && Owned(owner[p]) && PteAt(m, owner[p]).valid && PteAt(m, owner[p]).ppn == p && p !in roots
  }

  // Tables hold tables down to the last level, and leaves there.
  ghost predicate Kinds(m: Mem, roots: set<int>, owner: Owner) {
    && (forall r :: r in roots ==> IsTable(m, r))
    && (forall p :: p in owner ==> if owner[p].Leaf? then IsData(m, p) else IsTable(m, p))
    && (forall s: Ref {:trigger PteAt(m, s)} :: s.r in roots ==>
          if PteAt(m, s).valid then s.Leaf? <==> IsLeaf(PteAt(m, s)) else PteAt(m, s) == NO_PTE)
  }

  // Two entries share a page only if they hang from the same entry.
  lemma SameTable(m: Mem, roots: set<int>, owner: Owner, s: Ref, q: Ref)
    requires Linked(m, roots, owner) && s.r in roots && q.r in roots && TableOf(m, s) == TableOf(m, q)
             && TableOf(m, s) >= 0
    ensures s.Mid? == q.Mid? && s.Low? == q.Low? && s.r == q.r && (s.Mid? || Up(s) == Up(q))
  {
    if !s.Mid? {
      assert PteAt(m, Up(s)).valid;
    }
    if !q.Mid? {
      assert PteAt(m, Up(q)).valid;
    }
  }

  lemma SameEntry(m: Mem, roots: set<int>, owner: Owner, s: Ref, q: Ref)
    requires Linked(m, roots, owner) && s.r in roots && q.r in roots && TableOf(m, s) == TableOf(m, q)
             && TableOf(m, s) >= 0
    requires IndexOf(s) == IndexOf(q)
    ensures s == q
  {
    SameTable(m, roots, owner, s, q);
    if !s.Mid? {
      assert s.i == s.i / NPTE * NPTE + s.i % NPTE && q.i == q.i / NPTE * NPTE + q.i % NPTE;
    }
  }

  // ----- Changing one entry -----

  function PutPte(m: Mem, p: int, i: int, e: Pte): Mem {
    if 0 <= p < |m| && m[p].TablePage? && 0 <= i < |m[p].ptes| then m[p := TablePage(m[p].ptes[i := e])] else m
  }

  // The table e leads to, if any, is empty and is not p.
  ghost predicate LeadsNowhere(m: Mem, e: Pte, p: int) {
    e.valid ==> e.ppn != p && forall k :: Entry(m, e.ppn, k) == NO_PTE
  }

  ghost predicate CanPut(m: Mem, roots: set<int>, owner: Owner, s: Ref, e: Pte) {
    && Linked(m, roots, owner) && s.r in roots && IsTable(m, TableOf(m, s)) && 0 <= IndexOf(s) < NPTE
    && (!s.Leaf? ==> LeadsNowhere(m, PteAt(m, s), TableOf(m, s)) && LeadsNowhere(m, e, TableOf(m, s)))
  }

  lemma PutAt(m: Mem, roots: set<int>, owner: Owner, s: Ref, e: Pte, m': Mem, q: Ref)
    requires CanPut(m, roots, owner, s, e) && m' == PutPte(m, TableOf(m, s), IndexOf(s), e) && q.r in roots
    ensures PteAt(m', q) == if q == s then e else PteAt(m, q)
    decreases if q.Leaf? then 2 else if q.Low? then 1 else 0
  {
    PteIsEntry(m, q);
    PteIsEntry(m', q);
    if !q.Mid? {
      PutAt(m, roots, owner, s, e, m', Up(q));
    }
    if q.Mid? || Up(q) != s {
      if TableOf(m, q) == TableOf(m, s) && IndexOf(q) == IndexOf(s) {
        SameEntry(m, roots, owner, q, s);
      }
    } else {
      assert TableOf(m', q) == Target(e) && TableOf(m, q) == Target(PteAt(m, s));
      assert Entry(m, Target(e), IndexOf(q)) == NO_PTE && Entry(m, Target(PteAt(m, s)), IndexOf(q)) == NO_PTE;
    }
  }

  // Only s changed, to e.
  ghost predicate OnePte(m: Mem, m': Mem, roots: set<int>, s: Ref, e: Pte) {
    forall q: Ref {:trigger PteAt(m', q)} :: q.r in roots ==> PteAt(m', q) == if q == s then e else PteAt(m, q)
  }

  lemma PutEffect(m: Mem, roots: set<int>, owner: Owner, s: Ref, e: Pte, m': Mem)
    requires CanPut(m, roots, owner, s, e) && m' == PutPte(m, TableOf(m, s), IndexOf(s), e)
    ensures OnePte(m, m', roots, s, e)
  {
    forall q: Ref | q.r in roots ensures PteAt(m', q) == if q == s then e else PteAt(m, q) {
      PutAt(m, roots, owner, s, e, m', q);
    }
  }

  // Changes to pages that are no table of ours leave every entry.
  ghost predicate TablesKept(m: Mem, m': Mem, roots: set<int>, owner: Owner) {
    && (forall r :: r in roots ==> 0 <= r < |m| && 0 <= r < |m'| && m'[r] == m[r])
    && (forall p :: p in owner && !owner[p].Leaf? ==> 0 <= p < |m| && 0 <= p < |m'| && m'[p] == m[p])
  }

  lemma KeptAt(m: Mem, m': Mem, roots: set<int>, owner: Owner, q: Ref)
    requires Linked(m, roots, owner) && TablesKept(m, m', roots, owner) && q.r in roots
    ensures PteAt(m', q) == PteAt(m, q)
    decreases if q.Leaf? then 2 else if q.Low? then 1 else 0
  {
    if !q.Mid? {
      KeptAt(m, m', roots, owner, Up(q));
    }
  }

  ghost predicate SamePtes(m: Mem, m': Mem, roots: set<int>) {
    forall q: Ref {:trigger PteAt(m', q)} :: q.r in roots ==> PteAt(m', q) == PteAt(m, q)
  }

  lemma KeptEffect(m: Mem, m': Mem, roots: set<int>, owner: Owner)
    requires Linked(m, roots, owner) && TablesKept(m, m', roots, owner)
    ensures SamePtes(m, m', roots)
  {
    forall q: Ref | q.r in roots ensures PteAt(m', q) == PteAt(m, q) {
      KeptAt(m, m', roots, owner, q);
    }
  }

  // ----- Who holds which page -----

  // free is the free list, ext the pages in other hands.
  datatype Hands = Hands(free: seq<int>, roots: set<int>, owner: Owner, ext: set<int>)

  ghost predicate Chain(m: Mem, head: int, free: seq<int>) {
    && (head == if free == [] then 0 else free[0])
    && (forall k :: 0 <= k < |free| ==> LinkAt(m, free, k))
    && (forall j, k :: 0 <= j < k < |free| ==> free[j] != free[k])
  }

  ghost predicate LinkAt(m: Mem, free: seq<int>, k: int)
    requires 0 <= k < |free|
  {
    0 < free[k] < |m| && m[free[k]] == FreePage(if k + 1 < |free| then free[k + 1] else 0)
  }

  // Page p is in exactly one pair of hands.
  ghost predicate OneHand(h: Hands, p: int) {
    && (p in h.free ==> p !in h.roots && p !in h.owner && p !in h.ext)
    && (p in h.roots ==> p !in h.owner && p !in h.ext)
    && (p in h.owner ==> p !in h.ext)
  }

  predicate InHands(h: Hands, p: int) {
    p in h.free || p in h.roots || p in h.owner || p in h.ext
  }

  // Every managed page is in one pair of hands, and no other page is in any.
  ghost predicate Covered(h: Hands, pages: set<int>) {
    (forall p :: OneHand(h, p)) && (forall p :: InHands(h, p) <==> p in pages)
  }

  ghost predicate Inv(m: Mem, head: int, h: Hands, pages: set<int>) {
    && Chain(m, head, h.free) && Covered(h, pages) && Linked(m, h.roots, h.owner) && Kinds(m, h.roots, h.owner)
    && forall p :: p in pages ==> 0 < p < |m|
  }
}
