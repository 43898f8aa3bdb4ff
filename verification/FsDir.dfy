/** Directories as files: dirlookup, dirlink and isdirempty over readi and writei, and the lists of entries that
    module Links works with. */
module FsDir {
  import opened FsLayout
  import opened FsMap
  import opened Fs
  import opened FsFile
  import opened Common
  import L = Links

  // sizeof(struct dirent): two bytes of inode number, DIRSIZ bytes of name.
  const DE := 16

  // ----- One entry in bytes -----

  // A C string of at most DIRSIZ characters.
  predicate NameOk(name: string) {
    |name| <= L.DIRSIZ && forall j :: 0 <= j < |name| ==> 0 < name[j] as int < 256
  }

  function CutName(b: seq<int>): string {
    if b == [] || b[0] <= 0 || b[0] >= 256 then "" else [b[0] as char] + CutName(b[1..])
  }

  function DecodeEnt(b: seq<int>): L.Dirent {
    if |b| == DE then L.Dirent(b[0] + 256 * b[1], CutName(b[2..])) else L.NO_ENTRY
  }

  // strncpy: the name, filled up with NULs.
  function Padded(name: string): seq<int> {
    seq(L.DIRSIZ, j => if 0 <= j < |name| then name[j] as int else 0)
  }

  function EncodeEnt(e: L.Dirent): seq<int> {
    [e.inum % 256, e.inum / 256] + Padded(e.name)
  }

  lemma {:induction false} CutPadded(name: string, b: seq<int>, n: nat)
    requires |name| <= n == |b| && (forall j :: 0 <= j < |name| ==> 0 < name[j] as int < 256)
    requires forall j :: 0 <= j < n ==> b[j] == if j < |name| then name[j] as int else 0
    ensures CutName(b) == name
    decreases n
  {
    if name != "" {
      CutPadded(name[1..], b[1..], n - 1);
      assert name == [name[0]] + name[1..];
    }
  }

  /** An entry written is the entry read. */
  lemma EntRoundTrip(e: L.Dirent)
    requires 0 <= e.inum < 65536 && NameOk(e.name)
    ensures |EncodeEnt(e)| == DE && Bytes(EncodeEnt(e)) && DecodeEnt(EncodeEnt(e)) == e
    ensures var b := EncodeEnt(e);
            b[0] + 256 * b[1] == e.inum && forall j :: 2 <= j < DE ==>
                                             b[j] == if j < 2 + |e.name| then e.name[j - 2] as int else 0
  {
    var b := EncodeEnt(e);
    assert b[2..] == Padded(e.name);
    CutPadded(e.name, Padded(e.name), L.DIRSIZ);
  }

  // ----- A directory's bytes -----

  function EntBytes(x: seq<int>, k: int): seq<int> {
    if 0 <= k && DE * k + DE <= |x| then x[DE * k..DE * k + DE] else []
  }

  function Entries(x: seq<int>): seq<L.Dirent> {
    seq(|x| / DE, k => DecodeEnt(EntBytes(x, k)))
  }

  predicate WholeEnts(x: seq<int>) {
    |x| % DE == 0
  }

  function PutEnt(es: seq<L.Dirent>, k: int, e: L.Dirent): seq<L.Dirent> {
    if 0 <= k < |es| then es[k := e] else es + [e]
  }

  lemma EntAfter(x: seq<int>, k: int, b: seq<int>, x': seq<int>, j: int)
    requires WholeEnts(x) && 0 <= k <= |x| / DE && |b| == DE && x' == Overwrite(x, DE * k, b) && 0 <= j < |x'| / DE
    ensures EntBytes(x', j) == if j == k then b else EntBytes(x, j)
  {
    var y := EntBytes(x', j);
    assert |y| == DE;
    var z := if j == k then b else EntBytes(x, j);
    assert |x'| == Max(|x|, DE * k + DE);
    assert j != k ==> j < |x| / DE;
    forall i | 0 <= i < DE ensures y[i] == z[i] {
      OverwriteAt(x, DE * k, b, x', DE * j + i);
    }
  }

  /** Writing an entry's bytes at its place changes that entry of the list, or adds it at the end. */
  lemma EntriesPut(x: seq<int>, k: int, b: seq<int>, x': seq<int>)
    requires WholeEnts(x) && 0 <= k <= |x| / DE && |b| == DE && x' == Overwrite(x, DE * k, b)
    ensures WholeEnts(x') && Entries(x') == PutEnt(Entries(x), k, DecodeEnt(b))
  {
    assert |x'| == Max(|x|, DE * k + DE);
    var u, v := Entries(x'), PutEnt(Entries(x), k, DecodeEnt(b));
    assert |u| == |v|;
    forall j | 0 <= j < |u| ensures u[j] == v[j] {
      EntAfter(x, k, b, x', j);
    }
  }

  // ----- dirlookup, dirlink, isdirempty -----

  // The bytes of file d are the list of entries es.
  ghost predicate DirFile(fs: FileSystem, d: int, es: seq<L.Dirent>)
    reads fs
  {
    Clean(fs) && 0 <= d < |fs.inodes| && DirBytes(Content(fs.inodes, fs.disk, d), es)
  }

  ghost predicate DirBytes(x: seq<int>, es: seq<L.Dirent>) {
    WholeEnts(x) && es == Entries(x) && |x| <= MAXFILE * BSIZE
  }

  // In use, and namecmp finds the names equal.
  predicate Hit(e: L.Dirent, name: string) {
    e.inum != 0 && e.name == L.Short(name)
  }

  predicate Match(es: seq<L.Dirent>, j: int, name: string) {
    0 <= j < |es| && Hit(es[j], name)
  }

  ghost predicate NoMatch(es: seq<L.Dirent>, n: int, name: string) {
    forall j :: 0 <= j < n ==> !Match(es, j, name)
  }

  lemma NoMatchMore(es: seq<L.Dirent>, n: int, name: string)
    requires NoMatch(es, n, name) && 0 <= n < |es| && !Hit(es[n], name)
    ensures NoMatch(es, n + 1, name)
  {
  }

  method SizeOf(fs: FileSystem, d: int, ghost es: seq<L.Dirent>) returns (size: int)
    requires DirFile(fs, d, es)
    ensures size == DE * |es| <= MAXFILE * BSIZE
  {
    size := fs.inodes[d].size;
    assert Mapped(fs.inodes, fs.disk, d);
  }

  lemma ReadsEnt(x: seq<int>, es: seq<L.Dirent>, k: int, off: int)
    requires DirBytes(x, es) && 0 <= k < |es| && off == DE * k
    ensures 0 <= off < U32 && ReadResult(x, off, DE, DE) == (DE, EntBytes(x, k)) && |EntBytes(x, k)| == DE
            && DecodeEnt(EntBytes(x, k)) == es[k]
  {
    ReadResultIs(x, off, DE, DE, DE);
  }

  // readi of one entry; the panic when it comes up short is not met.
  method ReadEnt(fs: FileSystem, d: int, off: int, ghost k: int, ghost es: seq<L.Dirent>) returns (e: L.Dirent)
    requires DirFile(fs, d, es) && off == DE * k && 0 <= k < |es|
    modifies fs`disk, fs`inodes, fs`owner, fs`maps, fs`blocks, fs`metas, fs`marks
    ensures unchanged(fs) && DirFile(fs, d, es) && e == es[k]
  {
    ghost var x := Content(fs.inodes, fs.disk, d);
    ReadsEnt(x, es, k, off);
    var r, b := Readi(fs, d, off, DE, DE);
    assert r == DE && b == EntBytes(x, k);
    e := L.Dirent(b[0] + 256 * b[1], CutName(b[2..]));
  }

  // The first live entry with this name, or -1.
  method DirLookup(fs: FileSystem, d: int, name: string, ghost es: seq<L.Dirent>) returns (k: int)
    requires DirFile(fs, d, es)
    modifies fs`disk, fs`inodes, fs`owner, fs`maps, fs`blocks, fs`metas, fs`marks
    ensures unchanged(fs) && DirFile(fs, d, es)
    ensures if k == -1 then NoMatch(es, |es|, name) else Match(es, k, name) && NoMatch(es, k, name)
  {
    var size := SizeOf(fs, d, es);
    var off := 0;
    k := 0;
    while off < size
      invariant unchanged(fs) && DirFile(fs, d, es) && 0 <= k <= |es| && off == DE * k && NoMatch(es, k, name)
      decreases |es| - k
    {
      var e := ReadEnt(fs, d, off, k, es);
      if Hit(e, name) {
        return;
      }
      NoMatchMore(es, k, name);
      off, k := off + DE, k + 1;
    }
    k := -1;
  }

  // The first dead entry, or the end of the list.
  ghost predicate FirstDead(es: seq<L.Dirent>, k: int) {
    AllLive(es, k) && (k < |es| ==> es[k].inum == 0)
  }

  ghost predicate AllLive(es: seq<L.Dirent>, k: int) {
    0 <= k <= |es| && forall j :: 0 <= j < k ==> es[j].inum != 0
  }

  lemma LiveMore(es: seq<L.Dirent>, k: int)
    requires AllLive(es, k) && k < |es| && es[k].inum != 0
    ensures AllLive(es, k + 1)
  {
  }

  method FindDead(fs: FileSystem, d: int, ghost es: seq<L.Dirent>) returns (off: int, ghost k: int)
    requires DirFile(fs, d, es)
    modifies fs`disk, fs`inodes, fs`owner, fs`maps, fs`blocks, fs`metas, fs`marks
    ensures unchanged(fs) && DirFile(fs, d, es) && FirstDead(es, k) && off == DE * k
  {
    var size := SizeOf(fs, d, es);
    off, k := 0, 0;
    while off < size
      invariant unchanged(fs) && DirFile(fs, d, es) && off == DE * k && AllLive(es, k)
      decreases |es| - k
    {
      var e := ReadEnt(fs, d, off, k, es);
      if e.inum == 0 {
        return;
      }
      LiveMore(es, k);
      off, k := off + DE, k + 1;
    }
  }

  // An entry lies inside one block, so writei stores all of it or nothing.
  lemma AllOrNothing(k: int, off: int, r: int, w: int, size: int, full: bool)
    requires off == DE * k && Outcome(off, DE, DE, r, w, size, full)
    ensures (r == DE && w == DE) || (r == 0 && w == 0 && full && off >= size)
  {
  }

  lemma EntStored(x: seq<int>, es: seq<L.Dirent>, k: int, off: int, b: seq<int>, x': seq<int>, r: int)
    requires DirBytes(x, es) && 0 <= k <= |es| && off == DE * k && |b| == DE && (r == DE || r == 0)
    requires x' == Overwrite(x, off, b[..r])[..Max(|x|, off + r)] && off + DE <= MAXFILE * BSIZE
    ensures DirBytes(x', if r == DE then PutEnt(es, k, DecodeEnt(b)) else es)
  {
    if r == DE {
      assert b[..r] == b;
      assert Overwrite(x, off, b)[..Max(|x|, off + DE)] == Overwrite(x, off, b);
      EntriesPut(x, k, b, x');
    } else {
      assert b[..0] == [];
      assert Overwrite(x, off, [])[..|x|] == x;
    }
  }

  // writei of entry k.
  method WriteEnt(fs: FileSystem, d: int, off: int, ghost k: int, e: L.Dirent, ghost es: seq<L.Dirent>)
    returns (ok: bool)
    requires DirFile(fs, d, es) && off == DE * k && 0 <= k <= |es| && 0 <= e.inum < 65536 && NameOk(e.name)
    modifies fs`disk, fs`inodes, fs`owner, fs`maps, fs`blocks, fs`metas, fs`marks
    ensures DirFile(fs, d, if ok then PutEnt(es, k, e) else es)
            && OthersSame(old(fs.inodes), old(fs.disk), fs.inodes, fs.disk, d)
    ensures SameAttributes(fs.inodes[d], old(fs.inodes)[d])
    ensures !ok ==> k == |es| && (Full(fs.g, fs.disk) || DE * |es| + DE > MAXFILE * BSIZE)
    ensures old(NothingLogged(fs)) ==> FitsLog(fs, d)
  {
    ghost var x := Content(fs.inodes, fs.disk, d);
    EntRoundTrip(e);
    var b := EncodeEnt(e);
    ghost var w;
    var r;
    r, w := Writei(fs, d, off, b, DE);
    ok := r == DE;
    if r != -1 {
      AllOrNothing(k, off, r, w, |x|, Full(fs.g, fs.disk));
      EntStored(x, es, k, off, b, Content(fs.inodes, fs.disk, d), r);
    }
  }

  // ----- What the table of module Links stands for -----

  const T_DIR := 1
  const T_FILE := 2
  const T_DEVICE := 3

  function KindCode(kind: L.Kind): int {
    match kind
    case Free => 0
    case Dir => T_DIR
    case File => T_FILE
    case Device => T_DEVICE
  }

  // t lists the kinds and link counts of the inodes and what the directories on disk hold.
  ghost predicate Shows(fs: FileSystem, t: L.Table)
    reads fs
  {
    Clean(fs) && |t| == |fs.inodes| && AllShown(fs.inodes, fs.disk, t)
  }

  ghost predicate AllShown(inodes: Table, disk: Disk, t: L.Table) {
    && SameInodes(inodes, t)
    && forall d {:trigger L.IsDir(t, d)} :: L.IsDir(t, d) ==> DirBytes(Content(inodes, disk, d), t[d].ents)
  }

  ghost predicate SameInodes(inodes: Table, t: L.Table) {
    |t| == |inodes| && forall i :: 0 <= i < |t| ==> inodes[i].kind == KindCode(t[i].kind)
                                                    && inodes[i].nlink == t[i].nlink
  }

  lemma StillShown(inodes: Table, disk: Disk, inodes': Table, disk': Disk, t: L.Table, d: int, es: seq<L.Dirent>,
                   t': L.Table)
    requires AllShown(inodes, disk, t) && |t| == |inodes| && OthersSame(inodes, disk, inodes', disk', d)
             && L.IsDir(t, d)
    requires SameAttributes(inodes'[d], inodes[d]) && DirBytes(Content(inodes', disk', d), es)
             && t' == t[d := t[d].(ents := es)]
    ensures AllShown(inodes', disk', t')
  {
    forall j | L.IsDir(t', j) ensures DirBytes(Content(inodes', disk', j), t'[j].ents) {
      assert L.IsDir(t, j);
    }
  }

  predicate CString(name: string) {
    forall j :: 0 <= j < |name| ==> 0 < name[j] as int < 256
  }

  // dirlink: the entry is in the first dead slot, or the directory is as it was and the reason is told.
  method DirLink(fs: FileSystem, d: int, name: string, inum: int, ghost t: L.Table) returns (ok: bool, ghost k: int)
    requires Shows(fs, t) && L.IsDir(t, d) && 0 <= inum < 65536 && CString(name)
    modifies fs`disk, fs`inodes, fs`owner, fs`maps, fs`blocks, fs`metas, fs`marks
    ensures ok ==> Shows(fs, L.PutEntry(t, d, k, L.Dirent(inum, L.Short(name)))) && FirstDead(t[d].ents, k)
                   && NoMatch(t[d].ents, |t[d].ents|, name)
    ensures !ok ==> Shows(fs, t)
    ensures !ok ==> !NoMatch(t[d].ents, |t[d].ents|, name)
                    || (AllLive(t[d].ents, |t[d].ents|) && NoRoom(fs, |t[d].ents|))
  {
    ghost var es, inodes, disk := t[d].ents, fs.inodes, fs.disk;
    var at := DirLookup(fs, d, name, es);
    k := 0;
    if at != -1 {
      return false, k;
    }
    var off;
    off, k := FindDead(fs, d, es);
    var e := L.Dirent(inum, L.Short(name));
    ok := WriteEnt(fs, d, off, k, e, es);
    ghost var es' := if ok then PutEnt(es, k, e) else es;
    StillShown(inodes, disk, fs.inodes, fs.disk, t, d, es', t[d := t[d].(ents := es')]);
    assert t[d := t[d].(ents := es')] == if ok then L.PutEntry(t, d, k, e) else t;
  }

  // No block is left for one more entry, or the file is as large as a file can be.
  ghost predicate NoRoom(fs: FileSystem, n: int)
    reads fs
  {
    Full(fs.g, fs.disk) || DE * n + DE > MAXFILE * BSIZE
  }

  // sys_unlink's memset and writei: the entry is cleared, and the panic when writei fails is not met.
  method ClearEnt(fs: FileSystem, d: int, k: int, ghost t: L.Table)
    requires Shows(fs, t) && L.IsDir(t, d) && 0 <= k < |t[d].ents|
    modifies fs`disk, fs`inodes, fs`owner, fs`maps, fs`blocks, fs`metas, fs`marks
    ensures Shows(fs, L.PutEntry(t, d, k, L.NO_ENTRY))
  {
    ghost var es, inodes, disk := t[d].ents, fs.inodes, fs.disk;
    var off := DE * k;
    var ok := WriteEnt(fs, d, off, k, L.NO_ENTRY, es);
    assert ok;
    ghost var es' := PutEnt(es, k, L.NO_ENTRY);
    StillShown(inodes, disk, fs.inodes, fs.disk, t, d, es', t[d := t[d].(ents := es')]);
    assert t[d := t[d].(ents := es')] == L.PutEntry(t, d, k, L.NO_ENTRY);
  }

  ghost predicate AllDead(es: seq<L.Dirent>, from: nat, k: int) {
    forall j :: from <= j < k && j < |es| ==> es[j].inum == 0
  }

  lemma DeadMore(es: seq<L.Dirent>, from: nat, k: int)
    requires AllDead(es, from, k) && 0 <= k < |es| && es[k].inum == 0
    ensures AllDead(es, from, k + 1)
  {
  }

  lemma EmptyIs(t: L.Table, d: int)
    requires L.IsDir(t, d)
    ensures L.IsEmptyDir(t, d) <==> AllDead(t[d].ents, 2, |t[d].ents|)
  {
    if !AllDead(t[d].ents, 2, |t[d].ents|) {
      var j :| 2 <= j < |t[d].ents| && t[d].ents[j].inum != 0;
      assert L.Live(t, d, j);
    }
  }

  // isdirempty: no entry after the first two is in use.
  method IsDirEmpty(fs: FileSystem, d: int, ghost t: L.Table) returns (empty: bool)
    requires Shows(fs, t) && L.IsDir(t, d)
    modifies fs`disk, fs`inodes, fs`owner, fs`maps, fs`blocks, fs`metas, fs`marks
    ensures unchanged(fs) && (empty <==> L.IsEmptyDir(t, d))
  {
    ghost var es := t[d].ents;
    EmptyIs(t, d);
    var size := SizeOf(fs, d, es);
    var off := 2 * DE;
    ghost var k := 2;
    while off < size
      invariant unchanged(fs) && DirFile(fs, d, es) && 2 <= k && off == DE * k && AllDead(es, 2, k)
      decreases |es| - k
    {
      var e := ReadEnt(fs, d, off, k, es);
      if e.inum != 0 {
        assert L.Live(t, d, k);
        return false;
      }
      DeadMore(es, 2, k);
      off, k := off + DE, k + 1;
    }
    empty := true;
  }
}
