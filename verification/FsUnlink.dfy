/** sys_unlink on disk: the directory's bytes and the inodes follow the table of module Links. */
module FsUnlink {
  import opened FsLayout
  import opened FsMap
  import opened Fs
  import opened FsFile
  import opened FsDir
  import L = Links
  import C = LinkCalls

  function SetNlink(t: Table, i: int, n: int): Table {
    if 0 <= i < |t| then t[i := t[i].(nlink := n)] else t
  }

  // A link count has no part in blocks and bytes.
  lemma SetNlinkEffect(g: Super, t: Table, d: Disk, o: Owner, i: int, n: int, t': Table)
    requires TableOk(g, t) && Own(g, t, d, o) && 0 <= i < |t| && IsShort(n) && t' == SetNlink(t, i, n)
    ensures TableOk(g, t') && Own(g, t', d, o) && forall j, bn :: BlockOf(t', d, j, bn) == BlockOf(t, d, j, bn)
  {
    forall s ensures Addr(t', d, s) == Addr(t, d, s) {
    }
    KeepStep(g, t, d, o, t', d);
  }

  lemma CountedSame(t: Table, d: Disk, t': Table, d': Disk, i: int, n: int, j: int)
    requires t' == SetNlink(t, i, n) && 0 <= j < |t| && Mapped(t, d, j) && SameFile(t', d, t', d', j)
    requires forall bn :: BlockOf(t', d, j, bn) == BlockOf(t, d, j, bn)
    ensures Mapped(t', d', j) && Content(t', d', j) == Content(t, d, j)
  {
    assert Mapped(t', d, j);
    SameContent(t', d, t', d', j);
    assert Content(t', d, j) == Content(t, d, j);
  }

  // ip->nlink changed by n, and iupdate.
  method AddNlink(fs: FileSystem, i: int, n: int, ghost t: L.Table)
    requires Shows(fs, t) && 0 <= i < |t| && IsShort(t[i].nlink + n)
    modifies fs`disk, fs`inodes, fs`owner, fs`maps, fs`blocks, fs`metas, fs`marks
    ensures Shows(fs, L.AddLinks(t, i, n))
  {
    ghost var t0, d0 := fs.inodes, fs.disk;
    fs.inodes := fs.inodes[i := fs.inodes[i].(nlink := fs.inodes[i].nlink + n)];
    ghost var t1, v := fs.inodes, t0[i].nlink + n;
    SetNlinkEffect(fs.g, t0, d0, fs.owner, i, v, t1);
    fs.Iupdate(i);
    forall j | 0 <= j < |t1| ensures Mapped(t1, fs.disk, j) && Content(t1, fs.disk, j) == Content(t0, d0, j) {
      assert Mapped(t0, d0, j) && SameFile(t1, d0, t1, fs.disk, j);
      CountedSame(t0, d0, t1, fs.disk, i, v, j);
    }
    CountShown(t0, d0, t1, fs.disk, t, i, n);
  }

  lemma CountShown(inodes: Table, disk: Disk, inodes': Table, disk': Disk, t: L.Table, i: int, n: int)
    requires AllShown(inodes, disk, t) && 0 <= i < |t| && inodes' == SetNlink(inodes, i, inodes[i].nlink + n)
    requires forall j :: 0 <= j < |inodes| ==> Content(inodes', disk', j) == Content(inodes, disk, j)
    ensures AllShown(inodes', disk', L.AddLinks(t, i, n))
  {
    var t' := L.AddLinks(t, i, n);
    forall d | L.IsDir(t', d) ensures DirBytes(Content(inodes', disk', d), t'[d].ents) {
      assert L.IsDir(t, d);
    }
  }

  /** sys_unlink of name in directory dp, on the bytes: as the table says, with its invariant kept, or nothing changed
      and the reason holds. */
  method Unlink(fs: FileSystem, dp: int, name: string, ghost t: L.Table, ghost pending: multiset<int>,
                ghost held: multiset<int>)
    returns (ok: bool, ghost k: int)
    requires Shows(fs, t) && L.Inv(t, pending, held) && C.InRange(t) && L.IsDir(t, dp)
    modifies fs`disk, fs`inodes, fs`owner, fs`maps, fs`blocks, fs`metas, fs`marks
    ensures !ok ==> Shows(fs, t)
    ensures !ok ==> L.Short(name) == "." || L.Short(name) == ".." || C.Absent(t, dp, name)
                    || !C.EmptyTarget(t, dp, name)
    ensures ok ==> C.FoundAt(t, dp, name, k) && Shows(fs, C.Unlinked(t, dp, k))
                   && L.Inv(C.Unlinked(t, dp, k), pending, held)
  {
    k := -1;
    if L.Short(name) == "." || L.Short(name) == ".." {
      return false, k;
    }
    ghost var es := t[dp].ents;
    var at := DirLookup(fs, dp, name, es);
    k := at;
    LookupIs(t, dp, name, at);
    if at == -1 {
      return false, k;
    }
    C.TargetIs(t, pending, held, dp, name, at);
    var e := ReadEnt(fs, dp, DE * at, at, es);
    var i := e.inum;
    var isDir := fs.inodes[i].kind == T_DIR;
    if isDir {
      var empty := IsDirEmpty(fs, i, t);
      if !empty {
        return false, k;
      }
    }
    C.UnlinkedKeeps(t, pending, held, dp, name, at);
    Remove(fs, dp, at, i, isDir, t);
    ok := true;
  }

  // The bytes' lookup is the list's.
  lemma LookupIs(t: L.Table, d: int, name: string, k: int)
    requires L.IsDir(t, d) && if k == -1 then NoMatch(t[d].ents, |t[d].ents|, name) else Match(t[d].ents, k, name)
    ensures if k == -1 then C.Absent(t, d, name) else C.FoundAt(t, d, name, k)
  {
    if k == -1 {
      forall j ensures !C.FoundAt(t, d, name, j) {
        assert 0 <= j < |t[d].ents| ==> !Match(t[d].ents, j, name);
      }
    }
  }

  // The entry cleared and the counts lowered, in the source's order.
  method Remove(fs: FileSystem, dp: int, k: int, i: int, isDir: bool, ghost t: L.Table)
    requires Shows(fs, t) && L.IsDir(t, dp) && 0 <= k < |t[dp].ents| && L.EntAt(t, dp, k).inum == i && 0 <= i < |t|
    requires isDir == L.IsDir(t, i) && C.InRange(t) && C.InRange(C.Unlinked(t, dp, k)) && (isDir ==> i != dp)
    modifies fs`disk, fs`inodes, fs`owner, fs`maps, fs`blocks, fs`metas, fs`marks
    ensures Shows(fs, C.Unlinked(t, dp, k))
  {
    ClearEnt(fs, dp, k, t);
    ghost var u := L.PutEntry(t, dp, k, L.NO_ENTRY);
    L.PutEffect(t, dp, k, L.NO_ENTRY, u);
    if isDir {
      assert C.Unlinked(t, dp, k)[dp].nlink == t[dp].nlink - 1;
      AddNlink(fs, dp, -1, u);
      u := L.AddLinks(u, dp, -1);
    }
    assert C.Unlinked(t, dp, k)[i].nlink == u[i].nlink - 1;
    AddNlink(fs, i, -1, u);
  }
}
