/** The system calls that change the name space, each critical section a method. */
module LinkCalls {
  import opened Links

  // Counts stay within a short.
  ghost predicate InRange(t: Table) {
    forall i :: 0 <= i < |t| ==> 0 <= t[i].nlink <= NLINK_MAX
  }

  // Entry k is the one with this name.
  ghost predicate FoundAt(t: Table, d: int, name: string, k: int) {
    Live(t, d, k) && EntAt(t, d, k).name == Short(name)
  }

  ghost predicate Absent(t: Table, d: int, name: string) {
    forall k :: !FoundAt(t, d, name, k)
  }

  // The first slot of d that is not in use; the end of the list if all are.
  ghost predicate FirstDead(t: Table, d: int, k: int) {
    IsDir(t, d) && 0 <= k <= |t[d].ents| && !Live(t, d, k) && forall j :: 0 <= j < k ==> Live(t, d, j)
  }

  // Every slot is in use and the directory cannot grow.
  ghost predicate NoSlot(t: Table, d: int, room: bool) {
    IsDir(t, d) && !room && forall j :: 0 <= j < |t[d].ents| ==> Live(t, d, j)
  }

  ghost predicate FirstFree(t: Table, i: int) {
    0 < i < |t| && t[i].kind == Free && forall j :: 0 < j < i ==> t[j].kind != Free
  }

  ghost predicate NoneFree(t: Table) {
    forall j :: 0 < j < |t| ==> t[j].kind != Free
  }

  // Entry k of d is gone and what it named counts one less; so does d if that was a directory.
  function Unlinked(t: Table, d: int, k: int): Table {
    var i := EntAt(t, d, k).inum;
    var u := PutEntry(t, d, k, NO_ENTRY);
    AddLinks(if IsDir(t, i) then AddLinks(u, d, -1) else u, i, -1)
  }

  // Inode i is new, of this kind, and entry k of d names it; a new directory has its two entries and d counts one more.
  function Created(t: Table, d: int, k: int, i: int, name: string, kind: Kind): Table {
    if !(0 <= i < |t|) then t
    else if kind == Dir then AddLinks(PutEntry(t[i := NewDir(i, d)], d, k, Dirent(i, Short(name))), d, 1)
    else PutEntry(t[i := Ino(kind, 1, [])], d, k, Dirent(i, Short(name)))
  }

  // The name is there already, and open may use what it names.
  ghost predicate Reusable(t: Table, d: int, name: string, kind: Kind) {
    exists k :: FoundAt(t, d, name, k) && kind == File && 0 <= EntAt(t, d, k).inum < |t|
                && (t[EntAt(t, d, k).inum].kind == File || t[EntAt(t, d, k).inum].kind == Device)
  }

  // Why create fails: an unlinked directory, a count that is full, a name that is taken, no inode, no slot.
  ghost predicate CannotCreate(t: Table, d: int, name: string, kind: Kind, room: bool, roomNew: bool) {
    || !Linked(t, d) || (kind == Dir && t[d].nlink >= NLINK_MAX) || (!Absent(t, d, name) && !Reusable(t, d, name, kind))
    || NoneFree(t) || NoSlot(t, d, room) || (kind == Dir && !roomNew)
  }

  class NameSpace {
    var t: Table                 // inodes, with directories as lists of entries
    ghost var pending: multiset<int>
    var held: multiset<int>      // ip->ref: in-memory references

    ghost predicate Valid()
      reads this
    {
      Inv(t, pending, held) && InRange(t)
    }

    // A file system with n inodes and an empty root directory.
    constructor (n: int)
      requires n > ROOTINO
      ensures Valid() && |t| == n && held == multiset{}
    {
      t := seq(n, i => if i == ROOTINO then NewDir(ROOTINO, ROOTINO) else NO_INODE);
      pending, held := multiset{}, multiset{};
      new;
      RootOnly(t);
    }

    // The first entry of directory d with this name: its slot, or -1.
    method DirLookup(d: int, name: string) returns (k: int)
      requires IsDir(t, d)
      ensures k == -1 <==> Absent(t, d, name)
      ensures k != -1 ==> FoundAt(t, d, name, k) && forall j :: 0 <= j < k ==> !FoundAt(t, d, name, j)
    {
      k := 0;
      while k < |t[d].ents|
        invariant 0 <= k <= |t[d].ents|
        invariant forall j :: 0 <= j < k ==> !FoundAt(t, d, name, j)
      {
        if t[d].ents[k].inum != 0 && Short(name) == t[d].ents[k].name {
          assert FoundAt(t, d, name, k);
          return;
        }
        k := k + 1;
      }
      assert forall j :: !FoundAt(t, d, name, j);
      return -1;
    }

    // Write a new entry in the first free slot of d; room says whether the directory can grow.
    method DirLink(d: int, name: string, inum: int, room: bool) returns (ok: bool, ghost k: int)
      requires IsDir(t, d)
      modifies `t
      ensures !ok ==> t == old(t) && (!Absent(t, d, name) || NoSlot(t, d, room))
      ensures ok ==> Absent(old(t), d, name) && FirstDead(old(t), d, k) && (k < |old(t)[d].ents| || room)
      ensures ok ==> t == PutEntry(old(t), d, k, Dirent(inum, Short(name)))
      ensures |t| == |old(t)| && forall j :: 0 <= j < |t| && j != d ==> t[j] == old(t)[j]
      ensures ok ==> t[d].kind == Dir && t[d].nlink == old(t)[d].nlink && EntAt(t, d, k) == Dirent(inum, Short(name))
      ensures ok ==> forall j :: j != k ==> EntAt(t, d, j) == EntAt(old(t), d, j)
    {
      var at := DirLookup(d, name);
      if at != -1 {
        return false, -1;
      }
      var off := 0;
      while off < |t[d].ents| && t[d].ents[off].inum != 0
        invariant 0 <= off <= |t[d].ents| && forall j :: 0 <= j < off ==> Live(t, d, j)
      {
        off := off + 1;
      }
      if off == |t[d].ents| && !room {
        return false, -1;
      }
      k := off;
      var e := Dirent(inum, Short(name));
      if off < |t[d].ents| {
        t := t[d := t[d].(ents := t[d].ents[off := e])];
      } else {
        t := t[d := t[d].(ents := t[d].ents + [e])];
      }
      ok := true;
    }

    // No live entry after the first two.
    method IsDirEmpty(d: int) returns (empty: bool)
      requires IsDir(t, d)
      ensures empty <==> IsEmptyDir(t, d)
    {
      var off := 2;
      while off < |t[d].ents|
        invariant 2 <= off && forall k :: 2 <= k < off ==> !Live(t, d, k)
      {
        if t[d].ents[off].inum != 0 {
          assert Live(t, d, off);
          return false;
        }
        off := off + 1;
      }
      empty := true;
    }

    // The first free inode, or 0.
    method Ialloc() returns (i: int)
      requires |t| > 0
      ensures i == 0 <==> NoneFree(t)
      ensures i != 0 ==> FirstFree(t, i)
    {
      i := 1;
      while i < |t|
        invariant 1 <= i <= |t| && forall j :: 0 < j < i ==> t[j].kind != Free
      {
        if t[i].kind == Free {
          return;
        }
        i := i + 1;
      }
      return 0;
    }

    // sys_link, first half: count the link that is to come.
    method LinkBegin(i: int) returns (ok: bool)
      requires Valid() && 0 < i < |t| && t[i].kind != Free && pending[i] < held[i]
      modifies `t, `pending
      ensures Valid() && (ok <==> old(t)[i].kind != Dir && old(t)[i].nlink < NLINK_MAX)
      ensures !ok ==> t == old(t) && pending == old(pending)
      ensures ok ==> t == AddLinks(old(t), i, 1) && pending == old(pending) + multiset{i}
      ensures ok ==> t == old(t)[i := old(t)[i].(nlink := old(t)[i].nlink + 1)]
    {
      if t[i].kind == Dir {
        return false;
      }
      if t[i].nlink >= NLINK_MAX {
        return false;
      }
      var t' := t[i := t[i].(nlink := t[i].nlink + 1)];
      CountStep(t, pending, held, i, 1, t', pending + multiset{i});
      t, pending := t', pending + multiset{i};
      ok := true;
    }

    // sys_link, second half: the entry in dp, or the count taken back.  dp is -1 if its path led nowhere.
    method LinkEnd(i: int, dp: int, name: string, room: bool) returns (ok: bool, ghost k: int)
      requires Valid() && i in pending && (dp == -1 || IsDir(t, dp))
      modifies `t, `pending
      ensures Valid() && pending == old(pending) - multiset{i}
      ensures |t| == |old(t)| && 0 < i < |t|
      ensures ok ==> Linked(old(t), dp) && Absent(old(t), dp, name) && !Absent(t, dp, name) && FirstDead(old(t), dp, k)
      ensures ok ==> t == PutEntry(old(t), dp, k, Dirent(i, Short(name)))
      ensures ok ==> t == old(t)[dp := t[dp]] && t[dp].kind == Dir && t[dp].nlink == old(t)[dp].nlink
      ensures ok ==> forall j :: EntAt(t, dp, j) == if j == k then Dirent(i, Short(name)) else EntAt(old(t), dp, j)
      ensures !ok ==> t == AddLinks(old(t), i, -1) && t == old(t)[i := old(t)[i].(nlink := old(t)[i].nlink - 1)]
      ensures !ok ==> dp == -1 || old(t)[dp].nlink == 0 || !Absent(old(t), dp, name) || NoSlot(old(t), dp, room)
    {
      assert CountsAt(t, pending, i);
      ok, k := false, -1;
      if dp != -1 && t[dp].nlink != 0 {
        assert DirOk(t, dp);
        ok, k := DirLink(dp, name, i, room);
        if ok {
          ghost var e := Dirent(i, Short(name));
          SlotFits(old(t), dp, k, name, i);
          LinkStep(old(t), pending, held, dp, k, e, t, pending - multiset{i});
          PutEffect(old(t), dp, k, e, t);
          assert FoundAt(t, dp, name, k);
          pending := pending - multiset{i};
          return;
        }
      }
      var t' := t[i := t[i].(nlink := t[i].nlink - 1)];
      CountStep(t, pending, held, i, -1, t', pending - multiset{i});
      StillCounted(t, pending, held, i);
      t, pending := t', pending - multiset{i};
    }

    // sys_unlink of name in directory dp.
    method Unlink(dp: int, name: string) returns (ok: bool, ghost at: int)
      requires Valid() && IsDir(t, dp)
      modifies `t
      ensures Valid()
      ensures !ok ==> t == old(t)
      ensures !ok ==> Short(name) == "." || Short(name) == ".." || Absent(t, dp, name) || !EmptyTarget(t, dp, name)
      ensures ok ==> Linked(old(t), dp) && Absent(t, dp, name) && FoundAt(old(t), dp, name, at)
                     && t == Unlinked(old(t), dp, at)
      ensures ok ==> |t| == |old(t)| && EntAt(t, dp, at) == NO_ENTRY && t[dp].kind == Dir
      ensures ok ==> forall k :: k != at ==> EntAt(t, dp, k) == EntAt(old(t), dp, k)
      ensures ok ==> var i := EntAt(old(t), dp, at).inum;
              && 0 < i < |t| && i != dp && t[i] == old(t)[i].(nlink := old(t)[i].nlink - 1)
              && t[dp].nlink == old(t)[dp].nlink - (if old(t)[i].kind == Dir then 1 else 0)
              && forall j :: 0 <= j < |t| && j != i && j != dp ==> t[j] == old(t)[j]
    {
      at := -1;
      if Short(name) == "." || Short(name) == ".." {
        return false, at;
      }
      var k := DirLookup(dp, name);
      at := k;
      if k == -1 {
        return false, at;
      }
      var i := t[dp].ents[k].inum;
      TargetIs(t, pending, held, dp, name, k);
      if t[i].kind == Dir {
        var empty := IsDirEmpty(i);
        if !empty {
          return false, at;
        }
      }
      assert DirOk(t, dp);
      ghost var t0 := t;
      if t[i].kind == Dir {
        RemoveDir(dp, k, i);
      } else {
        RemoveFile(dp, k, i);
      }
      GoneIs(t0, t, dp, name, k);
      UnlinkedIs(t0, dp, k);
      ok := true;
    }

    // Clear the entry of an empty directory i, and count it out on both sides.
    method RemoveDir(dp: int, k: int, i: int)
      requires Valid() && Linked(t, dp) && 2 <= k < |t[dp].ents| && EntAt(t, dp, k).inum == i && IsDir(t, i)
               && IsEmptyDir(t, i)
      modifies `t
      ensures Valid() && OneEntry(old(t), t, dp, k, NO_ENTRY) && t[i].nlink == 0 && t == Unlinked(old(t), dp, k)
    {
      ghost var t0 := t;
      OnlyPlace(t, pending, held, dp, k, i);
      ParentHasMore(t, pending, held, dp, i);
      t := t[dp := t[dp].(ents := t[dp].ents[k := NO_ENTRY])];
      ghost var t1 := t;
      t := t[dp := t[dp].(nlink := t[dp].nlink - 1)];
      ghost var t2 := t;
      t := t[i := t[i].(nlink := t[i].nlink - 1)];
      RmdirIs(t0, dp, k, i, t1, t2, t);
      RmdirStep(t0, pending, held, t, dp, k, i);
    }

    // Clear an entry of file i, and count it out.
    method RemoveFile(dp: int, k: int, i: int)
      requires Valid() && 0 <= dp < |t| && 0 <= k < |t[dp].ents| && Fits(t, dp, k, NO_ENTRY) && Names(t, dp, k, i)
      requires 0 < i < |t| && !IsDir(t, i) && t[i].nlink >= 1
      modifies `t
      ensures Valid() && OneEntry(old(t), t, dp, k, NO_ENTRY) && t == Unlinked(old(t), dp, k)
    {
      ghost var t0 := t;
      t := t[dp := t[dp].(ents := t[dp].ents[k := NO_ENTRY])];
      ghost var t1 := t;
      t := t[i := t[i].(nlink := t[i].nlink - 1)];
      UnlinkStep(t0, pending, held, dp, k, i, t1, t);
    }

    // create: a new inode of this kind under name in dp, or the file that is there.  room and roomNew say
    // whether dp and a new directory can take entries.
    method Create(dp: int, name: string, kind: Kind, room: bool, roomNew: bool) returns (i: int, ghost at: int)
      requires Valid() && IsDir(t, dp) && kind != Free
      modifies `t, `held
      ensures Valid() && |t| == |old(t)| && 0 <= i < |t|
      ensures i == 0 ==> t == old(t) && held == old(held) && CannotCreate(old(t), dp, name, kind, room, roomNew)
      ensures i != 0 ==> Linked(old(t), dp) && held == old(held) + multiset{i}
      ensures i != 0 && !Absent(old(t), dp, name) ==>
        t == old(t) && kind == File && FoundAt(t, dp, name, at) && EntAt(t, dp, at).inum == i
          && (t[i].kind == File || t[i].kind == Device)
      ensures i != 0 && Absent(old(t), dp, name) ==>
        FirstFree(old(t), i) && FirstDead(old(t), dp, at) && t == Created(old(t), dp, at, i, name, kind)
          && FoundAt(t, dp, name, at)
      ensures i != 0 && Absent(old(t), dp, name) ==>
        && t[i].kind == kind && t[i].nlink == 1 && i != dp
        && t[i].ents == (if kind == Dir then [Dirent(i, "."), Dirent(dp, "..")] else [])
        && t[dp].kind == Dir && t[dp].nlink == old(t)[dp].nlink + (if kind == Dir then 1 else 0)
        && (forall k :: EntAt(t, dp, k) == if k == at then Dirent(i, Short(name)) else EntAt(old(t), dp, k))
        && forall j :: 0 <= j < |t| && j != i && j != dp ==> t[j] == old(t)[j]
    {
      at := -1;
      assert DirOk(t, dp);
      if t[dp].nlink == 0 {
        return 0, at;
      }
      if kind == Dir && t[dp].nlink >= NLINK_MAX {
        return 0, at;
      }
      var k := DirLookup(dp, name);
      at := k;
      if k != -1 {
        i := t[dp].ents[k].inum;
        LookupFindsLinked(t, pending, held, dp, k);
        if kind == File && (t[i].kind == File || t[i].kind == Device) {
          HoldMore(t, pending, held, i);
          held := held + multiset{i};
          return;
        }
        OneReading(t, dp, name, kind, k);
        return 0, at;
      }
      i := Ialloc();
      if i == 0 {
        return;
      }
      var ok;
      if kind == Dir {
        ok, at := MakeDir(dp, name, i, room, roomNew);
      } else {
        ok, at := MakeFile(dp, name, i, kind, room);
      }
      if !ok {
        return 0, at;
      }
      CreatedIs(old(t), dp, at, i, name, kind);
      HoldMore(t, pending, held, i);
      held := held + multiset{i};
    }

    // A file or device: one entry in dp, or the inode given up.
    method MakeFile(dp: int, name: string, i: int, kind: Kind, room: bool) returns (ok: bool, ghost k: int)
      requires Valid() && Linked(t, dp) && Absent(t, dp, name) && 0 < i < |t| && t[i].kind == Free && kind != Free
               && kind != Dir
      modifies `t
      ensures Valid() && |t| == |old(t)| && (!ok ==> t == old(t) && NoSlot(t, dp, room))
      ensures ok ==> FirstDead(old(t), dp, k) && t == Created(old(t), dp, k, i, name, kind) && FoundAt(t, dp, name, k)
    {
      assert DirOk(t, dp);
      ghost var t0, x := t, Ino(kind, 1, []);
      t := t[i := Ino(kind, 1, [])];
      ghost var t1 := t;
      assert SameAt(t0, t1, dp);
      SameLookup(t0, t1, dp, name);
      ok, k := DirLink(dp, name, i, room);
      SameSlots(t0, t1, dp, k, room);
      if !ok {
        // nlink = 0, and the last reference is put: the inode is free again
        t := t[i := NO_INODE];
        assert t == t0 by { WasEmpty(t0, pending, held, i); }
        return;
      }
      ghost var e := Dirent(i, Short(name));
      SlotFits(t0, dp, k, name, i);
      CreateStep(t0, pending, held, dp, k, e, x, t1, t);
      PutEffect(t1, dp, k, e, t);
      assert FoundAt(t, dp, name, k);
    }

    // A directory: its two entries, its entry in dp, and dp's count for its "..".
    method MakeDir(dp: int, name: string, i: int, room: bool, roomNew: bool) returns (ok: bool, ghost k: int)
      requires Valid() && Linked(t, dp) && Absent(t, dp, name) && 0 < i < |t| && t[i].kind == Free
               && t[dp].nlink < NLINK_MAX
      modifies `t
      ensures Valid() && |t| == |old(t)| && (!ok ==> t == old(t) && (NoSlot(t, dp, room) || !roomNew))
      ensures ok ==> FirstDead(old(t), dp, k) && t == Created(old(t), dp, k, i, name, Dir) && FoundAt(t, dp, name, k)
    {
      assert DirOk(t, dp);
      ghost var t0 := t;
      t := t[i := Ino(Dir, 1, [])];
      if !roomNew {
        t := t[i := NO_INODE];
        assert t == t0 by { WasEmpty(t0, pending, held, i); }
        return false, -1;
      }
      t := t[i := t[i].(ents := [Dirent(i, "."), Dirent(dp, "..")])];
      ghost var t1 := t;
      assert SameAt(t0, t1, dp) && t1 == t0[i := NewDir(i, dp)];
      SameLookup(t0, t1, dp, name);
      ok, k := DirLink(dp, name, i, room);
      SameSlots(t0, t1, dp, k, room);
      if !ok {
        t := t[i := NO_INODE];
        assert t == t0 by { WasEmpty(t0, pending, held, i); }
        return;
      }
      ghost var t2, e := t, Dirent(i, Short(name));
      t := t[dp := t[dp].(nlink := t[dp].nlink + 1)];
      SlotFits(t0, dp, k, name, i);
      MkdirIs(t0, dp, k, e, t1, t2, t);
      MkdirStep(t0, pending, held, t, dp, k, e);
      assert FoundAt(t, dp, name, k);
    }

    // idup, or the reference a lookup takes.
    method Get(i: int)
      requires Valid() && 0 < i < |t| && t[i].kind != Free
      modifies `held
      ensures Valid() && held == old(held) + multiset{i}
    {
      HoldMore(t, pending, held, i);
      held := held + multiset{i};
    }

    // iput: drop a reference; the last one of an unlinked inode frees it.
    method Put(i: int)
      requires Valid() && 0 < i < |t| && pending[i] < held[i] && t[i].kind != Free
      modifies `t, `held
      ensures Valid() && held == old(held) - multiset{i}
      ensures t == if old(held)[i] == 1 && old(t)[i].nlink == 0 then old(t)[i := NO_INODE] else old(t)
    {
      var last := held[i] == 1 && t[i].nlink == 0;
      held := held - multiset{i};
      assert PendingOk(t, pending, held);
      if last {
        FreeStep(t, pending, held, i, t[i := NO_INODE]);
        t := t[i := NO_INODE];
      }
    }

    // ireclaim at boot, no reference held: the inodes a crash left unlinked are freed.
    method Ireclaim()
      requires Valid() && held == multiset{} && pending == multiset{}
      modifies `t
      ensures Valid() && |t| == |old(t)| && forall i :: 0 < i < |t| ==> t[i].kind != Free ==> t[i].nlink > 0
      ensures forall i :: 0 < i < |t| ==> t[i] == if old(t)[i].nlink == 0 then NO_INODE else old(t)[i]
    {
      var i := 1;
      while i < |t|
        invariant 1 <= i && Valid() && |t| == |old(t)|
        invariant forall j :: 0 < j < i && j < |t| ==> t[j] == if old(t)[j].nlink == 0 then NO_INODE else old(t)[j]
        invariant forall j :: i <= j < |t| ==> t[j] == old(t)[j]
      {
        if t[i].kind != Free && t[i].nlink == 0 {
          FreeStep(t, pending, held, i, t[i := NO_INODE]);
          t := t[i := NO_INODE];
        }
        i := i + 1;
      }
    }
  }

  // Created, place by place.
  lemma CreatedIs(t: Table, d: int, k: int, i: int, name: string, kind: Kind)
    requires FirstDead(t, d, k) && FirstFree(t, i)
    ensures var t' := Created(t, d, k, i, name, kind);
            && |t'| == |t| && t'[i].kind == kind && t'[i].nlink == 1 && i != d
            && t'[i].ents == (if kind == Dir then [Dirent(i, "."), Dirent(d, "..")] else [])
            && t'[d].kind == Dir && t'[d].nlink == t[d].nlink + (if kind == Dir then 1 else 0)
            && (forall j :: EntAt(t', d, j) == if j == k then Dirent(i, Short(name)) else EntAt(t, d, j))
            && forall j :: 0 <= j < |t| && j != i && j != d ==> t'[j] == t[j]
  {
  }

  // Unlinked, place by place.
  lemma UnlinkedIs(t: Table, d: int, k: int)
    requires IsDir(t, d) && 0 <= k < |t[d].ents| && 0 < EntAt(t, d, k).inum < |t| && EntAt(t, d, k).inum != d
    ensures var t', i := Unlinked(t, d, k), EntAt(t, d, k).inum;
            && |t'| == |t| && EntAt(t', d, k) == NO_ENTRY && t'[d].kind == Dir
            && (forall j :: j != k ==> EntAt(t', d, j) == EntAt(t, d, j))
            && t'[i] == t[i].(nlink := t[i].nlink - 1)
            && t'[d].nlink == t[d].nlink - (if IsDir(t, i) then 1 else 0)
            && forall j :: 0 <= j < |t| && j != i && j != d ==> t'[j] == t[j]
  {
  }

  // The entry found is no directory, or one without entries of its own.
  ghost predicate EmptyTarget(t: Table, d: int, name: string) {
    forall k :: FoundAt(t, d, name, k) && IsDir(t, EntAt(t, d, k).inum) ==> IsEmptyDir(t, EntAt(t, d, k).inum)
  }

  lemma SlotFits(t: Table, d: int, k: int, name: string, i: int)
    requires DirOk(t, d) && Linked(t, d) && Absent(t, d, name) && 0 <= k && !Live(t, d, k) && 0 < i < |t|
    ensures Fits(t, d, k, Dirent(i, Short(name))) && EntAt(t, d, k).name != "."
  {
    assert Live(t, d, 0) && Live(t, d, 1) && EntAt(t, d, 0).name == "." && EntAt(t, d, 1).name == "..";
    assert !FoundAt(t, d, name, 0) && !FoundAt(t, d, name, 1);
    forall j | Live(t, d, j) ensures EntAt(t, d, j).name != Short(name) {
      assert !FoundAt(t, d, name, j);
    }
  }

  lemma StillCounted(t: Table, p: multiset<int>, held: multiset<int>, i: int)
    requires Inv(t, p, held) && i in p
    ensures 0 < i < |t| && t[i].nlink >= 1
  {
    assert CountsAt(t, p, i);
  }

  // What sys_unlink finds: a later entry of a linked directory, naming a linked inode.
  lemma TargetIs(t: Table, p: multiset<int>, held: multiset<int>, d: int, name: string, k: int)
    requires Inv(t, p, held) && InRange(t) && IsDir(t, d) && FoundAt(t, d, name, k) && Short(name) != "."
             && Short(name) != ".."
    ensures Linked(t, d) && k >= 2 && Fits(t, d, k, NO_ENTRY)
    ensures var i := EntAt(t, d, k).inum; 0 < i < |t| && Names(t, d, k, i) && t[i].kind != Free && t[i].nlink >= 1
  {
    assert DirOk(t, d);
    assert EntAt(t, d, 0).name == "." && EntAt(t, d, 1).name == "..";
    LookupFindsLinked(t, p, held, d, k);
  }

  /** What sys_unlink does to the table keeps counts, names and tree. */
  lemma UnlinkedKeeps(t: Table, p: multiset<int>, held: multiset<int>, d: int, name: string, k: int)
    requires Inv(t, p, held) && InRange(t) && IsDir(t, d) && FoundAt(t, d, name, k) && Short(name) != "."
             && Short(name) != ".."
    requires IsDir(t, EntAt(t, d, k).inum) ==> IsEmptyDir(t, EntAt(t, d, k).inum)
    ensures Inv(Unlinked(t, d, k), p, held) && InRange(Unlinked(t, d, k))
  {
    TargetIs(t, p, held, d, name, k);
    var i, t1 := EntAt(t, d, k).inum, PutEntry(t, d, k, NO_ENTRY);
    if IsDir(t, i) {
      OnlyPlace(t, p, held, d, k, i);
      ParentHasMore(t, p, held, d, i);
      var t2 := AddLinks(t1, d, -1);
      RmdirIs(t, d, k, i, t1, t2, Unlinked(t, d, k));
      RmdirStep(t, p, held, Unlinked(t, d, k), d, k, i);
    } else {
      UnlinkStep(t, p, held, d, k, i, t1, Unlinked(t, d, k));
    }
  }

  lemma GoneIs(t: Table, t': Table, d: int, name: string, k: int)
    requires DirOk(t, d) && FoundAt(t, d, name, k)
    requires forall y :: EntAt(t', d, y) == if y == k then NO_ENTRY else EntAt(t, d, y)
    ensures Absent(t', d, name) && !Absent(t, d, name)
  {
    forall j ensures !FoundAt(t', d, name, j) {
      assert j != k && FoundAt(t, d, name, j) ==> j == k;
    }
  }

  lemma HoldMore(t: Table, p: multiset<int>, held: multiset<int>, i: int)
    requires Inv(t, p, held)
    ensures Inv(t, p, held + multiset{i})
  {
  }

  // A name has one entry, so what the lookup found decides.
  lemma OneReading(t: Table, d: int, name: string, kind: Kind, k: int)
    requires DirOk(t, d) && FoundAt(t, d, name, k) && 0 <= EntAt(t, d, k).inum < |t|
    requires !(kind == File && (t[EntAt(t, d, k).inum].kind == File || t[EntAt(t, d, k).inum].kind == Device))
    ensures !Absent(t, d, name) && !Reusable(t, d, name, kind)
  {
    forall j | FoundAt(t, d, name, j) ensures j == k {
      assert Live(t, d, j) && Live(t, d, k);
    }
  }

  ghost predicate SameAt(t: Table, t': Table, d: int) {
    IsDir(t', d) && forall k :: EntAt(t', d, k) == EntAt(t, d, k)
  }

  lemma SameLookup(t: Table, t': Table, d: int, name: string)
    requires SameAt(t, t', d)
    ensures Absent(t', d, name) <==> Absent(t, d, name)
  {
    assert forall k :: FoundAt(t', d, name, k) <==> FoundAt(t, d, name, k);
  }

  lemma SameSlots(t: Table, t': Table, d: int, k: int, room: bool)
    requires IsDir(t, d) && IsDir(t', d) && t'[d] == t[d]
    ensures (NoSlot(t', d, room) <==> NoSlot(t, d, room)) && (FirstDead(t', d, k) <==> FirstDead(t, d, k))
  {
    assert forall j :: Live(t', d, j) <==> Live(t, d, j);
  }

  lemma WasEmpty(t: Table, p: multiset<int>, held: multiset<int>, i: int)
    requires Inv(t, p, held) && 0 <= i < |t| && t[i].kind == Free
    ensures t[i] == NO_INODE && t[i := NO_INODE] == t
  {
  }

  lemma RootOnly(t: Table)
    requires |t| > ROOTINO
    requires forall i :: 0 <= i < |t| ==> t[i] == if i == ROOTINO then NewDir(ROOTINO, ROOTINO) else NO_INODE
    ensures Inv(t, multiset{}, multiset{})
  {
    assert forall d, k :: EntAt(t, d, k).inum != 0 ==> d == ROOTINO && (k == 0 || k == 1);
    assert forall x :: IsDir(t, x) <==> x == ROOTINO;
    assert DirOk(t, ROOTINO) && Reaches(t, ROOTINO, 0);
    assert Places(t, ROOTINO) == {(ROOTINO, 1)};
    forall i | 0 < i < |t| ensures CountsAt(t, multiset{}, i) {
      if i != ROOTINO {
        assert forall d, k :: !Names(t, d, k, i);
        assert Places(t, i) == {};
      }
    }
  }
}
