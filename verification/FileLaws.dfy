/**
 What the file system calls do, in terms of names, flags and offsets alone: the components
 of a path are followed through the map of names, and each call's outcome and result are
 given without the definitions that the calls share with their verdicts.
 */
module FileLaws {
  import opened Base
  import opened RfsLayout
  import opened RfsVolume
  import opened VfsState
  import opened VfsSteps
  import opened PathTokens
  import opened FileSystem
  import opened FileCalls
  import opened FileRuns
  import RfsFile

  // ---------------------------------------------------------------------
  // Paths by name
  // ---------------------------------------------------------------------

  // From inode i along the components, by the map of names.
  function Follow(names: map<Key, int>, i: int, parts: seq<Bytes>): Option<int>
    decreases |parts|
  {
    if parts == [] then Some(i)
    else if Key(i, parts[0]) in names then Follow(names, names[Key(i, parts[0])], parts[1..])
    else None
  }

  predicate LeadsTo(s: State, path: Bytes, i: int) { Follow(s.v.names, ROOT, Fields(path, [])) == Some(i) }

  // All components but the last lead to the directory key.dir; the last is key.name.
  predicate EndsAt(s: State, path: Bytes, key: Key) {
    var parts := Fields(path, []);
    && parts != [] && parts[|parts| - 1] == key.name && IsDir(s.v, key.dir)
    && Follow(s.v.names, ROOT, parts[..|parts| - 1]) == Some(key.dir)
  }

  // The path's last component, and it alone, is missing.
  predicate LacksLast(s: State, path: Bytes, key: Key) { EndsAt(s, path, key) && key !in s.v.names }

  // A directory has one block of 128 entries, a name 27 bytes and a NUL.
  predicate CanTake(s: State, key: Key) {
    key.dir in s.v.node && s.v.node[key.dir].size + 32 <= 4096 && |key.name| < 28 && 0 !in key.name
  }

  lemma {:induction false} FollowJoin(names: map<Key, int>, i: int, a: seq<Bytes>, b: seq<Bytes>)
    ensures Follow(names, i, a + b) ==
            match Follow(names, i, a) case None => None case Some(j) => Follow(names, j, b)
    decreases |a|
  {
    if a == [] {
      assert a + b == b;
    } else {
      assert (a + b)[1..] == a[1..] + b;
      if Key(i, a[0]) in names { FollowJoin(names, names[Key(i, a[0])], a[1..], b); }
    }
  }

  lemma FollowLast(names: map<Key, int>, i: int, parts: seq<Bytes>, key: Key)
    requires parts != [] && parts[|parts| - 1] == key.name
    requires Follow(names, i, parts[..|parts| - 1]) == Some(key.dir)
    ensures Follow(names, i, parts) == if key in names then Some(names[key]) else None
  {
    var n := |parts| - 1;
    assert parts == parts[..n] + [key.name];
    FollowJoin(names, i, parts[..n], [key.name]);
    assert [key.name][1..] == [];
  }

  lemma {:induction false} FollowMore(names: map<Key, int>, names': map<Key, int>, i: int, parts: seq<Bytes>)
    requires Follow(names, i, parts).Some?
    requires forall k {:trigger k in names'} :: k in names ==> k in names' && names'[k] == names[k]
    ensures Follow(names', i, parts) == Follow(names, i, parts)
    decreases |parts|
  {
    if parts != [] { FollowMore(names, names', names[Key(i, parts[0])], parts[1..]); }
  }

  // A name leads from a directory to a live inode.
  lemma NameLive(s: State, key: Key)
    requires StateOk(s) && key in s.v.names
    ensures IsDir(s.v, key.dir) && s.v.names[key] in s.v.node
  {
    hide CacheOk, InodesOk;
  }

  /** The walk over the directories on disk goes where the names lead, for every path. */
  lemma {:induction false} WalkFollows(s: State, i: int, path: Bytes, key0: Key)
    requires StateOk(s) && i in s.v.node && Blocks(s.v.data)
    ensures var f, w := Follow(s.v.names, i, Tokens(path)), DiskWalk(s.dino, s.v.data, i, path);
            && (f.Some? <==> w.Arrives?) && (f.Some? ==> w == Arrives(f.value) && f.value in s.v.node)
    decreases |path|
  {
    hide StateOk, HasToken, Token, AfterToken, DiskWalk;
    if !HasToken(path) {
      WalkEnds(s.dino, s.v.data, i, path, key0);
    } else {
      var key := Key(i, Token(path));
      assert Tokens(path)[0] == Token(path) && Tokens(path)[1..] == Tokens(AfterToken(path));
      if IsDir(s.v, i) {
        WalkGoesOn(s, i, path, key0);
        if key in s.v.names {
          NameLive(s, key);
          WalkFollows(s, s.v.names[key], AfterToken(path), key);
        }
      } else {
        WalkStops(s, i, path);
        if key in s.v.names { NameLive(s, key); }
      }
    }
  }

  // Where the last component is missing, the walk says so; where it is there, it is the entry.
  lemma {:induction false} WalkLastPart(s: State, i: int, path: Bytes, key0: Key, key: Key)
    requires StateOk(s) && i in s.v.node && Blocks(s.v.data) && IsDir(s.v, key.dir)
    requires var parts := Tokens(path);
             && parts != [] && parts[|parts| - 1] == key.name
             && Follow(s.v.names, i, parts[..|parts| - 1]) == Some(key.dir)
    ensures key !in s.v.names ==> DiskWalk(s.dino, s.v.data, i, path) == Lacks(key.dir, key.name)
    ensures key in s.v.names ==> LastEntry(s.dino, s.v.data, i, path, key0) == key
    decreases |path|
  {
    hide StateOk, Token, AfterToken, DiskWalk, LastEntry;
    var parts, rest := Tokens(path), AfterToken(path);
    assert parts[0] == Token(path) && parts[1..] == Tokens(rest);
    if |parts| == 1 {
      assert parts[..0] == [] && key == Key(i, Token(path)) && !HasToken(rest);
      WalkGoesOn(s, i, path, key0);
      if key in s.v.names { WalkEnds(s.dino, s.v.data, s.v.names[key], rest, key); }
    } else {
      var here := Key(i, Token(path));
      assert parts[..|parts| - 1][0] == parts[0];
      assert parts[..|parts| - 1][1..] == parts[1..][..|parts| - 2];
      NameLive(s, here);
      WalkGoesOn(s, i, path, key0);
      WalkLastPart(s, s.v.names[here], rest, here, key);
    }
  }

  // The definitions of the verdicts, by name.
  lemma PathMeans(s: State, path: Bytes)
    requires StateOk(s)
    ensures forall i {:trigger LeadsTo(s, path, i)} ::
      LeadsTo(s, path, i) ==> WalkOf(s, path) == Arrives(i) && i in s.v.node
    ensures forall key {:trigger LacksLast(s, path, key)} :: LacksLast(s, path, key) ==>
              WalkOf(s, path) == Lacks(key.dir, key.name) && MissesLast(s, path, key)
    ensures forall i {:trigger LeadsTo(s, path, i)} :: WalkOf(s, path) == Arrives(i) ==> LeadsTo(s, path, i)
  {
    hide StateOk, DiskWalk, Tokens, Follow;
    StateParts(s);
    RootInNode(s.v);
    DataBlocks(s);
    TokensAreFields(path);
    WalkFollows(s, ROOT, path, NO_ENTRY);
    forall key | LacksLast(s, path, key)
      ensures WalkOf(s, path) == Lacks(key.dir, key.name) && MissesLast(s, path, key)
    {
      WalkLastPart(s, ROOT, path, NO_ENTRY, key);
    }
  }

  lemma DataBlocks(s: State)
    requires StateOk(s)
    ensures Blocks(s.v.data)
  {
    hide CacheOk, InodesOk;
  }

  lemma EntryMeans(s: State, path: Bytes, key: Key)
    requires StateOk(s) && EndsAt(s, path, key) && key in s.v.names
    ensures EntryAtEnd(s, path) == key && LeadsTo(s, path, s.v.names[key])
  {
    hide StateOk, DiskWalk, LastEntry, Tokens, Follow;
    StateParts(s);
    RootInNode(s.v);
    DataBlocks(s);
    TokensAreFields(path);
    WalkLastPart(s, ROOT, path, NO_ENTRY, key);
    FollowLast(s.v.names, ROOT, Fields(path, []), key);
  }

  // A path that lacked its last component leads to the inode that got the name.
  lemma NewNameLeads(s: State, s': State, path: Bytes, key: Key, i: int)
    requires LacksLast(s, path, key) && s'.v.names == s.v.names[key := i]
    ensures LeadsTo(s', path, i)
  {
    var parts := Fields(path, []);
    FollowMore(s.v.names, s'.v.names, ROOT, parts[..|parts| - 1]);
    FollowLast(s'.v.names, ROOT, parts, key);
  }

  // ---------------------------------------------------------------------
  // mkdir and opendir
  // ---------------------------------------------------------------------

  /** mkdir makes a directory where only the last component is missing and there is room and a
      block for it, and refuses a path that leads somewhere. */
  lemma MkdirMakes(m: Snapshot, path: CString, key: Key)
    requires StateOk(m.s) && |path| < 30
    ensures LacksLast(m.s, path, key) && CanTake(m.s, key) && RfsFile.FreeCount(m.s.v.freemap) > 0 ==>
              Verdict(m, Mkdir(path)) == Done
    ensures LacksLast(m.s, path, key) && CanTake(m.s, key) && RfsFile.FreeCount(m.s.v.freemap) == 0 ==>
              Verdict(m, Mkdir(path)) == Panic
    ensures forall i {:trigger LeadsTo(m.s, path, i)} :: LeadsTo(m.s, path, i) ==> Verdict(m, Mkdir(path)) == Refused
  {
    hide StateOk, WalkOf, MissesLast, LacksLast, LeadsTo, RfsFile.FreeCount;
    PathMeans(m.s, path);
    if LacksLast(m.s, path, key) && CanTake(m.s, key) { TakesOne(m.s, path, key); }
  }

  lemma TakesOne(s: State, path: Bytes, key: Key)
    requires StateOk(s) && LacksLast(s, path, key) && CanTake(s, key)
    ensures RoomFor(s.v, key)
  {
    hide VolumeOk, InodesOk, CacheOk, Follow, Fields;
  }

  /** After it the path leads to a new directory, the name map has one key more, and opendir
      opens it for every process with a slot left. */
  lemma MkdirMade(s: State, s': State, path: CString, key: Key, fd: Fd) returns (i: int)
    requires StateOk(s) && StateOk(s') && |path| < 30 && LacksLast(s, path, key)
    requires Effect(s, s', Mkdir(path), Done, fd)
    ensures LeadsTo(s', path, i) && IsDir(s'.v, i) && i !in s.v.node && s'.v.names == s.v.names[key := i]
    ensures s'.v.node[i].size == 0 && RfsFile.FreeCount(s'.v.freemap) == RfsFile.FreeCount(s.v.freemap) - 1
    ensures forall m: Snapshot, p: nat {:trigger Verdict(m, OpenDir(p, path))} ::
              m.s == s' && !SlotsFull(s'.c.files, p) ==> Verdict(m, OpenDir(p, path)) == Done
  {
    hide StateOk, WalkOf, MissesLast, LacksLast, LeadsTo, CreatedName, SlotsFull, RfsFile.FreeCount;
    PathMeans(s, path);
    PathMeans(s', path);
    i := s'.v.names[key];
    CreatedParts(s.v, s'.v, key, Dir, i);
    NewNameLeads(s, s', path, key, i);
  }

  lemma CreatedParts(v: Volume, v': Volume, key: Key, kind: Kind, i: int)
    requires CreatedName(v, v', key, kind, i)
    ensures v'.names == v.names[key := i] && i !in v.node && i in v'.node && v'.node[i].kind == kind
    ensures v'.node[i].size == 0 && v'.node[i].blocks == 1
    ensures RfsFile.FreeCount(v'.freemap) == RfsFile.FreeCount(v.freemap) - 1
    ensures forall j {:trigger v'.node[j]} :: j in v.node ==> j in v'.node && v'.node[j].kind == v.node[j].kind
  {
    hide Leaked, NodesOk, ContentsKept, RfsFile.FreeCount;
  }

  /** opendir opens exactly the directories; a slot is all it needs. */
  lemma OpensDirs(m: Snapshot, p: nat, path: CString, i: int)
    requires StateOk(m.s) && |path| < 30 && LeadsTo(m.s, path, i)
    ensures var o := Verdict(m, OpenDir(p, path));
            o == if !IsDir(m.s.v, i) then Refused
                 else if forall j: nat {:trigger Fd(p, j)} :: j < 128 ==> Fd(p, j) in m.s.c.files then Panic else Done
  {
    hide StateOk, WalkOf, LeadsTo;
    PathMeans(m.s, path);
  }

  // ---------------------------------------------------------------------
  // open
  // ---------------------------------------------------------------------

  /** open opens a file where the path leads to one, and refuses a directory; access mode 3 and
      the 129th open of a process panic. */
  lemma OpensFile(m: Snapshot, p: nat, path: CString, flags: int, i: int)
    requires StateOk(m.s) && |path| < 30 && LeadsTo(m.s, path, i)
    ensures Verdict(m, Open(p, path, flags)) ==
            if !OfKind(m.s, i, File) then Refused
            else if flags % 4 == 3 || Count(m.nfiles, p) >= 128 then Panic else Done
  {
    hide StateOk, WalkOf, MissesLast, LeadsTo, Count;
    PathMeans(m.s, path);
  }

  /** Where only the last component is missing, bit 6 of the flags decides whether it makes a
      file. */
  lemma OpensNew(m: Snapshot, p: nat, path: CString, flags: int, key: Key)
    requires StateOk(m.s) && |path| < 30 && LacksLast(m.s, path, key)
    ensures flags % 128 < 64 ==> Verdict(m, Open(p, path, flags)) == Refused
    ensures flags % 128 >= 64 && CanTake(m.s, key) ==>
              Verdict(m, Open(p, path, flags)) ==
              if RfsFile.FreeCount(m.s.v.freemap) == 0 || flags % 4 == 3 || Count(m.nfiles, p) >= 128 then Panic
              else Done
  {
    hide StateOk, WalkOf, MissesLast, LacksLast, RfsFile.FreeCount, Count;
    PathMeans(m.s, path);
    CreateBit(flags);
    if CanTake(m.s, key) { TakesOne(m.s, path, key); }
  }

  lemma CreateBit(flags: int)
    ensures Creates(flags) <==> flags % 128 >= 64
  {
    var q, r := flags / 128, flags % 128;
    assert flags == 128 * q + r;
    if r >= 64 {
      assert flags == 64 * (2 * q + 1) + (r - 64);
      assert flags / 64 == 2 * q + 1;
    } else {
      assert flags == 64 * (2 * q) + r;
      assert flags / 64 == 2 * q;
    }
  }

  // Descriptor fd, and no other, is new: at the start of file i, with this access.
  ghost predicate NewDescriptor(s: State, s': State, fd: Fd, i: int, readable: bool, writable: bool) {
    && fd !in s.c.files && fd in s'.c.files && s'.c.files == s.c.files[fd := s'.c.files[fd]]
    && FileOf(s', fd) == i && OnKind(s', fd, File) && s'.c.files[fd].offset == 0
    && s'.c.files[fd].readable == readable && s'.c.files[fd].writable == writable
  }

  /** After a successful open of a file there is one descriptor more, at its start; it can be
      read exactly if the two low bits of the flags are 0 or 2, and written exactly if they are
      1 or 2. */
  lemma OpenedFile(m: Snapshot, s': State, p: nat, path: CString, flags: int, i: int, fd: Fd)
    requires StateOk(m.s) && StateOk(s') && LeadsTo(m.s, path, i) && Verdict(m, Open(p, path, flags)) == Done
    requires Effect(m.s, s', Open(p, path, flags), Done, fd)
    ensures s'.v == m.s.v && fd.process == p && fd.slot < 128
    ensures NewDescriptor(m.s, s', fd, i, flags % 4 in {0, 2}, flags % 4 in {1, 2})
  {
    hide StateOk, WalkOf, EntryAtEnd, MissesLast, LeadsTo, CreatedName, Count, EntryOf, CreateVerdict;
    PathMeans(m.s, path);
    WalkAlone(m.s, path, EntryOf(s'.c, s'.c.files[fd].dentry));
  }

  /** The same for an open that makes the file: it is empty, and the path leads to it. */
  lemma OpenedNew(m: Snapshot, s': State, p: nat, path: CString, flags: int, key: Key, fd: Fd) returns (i: int)
    requires StateOk(m.s) && StateOk(s') && LacksLast(m.s, path, key) && Verdict(m, Open(p, path, flags)) == Done
    requires Effect(m.s, s', Open(p, path, flags), Done, fd)
    ensures i !in m.s.v.node && LeadsTo(s', path, i) && s'.v.names == m.s.v.names[key := i]
    ensures fd.process == p && fd.slot < 128 && OfKind(s', i, File) && s'.v.node[i].size == 0
    ensures NewDescriptor(m.s, s', fd, i, flags % 4 in {0, 2}, flags % 4 in {1, 2})
  {
    hide StateOk, WalkOf, EntryAtEnd, MissesLast, LacksLast, LeadsTo, CreatedName, RfsFile.FreeCount, Count, EntryOf,
      CreateVerdict;
    PathMeans(m.s, path);
    i := FileOf(s', fd);
    LacksAlone(m.s, path, key, EntryOf(s'.c, s'.c.files[fd].dentry));
    CreatedParts(m.s.v, s'.v, key, File, i);
    NewNameLeads(m.s, s', path, key, i);
  }

  lemma WalkAlone(s: State, path: Bytes, key: Key)
    requires WalkOf(s, path).Arrives?
    ensures !MissesLast(s, path, key)
  {
    hide WalkOf;
  }

  lemma LacksAlone(s: State, path: Bytes, key: Key, key': Key)
    requires WalkOf(s, path) == Lacks(key.dir, key.name)
    ensures MissesLast(s, path, key') ==> key' == key
  {
    hide WalkOf;
  }

  /** opendir gives a descriptor on the directory. */
  lemma OpenedDir(m: Snapshot, s': State, p: nat, path: CString, i: int, fd: Fd)
    requires StateOk(m.s) && StateOk(s') && LeadsTo(m.s, path, i) && Effect(m.s, s', OpenDir(p, path), Done, fd)
    ensures s'.v == m.s.v && fd.process == p && fd.slot < 128 && fd !in m.s.c.files && fd in s'.c.files
    ensures s'.c.files == m.s.c.files[fd := s'.c.files[fd]] && FileOf(s', fd) == i && OnKind(s', fd, Dir)
  {
    hide StateOk, WalkOf, EntryAtEnd, MissesLast, LeadsTo, CreatedName, EntryOf;
    PathMeans(m.s, path);
  }

  // ---------------------------------------------------------------------
  // link and unlink
  // ---------------------------------------------------------------------

  /** link gives a file another name where only the last component is missing, and refuses a
      directory, a path that leads nowhere, and a new name that is taken. */
  lemma LinkAdds(m: Snapshot, oldpath: CString, newpath: CString, i: int, key: Key)
    requires StateOk(m.s) && |oldpath| < 30 && |newpath| < 30 && LeadsTo(m.s, oldpath, i)
    ensures OfKind(m.s, i, File) && LacksLast(m.s, newpath, key) && CanTake(m.s, key) ==>
              Verdict(m, Link(oldpath, newpath)) == Done
    ensures !OfKind(m.s, i, File) || (exists j :: LeadsTo(m.s, newpath, j)) ==>
              Verdict(m, Link(oldpath, newpath)) == Refused
  {
    hide StateOk, WalkOf, MissesLast, LacksLast, LeadsTo;
    PathMeans(m.s, oldpath);
    PathMeans(m.s, newpath);
    if LacksLast(m.s, newpath, key) && CanTake(m.s, key) { TakesOne(m.s, newpath, key); }
  }

  /** Then both paths lead to the file, which has one link more. */
  lemma LinkAdded(s: State, s': State, oldpath: CString, newpath: CString, i: int, key: Key, fd: Fd)
    requires StateOk(s) && StateOk(s') && LeadsTo(s, oldpath, i) && LacksLast(s, newpath, key)
    requires Effect(s, s', Link(oldpath, newpath), Done, fd)
    ensures s'.v.names == s.v.names[key := i] && LeadsTo(s', oldpath, i) && LeadsTo(s', newpath, i)
    ensures i in s.v.node && i in s'.v.node && s'.v.node[i] == s.v.node[i].(nlinks := s.v.node[i].nlinks + 1)
    ensures s'.c.files == s.c.files
  {
    hide StateOk, WalkOf, MissesLast, LacksLast, LinkedName, KeepsDents, StandsFor;
    PathMeans(s, oldpath);
    PathMeans(s, newpath);
    LinkedParts(s.v, s'.v, key, i);
    NewNameLeads(s, s', newpath, key, i);
    LacksNot(s, newpath, key);
    FollowMore(s.v.names, s'.v.names, ROOT, Fields(oldpath, []));
  }

  lemma LacksNot(s: State, path: Bytes, key: Key)
    requires LacksLast(s, path, key)
    ensures key !in s.v.names
  {
  }

  lemma LinkedParts(v: Volume, v': Volume, key: Key, i: int)
    requires LinkedName(v, v', key, i)
    ensures v'.names == v.names[key := i] && i in v.node && i in v'.node
    ensures v'.node[i] == v.node[i].(nlinks := v.node[i].nlinks + 1)
    ensures forall j {:trigger v'.node[j]} :: j in v.node ==> j in v'.node && v'.node[j].kind == v.node[j].kind
  {
    hide Leaked, NodesOk, ContentsKept;
  }

  /** unlink takes away the name of a file, unless the file is open under it, and refuses a
      directory and a path that leads nowhere. */
  lemma UnlinkTakes(m: Snapshot, path: CString, key: Key)
    requires StateOk(m.s) && |path| < 30 && EndsAt(m.s, path, key)
    ensures Verdict(m, Unlink(path)) ==
            if key in m.s.v.names && OfKind(m.s, m.s.v.names[key], File) && !HeldUnder(m.s, key) then Done else Refused
  {
    hide StateOk, WalkOf, EntryAtEnd, MissesLast, EndsAt, LeadsTo, EntryOf;
    PathMeans(m.s, path);
    if key in m.s.v.names { EntryMeans(m.s, path, key); } else { assert LacksLast(m.s, path, key); }
  }

  // Some descriptor is open on the dentry of the entry.
  ghost predicate HeldUnder(s: State, key: Key) {
    exists fd {:trigger s.c.files[fd]} :: fd in s.c.files && EntryOf(s.c, s.c.files[fd].dentry) == key
  }

  /** Then the last component is missing, and no other name changed. */
  lemma UnlinkTook(s: State, s': State, path: CString, key: Key, fd: Fd)
    requires StateOk(s) && StateOk(s') && EndsAt(s, path, key) && key in s.v.names
    requires Effect(s, s', Unlink(path), Done, fd)
    ensures s'.v.names == s.v.names - {key} && s'.c.files == s.c.files
    ensures var i := s.v.names[key];
            && i in s.v.node
            && (s.v.node[i].nlinks == 1 ==> i !in s'.v.node)
            && (s.v.node[i].nlinks != 1 ==>
                  i in s'.v.node && s'.v.node[i] == s.v.node[i].(nlinks := s.v.node[i].nlinks - 1))
  {
    hide StateOk, WalkOf, EntryAtEnd, EndsAt, LeadsTo, NodesOk, Leaked, ContentsKept;
    EntryMeans(s, path, key);
  }

  // ---------------------------------------------------------------------
  // Descriptors
  // ---------------------------------------------------------------------

  /** A read of a file is done if the descriptor can be read, but for the end of a file that
      fills its blocks; a descriptor that cannot be read panics. */
  lemma Reads(m: Snapshot, fd: Fd, len: nat)
    requires fd in m.s.c.files && OnKind(m.s, fd, File)
    ensures Verdict(m, Read(fd, len)) ==
            var f, n := m.s.c.files[fd], m.s.v.node[FileOf(m.s, fd)];
            if !f.readable then Panic else if f.offset == n.size == n.blocks * 4096 then OutOfScope else Done
  {
  }

  /** A read gives as many bytes as were asked for and the file has from the offset on, and moves
      the offset behind them. */
  lemma ReadMoves(s: State, s': State, fd: Fd, len: nat, bytes: Bytes, g: Fd)
    requires Effect(s, s', Read(fd, len), Done, g) && Returns(s, fd, len, bytes)
    ensures var left := s.v.node[FileOf(s, fd)].size - s.c.files[fd].offset;
            |bytes| == if len <= left then len else left
    ensures s'.v == s.v
    ensures s'.c.files == s.c.files[fd := s.c.files[fd].(offset := s.c.files[fd].offset + |bytes|)]
  {
    hide RfsFile.Content;
    var n := s.v.node[FileOf(s, fd)];
    assert |RfsFile.Content(n, s.v.data)| == n.size;
  }

  /** A write to a file is done if the descriptor can be written and the blocks of the file,
      with the free ones, hold all bytes up to its end; else it panics.  Files end at ten
      blocks. */
  lemma Writes(m: Snapshot, fd: Fd, bytes: Bytes)
    requires fd in m.s.c.files && OnKind(m.s, fd, File) && m.s.c.files[fd].offset + |bytes| <= 40960
    ensures var blocks := m.s.v.node[FileOf(m.s, fd)].blocks + RfsFile.FreeCount(m.s.v.freemap);
            Verdict(m, Write(fd, bytes)) ==
            if m.s.c.files[fd].writable && m.s.c.files[fd].offset + |bytes| <= blocks * 4096 then Done else Panic
  {
    hide RfsFile.FreeCount;
    var n := m.s.v.node[FileOf(m.s, fd)];
    BlocksHold(m.s.c.files[fd].offset + |bytes|, n.blocks, RfsFile.FreeCount(m.s.v.freemap));
  }

  lemma BlocksHold(end: int, blocks: int, free: nat)
    ensures RfsFile.Max(0, RfsFile.BlocksFor(end) - blocks) <= free <==> end <= (blocks + free) * 4096
  {
  }

  /** A seek from the start goes to its argument, one from the offset adds it, and either is
      done exactly if that lies in the file; any other whence is refused. */
  lemma Seeks(m: Snapshot, fd: Fd, offset: int, whence: int)
    requires fd in m.s.c.files && OnKind(m.s, fd, File)
    ensures var at, size := m.s.c.files[fd].offset, m.s.v.node[FileOf(m.s, fd)].size;
            Verdict(m, Seek(fd, offset, whence)) ==
            if (whence == 0 && 0 <= offset <= size) || (whence == 1 && 0 <= at + offset <= size) then Done else Refused
  {
  }

  lemma Sought(s: State, s': State, fd: Fd, offset: int, whence: int, g: Fd)
    requires fd in s.c.files && Effect(s, s', Seek(fd, offset, whence), Done, g) && (whence == 0 || whence == 1)
    ensures s'.v == s.v && s'.c.files.Keys == s.c.files.Keys
    ensures s'.c.files[fd] == s.c.files[fd].(offset := if whence == 0 then offset else s.c.files[fd].offset + offset)
    ensures forall h {:trigger s'.c.files[h]} :: h in s.c.files && h != fd ==> s'.c.files[h] == s.c.files[h]
  {
  }

  /** A close takes exactly its descriptor away. */
  lemma Closes(m: Snapshot, fd: Fd)
    requires fd in m.s.c.files
    ensures Verdict(m, Close(fd)) == if OnKind(m.s, fd, File) then Done else Refused
    ensures Verdict(m, CloseDir(fd)) == if OnKind(m.s, fd, Dir) then Done else Refused
    ensures forall s', g {:trigger Effect(m.s, s', Close(fd), Done, g)} ::
              Effect(m.s, s', Close(fd), Done, g) ==> s'.c.files == m.s.c.files - {fd} && s'.v == m.s.v
    ensures forall s', g {:trigger Effect(m.s, s', CloseDir(fd), Done, g)} ::
              Effect(m.s, s', CloseDir(fd), Done, g) ==> s'.c.files == m.s.c.files - {fd} && s'.v == m.s.v
  {
    hide LastOnInode;
  }

  // ---------------------------------------------------------------------
  // Over runs
  // ---------------------------------------------------------------------

  // No call closes the descriptor.
  predicate KeptOpen(events: seq<Event>, fd: Fd, k: nat, m: nat)
    requires m <= |events|
  {
    forall t {:trigger events[t]} :: k <= t < m ==> events[t].op != Close(fd) && events[t].op != CloseDir(fd)
  }

  lemma StepKeepsDescriptor(s: State, s': State, e: Event, fd: Fd)
    requires Effect(s, s', e.op, e.o, e.fd) && fd in s.c.files && e.op != Close(fd) && e.op != CloseDir(fd)
    ensures fd in s'.c.files && s'.c.files[fd].dentry == s.c.files[fd].dentry
    ensures s'.c.files[fd].readable == s.c.files[fd].readable && s'.c.files[fd].writable == s.c.files[fd].writable
    ensures !((e.op.Read? || e.op.Write? || e.op.Seek?) && e.op.fd == fd && e.o.Done?) ==>
      s'.c.files[fd] == s.c.files[fd]
  {
    hide Resolved, MissesLast, WalkOf, CreatedName, LinkedName, KeepsDents, StandsFor, NodesOk, Leaked, ContentsKept,
      FewerLinks, VolumeWritten, LastOnInode, EntryAtEnd;
  }

  /** In every run a descriptor that is not closed stays open, on the same file and with the same
      access; it moves only by its own reads, writes and seeks. */
  lemma {:induction false} DescriptorStays(states: seq<Snapshot>, events: seq<Event>, fd: Fd, k: nat, m: nat)
    requires Chain(states, events) && k <= m <= |events| && fd in states[k].s.c.files && KeptOpen(events, fd, k, m)
    ensures fd in states[m].s.c.files && FileOf(states[m].s, fd) == FileOf(states[k].s, fd)
    ensures var f, g := states[k].s.c.files[fd], states[m].s.c.files[fd];
            g.readable == f.readable && g.writable == f.writable
    decreases m - k
  {
    hide StateOk, Effect, Verdict, Returns, FileOf;
    if k < m {
      DescriptorStays(states, events, fd, k, m - 1);
      var e := events[m - 1];
      assert states[m - 1 + 1] == states[m] && Happens(states[m - 1], states[m], e);
      StepKeepsDescriptor(states[m - 1].s, states[m].s, e, fd);
    }
  }

  /** In every run, right after an open the access bits decide: with 0 a read is done and a write
      panics, with 1 a read panics, with 2 a read is done; and no write panics with 1 or 2 while
      there are blocks. */
  lemma AccessOfOpen(states: seq<Snapshot>, events: seq<Event>, k: nat, len: nat, bytes: Bytes)
    requires Chain(states, events) && k < |events| && events[k].op.Open? && events[k].o.Done?
    ensures var m, fd, mode := states[k + 1], events[k].fd, events[k].op.flags % 4;
            && (Verdict(m, Read(fd, len)) == if mode == 1 then Panic else Done)
            && (mode == 0 ==> Verdict(m, Write(fd, bytes)) == Panic)
            && (mode != 0 && |bytes| <= 40960 && |bytes| <= RfsFile.FreeCount(m.s.v.freemap) * 4096 ==>
                  Verdict(m, Write(fd, bytes)) == Done)
  {
    hide StateOk, Effect, Verdict, RfsFile.FreeCount, OnKind;
    var m, m', e := states[k], states[k + 1], events[k];
    assert Happens(m, m', e) && StateOk(m'.s);
    OpenGives(m, m'.s, e.op.process, e.op.path, e.op.flags, e.fd);
    FileReady(m'.s, e.fd);
    Reads(m', e.fd, len);
    if |bytes| <= 40960 { Writes(m', e.fd, bytes); } else { WriteBarred(m', e.fd, bytes); }
    FileKind(m'.s, e.fd);
    NodeHasBlock(m'.s.v.node[FileOf(m'.s, e.fd)]);
  }

  lemma OpenGives(m: Snapshot, s': State, p: nat, path: CString, flags: int, fd: Fd)
    requires Verdict(m, Open(p, path, flags)) == Done && Effect(m.s, s', Open(p, path, flags), Done, fd)
    ensures fd in s'.c.files && OnKind(s', fd, File) && s'.c.files[fd].offset == 0 && flags % 4 in {0, 1, 2}
    ensures s'.c.files[fd].readable == (flags % 4 != 1) && s'.c.files[fd].writable == (flags % 4 != 0)
  {
    hide WalkOf, EntryAtEnd, MissesLast, CreatedName, EntryOf, Count, CreateVerdict;
  }

  lemma WriteBarred(m: Snapshot, fd: Fd, bytes: Bytes)
    requires fd in m.s.c.files
    ensures !m.s.c.files[fd].writable ==> Verdict(m, Write(fd, bytes)) == Panic
  {
  }

  lemma NodeHasBlock(n: Node)
    requires NodeOk(n)
    ensures n.blocks >= 1
  {
  }

  /** In every run, reading, seeking back to where the read began and reading again gives the
      same bytes, if the descriptor was not closed and the file not written in between. */
  lemma ReadsAgain(states: seq<Snapshot>, events: seq<Event>, fd: Fd, len: nat, k: nat, j: nat)
    requires Chain(states, events) && k < j < |events| - 1 && fd in states[k].s.c.files
    requires events[k].op == events[j + 1].op == Read(fd, len) && events[k].o == events[j + 1].o == Done
    requires events[j].op == Seek(fd, states[k].s.c.files[fd].offset, 0) && events[j].o == Done
    requires KeptOpen(events, fd, k, j + 1)
    requires forall t {:trigger events[t]} :: k <= t <= j ==> !WritesTo(states[t].s, events[t], FileOf(states[k].s, fd))
    ensures events[j + 1].bytes == events[k].bytes
  {
    hide StateOk, Effect, Verdict, FileOf, WritesTo, RfsFile.Content, SameContent, OnKind;
    var i := FileOf(states[k].s, fd);
    StaysUndisturbed(states, events, fd, k, j + 1);
    assert Happens(states[k], states[k + 1], events[k]) && Happens(states[j], states[j + 1], events[j]);
    assert Happens(states[j + 1], states[j + 2], events[j + 1]);
    DescriptorStays(states, events, fd, k, j);
    DescriptorStays(states, events, fd, k, j + 1);
    Sought(states[j].s, states[j + 1].s, fd, states[k].s.c.files[fd].offset, 0, events[j].fd);
    assert StateOk(states[k].s);
    FileKind(states[k].s, fd);
    ContentStays(states, events, i, k, j + 1);
    SameBytes(states[k].s, states[j + 1].s, fd, len, events[k].bytes, events[j + 1].bytes);
  }

  // No read, write or seek through the descriptor.
  predicate Unmoved(events: seq<Event>, fd: Fd, k: nat, m: nat)
    requires m <= |events|
  {
    forall t {:trigger events[t]} :: k <= t < m ==>
      !((events[t].op.Read? || events[t].op.Write? || events[t].op.Seek?) && events[t].op.fd == fd)
  }

  lemma {:induction false} OffsetStays(states: seq<Snapshot>, events: seq<Event>, fd: Fd, k: nat, m: nat)
    requires Chain(states, events) && k <= m <= |events| && fd in states[k].s.c.files
    requires KeptOpen(events, fd, k, m) && Unmoved(events, fd, k, m)
    ensures fd in states[m].s.c.files && states[m].s.c.files[fd] == states[k].s.c.files[fd]
    decreases m - k
  {
    hide StateOk, Effect, Verdict, Returns;
    if k < m {
      OffsetStays(states, events, fd, k, m - 1);
      var e := events[m - 1];
      assert states[m - 1 + 1] == states[m] && Happens(states[m - 1], states[m], e);
      StepKeepsDescriptor(states[m - 1].s, states[m].s, e, fd);
    }
  }

  /** In every run two reads in turn through a descriptor give what one read of both lengths
      would have given, if the file was not written in between. */
  lemma ReadsInPieces(states: seq<Snapshot>, events: seq<Event>, fd: Fd, k: nat, j: nat)
    requires Chain(states, events) && k < j < |events| && fd in states[k].s.c.files
    requires events[k].op.Read? && events[k].op.fd == fd && events[k].o == Done
    requires events[j].op.Read? && events[j].op.fd == fd && events[j].o == Done
    requires KeptOpen(events, fd, k, j) && Unmoved(events, fd, k + 1, j)
    requires forall t {:trigger events[t]} :: k <= t < j ==> !WritesTo(states[t].s, events[t], FileOf(states[k].s, fd))
    ensures Returns(states[k].s, fd, events[k].op.len + events[j].op.len, events[k].bytes + events[j].bytes)
  {
    hide StateOk, Effect, Verdict, Returns, OnKind, FileOf, OfKind, SameContent, WritesTo, Undisturbed;
    StaysUndisturbed(states, events, fd, k, j);
    assert Happens(states[k], states[k + 1], events[k]) && Happens(states[j], states[j + 1], events[j]);
    ReadMoves(states[k].s, states[k + 1].s, fd, events[k].op.len, events[k].bytes, events[k].fd);
    OffsetStays(states, events, fd, k + 1, j);
    DescriptorStays(states, events, fd, k, j);
    ReadsFile(states[k].s, fd, events[k].op.len, events[k].bytes);
    ContentStays(states, events, FileOf(states[k].s, fd), k, j);
    BytesJoin(states[k].s, states[j].s, fd, events[k].op.len, events[j].op.len, events[k].bytes, events[j].bytes);
  }

  lemma ReadsFile(s: State, fd: Fd, len: nat, bytes: Bytes)
    requires Returns(s, fd, len, bytes)
    ensures OfKind(s, FileOf(s, fd), File)
  {
  }

  lemma BytesJoin(s: State, s': State, fd: Fd, n: nat, n': nat, bytes: Bytes, bytes': Bytes)
    requires Returns(s, fd, n, bytes) && Returns(s', fd, n', bytes') && FileOf(s', fd) == FileOf(s, fd)
    requires s'.c.files[fd].offset == s.c.files[fd].offset + |bytes| && SameContent(s.v, s'.v, FileOf(s, fd))
    ensures Returns(s, fd, n + n', bytes + bytes')
  {
    hide RfsFile.Content, FileOf;
    var node, node' := s.v.node[FileOf(s, fd)], s'.v.node[FileOf(s, fd)];
    var c := RfsFile.Content(node, s.v.data);
    assert |c| == node.size && |RfsFile.Content(node', s'.v.data)| == node'.size;
    var off := s.c.files[fd].offset;
    if off + n <= node.size { assert bytes == c[off..off + n]; } else { assert bytes' == []; }
  }

  /** In every run, what was written is read back through the same descriptor after a seek to where
      the write began, if the file was not written again in between. */
  lemma WrittenReadBack(states: seq<Snapshot>, events: seq<Event>, fd: Fd, k: nat, j: nat)
    requires Chain(states, events) && k < j < |events| - 1 && fd in states[k].s.c.files
    requires events[k].op.Write? && events[k].op.fd == fd && events[k].o == Done
    requires events[j].op == Seek(fd, states[k].s.c.files[fd].offset, 0) && events[j].o == Done
    requires events[j + 1].op == Read(fd, |events[k].op.bytes|) && events[j + 1].o == Done
    requires KeptOpen(events, fd, k, j + 1)
    requires forall t {:trigger events[t]} :: k < t <= j ==> !WritesTo(states[t].s, events[t], FileOf(states[k].s, fd))
    ensures events[j + 1].bytes == events[k].op.bytes
  {
    hide StateOk, Effect, Verdict, Returns, FileOf, Undisturbed;
    var i, buf := FileOf(states[k].s, fd), events[k].op.bytes;
    DescriptorStays(states, events, fd, k, k + 1);
    StaysUndisturbed(states, events, fd, k + 1, j + 1);
    assert Happens(states[j], states[j + 1], events[j]);
    DescriptorStays(states, events, fd, k, j);
    DescriptorStays(states, events, fd, k, j + 1);
    Sought(states[j].s, states[j + 1].s, fd, states[k].s.c.files[fd].offset, 0, events[j].fd);
    ReadsBack(states, events, i, k, j + 1);
    assert buf[0..|buf|] == buf;
  }

  // How many of the first k calls were opens by the process that were done.
  function OpensBy(events: seq<Event>, p: nat, k: nat): nat
    requires k <= |events|
  {
    if k == 0 then 0
    else
      var e := events[k - 1];
      OpensBy(events, p, k - 1) + (if e.o.Done? && (e.op.Open? || e.op.OpenDir?) && e.op.process == p then 1 else 0)
  }

  lemma {:induction false} OpensCounted(states: seq<Snapshot>, events: seq<Event>, p: nat, k: nat)
    requires Chain(states, events) && states[0].nfiles == map[] && k <= |events|
    ensures Count(states[k].nfiles, p) == OpensBy(events, p, k)
  {
    hide StateOk, Effect, Verdict, Returns;
    if k > 0 {
      OpensCounted(states, events, p, k - 1);
      assert states[k - 1 + 1] == states[k] && Happens(states[k - 1], states[k], events[k - 1]);
    }
  }

  /** In every run a process can open a file until it has opened 128, whatever it has closed since. */
  lemma OpenLimit(states: seq<Snapshot>, events: seq<Event>, k: nat, p: nat, path: CString, flags: int, i: int)
    requires Chain(states, events) && states[0].nfiles == map[] && k <= |events|
    requires |path| < 30 && LeadsTo(states[k].s, path, i) && OfKind(states[k].s, i, File) && flags % 4 != 3
    ensures Verdict(states[k], Open(p, path, flags)) == if OpensBy(events, p, k) >= 128 then Panic else Done
  {
    hide StateOk, Effect, Verdict, Returns, LeadsTo, Count, OpensBy;
    assert StateOk(states[k].s);
    OpensCounted(states, events, p, k);
    OpensFile(states[k], p, path, flags, i);
  }

  lemma FileKind(s: State, fd: Fd)
    requires OnKind(s, fd, File)
    ensures OfKind(s, FileOf(s, fd), File)
  {
  }

  lemma SameBytes(s: State, s': State, fd: Fd, len: nat, bytes: Bytes, bytes': Bytes)
    requires Returns(s, fd, len, bytes) && Returns(s', fd, len, bytes') && FileOf(s', fd) == FileOf(s, fd)
    requires s'.c.files[fd].offset == s.c.files[fd].offset && SameContent(s.v, s'.v, FileOf(s, fd))
    ensures bytes' == bytes
  {
    hide RfsFile.Content, NodeOk, Blocks;
    assert |RfsFile.Content(s.v.node[FileOf(s, fd)], s.v.data)| == s.v.node[FileOf(s, fd)].size;
    assert |RfsFile.Content(s'.v.node[FileOf(s, fd)], s'.v.data)| == s'.v.node[FileOf(s, fd)].size;
  }

  // A file that is open is there.
  lemma StaysUndisturbed(states: seq<Snapshot>, events: seq<Event>, fd: Fd, k: nat, m: nat)
    requires Chain(states, events) && k <= m <= |events| && fd in states[k].s.c.files && KeptOpen(events, fd, k, m)
    requires forall t {:trigger events[t]} :: k <= t < m ==> !WritesTo(states[t].s, events[t], FileOf(states[k].s, fd))
    ensures Undisturbed(states, events, FileOf(states[k].s, fd), k, m)
  {
    hide StateOk, FileOf, Happens, WritesTo;
    forall t | k <= t <= m ensures FileOf(states[k].s, fd) in states[t].s.v.node {
      DescriptorStays(states, events, fd, k, t);
      assert StateOk(states[t].s);
      FilePoints(states[t].s, fd);
    }
  }

  // ---------------------------------------------------------------------
  // Directories over runs
  // ---------------------------------------------------------------------

  // Directories stay, and so do the names of directories.
  ghost predicate KeepsDirs(v: Volume, v': Volume) {
    && (forall i {:trigger IsDir(v', i)} :: IsDir(v, i) ==> IsDir(v', i))
    && (forall key {:trigger key in v'.names} :: key in v.names && IsDir(v, v.names[key]) ==>
          key in v'.names && v'.names[key] == v.names[key])
  }

  lemma StepKeepsDirs(m: Snapshot, m': Snapshot, e: Event)
    requires StateOk(m.s) && Happens(m, m', e)
    ensures KeepsDirs(m.s.v, m'.s.v)
  {
    hide StateOk, WalkOf, EntryAtEnd, MissesLast, NodesOk, Leaked, ContentsKept, KeepsDents, StandsFor, VolumeWritten,
      CreatedName, LinkedName, UnlinkedName, Returns, KeepsOpen, OpenEffect, RfsFile.FreeCount, RfsFile.Needed;
    if e.o.Done? {
      match e.op
      case Open(p, path, flags) => OpenKeepsDirs(m.s, m'.s, p, path, Creates(flags), File, Mode(flags), e.fd);
      case OpenDir(p, path) => OpenKeepsDirs(m.s, m'.s, p, path, false, Dir, 0, e.fd);
      case Mkdir(path) =>
        var key := Key(WalkOf(m.s, path).dir, WalkOf(m.s, path).name);
        CreateKeepsDirs(m.s.v, m'.s.v, key, Dir, m'.s.v.names[key]);
      case Link(oldpath, newpath) =>
        LinkKeepsDirs(m.s.v, m'.s.v, Key(WalkOf(m.s, newpath).dir, WalkOf(m.s, newpath).name),
                      WalkOf(m.s, oldpath).inum);
      case Unlink(path) => UnlinkKeepsDirs(m.s, m'.s, EntryAtEnd(m.s, path));
      case Write(fd, bytes) => WriteKeepsDirs(m.s.v, m'.s.v, FileOf(m.s, fd), m.s.c.files[fd].offset, bytes);
      case _ =>
    }
  }

  lemma OpenKeepsDirs(s: State, s': State, p: nat, path: Bytes, create: bool, kind: Kind, mode: int, fd: Fd)
    requires OpenEffect(s, s', p, path, create, kind, mode, fd)
    ensures KeepsDirs(s.v, s'.v)
  {
    hide WalkOf, EntryAtEnd, MissesLast, CreatedName, EntryOf;
    var f := s'.c.files[fd];
    if s'.v != s.v { CreateKeepsDirs(s.v, s'.v, EntryOf(s'.c, f.dentry), File, Inum(s'.c, f.dentry)); }
  }

  lemma CreateKeepsDirs(v: Volume, v': Volume, key: Key, kind: Kind, i: int)
    requires CreatedName(v, v', key, kind, i)
    ensures KeepsDirs(v, v')
  {
    hide NodesOk, Leaked, ContentsKept, RfsFile.FreeCount;
    CreatedParts(v, v', key, kind, i);
    forall j | IsDir(v, j) ensures IsDir(v', j) { assert v'.node[j].kind == v.node[j].kind; }
  }

  lemma LinkKeepsDirs(v: Volume, v': Volume, key: Key, i: int)
    requires LinkedName(v, v', key, i)
    ensures KeepsDirs(v, v')
  {
    hide NodesOk, Leaked, ContentsKept;
    LinkedParts(v, v', key, i);
    forall j | IsDir(v, j) ensures IsDir(v', j) { assert v'.node[j].kind == v.node[j].kind; }
  }

  lemma UnlinkKeepsDirs(s: State, s': State, key: Key)
    requires UnlinkedName(s, s', key) && OfKind(s, s.v.names[key], File)
    ensures KeepsDirs(s.v, s'.v)
  {
    hide NodesOk, Leaked, ContentsKept;
  }

  lemma WriteKeepsDirs(v: Volume, v': Volume, i: int, off: int, buf: Bytes)
    requires VolumeWritten(v, v', i, off, buf)
    ensures KeepsDirs(v, v')
  {
    hide NodesOk, Leaked, RfsFile.Content, RfsFile.Splice, RfsFile.KeepsTail, RfsFile.FreeCount, RfsFile.Needed;
    forall j | IsDir(v, j) ensures IsDir(v', j) { assert j != i ==> v'.node[j] == v.node[j]; }
  }

  lemma {:induction false} FollowDirs(s: State, s': State, i: int, parts: seq<Bytes>)
    requires StateOk(s) && KeepsDirs(s.v, s'.v) && Follow(s.v.names, i, parts).Some?
    requires IsDir(s.v, Follow(s.v.names, i, parts).value)
    ensures Follow(s'.v.names, i, parts) == Follow(s.v.names, i, parts)
    decreases |parts|
  {
    hide StateOk;
    if parts != [] {
      var key := Key(i, parts[0]);
      var j := s.v.names[key];
      if |parts| > 1 { NameLive(s, Key(j, parts[1..][0])); }
      assert key in s'.v.names;
      FollowDirs(s, s', j, parts[1..]);
    }
  }

  /** In every run a path that leads to a directory leads to it for ever, and while a process has
      a slot left it can open it. */
  lemma {:induction false} DirectoriesStay(states: seq<Snapshot>, events: seq<Event>, path: CString, i: int, k: nat,
                                           m: nat)
    requires Chain(states, events) && k <= m <= |events|
    requires LeadsTo(states[k].s, path, i) && IsDir(states[k].s.v, i)
    ensures LeadsTo(states[m].s, path, i) && IsDir(states[m].s.v, i)
    ensures forall p: nat {:trigger SlotsFull(states[m].s.c.files, p)} ::
              |path| < 30 && !SlotsFull(states[m].s.c.files, p) ==> Verdict(states[m], OpenDir(p, path)) == Done
    decreases m - k
  {
    hide StateOk, Happens, LeadsTo, Verdict, SlotsFull;
    assert StateOk(states[m].s);
    if k < m {
      DirectoriesStay(states, events, path, i, k, m - 1);
      assert StateOk(states[m - 1].s) && states[m - 1 + 1] == states[m];
      assert Happens(states[m - 1], states[m], events[m - 1]);
      StepKeepsDirs(states[m - 1], states[m], events[m - 1]);
      LeadsStill(states[m - 1].s, states[m].s, path, i);
    }
    forall p: nat | |path| < 30 && !SlotsFull(states[m].s.c.files, p)
      ensures Verdict(states[m], OpenDir(p, path)) == Done
    {
      OpensDirs(states[m], p, path, i);
      SlotThere(states[m].s.c.files, p);
    }
  }

  lemma SlotThere(files: map<Fd, OpenFile>, p: nat)
    requires !SlotsFull(files, p)
    ensures !(forall j: nat {:trigger Fd(p, j)} :: j < 128 ==> Fd(p, j) in files)
  {
  }

  lemma LeadsStill(s: State, s': State, path: Bytes, i: int)
    requires StateOk(s) && KeepsDirs(s.v, s'.v) && LeadsTo(s, path, i) && IsDir(s.v, i)
    ensures LeadsTo(s', path, i) && IsDir(s'.v, i)
  {
    hide StateOk, Fields;
    FollowDirs(s, s', ROOT, Fields(path, []));
  }

  // ---------------------------------------------------------------------
  // A run that makes a directory and a file in it
  // ---------------------------------------------------------------------

  const DIR_A: CString := [65]
  const FILE_IN_A: CString := [65, SLASH, 98]
  const NAME_OF_B: Bytes := [98]

  function MakingCalls(): seq<Op> { [Mkdir(DIR_A), Open(0, FILE_IN_A, 66)] }

  lemma PartsOfA()
    ensures Fields(DIR_A, []) == [DIR_A] && Fields(FILE_IN_A, []) == [DIR_A, NAME_OF_B]
  {
    var empty: Bytes := [];
    var rest: Bytes := [SLASH, 98];
    assert DIR_A[1..] == empty && empty + [65] == DIR_A && empty + [98] == NAME_OF_B;
    assert Fields(empty, DIR_A) == [DIR_A] && Fields(empty, NAME_OF_B) == [NAME_OF_B];
    assert NAME_OF_B[1..] == empty && Fields(NAME_OF_B, empty) == [NAME_OF_B];
    assert rest[1..] == NAME_OF_B && Fields(rest, DIR_A) == [DIR_A] + Fields(NAME_OF_B, empty);
    assert FILE_IN_A[1..] == rest && Fields(FILE_IN_A, empty) == Fields(rest, DIR_A);
  }

  lemma LacksA(s: State)
    requires StateOk(s) && Formatted(s)
    ensures LacksLast(s, DIR_A, NAME_A) && CanTake(s, NAME_A) && RfsFile.FreeCount(s.v.freemap) > 2
  {
    hide StateOk, Fields, RfsFile.FreeCount, UsedIsOwned;
    PartsOfA();
    assert [DIR_A][..0] == [];
  }

  lemma LacksB(s: State, s': State, i: int)
    requires Formatted(s) && s'.v.names == s.v.names[NAME_A := i] && i !in s.v.node
    requires IsDir(s'.v, i) && s'.v.node[i].size == 0
    ensures LacksLast(s', FILE_IN_A, Key(i, NAME_OF_B)) && CanTake(s', Key(i, NAME_OF_B))
  {
    hide Fields, RfsFile.FreeCount, UsedIsOwned;
    PartsOfA();
    assert [DIR_A, NAME_OF_B][..1] == [DIR_A];
    assert [DIR_A][1..] == [];
    assert Follow(s'.v.names, i, []) == Some(i);
    assert Follow(s'.v.names, ROOT, [DIR_A]) == Some(i);
  }

  /** On a formatted disk, mkdir of A and the creation of A/b succeed one after the other, and then
      A leads to a directory and A/b to a new, empty file in it, open for reading and writing. */
  lemma MadeInside(states: seq<Snapshot>, events: seq<Event>) returns (i: int, j: int)
    requires IsRun(states, events, MakingCalls()) && |states| > 0
    requires Formatted(states[0].s) && states[0].nfiles == map[]
    ensures |events| == 2 && |states| == 3 && events[0].o == events[1].o == Done
    ensures LeadsTo(states[2].s, DIR_A, i) && IsDir(states[2].s.v, i)
    ensures LeadsTo(states[2].s, FILE_IN_A, j) && OfKind(states[2].s, j, File) && states[2].s.v.node[j].size == 0
    ensures states[2].s.v.names == map[NAME_A := i, Key(i, NAME_OF_B) := j]
    ensures NewDescriptor(states[1].s, states[2].s, events[1].fd, j, true, true)
    ensures WalkOf(states[2].s, FILE_IN_A) == Arrives(j)
  {
    hide StateOk, Verdict, Effect, LacksLast, LeadsTo, CanTake, IsRun, RfsFile.FreeCount, WalkOf, NewDescriptor,
      UsedIsOwned;
    var ops := MakingCalls();
    RunStart(states, events, ops);
    RunLength(states, events, ops);
    var s := states[0].s;
    LacksA(s);
    MkdirMakes(states[0], DIR_A, NAME_A);
    Advance(states, events, ops, 0);
    i := MkdirMade(s, states[1].s, DIR_A, NAME_A, events[0].fd);
    LacksB(s, states[1].s, i);
    OpensNew(states[1], 0, FILE_IN_A, 66, Key(i, NAME_OF_B));
    Advance(states, events, ops, 1);
    j := OpenedNew(states[1], states[2].s, 0, FILE_IN_A, 66, Key(i, NAME_OF_B), events[1].fd);
    DirectoriesStay(states, events, DIR_A, i, 1, 2);
    PathMeans(states[2].s, FILE_IN_A);
  }
}
