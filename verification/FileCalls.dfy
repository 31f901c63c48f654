/**
 The file system calls as a process makes them: a path or a descriptor in, an
 outcome out.  Each call is a step of a state machine over the mounted volume, the
 caches and the descriptor tables.  A verdict says, of every call in every state, how
 it ends; an effect says what it leaves.
 */
module FileCalls {
  import opened Base
  import opened RfsLayout
  import opened RfsVolume
  import opened VfsState
  import opened VfsSteps
  import opened PathTokens
  import opened VfsTables
  import opened FileSystem
  import RfsFile

  // ---------------------------------------------------------------------
  // Descriptor slots
  // ---------------------------------------------------------------------

  function OpenCount(files: map<Fd, OpenFile>, p: nat, n: nat): nat {
    if n == 0 then 0 else OpenCount(files, p, n - 1) + (if Fd(p, n - 1) in files then 1 else 0)
  }

  function Count(nfiles: map<nat, nat>, p: nat): nat { if p in nfiles then nfiles[p] else 0 }

  function OneMoreFile(nfiles: map<nat, nat>, p: nat): map<nat, nat> { nfiles[p := Count(nfiles, p) + 1] }

  // A process has at most as many descriptors open as its nfiles says.
  ghost predicate SlotsCounted(files: map<Fd, OpenFile>, nfiles: map<nat, nat>) {
    forall p: nat {:trigger Count(nfiles, p)} :: OpenCount(files, p, MAX_FILES) <= Count(nfiles, p)
  }

  lemma {:induction false} CountAdds(files: map<Fd, OpenFile>, fd: Fd, f: OpenFile, p: nat, n: nat)
    requires fd !in files
    ensures OpenCount(files[fd := f], p, n) <= OpenCount(files, p, n) + (if fd.process == p then 1 else 0)
    ensures fd.process != p || n <= fd.slot ==> OpenCount(files[fd := f], p, n) == OpenCount(files, p, n)
  {
    if n > 0 { CountAdds(files, fd, f, p, n - 1); }
  }

  lemma {:induction false} CountWithin(files: map<Fd, OpenFile>, files': map<Fd, OpenFile>, p: nat, n: nat)
    requires forall fd {:trigger fd in files'} :: fd in files' ==> fd in files
    ensures OpenCount(files', p, n) <= OpenCount(files, p, n)
  {
    if n > 0 { CountWithin(files, files', p, n - 1); }
  }

  lemma SlotsAfterOpen(files: map<Fd, OpenFile>, nfiles: map<nat, nat>, fd: Fd, f: OpenFile)
    requires SlotsCounted(files, nfiles) && fd !in files
    ensures SlotsCounted(files[fd := f], OneMoreFile(nfiles, fd.process))
  {
    var nfiles' := OneMoreFile(nfiles, fd.process);
    forall p: nat ensures OpenCount(files[fd := f], p, MAX_FILES) <= Count(nfiles', p) {
      CountAdds(files, fd, f, p, MAX_FILES);
      assert OpenCount(files, p, MAX_FILES) <= Count(nfiles, p);
    }
  }

  lemma SlotsWithin(files: map<Fd, OpenFile>, files': map<Fd, OpenFile>, nfiles: map<nat, nat>)
    requires SlotsCounted(files, nfiles)
    requires forall fd {:trigger fd in files'} :: fd in files' ==> fd in files
    ensures SlotsCounted(files', nfiles)
  {
    forall p: nat ensures OpenCount(files', p, MAX_FILES) <= Count(nfiles, p) {
      CountWithin(files, files', p, MAX_FILES);
      assert OpenCount(files, p, MAX_FILES) <= Count(nfiles, p);
    }
  }

  // The slot loop of do_open and do_opendir: the first free slot, or MAX_FILES.
  method FindSlot(files: map<Fd, OpenFile>, p: nat) returns (k: nat)
    ensures k <= MAX_FILES
    ensures forall j: nat {:trigger Fd(p, j)} :: j < k ==> Fd(p, j) in files
    ensures k < MAX_FILES ==> Fd(p, k) !in files
    ensures OpenCount(files, p, MAX_FILES) < MAX_FILES ==> k < MAX_FILES
  {
    k := 0;
    while k < MAX_FILES && Fd(p, k) in files
      invariant k <= MAX_FILES && OpenCount(files, p, k) == k
      invariant forall j: nat {:trigger Fd(p, j)} :: j < k ==> Fd(p, j) in files
    {
      k := k + 1;
    }
  }

  // ---------------------------------------------------------------------
  // Effects of the calls on the state
  // ---------------------------------------------------------------------

  datatype Op =
    | Open(process: nat, path: CString, flags: int)
    | OpenDir(process: nat, path: CString)
    | Read(fd: Fd, len: nat)
    | Write(fd: Fd, bytes: Bytes)
    | Seek(fd: Fd, offset: int, whence: int)
    | Close(fd: Fd)
    | CloseDir(fd: Fd)
    | Link(oldpath: CString, newpath: CString)
    | Unlink(path: CString)
    | Mkdir(path: CString)

  // The volume, the caches and the descriptors, and the counts of files opened.
  datatype Snapshot = Snapshot(s: State, nfiles: map<nat, nat>)

  predicate Creates(flags: int) { flags / 64 % 2 == 1 }
  function Mode(flags: int): int { flags % 4 }

  const NO_FD: Fd := Fd(0, 0)
  const LSEEK_SET := 0
  const LSEEK_CUR := 1

  function Target(at: int, offset: int, whence: int): int { if whence == LSEEK_SET then offset else at + offset }

  // Where a path leads, by the directories on disk.
  ghost function WalkOf(s: State, path: Bytes): Walk {
    if Blocks(s.v.data) then DiskWalk(s.dino, s.v.data, ROOT, path) else NotDir(ROOT)
  }

  // The directory entry at its end.
  ghost function EntryAtEnd(s: State, path: Bytes): Key {
    if Blocks(s.v.data) then LastEntry(s.dino, s.v.data, ROOT, path, NO_ENTRY) else NO_ENTRY
  }

  predicate OfKind(s: State, i: int, kind: Kind) { i in s.v.node && s.v.node[i].kind == kind }

  // The path runs out in directory key.dir at the name key.name, and that name is the
  // path's last component.
  ghost predicate MissesLast(s: State, path: Bytes, key: Key) {
    && WalkOf(s, path) == Lacks(key.dir, key.name)
    && Tokens(path) != [] && key.name == LastOf(Tokens(path))
  }

  // The file behind an open descriptor.
  ghost function FileOf(s: State, fd: Fd): int {
    if fd in s.c.files && Points(s.c, s.c.files[fd].dentry) then Inum(s.c, s.c.files[fd].dentry) else -1
  }

  ghost predicate OnKind(s: State, fd: Fd, kind: Kind) {
    && fd in s.c.files && Points(s.c, s.c.files[fd].dentry)
    && FileOf(s, fd) in s.v.node && s.v.node[FileOf(s, fd)].kind == kind
  }

  // ---------------------------------------------------------------------
  // How a call ends
  // ---------------------------------------------------------------------

  // vfs_open up to the file mode.
  ghost function ResolveVerdict(s: State, path: Bytes, create: bool): Outcome {
    if !PathFits(path) then OutOfScope
    else match WalkOf(s, path)
      case NotDir(_) => OutOfScope
      case Arrives(i) => if OfKind(s, i, File) then Done else Refused
      case Lacks(dir, name) =>
        if !create || !MissesLast(s, path, Key(dir, name)) then Refused else CreateVerdict(s.v, Key(dir, name))
  }

  ghost function OpenVerdict(m: Snapshot, process: nat, path: Bytes, flags: int): Outcome {
    var o := ResolveVerdict(m.s, path, Creates(flags));
    if o != Done then o else if Mode(flags) == 3 || Count(m.nfiles, process) >= MAX_FILES then Panic else Done
  }

  ghost predicate SlotsFull(files: map<Fd, OpenFile>, process: nat) {
    forall j: nat {:trigger Fd(process, j)} :: j < MAX_FILES ==> Fd(process, j) in files
  }

  ghost function ResolveDirVerdict(s: State, path: Bytes): Outcome {
    if !PathFits(path) then OutOfScope
    else match WalkOf(s, path)
      case NotDir(_) => OutOfScope
      case Lacks(_, _) => Refused
      case Arrives(i) => if OfKind(s, i, Dir) then Done else Refused
  }

  ghost function OpenDirVerdict(s: State, process: nat, path: Bytes): Outcome {
    var o := ResolveDirVerdict(s, path);
    if o == Done && SlotsFull(s.c.files, process) then Panic else o
  }

  ghost function MkdirVerdict(s: State, path: Bytes): Outcome {
    if !PathFits(path) then OutOfScope
    else match WalkOf(s, path)
      case NotDir(_) => OutOfScope
      case Arrives(_) => Refused
      case Lacks(dir, name) =>
        if MissesLast(s, path, Key(dir, name)) then CreateVerdict(s.v, Key(dir, name)) else Refused
  }

  // The new name of a link.
  ghost function NewNameVerdict(s: State, path: Bytes): Outcome {
    if !PathFits(path) then OutOfScope
    else match WalkOf(s, path)
      case NotDir(_) => OutOfScope
      case Arrives(_) => Refused
      case Lacks(dir, name) =>
        if !MissesLast(s, path, Key(dir, name)) then Refused
        else if RoomFor(s.v, Key(dir, name)) then Done else OutOfScope
  }

  ghost function LinkVerdict(s: State, oldpath: Bytes, newpath: Bytes): Outcome {
    if !PathFits(oldpath) then OutOfScope
    else match WalkOf(s, oldpath)
      case NotDir(_) => OutOfScope
      case Lacks(_, _) => Refused
      case Arrives(i) => if OfKind(s, i, File) then NewNameVerdict(s, newpath) else Refused
  }

  // Some process holds the file open under the very name that the path ends in.
  ghost predicate OpenUnder(s: State, path: Bytes) {
    exists fd {:trigger s.c.files[fd]} :: fd in s.c.files &&
      EntryOf(s.c, s.c.files[fd].dentry) == EntryAtEnd(s, path)
  }

  ghost function UnlinkVerdict(s: State, path: Bytes): Outcome {
    if !PathFits(path) then OutOfScope
    else match WalkOf(s, path)
      case NotDir(_) => OutOfScope
      case Lacks(_, _) => Refused
      case Arrives(i) => if !OfKind(s, i, File) || OpenUnder(s, path) then Refused else Done
  }

  ghost function CloseVerdict(s: State, fd: Fd, kind: Kind): Outcome {
    if fd !in s.c.files then OutOfScope else if OnKind(s, fd, kind) then Done else Refused
  }

  ghost function SeekVerdict(s: State, fd: Fd, offset: int, whence: int): Outcome {
    if fd !in s.c.files then OutOfScope
    else if OnKind(s, fd, File) && whence in {LSEEK_SET, LSEEK_CUR} &&
            0 <= Target(s.c.files[fd].offset, offset, whence) <= s.v.node[FileOf(s, fd)].size then Done
    else Refused
  }

  // At the end of a file that fills all its blocks: rfs_read would take a block the
  // file does not have.
  ghost predicate AtFullEnd(s: State, fd: Fd) {
    && OnKind(s, fd, File)
    && s.c.files[fd].offset == s.v.node[FileOf(s, fd)].size == s.v.node[FileOf(s, fd)].blocks * BLKSIZE
  }

  ghost function ReadVerdict(s: State, fd: Fd): Outcome {
    if fd !in s.c.files then OutOfScope
    else if !s.c.files[fd].readable then Panic
    else if !OnKind(s, fd, File) then Refused
    else if AtFullEnd(s, fd) then OutOfScope else Done
  }

  ghost function WriteVerdict(s: State, fd: Fd, buf: Bytes): Outcome {
    if fd !in s.c.files then OutOfScope
    else if !s.c.files[fd].writable then Panic
    else if !OnKind(s, fd, File) then Refused
    else if s.c.files[fd].offset + |buf| > DIRECT * BLKSIZE then OutOfScope
    else if RfsFile.FreeCount(s.v.freemap) < RfsFile.Needed(s.v.node[FileOf(s, fd)], s.c.files[fd].offset, |buf|)
    then Panic else Done
  }

  ghost function Verdict(m: Snapshot, op: Op): Outcome {
    match op
    case Open(process, path, flags) => OpenVerdict(m, process, path, flags)
    case OpenDir(process, path) => OpenDirVerdict(m.s, process, path)
    case Read(fd, _) => ReadVerdict(m.s, fd)
    case Write(fd, bytes) => WriteVerdict(m.s, fd, bytes)
    case Seek(fd, offset, whence) => SeekVerdict(m.s, fd, offset, whence)
    case Close(fd) => CloseVerdict(m.s, fd, File)
    case CloseDir(fd) => CloseVerdict(m.s, fd, Dir)
    case Link(oldpath, newpath) => LinkVerdict(m.s, oldpath, newpath)
    case Unlink(path) => UnlinkVerdict(m.s, path)
    case Mkdir(path) => MkdirVerdict(m.s, path)
  }

  // ---------------------------------------------------------------------
  // What a call leaves
  // ---------------------------------------------------------------------

  // Nothing but the caches may have changed.
  ghost predicate Silent(s: State, s': State) {
    s'.v == s.v && s'.dino == s.dino && s'.c.files == s.c.files
  }

  // From s, the path leads to inode i by the entry, or i is a new file under the name that
  // was missing.
  ghost predicate Resolved(s: State, s': State, path: Bytes, create: bool, kind: Kind, i: int, key: Key) {
    && i in s'.v.node && s'.v.node[i].kind == kind
    && (|| (WalkOf(s, path) == Arrives(i) && key == EntryAtEnd(s, path) && s'.v == s.v && s'.dino == s.dino)
        || (create && MissesLast(s, path, key) && CreatedName(s.v, s'.v, key, File, i)))
  }

  // One descriptor more, in the first free slot of the process.
  ghost predicate OpenEffect(s: State, s': State, process: nat, path: Bytes, create: bool, kind: Kind, mode: int,
                             fd: Fd) {
    && fd.process == process && fd !in s.c.files && fd.slot < MAX_FILES
    && (forall j: nat {:trigger Fd(process, j)} :: j < fd.slot ==> Fd(process, j) in s.c.files)
    && fd in s'.c.files && s'.c.files == s.c.files[fd := s'.c.files[fd]]
    && var f := s'.c.files[fd];
    && f.offset == 0 && f.readable == (mode != 1) && f.writable == (mode != 0) && Points(s'.c, f.dentry)
    && Resolved(s, s', path, create, kind, Inum(s'.c, f.dentry), EntryOf(s'.c, f.dentry))
  }

  ghost predicate MkdirEffect(s: State, s': State, path: Bytes) {
    && s'.c.files == s.c.files && WalkOf(s, path).Lacks?
    && var key := Key(WalkOf(s, path).dir, WalkOf(s, path).name);
    && MissesLast(s, path, key) && key in s'.v.names && CreatedName(s.v, s'.v, key, Dir, s'.v.names[key])
  }

  ghost predicate LinkEffect(s: State, s': State, oldpath: Bytes, newpath: Bytes) {
    && s'.c.files == s.c.files && KeepsDents(s.c, s'.c)
    && WalkOf(s, oldpath).Arrives? && WalkOf(s, newpath).Lacks?
    && var i, key := WalkOf(s, oldpath).inum, Key(WalkOf(s, newpath).dir, WalkOf(s, newpath).name);
    && MissesLast(s, newpath, key) && LinkedName(s.v, s'.v, key, i) && StandsFor(s'.c, key, i)
  }

  ghost predicate UnlinkEffect(s: State, s': State, path: Bytes) {
    var key := EntryAtEnd(s, path);
    UnlinkedName(s, s', key) && WalkOf(s, path) == Arrives(s.v.names[key])
  }

  ghost predicate OffsetEffect(s: State, s': State, fd: Fd, at: int) {
    && s'.v == s.v && s'.dino == s.dino
    && fd in s.c.files && s'.c.files == s.c.files[fd := s.c.files[fd].(offset := at)]
  }

  // Where a read stops: after len bytes or at the end of the file.
  ghost function ReadEnd(s: State, fd: Fd, len: nat): int {
    if OnKind(s, fd, File) then RfsFile.Min(s.c.files[fd].offset + len, s.v.node[FileOf(s, fd)].size) else 0
  }

  ghost function SeekEnd(s: State, fd: Fd, offset: int, whence: int): int {
    if fd in s.c.files then Target(s.c.files[fd].offset, offset, whence) else 0
  }

  ghost predicate WriteEffect(s: State, s': State, fd: Fd, buf: Bytes) {
    && fd in s.c.files && s'.dino == s.dino && KeepsDents(s.c, s'.c)
    && s'.c.files == s.c.files[fd := s.c.files[fd].(offset := s.c.files[fd].offset + |buf|)]
    && VolumeWritten(s.v, s'.v, FileOf(s, fd), s.c.files[fd].offset, buf) && FileOf(s', fd) == FileOf(s, fd)
  }

  // The only descriptor on its dentry, and that the only dentry on its vinode.
  ghost predicate LastOnInode(s: State, fd: Fd) {
    && OnKind(s, fd, File)
    && var d := s.c.files[fd].dentry;
    && (forall g {:trigger g in s.c.files} :: g in s.c.files && g != fd ==> s.c.files[g].dentry != d)
    && (forall e {:trigger e in s.c.dents} :: e in s.c.dents && e != d ==> s.c.dents[e].inode != s.c.dents[d].inode)
  }

  // One descriptor less; the inode goes back to disk with its last descriptor and dentry.
  ghost predicate CloseEffect(s: State, s': State, fd: Fd) {
    && s'.v == s.v && fd in s.c.files && s'.c.files == s.c.files - {fd}
    && var i := FileOf(s, fd);
    && (if LastOnInode(s, fd) then 0 <= i < |s.dino| && s'.dino == s.dino[i := s.v.node[i]] else s'.dino == s.dino)
  }

  // Every descriptor that stays open stays on its file.
  ghost predicate KeepsOpen(s: State, s': State) {
    forall g {:trigger g in s'.c.files} :: g in s.c.files && g in s'.c.files ==> FileOf(s', g) == FileOf(s, g)
  }

  // What a completed call does; `fd` is the descriptor that an open returns.
  ghost predicate Effect(s: State, s': State, op: Op, o: Outcome, fd: Fd) {
    match o
    case Refused => Silent(s, s')
    case Done =>
      (match op
       case Open(process, path, flags) => OpenEffect(s, s', process, path, Creates(flags), File, Mode(flags), fd)
       case OpenDir(process, path) => OpenEffect(s, s', process, path, false, Dir, 0, fd)
       case Read(f, len) => OffsetEffect(s, s', f, ReadEnd(s, f, len))
       case Write(f, bytes) => WriteEffect(s, s', f, bytes)
       case Seek(f, offset, whence) => OffsetEffect(s, s', f, SeekEnd(s, f, offset, whence))
       case Close(f) => CloseEffect(s, s', f)
       case CloseDir(f) => CloseEffect(s, s', f)
       case Link(oldpath, newpath) => LinkEffect(s, s', oldpath, newpath)
       case Unlink(path) => UnlinkEffect(s, s', path)
       case Mkdir(path) => MkdirEffect(s, s', path))
    case _ => false
  }

  predicate Halts(o: Outcome) { o.Panic? || o.OutOfScope? }

  // The call is over, and this is what it left.
  ghost predicate Follows(m: Snapshot, m': Snapshot, op: Op, o: Outcome, fd: Fd) {
    Effect(m.s, m'.s, op, o, fd) && m'.nfiles == Counted(m.nfiles, op, o)
  }

  // nfiles counts the opens of a process; nothing counts it down.
  function Counted(nfiles: map<nat, nat>, op: Op, o: Outcome): map<nat, nat> {
    if o.Done? && (op.Open? || op.OpenDir?) then OneMoreFile(nfiles, op.process) else nfiles
  }

  // ---------------------------------------------------------------------
  // Paths
  // ---------------------------------------------------------------------

  /** get_base_name: a pointer to the last token that strtok hands out, and the string there
      once it has handed out all. */
  method GetBaseName(path: CString) returns (last: Bytes)
    requires HasToken(path) && PathFits(path)
    ensures Tokens(path) != [] && last == LastOf(Tokens(path))
  {
    hide At, CStr, HasToken, Token, AfterToken, Reading, Standing, Past, Terminated, Tokens;
    var copy, strtok := NewCopy(path);
    ghost var rest: Bytes, seen: seq<Bytes> := path, [];
    var token := NextToken(copy, strtok, true, rest);
    var lastToken := NONE;
    ReadingStarts(copy, strtok, token, path);
    while token != NONE
      invariant fresh(copy) && fresh(strtok) && Reading(copy, strtok, token, lastToken, path, rest, seen)
      decreases |rest|
    {
      var next;
      next, rest, seen := ReadOn(copy, strtok, token, lastToken, path, rest, seen);
      lastToken, token := token, next;
    }
    ReadingEnds(copy, strtok, lastToken, path, rest, seen);
    last := CStr(copy[..][lastToken..]);
  }

  // Of the path's tokens, `seen` have been handed out, the last of them at lastToken, and
  // `token` is the next, if there is one; `rest` is what the others are in.
  ghost predicate Reading(copy: array<byte>, strtok: Strtok, token: int, lastToken: int,
                          path: Bytes, rest: Bytes, seen: seq<Bytes>)
    reads copy, strtok
  {
    && Terminated(copy, strtok) && Standing(copy, strtok, token, rest) && (token != NONE ==> Past(copy, strtok, token))
    && Tokens(path) == seen + Tokens(rest)
    && (if lastToken == NONE then rest == path
        else 0 <= lastToken < copy.Length && seen != [] && At(copy[..], lastToken) == seen[|seen| - 1])
  }

  lemma ReadingStarts(copy: array<byte>, strtok: Strtok, token: int, path: Bytes)
    requires Terminated(copy, strtok) && Standing(copy, strtok, token, path)
    requires token != NONE ==> Past(copy, strtok, token)
    ensures Reading(copy, strtok, token, NONE, path, path, [])
  {
    hide Tokens;
  }

  method ReadOn(copy: array<byte>, strtok: Strtok, token: int, ghost lastToken: int, ghost path: Bytes,
                ghost rest1: Bytes, ghost seen1: seq<Bytes>)
    returns (next: int, ghost rest: Bytes, ghost seen: seq<Bytes>)
    requires token != NONE && Reading(copy, strtok, token, lastToken, path, rest1, seen1)
    modifies copy, strtok
    ensures Reading(copy, strtok, next, token, path, rest, seen) && |rest| < |rest1|
  {
    hide At, CStr, HasToken, Token, AfterToken, Standing, Past, Terminated;
    TokenHere(copy, strtok, token, rest1);
    rest, seen := AfterToken(rest1), seen1 + [Token(rest1)];
    assert Tokens(rest1) == [Token(rest1)] + Tokens(rest);
    hide Tokens;
    assert seen1 + ([Token(rest1)] + Tokens(rest)) == seen + Tokens(rest);
    next := NextKeeping(copy, strtok, token, rest);
  }

  lemma ReadingEnds(copy: array<byte>, strtok: Strtok, lastToken: int, path: Bytes, rest: Bytes, seen: seq<Bytes>)
    requires HasToken(path) && Reading(copy, strtok, NONE, lastToken, path, rest, seen)
    ensures Tokens(path) != [] && 0 <= lastToken < copy.Length && CStr(copy[..][lastToken..]) == LastOf(Tokens(path))
  {
    hide At, CStr, HasToken, Standing, Past, Terminated, Tokens;
    NoTokenHere(copy, strtok, rest);
    NoTokens(rest);
    AtIsCStr(copy[..], lastToken);
    assert Tokens(path) == seen;
  }

  lemma NoTokens(s: Bytes)
    requires !HasToken(s)
    ensures Tokens(s) == []
  {
  }

  lemma MissHasToken(dino: seq<Node>, data: map<int, Block>, path: Bytes)
    requires Blocks(data) && DiskWalk(dino, data, ROOT, path).Lacks?
    ensures HasToken(path)
  {
  }

  // ---------------------------------------------------------------------
  // The calls
  // ---------------------------------------------------------------------

  class Calls {
    const fs: Vfs
    var nfiles: map<nat, nat>

    constructor (fs: Vfs)
      requires fs.Valid() && fs.files == map[]
      ensures this.fs == fs && Valid() && nfiles == map[]
    {
      this.fs := fs;
      nfiles := map[];
      new;
      hide StateOk, SlotsCounted, VinodeTableIs, DentryTableIs, Shaped;
      NoneCounted(fs.files, nfiles);
    }

    ghost predicate Valid()
      reads this, fs
    {
      fs.Valid() && SlotsCounted(fs.files, nfiles)
    }

    ghost function Snap(): Snapshot
      reads this, fs
    {
      Snapshot(fs.S(), nfiles)
    }

    // alloc_vfs_file and the copy into the descriptor slot.
    method Install(fd: Fd, f: OpenFile)
      requires Valid() && fd !in fs.files && f.dentry in fs.dents && f.offset == 0
      modifies this, fs`files, fs`dents
      ensures Valid() && fs.S() == old(fs.S()).(c := Opened(old(fs.S()).c, fd, f))
      ensures nfiles == OneMoreFile(old(nfiles), fd.process)
    {
      hide StateOk, SlotsCounted, VinodeTableIs, DentryTableIs, Shaped;
      OpenedOk(fs.S(), fd, f);
      SlotsAfterOpen(fs.files, nfiles, fd, f);
      fs.dents := fs.dents[f.dentry := fs.dents[f.dentry].(dref := fs.dents[f.dentry].dref + 1)];
      fs.files := fs.files[fd := f];
      nfiles := OneMoreFile(nfiles, fd.process);
      assert fs.S() == old(fs.S()).(c := Opened(old(fs.S()).c, fd, f));
    }

    // vfs_open up to the file mode: the dentry to open.
    method Resolve(path: CString, create: bool) returns (o: Outcome, d: Ptr)
      requires fs.Valid()
      modifies fs
      ensures o == ResolveVerdict(old(fs.S()), path, create)
      ensures !Halts(o) ==> fs.Valid() && fs.files == old(fs.files)
      ensures !Halts(o) ==> KeepsDents(old(fs.S()).c, fs.S().c)
      ensures o.Refused? ==> Silent(old(fs.S()), fs.S())
      ensures o.Done? ==> Points(fs.S().c, d)
      ensures o.Done? ==> Resolved(old(fs.S()), fs.S(), path, create, File, Inum(fs.S().c, d), EntryOf(fs.S().c, d))
    {
      hide StateOk, Extends, DiskWalk, LastEntry, CreatedName, Tokens, VinodeTableIs, DentryTableIs;
      hide EntryOf, KeepsDents, HasToken;
      ghost var s := fs.S();
      d := 0;
      if |path| >= MAX_PATH_LEN { return OutOfScope, d; }
      var r := fs.LookupFinalDentry(path);
      ghost var s1 := fs.S();
      ExtendsVolume(s, s1);
      ExtendsKeeps(s, s1);
      match r
      case ThroughFile => o := OutOfScope;
      case Found(e) =>
        DentryNode(s1, e);
        d := e;
        o := if fs.vinodes[fs.dents[e].inode].node.kind != File then Refused else Done;
      case Missing(parent, name) =>
        MissHasToken(fs.dino, fs.data, path);
        var basename := GetBaseName(path);
        if !create || name != basename { return Refused, 0; }
        o, d := fs.CreateUnder(parent, name, File);
        if o.Done? {
          CreatedNames(s.v, fs.S().v, Key(Inum(s1.c, parent), name), File, Inum(fs.S().c, d));
          KeepsTrans(s.c, s1.c, fs.S().c);
        }
    }

    /** do_open. */
    method DoOpen(process: nat, path: CString, flags: int) returns (o: Outcome, fd: Fd)
      requires Valid()
      modifies this, fs
      ensures o == OpenVerdict(old(Snap()), process, path, flags)
      ensures !Halts(o) ==> Valid()
      ensures o.Refused? ==> Silent(old(fs.S()), fs.S())
      ensures o.Done? ==> OpenEffect(old(fs.S()), fs.S(), process, path, Creates(flags), File, Mode(flags), fd)
      ensures o.Refused? ==> nfiles == old(nfiles)
      ensures o.Done? ==> nfiles == OneMoreFile(old(nfiles), process)
      ensures !Halts(o) ==> KeepsOpen(old(fs.S()), fs.S())
    {
      hide StateOk, SlotsCounted, Resolved, ResolveVerdict, VinodeTableIs, DentryTableIs, Shaped, KeepsDents, KeepsOpen;
      ghost var s := fs.S();
      fd := NO_FD;
      var d;
      o, d := Resolve(path, Creates(flags));
      if o.Refused? { DentsKeepOpen(s, fs.S()); }
      if o != Done { return; }
      var mode := Mode(flags);
      if mode == 3 { return Panic, fd; }
      if Count(nfiles, process) >= MAX_FILES { return Panic, fd; }
      SlotLeft(fs.files, nfiles, process);
      var k := FindSlot(fs.files, process);
      fd := Fd(process, k);
      OpenedEffect(s, fs.S(), path, Creates(flags), File, mode, fd, OpenFile(d, 0, mode != 1, mode != 0));
      OpenKeepsOpen(s, fs.S(), fd, OpenFile(d, 0, mode != 1, mode != 0));
      Install(fd, OpenFile(d, 0, mode != 1, mode != 0));
    }

    // vfs_opendir up to the descriptor: the directory to open.
    method ResolveDir(path: CString) returns (o: Outcome, d: Ptr)
      requires fs.Valid()
      modifies fs
      ensures o == ResolveDirVerdict(old(fs.S()), path)
      ensures !Halts(o) ==> fs.Valid() && fs.files == old(fs.files)
      ensures !Halts(o) ==> KeepsDents(old(fs.S()).c, fs.S().c)
      ensures o.Refused? ==> Silent(old(fs.S()), fs.S())
      ensures o.Done? ==> Points(fs.S().c, d)
      ensures o.Done? ==> Resolved(old(fs.S()), fs.S(), path, false, Dir, Inum(fs.S().c, d), EntryOf(fs.S().c, d))
    {
      hide StateOk, Extends, DiskWalk, LastEntry, Tokens, VinodeTableIs, DentryTableIs, Shaped, EntryOf, KeepsDents;
      ghost var s := fs.S();
      d := 0;
      if |path| >= MAX_PATH_LEN { return OutOfScope, d; }
      var r := fs.LookupFinalDentry(path);
      ExtendsVolume(s, fs.S());
      ExtendsKeeps(s, fs.S());
      if r.ThroughFile? { return OutOfScope, d; }
      if r.Missing? { return Refused, d; }
      d := r.dentry;
      DentryNode(fs.S(), d);
      var n := fs.vinodes[fs.dents[d].inode].node;
      if n.kind != Dir { return Refused, d; }
      // one block, so the "memory discontinuity" panic of rfs_hook_opendir does not happen
      OneBlock(fs.S(), d);
      var page := fs.AllocPage();
      var ok, dirCache := HookOpendir(n, fs.data, [page]);
      assert ok;
      o := Done;
    }

    /** do_opendir; there is no check of nfiles, so the slots can run out. */
    method DoOpenDir(process: nat, path: CString) returns (o: Outcome, fd: Fd)
      requires Valid()
      modifies this, fs
      ensures o == OpenDirVerdict(old(fs.S()), process, path)
      ensures !Halts(o) ==> Valid()
      ensures o.Refused? ==> Silent(old(fs.S()), fs.S())
      ensures o.Done? ==> OpenEffect(old(fs.S()), fs.S(), process, path, false, Dir, 0, fd)
      ensures o.Refused? ==> nfiles == old(nfiles)
      ensures o.Done? ==> nfiles == OneMoreFile(old(nfiles), process)
      ensures !Halts(o) ==> KeepsOpen(old(fs.S()), fs.S())
    {
      hide StateOk, SlotsCounted, Resolved, ResolveDirVerdict, VinodeTableIs, DentryTableIs, Shaped, KeepsDents,
        KeepsOpen;
      ghost var s := fs.S();
      fd := NO_FD;
      var d;
      o, d := ResolveDir(path);
      if o.Refused? { DentsKeepOpen(s, fs.S()); }
      if o != Done { return; }
      var k := FindSlot(fs.files, process);
      if k == MAX_FILES { return Panic, fd; }
      fd := Fd(process, k);
      OpenedEffect(s, fs.S(), path, false, Dir, 0, fd, OpenFile(d, 0, true, false));
      OpenKeepsOpen(s, fs.S(), fd, OpenFile(d, 0, true, false));
      Install(fd, OpenFile(d, 0, true, false));
    }

    /** do_mkdir. */
    method DoMkdir(path: CString) returns (o: Outcome)
      requires Valid()
      modifies fs
      ensures o == MkdirVerdict(old(fs.S()), path)
      ensures !Halts(o) ==> Valid()
      ensures o.Refused? ==> Silent(old(fs.S()), fs.S())
      ensures o.Done? ==> MkdirEffect(old(fs.S()), fs.S(), path)
      ensures !Halts(o) ==> KeepsOpen(old(fs.S()), fs.S())
    {
      hide StateOk, Extends, DiskWalk, LastEntry, CreatedName, Tokens, SlotsCounted, VinodeTableIs, DentryTableIs;
      hide EntryOf, KeepsDents, HasToken, KeepsOpen;
      ghost var s := fs.S();
      if |path| >= MAX_PATH_LEN { return OutOfScope; }
      var r := fs.LookupFinalDentry(path);
      ghost var s1 := fs.S();
      ExtendsVolume(s, s1);
      ExtendsKeeps(s, s1);
      DentsKeepOpen(s, s1);
      match r
      case ThroughFile => o := OutOfScope;
      case Found(_) => o := Refused;
      case Missing(parent, name) =>
        MissHasToken(fs.dino, fs.data, path);
        var basename := GetBaseName(path);
        if name != basename { return Refused; }
        ghost var key := Key(Inum(s1.c, parent), name);
        var d;
        o, d := fs.CreateUnder(parent, name, Dir);
        if o.Done? {
          CreatedNames(s.v, fs.S().v, key, Dir, Inum(fs.S().c, d));
          KeepsTrans(s.c, s1.c, fs.S().c);
          DentsKeepOpen(s, fs.S());
        }
    }

    /** do_link. */
    method DoLink(oldpath: CString, newpath: CString) returns (o: Outcome)
      requires Valid()
      modifies fs
      ensures o == LinkVerdict(old(fs.S()), oldpath, newpath)
      ensures !Halts(o) ==> Valid()
      ensures o.Refused? ==> Silent(old(fs.S()), fs.S())
      ensures o.Done? ==> LinkEffect(old(fs.S()), fs.S(), oldpath, newpath)
      ensures !Halts(o) ==> KeepsOpen(old(fs.S()), fs.S())
    {
      hide StateOk, Extends, DiskWalk, LastEntry, LinkedName, Tokens, SlotsCounted, VinodeTableIs, DentryTableIs;
      hide EntryOf, KeepsDents, StandsFor, HasToken, KeepsOpen;
      ghost var s := fs.S();
      if |oldpath| >= MAX_PATH_LEN { return OutOfScope; }
      var r := fs.LookupFinalDentry(oldpath);
      ghost var s1 := fs.S();
      ExtendsVolume(s, s1);
      ExtendsKeeps(s, s1);
      DentsKeepOpen(s, s1);
      if r.ThroughFile? { return OutOfScope; }
      if r.Missing? { return Refused; }
      DentryNode(s1, r.dentry);
      var pi := fs.dents[r.dentry].inode;
      if fs.vinodes[pi].node.kind != File { return Refused; }
      if |newpath| >= MAX_PATH_LEN { return OutOfScope; }
      var r2 := fs.LookupFinalDentry(newpath);
      ghost var s2 := fs.S();
      ExtendsVolume(s1, s2);
      ExtendsKeeps(s1, s2);
      KeepsTrans(s.c, s1.c, s2.c);
      DentsKeepOpen(s, s2);
      ExtendsPoints(s1, s2, r.dentry);
      DentryNode(s2, r.dentry);
      if r2.ThroughFile? { return OutOfScope; }
      if r2.Found? { return Refused; }
      MissHasToken(fs.dino, fs.data, newpath);
      var basename := GetBaseName(newpath);
      if r2.name != basename { return Refused; }
      o := fs.LinkUnder(r2.parent, r2.name, pi);
      if o.Done? {
        KeepsTrans(s.c, s2.c, fs.S().c);
        DentsKeepOpen(s, fs.S());
      }
    }

    /** do_unlink. */
    method DoUnlink(path: CString) returns (o: Outcome)
      requires Valid()
      modifies fs
      ensures o == UnlinkVerdict(old(fs.S()), path)
      ensures !Halts(o) ==> Valid()
      ensures o.Refused? ==> Silent(old(fs.S()), fs.S())
      ensures o.Done? ==> UnlinkEffect(old(fs.S()), fs.S(), path)
      ensures !Halts(o) ==> KeepsOpen(old(fs.S()), fs.S())
    {
      hide StateOk, Extends, DiskWalk, LastEntry, UnlinkedName, SlotsCounted, EntryOf, OpenUnder, VinodeTableIs,
        DentryTableIs, KeepsDents, KeepsOpen, Less;
      ghost var s := fs.S();
      if |path| >= MAX_PATH_LEN { return OutOfScope; }
      var r := fs.LookupFinalDentry(path);
      ghost var s1 := fs.S();
      ExtendsVolume(s, s1);
      ExtendsKeeps(s, s1);
      DentsKeepOpen(s, s1);
      if r.ThroughFile? { return OutOfScope; }
      if r.Missing? { return Refused; }
      var d := r.dentry;
      DentryNode(s1, d);
      if fs.vinodes[fs.dents[d].inode].node.kind != File { return Refused; }
      FileEntry(s1, d);
      OpenUnderMeans(s, s1, path, d);
      if fs.dents[d].dref > 0 { return Refused; }
      fs.UnlinkDentry(d);
      UnlinkedFrom(s, s1, fs.S(), EntryOf(s1.c, d));
      LessKeepsOpen(s1, fs.S());
      KeepsOpenTrans(s, s1, fs.S());
      o := Done;
    }

    // vfs_close from the last descriptor on a dentry: the dentry leaves the cache, and
    // with the last dentry the inode goes back to disk.
    method Forget(d: Ptr)
      requires fs.Valid() && CanForget(fs.S().c, fs.S().v, d)
      modifies fs`dents, fs`dtable, fs`dhash, fs`vinodes, fs`vtable, fs`vhash, fs`dino
      ensures fs.Valid() && fs.S().v == old(fs.S()).v
      ensures Points(old(fs.S()).c, d) && 0 <= Inum(old(fs.S()).c, d) < |old(fs.dino)|
      ensures Inum(old(fs.S()).c, d) in fs.node && Less(old(fs.S()).c, fs.S().c)
      ensures var i := Inum(old(fs.S()).c, d);
              fs.dino == if OnlyDentry(old(fs.S()).c, d) then old(fs.dino)[i := fs.node[i]] else old(fs.dino)
    {
      hide StateOk, CanForget, Shaped, VinodeTableIs, DentryTableIs, OnlyDentry, Less;
      ghost var s := fs.S();
      DentryName(s, d);
      DentryNode(s, d);
      RefCounts(s, d);
      WithoutDentryOk(s, d);
      var p := fs.dents[d].inode;
      fs.DropDentry(d);
      LessDentry(s.c, d);
      ForgottenVinode(s.c, d, p);
      if fs.vinodes[p].ref == 0 {
        ghost var s1 := fs.S();
        LessVinode(s1.c, p);
        LessTrans(s.c, s1.c, WithoutVinode(s1.c, p));
        WrittenBackOk(s1, p);
        ShapedBack(s1, p);
        fs.dino := fs.dino[fs.vinodes[p].inum := fs.vinodes[p].node];
        fs.DropVinode(p);
      }
    }

    // One descriptor less on its dentry.
    method Release(fd: Fd)
      requires Valid() && fd in fs.files
      modifies fs`dents, fs`files
      ensures fs.Valid() && SlotsCounted(fs.files, nfiles)
      ensures fs.files == old(fs.files) - {fd}
      ensures old(fs.files)[fd].dentry in old(fs.dents)
      ensures fs.S() == old(fs.S()).(c := Closed(old(fs.S()).c, fd))
    {
      hide StateOk, SlotsCounted, VinodeTableIs, DentryTableIs, Shaped;
      ghost var s := fs.S();
      ClosedOk(s, fd);
      SlotsWithin(fs.files, fs.files - {fd}, nfiles);
      var d := fs.files[fd].dentry;
      fs.dents := fs.dents[d := fs.dents[d].(dref := fs.dents[d].dref - 1)];
      fs.files := fs.files - {fd};
      assert fs.S() == s.(c := Closed(s.c, fd));
    }

    /** do_close. */
    method DoClose(fd: Fd) returns (o: Outcome)
      requires Valid()
      modifies fs
      ensures o == CloseVerdict(old(fs.S()), fd, File)
      ensures !Halts(o) ==> Valid()
      ensures o.Refused? ==> Silent(old(fs.S()), fs.S())
      ensures o.Done? ==> CloseEffect(old(fs.S()), fs.S(), fd)
      ensures !Halts(o) ==> KeepsOpen(old(fs.S()), fs.S())
    {
      hide StateOk, SlotsCounted, CanForget, VinodeTableIs, DentryTableIs, Shaped, LastOnInode, OnlyDentry, KeepsOpen,
        Less;
      KeepsOpenSelf(fs.S());
      ghost var s := fs.S();
      if fd !in fs.files { return OutOfScope; }
      FilePoints(s, fd);
      var d := fs.files[fd].dentry;
      if fs.vinodes[fs.dents[d].inode].node.kind != File { return Refused; }
      LastMeans(s, fd);
      Release(fd);
      ghost var s1 := fs.S();
      ClosedLess(s.c, fd);
      LessKeepsOpen(s, s1);
      if fs.dents[d].dref == 0 {
        FileEntry(fs.S(), d);
        Forget(d);
        LessKeepsOpen(s1, fs.S());
        KeepsOpenTrans(s, s1, fs.S());
      }
      o := Done;
    }

    /** do_closedir: a directory's dentry stays cached. */
    method DoCloseDir(fd: Fd) returns (o: Outcome)
      requires Valid()
      modifies fs
      ensures o == CloseVerdict(old(fs.S()), fd, Dir)
      ensures !Halts(o) ==> Valid()
      ensures o.Refused? ==> Silent(old(fs.S()), fs.S())
      ensures o.Done? ==> CloseEffect(old(fs.S()), fs.S(), fd)
      ensures o.Done? ==> forall d {:trigger d in fs.dents} :: d in fs.dents <==> d in old(fs.dents)
      ensures !Halts(o) ==> KeepsOpen(old(fs.S()), fs.S())
    {
      hide StateOk, SlotsCounted, VinodeTableIs, DentryTableIs, Shaped, KeepsOpen, Less;
      ghost var s := fs.S();
      KeepsOpenSelf(s);
      if fd !in fs.files { return OutOfScope; }
      FilePoints(fs.S(), fd);
      if fs.vinodes[fs.dents[fs.files[fd].dentry].inode].node.kind != Dir { return Refused; }
      Release(fd);
      ClosedLess(s.c, fd);
      LessKeepsOpen(s, fs.S());
      o := Done;
    }

    // The offset of an open file moves, not past the end of the file.
    method SetOffset(fd: Fd, offset: int)
      requires Valid() && OnKind(fs.S(), fd, File) && 0 <= offset <= fs.node[FileOf(fs.S(), fd)].size
      modifies fs`files
      ensures Valid() && fs.files == old(fs.files)[fd := old(fs.files)[fd].(offset := offset)]
      ensures KeepsOpen(old(fs.S()), fs.S())
    {
      hide StateOk, SlotsCounted, VinodeTableIs, DentryTableIs, Shaped, KeepsOpen;
      ghost var s := fs.S();
      OffsetKeepsOpen(s, fd, offset);
      WithOffsetOk(s, fd, offset);
      fs.files := fs.files[fd := fs.files[fd].(offset := offset)];
      SlotsWithin(s.c.files, fs.files, nfiles);
      assert fs.S() == s.(c := WithOffset(s.c, fd, offset));
    }

    /** do_lseek. */
    method DoLseek(fd: Fd, offset: int, whence: int) returns (o: Outcome, at: int)
      requires Valid()
      modifies fs
      ensures o.Done? ==> fd in old(fs.files) && fd in fs.files &&
                          at == fs.files[fd].offset == Target(old(fs.files)[fd].offset, offset, whence)
      ensures o == SeekVerdict(old(fs.S()), fd, offset, whence)
      ensures !Halts(o) ==> Valid()
      ensures o.Refused? ==> Silent(old(fs.S()), fs.S())
      ensures o.Done? ==> OffsetEffect(old(fs.S()), fs.S(), fd, SeekEnd(old(fs.S()), fd, offset, whence))
      ensures !Halts(o) ==> KeepsOpen(old(fs.S()), fs.S())
    {
      hide StateOk, SlotsCounted, VinodeTableIs, DentryTableIs, Shaped, KeepsOpen;
      KeepsOpenSelf(fs.S());
      at := -1;
      if fd !in fs.files { return OutOfScope, at; }
      FilePoints(fs.S(), fd);
      var n := fs.vinodes[fs.dents[fs.files[fd].dentry].inode].node;
      if n.kind != File { return Refused, at; }
      if whence == LSEEK_SET {
        if offset < 0 || offset > n.size { return Refused, at; }
        at := offset;
      } else if whence == LSEEK_CUR {
        if fs.files[fd].offset + offset < 0 || fs.files[fd].offset + offset > n.size { return Refused, at; }
        at := fs.files[fd].offset + offset;
      } else {
        return Refused, at;
      }
      SetOffset(fd, at);
      o := Done;
    }

    /** do_read without the C string copies: the bytes are the file's, from the offset.
        The "offset past the end" panic of rfs_read cannot happen. */
    method DoRead(fd: Fd, len: nat) returns (o: Outcome, bytes: Bytes)
      requires Valid()
      modifies fs
      ensures o == ReadVerdict(old(fs.S()), fd)
      ensures !Halts(o) ==> Valid()
      ensures o.Refused? ==> Silent(old(fs.S()), fs.S())
      ensures o.Done? ==> OffsetEffect(old(fs.S()), fs.S(), fd, ReadEnd(old(fs.S()), fd, len))
      ensures o.Done? ==> OnKind(old(fs.S()), fd, File) && ReadGives(old(fs.S()), fd, len, bytes)
      ensures o.Done? ==> fd in fs.files && fs.files[fd].offset == old(fs.files)[fd].offset + |bytes|
      ensures !Halts(o) ==> KeepsOpen(old(fs.S()), fs.S())
    {
      hide StateOk, SlotsCounted, VinodeTableIs, DentryTableIs, Shaped, ReadEnd, ReadGives, AtFullEnd, KeepsOpen;
      ghost var s := fs.S();
      KeepsOpenSelf(s);
      bytes := [];
      if fd !in fs.files { return OutOfScope, bytes; }
      FilePoints(s, fd);
      var f := fs.files[fd];
      if !f.readable { return Panic, bytes; }
      var n := fs.vinodes[fs.dents[f.dentry].inode].node;
      if n.kind != File { return Refused, bytes; }
      var there;
      there, bytes := ReadAtOffset(fd, len);
      if !there { return OutOfScope, bytes; }
      SetOffset(fd, f.offset + |bytes|);
      o := Done;
    }

    // rfs_read at the file's offset; false if its block is past the last.
    method ReadAtOffset(fd: Fd, len: nat) returns (there: bool, bytes: Bytes)
      requires Valid() && OnKind(fs.S(), fd, File)
      ensures !there <==> AtFullEnd(fs.S(), fd)
      ensures there ==> ReadGives(fs.S(), fd, len, bytes)
      ensures there ==>
        0 <= fs.files[fd].offset + |bytes| == ReadEnd(fs.S(), fd, len) <= fs.S().v.node[FileOf(fs.S(), fd)].size
    {
      hide StateOk, SlotsCounted, NodeOk, Blocks, NodesOk, RfsFile.Content, RfsFile.FileOk, VinodeTableIs,
        DentryTableIs, Shaped;
      ghost var s := fs.S();
      FilePoints(s, fd);
      FileReady(s, fd);
      var f := fs.files[fd];
      var r, _ := RfsFile.ReadFile(fs.vinodes[fs.dents[f.dentry].inode].node, fs.data, f.offset, len);
      if r == RfsFile.NoBlock { return false, []; }
      there, bytes := true, r.bytes;
    }

    // The fields after a write, with the node and owner indexes that go with them.
    method Store(p: Ptr, io: RfsFile.Io, ghost v: Volume)
      requires p in fs.vinodes && v.data == io.data && v.freemap == io.freemap && v.names == fs.names
      modifies fs`vinodes, fs`data, fs`freemap, fs`iobuffer, fs`node, fs`owner
      ensures fs.S() == State(v, fs.dino, Patched(old(fs.S()).c, p, io.n))
    {
      fs.vinodes := fs.vinodes[p := fs.vinodes[p].(node := io.n)];
      fs.data, fs.freemap, fs.iobuffer := io.data, io.freemap, io.iobuffer;
      fs.node, fs.owner := v.node, v.owner;
    }

    // rfs_write on the vinode p of the file behind fd; false is the "no more free
    // block" panic.
    method RfsWrite(fd: Fd, p: Ptr, buf: Bytes) returns (ok: bool)
      requires Valid() && OnKind(fs.S(), fd, File) && p == fs.dents[fs.files[fd].dentry].inode
      requires 0 <= fs.files[fd].offset && fs.files[fd].offset + |buf| <= DIRECT * BLKSIZE
      modifies fs
      ensures ok <==> RfsFile.FreeCount(old(fs.freemap)) >=
                      RfsFile.Needed(old(fs.node)[FileOf(old(fs.S()), fd)], old(fs.files)[fd].offset, |buf|)
      ensures ok ==> Valid() && FileWritten(old(fs.S()), fs.S(), p, old(fs.files)[fd].offset, buf)
    {
      hide StateOk, SlotsCounted, NodeOk, NodesOk, FileWritten, Shaped, Blocks, VinodeTableIs, DentryTableIs;
      hide RfsFile.IoOk, RfsFile.Grew, RfsFile.Extended, RfsFile.Taken, RfsFile.Flat, RfsFile.WriteFlat, RfsFile.FileOk;
      ghost var s := fs.S();
      var off := fs.files[fd].offset;
      FilePoints(s, fd);
      FileReady(s, fd);
      var before := RfsFile.Io(fs.vinodes[p].node, fs.data, fs.freemap, fs.iobuffer);
      IoReady(before);
      var r, after, news, _ := RfsFile.Write(before, buf, off);
      if r != RfsFile.Written { return false; }
      ghost var v' := WriteLeads(s, p, before, after, news, off, buf);
      Store(p, after, v');
      ok := true;
    }

    /** do_write. The "offset past the end" panic of rfs_write cannot happen. */
    method DoWrite(fd: Fd, buf: Bytes) returns (o: Outcome)
      requires Valid()
      modifies fs
      ensures o == WriteVerdict(old(fs.S()), fd, buf)
      ensures !Halts(o) ==> Valid()
      ensures o.Refused? ==> Silent(old(fs.S()), fs.S())
      ensures o.Done? ==> WriteEffect(old(fs.S()), fs.S(), fd, buf)
      ensures !Halts(o) ==> KeepsOpen(old(fs.S()), fs.S())
    {
      hide StateOk, SlotsCounted, NodesOk, FileWritten, Leaked, VinodeTableIs, DentryTableIs, Shaped;
      hide RfsFile.FreeCount, RfsFile.Needed, VolumeWritten, KeepsDents, KeepsOpen;
      ghost var s := fs.S();
      KeepsOpenSelf(s);
      if fd !in fs.files { return OutOfScope; }
      FilePoints(s, fd);
      var f := fs.files[fd];
      if !f.writable { return Panic; }
      var p := fs.dents[f.dentry].inode;
      if fs.vinodes[p].node.kind != File { return Refused; }
      if f.offset + |buf| > DIRECT * BLKSIZE { return OutOfScope; }
      FileReady(s, fd);
      var ok := RfsWrite(fd, p, buf);
      if !ok { return Panic; }
      ghost var s1 := fs.S();
      WrittenParts(s, s1, fd, p, f.offset, buf);
      hide OnKind, FileOf;
      SetOffset(fd, f.offset + |buf|);
      WrittenEffect(s, s1, fs.S(), fd, p, buf);
      DentsKeepOpen(s, fs.S());
      o := Done;
    }
  }

  lemma KeepsOpenSelf(s: State)
    ensures KeepsOpen(s, s)
  {
  }

  lemma KeepsOpenTrans(s: State, s1: State, s2: State)
    requires KeepsOpen(s, s1) && KeepsOpen(s1, s2)
    requires forall g {:trigger g in s2.c.files} :: g in s2.c.files ==> g in s1.c.files
    ensures KeepsOpen(s, s2)
  {
    hide FileOf;
    forall g | g in s.c.files && g in s2.c.files ensures FileOf(s2, g) == FileOf(s, g) {
      assert g in s1.c.files;
    }
  }

  lemma ExtendsKeeps(s: State, s1: State)
    requires StateOk(s) && Extends(s, s1)
    ensures KeepsDents(s.c, s1.c)
  {
    hide StateOk, Extends;
    KeepsThrough(s, s, s1);
  }

  lemma KeepsTrans(c: Cache, c1: Cache, c2: Cache)
    requires KeepsDents(c, c1) && KeepsDents(c1, c2)
    ensures KeepsDents(c, c2)
  {
    hide EntryOf, Inum;
    forall d | Points(c, d) ensures Points(c2, d) && EntryOf(c2, d) == EntryOf(c, d) && Inum(c2, d) == Inum(c, d) {
      assert d in c1.dents;
      assert d in c2.dents;
    }
  }

  // The descriptors that are left have the dentries they had.
  ghost predicate SameDentries(s: State, s': State) {
    forall g {:trigger g in s'.c.files} :: g in s.c.files && g in s'.c.files ==>
      s'.c.files[g].dentry == s.c.files[g].dentry
  }

  lemma DentsKeepOpen(s: State, s': State)
    requires StateOk(s) && KeepsDents(s.c, s'.c) && SameDentries(s, s')
    ensures KeepsOpen(s, s')
  {
    hide StateOk, EntryOf;
    forall g | g in s.c.files && g in s'.c.files ensures FileOf(s', g) == FileOf(s, g) {
      FilePoints(s, g);
      assert s.c.files[g].dentry in s'.c.dents;
    }
  }

  lemma OpenKeepsOpen(s: State, s1: State, fd: Fd, f: OpenFile)
    requires StateOk(s) && KeepsDents(s.c, s1.c) && s1.c.files == s.c.files && fd !in s.c.files
    requires f.dentry in s1.c.dents
    ensures KeepsOpen(s, s1.(c := Opened(s1.c, fd, f)))
  {
    hide StateOk, EntryOf;
    var s2 := s1.(c := Opened(s1.c, fd, f));
    forall g | g in s.c.files && g in s2.c.files ensures FileOf(s2, g) == FileOf(s, g) {
      FilePoints(s, g);
      assert s.c.files[g].dentry in s1.c.dents;
    }
  }

  lemma LessKeepsOpen(s: State, s': State)
    requires StateOk(s) && StateOk(s') && Less(s.c, s'.c) && SameDentries(s, s')
    ensures KeepsOpen(s, s')
  {
    hide StateOk;
    forall g | g in s.c.files && g in s'.c.files ensures FileOf(s', g) == FileOf(s, g) {
      FilePoints(s', g);
    }
  }

  lemma ClosedLess(c: Cache, fd: Fd)
    requires fd in c.files && c.files[fd].dentry in c.dents
    ensures Less(c, Closed(c, fd))
  {
  }

  lemma OffsetKeepsOpen(s: State, fd: Fd, offset: int)
    requires fd in s.c.files
    ensures KeepsOpen(s, s.(c := WithOffset(s.c, fd, offset)))
  {
  }

  lemma FilePoints(s: State, fd: Fd)
    requires StateOk(s) && fd in s.c.files
    ensures var d := s.c.files[fd].dentry;
            && Points(s.c, d) && FileOf(s, fd) in s.v.node
            && s.c.vinodes[s.c.dents[d].inode].node == s.v.node[FileOf(s, fd)]
            && s.v.node[FileOf(s, fd)].kind in {File, Dir}
  {
    DentryNode(s, s.c.files[fd].dentry);
    NodeInRange(s.v, FileOf(s, fd));
    assert Synced(s.dino[FileOf(s, fd)], s.v.node[FileOf(s, fd)], FileOf(s, fd) in s.c.vhash);
  }

  // The offset is within the file, so the reads and writes do not panic on it.
  lemma FileReady(s: State, fd: Fd)
    requires StateOk(s) && OnKind(s, fd, File)
    ensures NodesOk(s.v) && Blocks(s.v.data) && NodeOk(s.v.node[FileOf(s, fd)])
    ensures 0 <= s.c.files[fd].offset <= s.v.node[FileOf(s, fd)].size
    ensures RfsFile.FileOk(s.v.node[FileOf(s, fd)], s.v.freemap)
  {
    StateParts(s);
    VolumeParts(s.v);
    FileInVolume(s.v, FileOf(s, fd));
  }

  ghost predicate ReadGives(s: State, fd: Fd, len: nat, bytes: Bytes)
    requires OnKind(s, fd, File)
  {
    var n, off := s.v.node[FileOf(s, fd)], s.c.files[fd].offset;
    && NodeOk(n) && Blocks(s.v.data) && 0 <= off <= n.size
    && bytes == RfsFile.Content(n, s.v.data)[off..RfsFile.Min(off + len, n.size)]
  }

  lemma IoReady(io: RfsFile.Io)
    requires RfsFile.FileOk(io.n, io.freemap) && Blocks(io.data) && io.n.kind == File
    ensures RfsFile.IoOk(io)
  {
  }

  // The bytes went into file i at the offset; no other file and no name changed.
  ghost predicate VolumeWritten(v: Volume, v': Volume, i: int, off: int, buf: Bytes) {
    && v'.names == v.names && NodesOk(v) && NodesOk(v') && Leaked(v') == Leaked(v)
    && i in v.node && i in v'.node && 0 <= off <= v.node[i].size
    && v'.node == v.node[i := v'.node[i]]
    && v'.node[i].kind == v.node[i].kind && v'.node[i].size == RfsFile.Max(v.node[i].size, off + |buf|)
    && v'.node[i].blocks == v.node[i].blocks + RfsFile.Needed(v.node[i], off, |buf|)
    && v'.node[i].nlinks == v.node[i].nlinks
    && RfsFile.FreeCount(v'.freemap) == RfsFile.FreeCount(v.freemap) - RfsFile.Needed(v.node[i], off, |buf|)
    && RfsFile.Content(v'.node[i], v'.data)[..off + |buf|] == RfsFile.Content(v.node[i], v.data)[..off] + buf
    && (RfsFile.KeepsTail(off, |buf|) || off + |buf| >= v.node[i].size ==>
          RfsFile.Content(v'.node[i], v'.data) == RfsFile.Splice(RfsFile.Content(v.node[i], v.data), buf, off))
    && (forall d {:trigger v'.node[d]} :: d in v.node && d != i ==>
          v'.node[d] == v.node[d] && RfsFile.Content(v'.node[d], v'.data) == RfsFile.Content(v.node[d], v.data))
  }

  ghost predicate FileWritten(s: State, s': State, p: Ptr, off: int, buf: Bytes) {
    && p in s.c.vinodes && s'.dino == s.dino && s.c.vinodes[p].inum in s'.v.node
    && s'.c == Patched(s.c, p, s'.v.node[s.c.vinodes[p].inum])
    && VolumeWritten(s.v, s'.v, s.c.vinodes[p].inum, off, buf)
  }

  // What rfs_write did to the node, the blocks and the free map.
  ghost predicate Wrote(before: RfsFile.Io, after: RfsFile.Io, news: seq<int>, off: int, buf: Bytes) {
    && RfsFile.IoOk(before) && RfsFile.IoOk(after) && 0 <= off <= before.n.size
    && |news| <= DIRECT - before.n.blocks && |news| == RfsFile.Needed(before.n, off, |buf|)
    && RfsFile.FreeCount(after.freemap) == RfsFile.FreeCount(before.freemap) - |news|
    && after.n == RfsFile.Extended(before.n, news).(size := RfsFile.Max(before.n.size, off + |buf|))
    && RfsFile.Grew(before, after.(n := after.n.(size := before.n.size)), news)
    && RfsFile.Flat(after.n, after.data) ==
       RfsFile.WriteFlat(RfsFile.Flat(before.n, before.data), before.iobuffer, buf, off)
  }

  lemma WriteLeads(s: State, p: Ptr, before: RfsFile.Io, after: RfsFile.Io, news: seq<int>, off: int, buf: Bytes)
    returns (v': Volume)
    requires p in s.c.vinodes && s.c.vinodes[p].inum in s.v.node && s.c.vinodes[p].node.kind == File
    requires before.n == s.c.vinodes[p].node == s.v.node[s.c.vinodes[p].inum]
    requires before.data == s.v.data && before.freemap == s.v.freemap
    requires Wrote(before, after, news, off, buf) && StateOk(s)
    ensures v'.data == after.data && v'.freemap == after.freemap && v'.names == s.v.names
    ensures StateOk(State(v', s.dino, Patched(s.c, p, after.n)))
    ensures FileWritten(s, State(v', s.dino, Patched(s.c, p, after.n)), p, off, buf)
  {
    hide StateOk, VolumeOk, CanWrite, NodesOk, Wrote, VolumeWritten, InodesOk, CacheOk, Rewritten;
    var i := s.c.vinodes[p].inum;
    StateParts(s);
    WriteIsRewrite(s.v, i, before, after, news, off, buf);
    WriteOk(s, p, after.n, news, after.data);
    v' := Rewritten(s.v, i, after.n, news, after.data);
    RewriteIsWritten(s.v, i, before, after, news, off, buf);
  }

  lemma WriteIsRewrite(v: Volume, i: int, before: RfsFile.Io, after: RfsFile.Io, news: seq<int>, off: int, buf: Bytes)
    requires i in v.node && before.n == v.node[i] && v.node[i].kind == File
    requires before.data == v.data && before.freemap == v.freemap
    requires Wrote(before, after, news, off, buf) && VolumeOk(v)
    ensures CanWrite(v, i, after.n, news, after.data) && after.n.size >= v.node[i].size
    ensures var w := Rewritten(v, i, after.n, news, after.data);
            && w.node == v.node[i := after.n] && w.data == after.data && w.freemap == after.freemap
            && w.names == v.names
  {
    hide VolumeOk, NodesOk, RfsFile.Extended, RfsFile.Taken, RfsFile.WereFree, RfsFile.Flat, RfsFile.WriteFlat,
      RfsFile.FreeCount, RfsFile.Needed;
    VolumeParts(v);
    assert RfsFile.BlockSet(after.n) == RfsFile.BlockSet(after.n.(size := before.n.size));
  }

  lemma RewriteIsWritten(v: Volume, i: int, before: RfsFile.Io, after: RfsFile.Io, news: seq<int>, off: int, buf: Bytes)
    requires i in v.node && before.n == v.node[i] && v.node[i].kind == File
    requires before.data == v.data && before.freemap == v.freemap
    requires Wrote(before, after, news, off, buf) && VolumeOk(v) && CanWrite(v, i, after.n, news, after.data)
    ensures VolumeWritten(v, Rewritten(v, i, after.n, news, after.data), i, off, buf)
  {
    hide RfsFile.Flat, RfsFile.WriteFlat, Leaked, RfsFile.Splice, RfsFile.KeepsTail, RfsFile.FreeCount, RfsFile.Needed,
      RfsFile.Taken, VolumeOk, CanWrite, Rewritten, RfsFile.Grew, BlocksOwned, NodeOk;
    WriteIsRewrite(v, i, before, after, news, off, buf);
    RewrittenOk(v, i, after.n, news, after.data);
    var w := Rewritten(v, i, after.n, news, after.data);
    OwnedBlocks(v);
    VolumeParts(w);
    forall d | d in v.node && d != i
      ensures w.node[d] == v.node[d] && RfsFile.Content(w.node[d], w.data) == RfsFile.Content(v.node[d], v.data)
    {
      RewrittenElsewhere(v, i, after.n, news, after.data, d);
    }
    if RfsFile.KeepsTail(off, |buf|) || off + |buf| >= v.node[i].size {
      FlatIsWhole(before.n, before.data);
      RfsFile.WriteIsSplice(RfsFile.Flat(before.n, before.data), before.iobuffer, buf, off, before.n.size);
    }
    WrittenPrefix(before, after, off, buf);
  }

  lemma FlatIsWhole(n: Node, data: map<int, Block>)
    requires NodeOk(n) && Blocks(data)
    ensures n.size <= |RfsFile.Flat(n, data)| && |RfsFile.Flat(n, data)| % BLKSIZE == 0
  {
    RfsFile.WholeBlocks(n.blocks);
    hide RfsFile.Flat;
  }

  lemma WrittenPrefix(before: RfsFile.Io, after: RfsFile.Io, off: int, buf: Bytes)
    requires RfsFile.IoOk(before) && RfsFile.IoOk(after) && 0 <= off <= before.n.size
    requires after.n.size == RfsFile.Max(before.n.size, off + |buf|)
    requires RfsFile.Flat(after.n, after.data) ==
             RfsFile.WriteFlat(RfsFile.Flat(before.n, before.data), before.iobuffer, buf, off)
    ensures RfsFile.Content(after.n, after.data)[..off + |buf|] == RfsFile.Content(before.n, before.data)[..off] + buf
  {
    hide RfsFile.Flat, RfsFile.WriteFlat, RfsFile.KeepsTail;
    var f := RfsFile.Flat(before.n, before.data);
    RfsFile.WriteFlatPrefix(f, before.iobuffer, buf, off);
    assert RfsFile.Content(after.n, after.data)[..off + |buf|] == RfsFile.Flat(after.n, after.data)[..off + |buf|];
    assert RfsFile.Content(before.n, before.data)[..off] == f[..off];
  }

  lemma WrittenParts(s: State, s1: State, fd: Fd, p: Ptr, off: int, buf: Bytes)
    requires FileWritten(s, s1, p, off, buf) && OnKind(s, fd, File) && p == s.c.dents[s.c.files[fd].dentry].inode
    ensures OnKind(s1, fd, File) && FileOf(s1, fd) == FileOf(s, fd) && s1.c.files == s.c.files
    ensures FileOf(s1, fd) in s1.v.node && off + |buf| <= s1.v.node[FileOf(s1, fd)].size
  {
  }

  lemma WrittenEffect(s: State, s1: State, s2: State, fd: Fd, p: Ptr, buf: Bytes)
    requires OnKind(s, fd, File) && p == s.c.dents[s.c.files[fd].dentry].inode
    requires FileWritten(s, s1, p, s.c.files[fd].offset, buf) && s2.v == s1.v && s2.dino == s1.dino
    requires s2.c.dents == s1.c.dents && s2.c.vinodes == s1.c.vinodes && s2.c.root == s1.c.root
    requires s2.c.files == s.c.files[fd := s.c.files[fd].(offset := s.c.files[fd].offset + |buf|)]
    ensures WriteEffect(s, s2, fd, buf)
  {
    hide VolumeWritten, KeepsDents;
    PatchedKeeps(s.c, p, s1.v.node[s.c.vinodes[p].inum], s2.c);
  }

  lemma PatchedKeeps(c: Cache, p: Ptr, n: Node, c': Cache)
    requires p in c.vinodes && c'.dents == c.dents && c'.root == c.root && c'.vinodes == Patched(c, p, n).vinodes
    ensures KeepsDents(c, c')
  {
    forall d ensures Points(c', d) <==> Points(c, d) { }
    forall d | Points(c, d) ensures Inum(c', d) == Inum(c, d) && EntryOf(c', d) == EntryOf(c, d) {
      assert Points(c', d);
      assert Points(c', c.dents[d].parent) <==> Points(c, c.dents[d].parent);
    }
  }

  lemma ShapedBack(s: State, p: Ptr)
    requires StateOk(s) && Shaped(s.dino) && p in s.c.vinodes && 0 <= s.c.vinodes[p].inum < |s.dino|
    ensures Shaped(s.dino[s.c.vinodes[p].inum := s.c.vinodes[p].node])
  {
    VinodeInRange(s, p);
    NodeInRange(s.v, s.c.vinodes[p].inum);
  }

  lemma CreatedNames(v: Volume, v': Volume, key: Key, kind: Kind, i: int)
    requires CreatedName(v, v', key, kind, i)
    ensures key in v'.names && v'.names[key] == i && i in v'.node && v'.node[i].kind == kind
  {
  }

  // A file's dentry is not the root's and may go unless it is open.
  lemma FileEntry(s: State, d: Ptr)
    requires StateOk(s) && Points(s.c, d) && s.c.vinodes[s.c.dents[d].inode].node.kind == File
    ensures d != s.c.root && s.c.dents[d].dref >= 0
    ensures s.c.dents[d].dref == 0 ==> CanForget(s.c, s.v, d)
    ensures EntryOf(s.c, d) in s.v.names && s.v.names[EntryOf(s.c, d)] == Inum(s.c, d) && EntryOf(s.c, d) != NO_ENTRY
  {
    VinodeInRange(s, s.c.dents[d].inode);
    RootIsDir(s);
    if d != s.c.root {
      assert Anchored(s.c, s.v, d);
      VinodeInRange(s, s.c.dents[s.c.dents[d].parent].inode);
    }
  }

  lemma RootIsDir(s: State)
    requires StateOk(s)
    ensures Points(s.c, s.c.root) && s.c.vinodes[s.c.dents[s.c.root].inode].node.kind == Dir
  {
    RootPoints(s);
    VinodeInRange(s, s.c.dents[s.c.root].inode);
    StateParts(s);
    VolumeParts(s.v);
  }

  lemma OpenUnderMeans(s: State, s1: State, path: Bytes, d: Ptr)
    requires StateOk(s) && StateOk(s1) && Extends(s, s1) && Points(s1.c, d) && d != s1.c.root && Blocks(s.v.data)
    requires EntryAtEnd(s, path) == EntryOf(s1.c, d) != NO_ENTRY
    ensures s1.c.dents[d].dref > 0 <==> OpenUnder(s, path)
  {
    hide EntryAtEnd, StateOk, Extends, EntryOf;
    StateCounts(s1);
    ExtendsVolume(s, s1);
    if s1.c.dents[d].dref > 0 {
      var fd :| fd in FilesOf(s1.c.files, d);
      SameEntry(s, s1, fd);
      assert fd in s.c.files && EntryOf(s.c, s.c.files[fd].dentry) == EntryOf(s1.c, d);
    }
    if OpenUnder(s, path) {
      var fd :| fd in s.c.files && EntryOf(s.c, s.c.files[fd].dentry) == EntryOf(s1.c, d);
      SameEntry(s, s1, fd);
      OneEntry(s1, d, s1.c.files[fd].dentry);
      assert fd in FilesOf(s1.c.files, d);
    }
  }

  lemma SameEntry(s: State, s1: State, fd: Fd)
    requires StateOk(s) && Extends(s, s1) && fd in s.c.files
    ensures fd in s1.c.files && s1.c.files[fd] == s.c.files[fd] && s.c.files[fd].dentry in s1.c.dents
    ensures EntryOf(s1.c, s.c.files[fd].dentry) == EntryOf(s.c, s.c.files[fd].dentry)
  {
    hide StateOk;
    var d := s.c.files[fd].dentry;
    FilePoints(s, fd);
    if d != s.c.root { AnchoredAt(s, d); }
  }

  lemma OneEntry(s: State, d: Ptr, o: Ptr)
    requires StateOk(s) && d in s.c.dents && o in s.c.dents && d != s.c.root
    requires EntryOf(s.c, d) == EntryOf(s.c, o) != NO_ENTRY
    ensures d == o
  {
    StateParts(s);
    hide StateOk, CacheOk, VolumeOk, InodesOk, DentsOk;
    if d != o { NameNotUsed(s.c, s.v, d, o); }
  }

  lemma UnlinkedFrom(s: State, s1: State, s2: State, key: Key)
    requires s1.v == s.v && s1.dino == s.dino && s1.c.files == s.c.files && UnlinkedName(s1, s2, key)
    ensures UnlinkedName(s, s2, key) && s2.c.files == s.c.files
  {
    hide ContentsKept, Leaked, NodesOk, Addrs;
  }

  lemma SlotLeft(files: map<Fd, OpenFile>, nfiles: map<nat, nat>, p: nat)
    requires SlotsCounted(files, nfiles)
    ensures OpenCount(files, p, MAX_FILES) <= Count(nfiles, p)
  {
  }

  lemma OpenedEffect(s: State, s1: State, path: Bytes, create: bool, kind: Kind, mode: int, fd: Fd, f: OpenFile)
    requires Points(s1.c, f.dentry) && s1.c.files == s.c.files
    requires Resolved(s, s1, path, create, kind, Inum(s1.c, f.dentry), EntryOf(s1.c, f.dentry))
    requires fd !in s.c.files && fd.slot < MAX_FILES && f == OpenFile(f.dentry, 0, mode != 1, mode != 0)
    requires forall j: nat {:trigger Fd(fd.process, j)} :: j < fd.slot ==> Fd(fd.process, j) in s.c.files
    ensures OpenEffect(s, s1.(c := Opened(s1.c, fd, f)), fd.process, path, create, kind, mode, fd)
  {
    hide WalkOf, EntryAtEnd, MissesLast, CreatedName;
    assert EntryOf(Opened(s1.c, fd, f), f.dentry) == EntryOf(s1.c, f.dentry);
  }

  // rfs_hook_opendir: the directory's blocks, last one first, each in a page that should lie
  // below the one before; `pages` is what alloc_page returns.
  method HookOpendir(n: Node, data: map<int, Block>, pages: seq<Ptr>) returns (ok: bool, dirCache: seq<Block>)
    requires NodeOk(n) && Blocks(data) && |pages| == n.blocks
    ensures ok <==> forall k {:trigger pages[k]} :: 0 < k < |pages| ==> pages[k - 1] == pages[k] + BLKSIZE
    ensures ok ==>
      |dirCache| == n.blocks && forall j {:trigger dirCache[j]} :: 0 <= j < n.blocks ==> dirCache[j] == data[n.addrs[j]]
  {
    dirCache := [];
    var i := n.blocks - 1;
    while i >= 0
      invariant -1 <= i < n.blocks && |dirCache| == n.blocks - 1 - i
      invariant forall k {:trigger pages[k]} :: 0 < k < |dirCache| ==> pages[k - 1] == pages[k] + BLKSIZE
      invariant forall j {:trigger dirCache[j]} :: 0 <= j < |dirCache| ==> dirCache[j] == data[n.addrs[i + 1 + j]]
    {
      var k := n.blocks - 1 - i;
      if k > 0 && pages[k - 1] != pages[k] + BLKSIZE { return false, dirCache; }
      dirCache := [data[n.addrs[i]]] + dirCache;
      i := i - 1;
    }
    ok := true;
  }

  lemma OneBlock(s: State, d: Ptr)
    requires StateOk(s) && Points(s.c, d) && s.c.vinodes[s.c.dents[d].inode].node.kind == Dir
    ensures NodeOk(s.c.vinodes[s.c.dents[d].inode].node) && s.c.vinodes[s.c.dents[d].inode].node.blocks == 1
    ensures Blocks(s.v.data)
  {
    DentryNode(s, d);
    StateParts(s);
    VolumeParts(s.v);
    NodeInRange(s.v, Inum(s.c, d));
  }

  // ---------------------------------------------------------------------
  // The last descriptor, and the last dentry
  // ---------------------------------------------------------------------

  ghost predicate OnlyDentry(c: Cache, d: Ptr)
    requires d in c.dents
  {
    forall e {:trigger e in c.dents} :: e in c.dents && e != d ==> c.dents[e].inode != c.dents[d].inode
  }

  ghost predicate OnlyFile(c: Cache, fd: Fd)
    requires fd in c.files
  {
    forall g {:trigger g in c.files} :: g in c.files && g != fd ==> c.files[g].dentry != c.files[fd].dentry
  }

  lemma RefCounts(s: State, d: Ptr)
    requires StateOk(s) && d in s.c.dents
    ensures Points(s.c, d) && (s.c.vinodes[s.c.dents[d].inode].ref == 1 <==> OnlyDentry(s.c, d))
  {
    hide StateOk;
    DentryNode(s, d);
    StateCounts(s);
    var p := s.c.dents[d].inode;
    var ds := DentsOf(s.c.dents, p);
    assert d in ds;
    if |ds| == 1 {
      forall e | e in s.c.dents && e != d ensures s.c.dents[e].inode != p {
        if s.c.dents[e].inode == p { TwoElements(ds, d, e); assert false; }
      }
    }
    if OnlyDentry(s.c, d) {
      assert ds == {d};
    }
  }

  lemma TwoElements<T>(s: set<T>, a: T, b: T)
    requires a in s && b in s && a != b
    ensures |s| >= 2
  {
    assert {a, b} <= s;
    assert |s| == |{a, b}| + |s - {a, b}|;
  }

  lemma DrefCounts(s: State, fd: Fd)
    requires StateOk(s) && fd in s.c.files
    ensures s.c.files[fd].dentry in s.c.dents && (s.c.dents[s.c.files[fd].dentry].dref == 1 <==> OnlyFile(s.c, fd))
  {
    hide StateOk;
    FilePoints(s, fd);
    StateCounts(s);
    var d := s.c.files[fd].dentry;
    var fs := FilesOf(s.c.files, d);
    assert fd in fs;
    if |fs| == 1 {
      forall g | g in s.c.files && g != fd ensures s.c.files[g].dentry != d {
        if s.c.files[g].dentry == d { TwoElements(fs, fd, g); assert false; }
      }
    }
    if OnlyFile(s.c, fd) {
      assert fs == {fd};
    }
  }

  lemma StateCounts(s: State)
    requires StateOk(s)
    ensures RefsOk(s.c) && FilesOk(s.c)
  {
  }

  lemma LastMeans(s: State, fd: Fd)
    requires StateOk(s) && OnKind(s, fd, File)
    ensures s.c.files[fd].dentry in s.c.dents
    ensures LastOnInode(s, fd) <==>
            s.c.dents[s.c.files[fd].dentry].dref == 1 && OnlyDentry(Closed(s.c, fd), s.c.files[fd].dentry)
  {
    hide StateOk;
    DrefCounts(s, fd);
    var d, c := s.c.files[fd].dentry, Closed(s.c, fd);
    assert OnlyDentry(c, d) <==> OnlyDentry(s.c, d) by {
      forall e ensures e in c.dents <==> e in s.c.dents { }
      forall e | e in s.c.dents ensures c.dents[e].inode == s.c.dents[e].inode { assert e in c.dents; }
      if OnlyDentry(s.c, d) {
        forall e | e in c.dents && e != d ensures c.dents[e].inode != c.dents[d].inode { assert e in s.c.dents; }
      }
      if OnlyDentry(c, d) {
        forall e | e in s.c.dents && e != d ensures s.c.dents[e].inode != s.c.dents[d].inode { assert e in c.dents; }
      }
    }
  }

  lemma NoneCounted(files: map<Fd, OpenFile>, nfiles: map<nat, nat>)
    requires files == map[] && nfiles == map[]
    ensures SlotsCounted(files, nfiles)
  {
    forall p: nat ensures OpenCount(files, p, MAX_FILES) <= Count(nfiles, p) {
      NoneOpen(files, p, MAX_FILES);
    }
  }

  lemma {:induction false} NoneOpen(files: map<Fd, OpenFile>, p: nat, n: nat)
    requires files == map[]
    ensures OpenCount(files, p, n) == 0
  {
    if n > 0 { NoneOpen(files, p, n - 1); }
  }
}
