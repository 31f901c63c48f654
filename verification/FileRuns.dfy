/**
 Whole runs of file system calls: what holds after any number of them.
 */
module FileRuns {
  import opened Base
  import opened RfsLayout
  import opened RfsVolume
  import opened VfsState
  import opened VfsSteps
  import opened PathTokens
  import opened VfsTables
  import opened FileSystem
  import opened FileCalls
  import RfsFile

  // A call, how it ended, the descriptor that an open returns and the bytes that a read does.
  datatype Event = Event(op: Op, o: Outcome, fd: Fd, bytes: Bytes)

  // Each state satisfies the invariant; each event ends as the verdict says, without
  // halting the machine, and the next state follows from it.
  ghost predicate Chain(states: seq<Snapshot>, events: seq<Event>) {
    && |states| == |events| + 1
    && (forall k {:trigger states[k]} :: 0 <= k < |states| ==> StateOk(states[k].s))
    && (forall k {:trigger events[k]} :: 0 <= k < |events| ==> Happens(states[k], states[k + 1], events[k]))
  }

  ghost predicate Happens(m: Snapshot, m': Snapshot, e: Event) {
    && e.o == Verdict(m, e.op) && !Halts(e.o) && Follows(m, m', e.op, e.o, e.fd)
    && (e.op.Read? && e.o.Done? ==> Returns(m.s, e.op.fd, e.op.len, e.bytes)) && KeepsOpen(m.s, m'.s)
  }

  // The read returns the bytes of the file from the descriptor's offset.
  ghost predicate Returns(s: State, fd: Fd, len: nat, bytes: Bytes) {
    OnKind(s, fd, File) && ReadGives(s, fd, len, bytes)
  }

  // The calls were made in turn, up to the first that halts the machine.
  ghost predicate IsRun(states: seq<Snapshot>, events: seq<Event>, ops: seq<Op>) {
    && Chain(states, events) && |events| <= |ops|
    && (forall k {:trigger events[k]} :: 0 <= k < |events| ==> events[k].op == ops[k])
    && (|events| < |ops| ==> Halts(Verdict(states[|events|], ops[|events|])))
  }

  // As many outcomes as calls, or the last of them halted the machine; no other did.
  predicate Ends(outcomes: seq<Outcome>, calls: nat) {
    && |outcomes| <= calls && (|outcomes| < calls ==> outcomes != [] && Halts(outcomes[|outcomes| - 1]))
    && forall k {:trigger outcomes[k]} :: 0 <= k < |outcomes| - 1 ==> !Halts(outcomes[k])
  }

  method Execute(calls: Calls, op: Op) returns (o: Outcome, fd: Fd, bytes: Bytes)
    requires calls.Valid()
    modifies calls, calls.fs
    ensures o == Verdict(old(calls.Snap()), op)
    ensures !Halts(o) ==> calls.Valid() && Happens(old(calls.Snap()), calls.Snap(), Event(op, o, fd, bytes))
  {
    hide OpenVerdict, OpenDirVerdict, MkdirVerdict, LinkVerdict, UnlinkVerdict, CloseVerdict, SeekVerdict, ReadVerdict,
      WriteVerdict;
    hide OpenEffect, MkdirEffect, LinkEffect, UnlinkEffect, CloseEffect, OffsetEffect, WriteEffect, Silent, OnKind,
      ReadEnd, SeekEnd;
    hide StateOk, SlotsCounted, ReadGives, VinodeTableIs, DentryTableIs, Shaped, KeepsOpen;
    fd, bytes := NO_FD, [];
    match op
    case Open(process, path, flags) => o, fd := calls.DoOpen(process, path, flags);
    case OpenDir(process, path) => o, fd := calls.DoOpenDir(process, path);
    case Read(f, len) => o, bytes := calls.DoRead(f, len);
    case Write(f, buf) => o := calls.DoWrite(f, buf);
    case Seek(f, offset, whence) => var at; o, at := calls.DoLseek(f, offset, whence);
    case Close(f) => o := calls.DoClose(f);
    case CloseDir(f) => o := calls.DoCloseDir(f);
    case Link(oldpath, newpath) => o := calls.DoLink(oldpath, newpath);
    case Unlink(path) => o := calls.DoUnlink(path);
    case Mkdir(path) => o := calls.DoMkdir(path);
  }

  /** Any sequence of calls, by any processes, until one halts the machine: the
      invariant holds at every point on the way, and every call ends as its verdict says. */
  method Run(calls: Calls, ops: seq<Op>)
    returns (outcomes: seq<Outcome>, ghost states: seq<Snapshot>, ghost events: seq<Event>)
    requires calls.Valid()
    modifies calls, calls.fs
    ensures IsRun(states, events, ops) && states[0] == old(calls.Snap())
    ensures Ends(outcomes, |ops|) && |outcomes| == (if |events| < |ops| then |events| + 1 else |ops|)
    ensures forall k {:trigger outcomes[k]} :: 0 <= k < |outcomes| ==> outcomes[k] == Verdict(states[k], ops[k])
    ensures |events| == |ops| ==> calls.Valid() && calls.Snap() == states[|events|]
  {
    hide StateOk, SlotsCounted, Happens, Verdict, VinodeTableIs, DentryTableIs, Shaped;
    outcomes, states, events := [], [calls.Snap()], [];
    var n := 0;
    while n < |ops|
      invariant 0 <= n == |events| <= |ops| && calls.Valid()
      invariant Chain(states, events) && states[0] == old(calls.Snap()) && states[n] == calls.Snap()
      invariant forall k {:trigger events[k]} :: 0 <= k < n ==> events[k].op == ops[k]
      invariant |outcomes| == n
      invariant forall k {:trigger outcomes[k]} ::
        0 <= k < n ==> outcomes[k] == Verdict(states[k], ops[k]) && !Halts(outcomes[k])
    {
      var o, fd, bytes := Execute(calls, ops[n]);
      outcomes := outcomes + [o];
      if o.Panic? || o.OutOfScope? { return; }
      ghost var e := Event(ops[n], o, fd, bytes);
      ChainStep(states, events, calls.Snap(), e);
      states, events := states + [calls.Snap()], events + [e];
      n := n + 1;
    }
  }

  lemma ChainStep(states: seq<Snapshot>, events: seq<Event>, m: Snapshot, e: Event)
    requires Chain(states, events) && StateOk(m.s) && Happens(states[|events|], m, e)
    ensures Chain(states + [m], events + [e])
  {
    hide StateOk, Happens;
  }

  // ---------------------------------------------------------------------
  // What every state on the way satisfies
  // ---------------------------------------------------------------------

  /** At most one cached vinode per inode, holding the node in force. */
  lemma VinodesHold(s: State, p: Ptr, q: Ptr)
    requires StateOk(s) && p in s.c.vinodes && q in s.c.vinodes
    ensures s.c.vinodes[p].inum == s.c.vinodes[q].inum ==> p == q
    ensures s.c.vinodes[p].inum in s.v.node && s.c.vinodes[p].node == s.v.node[s.c.vinodes[p].inum]
  {
    hide StateOk;
    VinodeInRange(s, p);
    VinodeInRange(s, q);
  }

  /** A vinode's ref is the number of cached dentries on it, a dentry's d_ref the number of
      open descriptors on it. */
  lemma CountsHold(s: State)
    requires StateOk(s)
    ensures forall p {:trigger p in s.c.vinodes} :: p in s.c.vinodes ==>
              s.c.vinodes[p].ref == |set d | d in s.c.dents && s.c.dents[d].inode == p|
    ensures forall d {:trigger d in s.c.dents} :: d in s.c.dents ==>
              s.c.dents[d].dref == |set f | f in s.c.files && s.c.files[f].dentry == d|
  {
    hide VolumeOk, DentsOk, OffsetsOk, InodesOk;
    forall p | p in s.c.vinodes
      ensures s.c.vinodes[p].ref == |set d | d in s.c.dents && s.c.dents[d].inode == p|
    {
      assert DentsOf(s.c.dents, p) == set d | d in s.c.dents && s.c.dents[d].inode == p;
    }
    forall d | d in s.c.dents ensures s.c.dents[d].dref == |set f | f in s.c.files && s.c.files[f].dentry == d| {
      assert FilesOf(s.c.files, d) == set f | f in s.c.files && s.c.files[f].dentry == d;
    }
  }

  /** The name map is what the directory files on disk spell out: a name is mapped exactly
      when a directory lists it, and then to the inode number of its one entry. */
  lemma NamesHold(s: State, i: int, name: Name)
    requires StateOk(s) && DiskDir(s.dino, i)
    ensures Blocks(s.v.data)
    ensures var es := Listing(s.dino[i], s.v.data);
            && (Key(i, name) in s.v.names <==> exists j :: 0 <= j < |es| && es[j].name == name)
            && (forall j {:trigger es[j]} ::
                 0 <= j < |es| && es[j].name == name ==> s.v.names[Key(i, name)] == es[j].inum)
            && (forall j, j' {:trigger es[j], es[j']} :: 0 <= j < j' < |es| ==> es[j].name != es[j'].name)
  {
    hide StateOk;
    DiskDirIsDir(s, i);
    DiskStep(s, i, name);
    ListedOnce(s, i);
  }

  lemma ListedOnce(s: State, i: int)
    requires StateOk(s) && IsDir(s.v, i)
    ensures Blocks(s.v.data) && DiskDir(s.dino, i)
    ensures var es := Listing(s.dino[i], s.v.data);
            && (forall j {:trigger es[j]} :: 0 <= j < |es| ==>
                  Key(i, es[j].name) in s.v.names && s.v.names[Key(i, es[j].name)] == es[j].inum)
            && (forall j, j' {:trigger es[j], es[j']} :: 0 <= j < j' < |es| ==> es[j].name != es[j'].name)
  {
    DiskStep(s, i, []);
    hide CacheOk, InodesOk;
    assert Spells(Listing(s.v.node[i], s.v.data), s.v.names, i);
  }

  // The places, directory and position, where the directories on disk list inode i.
  ghost function EntriesOf(s: State, i: int): set<(int, int)>
    requires Blocks(s.v.data)
  {
    set d, j | 0 <= d < |s.dino| && DiskDir(s.dino, d) && 0 <= j < NumEntries(s.dino[d]) &&
               EntryAt(s.dino[d], s.v.data, j).inum == i :: (d, j)
  }

  // Where the entry of a name is.
  ghost function PlaceOf(s: State, key: Key): (int, int) {
    if Blocks(s.v.data) && DiskDir(s.dino, key.dir) then
      var j: int := Find(Listing(s.dino[key.dir], s.v.data), key.name);
      (key.dir, j)
    else (-1, -1)
  }

  lemma PlaceOfName(s: State, key: Key)
    requires StateOk(s) && key in s.v.names
    ensures Blocks(s.v.data) && DiskDir(s.dino, key.dir) && PlaceOf(s, key) in EntriesOf(s, s.v.names[key])
    ensures var es := Listing(s.dino[key.dir], s.v.data);
            PlaceOf(s, key).1 < |es| && es[PlaceOf(s, key).1].name == key.name
  {
    hide StateOk;
    NamesLieInDirs(s, key);
    DiskStep(s, key.dir, key.name);
  }

  lemma NameAtPlace(s: State, i: int, d: int, j: int)
    requires StateOk(s) && Blocks(s.v.data) && (d, j) in EntriesOf(s, i)
    ensures DiskDir(s.dino, d) && 0 <= j < NumEntries(s.dino[d])
    ensures var key := Key(d, Listing(s.dino[d], s.v.data)[j].name);
            key in LinkSet(s.v.names, i) && PlaceOf(s, key) == (d, j)
  {
    hide StateOk;
    DiskDirIsDir(s, d);
    ListedOnce(s, d);
    var es := Listing(s.dino[d], s.v.data);
    var k := Find(es, es[j].name);
    assert k <= j;
  }

  lemma {:induction false} SameSize<A, B>(f: map<A, B>, b: set<B>)
    requires forall x, y {:trigger f[x], f[y]} :: x in f && y in f && f[x] == f[y] ==> x == y
    requires forall x {:trigger f[x]} :: x in f ==> f[x] in b
    requires forall z {:trigger z in b} :: z in b ==> exists x :: x in f && f[x] == z
    ensures |f.Keys| == |b|
  {
    if f.Keys == {} {
      assert b == {};
    } else {
      var x :| x in f;
      var f', b' := f - {x}, b - {f[x]};
      forall z | z in b' ensures exists y :: y in f' && f'[y] == z {
        var y :| y in f && f[y] == z;
        assert y in f' && f'[y] == z;
      }
      SameSize(f', b');
      assert f'.Keys == f.Keys - {x};
    }
  }

  lemma EntriesAreLinks(s: State, i: int)
    requires StateOk(s) && Blocks(s.v.data)
    ensures |EntriesOf(s, i)| == |LinkSet(s.v.names, i)|
  {
    hide StateOk, EntriesOf, PlaceOf;
    var f := map key | key in LinkSet(s.v.names, i) :: PlaceOf(s, key);
    forall key | key in f ensures f[key] in EntriesOf(s, i) { PlaceOfName(s, key); }
    forall x, y | x in f && y in f && f[x] == f[y] ensures x == y {
      PlaceOfName(s, x);
      PlaceOfName(s, y);
      SamePlace(s, x, y);
    }
    forall z | z in EntriesOf(s, i) ensures exists x :: x in f && f[x] == z {
      NameAtPlace(s, i, z.0, z.1);
      var key := Key(z.0, Listing(s.dino[z.0], s.v.data)[z.1].name);
      assert key in f && f[key] == z;
    }
    SameSize(f, EntriesOf(s, i));
    assert f.Keys == LinkSet(s.v.names, i);
  }

  lemma SamePlace(s: State, x: Key, y: Key)
    requires Blocks(s.v.data) && DiskDir(s.dino, x.dir) && DiskDir(s.dino, y.dir) && PlaceOf(s, x) == PlaceOf(s, y)
    requires PlaceOf(s, x).1 < NumEntries(s.dino[x.dir]) && PlaceOf(s, y).1 < NumEntries(s.dino[y.dir])
    ensures x == y
  {
  }

  /** The link count on disk of every live inode but the root, and the one in force, is the
      number of directory entries on disk that name it. */
  lemma LinksHold(s: State, i: int)
    requires StateOk(s) && i in s.v.node && i != ROOT
    ensures 0 <= i < |s.dino| && Blocks(s.v.data)
    ensures s.dino[i].nlinks == s.v.node[i].nlinks == |EntriesOf(s, i)|
  {
    hide StateOk;
    DinodeListed(s, i);
    StateParts(s);
    VolumeParts(s.v);
    EntriesAreLinks(s, i);
  }

  /** No block belongs to two places, every owned block is marked used, and every live inode
      has a block. */
  lemma BlocksHold(s: State, i: int, j: int, i': int, j': int)
    requires StateOk(s)
    requires i in s.v.node && i' in s.v.node && 0 <= j < s.v.node[i].blocks && 0 <= j' < s.v.node[i'].blocks
    requires (i, j) != (i', j')
    ensures NodeOk(s.v.node[i]) && NodeOk(s.v.node[i']) && s.v.node[i].blocks > 0
    ensures s.v.node[i].addrs[j] != s.v.node[i'].addrs[j'] && IsData(s.v.node[i].addrs[j])
    ensures |s.v.freemap| == NBLOCKS && s.v.freemap[s.v.node[i].addrs[j] - OFFSET_FREE]
  {
    var v := s.v;
    hide CacheOk, InodesOk, NamesStored, LinksCounted;
    assert v.owner[v.node[i].addrs[j]] == Place(i, j) && v.owner[v.node[i'].addrs[j']] == Place(i', j');
  }

  // ---------------------------------------------------------------------
  // The bytes of a file over a run
  // ---------------------------------------------------------------------

  ghost predicate WritesTo(s: State, e: Event, i: int) { e.op.Write? && e.o.Done? && FileOf(s, e.op.fd) == i }

  lemma StepKeepsContent(s: State, s': State, e: Event, i: int)
    requires StateOk(s) && StateOk(s') && Effect(s, s', e.op, e.o, e.fd)
    requires OfKind(s, i, File) && i in s'.v.node && !WritesTo(s, e, i)
    ensures OfKind(s', i, File) && SameContent(s.v, s'.v, i)
  {
    hide StateOk, SameContent, Leaked, NodesOk, ContentsKept, WalkOf, EntryAtEnd, MissesLast, KeepsDents, StandsFor,
      VolumeWritten;
    ContentItself(s, i);
    if e.o.Done? {
      match e.op
      case Open(_, _, _) => OpenKeeps(s, s', e, i);
      case OpenDir(_, _) => OpenKeeps(s, s', e, i);
      case Mkdir(_) => GainKeeps(s, s', e, i);
      case Link(_, _) => GainKeeps(s, s', e, i);
      case Unlink(_) => UnlinkKeeps(s, s', e, i);
      case Write(fd, buf) => WrittenElsewhere(s.v, s'.v, FileOf(s, fd), s.c.files[fd].offset, buf, i);
      case _ =>
    }
  }

  lemma ContentItself(s: State, i: int)
    requires StateOk(s) && i in s.v.node
    ensures SameContent(s.v, s.v, i)
  {
    hide CacheOk, InodesOk, NamesStored, LinksCounted, BlocksOwned;
    assert NodeOk(s.v.node[i]);
  }

  lemma KeptContent(v: Volume, v': Volume, dir: int, i: int)
    requires ContentsKept(v, v', dir) && i in v.node && i in v'.node && i != dir
    ensures SameContent(v, v', i)
  {
  }

  lemma CreateKeeps(s: State, s': State, key: Key, kind: Kind, j: int, i: int)
    requires StateOk(s') && CreatedName(s.v, s'.v, key, kind, j) && OfKind(s, i, File)
    ensures OfKind(s', i, File) && SameContent(s.v, s'.v, i)
  {
    hide StateOk, SameContent, Leaked, NodesOk, ContentsKept, RfsFile.FreeCount;
    NamesLieInDirs(s', key);
    KeptContent(s.v, s'.v, key.dir, i);
  }

  lemma OpenKeeps(s: State, s': State, e: Event, i: int)
    requires StateOk(s) && StateOk(s') && Effect(s, s', e.op, Done, e.fd) && (e.op.Open? || e.op.OpenDir?)
    requires OfKind(s, i, File)
    ensures OfKind(s', i, File) && SameContent(s.v, s'.v, i)
  {
    hide StateOk, SameContent, CreatedName, WalkOf, EntryAtEnd, MissesLast, EntryOf;
    ContentItself(s, i);
    if s'.v != s.v {
      CreateKeeps(s, s', EntryOf(s'.c, s'.c.files[e.fd].dentry), File, Inum(s'.c, s'.c.files[e.fd].dentry), i);
    }
  }

  lemma GainKeeps(s: State, s': State, e: Event, i: int)
    requires StateOk(s) && StateOk(s') && Effect(s, s', e.op, Done, e.fd) && (e.op.Mkdir? || e.op.Link?)
    requires OfKind(s, i, File)
    ensures OfKind(s', i, File) && SameContent(s.v, s'.v, i)
  {
    hide StateOk, SameContent, CreatedName, LinkedName, WalkOf, MissesLast, KeepsDents, StandsFor;
    if e.op.Mkdir? {
      var key := Key(WalkOf(s, e.op.path).dir, WalkOf(s, e.op.path).name);
      CreateKeeps(s, s', key, Dir, s'.v.names[key], i);
    } else {
      var key := Key(WalkOf(s, e.op.newpath).dir, WalkOf(s, e.op.newpath).name);
      LinkKeeps(s, s', key, WalkOf(s, e.op.oldpath).inum, i);
    }
  }

  lemma LinkKeeps(s: State, s': State, key: Key, j: int, i: int)
    requires StateOk(s') && LinkedName(s.v, s'.v, key, j) && OfKind(s, i, File)
    ensures OfKind(s', i, File) && SameContent(s.v, s'.v, i)
  {
    hide StateOk, SameContent, Leaked, NodesOk, ContentsKept;
    NamesLieInDirs(s', key);
    KeptContent(s.v, s'.v, key.dir, i);
  }

  lemma UnlinkKeeps(s: State, s': State, e: Event, i: int)
    requires StateOk(s) && e.op.Unlink? && UnlinkEffect(s, s', e.op.path) && OfKind(s, i, File) && i in s'.v.node
    ensures OfKind(s', i, File) && SameContent(s.v, s'.v, i)
  {
    hide StateOk, SameContent, Leaked, NodesOk, ContentsKept, WalkOf, EntryAtEnd;
    var key := EntryAtEnd(s, e.op.path);
    NamesLieInDirs(s, key);
    KeptContent(s.v, s'.v, key.dir, i);
  }

  lemma WrittenElsewhere(v: Volume, v': Volume, j: int, off: int, buf: Bytes, i: int)
    requires VolumeWritten(v, v', j, off, buf) && i in v.node && i != j
    ensures i in v'.node && v'.node[i] == v.node[i] && SameContent(v, v', i)
  {
    hide RfsFile.Content, RfsFile.Splice, RfsFile.KeepsTail, Leaked, RfsFile.FreeCount, RfsFile.Needed;
    assert v'.node[i] == v.node[i];
  }

  // From the state k to the state m the file is there, and no write goes to it.
  ghost predicate Undisturbed(states: seq<Snapshot>, events: seq<Event>, i: int, k: nat, m: nat)
    requires |states| == |events| + 1 && m <= |events|
  {
    && (forall t {:trigger states[t]} :: k <= t <= m ==> i in states[t].s.v.node)
    && (forall t {:trigger events[t]} :: k <= t < m ==> !WritesTo(states[t].s, events[t], i))
  }

  /** In every run the bytes of a file change only by writes to it: whatever else is opened,
      created, written, linked, unlinked or closed leaves them. */
  lemma {:induction false} ContentStays(states: seq<Snapshot>, events: seq<Event>, i: int, k: nat, m: nat)
    requires Chain(states, events) && k <= m <= |events|
    requires OfKind(states[k].s, i, File) && Undisturbed(states, events, i, k, m)
    ensures OfKind(states[m].s, i, File) && SameContent(states[k].s.v, states[m].s.v, i)
    decreases m - k
  {
    hide StateOk, Effect, Verdict, WritesTo, Returns;
    if k == m {
      assert StateOk(states[k].s);
      ContentItself(states[k].s, i);
    } else {
      ContentStays(states, events, i, k, m - 1);
      var e := events[m - 1];
      assert StateOk(states[m - 1].s) && StateOk(states[m].s);
      assert states[m - 1 + 1] == states[m] && Happens(states[m - 1], states[m], e);
      StepKeepsContent(states[m - 1].s, states[m].s, e, i);
    }
  }

  /** In every run a read returns what was written: a read inside the range of an earlier
      write to the file, by any descriptor of any process, returns those bytes, unless the file
      was written again in between. */
  lemma ReadsBack(states: seq<Snapshot>, events: seq<Event>, i: int, k: nat, m: nat)
    requires Chain(states, events) && k < m < |events|
    requires WritesTo(states[k].s, events[k], i) && Undisturbed(states, events, i, k + 1, m)
    requires events[m].op.Read? && events[m].o.Done? && FileOf(states[m].s, events[m].op.fd) == i
    ensures events[k].op.fd in states[k].s.c.files && events[m].op.fd in states[m].s.c.files
    ensures var off, at := states[k].s.c.files[events[k].op.fd].offset, states[m].s.c.files[events[m].op.fd].offset;
            var buf, len := events[k].op.bytes, events[m].op.len;
            off <= at && at + len <= off + |buf| ==> events[m].bytes == buf[at - off..at - off + len]
  {
    hide StateOk, Effect, Verdict, RfsFile.Content, SameContent;
    var e := events[k];
    assert Happens(states[k], states[k + 1], e);
    assert Happens(states[m], states[m + 1], events[m]);
    assert StateOk(states[k].s) && StateOk(states[m].s);
    WroteFile(states[k], states[k + 1], e);
    ContentStays(states, events, i, k + 1, m);
    var off, at := states[k].s.c.files[e.op.fd].offset, states[m].s.c.files[events[m].op.fd].offset;
    SliceBack(states[k].s, states[k + 1].s, states[m].s, i, off, e.op.bytes, at, events[m].op.len, events[m].bytes);
  }

  lemma WroteFile(m: Snapshot, m': Snapshot, e: Event)
    requires Happens(m, m', e) && e.op.Write? && e.o.Done?
    ensures e.op.fd in m.s.c.files && OnKind(m.s, e.op.fd, File)
    ensures VolumeWritten(m.s.v, m'.s.v, FileOf(m.s, e.op.fd), m.s.c.files[e.op.fd].offset, e.op.bytes)
    ensures OfKind(m'.s, FileOf(m.s, e.op.fd), File)
  {
    hide RfsFile.FreeCount, RfsFile.Needed, RfsFile.Content, RfsFile.Splice, RfsFile.KeepsTail, Leaked, NodesOk,
      KeepsDents;
  }

  lemma SliceBack(s: State, s1: State, s2: State, i: int, off: int, buf: Bytes, at: int, len: nat, bytes: Bytes)
    requires VolumeWritten(s.v, s1.v, i, off, buf) && i in s1.v.node && i in s2.v.node && SameContent(s1.v, s2.v, i)
    requires NodeOk(s2.v.node[i]) && Blocks(s2.v.data) && 0 <= at <= s2.v.node[i].size
    requires bytes == RfsFile.Content(s2.v.node[i], s2.v.data)[at..RfsFile.Min(at + len, s2.v.node[i].size)]
    ensures off <= at && at + len <= off + |buf| ==> bytes == buf[at - off..at - off + len]
  {
    if off <= at && at + len <= off + |buf| {
      WrittenSlice(s.v, s1.v, i, off, buf, at, len);
      hide RfsFile.Content, VolumeWritten, NodeOk, Blocks;
      assert |RfsFile.Content(s2.v.node[i], s2.v.data)| == s2.v.node[i].size;
    }
  }

  lemma WrittenSlice(v: Volume, v': Volume, i: int, off: int, buf: Bytes, at: int, len: nat)
    requires VolumeWritten(v, v', i, off, buf) && off <= at && at + len <= off + |buf|
    ensures i in v'.node && NodeOk(v'.node[i]) && Blocks(v'.data) && off + |buf| <= v'.node[i].size
    ensures RfsFile.Content(v'.node[i], v'.data)[at..at + len] == buf[at - off..at - off + len]
  {
    hide RfsFile.Content, RfsFile.Splice, RfsFile.KeepsTail, Leaked, RfsFile.FreeCount, RfsFile.Needed;
    SliceOf(RfsFile.Content(v.node[i], v.data)[..off], buf, RfsFile.Content(v'.node[i], v'.data), at, len);
  }

  lemma SliceOf(a: Bytes, buf: Bytes, c: Bytes, at: int, len: nat)
    requires |a| + |buf| <= |c| && c[..|a| + |buf|] == a + buf && |a| <= at && at + len <= |a| + |buf|
    ensures c[at..at + len] == buf[at - |a|..at - |a| + len]
  {
    assert c[at..at + len] == c[..|a| + |buf|][at..at + len];
    assert (a + buf)[at..at + len] == buf[at - |a|..at - |a| + len];
  }

  // ---------------------------------------------------------------------
  // Used blocks and owned blocks
  // ---------------------------------------------------------------------

  // The unlink of a file's last name, while its disk inode lists fewer blocks than it has.
  ghost predicate LosesBlocks(s: State, e: Event) {
    && e.op.Unlink? && e.o.Done?
    && var key := EntryAtEnd(s, e.op.path);
    && key in s.v.names && s.v.names[key] in s.v.node && 0 <= s.v.names[key] < |s.dino|
    && s.v.node[s.v.names[key]].nlinks == 1
    && s.dino[s.v.names[key]].blocks < s.v.node[s.v.names[key]].blocks
  }

  /** Used and owned blocks are the same at the end of a run exactly when no final
      unlink on the way found a stale block list on disk. */
  lemma {:induction false} RunKeepsUsedOwned(states: seq<Snapshot>, events: seq<Event>, m: nat)
    requires Chain(states, events) && UsedIsOwned(states[0].s.v) && m <= |events|
    ensures UsedIsOwned(states[m].s.v) <==>
      forall k {:trigger events[k]} :: 0 <= k < m ==> !LosesBlocks(states[k].s, events[k])
  {
    hide StateOk, Effect, Verdict, UsedIsOwned, LosesBlocks;
    if m > 0 {
      RunKeepsUsedOwned(states, events, m - 1);
      var e := events[m - 1];
      assert states[m - 1 + 1] == states[m];
      StepKeepsUsedOwned(states[m - 1].s, states[m].s, e);
    }
  }

  lemma StepKeepsUsedOwned(s: State, s': State, e: Event)
    requires StateOk(s) && StateOk(s') && Effect(s, s', e.op, e.o, e.fd)
    ensures UsedIsOwned(s'.v) <==> UsedIsOwned(s.v) && !LosesBlocks(s, e)
  {
    hide StateOk, Leaked, UsedIsOwned, WalkOf, EntryAtEnd, LosesBlocks;
    NoLeak(s);
    NoLeak(s');
    if e.op.Unlink? && e.o.Done? {
      UnlinkLeaks(s, s', e);
    } else {
      OthersLoseNothing(s, e);
      EffectLeaks(s, s', e);
    }
  }

  lemma OthersLoseNothing(s: State, e: Event)
    requires !(e.op.Unlink? && e.o.Done?)
    ensures !LosesBlocks(s, e)
  {
  }

  lemma EffectLeaks(s: State, s': State, e: Event)
    requires Effect(s, s', e.op, e.o, e.fd) && !(e.op.Unlink? && e.o.Done?) && NodesOk(s.v) && NodesOk(s'.v)
    ensures Leaked(s'.v) == Leaked(s.v)
  {
    hide Leaked, NodesOk, WalkOf, EntryAtEnd, MissesLast, KeepsDents, StandsFor, FreshIn, MoreLinks, LastOnInode;
  }

  ghost predicate NothingLeaked(v: Volume)
    requires NodesOk(v)
  {
    forall a {:trigger a in Leaked(v)} :: a !in Leaked(v)
  }

  lemma NoLeak(s: State)
    requires StateOk(s)
    ensures NodesOk(s.v)
    ensures UsedIsOwned(s.v) <==> NothingLeaked(s.v)
  {
    hide CacheOk, InodesOk, NamesStored, LinksCounted;
    if NothingLeaked(s.v) {
      forall b | 0 <= b < NBLOCKS ensures s.v.freemap[b] <==> OFFSET_FREE + b in s.v.owner {
        assert OFFSET_FREE + b !in Leaked(s.v);
        assert OFFSET_FREE + b in s.v.owner ==> s.v.freemap[OFFSET_FREE + b - OFFSET_FREE];
      }
    }
    if UsedIsOwned(s.v) {
      forall a ensures a !in Leaked(s.v) {
        assert IsData(a) ==> (s.v.freemap[a - OFFSET_FREE] <==> OFFSET_FREE + (a - OFFSET_FREE) in s.v.owner);
      }
    }
  }

  lemma NotLeaked(v: Volume, a: int)
    requires NodesOk(v) && NothingLeaked(v)
    ensures a !in Leaked(v)
  {
  }

  lemma ListedNext(n: Node, listed: int)
    requires 0 <= listed < n.blocks <= |n.addrs|
    ensures n.addrs[listed] in Addrs(n, listed, n.blocks)
  {
  }

  lemma UnlinkLeaks(s: State, s': State, e: Event)
    requires e.op.Unlink? && e.o.Done? && UnlinkEffect(s, s', e.op.path)
    ensures NodesOk(s.v) && NodesOk(s'.v)
    ensures NothingLeaked(s'.v) <==> NothingLeaked(s.v) && !LosesBlocks(s, e)
  {
    hide Leaked, NodesOk, WalkOf, EntryAtEnd, FewerLinks;
    var key := EntryAtEnd(s, e.op.path);
    var i := s.v.names[key];
    var n, listed := s.v.node[i], s.dino[i].blocks;
    if NothingLeaked(s'.v) {
      forall a ensures a !in Leaked(s.v) {
        assert a !in Leaked(s'.v);
      }
      assert NothingLeaked(s.v);
      if n.nlinks == 1 && listed < n.blocks {
        ListedNext(n, listed);
        NotLeaked(s'.v, n.addrs[listed]);
        assert false;
      }
    }
    if NothingLeaked(s.v) && !LosesBlocks(s, e) {
      forall a ensures a !in Leaked(s'.v) {
        assert n.nlinks == 1 ==> a !in Addrs(n, listed, n.blocks);
        assert a !in Leaked(s.v);
      }
    }
  }

  /** fs_init and then any calls: every state on the way satisfies the invariant, every call
      ends as its verdict says, and no used block is lost but by a final unlink with a stale
      block list on disk. */
  method Boot(buffer: seq<Node>, junk: seq<int>, disk: map<int, Block>, iobuffer: Block, pages: (Ptr, Ptr), name: Name,
              ops: seq<Op>)
    returns (outcomes: seq<Outcome>, ghost states: seq<Snapshot>, ghost events: seq<Event>)
    requires |buffer| == INODES_PER_BLOCK && Shaped(buffer) && |junk| == DIRECT - 1 && Blocks(disk)
    requires pages.0 != NULL && pages.1 != NULL
    ensures IsRun(states, events, ops) && Formatted(states[0].s) && states[0].nfiles == map[]
    ensures Ends(outcomes, |ops|)
    ensures |outcomes| == (if |events| < |ops| then |events| + 1 else |ops|)
    ensures forall k {:trigger outcomes[k]} :: 0 <= k < |outcomes| ==> outcomes[k] == Verdict(states[k], ops[k])
    ensures UsedIsOwned(states[|events|].s.v) <==>
            forall k {:trigger events[k]} :: 0 <= k < |events| ==> !LosesBlocks(states[k].s, events[k])
  {
    hide Chain, LosesBlocks, StateOk, SlotsCounted, UsedIsOwned, Verdict, VinodeTableIs, DentryTableIs, Shaped;
    var fs := new Vfs.Format(buffer, junk, disk, iobuffer, pages, name);
    var calls := new Calls(fs);
    outcomes, states, events := Run(calls, ops);
    RunKeepsUsedOwned(states, events, |events|);
  }

  // ---------------------------------------------------------------------
  // A run that loses a block
  // ---------------------------------------------------------------------

  const PATH_A: Bytes := [65]
  const PATH_B: Bytes := [66]
  const NAME_A: Key := Key(ROOT, PATH_A)
  const NAME_B: Key := Key(ROOT, PATH_B)

  // Create "A" and link it as "B"; write a byte more than a block, and close: the link keeps
  // the inode cached, so it does not go back to disk; then unlink both names.
  function LosingCalls(buf: Bytes): seq<Op> {
    [Open(0, PATH_A, 66), Link(PATH_A, PATH_B), Write(Fd(0, 0), buf), Close(Fd(0, 0)), Unlink(PATH_A), Unlink(PATH_B)]
  }

  // The file, of which the disk inode lists one block.
  ghost predicate TheFile(s: State, i: int, nlinks: int, blocks: int) {
    && i in s.v.node && i != ROOT && s.v.node[i].kind == File
    && s.v.node[i].nlinks == nlinks && s.v.node[i].blocks == blocks
    && 0 <= i < |s.dino| && s.dino[i].blocks == 1
  }

  // It is open in slot 0 of process 0, under the name "A".
  ghost predicate OpenAsA(s: State, i: int) {
    && s.c.files.Keys == {Fd(0, 0)}
    && var f := s.c.files[Fd(0, 0)];
    && f.writable && Points(s.c, f.dentry) && Inum(s.c, f.dentry) == i && EntryOf(s.c, f.dentry) == NAME_A
  }

  ghost predicate Stage1(s: State, i: int) {
    && s.v.names == map[NAME_A := i] && TheFile(s, i, 1, 1) && OpenAsA(s, i)
    && s.c.files[Fd(0, 0)].offset == 0 && RoomFor(s.v, NAME_B) && RfsFile.FreeCount(s.v.freemap) > 0
  }

  ghost predicate Stage2(s: State, i: int) {
    && s.v.names == map[NAME_A := i, NAME_B := i] && TheFile(s, i, 2, 1) && OpenAsA(s, i)
    && s.c.files[Fd(0, 0)].offset == 0 && RfsFile.FreeCount(s.v.freemap) > 0 && StandsFor(s.c, NAME_B, i)
  }

  ghost predicate Stage3(s: State, i: int) {
    && s.v.names == map[NAME_A := i, NAME_B := i] && TheFile(s, i, 2, 2) && OpenAsA(s, i) && StandsFor(s.c, NAME_B, i)
  }

  ghost predicate Stage4(s: State, i: int) {
    s.v.names == map[NAME_A := i, NAME_B := i] && TheFile(s, i, 2, 2) && s.c.files == map[]
  }

  ghost predicate Stage5(s: State, i: int) {
    s.v.names == map[NAME_B := i] && TheFile(s, i, 1, 2) && s.c.files == map[]
  }

  lemma OneToken(b: byte)
    requires b != SLASH
    ensures HasToken([b]) && Token([b]) == [b] && !HasToken(AfterToken([b])) && Tokens([b]) == [[b]]
  {
    assert [b][1..] == [];
    NothingLeft();
    assert Leading([b], true) == 0 && SkipSlashes([b]) == [b];
    assert Leading([b], false) == 1;
  }

  // A path of one component, in the root.
  lemma RootWalk(s: State, b: byte)
    requires StateOk(s) && b != SLASH
    ensures var key := Key(ROOT, [b]);
            && (key in s.v.names ==> WalkOf(s, [b]) == Arrives(s.v.names[key]) && EntryAtEnd(s, [b]) == key)
            && (key !in s.v.names ==> WalkOf(s, [b]) == Lacks(ROOT, [b]) && MissesLast(s, [b], key))
  {
    hide StateOk, DiskWalk, LastEntry, HasToken, Token, AfterToken, Tokens;
    OneToken(b);
    RootPoints(s);
    StateParts(s);
    RootInNode(s.v);
    WalkGoesOn(s, ROOT, [b], NO_ENTRY);
    var key := Key(ROOT, [b]);
    if key in s.v.names { WalkEnds(s.dino, s.v.data, s.v.names[key], AfterToken([b]), key); }
  }

  // A run goes on while the verdict is not to halt.
  lemma Advance(states: seq<Snapshot>, events: seq<Event>, ops: seq<Op>, k: nat)
    requires IsRun(states, events, ops) && k <= |events| && k < |ops| && Verdict(states[k], ops[k]) == Done
    ensures k < |events| && events[k].op == ops[k] && events[k].o == Done
    ensures StateOk(states[k].s) && StateOk(states[k + 1].s)
    ensures Effect(states[k].s, states[k + 1].s, ops[k], Done, events[k].fd)
    ensures states[k + 1].nfiles == Counted(states[k].nfiles, ops[k], Done)
  {
    hide StateOk, Verdict, Effect;
  }

  lemma OpensA(m: Snapshot)
    requires StateOk(m.s) && Formatted(m.s) && m.nfiles == map[]
    ensures Verdict(m, Open(0, PATH_A, 66)) == Done
  {
    hide StateOk, WalkOf, EntryAtEnd, MissesLast, RfsFile.FreeCount, UsedIsOwned;
    RootWalk(m.s, 65);
  }

  lemma OpenedA(s: State, s': State, fd: Fd) returns (i: int)
    requires StateOk(s) && StateOk(s') && Formatted(s) && Effect(s, s', Open(0, PATH_A, 66), Done, fd)
    ensures Stage1(s', i)
  {
    hide StateOk, Formatted, CreatedName, OpenAsA, TheFile, RfsFile.FreeCount, RoomFor, OpenEffect;
    i := NewA(s, s', fd);
    SlotZero(s, s', fd, i);
    CreatedA(s.v, s'.v, i);
    DinodeListed(s', i);
    FileOfOne(s', i);
  }

  // The open call took the path that creates.
  lemma NewA(s: State, s': State, fd: Fd) returns (i: int)
    requires StateOk(s) && Formatted(s) && OpenEffect(s, s', 0, PATH_A, true, File, 2, fd)
    ensures Points(s'.c, s'.c.files[fd].dentry) && Inum(s'.c, s'.c.files[fd].dentry) == i
    ensures EntryOf(s'.c, s'.c.files[fd].dentry) == NAME_A && CreatedName(s.v, s'.v, NAME_A, File, i)
    ensures BlankVolume(s.v)
  {
    hide StateOk, WalkOf, EntryAtEnd, CreatedName, EntryOf, UsedIsOwned, RfsFile.FreeCount;
    RootWalk(s, 65);
    i := Inum(s'.c, s'.c.files[fd].dentry);
  }

  lemma SlotZero(s: State, s': State, fd: Fd, i: int)
    requires Formatted(s) && OpenEffect(s, s', 0, PATH_A, true, File, 2, fd)
    requires EntryOf(s'.c, s'.c.files[fd].dentry) == NAME_A && Inum(s'.c, s'.c.files[fd].dentry) == i
    ensures OpenAsA(s', i) && s'.c.files[Fd(0, 0)].offset == 0
  {
    hide Resolved, EntryOf, UsedIsOwned, RfsFile.FreeCount;
    assert Fd(0, 0) !in s.c.files;
  }

  lemma CreatedA(v: Volume, v': Volume, i: int)
    requires BlankVolume(v) && CreatedName(v, v', NAME_A, File, i)
    ensures v'.names == map[NAME_A := i] && i in v'.node && i != ROOT && RfsFile.FreeCount(v'.freemap) > 0
    ensures v'.node[i].kind == File && v'.node[i].nlinks == 1 && v'.node[i].blocks == 1 && RoomFor(v', NAME_B)
  {
    hide Leaked, NodesOk, RfsFile.FreeCount;
  }

  lemma FileOfOne(s: State, i: int)
    requires i in s.v.node && i != ROOT && s.v.node[i].kind == File && s.v.node[i].nlinks == 1
    requires s.v.node[i].blocks == 1
    requires 0 <= i < |s.dino| && 1 <= s.dino[i].blocks <= 1
    ensures TheFile(s, i, 1, 1)
  {
  }

  lemma LinksB(m: Snapshot, i: int)
    requires StateOk(m.s) && Stage1(m.s, i)
    ensures Verdict(m, Link(PATH_A, PATH_B)) == Done
  {
    hide StateOk, WalkOf, EntryAtEnd, MissesLast, RfsFile.FreeCount, OpenAsA;
    RootWalk(m.s, 65);
    RootWalk(m.s, 66);
  }

  lemma LinkedB(s: State, s': State, i: int, fd: Fd)
    requires StateOk(s) && StateOk(s') && Stage1(s, i) && Effect(s, s', Link(PATH_A, PATH_B), Done, fd)
    ensures Stage2(s', i)
  {
    hide StateOk, WalkOf, EntryAtEnd, Leaked, NodesOk, RfsFile.FreeCount, StandsFor, EntryOf, KeepsDents, OpenAsA;
    RootWalk(s, 65);
    RootWalk(s, 66);
    DinodeListed(s', i);
    StaysOpen(s, s', i);
  }

  lemma StaysOpen(s: State, s': State, i: int)
    requires OpenAsA(s, i) && KeepsDents(s.c, s'.c) && s'.c.files.Keys == s.c.files.Keys
    requires s'.c.files[Fd(0, 0)] == s.c.files[Fd(0, 0)].(offset := s'.c.files[Fd(0, 0)].offset)
    ensures OpenAsA(s', i)
  {
    hide EntryOf;
    assert s.c.files[Fd(0, 0)].dentry in s'.c.dents;
  }

  lemma WritesMore(m: Snapshot, i: int, buf: Bytes)
    requires StateOk(m.s) && Stage2(m.s, i) && |buf| == BLKSIZE + 1
    ensures Verdict(m, Write(Fd(0, 0), buf)) == Done
    ensures RfsFile.Needed(m.s.v.node[i], 0, |buf|) == 1
  {
    hide StateOk, RfsFile.FreeCount, EntryOf, StandsFor;
  }

  lemma WroteMore(s: State, s': State, i: int, buf: Bytes, fd: Fd)
    requires StateOk(s) && StateOk(s') && Stage2(s, i) && |buf| == BLKSIZE + 1
    requires Effect(s, s', Write(Fd(0, 0), buf), Done, fd)
    ensures Stage3(s', i)
  {
    hide StateOk, RfsFile.FreeCount, EntryOf, Leaked, NodesOk, RfsFile.Content, RfsFile.Splice;
    WritesMore(Snapshot(s, map[]), i, buf);
    StaysOpen(s, s', i);
    var d :| Points(s.c, d) && EntryOf(s.c, d) == NAME_B && Inum(s.c, d) == i;
    assert d in s'.c.dents;
  }

  lemma Closes(m: Snapshot, i: int)
    requires StateOk(m.s) && Stage3(m.s, i)
    ensures Verdict(m, Close(Fd(0, 0))) == Done && !LastOnInode(m.s, Fd(0, 0))
  {
    hide StateOk, EntryOf;
    var s, d := m.s, m.s.c.files[Fd(0, 0)].dentry;
    var o :| Points(s.c, o) && EntryOf(s.c, o) == NAME_B && Inum(s.c, o) == i;
    DentryNode(s, d);
    DentryNode(s, o);
    assert o in s.c.dents && s.c.dents[o].inode == s.c.dents[d].inode;
  }

  lemma ClosedA(s: State, s': State, i: int, fd: Fd)
    requires StateOk(s) && StateOk(s') && Stage3(s, i) && Effect(s, s', Close(Fd(0, 0)), Done, fd)
    ensures Stage4(s', i)
  {
    hide StateOk, EntryOf, LastOnInode;
    Closes(Snapshot(s, map[]), i);
  }

  lemma Unlinks(m: Snapshot, i: int, b: byte)
    requires StateOk(m.s) && b != SLASH && b != 0 && m.s.c.files == map[]
    requires Key(ROOT, [b]) in m.s.v.names && m.s.v.names[Key(ROOT, [b])] == i && OfKind(m.s, i, File)
    ensures Verdict(m, Unlink([b])) == Done
  {
    hide StateOk, WalkOf, EntryAtEnd, MissesLast, EntryOf;
    RootWalk(m.s, b);
  }

  lemma UnlinkedA(s: State, s': State, i: int, fd: Fd)
    requires StateOk(s) && StateOk(s') && Stage4(s, i) && Effect(s, s', Unlink(PATH_A), Done, fd)
    ensures Stage5(s', i)
  {
    hide StateOk, WalkOf, EntryAtEnd, MissesLast, Leaked, NodesOk;
    RootWalk(s, 65);
  }

  lemma RunStart(states: seq<Snapshot>, events: seq<Event>, ops: seq<Op>)
    requires IsRun(states, events, ops)
    ensures Chain(states, events) && StateOk(states[0].s)
  {
  }

  lemma RunToOpen(states: seq<Snapshot>, events: seq<Event>, buf: Bytes) returns (i: int)
    requires IsRun(states, events, LosingCalls(buf)) && |buf| == BLKSIZE + 1 && |states| > 0
    requires Formatted(states[0].s) && states[0].nfiles == map[]
    ensures |events| >= 3 && |states| == |events| + 1
    ensures events[0].o == events[1].o == events[2].o == Done
    ensures events[0].op.Open? && events[1].op.Link? && events[2].op.Write?
    ensures StateOk(states[3].s) && Stage3(states[3].s, i)
  {
    hide StateOk, Verdict, Effect, Stage1, Stage2, Stage3, IsRun, Formatted;
    var ops := LosingCalls(buf);
    RunStart(states, events, ops);
    OpensA(states[0]);
    Advance(states, events, ops, 0);
    i := OpenedA(states[0].s, states[1].s, events[0].fd);
    LinksB(states[1], i);
    Advance(states, events, ops, 1);
    LinkedB(states[1].s, states[2].s, i, events[1].fd);
    WritesMore(states[2], i, buf);
    Advance(states, events, ops, 2);
    WroteMore(states[2].s, states[3].s, i, buf, events[2].fd);
  }

  lemma RunToLast(states: seq<Snapshot>, events: seq<Event>, buf: Bytes, i: int)
    requires IsRun(states, events, LosingCalls(buf)) && |events| >= 3 && |states| == |events| + 1
    requires StateOk(states[3].s) && Stage3(states[3].s, i)
    ensures |events| == 6 && events[3].o == events[4].o == events[5].o == Done
    ensures events[3].op.Close? && !LosesBlocks(states[4].s, events[4]) && LosesBlocks(states[5].s, events[5])
  {
    hide StateOk, Verdict, Effect, Stage3, IsRun;
    var ops := LosingCalls(buf);
    Closes(states[3], i);
    Advance(states, events, ops, 3);
    ClosedA(states[3].s, states[4].s, i, events[3].fd);
    Unlinks(states[4], i, 65);
    Advance(states, events, ops, 4);
    UnlinkedA(states[4].s, states[5].s, i, events[4].fd);
    Unlinks(states[5], i, 66);
    Advance(states, events, ops, 5);
    RunLength(states, events, ops);
    RootWalk(states[4].s, 65);
    RootWalk(states[5].s, 66);
    hide WalkOf, EntryAtEnd;
  }

  lemma RunLength(states: seq<Snapshot>, events: seq<Event>, ops: seq<Op>)
    requires IsRun(states, events, ops)
    ensures |events| <= |ops|
  {
  }

  /** After these calls from a formatted volume, all of which succeed, a block is marked used
      that no inode has, and it was not before the last of them. */
  lemma BlockLost(states: seq<Snapshot>, events: seq<Event>, buf: Bytes)
    requires IsRun(states, events, LosingCalls(buf)) && |buf| == BLKSIZE + 1
    requires Formatted(states[0].s) && states[0].nfiles == map[]
    ensures |events| == 6 && forall k {:trigger events[k]} :: 0 <= k < 6 ==> events[k].o == Done
    ensures UsedIsOwned(states[5].s.v) && !UsedIsOwned(states[6].s.v)
  {
    hide StateOk, Verdict, Effect, Stage1, Stage2, Stage3, Stage4, Stage5, UsedIsOwned, LosesBlocks, IsRun, LosingCalls;
    hide Chain;
    RunStart(states, events, LosingCalls(buf));
    var i := RunToOpen(states, events, buf);
    RunToLast(states, events, buf, i);
    FirstFour(states, events);
    RunKeepsUsedOwned(states, events, 5);
    RunKeepsUsedOwned(states, events, 6);
  }

  lemma FirstFour(states: seq<Snapshot>, events: seq<Event>)
    requires |states| == 7 && |events| == 6 && events[0].op.Open? && events[1].op.Link? && events[2].op.Write?
    requires events[3].op.Close?
    ensures forall k {:trigger events[k]} :: 0 <= k < 4 ==> !LosesBlocks(states[k].s, events[k])
  {
  }

  // ---------------------------------------------------------------------
  // Where a created name ends up
  // ---------------------------------------------------------------------

  // What is left of the path after the component that the walk lacks.
  function Unwalked(dino: seq<Node>, data: map<int, Block>, i: int, path: Bytes): Bytes
    requires Blocks(data)
    decreases |path|
  {
    if !HasToken(path) || !DiskDir(dino, i) then []
    else
      var es := Listing(dino[i], data);
      var k := Find(es, Token(path));
      if k < |es| then Unwalked(dino, data, es[k].inum, AfterToken(path)) else AfterToken(path)
  }

  lemma DiskDirIsDir(s: State, i: int)
    requires StateOk(s) && DiskDir(s.dino, i)
    ensures IsDir(s.v, i)
  {
    assert Synced(s.dino[i], s.v.node[i], i in s.c.vhash);
  }

  lemma NamesLieInDirs(s: State, key: Key)
    requires StateOk(s) && key in s.v.names
    ensures IsDir(s.v, key.dir)
  {
    hide CacheOk, InodesOk;
  }

  lemma WalkLacks(s: State, i: int, path: Bytes)
    requires StateOk(s) && IsDir(s.v, i) && HasToken(path) && Blocks(s.v.data)
    ensures Key(i, Token(path)) in s.v.names ==>
              Unwalked(s.dino, s.v.data, i, path) ==
              Unwalked(s.dino, s.v.data, s.v.names[Key(i, Token(path))], AfterToken(path))
    ensures Key(i, Token(path)) !in s.v.names ==> Unwalked(s.dino, s.v.data, i, path) == AfterToken(path)
  {
    DiskStep(s, i, Token(path));
  }

  /** After a create, the path leads to the new inode exactly when the component it was
      missing was its last; the check of the callers compares names only. */
  lemma {:induction false} CreateResolves(s: State, s': State, j: int, path: Bytes, key: Key, kind: Kind, i: int)
    requires StateOk(s) && StateOk(s') && Blocks(s.v.data) && Blocks(s'.v.data) && kind != Free
    requires DiskWalk(s.dino, s.v.data, j, path) == Lacks(key.dir, key.name)
    requires CreatedName(s.v, s'.v, key, kind, i)
    ensures DiskWalk(s'.dino, s'.v.data, j, path) == Arrives(i) <==> !HasToken(Unwalked(s.dino, s.v.data, j, path))
    decreases |path|
  {
    hide StateOk, Leaked, NodesOk;
    assert HasToken(path) && DiskDir(s.dino, j);
    DiskDirIsDir(s, j);
    var here := Key(j, Token(path));
    WalkGoesOn(s, j, path, NO_ENTRY);
    WalkLacks(s, j, path);
    assert here in s'.v.names;
    NamesLieInDirs(s', here);
    WalkGoesOn(s', j, path, NO_ENTRY);
    hide DiskWalk, Unwalked;
    if here in s.v.names {
      CreateResolves(s, s', s.v.names[here], AfterToken(path), key, kind, i);
    } else {
      NewEnds(s, s', key, kind, i, AfterToken(path));
    }
  }

  // The new inode is a file, or a directory without names.
  lemma NewEnds(s: State, s': State, key: Key, kind: Kind, i: int, rest: Bytes)
    requires StateOk(s) && StateOk(s') && Blocks(s'.v.data) && kind != Free && IsDir(s.v, key.dir)
    requires CreatedName(s.v, s'.v, key, kind, i)
    ensures DiskWalk(s'.dino, s'.v.data, i, rest) == Arrives(i) <==> !HasToken(rest)
  {
    hide StateOk, Leaked, NodesOk, DiskWalk;
    if !HasToken(rest) {
      WalkEnds(s'.dino, s'.v.data, i, rest, NO_ENTRY);
    } else if kind == Dir {
      if Key(i, Token(rest)) in s.v.names {
        NamesLieInDirs(s, Key(i, Token(rest)));
        assert false;
      }
      WalkGoesOn(s', i, rest, NO_ENTRY);
    } else {
      WalkStops(s', i, rest);
    }
  }

  /** In any volume without "a" in its root, creating "a/a" passes the callers' check
      and makes a file "a" in the root, and the path still does not lead to it. */
  lemma SameNameTwice(s: State, s': State, i: int)
    requires StateOk(s) && StateOk(s') && Blocks(s.v.data) && Blocks(s'.v.data)
    requires Key(ROOT, [97]) !in s.v.names && CreatedName(s.v, s'.v, Key(ROOT, [97]), File, i)
    ensures MissesLast(s, [97, SLASH, 97], Key(ROOT, [97]))
    ensures DiskWalk(s'.dino, s'.v.data, ROOT, [97, SLASH, 97]) != Arrives(i)
  {
    hide StateOk, Leaked, NodesOk, CreatedName, DiskWalk;
    var path: Bytes := [97, SLASH, 97];
    TwoTokens();
    StateParts(s);
    RootInNode(s.v);
    WalkGoesOn(s, ROOT, path, NO_ENTRY);
    WalkLacks(s, ROOT, path);
    CreateResolves(s, s', ROOT, path, Key(ROOT, [97]), File, i);
  }

  lemma RootInNode(v: Volume)
    requires VolumeOk(v)
    ensures IsDir(v, ROOT)
  {
  }

  lemma TwoTokens()
    ensures var path: Bytes := [97, SLASH, 97];
            && HasToken(path) && Token(path) == [97] && HasToken(AfterToken(path))
            && Tokens(path) == [[97], [97]]
  {
    var path, one: Bytes := [97, SLASH, 97], [97];
    var empty: Bytes := [];
    assert path[1..] == [SLASH, 97] && path[1..][1..] == one && one[1..] == empty;
    TokensAreFields(path);
    assert Fields(empty, one) == [one] && Fields(one, []) == [one] by { assert empty + [97] == one; }
    assert Fields(path[1..], [97]) == [one] + Fields(one, []);
    assert empty + [97] == one;
    assert Fields(path, []) == Fields(path[1..], [97]);
    assert Tokens(path) == [Token(path)] + Tokens(AfterToken(path));
    assert Tokens(path)[0] == one;
  }
}
