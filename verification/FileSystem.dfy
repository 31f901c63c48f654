/**
 The file system calls of the kernel: path lookup through the caches, open and
 create, mkdir, link, unlink, read, write, seek and close, over one mounted RFS
 volume.

 Every call keeps `Valid`, so every state reachable from a formatted volume
 satisfies it; where the code asserts, the assertion is proved here.
 */
module FileSystem {
  import opened Base
  import opened RfsLayout
  import opened RfsVolume
  import opened VfsState
  import opened VfsSteps
  import opened PathTokens
  import HashTable
  import opened VfsTables
  import RfsFile
  import RfsCompact

  const MAX_FILES: nat := 128

  // ---------------------------------------------------------------------
  // The walk that does not use any cache
  // ---------------------------------------------------------------------

  datatype Walk = Arrives(inum: int) | Lacks(dir: int, name: Name) | NotDir(inum: int)

  predicate DiskDir(dino: seq<Node>, i: int) {
    0 <= i < |dino| && dino[i].kind == Dir && NodeOk(dino[i])
  }

  // From inode i along the components of a path, reading directory files only.
  function DiskWalk(dino: seq<Node>, data: map<int, Block>, i: int, path: Bytes): Walk
    requires Blocks(data)
    decreases |path|
  {
    if !HasToken(path) then Arrives(i)
    else if !DiskDir(dino, i) then NotDir(i)
    else
      var es := Listing(dino[i], data);
      var k := Find(es, Token(path));
      if k < |es| then DiskWalk(dino, data, es[k].inum, AfterToken(path)) else Lacks(i, Token(path))
  }

  // The last directory entry that the walk goes through; `key` is the one before i.
  function LastEntry(dino: seq<Node>, data: map<int, Block>, i: int, path: Bytes, key: Key): Key
    requires Blocks(data)
    decreases |path|
  {
    if !HasToken(path) || !DiskDir(dino, i) then key
    else
      var es := Listing(dino[i], data);
      var k := Find(es, Token(path));
      if k < |es| then LastEntry(dino, data, es[k].inum, AfterToken(path), Key(i, Token(path))) else key
  }

  const NO_ENTRY: Key := Key(-1, [])

  // The directory entry that a cached dentry stands for.
  function EntryOf(c: Cache, d: Ptr): Key {
    if d in c.dents && d != c.root && Points(c, c.dents[d].parent)
    then Key(Inum(c, c.dents[d].parent), c.dents[d].name) else NO_ENTRY
  }

  lemma EntryHere(c: Cache, d: Ptr, parent: Ptr)
    requires Points(c, d) && d != c.root && c.dents[d].parent == parent && Points(c, parent)
    ensures EntryOf(c, d) == Key(Inum(c, parent), c.dents[d].name)
  {
  }

  lemma EntryOfRoot(c: Cache)
    ensures EntryOf(c, c.root) == NO_ENTRY
  {
  }

  // One directory of the walk, told by the name index.
  lemma DiskStep(s: State, i: int, name: Name)
    requires StateOk(s) && IsDir(s.v, i)
    ensures Blocks(s.v.data) && DiskDir(s.dino, i) && s.dino[i] == s.v.node[i]
    ensures var es := Listing(s.dino[i], s.v.data);
            var k := Find(es, name);
            && (k < |es| <==> Key(i, name) in s.v.names)
            && (k < |es| ==> s.v.names[Key(i, name)] == es[k].inum)
  {
    NodeInRange(s.v, i);
    hide CacheOk;
    assert Synced(s.dino[i], s.v.node[i], i in s.c.vhash);
    assert Spells(Listing(s.v.node[i], s.v.data), s.v.names, i);
  }

  // ---------------------------------------------------------------------
  // Reading a directory file entry by entry (rfs_lookup, rfs_unlink)
  // ---------------------------------------------------------------------

  method FindEntry(n: Node, data: map<int, Block>, name: Name) returns (k: int, inum: int)
    requires NodeOk(n) && Blocks(data)
    ensures k == Find(Listing(n, data), name)
    ensures k < NumEntries(n) ==> inum == Listing(n, data)[k].inum
  {
    var total := n.size / DIRENT;
    var iobuffer: Block := data[n.addrs[0]];
    ghost var es := Listing(n, data);
    k, inum := 0, 0;
    while k < total
      invariant 0 <= k <= total
      invariant k % EPB != 0 ==> iobuffer == data[n.addrs[k / EPB]]
      invariant forall j {:trigger es[j]} :: 0 <= j < k ==> es[j].name != name
    {
      if k % EPB == 0 {
        assert k / EPB < n.blocks;
        iobuffer := data[n.addrs[k / EPB]];
      }
      var e := Slot(iobuffer, k % EPB);
      assert e == es[k];
      if e.name == name { inum := e.inum; return; }
      k := k + 1;
    }
  }

  // ---------------------------------------------------------------------
  // The mounted file system
  // ---------------------------------------------------------------------

  // Done, refused with an error message, stopped by a panic, or outside what the code
  // handles (see the callers).
  datatype Outcome = Done | Refused | Panic | OutOfScope

  predicate NameFits(name: Name) { |name| < NAME_LEN && 0 !in name }

  // A new inode i of the given kind and its name; nothing else is named differently.
  ghost predicate NewInode(s: State, s': State, pp: Ptr, name: Name, kind: Kind, i: int) {
    && pp in s.c.vinodes && IsDir(s'.v, s.c.vinodes[pp].inum)
    && FreshIn(s.v, s'.v, s.c.vinodes[pp].inum, kind, i)
    && i !in s'.c.vhash && s'.v.names == s.v.names[Key(s.c.vinodes[pp].inum, name) := i]
    && NodesOk(s.v) && NodesOk(s'.v) && Leaked(s'.v) == Leaked(s.v)
    && ContentsKept(s.v, s'.v, s.c.vinodes[pp].inum)
    && s'.c.dents == s.c.dents && s'.c.dhash == s.c.dhash && s'.c.root == s.c.root && s'.c.files == s.c.files
    && s'.c.vinodes.Keys == s.c.vinodes.Keys
    && forall p {:trigger s'.c.vinodes[p]} :: p in s.c.vinodes ==> s'.c.vinodes[p].inum == s.c.vinodes[p].inum
  }

  // The (directory, name) -> inode map grew at exactly one key, no block leaked, and no
  // bytes but the directory's changed.
  ghost predicate GainsName(v: Volume, v': Volume, key: Key, i: int) {
    && key !in v.names && v'.names == v.names[key := i]
    && NodesOk(v) && NodesOk(v') && Leaked(v') == Leaked(v) && ContentsKept(v, v', key.dir)
  }

  // Inode i is new, empty and has one block, one of the free ones; only its directory's
  // node changed beside.
  ghost predicate FreshIn(v: Volume, v': Volume, dir: int, kind: Kind, i: int) {
    && i !in v.node && i in v'.node && dir in v.node
    && v'.node[i].kind == kind && v'.node[i].size == 0 && v'.node[i].blocks == 1 && v'.node[i].nlinks == 1
    && v'.node == v.node[i := v'.node[i]][dir := OneLonger(v.node[dir])]
    && RfsFile.FreeCount(v'.freemap) == RfsFile.FreeCount(v.freemap) - 1
  }

  // A new, empty inode got its one name.
  ghost predicate CreatedName(v: Volume, v': Volume, key: Key, kind: Kind, i: int) {
    GainsName(v, v', key, i) && FreshIn(v, v', key.dir, kind, i)
  }

  lemma NewInodeParts(s: State, s': State, pp: Ptr, name: Name, kind: Kind, i: int)
    requires NewInode(s, s', pp, name, kind, i)
    ensures i in s'.v.node && i !in s'.c.vhash && pp in s'.c.vinodes && s'.c.vinodes[pp].inum == s.c.vinodes[pp].inum
    ensures IsDir(s'.v, s.c.vinodes[pp].inum)
    ensures s'.v.names == s.v.names[Key(s.c.vinodes[pp].inum, name) := i]
    ensures s'.c.dents == s.c.dents && s'.c.dhash == s.c.dhash
    ensures forall d {:trigger Points(s.c, d)} :: Points(s.c, d) ==> Points(s'.c, d) && Inum(s'.c, d) == Inum(s.c, d)
  {
  }

  lemma NewlyCacheable(s1: State, s2: State, parent: Ptr, name: Name, p: Ptr, i: int)
    requires StateOk(s1) && Extends(s1, s2) && Points(s2.c, parent) && IsDir(s2.v, Inum(s2.c, parent))
    requires p in s2.c.vinodes && s2.c.vinodes[p].inum == i && i !in s1.c.vhash
    requires Key(Inum(s2.c, parent), name) in s2.v.names && s2.v.names[Key(Inum(s2.c, parent), name)] == i
    requires s2.c.dhash == s1.c.dhash && s2.c.dents == s1.c.dents && Points(s1.c, parent)
    requires Inum(s1.c, parent) == Inum(s2.c, parent)
    ensures Cacheable(s2, parent, name, p)
  {
    if DKey(parent, name) in s1.c.dhash {
      DentryUnderKey(s1, DKey(parent, name));
      DentryNode(s1, s1.c.dhash[DKey(parent, name)]);
      assert false;
    }
  }

  lemma CreatedNameOk(s: State, s1: State, s2: State, pp: Ptr, parent: Ptr, name: Name, kind: Kind, i: int, d: Ptr)
    requires NewInode(s, s1, pp, name, kind, i) && s2.v == s1.v && s2.c.files == s1.c.files
    requires Points(s.c, parent) && s.c.dents[parent].inode == pp && Key(Inum(s.c, parent), name) !in s.v.names
    requires StateOk(s2) && d in s2.c.dents && s2.c.dents[d].parent == parent && parent in s2.c.dents
    requires s2.c.dents[d].inode in s2.c.vinodes && Inum(s2.c, d) == i
    ensures CreatedName(s.v, s2.v, Key(Inum(s.c, parent), name), kind, Inum(s2.c, d))
    ensures Points(s2.c, d) && d != s2.c.root && s2.c.files == s.c.files && Reshaped(s.c, s1.c)
  {
    NewDentryPoints(s2, d);
    DentryNode(s2, parent);
  }

  // The same dentries, on vinodes of the same inodes.
  ghost predicate Reshaped(c: Cache, c': Cache) {
    && c'.dents == c.dents && c'.root == c.root && c'.vinodes.Keys == c.vinodes.Keys
    && forall p {:trigger c'.vinodes[p]} :: p in c.vinodes ==> c'.vinodes[p].inum == c.vinodes[p].inum
  }

  // Every cached dentry is kept, and stands for the entry and the inode that it did.
  ghost predicate KeepsDents(c: Cache, c': Cache) {
    forall d {:trigger d in c'.dents} :: Points(c, d) ==>
      Points(c', d) && EntryOf(c', d) == EntryOf(c, d) && Inum(c', d) == Inum(c, d)
  }

  // Dentries and vinodes may have gone; those that are left are where they were.
  ghost predicate Less(c: Cache, c': Cache) {
    && c'.root == c.root
    && (forall d {:trigger d in c'.dents} :: d in c'.dents ==>
          && d in c.dents && c'.dents[d].inode == c.dents[d].inode && c'.dents[d].parent == c.dents[d].parent
          && c'.dents[d].name == c.dents[d].name)
    && forall p {:trigger p in c'.vinodes} :: p in c'.vinodes ==>
         p in c.vinodes && c'.vinodes[p].inum == c.vinodes[p].inum
  }

  lemma LessTrans(c: Cache, c1: Cache, c2: Cache)
    requires Less(c, c1) && Less(c1, c2)
    ensures Less(c, c2)
  {
  }

  lemma LessDentry(c: Cache, d: Ptr)
    requires Points(c, d)
    ensures Less(c, WithoutDentry(c, d))
  {
  }

  lemma LessVinode(c: Cache, p: Ptr)
    requires p in c.vinodes
    ensures Less(c, WithoutVinode(c, p))
  {
  }

  lemma UnlinkLess(s: State, pi: Ptr, pp: Ptr, d: Ptr, f1: seq<bool>, data1: map<int, Block>)
    requires pi in s.c.vinodes && 0 <= s.c.vinodes[pi].inum < |s.dino|
    requires pp in s.c.vinodes && 0 <= s.c.vinodes[pp].inum < |s.dino| && d in s.c.dents && pi == s.c.dents[d].inode
    ensures Less(s.c, WrittenUnlink(s, pi, pp, d, f1, data1).c)
  {
    hide OneShorter, ReleasedDinode, LastFreed;
  }

  // Some cached dentry stands for the entry, and is on inode i.
  ghost predicate StandsFor(c: Cache, key: Key, i: int) {
    exists d {:trigger d in c.dents} :: Points(c, d) && EntryOf(c, d) == key && Inum(c, d) == i
  }

  lemma KeepsThrough(s: State, s1: State, s2: State)
    requires StateOk(s) && Reshaped(s.c, s1.c) && Extends(s1, s2)
    ensures KeepsDents(s.c, s2.c)
  {
    hide StateOk, Reshaped, Extends, EntryOf;
    forall d | Points(s.c, d)
      ensures Points(s2.c, d) && EntryOf(s2.c, d) == EntryOf(s.c, d) && Inum(s2.c, d) == Inum(s.c, d)
    {
      KeepsOne(s, s1, s2, d);
    }
  }

  lemma KeepsOne(s: State, s1: State, s2: State, d: Ptr)
    requires StateOk(s) && Reshaped(s.c, s1.c) && Extends(s1, s2) && Points(s.c, d)
    ensures Points(s2.c, d) && EntryOf(s2.c, d) == EntryOf(s.c, d) && Inum(s2.c, d) == Inum(s.c, d)
  {
    hide StateOk;
    KeepsInum(s.c, s1.c, d);
    ExtendsPoints(s1, s2, d);
    if d != s.c.root {
      var e := s.c.dents[d].parent;
      DentryParent(s, d);
      KeepsInum(s.c, s1.c, e);
      ExtendsPoints(s1, s2, e);
    }
    ExtendsVolume(s1, s2);
    hide Extends;
  }

  lemma KeepsInum(c: Cache, c': Cache, d: Ptr)
    requires Reshaped(c, c') && Points(c, d)
    ensures Points(c', d) && Inum(c', d) == Inum(c, d) && c'.dents[d] == c.dents[d]
  {
    assert c.dents[d].inode in c'.vinodes;
  }

  lemma DentryParent(s: State, d: Ptr)
    requires StateOk(s) && d in s.c.dents && d != s.c.root
    ensures Points(s.c, s.c.dents[d].parent)
  {
    assert AllAnchored(s.c, s.v) && Anchored(s.c, s.v, d);
  }

  // A dentry just put under `parent`.
  lemma NewStands(s: State, s': State, d: Ptr, parent: Ptr, name: Name)
    requires StateOk(s) && StateOk(s') && Points(s.c, parent) && KeepsDents(s.c, s'.c)
    requires d in s'.c.dents && s'.c.dents[d].parent == parent && s'.c.dents[d].name == name
    ensures Points(s'.c, d) && EntryOf(s'.c, d) == Key(Inum(s.c, parent), name)
    ensures StandsFor(s'.c, Key(Inum(s.c, parent), name), Inum(s'.c, d))
  {
    assert parent in s'.c.dents;
    DentryNode(s', parent);
    NewDentryPoints(s', d);
  }

  // What a new directory entry needs of the code: room in the directory's last block, and
  // in the entry's name field.
  predicate RoomFor(v: Volume, key: Key) {
    key.dir in v.node && HasRoom(v.node[key.dir]) && NameFits(key.name)
  }

  // How the creation of a file or directory ends.
  function CreateVerdict(v: Volume, key: Key): Outcome {
    if !RoomFor(v, key) then OutOfScope else if RfsFile.FreeCount(v.freemap) == 0 then Panic else Done
  }

  datatype Step = Child(dentry: Ptr) | NoEntry
  datatype Lookup = Found(dentry: Ptr) | Missing(parent: Ptr, name: Name) | ThroughFile

  // What a lookup may change: nothing on the volume, and in the caches only entries
  // that were not there, and reference counts.
  ghost predicate Extends(s: State, s': State) {
    && s'.v == s.v && s'.dino == s.dino
    && s'.c.root == s.c.root && s'.c.files == s.c.files
    && (forall d {:trigger d in s.c.dents} :: d in s.c.dents ==> d in s'.c.dents && s'.c.dents[d] == s.c.dents[d])
    && (forall p {:trigger p in s.c.vinodes} :: p in s.c.vinodes ==>
          p in s'.c.vinodes && s'.c.vinodes[p].inum == s.c.vinodes[p].inum)
  }

  // A name on disk that leads to the cached inode p and has no dentry yet.
  ghost predicate Cacheable(s: State, parent: Ptr, name: Name, p: Ptr) {
    && p in s.c.vinodes && Points(s.c, parent) && IsDir(s.v, Inum(s.c, parent))
    && DKey(parent, name) !in s.c.dhash
    && Key(Inum(s.c, parent), name) in s.v.names
    && s.v.names[Key(Inum(s.c, parent), name)] == s.c.vinodes[p].inum
  }

  lemma CacheableOk(s: State, parent: Ptr, name: Name, p: Ptr, d: Ptr)
    requires StateOk(s) && Cacheable(s, parent, name, p) && d != NULL && d !in s.c.dents
    ensures p in s.c.vinodes
    ensures var e := Dentry(name, 0, p, parent);
            var s' := s.(c := WithDentry(s.c, d, e, IsDir(s.v, s.c.vinodes[p].inum)));
            StateOk(s') && Extends(s, s')
  {
    hide StateOk;
    var e := Dentry(name, 0, p, parent);
    WithDentryOk(s, d, e);
    ExtendsDentry(s, d, e);
  }

  lemma ExtendsDentry(s: State, d: Ptr, e: Dentry)
    requires d !in s.c.dents && e.inode in s.c.vinodes
    ensures Extends(s, s.(c := WithDentry(s.c, d, e, IsDir(s.v, s.c.vinodes[e.inode].inum))))
  {
  }

  lemma ExtendsPoints(s: State, s': State, d: Ptr)
    requires Extends(s, s') && Points(s.c, d)
    ensures Points(s'.c, d) && Inum(s'.c, d) == Inum(s.c, d) && s'.c.dents[d] == s.c.dents[d]
  {
  }

  lemma ExtendsSelf(s: State)
    ensures Extends(s, s)
  {
  }

  lemma ExtendsVolume(s: State, s': State)
    requires Extends(s, s')
    ensures s'.v == s.v && s'.dino == s.dino && s'.c.root == s.c.root && s'.c.files == s.c.files
  {
  }

  lemma ExtendsVinode(s: State, s': State, p: Ptr)
    requires Extends(s, s') && p in s.c.vinodes
    ensures p in s'.c.vinodes && s'.c.vinodes[p].inum == s.c.vinodes[p].inum
  {
  }

  lemma ExtendsTrans(s: State, s1: State, s2: State)
    requires Extends(s, s1) && Extends(s1, s2)
    ensures Extends(s, s2)
  {
  }

  // A live inode that is not cached is what its disk inode says; a name leads to a
  // live inode.
  lemma NamedInode(s: State, key: Key)
    requires StateOk(s) && key in s.v.names
    ensures var i := s.v.names[key];
            && i in s.v.node && 0 <= i < |s.dino| && i != ROOT
            && (i !in s.c.vhash ==> s.dino[i] == s.v.node[i])
            && (i in s.c.vhash ==> s.c.vhash[i] in s.c.vinodes && s.c.vinodes[s.c.vhash[i]].inum == i)
  {
    var i := s.v.names[key];
    VolumeParts(s.v);
    NodeInRange(s.v, i);
    hide CacheOk, VolumeOk, LinksCounted, NodesOk;
    assert Synced(s.dino[i], s.v.node[i], i in s.c.vhash);
  }

  lemma DentryNode(s: State, d: Ptr)
    requires StateOk(s) && d in s.c.dents
    ensures d != NULL && Points(s.c, d)
    ensures var p := s.c.dents[d].inode; var i := Inum(s.c, d);
            && i in s.v.node && s.c.vinodes[p].node == s.v.node[i] && 0 <= i < NINODES == |s.dino|
            && i in s.c.vhash && s.c.vhash[i] == p
  {
    assert AllPoint(s.c);
    VinodeInRange(s, s.c.dents[d].inode);
  }

  // Every disk inode, live or free, has room for the direct block addresses.
  ghost predicate Shaped(dino: seq<Node>) {
    forall i {:trigger dino[i]} :: 0 <= i < |dino| ==> |dino[i].addrs| == DIRECT
  }

  const INODES_PER_BLOCK := 32        // RFS_BLKSIZE / RFS_INODESIZE
  const INODE_BLOCKS := 10            // RFS_MAX_INODE_BLKNUM

  function FreeNode(d: Node): Node { d.(size := 0, kind := Free, nlinks := 0, blocks := 0) }

  // One block of free inodes, written to each inode block.
  method FormatInodes(buffer: seq<Node>) returns (inodes: seq<Node>)
    requires |buffer| == INODES_PER_BLOCK && Shaped(buffer)
    ensures |inodes| == NINODES && Shaped(inodes)
    ensures forall i {:trigger inodes[i]} :: 0 <= i < NINODES ==> inodes[i] == FreeNode(buffer[i % INODES_PER_BLOCK])
  {
    var block := buffer;
    var i := 0;
    while i < INODES_PER_BLOCK
      invariant 0 <= i <= INODES_PER_BLOCK && |block| == INODES_PER_BLOCK
      invariant forall j {:trigger block[j]} :: 0 <= j < i ==> block[j] == FreeNode(buffer[j])
      invariant forall j {:trigger block[j]} :: i <= j < INODES_PER_BLOCK ==> block[j] == buffer[j]
    {
      block := block[i := FreeNode(block[i])];
      i := i + 1;
    }
    inodes := [];
    var b := 0;
    while b < INODE_BLOCKS
      invariant 0 <= b <= INODE_BLOCKS && |inodes| == b * INODES_PER_BLOCK
      invariant forall j {:trigger inodes[j]} :: 0 <= j < |inodes| ==> inodes[j] == block[j % INODES_PER_BLOCK]
    {
      inodes := inodes + block;
      b := b + 1;
    }
  }

  // The used blocks are exactly the blocks of live inodes.
  ghost predicate UsedIsOwned(v: Volume) {
    && |v.freemap| == NBLOCKS
    && forall b {:trigger v.freemap[b]} :: 0 <= b < NBLOCKS ==> (v.freemap[b] <==> OFFSET_FREE + b in v.owner)
  }

  lemma FormattedOk(s: State, n: Node, v: Ptr, d: Ptr)
    requires n.size == 0 && n.kind == Dir && n.nlinks == 1 && n.blocks == 1 && |n.addrs| == DIRECT
    requires n.addrs[0] == OFFSET_FREE
    requires Blocks(s.v.data) && s.v.freemap == seq(NBLOCKS, b => b == 0) && v != NULL && d != NULL
    requires s.v.node == map[ROOT := n] && s.v.names == map[] && s.v.owner == map[OFFSET_FREE := Place(ROOT, 0)]
    requires |s.dino| == NINODES && s.dino[ROOT] == n
    requires forall i {:trigger s.dino[i]} :: 0 < i < NINODES ==> s.dino[i].kind == Free
    requires s.c.vinodes == map[v := Vinode(ROOT, 1, n)] && s.c.vhash == map[ROOT := v]
    requires s.c.root == d && s.c.dents.Keys == {d} && s.c.dents[d].inode == v && s.c.dents[d].parent == NULL
    requires s.c.dents[d].dref == 0
    requires s.c.dhash == map[] && s.c.dirOf == map[ROOT := d] && s.c.files == map[]
    ensures StateOk(s) && UsedIsOwned(s.v)
  {
    FormattedVolume(s.v, n);
    hide VolumeOk;
    assert DentsOf(s.c.dents, v) == {d};
    assert FilesOf(s.c.files, d) == {};
  }

  lemma FormattedVolume(v: Volume, n: Node)
    requires n.size == 0 && n.kind == Dir && n.nlinks == 1 && n.blocks == 1 && |n.addrs| == DIRECT
    requires n.addrs[0] == OFFSET_FREE
    requires Blocks(v.data) && v.freemap == seq(NBLOCKS, b => b == 0)
    requires v.node == map[ROOT := n] && v.names == map[] && v.owner == map[OFFSET_FREE := Place(ROOT, 0)]
    ensures VolumeOk(v)
  {
    assert NodeOk(n);
  }

  // ---------------------------------------------------------------------
  // Paths in a buffer
  // ---------------------------------------------------------------------

  // The copy of a path that strtok works on.
  method NewCopy(path: CString) returns (copy: array<byte>, strtok: Strtok)
    requires PathFits(path)
    ensures fresh(copy) && fresh(strtok) && Terminated(copy, strtok) && At(copy[..], 0) == path
  {
    copy := new byte[MAX_PATH_LEN](i => if 0 <= i < |path| then path[i] else 0);
    strtok := new Strtok();
    PathAtStart(copy[..], path);
  }

  lemma PathAtStart(s: Bytes, path: Bytes)
    requires |path| < |s| && 0 !in path && s[|path|] == 0
    requires forall i {:trigger s[i]} :: 0 <= i < |path| ==> s[i] == path[i]
    ensures At(s, 0) == path
  {
    forall j | 0 <= j < |path| ensures s[j] != 0 { assert path[j] in path; }
    AtSkip(s, 0, |path|);
    assert s[0..|path|] == path;
  }

  ghost predicate Terminated(copy: array<byte>, strtok: Strtok)
    reads copy, strtok
  {
    copy.Length > 0 && copy[copy.Length - 1] == 0 && (strtok.current == NONE || 0 <= strtok.current < copy.Length)
  }

  // strtok has just handed out the first token of `rest`, or found none.
  ghost predicate Standing(copy: array<byte>, strtok: Strtok, start: int, rest: Bytes)
    reads copy, strtok
  {
    && (start == NONE <==> !HasToken(rest))
    && (HasToken(rest) ==>
          0 <= start < copy.Length && At(copy[..], start) == Token(rest) && strtok.Rest(copy[..]) == AfterToken(rest))
  }

  method NextToken(copy: array<byte>, strtok: Strtok, anew: bool, ghost rest: Bytes) returns (start: int)
    requires Terminated(copy, strtok) && rest == if anew then At(copy[..], 0) else strtok.Rest(copy[..])
    modifies copy, strtok
    ensures Terminated(copy, strtok) && Standing(copy, strtok, start, rest)
    ensures start != NONE ==> Past(copy, strtok, start)
  {
    start := strtok.Next(copy, anew);
  }

  // The cursor is past the NUL of the string at position k.
  ghost predicate Past(copy: array<byte>, strtok: Strtok, k: int)
    reads copy, strtok
  {
    0 <= k < copy.Length && (strtok.current == NONE || k + |At(copy[..], k)| < strtok.current <= copy.Length)
  }

  // The next token, while an earlier one stays what it is.
  method NextKeeping(copy: array<byte>, strtok: Strtok, k: int, ghost rest: Bytes) returns (start: int)
    requires Terminated(copy, strtok) && rest == strtok.Rest(copy[..]) && Past(copy, strtok, k)
    modifies copy, strtok
    ensures Terminated(copy, strtok) && Standing(copy, strtok, start, rest)
    ensures start != NONE ==> Past(copy, strtok, start)
    ensures At(copy[..], k) == old(At(copy[..], k))
  {
    hide At, HasToken, Token, AfterToken;
    ghost var before, n := copy[..], strtok.current;
    NothingLeft();
    start := strtok.Next(copy, false);
    if n != NONE {
      assert forall j {:trigger copy[..][j]} :: 0 <= j < n ==> copy[..][j] == before[j];
      AtFrame(before, copy[..], k, n);
    }
  }

  lemma TokenHere(copy: array<byte>, strtok: Strtok, start: int, rest: Bytes)
    requires Standing(copy, strtok, start, rest) && start != NONE
    ensures HasToken(rest) && 0 <= start < copy.Length && CStr(copy[start..]) == Token(rest) == At(copy[..], start)
    ensures strtok.Rest(copy[..]) == AfterToken(rest)
  {
    AtIsCStr(copy[..], start);
    assert copy[..][start..] == copy[start..];
  }

  lemma NoTokenHere(copy: array<byte>, strtok: Strtok, rest: Bytes)
    requires Standing(copy, strtok, NONE, rest)
    ensures !HasToken(rest)
  {
  }

  // A volume as rfs_format_dev leaves it: an empty root directory, and one block in use.
  ghost predicate Formatted(s: State) { BlankVolume(s.v) && UsedIsOwned(s.v) && s.c.files == map[] }

  ghost predicate BlankVolume(v: Volume) {
    && v.names == map[] && ROOT in v.node && v.node == map[ROOT := v.node[ROOT]] && v.node[ROOT].kind == Dir
    && v.node[ROOT].size == 0 && v.node[ROOT].blocks == 1 && RfsFile.FreeCount(v.freemap) == NBLOCKS - 1
  }

  lemma {:induction false} FreeCountOf(f: seq<bool>, n: nat)
    requires n <= |f| && forall b {:trigger f[b]} :: 0 <= b < |f| ==> (f[b] <==> b == 0)
    ensures RfsFile.FreeCount(f[..n]) == if n == 0 then 0 else n - 1
  {
    if n > 0 {
      FreeCountOf(f, n - 1);
      assert f[..n][..n - 1] == f[..n - 1];
    }
  }

  lemma OneUsed(f: seq<bool>)
    requires f == seq(NBLOCKS, b => b == 0)
    ensures RfsFile.FreeCount(f) == NBLOCKS - 1
  {
    FreeCountOf(f, NBLOCKS);
    assert f[..NBLOCKS] == f;
  }

  // Names are read from NUL-terminated fields.
  lemma NameNulFree(s: State, key: Key)
    requires StateOk(s) && key in s.v.names
    ensures 0 !in key.name
  {
    hide CacheOk, InodesOk;
    StateParts(s);
    assert IsDir(s.v, key.dir);
    DiskStep(s, key.dir, key.name);
  }

  lemma CacheableName(s: State, parent: Ptr, name: Name, p: Ptr)
    requires StateOk(s) && Cacheable(s, parent, name, p)
    ensures DKey(parent, name) !in s.c.dhash && 0 !in name
  {
    NameNulFree(s, Key(Inum(s.c, parent), name));
  }

  lemma DentryName(s: State, d: Ptr)
    requires StateOk(s) && CanForget(s.c, s.v, d)
    ensures Points(s.c, d) && 0 !in s.c.dents[d].name && 0 <= Inum(s.c, d)
  {
    assert Anchored(s.c, s.v, d);
    NameNulFree(s, Key(Inum(s.c, s.c.dents[d].parent), s.c.dents[d].name));
    DentryNode(s, d);
  }

  lemma {:induction false} Above(used: set<Ptr>) returns (b: Ptr)
    ensures forall p {:trigger p in used} :: p in used ==> p < b
  {
    if used == {} {
      b := 0;
    } else {
      var p :| p in used;
      b := Above(used - {p});
      forall q | q in used ensures q < b + p + 1 {
        if q != p { assert q in used - {p}; }
      }
      b := b + p + 1;
    }
  }

  lemma EmptyTables()
    ensures VinodeTableIs(HashTable.EmptyTable(), map[]) && DentryTableIs(HashTable.EmptyTable(), map[])
  {
    HashTable.EmptyIs<MountedKey, Ptr, int>(VinodeFunc, VinodeAbs, InumHash);
    HashTable.EmptyIs<DentryKey, Ptr, DKey>(DentryFunc, DentryAbs, DKeyHash);
  }

  class Vfs {
    // RAM disk: the inode table and the data blocks
    var dino: seq<Node>
    var data: map<int, Block>
    // the free map and the device's I/O buffer, in memory
    var freemap: seq<bool>
    var iobuffer: Block
    // cached vinodes and dentries, and the hash tables that find them
    var vinodes: map<Ptr, Vinode>
    var vtable: VinodeTable
    var dents: map<Ptr, Dentry>
    var dtable: DentryTable
    var root: Ptr
    // the open files of all processes
    var files: map<Fd, OpenFile>

    ghost var vhash: map<int, Ptr>     // what the hash tables stand for
    ghost var dhash: map<DKey, Ptr>
    ghost var node: map<int, Node>
    ghost var names: map<Key, int>
    ghost var owner: map<int, Place>
    ghost var dirOf: map<int, Ptr>

    ghost function S(): State
      reads this
    {
      State(Volume(node, data, freemap, names, owner), dino, Cache(vinodes, vhash, dents, dhash, root, dirOf, files))
    }

    ghost predicate Tabled()
      reads this
    {
      VinodeTableIs(vtable, vhash) && DentryTableIs(dtable, dhash)
    }

    ghost predicate Valid()
      reads this
    {
      StateOk(S()) && Shaped(dino) && Tabled()
    }

    /** rfs_format_dev and rfs_get_superblock on a RAM disk with any contents: `buffer` is
        what the block of inodes held, `junk` the addresses of the root inode that are
        not set, `name` the name of the mount point. */
    constructor Format(buffer: seq<Node>, junk: seq<int>, disk: map<int, Block>, iobuffer: Block, pages: (Ptr, Ptr),
                       name: Name)
      requires |buffer| == INODES_PER_BLOCK && Shaped(buffer) && |junk| == DIRECT - 1 && Blocks(disk)
      requires pages.0 != NULL && pages.1 != NULL
      ensures Valid() && Formatted(S())
    {
      hide VinodeTableIs, DentryTableIs, StateOk, UsedIsOwned;
      var inodes := FormatInodes(buffer);
      var rootInode := Node(0, Dir, 1, 1, [OFFSET_FREE] + junk);
      dino := inodes[ROOT := rootInode];
      data := disk;
      freemap := seq(NBLOCKS, b => b == 0);
      this.iobuffer := iobuffer;
      // the root vinode and dentry, and the hash tables
      var v, d := pages.0, pages.1;
      vinodes := map[v := Vinode(ROOT, 1, rootInode)];
      vtable, vhash := HashTable.EmptyTable(), map[];
      dents := map[d := Dentry(name, 0, v, NULL)];
      dtable, dhash := HashTable.EmptyTable(), map[];
      root := d;
      files := map[];
      node := map[ROOT := rootInode];
      names := map[];
      owner := map[OFFSET_FREE := Place(ROOT, 0)];
      dirOf := map[ROOT := d];
      new;
      EmptyTables();
      PutVinode(ROOT, v);
      FormattedOk(S(), rootInode, v, d);
      OneUsed(freemap);
    }

    // alloc_page: some page that holds no cached object and no node of a table.
    method AllocPage() returns (p: Ptr)
      ensures p != NULL && p !in vinodes && p !in dents && p !in vtable.nodes && p !in dtable.nodes
    {
      ghost var used := {NULL} + vinodes.Keys + dents.Keys + vtable.nodes.Keys + dtable.nodes.Keys;
      ghost var b := Above(used);
      assert b !in used;
      p :| p != NULL && p !in vinodes && p !in dents && p !in vtable.nodes && p !in dtable.nodes;
    }

    // The four changes of the hash tables.
    method PutVinode(i: int, p: Ptr)
      requires Tabled() && i !in vhash && 0 <= i
      modifies this`vtable, this`vhash
      ensures Tabled() && vhash == old(vhash)[i := p]
    {
      hide VinodeTableIs, DentryTableIs;
      var page := AllocPage();
      var ret;
      ret, vtable := HashPutVinode(vtable, i, p, page, vhash);
      vhash := vhash[i := p];
    }

    method EraseVinode(i: int)
      requires Tabled() && 0 <= i
      modifies this`vtable, this`vhash
      ensures Tabled() && vhash == old(vhash) - {i}
    {
      hide VinodeTableIs, DentryTableIs;
      var ret;
      ret, vtable := HashEraseVinode(vtable, i, vhash);
      vhash := vhash - {i};
    }

    method PutDentry(parent: Ptr, name: Name, d: Ptr)
      requires Tabled() && DKey(parent, name) !in dhash && 0 !in name
      modifies this`dtable, this`dhash
      ensures Tabled() && dhash == old(dhash)[DKey(parent, name) := d]
      ensures S() == old(S()).(c := old(S()).c.(dhash := dhash))
    {
      hide VinodeTableIs, DentryTableIs;
      var page := AllocPage();
      var ret;
      ret, dtable := HashPutDentry(dtable, parent, name, d, page, dhash);
      dhash := dhash[DKey(parent, name) := d];
    }

    method EraseDentry(parent: Ptr, name: Name)
      requires Tabled() && 0 !in name
      modifies this`dtable, this`dhash
      ensures Tabled() && dhash == old(dhash) - {DKey(parent, name)}
    {
      hide VinodeTableIs, DentryTableIs;
      var ret;
      ret, dtable := HashEraseDentry(dtable, parent, name, dhash);
      dhash := dhash - {DKey(parent, name)};
    }

    // A dentry goes from the cache, and so does its reference; then perhaps its vinode.
    method DropDentry(d: Ptr)
      requires Tabled() && Points(S().c, d) && 0 !in dents[d].name
      modifies this`dents, this`dtable, this`dhash, this`vinodes
      ensures Tabled() && S() == old(S()).(c := WithoutDentry(old(S()).c, d))
    {
      hide VinodeTableIs, DentryTableIs;
      var e := dents[d];
      EraseDentry(e.parent, e.name);
      dents := dents - {d};
      vinodes := vinodes[e.inode := vinodes[e.inode].(ref := vinodes[e.inode].ref - 1)];
    }

    method DropVinode(p: Ptr)
      requires Tabled() && p in vinodes && 0 <= vinodes[p].inum
      modifies this`vinodes, this`vtable, this`vhash
      ensures Tabled() && S() == old(S()).(c := WithoutVinode(old(S()).c, p))
    {
      hide VinodeTableIs, DentryTableIs;
      EraseVinode(vinodes[p].inum);
      vinodes := vinodes - {p};
    }

    // A dentry comes into the cache, and its reference with it.
    method AddDentry(d: Ptr, e: Dentry, ghost isDir: bool)
      requires Tabled() && e.inode in vinodes && DKey(e.parent, e.name) !in dhash && 0 !in e.name
      modifies this`vinodes, this`dents, this`dtable, this`dhash, this`dirOf
      ensures Tabled() && S() == old(S()).(c := WithDentry(old(S()).c, d, e, isDir))
    {
      hide VinodeTableIs, DentryTableIs;
      AllocDentry(d, e, isDir);
      PutDentry(e.parent, e.name, d);
    }

    method AllocDentry(d: Ptr, e: Dentry, ghost isDir: bool)
      requires e.inode in vinodes
      modifies this`vinodes, this`dents, this`dirOf
      ensures S() == old(S()).(c := WithDentry(old(S()).c, d, e, isDir).(dhash := dhash))
    {
      var vi := vinodes[e.inode];
      dents, vinodes := dents[d := e], vinodes[e.inode := vi.(ref := vi.ref + 1)];
      dirOf := if isDir then dirOf[vi.inum := d] else dirOf;
    }

    // hash_put_vinode of a vinode just read from disk.
    method CacheVinode(i: int) returns (p: Ptr)
      requires Valid() && i in node && i !in vhash
      modifies this`vinodes, this`vtable, this`vhash
      ensures Valid() && Extends(old(S()), S())
      ensures p in vinodes && vinodes[p].inum == i && dhash == old(dhash) && dents == old(dents)
    {
      hide StateOk, VinodeTableIs, DentryTableIs;
      p := AllocPage();
      WithVinodeOk(S(), p, i);
      ghost var s := S();
      var found := Vinode(i, 0, dino[i]);
      vinodes := vinodes[p := found];
      PutVinode(i, p);
      assert S() == s.(c := WithVinode(s.c, p, Vinode(i, 0, s.v.node[i])));
    }

    // A new dentry under `parent` for the cached inode p, put in the hash table.
    method CacheDentry(parent: Ptr, name: Name, p: Ptr) returns (d: Ptr)
      requires Valid() && Cacheable(S(), parent, name, p)
      modifies this`vinodes, this`dents, this`dtable, this`dhash, this`dirOf
      ensures Valid() && Extends(old(S()), S())
      ensures d !in old(dents) && d in dents && dents[d] == Dentry(name, 0, p, parent)
    {
      hide StateOk, Extends, Cacheable, IsDir, VinodeTableIs, DentryTableIs;
      d := AllocPage();
      var e := Dentry(name, 0, p, parent);
      ghost var s := S();
      CacheableOk(s, parent, name, p, d);
      CacheableName(s, parent, name, p);
      AddDentry(d, e, IsDir(s.v, s.c.vinodes[p].inum));
    }

    /** One component of a path, at the start of a buffer: the dentry table first, then the
        directory on disk and the vinode table. */
    method Descend(parent: Ptr, token: Bytes) returns (r: Step)
      requires Valid() && Points(S().c, parent) && IsDir(S().v, Inum(S().c, parent))
      modifies this`vinodes, this`vtable, this`vhash, this`dents, this`dtable, this`dhash, this`dirOf
      ensures Valid() && Extends(old(S()), S())
      ensures r.NoEntry? <==> Key(Inum(old(S()).c, parent), CStr(token)) !in names
      ensures r.Child? ==> Points(S().c, r.dentry) && r.dentry != root &&
                           dents[r.dentry].parent == parent && dents[r.dentry].name == CStr(token) &&
                           Inum(S().c, r.dentry) == names[Key(Inum(old(S()).c, parent), CStr(token))]
    {
      hide VinodeTableIs, DentryTableIs, StateOk, CStr, Extends;
      ghost var s := S();
      ExtendsSelf(s);
      var hit := HashGetDentry(dtable, parent, token, dhash);
      if hit.Some? {
        r := Child(hit.value);
        DentryUnderKey(s, DKey(parent, CStr(token)));
        return;
      }
      var name := CStr(token);
      ghost var dir := Inum(s.c, parent);
      DiskStep(s, dir, name);
      DentryNode(s, parent);
      var n := vinodes[dents[parent].inode].node;
      var k, i := FindEntry(n, data, name);
      if k == NumEntries(n) { r := NoEntry; return; }
      NamedInode(s, Key(dir, name));
      var same := HashGetVinode(vtable, i, vhash);
      var p;
      if same.Some? {
        p := same.value;
      } else {
        p := CacheVinode(i);
        ExtendsVolume(s, S());
        ExtendsPoints(s, S(), parent);
      }
      ghost var s1 := S();
      var d := CacheDentry(parent, name, p);
      ExtendsVolume(s1, S());
      ExtendsVinode(s1, S(), p);
      ExtendsPoints(s1, S(), parent);
      ExtendsTrans(s, s1, S());
      r := Child(d);
      NewDentryPoints(S(), d);
    }

    /** lookup_final_dentry from the root of the mount, with strtok on a copy of the path:
        the caches lead to the inode that a walk of the directories on disk leads to, or
        stop where it stops. */
    method LookupFinalDentry(path: CString) returns (r: Lookup)
      requires Valid() && PathFits(path)
      modifies this`vinodes, this`vtable, this`vhash, this`dents, this`dtable, this`dhash, this`dirOf
      ensures Valid() && Extends(old(S()), S())
      ensures Blocks(data)
      ensures match r
        case Found(d) =>
          && Points(S().c, d) && DiskWalk(dino, data, ROOT, path) == Arrives(Inum(S().c, d))
          && LastEntry(dino, data, ROOT, path, NO_ENTRY) == EntryOf(S().c, d)
        case Missing(parent, name) =>
          && Points(S().c, parent) && DiskWalk(dino, data, ROOT, path) == Lacks(Inum(S().c, parent), name)
          && IsDir(S().v, Inum(S().c, parent)) && Key(Inum(S().c, parent), name) !in names
        case ThroughFile => DiskWalk(dino, data, ROOT, path).NotDir?
    {
      ghost var s0 := S();
      hide StateOk, Extends, DiskWalk, LastEntry, VinodeTableIs, DentryTableIs, CStr, At;
      hide Standing, HasToken, Token, AfterToken, EntryOf;
      var copy, strtok := NewCopy(path);
      ghost var rest: Bytes := path;
      var start := NextToken(copy, strtok, true, rest);
      RootPoints(S());
      EntryOfRoot(S().c);
      ExtendsSelf(s0);
      var this_ := root;
      while start != NONE
        invariant Valid() && Extends(s0, S()) && fresh(copy) && fresh(strtok) && Terminated(copy, strtok)
        invariant Points(S().c, this_) && Blocks(data) && Standing(copy, strtok, start, rest)
        invariant DiskWalk(dino, data, ROOT, path) == DiskWalk(dino, data, Inum(S().c, this_), rest)
        invariant LastEntry(dino, data, ROOT, path, NO_ENTRY) ==
                  LastEntry(dino, data, Inum(S().c, this_), rest, EntryOf(S().c, this_))
        decreases |rest|
      {
        ghost var s := S();
        TokenHere(copy, strtok, start, rest);
        var parent, token := this_, copy[start..];
        ghost var dir := Inum(s.c, parent);
        DentryNode(s, parent);
        ExtendsVolume(s0, s);
        if vinodes[dents[parent].inode].node.kind != Dir {
          WalkStops(s, dir, rest);
          return ThroughFile;
        }
        WalkGoesOn(s, dir, rest, EntryOf(s.c, parent));
        var step := Descend(parent, token);
        ExtendsTrans(s0, s, S());
        ExtendsVolume(s, S());
        ExtendsPoints(s, S(), parent);
        if step.NoEntry? {
          return Missing(parent, CStr(token));
        }
        this_ := step.dentry;
        EntryHere(S().c, this_, parent);
        rest := AfterToken(rest);
        start := NextToken(copy, strtok, false, rest);
      }
      NoTokenHere(copy, strtok, rest);
      WalkEnds(dino, data, Inum(S().c, this_), rest, EntryOf(S().c, this_));
      r := Found(this_);
    }

    // The free-inode search of rfs_create and rfs_mkdir.
    method FindFreeInode() returns (i: int)
      requires Valid()
      ensures 0 <= i < NINODES == |dino| && dino[i].kind == Free && i !in node
      ensures forall j {:trigger dino[j]} :: 0 <= j < i ==> dino[j].kind != Free
    {
      hide StateOk, VinodeTableIs, DentryTableIs;
      ghost var z := FreeInode(S());
      i := 0;
      while i < NINODES && dino[i].kind != Free
        invariant 0 <= i <= z
        invariant forall j {:trigger dino[j]} :: 0 <= j < i ==> dino[j].kind != Free
      {
        i := i + 1;
      }
      InodesMatch(S());
    }

    // rfs_add_direntry: the entry goes into the last block in use, the parent's size
    // grows, and its inode is written back.
    method AddDirentry(pp: Ptr, e: DirEntry)
      requires pp in vinodes && 0 <= vinodes[pp].inum < |dino| && EntryFits(e) && Blocks(data)
      requires NodeOk(vinodes[pp].node) && vinodes[pp].node.kind == Dir && HasRoom(vinodes[pp].node)
      modifies this`iobuffer, this`data, this`vinodes, this`dino
      ensures data == AppendEntry(old(data), old(vinodes)[pp].node, e)
      ensures var dn := OneLonger(old(vinodes)[pp].node);
              && vinodes == old(vinodes)[pp := old(vinodes)[pp].(node := dn)]
              && dino == old(dino)[old(vinodes)[pp].inum := dn]
      ensures NodeOk(vinodes[pp].node) && Blocks(data)
      ensures S() == State(old(S()).v.(data := data), dino, old(S()).c.(vinodes := vinodes))
      ensures RfsFile.Distinct(old(vinodes)[pp].node) ==>
                Listing(vinodes[pp].node, data) == Listing(old(vinodes)[pp].node, old(data)) + [e]
    {
      var n := vinodes[pp].node;
      var tail := TailBlock(n);
      iobuffer := data[tail];
      iobuffer := PutEntry(iobuffer, n.size % BLKSIZE / DIRENT, e);
      data := data[tail := iobuffer];
      AppendLists(old(data), n, e);
      WriteBack(pp, n.(size := n.size + DIRENT));
    }

    // The first half of rfs_create and rfs_mkdir: a free inode and a free block.
    method NewDinode(kind: Kind) returns (ok: bool, i: int, a: int)
      requires Valid() && kind != Free && |freemap| == NBLOCKS
      modifies this`freemap, this`dino
      ensures ok <==> RfsFile.FreeCount(old(freemap)) > 0
      ensures ok ==> 0 <= i < NINODES == |old(dino)| && i !in node && Shaped(dino)
      ensures ok ==> IsData(a) && !old(freemap)[a - OFFSET_FREE] && freemap == old(freemap)[a - OFFSET_FREE := true]
      ensures ok ==> var n := FreshFrom(old(dino)[i], kind, a); dino == old(dino)[i := n] && FreshNode(n, a)
    {
      hide StateOk, VinodeTableIs, DentryTableIs;
      i := FindFreeInode();
      var freemap';
      ok, a, freemap' := RfsFile.AllocBlock(freemap);
      if !ok { return; }
      freemap := freemap';
      var n := FreshFrom(dino[i], kind, a);
      dino := dino[i := n];
    }

    // rfs_create and rfs_mkdir, up to the new vinode; false is the "no more free
    // block" panic.
    method RfsNew(pp: Ptr, name: Name, kind: Kind) returns (ok: bool, i: int)
      requires Valid() && kind != Free && pp in vinodes && IsDir(S().v, vinodes[pp].inum)
      requires Key(vinodes[pp].inum, name) !in names && HasRoom(vinodes[pp].node) && NameFits(name)
      modifies this
      ensures ok <==> RfsFile.FreeCount(old(freemap)) > 0
      ensures ok ==> Valid() && NewInode(old(S()), S(), pp, name, kind, i)
    {
      hide StateOk, NewInode, NodeOk, NodesOk, AppendEntry, FreshNode, VinodeTableIs, DentryTableIs, CanCreate,
        WrittenNew, Listing;
      ghost var s := S();
      VinodeInRange(s, pp);
      ParentReady(s, pp);
      var a;
      ok, i, a := NewDinode(kind);
      if !ok { return; }
      AddDirentry(pp, DirEntry(i, name));
      ghost var n := FreshFrom(s.dino[i], kind, a);
      NewCan(s, i, n, a, pp, name);
      NewWrites(s, i, n, a, pp, name, data, freemap, dino, vinodes);
      CommitNew(s, i, n, a, pp, name);
    }

    // The ghost indexes follow what the code has written.
    ghost method SetIndexes(s': State)
      modifies this`node, this`names, this`owner
      ensures S() == Indexed(old(S()), s')
    {
      node, names, owner := s'.v.node, s'.v.names, s'.v.owner;
    }

    ghost method CommitNew(s: State, i: int, n: Node, a: int, pp: Ptr, name: Name)
      requires StateOk(s) && pp in s.c.vinodes && 0 <= s.c.vinodes[pp].inum < NINODES == |s.dino| && Shaped(s.dino)
      requires CanCreate(s.v, i, n, a, s.c.vinodes[pp].inum, name)
      requires Tabled() && S() == WrittenNew(s, i, n, a, pp, name)
      modifies this`node, this`names, this`owner
      ensures Valid() && NewInode(s, S(), pp, name, n.kind, i)
    {
      hide StateOk, NewInode, CanCreate, Shaped, NodesOk, WrittenNew, CreatedState, VolumeOk, InodesOk, CacheOk;
      hide VinodeTableIs, DentryTableIs;
      StateParts(s);
      VolumeParts(s.v);
      ShapedNew(s, i, n, a, pp, name);
      CreatedIsNew(s, i, n, a, pp, name);
      ghost var s' := CreatedState(s, i, n, a, pp, name);
      hide Indexed;
      SetIndexes(s');
    }

    /** vfs_open with O_CREAT and vfs_mkdir, once the lookup has missed: the new inode,
        its vinode and its dentry. */
    method CreateUnder(parent: Ptr, name: Name, kind: Kind) returns (o: Outcome, d: Ptr)
      requires Valid() && kind != Free && Points(S().c, parent) && IsDir(S().v, Inum(S().c, parent))
      requires Key(Inum(S().c, parent), name) !in names
      modifies this
      ensures o == CreateVerdict(old(S()).v, Key(Inum(old(S()).c, parent), name))
      ensures o.OutOfScope? ==> unchanged(this)
      ensures o.OutOfScope? || o.Done? ==> Valid()
      ensures o.Done? ==> Points(S().c, d) && dents[d].dref == 0 && d != root && files == old(files)
      ensures o.Done? ==> EntryOf(S().c, d) == Key(Inum(old(S()).c, parent), name) && KeepsDents(old(S()).c, S().c)
      ensures o.Done? ==> CreatedName(old(S()).v, S().v, Key(Inum(old(S()).c, parent), name), kind, Inum(S().c, d))
    {
      hide StateOk, NewInode, Cacheable, Extends, VinodeTableIs, DentryTableIs, KeepsDents, StandsFor;
      ghost var s := S();
      DentryNode(s, parent);
      d := 0;
      var pp := dents[parent].inode;
      if !HasRoom(vinodes[pp].node) || !NameFits(name) { return OutOfScope, d; }
      var ok, i := RfsNew(pp, name, kind);
      if !ok { return Panic, d; }
      ghost var s1 := S();
      NewInodeParts(s, s1, pp, name, kind, i);
      var p := CacheVinode(i);
      ghost var s2 := S();
      ExtendsVolume(s1, s2);
      ExtendsPoints(s1, s2, parent);
      NewlyCacheable(s1, s2, parent, name, p, i);
      d := CacheDentry(parent, name, p);
      ExtendsVolume(s2, S());
      ExtendsPoints(s2, S(), parent);
      ExtendsVinode(s2, S(), p);
      CreatedNameOk(s, s1, S(), pp, parent, name, kind, i, d);
      ExtendsTrans(s1, s2, S());
      KeepsThrough(s, s1, S());
      NewStands(s, S(), d, parent, name);
      o := Done;
    }

    // rfs_link: one link more on the inode, an entry in the parent, both written back.
    method RfsLink(pi: Ptr, pp: Ptr, name: Name)
      requires Valid() && pi in vinodes && pp in vinodes && pi != pp
      requires CanLink(S().v, vinodes[pi].inum, vinodes[pp].inum, name)
      modifies this
      ensures Valid() && NewLink(old(S()), S(), pi, pp, name)
    {
      hide StateOk, NewLink, NodeOk, NodesOk, VinodeTableIs, DentryTableIs, WrittenLink, Shaped;
      ghost var s := S();
      VinodeInRange(s, pi);
      VinodeInRange(s, pp);
      LinkReady(s, pi, pp);
      WriteLink(pi, pp, name);
      CommitLink(s, pi, pp, name);
    }

    method WriteLink(pi: Ptr, pp: Ptr, name: Name)
      requires |dino| == NINODES && pi in vinodes && pp in vinodes && pi != pp && Blocks(data)
      requires CanLink(S().v, vinodes[pi].inum, vinodes[pp].inum, name)
      requires 0 <= vinodes[pi].inum < |dino| && 0 <= vinodes[pp].inum < |dino| && NodeOk(vinodes[pp].node)
      requires vinodes[pi].node == node[vinodes[pi].inum] && vinodes[pp].node == node[vinodes[pp].inum]
      modifies this`iobuffer, this`data, this`vinodes, this`dino
      ensures S() == WrittenLink(old(S()), pi, pp, name)
    {
      hide NodeOk, AppendEntry, WrittenLink, Listing;
      ghost var s := S();
      vinodes := vinodes[pi := vinodes[pi].(node := vinodes[pi].node.(nlinks := vinodes[pi].node.nlinks + 1))];
      AddDirentry(pp, DirEntry(vinodes[pi].inum, name));
      dino := dino[vinodes[pi].inum := vinodes[pi].node];
      LinkWrites(s, pi, pp, name, data, dino, vinodes);
    }

    ghost method CommitLink(s: State, pi: Ptr, pp: Ptr, name: Name)
      requires StateOk(s) && |s.dino| == NINODES && Shaped(s.dino) && pi in s.c.vinodes && pp in s.c.vinodes && pi != pp
      requires CanLink(s.v, s.c.vinodes[pi].inum, s.c.vinodes[pp].inum, name) && Blocks(s.v.data)
      requires Tabled() && S() == WrittenLink(s, pi, pp, name)
      modifies this`node, this`names, this`owner
      ensures Valid() && NewLink(s, S(), pi, pp, name)
    {
      hide StateOk, NewLink, CanLink, Shaped, NodesOk, WrittenLink, LinkedState, VolumeOk, InodesOk, CacheOk;
      hide VinodeTableIs, DentryTableIs;
      StateParts(s);
      VolumeParts(s.v);
      ShapedLink(s, pi, pp, name);
      LinkedIsNew(s, pi, pp, name);
      ghost var s' := LinkedState(s, pi, pp, name);
      hide Indexed;
      SetIndexes(s');
    }

    /** vfs_link, once the old path is found and the new one is missing. */
    method LinkUnder(parent: Ptr, name: Name, pi: Ptr) returns (o: Outcome)
      requires Valid() && pi in vinodes && vinodes[pi].node.kind == File
      requires Points(S().c, parent) && IsDir(S().v, Inum(S().c, parent))
      requires Key(Inum(S().c, parent), name) !in names
      modifies this
      ensures o == if RoomFor(old(S()).v, Key(Inum(old(S()).c, parent), name)) then Done else OutOfScope
      ensures o.OutOfScope? ==> unchanged(this)
      ensures Valid()
      ensures o.Done? ==> files == old(files) && KeepsDents(old(S()).c, S().c)
      ensures o.Done? ==> LinkedName(old(S()).v, S().v, Key(Inum(old(S()).c, parent), name), old(vinodes)[pi].inum)
      ensures o.Done? ==> StandsFor(S().c, Key(Inum(old(S()).c, parent), name), old(vinodes)[pi].inum)
    {
      hide StateOk, NewLink, Cacheable, Extends, NodeOk, NodesOk, VinodeTableIs, DentryTableIs;
      hide KeepsDents, StandsFor, LinkedName, MoreLinks;
      ghost var s := S();
      DentryNode(s, parent);
      var pp := dents[parent].inode;
      if !HasRoom(vinodes[pp].node) || !NameFits(name) { return OutOfScope; }
      LinkCan(s, pi, parent, name);
      RfsLink(pi, pp, name);
      ghost var s1 := S();
      LinkCacheable(s, s1, pi, pp, parent, name);
      var d := CacheDentry(parent, name, pi);
      ExtendsVolume(s1, S());
      ExtendsVinode(s1, S(), pi);
      LinkedNameOk(s, s1, S(), pi, pp, name);
      KeepsThrough(s, s1, S());
      NewStands(s, S(), d, parent, name);
      o := Done;
    }

    // The first half of rfs_unlink: one link less, and for the last one the listed
    // blocks and the disk inode are freed.
    method ReleaseInode(pi: Ptr)
      requires pi in vinodes && 0 <= vinodes[pi].inum < |dino| && |freemap| == NBLOCKS
      requires var d := dino[vinodes[pi].inum];
               && vinodes[pi].node.nlinks == d.nlinks && 0 <= d.blocks <= |d.addrs|
               && forall j {:trigger d.addrs[j]} :: 0 <= j < d.blocks ==> IsData(d.addrs[j])
      modifies this`vinodes, this`dino, this`freemap
      ensures var n := OneLinkFewer(old(vinodes)[pi].node);
              && vinodes == old(vinodes)[pi := old(vinodes)[pi].(node := n)]
              && dino == old(dino)[old(vinodes)[pi].inum := ReleasedDinode(old(dino)[old(vinodes)[pi].inum], n.nlinks)]
              && (n.nlinks != 0 ==> freemap == old(freemap))
              && (n.nlinks == 0 ==> Freed(old(freemap), freemap, old(dino)[old(vinodes)[pi].inum],
                                          old(dino)[old(vinodes)[pi].inum].blocks))
      ensures S() == State(old(S()).v.(freemap := freemap), dino, old(S()).c.(vinodes := vinodes))
    {
      var inum := vinodes[pi].inum;
      var d := dino[inum];
      // the assertion of rfs_unlink
      assert vinodes[pi].node.nlinks == d.nlinks;
      vinodes := vinodes[pi := vinodes[pi].(node := vinodes[pi].node.(nlinks := vinodes[pi].node.nlinks - 1))];
      d := d.(nlinks := vinodes[pi].node.nlinks);
      if d.nlinks == 0 {
        freemap := FreeBlocks(freemap, dino[inum]);
        d := d.(kind := Free);
      }
      dino := dino[inum := d];
    }

    // The second half: compact the directory, give back an emptied last block, write
    // the directory's inode.
    method RemoveEntry(pp: Ptr, k: int)
      requires pp in vinodes && 0 <= vinodes[pp].inum < |dino| && |freemap| == NBLOCKS
      requires var n := vinodes[pp].node;
               && NodeOk(n) && n.kind == Dir && 0 <= k < NumEntries(n)
               && RfsCompact.DirBlocks(data, n.addrs[..n.blocks])
      modifies this`vinodes, this`dino, this`freemap, this`data
      ensures var n := old(vinodes)[pp].node;
              && CompactedTo(n, old(data), k, data)
              && freemap == LastFreed(old(freemap), n)
              && vinodes == old(vinodes)[pp := old(vinodes)[pp].(node := OneShorter(n))]
              && dino == old(dino)[old(vinodes)[pp].inum := OneShorter(n)]
      ensures S() == State(old(S()).v.(data := data, freemap := freemap), dino, old(S()).c.(vinodes := vinodes))
    {
      hide CompactedTo, RfsCompact.DirBlocks, RfsCompact.Row, RfsCompact.RowWithout, Blocks;
      var n := vinodes[pp].node;
      assert 0 <= k < |n.addrs[..n.blocks]| * EPB;
      ghost var before := data;
      data := RfsCompact.Compact(data, n.addrs[..n.blocks], k);
      CompactedIs(n, before, k, data);
      LastIsData(n);
      hide NodeOk;
      var total := NumEntries(n) - 1;
      if total % EPB == 0 && n.blocks > 1 {
        freemap := freemap[n.addrs[n.blocks - 1] - OFFSET_FREE := false];
        n := n.(blocks := n.blocks - 1);
      }
      n := n.(size := n.size - DIRENT);
      WriteBack(pp, n);
    }

    // A new node for vinode p, written to its disk inode.
    method WriteBack(p: Ptr, n: Node)
      requires p in vinodes && 0 <= vinodes[p].inum < |dino|
      modifies this`vinodes, this`dino
      ensures vinodes == old(vinodes)[p := old(vinodes)[p].(node := n)]
      ensures dino == old(dino)[old(vinodes)[p].inum := n]
      ensures S() == State(old(S()).v, dino, old(S()).c.(vinodes := vinodes))
    {
      vinodes := vinodes[p := vinodes[p].(node := n)];
      dino := dino[vinodes[p].inum := n];
    }

    // rfs_unlink.
    method RfsUnlink(pi: Ptr, pp: Ptr, d: Ptr) returns (ghost f1: seq<bool>, ghost k: int)
      requires Valid() && CanForget(S().c, S().v, d) && pi == dents[d].inode
      requires dents[d].parent in dents && pp == dents[dents[d].parent].inode
      modifies this`vinodes, this`dino, this`freemap, this`data
      ensures pi in old(vinodes) && 0 <= old(vinodes)[pi].inum < |old(dino)|
      ensures pp in old(vinodes) && 0 <= old(vinodes)[pp].inum < |old(dino)| && pi != pp
      ensures CanUnlinkDentry(old(S()), pi, pp, d, f1, old(dino)[old(vinodes)[pi].inum].blocks, k, data)
      ensures S() == RfsUnlinked(old(S()), pi, pp, f1, data)
    {
      hide StateOk, CanForget, CanUnlinkDentry, NodeOk, Freed, CompactedTo, VinodeTableIs, DentryTableIs;
      hide OneShorter, ReleasedDinode, LastFreed, RfsUnlinked, Shaped, Listing, RfsCompact.DirBlocks, Blocks;
      ghost var s := S();
      UnlinkReady(s, d);
      var index, inum := FindEntry(vinodes[pp].node, data, dents[d].name);
      k := index;
      VictimFound(s, d, k);
      ReleaseInode(pi);
      f1 := freemap;
      RemoveEntry(pp, index);
      UnlinkCan(s, pi, pp, d, f1, k, data);
      UnlinkWrites(s, pi, pp, f1, data, freemap, dino, vinodes);
    }

    /** vfs_unlink, once the file is found and is not open under this name. */
    method UnlinkDentry(d: Ptr)
      requires Valid() && CanForget(S().c, S().v, d)
      modifies this
      ensures Valid() && UnlinkedName(old(S()), S(), EntryOf(old(S()).c, d)) && Less(old(S()).c, S().c)
    {
      hide StateOk, UnlinkedName, CanForget, CanUnlinkDentry, OneShorter, ReleasedDinode, LastFreed, Less;
      hide VinodeTableIs, DentryTableIs;
      ghost var s := S();
      ForgetPoints(s, d);
      DentryName(s, d);
      var e := dents[d];
      var pi, pp := e.inode, dents[e.parent].inode;
      ghost var f1, k := RfsUnlink(pi, pp, d);
      ghost var _ := UnlinkIs(s, pi, pp, d, f1, k, data);
      // hash_erase_dentry and free_vfs_dentry
      DropDentry(d);
      if vinodes[pi].node.nlinks == 0 {
        // no one remembers a dead inode
        assert vinodes[pi].ref == 0;
        DropVinode(pi);
      }
      UnlinkLess(s, pi, pp, d, f1, data);
      CommitUnlink(s, pi, pp, d, f1, k, data);
    }

    ghost method CommitUnlink(s: State, pi: Ptr, pp: Ptr, d: Ptr, f1: seq<bool>, k: int, data1: map<int, Block>)
      requires StateOk(s) && Shaped(s.dino) && pi in s.c.vinodes && 0 <= s.c.vinodes[pi].inum < |s.dino|
      requires pp in s.c.vinodes && 0 <= s.c.vinodes[pp].inum < |s.dino| && d in s.c.dents && pi == s.c.dents[d].inode
      requires CanUnlinkDentry(s, pi, pp, d, f1, s.dino[s.c.vinodes[pi].inum].blocks, k, data1)
      requires Tabled() && S() == WrittenUnlink(s, pi, pp, d, f1, data1)
      modifies this`node, this`names, this`owner
      ensures Valid() && UnlinkedName(s, S(), EntryOf(s.c, d)) && S().c == old(S()).c
    {
      hide StateOk, UnlinkedName, CanUnlinkDentry, WrittenUnlink, Shaped, VinodeTableIs, DentryTableIs;
      ghost var s' := UnlinkIs(s, pi, pp, d, f1, k, data1);
      ShapedUnlink(s, pi, pp, d, f1, k, data1);
      hide Indexed;
      SetIndexes(s');
    }
  }

  // The name map shrank at exactly one key; a final unlink leaks the blocks that the
  // disk inode did not list.
  ghost predicate UnlinkedName(s: State, s': State, key: Key) {
    && key in s.v.names && s'.v.names == s.v.names - {key}
    && NodesOk(s.v) && NodesOk(s'.v) && s'.c.files == s.c.files
    && var i := s.v.names[key];
    && i in s.v.node && 0 <= i < |s.dino|
    && var n, listed := s.v.node[i], s.dino[i].blocks;
    && 0 <= listed <= n.blocks <= |n.addrs|
    && Leaked(s'.v) == Leaked(s.v) + (if n.nlinks != 1 then {} else Addrs(n, listed, n.blocks))
    && FewerLinks(s, s', key.dir, i) && ContentsKept(s.v, s'.v, key.dir)
  }

  // Inode i has a link less, or is gone, and directory dir an entry less, in force and on
  // disk; what the disk inode lists of its blocks stays.
  ghost predicate FewerLinks(s: State, s': State, dir: int, i: int) {
    && i in s.v.node && dir in s.v.node && 0 <= i < |s.dino| && 0 <= dir < |s.dino| && dir != i
    && var n, dn := s.v.node[i], OneShorter(s.v.node[dir]);
    && s'.v.node == (if n.nlinks == 1 then s.v.node - {i} else s.v.node[i := OneLinkFewer(n)])[dir := dn]
    && s'.dino == s.dino[i := ReleasedDinode(s.dino[i], n.nlinks - 1)][dir := dn]
  }

  lemma CompactedIs(n: Node, data: map<int, Block>, k: int, data': map<int, Block>)
    requires NodeOk(n) && 0 <= k < NumEntries(n) && k < n.blocks * EPB && data'.Keys == data.Keys
    requires RfsCompact.DirBlocks(data, n.addrs[..n.blocks]) && RfsCompact.DirBlocks(data', n.addrs[..n.blocks])
    requires forall a :: a in data && a !in n.addrs[..n.blocks] ==> data'[a] == data[a]
    requires var addrs, m := n.addrs[..n.blocks], |n.addrs[..n.blocks]| * EPB - 1;
             RfsCompact.Row(data', addrs, m) == RfsCompact.RowWithout(data, addrs, k, m)
    ensures CompactedTo(n, data, k, data')
  {
    hide RfsCompact.DirBlocks, RfsCompact.Row, RfsCompact.RowWithout;
  }

  lemma LastIsData(n: Node)
    requires NodeOk(n)
    ensures 1 <= n.blocks <= |n.addrs| && IsData(n.addrs[n.blocks - 1])
  {
  }

  // The free map once a directory that loses an entry has given back its last block.
  function LastFreed(f: seq<bool>, n: Node): seq<bool> {
    if GivesBack(n) && n.blocks <= |n.addrs| && 0 <= n.addrs[n.blocks - 1] - OFFSET_FREE < |f|
    then f[n.addrs[n.blocks - 1] - OFFSET_FREE := false] else f
  }

  // The fields when rfs_unlink returns ...
  ghost function RfsUnlinked(s: State, pi: Ptr, pp: Ptr, f1: seq<bool>, data1: map<int, Block>): State
    requires pi in s.c.vinodes && 0 <= s.c.vinodes[pi].inum < |s.dino|
    requires pp in s.c.vinodes && 0 <= s.c.vinodes[pp].inum < |s.dino|
  {
    var i, dir := s.c.vinodes[pi].inum, s.c.vinodes[pp].inum;
    var n, dn := OneLinkFewer(s.c.vinodes[pi].node), s.c.vinodes[pp].node;
    var w0 := s.c.vinodes[pi := s.c.vinodes[pi].(node := n)];
    State(s.v.(data := data1, freemap := LastFreed(f1, dn)),
          s.dino[i := ReleasedDinode(s.dino[i], n.nlinks)][dir := OneShorter(dn)],
          s.c.(vinodes := w0[pp := w0[pp].(node := OneShorter(dn))]))
  }

  lemma UnlinkWrites(s: State, pi: Ptr, pp: Ptr, f1: seq<bool>, data1: map<int, Block>, freemap: seq<bool>,
                     dino: seq<Node>, vinodes: map<Ptr, Vinode>)
    requires pi in s.c.vinodes && 0 <= s.c.vinodes[pi].inum < |s.dino|
    requires pp in s.c.vinodes && 0 <= s.c.vinodes[pp].inum < |s.dino| && pi != pp
    requires var i, dir, n := s.c.vinodes[pi].inum, s.c.vinodes[pp].inum, OneLinkFewer(s.c.vinodes[pi].node);
             var dn := OneShorter(s.c.vinodes[pp].node);
             && freemap == LastFreed(f1, s.c.vinodes[pp].node)
             && dino == s.dino[i := ReleasedDinode(s.dino[i], n.nlinks)][dir := dn]
             && vinodes == s.c.vinodes[pi := s.c.vinodes[pi].(node := n)][pp := s.c.vinodes[pp].(node := dn)]
    ensures State(s.v.(data := data1, freemap := freemap), dino, s.c.(vinodes := vinodes)) ==
            RfsUnlinked(s, pi, pp, f1, data1)
  {
    hide OneShorter, LastFreed, ReleasedDinode;
  }

  // ... and when vfs_unlink does.
  ghost function WrittenUnlink(s: State, pi: Ptr, pp: Ptr, d: Ptr, f1: seq<bool>, data1: map<int, Block>): State
    requires pi in s.c.vinodes && 0 <= s.c.vinodes[pi].inum < |s.dino|
    requires pp in s.c.vinodes && 0 <= s.c.vinodes[pp].inum < |s.dino| && d in s.c.dents && pi == s.c.dents[d].inode
  {
    var s1 := RfsUnlinked(s, pi, pp, f1, data1);
    var c := WithoutDentry(s1.c, d);
    s1.(c := if s.c.vinodes[pi].node.nlinks == 1 then WithoutVinode(c, pi) else c)
  }

  // The disk inode after losing a link: freed when that was the last one.
  function ReleasedDinode(d: Node, nlinks: int): Node {
    if nlinks == 0 then d.(nlinks := 0, kind := Free) else d.(nlinks := nlinks)
  }

  lemma LinkCan(s: State, pi: Ptr, parent: Ptr, name: Name)
    requires StateOk(s) && pi in s.c.vinodes && s.c.vinodes[pi].node.kind == File
    requires Points(s.c, parent) && IsDir(s.v, Inum(s.c, parent)) && Key(Inum(s.c, parent), name) !in s.v.names
    requires HasRoom(s.c.vinodes[s.c.dents[parent].inode].node) && NameFits(name)
    ensures pi != s.c.dents[parent].inode
    ensures CanLink(s.v, s.c.vinodes[pi].inum, Inum(s.c, parent), name)
  {
    VinodeInRange(s, pi);
    VinodeInRange(s, s.c.dents[parent].inode);
    LinkReady(s, pi, s.c.dents[parent].inode);
  }

  lemma LinkCacheable(s: State, s1: State, pi: Ptr, pp: Ptr, parent: Ptr, name: Name)
    requires StateOk(s) && NewLink(s, s1, pi, pp, name)
    requires Points(s.c, parent) && s.c.dents[parent].inode == pp && Key(Inum(s.c, parent), name) !in s.v.names
    ensures Cacheable(s1, parent, name, pi)
  {
    if DKey(parent, name) in s.c.dhash {
      DentryUnderKey(s, DKey(parent, name));
      assert false;
    }
  }

  lemma LinkedNameOk(s: State, s1: State, s2: State, pi: Ptr, pp: Ptr, name: Name)
    requires NewLink(s, s1, pi, pp, name) && s2.v == s1.v && s2.c.files == s1.c.files
    requires Key(s.c.vinodes[pp].inum, name) !in s.v.names
    ensures LinkedName(s.v, s2.v, Key(s.c.vinodes[pp].inum, name), s.c.vinodes[pi].inum) && s2.c.files == s.c.files
    ensures Reshaped(s.c, s1.c)
  {
  }

  // ---------------------------------------------------------------------
  // Unlink
  // ---------------------------------------------------------------------

  lemma AddrsStep(n: Node, j: int)
    requires 0 <= j < |n.addrs|
    ensures forall x {:trigger x in Addrs(n, 0, j + 1)} ::
      x in Addrs(n, 0, j + 1) <==> x in Addrs(n, 0, j) || x == n.addrs[j]
  {
    forall x | x in Addrs(n, 0, j) ensures x in Addrs(n, 0, j + 1) {
      var t :| 0 <= t < j && n.addrs[t] == x;
      assert n.addrs[t] in Addrs(n, 0, j + 1);
    }
    assert n.addrs[j] in Addrs(n, 0, j + 1);
  }

  lemma FreedPrefix(f: seq<bool>, f': seq<bool>, d: Node, n: Node, m: int)
    requires 0 <= m <= |d.addrs| && m <= |n.addrs| && d.addrs[..m] == n.addrs[..m] && Freed(f, f', d, m)
    ensures Freed(f, f', n, m)
  {
    forall x ensures x in Addrs(d, 0, m) <==> x in Addrs(n, 0, m) {
      forall t | 0 <= t < m ensures d.addrs[t] == n.addrs[t] {
        assert d.addrs[..m][t] == n.addrs[..m][t];
      }
    }
  }

  // rfs_free_block on each block that the disk inode lists.
  method FreeBlocks(freemap: seq<bool>, d: Node) returns (f: seq<bool>)
    requires |freemap| == NBLOCKS && 0 <= d.blocks <= |d.addrs|
    requires forall j {:trigger d.addrs[j]} :: 0 <= j < d.blocks ==> IsData(d.addrs[j])
    ensures Freed(freemap, f, d, d.blocks)
  {
    f := freemap;
    var j := 0;
    while j < d.blocks
      invariant 0 <= j <= d.blocks && Freed(freemap, f, d, j)
    {
      AddrsStep(d, j);
      f := f[d.addrs[j] - OFFSET_FREE := false];
      j := j + 1;
    }
  }

  // A state with the node, name and owner indexes of another.
  ghost function Indexed(w: State, s: State): State {
    w.(v := w.v.(node := s.v.node, names := s.v.names, owner := s.v.owner))
  }

  // The fields that the code has written when a link is in place.
  ghost function WrittenLink(s: State, pi: Ptr, pp: Ptr, name: Name): State
    requires |s.dino| == NINODES && pi in s.c.vinodes && pp in s.c.vinodes && pi != pp && Blocks(s.v.data)
    requires CanLink(s.v, s.c.vinodes[pi].inum, s.c.vinodes[pp].inum, name)
  {
    var i, dir := s.c.vinodes[pi].inum, s.c.vinodes[pp].inum;
    var n, dn := OneLinkMore(s.v.node[i]), OneLonger(s.v.node[dir]);
    State(s.v.(data := AppendEntry(s.v.data, s.v.node[dir], DirEntry(i, name))),
          s.dino[dir := dn][i := n], Patched(Patched(s.c, pi, n), pp, dn))
  }

  lemma LinkWrites(s: State, pi: Ptr, pp: Ptr, name: Name, data: map<int, Block>, dino: seq<Node>,
                   vinodes: map<Ptr, Vinode>)
    requires |s.dino| == NINODES && pi in s.c.vinodes && pp in s.c.vinodes && pi != pp && Blocks(s.v.data)
    requires CanLink(s.v, s.c.vinodes[pi].inum, s.c.vinodes[pp].inum, name)
    requires var i, dir := s.c.vinodes[pi].inum, s.c.vinodes[pp].inum;
             var n, dn := OneLinkMore(s.v.node[i]), OneLonger(s.v.node[dir]);
             && data == AppendEntry(s.v.data, s.v.node[dir], DirEntry(i, name))
             && dino == s.dino[dir := dn][i := n]
             && vinodes == s.c.vinodes[pi := s.c.vinodes[pi].(node := n)][pp := s.c.vinodes[pp].(node := dn)]
    ensures State(s.v.(data := data), dino, s.c.(vinodes := vinodes)) == WrittenLink(s, pi, pp, name)
  {
    hide AppendEntry, NodeOk;
  }

  lemma ShapedLink(s: State, pi: Ptr, pp: Ptr, name: Name)
    requires NodesOk(s.v) && |s.dino| == NINODES && Shaped(s.dino) && pi in s.c.vinodes && pp in s.c.vinodes && pi != pp
    requires CanLink(s.v, s.c.vinodes[pi].inum, s.c.vinodes[pp].inum, name)
    ensures Shaped(WrittenLink(s, pi, pp, name).dino)
  {
    assert NodeOk(s.v.node[s.c.vinodes[pi].inum]);
  }

  // The name map grew at exactly one key, by another name of an old inode.
  ghost predicate NewLink(s: State, s': State, pi: Ptr, pp: Ptr, name: Name) {
    && pi in s.c.vinodes && pp in s.c.vinodes && IsDir(s'.v, s.c.vinodes[pp].inum)
    && MoreLinks(s.v, s'.v, s.c.vinodes[pp].inum, s.c.vinodes[pi].inum)
    && s'.v.names == s.v.names[Key(s.c.vinodes[pp].inum, name) := s.c.vinodes[pi].inum]
    && NodesOk(s.v) && NodesOk(s'.v) && Leaked(s'.v) == Leaked(s.v)
    && ContentsKept(s.v, s'.v, s.c.vinodes[pp].inum) && SameShape(s.c, s'.c)
  }

  // Inode i has a link more and directory dir an entry more; the other inodes and the
  // free map are as they were.
  ghost predicate MoreLinks(v: Volume, v': Volume, dir: int, i: int) {
    && dir in v.node && i in v.node && dir != i && v'.freemap == v.freemap
    && v'.node == v.node[dir := OneLonger(v.node[dir])][i := OneLinkMore(v.node[i])]
  }

  // An inode got one more name.
  ghost predicate LinkedName(v: Volume, v': Volume, key: Key, i: int) {
    GainsName(v, v', key, i) && MoreLinks(v, v', key.dir, i)
  }

  lemma LinkReady(s: State, pi: Ptr, pp: Ptr)
    requires StateOk(s) && pi in s.c.vinodes && pp in s.c.vinodes
    requires s.c.vinodes[pi].inum in s.v.node && s.c.vinodes[pp].inum in s.v.node
    ensures NodesOk(s.v) && NodeOk(s.c.vinodes[pi].node) && NodeOk(s.c.vinodes[pp].node)
    ensures s.c.vinodes[pi].node == s.v.node[s.c.vinodes[pi].inum]
    ensures s.c.vinodes[pp].node == s.v.node[s.c.vinodes[pp].inum]
  {
    VinodeInRange(s, pi);
    VinodeInRange(s, pp);
  }

  lemma LinkedIsNew(s: State, pi: Ptr, pp: Ptr, name: Name)
    requires StateOk(s) && |s.dino| == NINODES && pi in s.c.vinodes && pp in s.c.vinodes && pi != pp
    requires NodesOk(s.v) && CanLink(s.v, s.c.vinodes[pi].inum, s.c.vinodes[pp].inum, name)
    ensures StateOk(LinkedState(s, pi, pp, name))
    ensures NewLink(s, LinkedState(s, pi, pp, name), pi, pp, name)
    ensures LinkedState(s, pi, pp, name) == Indexed(WrittenLink(s, pi, pp, name), LinkedState(s, pi, pp, name))
  {
    hide StateOk, LinkedState, WrittenLink, NewLink, CanLink, NodesOk, Indexed;
    LinkedStateOk(s, pi, pp, name);
    LinkedKeeps(s, pi, pp, name);
    LinkedIsWritten(s, pi, pp, name);
  }

  lemma LinkedKeeps(s: State, pi: Ptr, pp: Ptr, name: Name)
    requires StateOk(s) && |s.dino| == NINODES && pi in s.c.vinodes && pp in s.c.vinodes && pi != pp
    requires NodesOk(s.v) && CanLink(s.v, s.c.vinodes[pi].inum, s.c.vinodes[pp].inum, name)
    requires NodesOk(LinkedState(s, pi, pp, name).v) && Leaked(LinkedState(s, pi, pp, name).v) == Leaked(s.v)
    ensures NewLink(s, LinkedState(s, pi, pp, name), pi, pp, name)
  {
    hide StateOk, Leaked, NodesOk, NodeOk, AppendEntry, EntryFits, HasRoom, ContentsKept, VolumeOk, InodesOk, CacheOk,
      PutEntry;
    var i, dir := s.c.vinodes[pi].inum, s.c.vinodes[pp].inum;
    LinkedNode(s.v, i, dir, name);
    LinkedData(s.v, i, dir, name);
    StateParts(s);
    LinkedContents(s.v, i, dir, name);
    PatchedTwice(s.c, pp, OneLonger(s.v.node[dir]), pi, OneLinkMore(s.v.node[i]));
  }

  lemma LinkedIsWritten(s: State, pi: Ptr, pp: Ptr, name: Name)
    requires |s.dino| == NINODES && pi in s.c.vinodes && pp in s.c.vinodes && pi != pp
    requires NodesOk(s.v) && CanLink(s.v, s.c.vinodes[pi].inum, s.c.vinodes[pp].inum, name)
    ensures LinkedState(s, pi, pp, name) == Indexed(WrittenLink(s, pi, pp, name), LinkedState(s, pi, pp, name))
  {
    hide NodeOk, AppendEntry, PutEntry;
    var i, dir := s.c.vinodes[pi].inum, s.c.vinodes[pp].inum;
    LinkedData(s.v, i, dir, name);
    hide Linked;
    PatchedTwice(s.c, pp, OneLonger(s.v.node[dir]), pi, OneLinkMore(s.v.node[i]));
  }

  lemma PatchedTwice(c: Cache, pp: Ptr, dn: Node, pi: Ptr, n: Node)
    requires pp in c.vinodes && pi in c.vinodes && pi != pp
    ensures SameShape(c, Patched(Patched(c, pp, dn), pi, n))
    ensures Patched(Patched(c, pp, dn), pi, n) == Patched(Patched(c, pi, n), pp, dn)
  {
    assert c.vinodes[pp := c.vinodes[pp].(node := dn)][pi := c.vinodes[pi].(node := n)]
        == c.vinodes[pi := c.vinodes[pi].(node := n)][pp := c.vinodes[pp].(node := dn)];
  }

  lemma LinkedData(v: Volume, i: int, dir: int, name: Name)
    requires NodesOk(v) && CanLink(v, i, dir, name)
    ensures Linked(v, i, dir, name).data == AppendEntry(v.data, v.node[dir], DirEntry(i, name))
    ensures Linked(v, i, dir, name).freemap == v.freemap
  {
  }

  // The data blocks with an entry appended to the directory of node n.
  function AppendEntry(data: map<int, Block>, n: Node, e: DirEntry): map<int, Block>
    requires NodeOk(n) && n.kind == Dir && HasRoom(n) && EntryFits(e) && Blocks(data)
  {
    data[TailBlock(n) := PutEntry(data[TailBlock(n)], n.size % BLKSIZE / DIRENT, e)]
  }

  // The directory then lists the entry last.
  lemma AppendLists(data: map<int, Block>, n: Node, e: DirEntry)
    requires NodeOk(n) && n.kind == Dir && HasRoom(n) && EntryFits(e) && Blocks(data)
    ensures NodeOk(OneLonger(n)) && Blocks(AppendEntry(data, n, e))
    ensures RfsFile.Distinct(n) ==> Listing(OneLonger(n), AppendEntry(data, n, e)) == Listing(n, data) + [e]
  {
    LongerNode(n);
    if !RfsFile.Distinct(n) { return; }
    hide NodeOk, RfsFile.Distinct, AppendEntry, HasRoom;
    var data' := AppendEntry(data, n, e);
    var es, es' := Listing(n, data) + [e], Listing(OneLonger(n), data');
    forall k | 0 <= k < |es| ensures es'[k] == es[k] {
      AppendedEntry(data, n, e, k);
    }
    assert es' == es;
  }

  lemma LongerNode(n: Node)
    requires NodeOk(n) && n.kind == Dir && HasRoom(n)
    ensures NodeOk(OneLonger(n)) && NumEntries(OneLonger(n)) == NumEntries(n) + 1
    ensures NumEntries(n) / EPB == n.size / BLKSIZE && NumEntries(n) % EPB == n.size % BLKSIZE / DIRENT
  {
  }

  lemma AppendedEntry(data: map<int, Block>, n: Node, e: DirEntry, k: int)
    requires NodeOk(n) && n.kind == Dir && HasRoom(n) && EntryFits(e) && Blocks(data) && RfsFile.Distinct(n)
    requires NodeOk(OneLonger(n)) && Blocks(AppendEntry(data, n, e)) && 0 <= k <= NumEntries(n)
    ensures EntryAt(OneLonger(n), AppendEntry(data, n, e), k) == if k == NumEntries(n) then e else EntryAt(n, data, k)
  {
    LongerNode(n);
    hide PutEntry;
    if k / EPB == n.size / BLKSIZE {
      PutEntrySlot(data[TailBlock(n)], n.size % BLKSIZE / DIRENT, e, k % EPB);
    } else {
      assert n.addrs[k / EPB] != TailBlock(n);
    }
  }

  function FreshFrom(d: Node, kind: Kind, a: int): Node
    requires |d.addrs| == DIRECT
  {
    d.(size := 0, kind := kind, nlinks := 1, blocks := 1, addrs := d.addrs[0 := a])
  }

  // The fields that the code has written when a new inode is in place.
  ghost function WrittenNew(s: State, i: int, n: Node, a: int, pp: Ptr, name: Name): State
    requires pp in s.c.vinodes && 0 <= s.c.vinodes[pp].inum < NINODES == |s.dino|
    requires CanCreate(s.v, i, n, a, s.c.vinodes[pp].inum, name)
  {
    var dir := s.c.vinodes[pp].inum;
    var dn := OneLonger(s.v.node[dir]);
    State(s.v.(data := AppendEntry(s.v.data, s.v.node[dir], DirEntry(i, name)),
               freemap := s.v.freemap[a - OFFSET_FREE := true]),
          s.dino[i := n][dir := dn], Patched(s.c, pp, dn))
  }

  lemma NewCan(s: State, i: int, n: Node, a: int, pp: Ptr, name: Name)
    requires StateOk(s) && pp in s.c.vinodes && IsDir(s.v, s.c.vinodes[pp].inum) && HasRoom(s.c.vinodes[pp].node)
    requires Key(s.c.vinodes[pp].inum, name) !in s.v.names && NameFits(name)
    requires 0 <= i < NINODES && i !in s.v.node && FreshNode(n, a) && IsFree(s.v, a)
    ensures CanCreate(s.v, i, n, a, s.c.vinodes[pp].inum, name)
  {
    hide StateOk;
    VinodeInRange(s, pp);
    StateParts(s);
    hide VolumeOk, InodesOk, CacheOk;
  }

  lemma NewWrites(s: State, i: int, n: Node, a: int, pp: Ptr, name: Name, data: map<int, Block>, freemap: seq<bool>,
                  dino: seq<Node>, vinodes: map<Ptr, Vinode>)
    requires pp in s.c.vinodes && 0 <= s.c.vinodes[pp].inum < NINODES == |s.dino|
    requires CanCreate(s.v, i, n, a, s.c.vinodes[pp].inum, name)
    requires var dir := s.c.vinodes[pp].inum;
             var dn := OneLonger(s.v.node[dir]);
             && data == AppendEntry(s.v.data, s.v.node[dir], DirEntry(i, name))
             && freemap == s.v.freemap[a - OFFSET_FREE := true] && dino == s.dino[i := n][dir := dn]
             && vinodes == s.c.vinodes[pp := s.c.vinodes[pp].(node := dn)]
    ensures State(s.v.(data := data, freemap := freemap), dino, s.c.(vinodes := vinodes)) ==
            WrittenNew(s, i, n, a, pp, name)
  {
    hide AppendEntry, NodeOk;
  }

  lemma ShapedNew(s: State, i: int, n: Node, a: int, pp: Ptr, name: Name)
    requires pp in s.c.vinodes && 0 <= s.c.vinodes[pp].inum < NINODES == |s.dino| && Shaped(s.dino)
    requires CanCreate(s.v, i, n, a, s.c.vinodes[pp].inum, name)
    ensures Shaped(WrittenNew(s, i, n, a, pp, name).dino)
  {
  }

  lemma CreatedIsNew(s: State, i: int, n: Node, a: int, pp: Ptr, name: Name)
    requires StateOk(s) && pp in s.c.vinodes && 0 <= s.c.vinodes[pp].inum < NINODES == |s.dino|
    requires CanCreate(s.v, i, n, a, s.c.vinodes[pp].inum, name)
    ensures StateOk(CreatedState(s, i, n, a, pp, name))
    ensures NewInode(s, CreatedState(s, i, n, a, pp, name), pp, name, n.kind, i)
    ensures CreatedState(s, i, n, a, pp, name) ==
            Indexed(WrittenNew(s, i, n, a, pp, name), CreatedState(s, i, n, a, pp, name))
  {
    hide StateOk, Leaked, VolumeOk, InodesOk, CacheOk, NodesOk, NodeOk, AppendEntry, EntryFits, HasRoom;
    StateParts(s);
    VolumeParts(s.v);
    CreatedStateOk(s, i, n, a, pp, name);
    PatchedShape(s.c, pp, OneLonger(s.v.node[s.c.vinodes[pp].inum]));
    CreatedData(s.v, i, n, a, s.c.vinodes[pp].inum, name);
    CreatedFresh(s.v, i, n, a, s.c.vinodes[pp].inum, name);
    CreatedContents(s.v, i, n, a, s.c.vinodes[pp].inum, name);
    hide Created, FreshIn, ContentsKept;
  }

  lemma OwnedBlocks(v: Volume)
    requires VolumeOk(v)
    ensures NodesOk(v) && BlocksOwned(v)
  {
  }

  lemma CreatedContents(v: Volume, i: int, n: Node, a: int, dir: int, name: Name)
    requires VolumeOk(v) && NodesOk(v) && CanCreate(v, i, n, a, dir, name) && NodesOk(Created(v, i, n, a, dir, name))
    ensures ContentsKept(v, Created(v, i, n, a, dir, name), dir)
  {
    hide VolumeOk, BlocksOwned, ContentsKept, PutEntry;
    OwnedBlocks(v);
    var w := Created(v, i, n, a, dir, name);
    CreatedNode(v, i, n, a, dir, name);
    CreatedData(v, i, n, a, dir, name);
    TailIsItsBlock(v.node[dir]);
    assert OnlyBlocksOf(v, w, dir);
    hide Created, OnlyBlocksOf;
    ContentsElsewhere(v, w, dir);
  }

  lemma TailIsItsBlock(n: Node)
    requires NodeOk(n) && n.kind == Dir && HasRoom(n)
    ensures TailBlock(n) in n.addrs[..n.blocks]
  {
    assert n.addrs[..n.blocks][n.size / BLKSIZE] == TailBlock(n);
  }

  lemma LinkedContents(v: Volume, i: int, dir: int, name: Name)
    requires VolumeOk(v) && NodesOk(v) && CanLink(v, i, dir, name) && NodesOk(Linked(v, i, dir, name))
    ensures ContentsKept(v, Linked(v, i, dir, name), dir)
  {
    hide VolumeOk, BlocksOwned, ContentsKept, PutEntry;
    OwnedBlocks(v);
    var w := Linked(v, i, dir, name);
    LinkedNode(v, i, dir, name);
    LinkedData(v, i, dir, name);
    TailIsItsBlock(v.node[dir]);
    assert OnlyBlocksOf(v, w, dir);
    hide Linked, OnlyBlocksOf;
    ContentsElsewhere(v, w, dir);
  }

  lemma UnlinkedContents(v: Volume, i: int, f1: seq<bool>, listed: int, dir: int, k: int, name: Name,
                         data1: map<int, Block>)
    requires VolumeOk(v) && CanUnlink(v, i, f1, listed, dir, k, name, data1)
    ensures IsDir(v, dir) && i in v.node && dir != i && NodeOk(v.node[dir]) && v.node[dir].size > 0
    ensures |v.freemap| == |f1| == NBLOCKS
    ensures var w := Unlinked(v, i, f1, dir, name, data1); NodesOk(w) ==> ContentsKept(v, w, dir)
  {
    hide VolumeOk, BlocksOwned, ContentsKept, Unlinked, CanUnlink, NodesOk, NodeOk, OnlyBlocksOf;
    OwnedBlocks(v);
    UnlinkedNode(v, i, f1, listed, dir, k, name, data1);
    UnlinkedOnly(v, i, f1, listed, dir, k, name, data1);
    var w := Unlinked(v, i, f1, dir, name, data1);
    if NodesOk(w) { ContentsElsewhere(v, w, dir); }
  }

  lemma UnlinkedOnly(v: Volume, i: int, f1: seq<bool>, listed: int, dir: int, k: int, name: Name,
                     data1: map<int, Block>)
    requires CanUnlink(v, i, f1, listed, dir, k, name, data1)
    ensures IsDir(v, dir) && i in v.node && dir != i && NodeOk(v.node[dir]) && v.node[dir].size > 0
    ensures |v.freemap| == |f1| == NBLOCKS
    ensures OnlyBlocksOf(v, Unlinked(v, i, f1, dir, name, data1), dir)
  {
    hide Unlinked, Listing, NodesOk;
    UnlinkedNode(v, i, f1, listed, dir, k, name, data1);
    UnlinkedParts(v, i, f1, listed, dir, k, name, data1);
  }

  lemma CreatedFresh(v: Volume, i: int, n: Node, a: int, dir: int, name: Name)
    requires NodesOk(v) && CanCreate(v, i, n, a, dir, name)
    ensures FreshIn(v, Created(v, i, n, a, dir, name), dir, n.kind, i) && IsDir(Created(v, i, n, a, dir, name), dir)
  {
    CreatedNode(v, i, n, a, dir, name);
    CreatedData(v, i, n, a, dir, name);
    RfsFile.FreeCountTake(v.freemap, a - OFFSET_FREE);
    hide Created, NodesOk, RfsFile.FreeCount;
  }

  lemma CreatedData(v: Volume, i: int, n: Node, a: int, dir: int, name: Name)
    requires NodesOk(v) && CanCreate(v, i, n, a, dir, name)
    ensures Created(v, i, n, a, dir, name).data == AppendEntry(v.data, v.node[dir], DirEntry(i, name))
    ensures Created(v, i, n, a, dir, name).freemap == v.freemap[a - OFFSET_FREE := true]
  {
  }

  lemma DentryUnderKey(s: State, key: DKey)
    requires StateOk(s) && key in s.c.dhash && Points(s.c, key.parent)
    ensures var d := s.c.dhash[key];
            && Points(s.c, d) && d != s.c.root && s.c.dents[d].parent == key.parent && s.c.dents[d].name == key.name
            && Key(Inum(s.c, key.parent), key.name) in s.v.names
            && s.v.names[Key(Inum(s.c, key.parent), key.name)] == Inum(s.c, d)
  {
    var d := s.c.dhash[key];
    assert HashSound(s.c) && AllPoint(s.c) && AllAnchored(s.c, s.v);
    assert d in s.c.dents && Anchored(s.c, s.v, d);
  }

  lemma NewDentryPoints(s: State, d: Ptr)
    requires StateOk(s) && d in s.c.dents && s.c.dents[d].parent in s.c.dents
    ensures Points(s.c, d) && (s.c.dents[d].parent != NULL ==> d != s.c.root)
  {
    assert AllPoint(s.c) && RootCached(s.c);
  }

  lemma RootPoints(s: State)
    requires StateOk(s)
    ensures Points(s.c, s.c.root) && Inum(s.c, s.c.root) == ROOT && Blocks(s.v.data)
  {
    assert RootCached(s.c) && NodesOk(s.v);
  }

  lemma WalkEnds(dino: seq<Node>, data: map<int, Block>, i: int, rest: Bytes, key: Key)
    requires Blocks(data) && !HasToken(rest)
    ensures DiskWalk(dino, data, i, rest) == Arrives(i) && LastEntry(dino, data, i, rest, key) == key
  {
  }

  lemma WalkStops(s: State, i: int, rest: Bytes)
    requires StateOk(s) && i in s.v.node && s.v.node[i].kind != Dir && HasToken(rest) && Blocks(s.v.data)
    ensures DiskWalk(s.dino, s.v.data, i, rest) == NotDir(i)
  {
    NodeInRange(s.v, i);
    assert Synced(s.dino[i], s.v.node[i], i in s.c.vhash);
  }

  lemma WalkGoesOn(s: State, i: int, rest: Bytes, key0: Key)
    requires StateOk(s) && IsDir(s.v, i) && HasToken(rest) && Blocks(s.v.data)
    ensures var key := Key(i, Token(rest));
            DiskWalk(s.dino, s.v.data, i, rest) ==
            if key in s.v.names then DiskWalk(s.dino, s.v.data, s.v.names[key], AfterToken(rest))
            else Lacks(i, Token(rest))
    ensures var key := Key(i, Token(rest));
            key in s.v.names ==>
              LastEntry(s.dino, s.v.data, i, rest, key0) ==
              LastEntry(s.dino, s.v.data, s.v.names[key], AfterToken(rest), key)
  {
    DiskStep(s, i, Token(rest));
  }

  lemma InodesMatch(s: State)
    requires StateOk(s)
    ensures |s.dino| == NINODES
    ensures forall i {:trigger s.dino[i]} :: 0 <= i < NINODES ==> (s.dino[i].kind != Free <==> i in s.v.node)
  {
  }

  lemma FreeInode(s: State) returns (z: int)
    requires StateOk(s)
    ensures |s.dino| == NINODES && 0 <= z < NINODES && s.dino[z].kind == Free
  {
    SomeInodeFree(s.v);
    InodesMatch(s);
    z :| 0 <= z < NINODES && z !in s.v.node;
    assert s.dino[z].kind == Free;
  }

  lemma ParentReady(s: State, pp: Ptr)
    requires StateOk(s) && pp in s.c.vinodes && IsDir(s.v, s.c.vinodes[pp].inum)
    ensures NodesOk(s.v) && NodeOk(s.c.vinodes[pp].node) && s.c.vinodes[pp].node.kind == Dir
  {
    VinodeInRange(s, pp);
  }

  // What vfs_unlink may rely on when it starts the real work.
  lemma UnlinkReady(s: State, d: Ptr)
    requires StateOk(s) && CanForget(s.c, s.v, d)
    ensures d in s.c.dents && Points(s.c, d) && Points(s.c, s.c.dents[d].parent) && Blocks(s.v.data)
    ensures |s.v.freemap| == NBLOCKS && |s.dino| == NINODES
    ensures var pi, pp := s.c.dents[d].inode, s.c.dents[s.c.dents[d].parent].inode;
            var i, dir := s.c.vinodes[pi].inum, s.c.vinodes[pp].inum;
            && 0 <= i < NINODES && 0 <= dir < NINODES && pi != pp
            && NodeOk(s.c.vinodes[pp].node) && s.c.vinodes[pp].node.kind == Dir
            && s.c.vinodes[pi].node.nlinks == s.dino[i].nlinks
            && 0 <= s.dino[i].blocks <= |s.dino[i].addrs|
            && (forall j {:trigger s.dino[i].addrs[j]} :: 0 <= j < s.dino[i].blocks ==> IsData(s.dino[i].addrs[j]))
            && RfsCompact.DirBlocks(s.v.data, s.c.vinodes[pp].node.addrs[..s.c.vinodes[pp].node.blocks])
  {
    assert Anchored(s.c, s.v, d);
    var pi, pp := s.c.dents[d].inode, s.c.dents[s.c.dents[d].parent].inode;
    VinodeInRange(s, pi);
    VinodeInRange(s, pp);
    var i, dir := s.c.vinodes[pi].inum, s.c.vinodes[pp].inum;
    StateParts(s);
    VolumeParts(s.v);
    DinodeListed(s, i);
    DirectoryBlocks(s.v, dir);
  }

  lemma DinodeListed(s: State, i: int)
    requires StateOk(s) && i in s.v.node
    ensures 0 <= i < |s.dino| && s.dino[i].nlinks == s.v.node[i].nlinks && NodeOk(s.v.node[i])
    ensures 1 <= s.dino[i].blocks <= s.v.node[i].blocks <= |s.dino[i].addrs|
    ensures s.dino[i].addrs[..s.dino[i].blocks] == s.v.node[i].addrs[..s.dino[i].blocks]
    ensures forall j {:trigger s.dino[i].addrs[j]} :: 0 <= j < s.dino[i].blocks ==> IsData(s.dino[i].addrs[j])
  {
    NodeInRange(s.v, i);
    assert Synced(s.dino[i], s.v.node[i], i in s.c.vhash);
    var d, n := s.dino[i], s.v.node[i];
    forall j | 0 <= j < d.blocks ensures IsData(d.addrs[j]) {
      assert d.addrs[..d.blocks][j] == n.addrs[..d.blocks][j];
    }
  }

  lemma DirectoryBlocks(v: Volume, dir: int)
    requires VolumeOk(v) && IsDir(v, dir)
    ensures NodeOk(v.node[dir]) && RfsCompact.DirBlocks(v.data, v.node[dir].addrs[..v.node[dir].blocks])
  {
    FileInVolume(v, dir);
  }

  lemma VictimFound(s: State, d: Ptr, k: int)
    requires StateOk(s) && CanForget(s.c, s.v, d) && Points(s.c, s.c.dents[d].parent)
    requires NodeOk(s.c.vinodes[s.c.dents[s.c.dents[d].parent].inode].node) && Blocks(s.v.data)
    requires k == Find(Listing(s.c.vinodes[s.c.dents[s.c.dents[d].parent].inode].node, s.v.data), s.c.dents[d].name)
    ensures var n := s.c.vinodes[s.c.dents[s.c.dents[d].parent].inode].node;
            k < NumEntries(n) && Listing(n, s.v.data)[k] == DirEntry(Inum(s.c, d), s.c.dents[d].name)
  {
    assert Anchored(s.c, s.v, d);
    var pp := s.c.dents[s.c.dents[d].parent].inode;
    VinodeInRange(s, pp);
    DiskStep(s, s.c.vinodes[pp].inum, s.c.dents[d].name);
  }

  lemma UnlinkCan(s: State, pi: Ptr, pp: Ptr, d: Ptr, f1: seq<bool>, k: int, data1: map<int, Block>)
    requires StateOk(s) && CanForget(s.c, s.v, d) && Points(s.c, s.c.dents[d].parent)
    requires pi == s.c.dents[d].inode && pp == s.c.dents[s.c.dents[d].parent].inode
    requires |s.dino| == NINODES && 0 <= s.c.vinodes[pi].inum < NINODES && Blocks(s.v.data)
    requires var i, n := s.c.vinodes[pi].inum, OneLinkFewer(s.c.vinodes[pi].node);
             && 0 <= s.dino[i].blocks <= |s.dino[i].addrs|
             && (n.nlinks != 0 ==> f1 == s.v.freemap)
             && (n.nlinks == 0 ==> Freed(s.v.freemap, f1, s.dino[i], s.dino[i].blocks))
    requires var dn := s.c.vinodes[pp].node;
             && NodeOk(dn) && 0 <= k < NumEntries(dn) && CompactedTo(dn, s.v.data, k, data1)
             && Listing(dn, s.v.data)[k] == DirEntry(s.c.vinodes[pi].inum, s.c.dents[d].name)
    ensures CanUnlinkDentry(s, pi, pp, d, f1, s.dino[s.c.vinodes[pi].inum].blocks, k, data1)
  {
    hide StateOk, CompactedTo, NodeOk, Freed, Listing, CanForget, VolumeOk, InodesOk, CacheOk, NodesOk, LinksCounted;
    hide CanUnlink;
    ForgetPoints(s, d);
    UnlinkKinds(s, d);
    var i := s.c.vinodes[pi].inum;
    VinodeInRange(s, pi);
    VinodeInRange(s, pp);
    StateParts(s);
    VolumeParts(s.v);
    DinodeListed(s, i);
    UnlinkCanFree(s.v, i, s.dino[i], f1, s.c.vinodes[pp].inum, k, s.c.dents[d].name, data1);
  }

  // The volume's part of that, for a file i with the disk inode d.
  lemma UnlinkCanFree(v: Volume, i: int, d: Node, f1: seq<bool>, dir: int, k: int, name: Name, data1: map<int, Block>)
    requires NodesOk(v) && i in v.node && v.node[i].kind == File && IsDir(v, dir) && NodeOk(v.node[dir])
    requires 0 <= d.blocks <= v.node[i].blocks <= |v.node[i].addrs| && d.blocks <= |d.addrs|
    requires d.addrs[..d.blocks] == v.node[i].addrs[..d.blocks]
    requires v.node[i].nlinks != 1 ==> f1 == v.freemap
    requires v.node[i].nlinks == 1 ==> Freed(v.freemap, f1, d, d.blocks)
    requires 0 <= k < NumEntries(v.node[dir]) && Blocks(v.data) && Listing(v.node[dir], v.data)[k] == DirEntry(i, name)
    requires CompactedTo(v.node[dir], v.data, k, data1)
    ensures CanUnlink(v, i, f1, d.blocks, dir, k, name, data1)
  {
    hide CompactedTo, NodeOk, Freed, Listing, NodesOk;
    if v.node[i].nlinks == 1 { FreedPrefix(v.freemap, f1, d, v.node[i], d.blocks); }
  }

  lemma AnchoredAt(s: State, d: Ptr)
    requires StateOk(s) && d in s.c.dents && d != s.c.root
    ensures Points(s.c, d) && Anchored(s.c, s.v, d)
  {
    hide StateOk;
    StateParts(s);
    hide CacheOk, VolumeOk, InodesOk, Anchored, RefsOk;
  }

  lemma UnlinkKinds(s: State, d: Ptr)
    requires StateOk(s) && CanForget(s.c, s.v, d) && Points(s.c, s.c.dents[d].parent)
    ensures IsDir(s.v, Inum(s.c, s.c.dents[d].parent))
    ensures Inum(s.c, d) in s.v.node && s.v.node[Inum(s.c, d)].kind == File
  {
    hide StateOk, VolumeOk, InodesOk, CacheOk;
    StateParts(s);
    AnchoredAt(s, d);
    VinodeInRange(s, s.c.dents[d].inode);
    NodeInRange(s.v, Inum(s.c, d));
  }

  lemma UnlinkIs(s: State, pi: Ptr, pp: Ptr, d: Ptr, f1: seq<bool>, k: int, data1: map<int, Block>)
    returns (s': State)
    requires StateOk(s) && pi in s.c.vinodes && 0 <= s.c.vinodes[pi].inum < |s.dino|
    requires CanUnlinkDentry(s, pi, pp, d, f1, s.dino[s.c.vinodes[pi].inum].blocks, k, data1)
    ensures StateOk(s') && UnlinkedName(s, s', EntryOf(s.c, d))
    ensures pp in s.c.vinodes && 0 <= s.c.vinodes[pp].inum < |s.dino| && d in s.c.dents && pi == s.c.dents[d].inode
    ensures s' == Indexed(WrittenUnlink(s, pi, pp, d, f1, data1), s')
    ensures s.c.vinodes[pi].node.nlinks == 1 ==> s.c.vinodes[pi].ref - 1 == 0
  {
    hide StateOk, NodesOk, Leaked, NodeOk, CanUnlink, ContentsKept, FewerLinks, UnlinkVolume;
    var i, dir := s.c.vinodes[pi].inum, s.c.vinodes[pp].inum;
    var listed := s.dino[i].blocks;
    UnlinkedStateOk(s, pi, pp, d, f1, listed, k, data1);
    var v' := UnlinkVolume(s, pi, pp, d, f1, listed, k, data1);
    s' := UnlinkedState(s, pi, pp, d, v');
    VinodeInRange(s, pi);
    DinodeListed(s, i);
    VinodeInRange(s, pp);
    UnlinkedFields(s, pi, pp, d, f1, k, data1, v');
    UnlinkedNode(s.v, i, f1, listed, dir, k, s.c.dents[d].name, data1);
    UnlinkContents(s, pi, pp, d, f1, k, data1);
    UnlinkFewer(s, pi, pp, d, f1, k, data1);
    UnlinkedNameOk(s, s', pi, pp, d, f1, listed, k, data1);
  }

  lemma UnlinkFewer(s: State, pi: Ptr, pp: Ptr, d: Ptr, f1: seq<bool>, k: int, data1: map<int, Block>)
    requires StateOk(s) && pi in s.c.vinodes && 0 <= s.c.vinodes[pi].inum < |s.dino|
    requires CanUnlinkDentry(s, pi, pp, d, f1, s.dino[s.c.vinodes[pi].inum].blocks, k, data1)
    requires var v' := UnlinkVolume(s, pi, pp, d, f1, s.dino[s.c.vinodes[pi].inum].blocks, k, data1);
             s.c.vinodes[pp].inum in v'.node
    ensures var v' := UnlinkVolume(s, pi, pp, d, f1, s.dino[s.c.vinodes[pi].inum].blocks, k, data1);
            FewerLinks(s, UnlinkedState(s, pi, pp, d, v'), s.c.vinodes[pp].inum, s.c.vinodes[pi].inum)
  {
    hide StateOk, CanUnlink, Unlinked, NodeOk, NodesOk, OneShorter;
    var i, dir := s.c.vinodes[pi].inum, s.c.vinodes[pp].inum;
    VinodeInRange(s, pi);
    VinodeInRange(s, pp);
    UnlinkedNode(s.v, i, f1, s.dino[i].blocks, dir, k, s.c.dents[d].name, data1);
    ForgottenVinode(s.c, d, pi);
    ForgottenVinode(s.c, d, pp);
  }

  lemma UnlinkContents(s: State, pi: Ptr, pp: Ptr, d: Ptr, f1: seq<bool>, k: int, data1: map<int, Block>)
    requires StateOk(s) && pi in s.c.vinodes && 0 <= s.c.vinodes[pi].inum < |s.dino|
    requires CanUnlinkDentry(s, pi, pp, d, f1, s.dino[s.c.vinodes[pi].inum].blocks, k, data1)
    requires NodesOk(UnlinkVolume(s, pi, pp, d, f1, s.dino[s.c.vinodes[pi].inum].blocks, k, data1))
    ensures var v' := UnlinkVolume(s, pi, pp, d, f1, s.dino[s.c.vinodes[pi].inum].blocks, k, data1);
            ContentsKept(s.v, v', s.c.vinodes[pp].inum)
  {
    hide StateOk, NodesOk, CanUnlink, ContentsKept, VolumeOk, InodesOk, CacheOk, Unlinked;
    var i, dir := s.c.vinodes[pi].inum, s.c.vinodes[pp].inum;
    StateParts(s);
    UnlinkedContents(s.v, i, f1, s.dino[i].blocks, dir, k, s.c.dents[d].name, data1);
  }

  lemma UnlinkedNameOk(s: State, s': State, pi: Ptr, pp: Ptr, d: Ptr, f1: seq<bool>, listed: int, k: int,
                       data1: map<int, Block>)
    requires StateOk(s) && CanUnlinkDentry(s, pi, pp, d, f1, listed, k, data1)
    requires listed == s.dino[s.c.vinodes[pi].inum].blocks
    requires s'.c.files == s.c.files && NodesOk(s.v) && NodesOk(s'.v)
    requires s'.v.names == s.v.names - {Key(s.c.vinodes[pp].inum, s.c.dents[d].name)}
    requires 0 <= listed <= s.c.vinodes[pi].node.blocks <= |s.c.vinodes[pi].node.addrs|
    requires Leaked(s'.v) == Leaked(s.v) + (if s.c.vinodes[pi].node.nlinks != 1 then {} else
               Addrs(s.c.vinodes[pi].node, listed, s.c.vinodes[pi].node.blocks))
    requires FewerLinks(s, s', s.c.vinodes[pp].inum, s.c.vinodes[pi].inum)
    requires ContentsKept(s.v, s'.v, s.c.vinodes[pp].inum)
    ensures UnlinkedName(s, s', EntryOf(s.c, d))
  {
    hide FewerLinks, ContentsKept, StateOk, NodesOk, Leaked, CanUnlink, IsDir;
    AnchoredAt(s, d);
    DinodeListed(s, s.c.vinodes[pi].inum);
    VinodeInRange(s, pi);
  }

  lemma VinodesSwap(m: map<Ptr, Vinode>, pi: Ptr, pp: Ptr, n: Node, dn: Node)
    requires pi in m && pp in m && pi != pp
    ensures var w0 := m[pi := m[pi].(node := n)];
            var w1 := w0[pp := w0[pp].(node := dn)];
            var w2 := w1[pi := w1[pi].(ref := w1[pi].ref - 1)];
            var u0 := m[pi := m[pi].(ref := m[pi].ref - 1)];
            && w2 == u0[pi := u0[pi].(node := n)][pp := u0[pp].(node := dn)]
            && w2 - {pi} == u0[pp := u0[pp].(node := dn)] - {pi}
  {
    var w0 := m[pi := m[pi].(node := n)];
    var w1 := w0[pp := w0[pp].(node := dn)];
    var w2 := w1[pi := w1[pi].(ref := w1[pi].ref - 1)];
    var u0 := m[pi := m[pi].(ref := m[pi].ref - 1)];
    assert w2 == u0[pi := u0[pi].(node := n)][pp := u0[pp].(node := dn)];
    assert w2 - {pi} == u0[pp := u0[pp].(node := dn)] - {pi};
  }

  lemma UnlinkedParts(v: Volume, i: int, f1: seq<bool>, listed: int, dir: int, k: int, name: Name,
                      data1: map<int, Block>)
    requires CanUnlink(v, i, f1, listed, dir, k, name, data1)
    ensures dir in v.node && i in v.node && dir != i && |f1| == NBLOCKS && v.node[dir].size > 0 && NodeOk(v.node[dir])
    ensures IsDir(v, dir)
    ensures var w := Unlinked(v, i, f1, dir, name, data1);
            && w.data == data1 && dir in w.node && w.node[dir] == OneShorter(v.node[dir])
            && w.freemap == LastFreed(f1, v.node[dir])
  {
    hide CompactedTo, Listing, NodesOk;
    UnlinkedNode(v, i, f1, listed, dir, k, name, data1);
  }

  lemma UnlinkedFields(s: State, pi: Ptr, pp: Ptr, d: Ptr, f1: seq<bool>, k: int, data1: map<int, Block>, v': Volume)
    requires pi in s.c.vinodes && 0 <= s.c.vinodes[pi].inum < |s.dino|
    requires CanUnlinkDentry(s, pi, pp, d, f1, s.dino[s.c.vinodes[pi].inum].blocks, k, data1)
    requires v' == UnlinkVolume(s, pi, pp, d, f1, s.dino[s.c.vinodes[pi].inum].blocks, k, data1)
    requires s.c.vinodes[pp].inum in v'.node && s.c.vinodes[pp].inum in s.v.node
    requires s.c.vinodes[pp].node == s.v.node[s.c.vinodes[pp].inum]
    ensures d in s.c.dents && pi == s.c.dents[d].inode && pp in s.c.vinodes && 0 <= s.c.vinodes[pp].inum < |s.dino|
    ensures var s' := UnlinkedState(s, pi, pp, d, v'); s' == Indexed(WrittenUnlink(s, pi, pp, d, f1, data1), s')
  {
    hide CanUnlink, Unlinked, OneShorter, GivesBack, LastFreed, WithoutDentry, WithoutVinode, Patched;
    var i, dir := s.c.vinodes[pi].inum, s.c.vinodes[pp].inum;
    UnlinkedParts(s.v, i, f1, s.dino[i].blocks, dir, k, s.c.dents[d].name, data1);
    var n, dn := OneLinkFewer(s.c.vinodes[pi].node), OneShorter(s.v.node[dir]);
    CachesAgree(s.c, pi, pp, d, n, dn);
    UnlinkedCache(s, pi, pp, f1, data1);
    ForgottenVinode(s.c, d, pi);
    ForgottenVinode(s.c, d, pp);
    var w, s' := WrittenUnlink(s, pi, pp, d, f1, data1), UnlinkedState(s, pi, pp, d, v');
    assert s'.dino == w.dino;
    assert s'.c == w.c;
  }

  lemma UnlinkedCache(s: State, pi: Ptr, pp: Ptr, f1: seq<bool>, data1: map<int, Block>)
    requires pi in s.c.vinodes && 0 <= s.c.vinodes[pi].inum < |s.dino|
    requires pp in s.c.vinodes && 0 <= s.c.vinodes[pp].inum < |s.dino|
    ensures var n, dn := OneLinkFewer(s.c.vinodes[pi].node), OneShorter(s.c.vinodes[pp].node);
            RfsUnlinked(s, pi, pp, f1, data1).c == Patched(Patched(s.c, pi, n), pp, dn)
  {
    hide OneShorter, LastFreed, ReleasedDinode;
  }

  // Writing the nodes first or forgetting the dentry first is the same.
  lemma CachesAgree(c: Cache, pi: Ptr, pp: Ptr, d: Ptr, n: Node, dn: Node)
    requires Points(c, d) && pi == c.dents[d].inode && pp in c.vinodes && pi != pp
    ensures var u, w := WithoutDentry(c, d), WithoutDentry(Patched(Patched(c, pi, n), pp, dn), d);
            && w == Patched(Patched(u, pi, n), pp, dn)
            && WithoutVinode(w, pi) == WithoutVinode(Patched(u, pp, dn), pi)
  {
    VinodesSwap(c.vinodes, pi, pp, n, dn);
  }

  lemma ShapedUnlink(s: State, pi: Ptr, pp: Ptr, d: Ptr, f1: seq<bool>, k: int, data1: map<int, Block>)
    requires Shaped(s.dino) && pi in s.c.vinodes && 0 <= s.c.vinodes[pi].inum < |s.dino|
    requires CanUnlinkDentry(s, pi, pp, d, f1, s.dino[s.c.vinodes[pi].inum].blocks, k, data1)
    requires StateOk(s)
    ensures d in s.c.dents && pi == s.c.dents[d].inode && pp in s.c.vinodes && 0 <= s.c.vinodes[pp].inum < |s.dino|
    ensures Shaped(WrittenUnlink(s, pi, pp, d, f1, data1).dino)
  {
    hide StateOk;
    var i, dir := s.c.vinodes[pi].inum, s.c.vinodes[pp].inum;
    UnlinkedNode(s.v, i, f1, s.dino[i].blocks, dir, k, s.c.dents[d].name, data1);
    hide CanUnlink;
    VinodeInRange(s, pp);
  }

  lemma ForgetPoints(s: State, d: Ptr)
    requires StateOk(s) && CanForget(s.c, s.v, d)
    ensures Points(s.c, d) && Points(s.c, s.c.dents[d].parent)
  {
    assert Anchored(s.c, s.v, d);
  }
}
