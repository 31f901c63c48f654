/**
 The VFS layer over a mounted RFS volume: disk inodes, the vinode cache with its
 hash table, the dentry cache with its hash table, and the open files of all
 processes, together with what ties them to the volume.

 Cached objects are named by the address of the page that holds them.  The hash
 tables appear here as the finite maps that they stand for.
 */
module VfsState {
  import opened Base
  import opened RfsLayout
  import opened RfsVolume

  datatype Vinode = Vinode(inum: int, ref: int, node: Node)
  datatype Dentry = Dentry(name: Name, dref: int, inode: Ptr, parent: Ptr)
  datatype DKey = DKey(parent: Ptr, name: Name)
  datatype Fd = Fd(process: nat, slot: nat)
  datatype OpenFile = OpenFile(dentry: Ptr, offset: int, readable: bool, writable: bool)

  datatype Cache = Cache(
    vinodes: map<Ptr, Vinode>,
    vhash: map<int, Ptr>,
    dents: map<Ptr, Dentry>,
    dhash: map<DKey, Ptr>,
    root: Ptr,
    dirOf: map<int, Ptr>,       // the dentry of each cached directory
    files: map<Fd, OpenFile>)

  datatype State = State(v: Volume, dino: seq<Node>, c: Cache)

  // ---------------------------------------------------------------------
  // Disk inodes and cached vinodes
  // ---------------------------------------------------------------------

  // A disk inode against the node in force: link counts and kinds always agree; a
  // directory's disk inode is up to date; an uncached inode is the disk inode; the
  // blocks a file's disk inode lists are a prefix of the file's blocks.
  predicate Synced(d: Node, n: Node, cached: bool) {
    && d.kind == n.kind && d.nlinks == n.nlinks
    && (!cached || n.kind == Dir ==> d == n)
    && |d.addrs| == |n.addrs| && 1 <= d.blocks <= n.blocks <= |n.addrs|
    && d.addrs[..d.blocks] == n.addrs[..d.blocks]
  }

  ghost predicate InodesOk(dino: seq<Node>, vinodes: map<Ptr, Vinode>, vhash: map<int, Ptr>, node: map<int, Node>) {
    && |dino| == NINODES
    && (forall i {:trigger dino[i]} :: 0 <= i < NINODES ==> (dino[i].kind != Free <==> i in node))
    && (forall i {:trigger dino[i]} :: 0 <= i < NINODES && i in node ==> Synced(dino[i], node[i], i in vhash))
    && VinodesOk(vinodes, vhash, node)
  }

  // At most one cached vinode per inode, found under its number, holding the node in force.
  ghost predicate VinodesOk(vinodes: map<Ptr, Vinode>, vhash: map<int, Ptr>, node: map<int, Node>) {
    && (forall i {:trigger i in vhash} :: i in vhash ==>
          i in node && vhash[i] in vinodes && vinodes[vhash[i]].inum == i && vinodes[vhash[i]].node == node[i])
    && (forall p {:trigger p in vinodes} :: p in vinodes ==>
          p != NULL && vinodes[p].inum in vhash && vhash[vinodes[p].inum] == p)
  }

  // ---------------------------------------------------------------------
  // Dentries
  // ---------------------------------------------------------------------

  function Inum(c: Cache, d: Ptr): int
    requires d in c.dents && c.dents[d].inode in c.vinodes
  {
    c.vinodes[c.dents[d].inode].inum
  }

  predicate Points(c: Cache, d: Ptr) {
    d in c.dents && c.dents[d].inode in c.vinodes
  }

  // A cached dentry other than the root sits under a cached directory dentry, is
  // found under (parent, name), and stands for a directory entry on disk.
  ghost predicate Anchored(c: Cache, v: Volume, d: Ptr)
    requires Points(c, d)
  {
    var e := c.dents[d];
    && Points(c, e.parent) && IsDir(v, Inum(c, e.parent))
    && DKey(e.parent, e.name) in c.dhash && c.dhash[DKey(e.parent, e.name)] == d
    && Key(Inum(c, e.parent), e.name) in v.names && v.names[Key(Inum(c, e.parent), e.name)] == Inum(c, d)
  }

  predicate RootCached(c: Cache) {
    Points(c, c.root) && c.dents[c.root].parent == NULL && Inum(c, c.root) == ROOT
  }

  ghost predicate AllPoint(c: Cache) {
    forall d {:trigger d in c.dents} :: d in c.dents ==> d != NULL && Points(c, d)
  }

  ghost predicate AllAnchored(c: Cache, v: Volume)
    requires AllPoint(c)
  {
    forall d {:trigger d in c.dents} :: d in c.dents && d != c.root ==> Anchored(c, v, d)
  }

  ghost predicate HashSound(c: Cache) {
    forall k {:trigger k in c.dhash} :: k in c.dhash ==>
      c.dhash[k] in c.dents && c.dhash[k] != c.root &&
      c.dents[c.dhash[k]].parent == k.parent && c.dents[c.dhash[k]].name == k.name
  }

  // At most one cached dentry per directory.
  ghost predicate OneDentryPerDir(c: Cache, v: Volume)
    requires AllPoint(c)
  {
    forall d {:trigger d in c.dents} :: d in c.dents && IsDir(v, Inum(c, d)) ==>
      Inum(c, d) in c.dirOf && c.dirOf[Inum(c, d)] == d
  }

  ghost predicate DentsOk(c: Cache, v: Volume) {
    RootCached(c) && AllPoint(c) && AllAnchored(c, v) && HashSound(c) && OneDentryPerDir(c, v)
  }

  // ---------------------------------------------------------------------
  // Reference counts
  // ---------------------------------------------------------------------

  ghost function DentsOf(dents: map<Ptr, Dentry>, p: Ptr): set<Ptr> {
    set d | d in dents && dents[d].inode == p
  }

  ghost predicate RefsOk(c: Cache) {
    forall p {:trigger p in c.vinodes} :: p in c.vinodes ==> c.vinodes[p].ref == |DentsOf(c.dents, p)|
  }

  ghost function FilesOf(files: map<Fd, OpenFile>, d: Ptr): set<Fd> {
    set f | f in files && files[f].dentry == d
  }

  ghost predicate FilesOk(c: Cache) {
    && (forall d {:trigger d in c.dents} :: d in c.dents ==> c.dents[d].dref == |FilesOf(c.files, d)|)
    && (forall f {:trigger f in c.files} :: f in c.files ==> c.files[f].dentry in c.dents)
  }

  // No open file's offset is past the end of the file.
  ghost predicate OffsetsOk(c: Cache, v: Volume) {
    forall f {:trigger f in c.files} :: f in c.files && Points(c, c.files[f].dentry) ==>
      Inum(c, c.files[f].dentry) in v.node && 0 <= c.files[f].offset &&
      (v.node[Inum(c, c.files[f].dentry)].kind == File ==>
         c.files[f].offset <= v.node[Inum(c, c.files[f].dentry)].size)
  }

  ghost predicate CacheOk(c: Cache, v: Volume) {
    DentsOk(c, v) && RefsOk(c) && FilesOk(c) && OffsetsOk(c, v)
  }

  // Directories do not grow past the block they are created with.
  ghost predicate SmallDirs(node: map<int, Node>) {
    forall i {:trigger node[i]} :: i in node && node[i].kind == Dir ==> node[i].blocks == 1
  }

  ghost predicate StateOk(s: State) {
    && VolumeOk(s.v) && SmallDirs(s.v.node)
    && InodesOk(s.dino, s.c.vinodes, s.c.vhash, s.v.node)
    && CacheOk(s.c, s.v)
  }
}
