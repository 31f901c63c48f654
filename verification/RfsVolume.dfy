/**
 A mounted RFS volume seen without its caches: the nodes in force (a cached
 vinode's fields where there is one, the disk inode's otherwise), the data
 blocks, the free map, and two ghost indexes over them:
   names  the (directory, name) -> inode map that the directory files spell out
   owner  the (inode, position) that each owned data block belongs to

 Each section below is one change the kernel makes to a volume, with the parts of
 the volume invariant it keeps.
 */
module RfsVolume {
  import opened RfsLayout
  import RfsCompact
  import RfsFile

  datatype Key = Key(dir: int, name: Name)
  datatype Place = Place(inum: int, idx: int)

  datatype Volume = Volume(
    node: map<int, Node>,
    data: map<int, Block>,
    freemap: seq<bool>,
    names: map<Key, int>,
    owner: map<int, Place>)

  // ---------------------------------------------------------------------
  // The volume invariant
  // ---------------------------------------------------------------------

  predicate IsDir(v: Volume, d: int) { d in v.node && v.node[d].kind == Dir }

  ghost predicate NodesOk(v: Volume) {
    && Blocks(v.data)
    && |v.freemap| == NBLOCKS
    && (forall i {:trigger v.node[i]} :: i in v.node ==>
          0 <= i < NINODES && NodeOk(v.node[i]) && v.node[i].kind != Free)
    && IsDir(v, ROOT)
  }

  // Each owned block has one owner, and is marked used.
  ghost predicate BlocksOwned(v: Volume)
    requires NodesOk(v)
  {
    && (forall i, j {:trigger v.node[i].addrs[j]} :: i in v.node && 0 <= j < v.node[i].blocks ==>
          v.node[i].addrs[j] in v.owner && v.owner[v.node[i].addrs[j]] == Place(i, j))
    && (forall a {:trigger a in v.owner} :: a in v.owner ==> IsData(a) && v.freemap[a - OFFSET_FREE])
    && (forall a {:trigger a in v.owner} :: a in v.owner ==> Owns(v.node, v.owner[a], a))
  }

  predicate Owns(node: map<int, Node>, p: Place, a: int) {
    p.inum in node && 0 <= p.idx < node[p.inum].blocks <= |node[p.inum].addrs| && node[p.inum].addrs[p.idx] == a
  }

  // A directory file spells out exactly the names of that directory, each once.
  ghost predicate Spells(es: seq<DirEntry>, names: map<Key, int>, d: int) {
    && (forall j, k {:trigger es[j], es[k]} :: 0 <= j < k < |es| ==> es[j].name != es[k].name)
    && (forall k {:trigger es[k]} :: 0 <= k < |es| ==>
          Key(d, es[k].name) in names && names[Key(d, es[k].name)] == es[k].inum)
    && (forall n {:trigger Find(es, n)} :: Key(d, n) in names ==> Find(es, n) < |es|)
  }

  ghost predicate NamesStored(v: Volume)
    requires NodesOk(v)
  {
    && (forall d {:trigger IsDir(v, d)} :: IsDir(v, d) ==> Spells(Listing(v.node[d], v.data), v.names, d))
    && (forall key {:trigger key in v.names} :: key in v.names ==> IsDir(v, key.dir))
  }

  ghost function LinkSet(names: map<Key, int>, i: int): set<Key> {
    set key | key in names && names[key] == i
  }

  // The link count of every inode but the root is the number of names it has;
  // a directory has just one.
  ghost predicate LinksCounted(v: Volume) {
    && (forall key {:trigger key in v.names} :: key in v.names ==> v.names[key] in v.node && v.names[key] != ROOT)
    && (forall i {:trigger LinkSet(v.names, i)} :: i in v.node && i != ROOT ==>
          v.node[i].nlinks == |LinkSet(v.names, i)|)
    && (forall i {:trigger v.node[i]} :: i in v.node ==> v.node[i].nlinks >= 1)
    && (forall i {:trigger v.node[i]} :: i in v.node && v.node[i].kind == Dir ==> v.node[i].nlinks == 1)
  }

  ghost predicate VolumeOk(v: Volume) {
    NodesOk(v) && BlocksOwned(v) && NamesStored(v) && LinksCounted(v)
  }

  // ---------------------------------------------------------------------
  // The used blocks that nobody owns
  // ---------------------------------------------------------------------

  ghost function Leaked(v: Volume): set<int>
    requires NodesOk(v)
  {
    set a | OFFSET_FREE <= a < OFFSET_FREE + NBLOCKS && v.freemap[a - OFFSET_FREE] && a !in v.owner
  }

  // ---------------------------------------------------------------------
  // Appending a directory entry (rfs_add_direntry)
  // ---------------------------------------------------------------------

  predicate HasRoom(n: Node) { n.size + DIRENT <= n.blocks * BLKSIZE }

  function TailBlock(n: Node): (a: int)
    requires NodeOk(n) && n.kind == Dir && HasRoom(n)
    ensures IsData(a)
  {
    assert 0 <= n.size / BLKSIZE < n.blocks;
    n.addrs[n.size / BLKSIZE]
  }

  function WithEntry(v: Volume, dir: int, e: DirEntry): Volume
    requires IsDir(v, dir) && NodeOk(v.node[dir]) && Blocks(v.data) && HasRoom(v.node[dir]) && EntryFits(e)
  {
    var n := v.node[dir];
    var a := TailBlock(n);
    v.(node := v.node[dir := n.(size := n.size + DIRENT)],
       data := v.data[a := PutEntry(v.data[a], n.size % BLKSIZE / DIRENT, e)],
       names := v.names[Key(dir, e.name) := e.inum])
  }

  lemma WithEntryNodes(v: Volume, dir: int, e: DirEntry)
    requires NodesOk(v) && BlocksOwned(v)
    requires IsDir(v, dir) && HasRoom(v.node[dir]) && EntryFits(e)
    ensures NodesOk(WithEntry(v, dir, e)) && BlocksOwned(WithEntry(v, dir, e))
    ensures Leaked(WithEntry(v, dir, e)) == Leaked(v)
  {
    var w := WithEntry(v, dir, e);
    assert NodeOk(w.node[dir]);
    forall a | a in w.owner ensures Owns(w.node, w.owner[a], a) {
      assert Owns(v.node, v.owner[a], a);
    }
  }

  // The directory that receives the entry lists it last ...
  lemma WithEntryAppends(v: Volume, dir: int, e: DirEntry)
    requires NodesOk(v) && BlocksOwned(v)
    requires IsDir(v, dir) && HasRoom(v.node[dir]) && EntryFits(e)
    requires NodesOk(WithEntry(v, dir, e))
    ensures var w := WithEntry(v, dir, e);
            Listing(w.node[dir], w.data) == Listing(v.node[dir], v.data) + [e]
  {
    var w := WithEntry(v, dir, e);
    var n := v.node[dir];
    var es, es' := Listing(n, v.data) + [e], Listing(w.node[dir], w.data);
    var at := n.size % BLKSIZE / DIRENT;
    assert NumEntries(n) / EPB == n.size / BLKSIZE && NumEntries(n) % EPB == at;
    forall k | 0 <= k < |es| ensures es'[k] == es[k] {
      if k / EPB == n.size / BLKSIZE {
        PutEntrySlot(v.data[TailBlock(n)], at, e, k % EPB);
      } else {
        assert v.owner[n.addrs[k / EPB]] == Place(dir, k / EPB);
        assert v.owner[n.addrs[n.size / BLKSIZE]] == Place(dir, n.size / BLKSIZE);
      }
    }
  }

  // ... and every other directory lists what it did.
  lemma WithEntryElsewhere(v: Volume, dir: int, e: DirEntry, d: int)
    requires NodesOk(v) && BlocksOwned(v)
    requires IsDir(v, dir) && HasRoom(v.node[dir]) && EntryFits(e)
    requires NodesOk(WithEntry(v, dir, e))
    requires d in v.node && d != dir
    ensures var w := WithEntry(v, dir, e);
            w.node[d] == v.node[d] && Listing(w.node[d], w.data) == Listing(v.node[d], v.data)
  {
    var w := WithEntry(v, dir, e);
    var n := v.node[dir];
    assert v.owner[n.addrs[n.size / BLKSIZE]] == Place(dir, n.size / BLKSIZE);
    forall j | 0 <= j < v.node[d].blocks ensures w.data[v.node[d].addrs[j]] == v.data[v.node[d].addrs[j]] {
      assert v.owner[v.node[d].addrs[j]] == Place(d, j);
    }
    SameBlocksSameListing(v.node[d], v.data, w.data);
  }

  lemma SameBlocksSameListing(n: Node, data: map<int, Block>, data': map<int, Block>)
    requires NodeOk(n) && Blocks(data) && Blocks(data')
    requires forall j {:trigger n.addrs[j]} :: 0 <= j < n.blocks ==> data'[n.addrs[j]] == data[n.addrs[j]]
    ensures Listing(n, data') == Listing(n, data)
  {
    forall k | 0 <= k < NumEntries(n) ensures Listing(n, data')[k] == Listing(n, data)[k] {
      assert data'[n.addrs[k / EPB]] == data[n.addrs[k / EPB]];
    }
  }

  lemma AppendSpells(es: seq<DirEntry>, names: map<Key, int>, d: int, e: DirEntry)
    requires Spells(es, names, d) && Key(d, e.name) !in names
    ensures Spells(es + [e], names[Key(d, e.name) := e.inum], d)
  {
    var es', names' := es + [e], names[Key(d, e.name) := e.inum];
    forall n | Key(d, n) in names' ensures Find(es', n) < |es'| {
      var k := if n == e.name then |es| else Find(es, n);
      assert es'[k].name == n;
    }
  }

  lemma OtherKeySpells(es: seq<DirEntry>, names: map<Key, int>, names': map<Key, int>, d: int, key: Key)
    requires Spells(es, names, d) && key.dir != d
    requires forall k {:trigger k in names'} {:trigger k in names} :: k != key ==>
      (k in names' <==> k in names) && (k in names ==> names'[k] == names[k])
    ensures Spells(es, names', d)
  {
    forall n | Key(d, n) in names' ensures Find(es, n) < |es| {
      assert Key(d, n) in names;
    }
  }

  lemma WithEntryNames(v: Volume, dir: int, e: DirEntry)
    requires NodesOk(v) && BlocksOwned(v) && NamesStored(v)
    requires IsDir(v, dir) && HasRoom(v.node[dir]) && EntryFits(e) && Key(dir, e.name) !in v.names
    ensures NodesOk(WithEntry(v, dir, e)) && NamesStored(WithEntry(v, dir, e))
  {
    hide BlocksOwned, Spells, NodeOk, PutEntry, Listing, Leaked;
    WithEntryNodes(v, dir, e);
    var w := WithEntry(v, dir, e);
    forall d | IsDir(w, d) ensures Spells(Listing(w.node[d], w.data), w.names, d) {
      WithEntrySpells(v, dir, e, d);
    }
    forall key | key in w.names ensures IsDir(w, key.dir) {
      if key != Key(dir, e.name) { assert IsDir(v, key.dir); }
    }
  }

  lemma WithEntrySpells(v: Volume, dir: int, e: DirEntry, d: int)
    requires NodesOk(v) && BlocksOwned(v) && NamesStored(v)
    requires IsDir(v, dir) && HasRoom(v.node[dir]) && EntryFits(e) && Key(dir, e.name) !in v.names
    requires NodesOk(WithEntry(v, dir, e)) && IsDir(WithEntry(v, dir, e), d)
    ensures var w := WithEntry(v, dir, e); NodeOk(w.node[d]) && Spells(Listing(w.node[d], w.data), w.names, d)
  {
    hide BlocksOwned, Spells, NodeOk, PutEntry, Listing;
    var w := WithEntry(v, dir, e);
    assert IsDir(v, d);
    if d == dir {
      WithEntryAppends(v, dir, e);
      AppendSpells(Listing(v.node[d], v.data), v.names, d, e);
    } else {
      WithEntryElsewhere(v, dir, e, d);
      OtherKeySpells(Listing(v.node[d], v.data), v.names, w.names, d, Key(dir, e.name));
    }
  }

  // ---------------------------------------------------------------------
  // Counting links
  // ---------------------------------------------------------------------

  lemma LinkSetAdds(names: map<Key, int>, key: Key, i: int, j: int)
    requires key !in names
    ensures |LinkSet(names[key := i], j)| == |LinkSet(names, j)| + if i == j then 1 else 0
  {
    if i == j {
      assert LinkSet(names[key := i], j) == LinkSet(names, j) + {key};
    } else {
      assert LinkSet(names[key := i], j) == LinkSet(names, j);
    }
  }

  lemma LinkSetDrops(names: map<Key, int>, key: Key, j: int)
    requires key in names
    ensures |LinkSet(names - {key}, j)| == |LinkSet(names, j)| - if names[key] == j then 1 else 0
  {
    if names[key] == j {
      assert LinkSet(names - {key}, j) == LinkSet(names, j) - {key};
    } else {
      assert LinkSet(names - {key}, j) == LinkSet(names, j);
    }
  }

  // ---------------------------------------------------------------------
  // A new file or directory (rfs_create, rfs_mkdir)
  // ---------------------------------------------------------------------

  predicate FreshNode(n: Node, a: int) {
    NodeOk(n) && n.kind != Free && n.size == 0 && n.nlinks == 1 && n.blocks == 1 && n.addrs[0] == a
  }

  predicate IsFree(v: Volume, a: int) {
    IsData(a) && |v.freemap| == NBLOCKS && !v.freemap[a - OFFSET_FREE]
  }

  function WithNode(v: Volume, i: int, n: Node, a: int): Volume
    requires IsFree(v, a)
  {
    v.(node := v.node[i := n],
       freemap := v.freemap[a - OFFSET_FREE := true],
       owner := v.owner[a := Place(i, 0)])
  }

  lemma WithNodeOwned(v: Volume, i: int, n: Node, a: int)
    requires NodesOk(v) && BlocksOwned(v)
    requires 0 <= i < NINODES && i !in v.node && IsFree(v, a) && FreshNode(n, a)
    ensures NodesOk(WithNode(v, i, n, a)) && BlocksOwned(WithNode(v, i, n, a))
    ensures Leaked(WithNode(v, i, n, a)) == Leaked(v)
  {
    WithNodeNodes(v, i, n, a);
    WithNodeOwners(v, i, n, a);
    WithNodeLeaks(v, i, n, a);
  }

  lemma WithNodeNodes(v: Volume, i: int, n: Node, a: int)
    requires NodesOk(v) && 0 <= i < NINODES && i !in v.node && IsFree(v, a) && FreshNode(n, a)
    ensures NodesOk(WithNode(v, i, n, a))
  {
    hide NodeOk;
  }

  lemma WithNodeOwners(v: Volume, i: int, n: Node, a: int)
    requires NodesOk(v) && BlocksOwned(v) && i !in v.node && IsFree(v, a) && FreshNode(n, a)
    requires NodesOk(WithNode(v, i, n, a))
    ensures BlocksOwned(WithNode(v, i, n, a))
  {
    hide NodeOk, NodesOk;
    var w := WithNode(v, i, n, a);
    Addressed(v);
    Addressed(w);
    NodeIsOk(n);
    assert a !in v.owner;
    forall b | b in w.owner ensures Owns(w.node, w.owner[b], b) && IsData(b) && w.freemap[b - OFFSET_FREE] {
      if b != a { assert Owns(v.node, v.owner[b], b); }
    }
    forall d, j | d in w.node && 0 <= j < w.node[d].blocks
      ensures w.node[d].addrs[j] in w.owner && w.owner[w.node[d].addrs[j]] == Place(d, j)
    {
      if d != i { assert v.owner[v.node[d].addrs[j]] == Place(d, j); }
    }
  }

  lemma NodeIsOk(n: Node)
    requires NodeOk(n)
    ensures 1 <= n.blocks <= |n.addrs| == DIRECT && 0 <= n.size
  {
  }

  lemma Addressed(v: Volume)
    requires NodesOk(v)
    ensures forall i {:trigger v.node[i]} :: i in v.node ==> 1 <= v.node[i].blocks <= |v.node[i].addrs| == DIRECT
    ensures |v.freemap| == NBLOCKS
  {
  }

  lemma WithNodeLeaks(v: Volume, i: int, n: Node, a: int)
    requires NodesOk(v) && IsFree(v, a) && NodesOk(WithNode(v, i, n, a))
    ensures Leaked(WithNode(v, i, n, a)) == Leaked(v)
  {
    hide NodesOk;
    var w := WithNode(v, i, n, a);
    forall b ensures b in Leaked(w) <==> b in Leaked(v) { }
  }

  lemma WithNodeNames(v: Volume, i: int, n: Node, a: int)
    requires NodesOk(v) && NamesStored(v)
    requires 0 <= i < NINODES && i !in v.node && IsFree(v, a) && FreshNode(n, a)
    requires NodesOk(WithNode(v, i, n, a))
    ensures NamesStored(WithNode(v, i, n, a))
  {
    var w := WithNode(v, i, n, a);
    forall d | IsDir(w, d) ensures Spells(Listing(w.node[d], w.data), w.names, d) {
      if d == i {
        assert forall m :: Key(d, m) !in w.names;
      } else {
        assert IsDir(v, d);
      }
    }
    forall key | key in w.names ensures IsDir(w, key.dir) {
      assert IsDir(v, key.dir);
    }
  }

  function Created(v: Volume, i: int, n: Node, a: int, dir: int, name: Name): Volume
    requires NodesOk(v) && IsFree(v, a) && FreshNode(n, a) && i !in v.node && 0 <= i < NINODES
    requires IsDir(v, dir) && HasRoom(v.node[dir]) && EntryFits(DirEntry(i, name))
  {
    WithEntry(WithNode(v, i, n, a), dir, DirEntry(i, name))
  }

  lemma CreatedLinks(v: Volume, i: int, n: Node, a: int, dir: int, name: Name)
    requires NodesOk(v) && LinksCounted(v)
    requires IsFree(v, a) && FreshNode(n, a) && i !in v.node && 0 <= i < NINODES
    requires IsDir(v, dir) && HasRoom(v.node[dir]) && EntryFits(DirEntry(i, name))
    requires Key(dir, name) !in v.names
    ensures LinksCounted(Created(v, i, n, a, dir, name))
  {
    var w := Created(v, i, n, a, dir, name);
    forall j | j in w.node && j != ROOT ensures w.node[j].nlinks == |LinkSet(w.names, j)| {
      LinkSetAdds(v.names, Key(dir, name), i, j);
      if j == i {
        forall key | key in v.names ensures v.names[key] != i {}
        assert LinkSet(v.names, i) == {};
      }
    }
  }

  /** Creating a file or directory keeps the volume invariant, adds exactly one
      name, and leaks no block. */
  lemma CreatedOk(v: Volume, i: int, n: Node, a: int, dir: int, name: Name)
    requires VolumeOk(v)
    requires IsFree(v, a) && FreshNode(n, a) && i !in v.node && 0 <= i < NINODES
    requires IsDir(v, dir) && HasRoom(v.node[dir]) && EntryFits(DirEntry(i, name))
    requires Key(dir, name) !in v.names
    ensures VolumeOk(Created(v, i, n, a, dir, name))
    ensures Created(v, i, n, a, dir, name).names == v.names[Key(dir, name) := i]
    ensures Leaked(Created(v, i, n, a, dir, name)) == Leaked(v)
  {
    var w := WithNode(v, i, n, a);
    WithNodeOwned(v, i, n, a);
    WithNodeNames(v, i, n, a);
    CreatedLinks(v, i, n, a, dir, name);
    hide BlocksOwned, NamesStored, LinksCounted, Leaked;
    WithEntryNodes(w, dir, DirEntry(i, name));
    WithEntryNames(w, dir, DirEntry(i, name));
  }

  // ---------------------------------------------------------------------
  // A hard link (rfs_link)
  // ---------------------------------------------------------------------

  function WithLinks(v: Volume, i: int, nlinks: int): Volume
    requires i in v.node
  {
    v.(node := v.node[i := v.node[i].(nlinks := nlinks)])
  }

  lemma WithLinksOk(v: Volume, i: int, nlinks: int)
    requires NodesOk(v) && BlocksOwned(v) && NamesStored(v) && i in v.node
    ensures NodesOk(WithLinks(v, i, nlinks)) && BlocksOwned(WithLinks(v, i, nlinks))
    ensures NamesStored(WithLinks(v, i, nlinks))
    ensures Leaked(WithLinks(v, i, nlinks)) == Leaked(v)
  {
    var w := WithLinks(v, i, nlinks);
    assert NodeOk(w.node[i]);
    forall a | a in w.owner ensures Owns(w.node, w.owner[a], a) {
      assert Owns(v.node, v.owner[a], a);
    }
    forall d | IsDir(w, d) ensures Spells(Listing(w.node[d], w.data), w.names, d) {
      assert IsDir(v, d);
      assert Listing(w.node[d], w.data) == Listing(v.node[d], v.data);
    }
    forall key | key in w.names ensures IsDir(w, key.dir) {
      assert IsDir(v, key.dir);
    }
  }

  function Linked(v: Volume, i: int, dir: int, name: Name): Volume
    requires NodesOk(v) && i in v.node && v.node[i].kind == File
    requires IsDir(v, dir) && HasRoom(v.node[dir]) && EntryFits(DirEntry(i, name))
  {
    WithEntry(WithLinks(v, i, v.node[i].nlinks + 1), dir, DirEntry(i, name))
  }

  lemma LinkedLinks(v: Volume, i: int, dir: int, name: Name)
    requires NodesOk(v) && LinksCounted(v) && i in v.node && v.node[i].kind == File
    requires IsDir(v, dir) && HasRoom(v.node[dir]) && EntryFits(DirEntry(i, name))
    requires Key(dir, name) !in v.names
    ensures LinksCounted(Linked(v, i, dir, name))
  {
    var w := Linked(v, i, dir, name);
    forall j | j in w.node && j != ROOT ensures w.node[j].nlinks == |LinkSet(w.names, j)| {
      LinkSetAdds(v.names, Key(dir, name), i, j);
    }
  }

  lemma LinkedStored(v: Volume, i: int, dir: int, name: Name)
    requires NodesOk(v) && BlocksOwned(v) && NamesStored(v) && i in v.node && v.node[i].kind == File
    requires IsDir(v, dir) && HasRoom(v.node[dir]) && EntryFits(DirEntry(i, name))
    requires Key(dir, name) !in v.names
    ensures NodesOk(Linked(v, i, dir, name)) && BlocksOwned(Linked(v, i, dir, name))
    ensures NamesStored(Linked(v, i, dir, name))
    ensures Leaked(Linked(v, i, dir, name)) == Leaked(v)
  {
    hide BlocksOwned, NamesStored, Leaked, NodeOk, PutEntry;
    var w := WithLinks(v, i, v.node[i].nlinks + 1);
    WithLinksOk(v, i, v.node[i].nlinks + 1);
    assert IsDir(w, dir) && HasRoom(w.node[dir]);
    WithEntryNodes(w, dir, DirEntry(i, name));
    WithEntryNames(w, dir, DirEntry(i, name));
  }

  /** A hard link keeps the volume invariant and adds exactly one name. */
  lemma LinkedOk(v: Volume, i: int, dir: int, name: Name)
    requires VolumeOk(v) && i in v.node && v.node[i].kind == File
    requires IsDir(v, dir) && HasRoom(v.node[dir]) && EntryFits(DirEntry(i, name))
    requires Key(dir, name) !in v.names
    ensures VolumeOk(Linked(v, i, dir, name))
    ensures Linked(v, i, dir, name).names == v.names[Key(dir, name) := i]
    ensures Leaked(Linked(v, i, dir, name)) == Leaked(v)
  {
    LinkedStored(v, i, dir, name);
    LinkedLinks(v, i, dir, name);
  }

  // ---------------------------------------------------------------------
  // Taking an entry out of a directory (the second half of rfs_unlink)
  // ---------------------------------------------------------------------

  // `data'` is what compaction leaves of `data`.
  ghost predicate CompactedTo(n: Node, data: map<int, Block>, k: int, data': map<int, Block>) {
    && NodeOk(n) && 0 <= k < NumEntries(n)
    && data'.Keys == data.Keys
    && var addrs := n.addrs[..n.blocks];
       var m := |addrs| * EPB - 1;
    && RfsCompact.DirBlocks(data, addrs) && RfsCompact.DirBlocks(data', addrs)
    && (forall a {:trigger data'[a]} :: a in data && a !in addrs ==> data'[a] == data[a])
    && RfsCompact.Row(data', addrs, m) == RfsCompact.RowWithout(data, addrs, k, m)
  }

  function Shrunk(n: Node): Node { n.(size := n.size - DIRENT) }

  function WithoutEntry(v: Volume, dir: int, name: Name, data': map<int, Block>): Volume
    requires IsDir(v, dir)
  {
    v.(node := v.node[dir := Shrunk(v.node[dir])],
       data := data',
       names := v.names - {Key(dir, name)})
  }

  lemma WithoutEntryNodes(v: Volume, dir: int, name: Name, data': map<int, Block>)
    requires NodesOk(v) && BlocksOwned(v) && IsDir(v, dir) && v.node[dir].size > 0 && data'.Keys == v.data.Keys
    ensures NodesOk(WithoutEntry(v, dir, name, data')) && BlocksOwned(WithoutEntry(v, dir, name, data'))
    ensures Leaked(WithoutEntry(v, dir, name, data')) == Leaked(v)
  {
    var w := WithoutEntry(v, dir, name, data');
    assert NodeOk(w.node[dir]);
    assert forall a {:trigger a in data'} :: a in v.data ==> a in data';
    forall a | a in w.owner ensures Owns(w.node, w.owner[a], a) {
      assert Owns(v.node, v.owner[a], a);
    }
  }

  lemma ListingIsRow(n: Node, data: map<int, Block>, addrs: seq<int>, k: int)
    requires NodeOk(n) && RfsCompact.DirBlocks(data, addrs) && 0 <= k < NumEntries(n)
    requires addrs == n.addrs[..n.blocks]
    ensures Listing(n, data)[k] == Decode(RfsCompact.CellAt(data, addrs, k))
  {
    assert addrs[k / EPB] == n.addrs[k / EPB];
  }

  // The directory lists the same entries but for the one taken out ...
  lemma ShrunkListing(n: Node, data: map<int, Block>, data': map<int, Block>, k: int)
    requires n.kind == Dir && CompactedTo(n, data, k, data')
    ensures NodeOk(Shrunk(n))
    ensures Listing(Shrunk(n), data') == Listing(n, data)[..k] + Listing(n, data)[k + 1..]
  {
    hide NodeOk, CompactedTo, Blocks;
    CompactedParts(n, data, k, data');
    var es, es' := Listing(n, data), Listing(Shrunk(n), data');
    forall j | 0 <= j < |es'| ensures es'[j] == (es[..k] + es[k + 1..])[j] {
      ShrunkEntry(n, data, data', k, j);
    }
    assert es' == es[..k] + es[k + 1..];
  }

  lemma CompactedParts(n: Node, data: map<int, Block>, k: int, data': map<int, Block>)
    requires n.kind == Dir && CompactedTo(n, data, k, data')
    ensures NodeOk(n) && NodeOk(Shrunk(n)) && Blocks(data) && Blocks(data')
    ensures NumEntries(Shrunk(n)) == NumEntries(n) - 1
    ensures 0 <= k < NumEntries(n)
  {
  }

  lemma ShrunkEntry(n: Node, data: map<int, Block>, data': map<int, Block>, k: int, j: int)
    requires n.kind == Dir && CompactedTo(n, data, k, data') && NodeOk(Shrunk(n)) && 0 <= j < NumEntries(Shrunk(n))
    requires Blocks(data) && Blocks(data')
    ensures Listing(Shrunk(n), data')[j] == Listing(n, data)[if j < k then j else j + 1]
  {
    var addrs := n.addrs[..n.blocks];
    var m := |addrs| * EPB - 1;
    var from := if j < k then j else j + 1;
    assert j < m && from < NumEntries(n);
    assert RfsCompact.Row(data', addrs, m)[j] == RfsCompact.RowWithout(data, addrs, k, m)[j];
    hide NodeOk, Listing, Blocks;
    ListingIsRow(Shrunk(n), data', addrs, j);
    ListingIsRow(n, data, addrs, from);
  }

  // ... and every other directory lists what it did.
  lemma WithoutEntryElsewhere(v: Volume, dir: int, k: int, data': map<int, Block>, d: int)
    requires NodesOk(v) && BlocksOwned(v) && IsDir(v, dir) && CompactedTo(v.node[dir], v.data, k, data')
    requires d in v.node && d != dir
    ensures Listing(v.node[d], data') == Listing(v.node[d], v.data)
  {
    var n := v.node[dir];
    var addrs := n.addrs[..n.blocks];
    forall j | 0 <= j < v.node[d].blocks ensures data'[v.node[d].addrs[j]] == v.data[v.node[d].addrs[j]] {
      var a := v.node[d].addrs[j];
      assert v.owner[a] == Place(d, j);
      forall x | 0 <= x < |addrs| ensures addrs[x] != a {
        assert v.owner[n.addrs[x]] == Place(dir, x);
      }
    }
    SameBlocksSameListing(v.node[d], v.data, data');
  }

  lemma RemoveSpells(es: seq<DirEntry>, names: map<Key, int>, d: int, k: int)
    requires Spells(es, names, d) && 0 <= k < |es|
    ensures Spells(es[..k] + es[k + 1..], names - {Key(d, es[k].name)}, d)
  {
    var es', names' := es[..k] + es[k + 1..], names - {Key(d, es[k].name)};
    forall j | 0 <= j < |es'|
      ensures Key(d, es'[j].name) in names' && names'[Key(d, es'[j].name)] == es'[j].inum
    {
      assert es'[j] == es[if j < k then j else j + 1];
    }
    forall i, j | 0 <= i < j < |es'| ensures es'[i].name != es'[j].name {
      assert es'[i] == es[if i < k then i else i + 1] && es'[j] == es[if j < k then j else j + 1];
    }
    forall n | Key(d, n) in names' ensures Find(es', n) < |es'| {
      var f := Find(es, n);
      assert f != k;
      assert es'[if f < k then f else f - 1] == es[f];
    }
  }

  lemma WithoutEntryNames(v: Volume, dir: int, k: int, name: Name, data': map<int, Block>)
    requires NodesOk(v) && BlocksOwned(v) && NamesStored(v)
    requires IsDir(v, dir) && CompactedTo(v.node[dir], v.data, k, data')
    requires 0 <= k < NumEntries(v.node[dir]) && name == Listing(v.node[dir], v.data)[k].name
    requires NodesOk(WithoutEntry(v, dir, name, data'))
    ensures NamesStored(WithoutEntry(v, dir, name, data'))
  {
    hide BlocksOwned, Spells, CompactedTo;
    var w := WithoutEntry(v, dir, name, data');
    forall d | IsDir(w, d) ensures Spells(Listing(w.node[d], w.data), w.names, d) {
      assert IsDir(v, d);
      if d == dir {
        ShrunkListing(v.node[dir], v.data, data', k);
        RemoveSpells(Listing(v.node[d], v.data), v.names, d, k);
      } else {
        WithoutEntryElsewhere(v, dir, k, data', d);
        OtherKeySpells(Listing(v.node[d], v.data), v.names, w.names, d, Key(dir, name));
      }
    }
    forall key | key in w.names ensures IsDir(w, key.dir) {
      assert IsDir(v, key.dir);
    }
  }

  // ---------------------------------------------------------------------
  // Giving back an emptied last directory block
  // ---------------------------------------------------------------------

  predicate LastIsEmpty(n: Node) { n.blocks > 1 && n.size <= (n.blocks - 1) * BLKSIZE }

  // The code decides by counting the entries that were there before.
  predicate GivesBack(n: Node) { (NumEntries(n) - 1) % EPB == 0 && n.blocks > 1 }

  lemma GivesBackEmpty(n: Node)
    requires NodeOk(n) && n.kind == Dir && n.size > 0
    ensures GivesBack(n) ==> LastIsEmpty(Shrunk(n))
    ensures n.size > (n.blocks - 1) * BLKSIZE ==> (GivesBack(n) <==> LastIsEmpty(Shrunk(n)))
  {
  }

  function Trimmed(v: Volume, dir: int): Volume
    requires IsDir(v, dir) && NodeOk(v.node[dir]) && |v.freemap| == NBLOCKS
  {
    var n := v.node[dir];
    var last := n.addrs[n.blocks - 1];
    v.(node := v.node[dir := n.(blocks := n.blocks - 1)],
       freemap := v.freemap[last - OFFSET_FREE := false],
       owner := v.owner - {last})
  }

  lemma TrimmedNodes(v: Volume, dir: int)
    requires NodesOk(v) && BlocksOwned(v) && IsDir(v, dir) && LastIsEmpty(v.node[dir])
    ensures NodesOk(Trimmed(v, dir)) && BlocksOwned(Trimmed(v, dir))
    ensures Leaked(Trimmed(v, dir)) == Leaked(v)
  {
    TrimmedKinds(v, dir);
    TrimmedOwners(v, dir);
    TrimmedLeaks(v, dir);
  }

  lemma TrimmedKinds(v: Volume, dir: int)
    requires NodesOk(v) && IsDir(v, dir) && LastIsEmpty(v.node[dir])
    ensures NodeOk(v.node[dir]) && NodesOk(Trimmed(v, dir))
  {
    var w := Trimmed(v, dir);
    assert NodeOk(w.node[dir]);
    hide NodeOk;
  }

  lemma TrimmedOwners(v: Volume, dir: int)
    requires NodesOk(v) && BlocksOwned(v) && IsDir(v, dir) && LastIsEmpty(v.node[dir]) && NodeOk(v.node[dir])
    requires NodesOk(Trimmed(v, dir))
    ensures BlocksOwned(Trimmed(v, dir))
  {
    Addressed(v);
    Addressed(Trimmed(v, dir));
    var w := Trimmed(v, dir);
    forall a | a in w.owner ensures IsData(a) && w.freemap[a - OFFSET_FREE] && Owns(w.node, w.owner[a], a) {
      TrimmedOwns(v, dir, a);
    }
    forall i, j | i in w.node && 0 <= j < w.node[i].blocks
      ensures w.node[i].addrs[j] in w.owner && w.owner[w.node[i].addrs[j]] == Place(i, j)
    {
      TrimmedPlace(v, dir, i, j);
    }
    hide NodesOk, NodeOk, Trimmed;
  }

  lemma TrimmedOwns(v: Volume, dir: int, a: int)
    requires NodesOk(v) && BlocksOwned(v) && IsDir(v, dir) && LastIsEmpty(v.node[dir]) && NodeOk(v.node[dir])
    requires a in Trimmed(v, dir).owner
    ensures var w := Trimmed(v, dir); IsData(a) && w.freemap[a - OFFSET_FREE] && Owns(w.node, w.owner[a], a)
  {
    hide NodesOk, BlocksOwned;
    NodeIsOk(v.node[dir]);
    Addressed(v);
    BlockOwner(v, dir, v.node[dir].blocks - 1);
    OwnedBlock(v, a);
    hide NodeOk;
  }

  lemma TrimmedPlace(v: Volume, dir: int, i: int, j: int)
    requires NodesOk(v) && BlocksOwned(v) && IsDir(v, dir) && LastIsEmpty(v.node[dir]) && NodeOk(v.node[dir])
    requires i in Trimmed(v, dir).node && 0 <= j < Trimmed(v, dir).node[i].blocks
    ensures var w := Trimmed(v, dir);
            j < |w.node[i].addrs| && w.node[i].addrs[j] in w.owner && w.owner[w.node[i].addrs[j]] == Place(i, j)
  {
    hide NodesOk, BlocksOwned;
    NodeIsOk(v.node[dir]);
    Addressed(v);
    BlockOwner(v, dir, v.node[dir].blocks - 1);
    BlockOwner(v, i, j);
    hide NodeOk;
  }

  lemma TrimmedLeaks(v: Volume, dir: int)
    requires NodesOk(v) && BlocksOwned(v) && IsDir(v, dir) && LastIsEmpty(v.node[dir]) && NodeOk(v.node[dir])
    requires NodesOk(Trimmed(v, dir))
    ensures Leaked(Trimmed(v, dir)) == Leaked(v)
  {
    var w, n := Trimmed(v, dir), v.node[dir];
    var last := n.addrs[n.blocks - 1];
    assert v.owner[v.node[dir].addrs[n.blocks - 1]] == Place(dir, n.blocks - 1);
    hide BlocksOwned, NodesOk, NodeOk;
    forall a ensures a in Leaked(w) <==> a in Leaked(v) {
      assert a != last ==> (a in w.owner <==> a in v.owner);
    }
  }

  lemma TrimmedNames(v: Volume, dir: int)
    requires NodesOk(v) && NamesStored(v) && IsDir(v, dir) && LastIsEmpty(v.node[dir])
    requires NodesOk(Trimmed(v, dir))
    ensures NamesStored(Trimmed(v, dir))
  {
    var w := Trimmed(v, dir);
    forall d | IsDir(w, d) ensures Spells(Listing(w.node[d], w.data), w.names, d) {
      assert IsDir(v, d);
      assert Listing(w.node[d], w.data) == Listing(v.node[d], v.data);
    }
    forall key | key in w.names ensures IsDir(w, key.dir) {
      assert IsDir(v, key.dir);
    }
  }

  // ---------------------------------------------------------------------
  // The last link goes (the first half of rfs_unlink)
  // ---------------------------------------------------------------------

  ghost function Addrs(n: Node, lo: int, hi: int): set<int>
    requires 0 <= lo <= hi <= |n.addrs|
  {
    set x {:trigger n.addrs[x]} | lo <= x < hi :: n.addrs[x]
  }

  lemma AddrsByOwner(v: Volume, i: int, lo: int, hi: int)
    requires NodesOk(v) && BlocksOwned(v) && i in v.node && 0 <= lo <= hi <= v.node[i].blocks
    ensures forall a {:trigger a in Addrs(v.node[i], lo, hi)} ::
      a in Addrs(v.node[i], lo, hi) <==> a in v.owner && v.owner[a].inum == i && lo <= v.owner[a].idx < hi
  {
    var n := v.node[i];
    forall a | a in Addrs(n, lo, hi)
      ensures a in v.owner && v.owner[a].inum == i && lo <= v.owner[a].idx < hi
    {
      var x :| lo <= x < hi && n.addrs[x] == a;
      assert v.owner[v.node[i].addrs[x]] == Place(i, x);
    }
    forall a | a in v.owner && v.owner[a].inum == i && lo <= v.owner[a].idx < hi
      ensures a in Addrs(n, lo, hi)
    {
      assert Owns(v.node, v.owner[a], a);
      assert n.addrs[v.owner[a].idx] == a;
    }
  }

  // Unlink frees the blocks that the disk inode lists; `listed` of them.
  ghost predicate Freed(f: seq<bool>, f': seq<bool>, n: Node, listed: int)
    requires 0 <= listed <= |n.addrs|
  {
    && |f| == |f'| == NBLOCKS
    && forall b {:trigger f'[b]} :: 0 <= b < NBLOCKS ==>
         (f'[b] <==> f[b] && OFFSET_FREE + b !in Addrs(n, 0, listed))
  }

  ghost function Dropped(v: Volume, i: int, freemap': seq<bool>): Volume {
    v.(node := v.node - {i},
       owner := map a | a in v.owner && v.owner[a].inum != i :: v.owner[a],
       freemap := freemap')
  }

  lemma DroppedOwns(v: Volume, i: int, freemap': seq<bool>, listed: int)
    requires NodesOk(v) && BlocksOwned(v) && i in v.node && i != ROOT
    requires 0 <= listed <= v.node[i].blocks && Freed(v.freemap, freemap', v.node[i], listed)
    ensures NodesOk(Dropped(v, i, freemap')) && BlocksOwned(Dropped(v, i, freemap'))
  {
    assert NodesOk(Dropped(v, i, freemap')) by { hide NodeOk, Addrs; }
    DroppedOwners(v, i, freemap', listed);
  }

  lemma DroppedOwners(v: Volume, i: int, freemap': seq<bool>, listed: int)
    requires NodesOk(v) && BlocksOwned(v) && i in v.node && NodesOk(Dropped(v, i, freemap'))
    requires 0 <= listed <= v.node[i].blocks && listed <= |v.node[i].addrs|
    requires Freed(v.freemap, freemap', v.node[i], listed)
    ensures BlocksOwned(Dropped(v, i, freemap'))
  {
    var w := Dropped(v, i, freemap');
    AddrsByOwner(v, i, 0, listed);
    Addressed(v);
    Addressed(w);
    hide Addrs, NodesOk, NodeOk;
    forall a | a in w.owner ensures Owns(w.node, w.owner[a], a) {
      assert Owns(v.node, v.owner[a], a);
    }
    forall d, j | d in w.node && 0 <= j < w.node[d].blocks
      ensures w.node[d].addrs[j] in w.owner && w.owner[w.node[d].addrs[j]] == Place(d, j)
    {
      assert v.owner[v.node[d].addrs[j]] == Place(d, j);
    }
  }

  /** What a final unlink leaks: exactly the blocks of the file that the disk inode
      does not list yet. */
  lemma DroppedLeaks(v: Volume, i: int, freemap': seq<bool>, listed: int)
    requires NodesOk(v) && BlocksOwned(v) && i in v.node && i != ROOT
    requires 0 <= listed <= v.node[i].blocks && Freed(v.freemap, freemap', v.node[i], listed)
    requires NodesOk(Dropped(v, i, freemap'))
    ensures Leaked(Dropped(v, i, freemap')) == Leaked(v) + Addrs(v.node[i], listed, v.node[i].blocks)
    ensures Leaked(v) !! Addrs(v.node[i], listed, v.node[i].blocks)
    ensures Addrs(v.node[i], listed, v.node[i].blocks) == {} <==> listed == v.node[i].blocks
  {
    var n := v.node[i];
    AddrsByOwner(v, i, 0, listed);
    AddrsByOwner(v, i, listed, n.blocks);
    if listed < n.blocks {
      assert n.addrs[listed] in Addrs(n, listed, n.blocks);
    }
  }

  lemma DroppedNames(v: Volume, i: int, freemap': seq<bool>)
    requires NodesOk(v) && NamesStored(v) && NodesOk(Dropped(v, i, freemap'))
    requires i in v.node && v.node[i].kind == File
    ensures NamesStored(Dropped(v, i, freemap'))
  {
    var w := Dropped(v, i, freemap');
    forall d | IsDir(w, d) ensures Spells(Listing(w.node[d], w.data), w.names, d) {
      assert IsDir(v, d);
    }
    forall key | key in w.names ensures IsDir(w, key.dir) {
      assert IsDir(v, key.dir);
    }
  }

  // ---------------------------------------------------------------------
  // Unlink as a whole
  // ---------------------------------------------------------------------

  // One link goes from the inode, or the inode itself ...
  ghost function Released(v: Volume, i: int, freemap': seq<bool>): Volume
    requires i in v.node
  {
    if v.node[i].nlinks == 1 then Dropped(v, i, freemap') else WithLinks(v, i, v.node[i].nlinks - 1)
  }

  // ... then the entry goes from the directory, and perhaps its last block.
  ghost function Unlinked(v: Volume, i: int, freemap': seq<bool>,
                          dir: int, name: Name, data': map<int, Block>): Volume
    requires i in v.node && IsDir(v, dir) && dir != i && NodeOk(v.node[dir]) && v.node[dir].size > 0
    requires |v.freemap| == |freemap'| == NBLOCKS
  {
    Shortened(Released(v, i, freemap'), dir, name, data')
  }

  ghost function Shortened(v: Volume, dir: int, name: Name, data': map<int, Block>): Volume
    requires IsDir(v, dir) && NodeOk(v.node[dir]) && v.node[dir].size > 0 && |v.freemap| == NBLOCKS
  {
    var w := WithoutEntry(v, dir, name, data');
    if GivesBack(v.node[dir]) then Trimmed(w, dir) else w
  }

  lemma ShortenedNode(v: Volume, dir: int, name: Name, data': map<int, Block>)
    requires IsDir(v, dir) && NodeOk(v.node[dir]) && v.node[dir].size > 0 && |v.freemap| == NBLOCKS
    ensures var w := Shortened(v, dir, name, data');
            && w.names == v.names - {Key(dir, name)} && dir in w.node && w.node == v.node[dir := w.node[dir]]
            && w.node[dir].kind == v.node[dir].kind && w.node[dir].nlinks == v.node[dir].nlinks
  {
  }

  // What an unlink finds: a file i, of whose blocks the disk inode lists the first
  // `listed`, named by entry k of the directory.
  ghost predicate CanUnlink(v: Volume, i: int, freemap': seq<bool>, listed: int,
                            dir: int, k: int, name: Name, data': map<int, Block>) {
    && NodesOk(v)
    && i in v.node && v.node[i].kind == File && 0 <= listed <= v.node[i].blocks
    && (v.node[i].nlinks == 1 ==> Freed(v.freemap, freemap', v.node[i], listed))
    && (v.node[i].nlinks != 1 ==> freemap' == v.freemap)
    && IsDir(v, dir) && 0 <= k < NumEntries(v.node[dir])
    && Listing(v.node[dir], v.data)[k] == DirEntry(i, name)
    && CompactedTo(v.node[dir], v.data, k, data')
  }

  lemma ReleasedStored(v: Volume, i: int, freemap': seq<bool>, listed: int)
    requires NodesOk(v) && BlocksOwned(v) && NamesStored(v)
    requires i in v.node && v.node[i].kind == File && 0 <= listed <= v.node[i].blocks
    requires v.node[i].nlinks == 1 ==> Freed(v.freemap, freemap', v.node[i], listed)
    ensures NodesOk(Released(v, i, freemap')) && BlocksOwned(Released(v, i, freemap'))
    ensures NamesStored(Released(v, i, freemap'))
    ensures Leaked(Released(v, i, freemap')) == Leaked(v) +
            if v.node[i].nlinks == 1 then Addrs(v.node[i], listed, v.node[i].blocks) else {}
  {
    hide BlocksOwned, NamesStored, Leaked, Freed;
    if v.node[i].nlinks == 1 {
      DroppedOwns(v, i, freemap', listed);
      DroppedLeaks(v, i, freemap', listed);
      DroppedNames(v, i, freemap');
    } else {
      WithLinksOk(v, i, v.node[i].nlinks - 1);
    }
  }

  lemma UnlinkedStored(v: Volume, dir: int, k: int, name: Name, data': map<int, Block>)
    requires NodesOk(v) && BlocksOwned(v) && NamesStored(v)
    requires IsDir(v, dir) && CompactedTo(v.node[dir], v.data, k, data')
    requires 0 <= k < NumEntries(v.node[dir]) && name == Listing(v.node[dir], v.data)[k].name
    ensures v.node[dir].size > 0 && NodeOk(v.node[dir])
    ensures var w := Shortened(v, dir, name, data');
            NodesOk(w) && BlocksOwned(w) && NamesStored(w) && Leaked(w) == Leaked(v)
  {
    hide CompactedTo;
    var w := WithoutEntry(v, dir, name, data');
    assert data'.Keys == v.data.Keys by { CompactedKeys(v.node[dir], v.data, k, data'); }
    WithoutEntryNodes(v, dir, name, data');
    WithoutEntryNames(v, dir, k, name, data');
    GivesBackEmpty(v.node[dir]);
    hide BlocksOwned, NamesStored, Leaked;
    if GivesBack(v.node[dir]) {
      assert w.node[dir] == Shrunk(v.node[dir]);
      TrimmedNodes(w, dir);
      TrimmedNames(w, dir);
    }
  }

  lemma CompactedKeys(n: Node, data: map<int, Block>, k: int, data': map<int, Block>)
    requires CompactedTo(n, data, k, data')
    ensures data'.Keys == data.Keys
  {
  }

  lemma OneLinkLess(v: Volume, w: Volume, i: int, key: Key)
    requires LinksCounted(v) && key in v.names && v.names[key] == i && i in v.node && v.node[i].kind == File
    requires w.names == v.names - {key}
    requires forall j {:trigger j in w.node} :: j in w.node <==> j in v.node && (j == i ==> v.node[i].nlinks > 1)
    requires forall j {:trigger w.node[j]} :: j in w.node ==>
      w.node[j].kind == v.node[j].kind && w.node[j].nlinks == v.node[j].nlinks - (if j == i then 1 else 0)
    ensures LinksCounted(w)
  {
    LinkSetDrops(v.names, key, i);
    assert i !in w.node ==> LinkSet(w.names, i) == {};
    forall j | j in w.node && j != ROOT ensures w.node[j].nlinks == |LinkSet(w.names, j)| {
      LinkSetDrops(v.names, key, j);
    }
    forall x | x in w.names ensures w.names[x] in w.node && w.names[x] != ROOT {
      assert x in v.names;
      assert w.names[x] == i ==> x in LinkSet(w.names, i);
    }
  }

  lemma UnlinkedCounts(v: Volume, i: int, freemap': seq<bool>, dir: int, name: Name, data': map<int, Block>)
    requires NodesOk(v) && LinksCounted(v) && i in v.node && IsDir(v, dir) && dir != i && v.node[dir].size > 0
    requires |freemap'| == NBLOCKS
    ensures NodeOk(v.node[dir])
    ensures var w := Unlinked(v, i, freemap', dir, name, data');
            && w.names == v.names - {Key(dir, name)}
            && (forall j {:trigger j in w.node} :: j in w.node <==> j in v.node && (j == i ==> v.node[i].nlinks > 1))
            && (forall j {:trigger w.node[j]} :: j in w.node ==>
                  w.node[j].kind == v.node[j].kind && w.node[j].nlinks == v.node[j].nlinks - (if j == i then 1 else 0))
  {
    assert v.node[i].nlinks >= 1 && NodeOk(v.node[dir]);
    hide LinksCounted, NodesOk, NodeOk, Shortened;
    ShortenedNode(Released(v, i, freemap'), dir, name, data');
  }

  lemma UnlinkedLinks(v: Volume, i: int, freemap': seq<bool>, dir: int, name: Name, data': map<int, Block>)
    requires NodesOk(v) && LinksCounted(v)
    requires i in v.node && v.node[i].kind == File && IsDir(v, dir) && v.node[dir].size > 0
    requires |freemap'| == NBLOCKS
    requires Key(dir, name) in v.names && v.names[Key(dir, name)] == i
    ensures LinksCounted(Unlinked(v, i, freemap', dir, name, data'))
  {
    UnlinkedCounts(v, i, freemap', dir, name, data');
    hide LinksCounted, NodesOk, NodeOk, Unlinked;
    OneLinkLess(v, Unlinked(v, i, freemap', dir, name, data'), i, Key(dir, name));
  }

  /** Unlinking keeps the volume invariant, removes exactly one name, and leaks
      exactly the blocks that a final unlink did not find in the disk inode. */
  lemma UnlinkedOk(v: Volume, i: int, freemap': seq<bool>, listed: int,
                   dir: int, k: int, name: Name, data': map<int, Block>)
    requires VolumeOk(v) && CanUnlink(v, i, freemap', listed, dir, k, name, data')
    ensures dir != i
    ensures VolumeOk(Unlinked(v, i, freemap', dir, name, data'))
    ensures Unlinked(v, i, freemap', dir, name, data').names == v.names - {Key(dir, name)}
    ensures Leaked(Unlinked(v, i, freemap', dir, name, data')) == Leaked(v) +
            if v.node[i].nlinks == 1 then Addrs(v.node[i], listed, v.node[i].blocks) else {}
  {
    hide BlocksOwned, NamesStored, LinksCounted, Leaked, CompactedTo, Freed, Shortened, Listing, NodesOk, NodeOk;
    UnlinkFinds(v, i, freemap', listed, dir, k, name, data');
    ReleasedStored(v, i, freemap', listed);
    UnlinkedLinks(v, i, freemap', dir, name, data');
    var w := Released(v, i, freemap');
    assert w.data == v.data && IsDir(w, dir) && w.node[dir] == v.node[dir] && w.names == v.names;
    hide Released;
    UnlinkedStored(w, dir, k, name, data');
    ShortenedNode(w, dir, name, data');
    ReleasedFreemap(v, i, freemap');
  }

  lemma ReleasedFreemap(v: Volume, i: int, freemap': seq<bool>)
    requires i in v.node && |v.freemap| == |freemap'| == NBLOCKS
    ensures |Released(v, i, freemap').freemap| == NBLOCKS
  {
  }

  // The entry is the file's, by the name index too.
  lemma UnlinkFinds(v: Volume, i: int, freemap': seq<bool>, listed: int, dir: int, k: int, name: Name,
                    data': map<int, Block>)
    requires VolumeOk(v) && CanUnlink(v, i, freemap', listed, dir, k, name, data')
    ensures NodesOk(v) && BlocksOwned(v) && NamesStored(v) && LinksCounted(v) && dir != i && i != ROOT
    ensures Key(dir, name) in v.names && v.names[Key(dir, name)] == i
    ensures NodeOk(v.node[dir]) && v.node[dir].size > 0 && |v.freemap| == |freemap'| == NBLOCKS
  {
    hide BlocksOwned, Listing, CompactedTo;
    assert Spells(Listing(v.node[dir], v.data), v.names, dir);
    assert NodeOk(v.node[dir]);
  }

  // ---------------------------------------------------------------------
  // Writing to a file (rfs_write)
  // ---------------------------------------------------------------------

  lemma FileInVolume(v: Volume, i: int)
    requires NodesOk(v) && BlocksOwned(v) && i in v.node
    ensures RfsFile.FileOk(v.node[i], v.freemap)
  {
    var n := v.node[i];
    forall x, y | 0 <= x < y < n.blocks ensures n.addrs[x] != n.addrs[y] {
      assert v.owner[v.node[i].addrs[x]] == Place(i, x) && v.owner[v.node[i].addrs[y]] == Place(i, y);
    }
    forall x | 0 <= x < n.blocks ensures v.freemap[n.addrs[x] - OFFSET_FREE] {
      assert v.node[i].addrs[x] in v.owner;
    }
  }

  ghost function NewOwners(i: int, from: int, news: seq<int>): (m: map<int, Place>)
    requires forall x, y {:trigger news[x], news[y]} :: 0 <= x < y < |news| ==> news[x] != news[y]
    ensures forall a {:trigger a in m} :: a in m <==> a in news
    ensures forall x {:trigger news[x]} :: 0 <= x < |news| ==> news[x] in m && m[news[x]] == Place(i, from + x)
  {
    map x | 0 <= x < |news| :: news[x] := Place(i, from + x)
  }

  // What a write leaves: a file that may have taken the free blocks `news`, and new
  // contents in the file's own blocks only.
  ghost predicate CanWrite(v: Volume, i: int, n': Node, news: seq<int>, data': map<int, Block>) {
    && NodesOk(v) && i in v.node && v.node[i].kind == File
    && v.node[i].blocks + |news| <= DIRECT && RfsFile.WereFree(v.freemap, news)
    && NodeOk(n') && n' == RfsFile.Extended(v.node[i], news).(size := n'.size)
    && data'.Keys == v.data.Keys
    && forall a {:trigger data'[a]} :: a in v.data && a !in RfsFile.BlockSet(n') ==> data'[a] == v.data[a]
  }

  ghost function Rewritten(v: Volume, i: int, n': Node, news: seq<int>, data': map<int, Block>): Volume
    requires CanWrite(v, i, n', news, data')
  {
    v.(node := v.node[i := n'],
       data := data',
       freemap := RfsFile.Taken(v.freemap, news),
       owner := v.owner + NewOwners(i, v.node[i].blocks, news))
  }

  lemma NewsNotOwned(v: Volume, news: seq<int>)
    requires NodesOk(v) && BlocksOwned(v) && RfsFile.WereFree(v.freemap, news)
    ensures forall x {:trigger news[x]} :: 0 <= x < |news| ==> news[x] !in v.owner
    ensures forall a {:trigger a in news} :: a in news ==> a !in v.owner && IsData(a)
  {
  }

  lemma RewrittenAddrs(v: Volume, i: int, n': Node, news: seq<int>, data': map<int, Block>)
    requires CanWrite(v, i, n', news, data')
    ensures n'.blocks == v.node[i].blocks + |news|
    ensures forall j {:trigger n'.addrs[j]} :: 0 <= j < n'.blocks ==>
      n'.addrs[j] == if j < v.node[i].blocks then v.node[i].addrs[j] else news[j - v.node[i].blocks]
  {
    forall j | 0 <= j < n'.blocks
      ensures n'.addrs[j] == if j < v.node[i].blocks then v.node[i].addrs[j] else news[j - v.node[i].blocks]
    {
      RfsFile.ExtendedAddrs(v.node[i], news, j);
    }
  }

  // Block x of the new ones, and a block that had an owner.
  lemma NewBlock(v: Volume, i: int, n': Node, news: seq<int>, data': map<int, Block>, x: int)
    requires CanWrite(v, i, n', news, data') && 0 <= x < |news| && IsData(news[x])
    ensures var w := Rewritten(v, i, n', news, data');
            && news[x] in w.owner && w.owner[news[x]] == Place(i, v.node[i].blocks + x)
            && |w.freemap| == NBLOCKS && w.freemap[news[x] - OFFSET_FREE]
  {
    hide NodeOk, RfsFile.Extended;
    assert OFFSET_FREE + (news[x] - OFFSET_FREE) in news;
  }

  lemma OldBlock(v: Volume, i: int, n': Node, news: seq<int>, data': map<int, Block>, a: int)
    requires CanWrite(v, i, n', news, data') && a in v.owner && a !in news && IsData(a)
    requires |v.freemap| == NBLOCKS && v.freemap[a - OFFSET_FREE]
    ensures var w := Rewritten(v, i, n', news, data');
            && a in w.owner && w.owner[a] == v.owner[a] && |w.freemap| == NBLOCKS && w.freemap[a - OFFSET_FREE]
  {
    hide NodeOk, RfsFile.Extended;
  }

  lemma OwnedBlock(v: Volume, a: int)
    requires NodesOk(v) && BlocksOwned(v) && a in v.owner
    ensures IsData(a) && |v.freemap| == NBLOCKS && v.freemap[a - OFFSET_FREE] && Owns(v.node, v.owner[a], a)
  {
    hide NodeOk;
  }

  lemma BlockOwner(v: Volume, d: int, j: int)
    requires NodesOk(v) && BlocksOwned(v) && d in v.node && 0 <= j < v.node[d].blocks
    ensures j < |v.node[d].addrs| && v.node[d].addrs[j] in v.owner && v.owner[v.node[d].addrs[j]] == Place(d, j)
  {
    Addressed(v);
    hide NodesOk, NodeOk;
    assert v.owner[v.node[d].addrs[j]] == Place(d, j);
  }

  // The node that a write leaves, and its address j.
  lemma RewrittenNode(v: Volume, i: int, n': Node, news: seq<int>, data': map<int, Block>)
    requires CanWrite(v, i, n', news, data')
    ensures NodesOk(v) && i in v.node && Rewritten(v, i, n', news, data').node == v.node[i := n']
    ensures |v.node[i].addrs| == |n'.addrs| == DIRECT
    ensures 1 <= v.node[i].blocks <= n'.blocks == v.node[i].blocks + |news| <= DIRECT
  {
    RewrittenAddrs(v, i, n', news, data');
    Addressed(v);
    hide NodesOk;
  }

  lemma AddressOf(v: Volume, i: int, n': Node, news: seq<int>, data': map<int, Block>, j: int)
    requires CanWrite(v, i, n', news, data') && i in v.node && 0 <= j < n'.blocks <= |n'.addrs|
    ensures 0 <= v.node[i].blocks <= |v.node[i].addrs| && n'.blocks == v.node[i].blocks + |news|
    ensures n'.addrs[j] == if j < v.node[i].blocks then v.node[i].addrs[j] else news[j - v.node[i].blocks]
  {
    RewrittenNode(v, i, n', news, data');
    RewrittenAddrs(v, i, n', news, data');
    hide CanWrite;
  }

  lemma NewOrOld(v: Volume, i: int, n': Node, news: seq<int>, data': map<int, Block>, a: int)
    requires CanWrite(v, i, n', news, data') && BlocksOwned(v)
    ensures a in Rewritten(v, i, n', news, data').owner ==> a in v.owner || a in news
    ensures a in news ==> a !in v.owner && IsData(a)
  {
    NewsNotOwned(v, news);
    hide NodesOk, NodeOk, BlocksOwned, RfsFile.WereFree, RfsFile.Extended;
  }

  lemma RewrittenPlaces(v: Volume, i: int, n': Node, news: seq<int>, data': map<int, Block>, d: int, j: int)
    requires CanWrite(v, i, n', news, data') && BlocksOwned(v)
    requires var w := Rewritten(v, i, n', news, data'); d in w.node && 0 <= j < w.node[d].blocks
    ensures var w := Rewritten(v, i, n', news, data');
            |w.node[d].addrs| == DIRECT && w.node[d].blocks <= DIRECT &&
            w.node[d].addrs[j] in w.owner && w.owner[w.node[d].addrs[j]] == Place(d, j)
  {
    hide CanWrite, Rewritten, BlocksOwned, NodesOk;
    RewrittenNode(v, i, n', news, data');
    if d == i && j >= v.node[i].blocks {
      var x := j - v.node[i].blocks;
      AddressOf(v, i, n', news, data', j);
      NewOrOld(v, i, n', news, data', news[x]);
      NewBlock(v, i, n', news, data', x);
    } else {
      if d == i { AddressOf(v, i, n', news, data', j); }
      BlockOwner(v, d, j);
      var a := v.node[d].addrs[j];
      OwnedBlock(v, a);
      NewOrOld(v, i, n', news, data', a);
      OldBlock(v, i, n', news, data', a);
      DirectBlocks(v, d);
    }
  }

  lemma DirectBlocks(v: Volume, d: int)
    requires NodesOk(v) && d in v.node
    ensures |v.node[d].addrs| == DIRECT && v.node[d].blocks <= DIRECT
  {
    Addressed(v);
    hide NodesOk;
  }

  lemma RewrittenOwns(v: Volume, i: int, n': Node, news: seq<int>, data': map<int, Block>, a: int)
    requires CanWrite(v, i, n', news, data') && BlocksOwned(v)
    requires a in Rewritten(v, i, n', news, data').owner
    ensures var w := Rewritten(v, i, n', news, data');
            IsData(a) && |w.freemap| == NBLOCKS && w.freemap[a - OFFSET_FREE] && Owns(w.node, w.owner[a], a)
  {
    hide CanWrite, Rewritten, BlocksOwned, NodesOk;
    NewOrOld(v, i, n', news, data', a);
    RewrittenNode(v, i, n', news, data');
    if a in news {
      var x :| 0 <= x < |news| && news[x] == a;
      NewBlock(v, i, n', news, data', x);
      AddressOf(v, i, n', news, data', v.node[i].blocks + x);
    } else {
      var p := v.owner[a];
      OwnedBlock(v, a);
      OldBlock(v, i, n', news, data', a);
      if p.inum == i { AddressOf(v, i, n', news, data', p.idx); }
    }
  }

  lemma RewrittenOwned(v: Volume, i: int, n': Node, news: seq<int>, data': map<int, Block>)
    requires CanWrite(v, i, n', news, data') && BlocksOwned(v)
    ensures NodesOk(Rewritten(v, i, n', news, data')) && BlocksOwned(Rewritten(v, i, n', news, data'))
  {
    var w := Rewritten(v, i, n', news, data');
    assert forall a {:trigger a in data'} :: a in v.data ==> a in data';
    assert NodesOk(w);
    forall d, j | d in w.node && 0 <= j < w.node[d].blocks
      ensures w.node[d].addrs[j] in w.owner && w.owner[w.node[d].addrs[j]] == Place(d, j)
    {
      RewrittenPlaces(v, i, n', news, data', d, j);
    }
    forall a | a in w.owner ensures IsData(a) && w.freemap[a - OFFSET_FREE] && Owns(w.node, w.owner[a], a) {
      RewrittenOwns(v, i, n', news, data', a);
    }
  }

  lemma RewrittenLeaks(v: Volume, i: int, n': Node, news: seq<int>, data': map<int, Block>)
    requires CanWrite(v, i, n', news, data') && BlocksOwned(v)
    requires NodesOk(Rewritten(v, i, n', news, data'))
    ensures Leaked(Rewritten(v, i, n', news, data')) == Leaked(v)
  {
    NewsNotOwned(v, news);
    hide BlocksOwned;
  }

  // Blocks of other inodes keep their contents.
  lemma RewrittenElsewhere(v: Volume, i: int, n': Node, news: seq<int>, data': map<int, Block>, d: int)
    requires CanWrite(v, i, n', news, data') && BlocksOwned(v)
    requires d in v.node && d != i
    ensures forall j {:trigger v.node[d].addrs[j]} :: 0 <= j < v.node[d].blocks ==>
      data'[v.node[d].addrs[j]] == v.data[v.node[d].addrs[j]]
    ensures Blocks(data') && Listing(v.node[d], data') == Listing(v.node[d], v.data)
    ensures RfsFile.Content(v.node[d], data') == RfsFile.Content(v.node[d], v.data)
  {
    var n := v.node[i];
    NewsNotOwned(v, news);
    assert forall a {:trigger a in data'} :: a in v.data ==> a in data';
    forall j | 0 <= j < v.node[d].blocks ensures data'[v.node[d].addrs[j]] == v.data[v.node[d].addrs[j]] {
      var a := v.node[d].addrs[j];
      assert v.owner[v.node[d].addrs[j]] == Place(d, j);
      forall x | 0 <= x < n'.blocks ensures n'.addrs[x] != a {
        if x < n.blocks {
          assert n'.addrs[x] == n.addrs[x];
          assert v.owner[v.node[i].addrs[x]] == Place(i, x);
        } else {
          assert n'.addrs[x] == news[x - n.blocks];
        }
      }
      assert a !in RfsFile.BlockSet(n');
    }
    SameBlocksSameListing(v.node[d], v.data, data');
    SameBlocksSameFlat(v.node[d], v.data, data');
  }

  lemma SameBlocksSameFlat(n: Node, data: map<int, Block>, data': map<int, Block>)
    requires NodeOk(n) && Blocks(data) && Blocks(data')
    requires forall j {:trigger n.addrs[j]} :: 0 <= j < n.blocks ==> data'[n.addrs[j]] == data[n.addrs[j]]
    ensures RfsFile.Flat(n, data') == RfsFile.Flat(n, data)
  {
    forall p | 0 <= p < n.blocks * BLKSIZE ensures RfsFile.Flat(n, data')[p] == RfsFile.Flat(n, data)[p] {
      assert data'[n.addrs[p / BLKSIZE]] == data[n.addrs[p / BLKSIZE]];
    }
  }

  lemma RewrittenNames(v: Volume, i: int, n': Node, news: seq<int>, data': map<int, Block>)
    requires CanWrite(v, i, n', news, data') && BlocksOwned(v) && NamesStored(v)
    requires NodesOk(Rewritten(v, i, n', news, data'))
    ensures NamesStored(Rewritten(v, i, n', news, data'))
  {
    var w := Rewritten(v, i, n', news, data');
    hide BlocksOwned, Spells;
    forall d | IsDir(w, d) ensures Spells(Listing(w.node[d], w.data), w.names, d) {
      assert IsDir(v, d) && d != i;
      RewrittenElsewhere(v, i, n', news, data', d);
    }
    forall key | key in w.names ensures IsDir(w, key.dir) {
      assert IsDir(v, key.dir);
    }
  }

  /** A write keeps the volume invariant, changes no name and leaks no block. */
  lemma RewrittenOk(v: Volume, i: int, n': Node, news: seq<int>, data': map<int, Block>)
    requires VolumeOk(v) && CanWrite(v, i, n', news, data')
    ensures VolumeOk(Rewritten(v, i, n', news, data'))
    ensures Leaked(Rewritten(v, i, n', news, data')) == Leaked(v)
  {
    var w := Rewritten(v, i, n', news, data');
    RewrittenOwned(v, i, n', news, data');
    RewrittenLeaks(v, i, n', news, data');
    RewrittenNames(v, i, n', news, data');
    hide BlocksOwned, NamesStored, Leaked;
    assert n'.nlinks == v.node[i].nlinks && n'.kind == v.node[i].kind;
  }

  // ---------------------------------------------------------------------
  // The bytes of inodes
  // ---------------------------------------------------------------------

  // Inode i has the same bytes in v and in w.
  ghost predicate SameContent(v: Volume, w: Volume, i: int)
    requires i in v.node && i in w.node
  {
    && NodeOk(v.node[i]) && NodeOk(w.node[i]) && Blocks(v.data) && Blocks(w.data)
    && RfsFile.Content(w.node[i], w.data) == RfsFile.Content(v.node[i], v.data)
  }

  // Every inode that is still there has the same bytes, but for the directory dir.
  ghost predicate ContentsKept(v: Volume, w: Volume, dir: int) {
    forall i {:trigger w.node[i]} :: i in v.node && i in w.node && i != dir ==> SameContent(v, w, i)
  }

  predicate SameFile(n: Node, n': Node) { n'.addrs == n.addrs && n'.blocks == n.blocks && n'.size == n.size }

  // No block but the directory's changed, and no inode's list of blocks.
  ghost predicate OnlyBlocksOf(v: Volume, w: Volume, dir: int) {
    && dir in v.node && 0 <= v.node[dir].blocks <= |v.node[dir].addrs|
    && (forall a {:trigger w.data[a]} :: a in v.data && a !in v.node[dir].addrs[..v.node[dir].blocks] ==>
          a in w.data && w.data[a] == v.data[a])
    && (forall i {:trigger w.node[i]} :: i in v.node && i in w.node && i != dir ==> SameFile(v.node[i], w.node[i]))
  }

  lemma ContentElsewhere(v: Volume, w: Volume, dir: int, i: int)
    requires NodesOk(v) && BlocksOwned(v) && NodesOk(w) && OnlyBlocksOf(v, w, dir)
    requires i in v.node && i in w.node && i != dir
    ensures SameContent(v, w, i)
  {
    var n, dn := v.node[i], v.node[dir];
    assert NodeOk(n) && NodeOk(w.node[i]) && SameFile(n, w.node[i]);
    forall j | 0 <= j < n.blocks ensures w.data[n.addrs[j]] == v.data[n.addrs[j]] {
      assert v.owner[v.node[i].addrs[j]] == Place(i, j);
      forall x | 0 <= x < dn.blocks ensures dn.addrs[x] != n.addrs[j] {
        assert v.owner[v.node[dir].addrs[x]] == Place(dir, x);
      }
      assert IsData(n.addrs[j]) && n.addrs[j] in v.data;
    }
    hide BlocksOwned, NodesOk, OnlyBlocksOf;
    SameBlocksSameFlat(n, v.data, w.data);
    assert RfsFile.Flat(w.node[i], w.data) == RfsFile.Flat(n, w.data);
  }

  lemma ContentsElsewhere(v: Volume, w: Volume, dir: int)
    requires NodesOk(v) && BlocksOwned(v) && NodesOk(w) && OnlyBlocksOf(v, w, dir)
    ensures ContentsKept(v, w, dir)
  {
    hide NodesOk, BlocksOwned, OnlyBlocksOf, SameContent;
    forall i | i in v.node && i in w.node && i != dir ensures SameContent(v, w, i) {
      ContentElsewhere(v, w, dir, i);
    }
  }

  // ---------------------------------------------------------------------
  // The free-inode search always succeeds
  // ---------------------------------------------------------------------

  // Distinct numbers out of a range of n are at most n many.
  lemma {:induction false} DistinctInRange(q: seq<int>, lo: int, n: nat)
    requires forall x {:trigger q[x]} :: 0 <= x < |q| ==> lo <= q[x] < lo + n
    requires forall x, y {:trigger q[x], q[y]} :: 0 <= x < y < |q| ==> q[x] != q[y]
    ensures |q| <= n
    decreases n
  {
    if q != [] {
      assert lo <= q[0] < lo + n;
      if top :| 0 <= top < |q| && q[top] == lo + n - 1 {
        var rest := q[..top] + q[top + 1..];
        forall x | 0 <= x < |rest| ensures lo <= rest[x] < lo + n - 1 {
          var from := if x < top then x else x + 1;
          assert rest[x] == q[from];
          assert from < top ==> q[from] != q[top];
          assert top < from ==> q[top] != q[from];
        }
        assert forall x {:trigger rest[x]} :: 0 <= x < |rest| ==> rest[x] == q[if x < top then x else x + 1];
        DistinctInRange(rest, lo, n - 1);
      } else {
        assert forall x {:trigger q[x]} :: 0 <= x < |q| ==> q[x] < lo + n - 1;
        DistinctInRange(q, lo, n - 1);
      }
    }
  }

  // The live inodes below m, in order.
  function Live(node: map<int, Node>, m: nat): (q: seq<int>)
    ensures forall x {:trigger q[x]} :: 0 <= x < |q| ==> 0 <= q[x] < m && q[x] in node
    ensures forall x, y {:trigger q[x], q[y]} :: 0 <= x < y < |q| ==> q[x] < q[y]
  {
    if m == 0 then [] else Live(node, m - 1) + (if m - 1 in node then [m - 1] else [])
  }

  lemma {:induction false} LiveHas(node: map<int, Node>, m: nat, i: int)
    requires 0 <= i < m && i in node
    ensures i in Live(node, m)
  {
    if i < m - 1 { LiveHas(node, m - 1, i); }
  }

  ghost function FirstBlocks(v: Volume, live: seq<int>): (q: seq<int>)
    requires NodesOk(v) && forall x {:trigger live[x]} :: 0 <= x < |live| ==> live[x] in v.node
    ensures |q| == |live|
    ensures forall x {:trigger q[x]} :: 0 <= x < |q| ==> q[x] == FirstBlock(v, live[x])
  {
    seq(|live|, x requires 0 <= x < |live| => FirstBlock(v, live[x]))
  }

  ghost function FirstBlock(v: Volume, i: int): int
    requires NodesOk(v) && i in v.node
  {
    assert NodeOk(v.node[i]);
    v.node[i].addrs[0]
  }

  lemma LiveHasAll(v: Volume)
    requires NodesOk(v)
    ensures |v.node.Keys| <= |Live(v.node, NINODES)|
  {
    var live := Live(v.node, NINODES);
    forall i | i in v.node ensures i in live {
      assert v.node[i] == v.node[i];
      LiveHas(v.node, NINODES, i);
    }
    FewerThan(v.node.Keys, live);
  }

  lemma {:induction false} FewerThan<T>(s: set<T>, q: seq<T>)
    requires forall x {:trigger x in s} :: x in s ==> x in q
    ensures |s| <= |q|
  {
    if s != {} {
      var x :| x in s;
      assert x in q;
      FewerThan(s - {q[0]}, q[1..]);
    }
  }

  /** Each live inode owns a block of its own, so there are never more live inodes
      than data blocks ... */
  lemma LiveInodesFitBlocks(v: Volume)
    requires NodesOk(v) && BlocksOwned(v)
    ensures |v.node.Keys| <= |Live(v.node, NINODES)| <= NBLOCKS
  {
    LiveHasAll(v);
    var live := Live(v.node, NINODES);
    var q := FirstBlocks(v, live);
    forall x, y | 0 <= x < y < |q| ensures q[x] != q[y] {
      assert live[x] < live[y];
      assert v.owner[v.node[live[x]].addrs[0]] == Place(live[x], 0);
      assert v.owner[v.node[live[y]].addrs[0]] == Place(live[y], 0);
    }
    forall x | 0 <= x < |q| ensures OFFSET_FREE <= q[x] < OFFSET_FREE + NBLOCKS {
      assert NodeOk(v.node[live[x]]) && IsData(v.node[live[x]].addrs[0]);
    }
    DistinctInRange(q, OFFSET_FREE, NBLOCKS);
  }

  lemma {:induction false} AllLive(node: map<int, Node>, m: nat)
    requires forall i {:trigger i in node} :: 0 <= i < m ==> i in node
    ensures |Live(node, m)| == m
  {
    if m > 0 { AllLive(node, m - 1); }
  }

  /** ... and, as there are more inodes than blocks, some inode is always free. */
  lemma SomeInodeFree(v: Volume)
    requires NodesOk(v) && BlocksOwned(v)
    ensures exists i {:trigger i in v.node} :: 0 <= i < NINODES && i !in v.node
  {
    LiveInodesFitBlocks(v);
    if forall i {:trigger i in v.node} :: 0 <= i < NINODES ==> i in v.node {
      AllLive(v.node, NINODES);
      assert false;
    }
  }
}
