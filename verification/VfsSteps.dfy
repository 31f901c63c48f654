/**
 The single changes that the VFS makes to its caches, and what each one keeps.
 */
module VfsSteps {
  import opened Base
  import opened RfsLayout
  import opened RfsVolume
  import opened VfsState

  // ---------------------------------------------------------------------
  // Changing the volume under an unchanged set of dentries
  // ---------------------------------------------------------------------

  // The same cached objects; the vinodes may hold other node contents.
  predicate SameShape(c: Cache, c': Cache) {
    && c'.dents == c.dents && c'.dhash == c.dhash && c'.root == c.root
    && c'.dirOf == c.dirOf && c'.files == c.files
    && c'.vinodes.Keys == c.vinodes.Keys
    && forall p {:trigger c'.vinodes[p]} :: p in c.vinodes ==>
         c'.vinodes[p].inum == c.vinodes[p].inum && c'.vinodes[p].ref == c.vinodes[p].ref
  }

  lemma DentsFrame(c: Cache, v: Volume, c': Cache, v': Volume)
    requires DentsOk(c, v) && SameShape(c, c')
    requires forall d {:trigger Anchored(c, v, d)} :: Points(c, d) && d != c.root && Anchored(c, v, d) ==>
      var k := Key(Inum(c, c.dents[d].parent), c.dents[d].name); k in v'.names && v'.names[k] == v.names[k]
    requires forall d {:trigger d in c.dents} :: d in c.dents && Points(c, d) ==>
      (IsDir(v', Inum(c, d)) <==> IsDir(v, Inum(c, d)))
    ensures DentsOk(c', v')
  {
    forall d | d in c'.dents ensures Points(c', d) && Inum(c', d) == Inum(c, d) {}
    forall d | d in c'.dents && d != c'.root ensures Anchored(c', v', d) {
      assert Anchored(c, v, d);
    }
  }

  // A dentry of the smaller cache c' is the same one in c, and so are its parent and its hash entry.
  ghost predicate StillThere(c: Cache, c': Cache, d: Ptr) {
    && Points(c, d) && Points(c', d) && Inum(c', d) == Inum(c, d)
    && c'.dents[d].parent == c.dents[d].parent && c'.dents[d].name == c.dents[d].name
    && (d != c.root ==>
          c.dents[d].parent in c'.dents && DKey(c.dents[d].parent, c.dents[d].name) in c'.dhash)
  }

  ghost predicate StillHashed(c: Cache, c': Cache, k: DKey) {
    k in c.dhash && k in c'.dhash && c'.dhash[k] == c.dhash[k] && c.dhash[k] in c'.dents
  }

  lemma AnchorWithin(c: Cache, c': Cache, v: Volume, d: Ptr)
    requires Points(c, d) && d != c.root && Anchored(c, v, d) && StillThere(c, c', d)
    requires StillThere(c, c', c.dents[d].parent) && StillHashed(c, c', DKey(c.dents[d].parent, c.dents[d].name))
    ensures Anchored(c', v, d)
  {
  }

  lemma DentsWithin(c: Cache, c': Cache, v: Volume)
    requires DentsOk(c, v) && c'.root == c.root && c'.dirOf == c.dirOf && c.root in c'.dents
    requires forall d {:trigger d in c'.dents} :: d in c'.dents ==> StillThere(c, c', d)
    requires forall k {:trigger k in c'.dhash} :: k in c'.dhash ==> StillHashed(c, c', k)
    ensures DentsOk(c', v)
  {
    hide Anchored;
    forall d | d in c'.dents && d != c'.root ensures Points(c', d) && Anchored(c', v, d) {
      assert StillThere(c, c', d) && d in c.dents;
      AnchorWithin(c, c', v, d);
    }
  }

  lemma HashedTo(c: Cache, v: Volume, k: DKey)
    requires DentsOk(c, v) && k in c.dhash
    ensures c.dhash[k] in c.dents
  {
  }

  lemma RootThere(c: Cache, v: Volume)
    requires DentsOk(c, v)
    ensures c.root in c.dents
  {
  }

  lemma RefsFrame(c: Cache, c': Cache)
    requires RefsOk(c) && SameShape(c, c')
    ensures RefsOk(c')
  {
  }

  // ---------------------------------------------------------------------
  // Counting
  // ---------------------------------------------------------------------

  lemma DentsOfAdds(dents: map<Ptr, Dentry>, d: Ptr, e: Dentry, p: Ptr)
    requires d !in dents
    ensures |DentsOf(dents[d := e], p)| == |DentsOf(dents, p)| + if e.inode == p then 1 else 0
  {
    if e.inode == p {
      assert DentsOf(dents[d := e], p) == DentsOf(dents, p) + {d};
    } else {
      assert DentsOf(dents[d := e], p) == DentsOf(dents, p);
    }
  }

  lemma DentsOfDrops(dents: map<Ptr, Dentry>, d: Ptr, p: Ptr)
    requires d in dents
    ensures |DentsOf(dents - {d}, p)| == |DentsOf(dents, p)| - if dents[d].inode == p then 1 else 0
  {
    if dents[d].inode == p {
      assert DentsOf(dents - {d}, p) == DentsOf(dents, p) - {d};
    } else {
      assert DentsOf(dents - {d}, p) == DentsOf(dents, p);
    }
  }

  lemma DentsOfTouch(dents: map<Ptr, Dentry>, d: Ptr, dref: int, p: Ptr)
    requires d in dents
    ensures DentsOf(dents[d := dents[d].(dref := dref)], p) == DentsOf(dents, p)
  {
  }

  lemma FilesOfAdds(files: map<Fd, OpenFile>, f: Fd, o: OpenFile, d: Ptr)
    requires f !in files
    ensures |FilesOf(files[f := o], d)| == |FilesOf(files, d)| + if o.dentry == d then 1 else 0
  {
    if o.dentry == d {
      assert FilesOf(files[f := o], d) == FilesOf(files, d) + {f};
    } else {
      assert FilesOf(files[f := o], d) == FilesOf(files, d);
    }
  }

  lemma FilesOfDrops(files: map<Fd, OpenFile>, f: Fd, d: Ptr)
    requires f in files
    ensures |FilesOf(files - {f}, d)| == |FilesOf(files, d)| - if files[f].dentry == d then 1 else 0
  {
    if files[f].dentry == d {
      assert FilesOf(files - {f}, d) == FilesOf(files, d) - {f};
    } else {
      assert FilesOf(files - {f}, d) == FilesOf(files, d);
    }
  }

  lemma OnlyOne(s: set<Key>, a: Key, b: Key)
    requires |s| == 1 && a in s && b in s
    ensures a == b
  {
    assert |s - {a}| == 0;
  }

  // ---------------------------------------------------------------------
  // A vinode enters the cache (read from disk by rfs_lookup)
  // ---------------------------------------------------------------------

  function WithVinode(c: Cache, p: Ptr, vi: Vinode): Cache {
    c.(vinodes := c.vinodes[p := vi], vhash := c.vhash[vi.inum := p])
  }

  lemma NodeInRange(v: Volume, i: int)
    requires VolumeOk(v) && i in v.node
    ensures 0 <= i < NINODES && NodeOk(v.node[i]) && v.node[i].kind != Free
  {
  }

  lemma WithVinodeInodes(s: State, p: Ptr, i: int)
    requires InodesOk(s.dino, s.c.vinodes, s.c.vhash, s.v.node)
    requires p != NULL && p !in s.c.vinodes && i in s.v.node && 0 <= i < NINODES && i !in s.c.vhash
    ensures s.dino[i] == s.v.node[i]
    ensures var c' := WithVinode(s.c, p, Vinode(i, 0, s.v.node[i]));
            InodesOk(s.dino, c'.vinodes, c'.vhash, s.v.node)
  {
  }

  lemma WithVinodeCache(c: Cache, v: Volume, p: Ptr, vi: Vinode)
    requires CacheOk(c, v) && p !in c.vinodes && vi.ref == 0
    ensures CacheOk(WithVinode(c, p, vi), v)
  {
    hide DentsOk, RefsOk, Inum;
    var c' := WithVinode(c, p, vi);
    WithVinodeDents(c, v, p, vi);
    WithVinodeRefs(c, v, p, vi);
    forall f | f in c.files && Points(c', c'.files[f].dentry)
      ensures Points(c, c.files[f].dentry) && Inum(c', c.files[f].dentry) == Inum(c, c.files[f].dentry)
    {
      InumSame(c, v, p, vi, c.files[f].dentry);
    }
  }

  lemma InumSame(c: Cache, v: Volume, p: Ptr, vi: Vinode, d: Ptr)
    requires DentsOk(c, v) && p !in c.vinodes && d in c.dents
    ensures Points(c, d) && c.dents[d].inode != p
    ensures Points(WithVinode(c, p, vi), d) && Inum(WithVinode(c, p, vi), d) == Inum(c, d)
  {
  }

  lemma WithVinodeRefs(c: Cache, v: Volume, p: Ptr, vi: Vinode)
    requires DentsOk(c, v) && RefsOk(c) && p !in c.vinodes && vi.ref == 0
    ensures RefsOk(WithVinode(c, p, vi))
  {
    hide DentsOk, Inum;
    forall d | d in c.dents ensures c.dents[d].inode != p { InumSame(c, v, p, vi, d); }
    assert DentsOf(c.dents, p) == {};
  }

  lemma WithVinodeDents(c: Cache, v: Volume, p: Ptr, vi: Vinode)
    requires DentsOk(c, v) && p !in c.vinodes
    ensures DentsOk(WithVinode(c, p, vi), v)
  {
    hide Anchored, AllAnchored, HashSound, OneDentryPerDir, RootCached;
    var c' := WithVinode(c, p, vi);
    forall o | o in c'.dents ensures StillThere(c, c', o) { WithVinodeStill(c, v, p, vi, o); }
    forall k | k in c'.dhash ensures StillHashed(c, c', k) { HashedTo(c, v, k); }
    RootThere(c, v);
    DentsWithin(c, c', v);
  }

  lemma WithVinodeStill(c: Cache, v: Volume, p: Ptr, vi: Vinode, o: Ptr)
    requires DentsOk(c, v) && p !in c.vinodes && o in c.dents
    ensures StillThere(c, WithVinode(c, p, vi), o)
  {
    hide HashSound, OneDentryPerDir, RootCached;
    if o != c.root { assert Anchored(c, v, o); }
  }

  lemma WithVinodeOk(s: State, p: Ptr, i: int)
    requires StateOk(s) && p != NULL && p !in s.c.vinodes && i in s.v.node && i !in s.c.vhash
    ensures 0 <= i < |s.dino| && s.dino[i] == s.v.node[i]
    ensures StateOk(s.(c := WithVinode(s.c, p, Vinode(i, 0, s.v.node[i]))))
  {
    hide VolumeOk, InodesOk, CacheOk;
    NodeInRange(s.v, i);
    WithVinodeInodes(s, p, i);
    WithVinodeCache(s.c, s.v, p, Vinode(i, 0, s.v.node[i]));
  }

  // ---------------------------------------------------------------------
  // A dentry enters the cache
  // ---------------------------------------------------------------------

  function WithDentry(c: Cache, d: Ptr, e: Dentry, isDir: bool): Cache
    requires e.inode in c.vinodes
  {
    var vi := c.vinodes[e.inode];
    c.(dents := c.dents[d := e],
       dhash := c.dhash[DKey(e.parent, e.name) := d],
       vinodes := c.vinodes[e.inode := vi.(ref := vi.ref + 1)],
       dirOf := if isDir then c.dirOf[vi.inum := d] else c.dirOf)
  }

  // What a lookup knows when it caches a new dentry.
  ghost predicate CanCache(c: Cache, v: Volume, d: Ptr, e: Dentry) {
    && d != NULL && d !in c.dents && e.inode in c.vinodes && e.dref == 0
    && Points(c, e.parent) && IsDir(v, Inum(c, e.parent))
    && DKey(e.parent, e.name) !in c.dhash
    && Key(Inum(c, e.parent), e.name) in v.names
    && v.names[Key(Inum(c, e.parent), e.name)] == c.vinodes[e.inode].inum
  }

  /** A directory has one name, so its cached dentry is the one under that name. */
  lemma OneDentryPerDirectory(c: Cache, v: Volume, parent: Ptr, name: Name, other: Ptr)
    requires VolumeOk(v) && DentsOk(c, v) && other in c.dents
    requires Points(c, parent) && IsDir(v, Inum(c, parent)) && Key(Inum(c, parent), name) in v.names
    requires v.names[Key(Inum(c, parent), name)] == Inum(c, other) && IsDir(v, Inum(c, other))
    ensures c.dents[other].parent == parent && c.dents[other].name == name
    ensures DKey(parent, name) in c.dhash
  {
    var i := Inum(c, other);
    var key := Key(Inum(c, parent), name);
    assert key in LinkSet(v.names, i) && i != ROOT;
    assert Anchored(c, v, other);
    var o := c.dents[other];
    var key' := Key(Inum(c, o.parent), o.name);
    assert key' in LinkSet(v.names, i);
    OnlyOne(LinkSet(v.names, i), key, key');
    assert o.parent in c.dents && parent in c.dents;
  }

  lemma DirectoryNotCached(c: Cache, v: Volume, d: Ptr, e: Dentry, other: Ptr)
    requires VolumeOk(v) && DentsOk(c, v) && CanCache(c, v, d, e) && other in c.dents
    requires IsDir(v, c.vinodes[e.inode].inum)
    ensures Inum(c, other) != c.vinodes[e.inode].inum
  {
    if Inum(c, other) == c.vinodes[e.inode].inum {
      OneDentryPerDirectory(c, v, e.parent, e.name, other);
      assert false;
    }
  }

  lemma OldStaysAnchored(c: Cache, v: Volume, d: Ptr, e: Dentry, isDir: bool, o: Ptr)
    requires Points(c, o) && Anchored(c, v, o) && o != d
    requires d !in c.dents && e.inode in c.vinodes && DKey(e.parent, e.name) !in c.dhash
    ensures var c' := WithDentry(c, d, e, isDir); Points(c', o) && Inum(c', o) == Inum(c, o) && Anchored(c', v, o)
  {
  }

  lemma NewIsAnchored(c: Cache, v: Volume, d: Ptr, e: Dentry, isDir: bool)
    requires CanCache(c, v, d, e)
    ensures var c' := WithDentry(c, d, e, isDir);
            Points(c', d) && Inum(c', d) == c.vinodes[e.inode].inum && Anchored(c', v, d)
  {
  }

  lemma NewAllPoint(c: Cache, v: Volume, d: Ptr, e: Dentry, isDir: bool)
    requires AllPoint(c) && CanCache(c, v, d, e)
    ensures AllPoint(WithDentry(c, d, e, isDir))
  {
  }

  lemma NewAllAnchored(c: Cache, v: Volume, d: Ptr, e: Dentry, isDir: bool)
    requires AllPoint(c) && AllAnchored(c, v) && CanCache(c, v, d, e)
    requires AllPoint(WithDentry(c, d, e, isDir))
    ensures AllAnchored(WithDentry(c, d, e, isDir), v)
  {
    var c' := WithDentry(c, d, e, isDir);
    NewIsAnchored(c, v, d, e, isDir);
    forall o | o in c'.dents && o != c'.root ensures Anchored(c', v, o) {
      if o != d { OldStaysAnchored(c, v, d, e, isDir, o); }
    }
  }

  lemma NewHashSound(c: Cache, v: Volume, d: Ptr, e: Dentry, isDir: bool)
    requires RootCached(c) && HashSound(c) && CanCache(c, v, d, e)
    ensures HashSound(WithDentry(c, d, e, isDir)) && RootCached(WithDentry(c, d, e, isDir))
  {
  }

  lemma NewOneDentryPerDir(c: Cache, v: Volume, d: Ptr, e: Dentry)
    requires AllPoint(c) && OneDentryPerDir(c, v) && CanCache(c, v, d, e)
    requires IsDir(v, c.vinodes[e.inode].inum) ==>
      forall o {:trigger o in c.dents} :: o in c.dents ==> Inum(c, o) != c.vinodes[e.inode].inum
    requires AllPoint(WithDentry(c, d, e, IsDir(v, c.vinodes[e.inode].inum)))
    ensures OneDentryPerDir(WithDentry(c, d, e, IsDir(v, c.vinodes[e.inode].inum)), v)
  {
    var c' := WithDentry(c, d, e, IsDir(v, c.vinodes[e.inode].inum));
    forall o | o in c.dents ensures Inum(c', o) == Inum(c, o) {}
  }

  lemma WithNewDentry(c: Cache, v: Volume, d: Ptr, e: Dentry)
    requires DentsOk(c, v) && CanCache(c, v, d, e)
    requires IsDir(v, c.vinodes[e.inode].inum) ==>
      forall o {:trigger o in c.dents} :: o in c.dents ==> Inum(c, o) != c.vinodes[e.inode].inum
    ensures DentsOk(WithDentry(c, d, e, IsDir(v, c.vinodes[e.inode].inum)), v)
  {
    hide AllAnchored, HashSound, OneDentryPerDir, Anchored, RootCached, IsDir;
    var isDir := IsDir(v, c.vinodes[e.inode].inum);
    NewAllPoint(c, v, d, e, isDir);
    NewAllAnchored(c, v, d, e, isDir);
    NewHashSound(c, v, d, e, isDir);
    NewOneDentryPerDir(c, v, d, e);
  }

  lemma WithDentryDents(c: Cache, v: Volume, d: Ptr, e: Dentry)
    requires VolumeOk(v) && DentsOk(c, v) && CanCache(c, v, d, e)
    ensures DentsOk(WithDentry(c, d, e, IsDir(v, c.vinodes[e.inode].inum)), v)
  {
    hide VolumeOk;
    if IsDir(v, c.vinodes[e.inode].inum) {
      forall o | o in c.dents ensures Inum(c, o) != c.vinodes[e.inode].inum {
        DirectoryNotCached(c, v, d, e, o);
      }
    }
    WithNewDentry(c, v, d, e);
  }

  lemma WithDentryCounts(c: Cache, v: Volume, d: Ptr, e: Dentry, isDir: bool)
    requires RefsOk(c) && FilesOk(c) && OffsetsOk(c, v) && DentsOk(c, v) && CanCache(c, v, d, e)
    ensures var c' := WithDentry(c, d, e, isDir); RefsOk(c') && FilesOk(c') && OffsetsOk(c', v)
  {
    hide DentsOk, OffsetsOk;
    var c' := WithDentry(c, d, e, isDir);
    forall p | p in c'.vinodes ensures c'.vinodes[p].ref == |DentsOf(c'.dents, p)| {
      DentsOfAdds(c.dents, d, e, p);
    }
    assert FilesOf(c.files, d) == {};
    WithDentryOffsets(c, v, d, e, isDir);
  }

  lemma WithDentryOffsets(c: Cache, v: Volume, d: Ptr, e: Dentry, isDir: bool)
    requires FilesOk(c) && OffsetsOk(c, v) && DentsOk(c, v) && CanCache(c, v, d, e)
    ensures OffsetsOk(WithDentry(c, d, e, isDir), v)
  {
    hide Anchored, HashSound, OneDentryPerDir;
    forall f | f in c.files ensures c.files[f].dentry != d && Points(c, c.files[f].dentry) {}
  }

  lemma WithDentryInodes(dino: seq<Node>, c: Cache, node: map<int, Node>, d: Ptr, e: Dentry, isDir: bool)
    requires InodesOk(dino, c.vinodes, c.vhash, node) && e.inode in c.vinodes
    ensures var c' := WithDentry(c, d, e, isDir); InodesOk(dino, c'.vinodes, c'.vhash, node)
  {
  }

  lemma WithDentryOk(s: State, d: Ptr, e: Dentry)
    requires StateOk(s) && CanCache(s.c, s.v, d, e)
    ensures StateOk(s.(c := WithDentry(s.c, d, e, IsDir(s.v, s.c.vinodes[e.inode].inum))))
  {
    hide VolumeOk, InodesOk, DentsOk, RefsOk, FilesOk, OffsetsOk, CanCache, IsDir;
    assert e.inode in s.c.vinodes by { CanCachePoints(s.c, s.v, d, e); }
    WithDentryDents(s.c, s.v, d, e);
    WithDentryCounts(s.c, s.v, d, e, IsDir(s.v, s.c.vinodes[e.inode].inum));
    WithDentryInodes(s.dino, s.c, s.v.node, d, e, IsDir(s.v, s.c.vinodes[e.inode].inum));
  }

  lemma CanCachePoints(c: Cache, v: Volume, d: Ptr, e: Dentry)
    requires CanCache(c, v, d, e)
    ensures e.inode in c.vinodes
  {
  }

  // ---------------------------------------------------------------------
  // A dentry leaves the cache
  // ---------------------------------------------------------------------

  function WithoutDentry(c: Cache, d: Ptr): Cache
    requires Points(c, d)
  {
    var e := c.dents[d];
    var vi := c.vinodes[e.inode];
    c.(dents := c.dents - {d},
       dhash := c.dhash - {DKey(e.parent, e.name)},
       vinodes := c.vinodes[e.inode := vi.(ref := vi.ref - 1)])
  }

  // A dentry that may go: of a file, and not open.
  ghost predicate CanForget(c: Cache, v: Volume, d: Ptr) {
    d in c.dents && d != c.root && Points(c, d) && !IsDir(v, Inum(c, d)) && c.dents[d].dref == 0
  }

  lemma WithoutDentryDents(c: Cache, v: Volume, d: Ptr)
    requires DentsOk(c, v) && CanForget(c, v, d)
    ensures DentsOk(WithoutDentry(c, d), v)
  {
    hide Anchored, AllAnchored, HashSound, OneDentryPerDir, RootCached;
    var c' := WithoutDentry(c, d);
    forall o | o in c'.dents ensures StillThere(c, c', o) { WithoutDentryStill(c, v, d, o); }
    forall k | k in c'.dhash ensures StillHashed(c, c', k) { WithoutDentryHash(c, v, d, k); }
    RootStill(c, v, d);
    DentsWithin(c, c', v);
  }

  lemma RootStill(c: Cache, v: Volume, d: Ptr)
    requires DentsOk(c, v) && CanForget(c, v, d)
    ensures c.root in WithoutDentry(c, d).dents
  {
  }

  lemma WithoutDentryStill(c: Cache, v: Volume, d: Ptr, o: Ptr)
    requires DentsOk(c, v) && CanForget(c, v, d) && o in WithoutDentry(c, d).dents
    ensures StillThere(c, WithoutDentry(c, d), o)
  {
    hide HashSound, OneDentryPerDir, RootCached;
    assert Points(c, o) && Anchored(c, v, d);
    if o != c.root { assert Anchored(c, v, o); }
  }

  lemma WithoutDentryHash(c: Cache, v: Volume, d: Ptr, k: DKey)
    requires DentsOk(c, v) && CanForget(c, v, d) && k in WithoutDentry(c, d).dhash
    ensures StillHashed(c, WithoutDentry(c, d), k)
  {
    hide OneDentryPerDir, RootCached, AllAnchored;
    assert k in c.dhash;
  }

  lemma NotOpen(c: Cache, d: Ptr)
    requires FilesOk(c) && d in c.dents && c.dents[d].dref == 0
    ensures forall f {:trigger f in c.files} :: f in c.files ==> c.files[f].dentry != d
  {
    assert FilesOf(c.files, d) == {};
    forall f | f in c.files ensures c.files[f].dentry != d {
      assert c.files[f].dentry == d ==> f in FilesOf(c.files, d);
    }
  }

  lemma WithoutDentryRefs(c: Cache, d: Ptr)
    requires RefsOk(c) && Points(c, d)
    ensures RefsOk(WithoutDentry(c, d))
  {
    var c' := WithoutDentry(c, d);
    forall p | p in c'.vinodes ensures c'.vinodes[p].ref == |DentsOf(c'.dents, p)| {
      DentsOfDrops(c.dents, d, p);
    }
  }

  lemma WithoutDentryFiles(c: Cache, v: Volume, d: Ptr)
    requires AllPoint(c) && FilesOk(c) && OffsetsOk(c, v) && CanForget(c, v, d)
    ensures var c' := WithoutDentry(c, d); FilesOk(c') && OffsetsOk(c', v)
  {
    var c' := WithoutDentry(c, d);
    NotOpen(c, d);
    forall f | f in c'.files
      ensures c'.files[f].dentry in c'.dents && Points(c, c'.files[f].dentry) &&
              Points(c', c'.files[f].dentry) && Inum(c', c'.files[f].dentry) == Inum(c, c'.files[f].dentry)
    {
      assert c.files[f].dentry in c.dents;
    }
  }

  lemma WithoutDentryInodes(dino: seq<Node>, c: Cache, node: map<int, Node>, d: Ptr)
    requires InodesOk(dino, c.vinodes, c.vhash, node) && Points(c, d)
    ensures var c' := WithoutDentry(c, d); InodesOk(dino, c'.vinodes, c'.vhash, node)
  {
  }

  lemma DentsPoint(c: Cache, v: Volume)
    requires DentsOk(c, v)
    ensures AllPoint(c)
  {
  }

  lemma WithoutDentryOk(s: State, d: Ptr)
    requires StateOk(s) && CanForget(s.c, s.v, d)
    ensures StateOk(s.(c := WithoutDentry(s.c, d)))
  {
    hide VolumeOk, InodesOk, DentsOk, RefsOk, FilesOk, OffsetsOk;
    WithoutDentryDents(s.c, s.v, d);
    WithoutDentryRefs(s.c, d);
    DentsPoint(s.c, s.v);
    WithoutDentryFiles(s.c, s.v, d);
    WithoutDentryInodes(s.dino, s.c, s.v.node, d);
  }

  // ---------------------------------------------------------------------
  // A vinode that no dentry points at leaves the cache
  // ---------------------------------------------------------------------

  function WithoutVinode(c: Cache, p: Ptr): Cache
    requires p in c.vinodes
  {
    c.(vinodes := c.vinodes - {p}, vhash := c.vhash - {c.vinodes[p].inum})
  }

  lemma NoDentry(c: Cache, p: Ptr)
    requires RefsOk(c) && p in c.vinodes && c.vinodes[p].ref == 0
    ensures forall d {:trigger d in c.dents} :: d in c.dents ==> c.dents[d].inode != p
  {
    assert DentsOf(c.dents, p) == {};
    forall d | d in c.dents ensures c.dents[d].inode != p {
      assert c.dents[d].inode == p ==> d in DentsOf(c.dents, p);
    }
  }

  lemma WithoutVinodeCache(c: Cache, v: Volume, p: Ptr)
    requires CacheOk(c, v) && p in c.vinodes && c.vinodes[p].ref == 0
    ensures CacheOk(WithoutVinode(c, p), v)
  {
    hide DentsOk, RefsOk, Inum;
    NoDentry(c, p);
    WithoutVinodeDents(c, v, p);
    forall f | f in c.files && Points(c, c.files[f].dentry)
      ensures Inum(WithoutVinode(c, p), c.files[f].dentry) == Inum(c, c.files[f].dentry)
    {
      InumStill(c, p, c.files[f].dentry);
    }
    WithoutVinodeRefs(c, p);
  }

  lemma InumStill(c: Cache, p: Ptr, d: Ptr)
    requires p in c.vinodes && Points(c, d) && c.dents[d].inode != p
    ensures Points(WithoutVinode(c, p), d) && Inum(WithoutVinode(c, p), d) == Inum(c, d)
  {
  }

  lemma WithoutVinodeRefs(c: Cache, p: Ptr)
    requires RefsOk(c) && p in c.vinodes
    ensures RefsOk(WithoutVinode(c, p))
  {
  }

  lemma WithoutVinodeDents(c: Cache, v: Volume, p: Ptr)
    requires DentsOk(c, v) && p in c.vinodes
    requires forall d {:trigger d in c.dents} :: d in c.dents ==> c.dents[d].inode != p
    ensures DentsOk(WithoutVinode(c, p), v)
  {
    hide Anchored, AllAnchored, HashSound, OneDentryPerDir, RootCached;
    var c' := WithoutVinode(c, p);
    forall o | o in c'.dents ensures StillThere(c, c', o) { WithoutVinodeStill(c, v, p, o); }
    forall k | k in c'.dhash ensures StillHashed(c, c', k) { HashedTo(c, v, k); }
    RootThere(c, v);
    DentsWithin(c, c', v);
  }

  lemma WithoutVinodeStill(c: Cache, v: Volume, p: Ptr, o: Ptr)
    requires DentsOk(c, v) && p in c.vinodes && o in c.dents && c.dents[o].inode != p
    ensures StillThere(c, WithoutVinode(c, p), o)
  {
    hide HashSound, OneDentryPerDir, RootCached;
    if o != c.root { assert Anchored(c, v, o); }
  }

  // Closing the last dentry of a file writes its node back and forgets it.
  lemma WrittenBackInodes(dino: seq<Node>, c: Cache, node: map<int, Node>, p: Ptr)
    requires InodesOk(dino, c.vinodes, c.vhash, node) && p in c.vinodes && 0 <= c.vinodes[p].inum < NINODES
    requires forall i {:trigger node[i]} :: i in node ==> NodeOk(node[i])
    ensures var c' := WithoutVinode(c, p);
            InodesOk(dino[c.vinodes[p].inum := c.vinodes[p].node], c'.vinodes, c'.vhash, node)
  {
    hide VinodesOk;
    var i := c.vinodes[p].inum;
    VinodeAt(c.vinodes, c.vhash, node, p);
    var c', dino' := WithoutVinode(c, p), dino[i := c.vinodes[p].node];
    forall j | 0 <= j < NINODES && j in node ensures Synced(dino'[j], node[j], j in c'.vhash) {
      assert Synced(dino[j], node[j], j in c.vhash);
      assert dino'[i].kind == dino[i].kind;
    }
    VinodesWithout(c.vinodes, c.vhash, node, node, p);
  }

  lemma VinodeAt(vinodes: map<Ptr, Vinode>, vhash: map<int, Ptr>, node: map<int, Node>, p: Ptr)
    requires VinodesOk(vinodes, vhash, node) && p in vinodes
    ensures var i := vinodes[p].inum; i in vhash && vhash[i] == p && i in node && node[i] == vinodes[p].node
  {
  }

  lemma VinodesWithout(vinodes: map<Ptr, Vinode>, vhash: map<int, Ptr>, node: map<int, Node>, node': map<int, Node>,
                       p: Ptr)
    requires VinodesOk(vinodes, vhash, node) && p in vinodes
    requires forall j {:trigger node'[j]} :: j in node && j != vinodes[p].inum ==> j in node' && node'[j] == node[j]
    ensures VinodesOk(vinodes - {p}, vhash - {vinodes[p].inum}, node')
  {
    forall q | q in vinodes - {p}
      ensures q != NULL && vinodes[q].inum != vinodes[p].inum && vinodes[q].inum in vhash && vhash[vinodes[q].inum] == q
    {
      assert q in vinodes;
    }
    forall i | i in vhash - {vinodes[p].inum}
      ensures i in node' && vhash[i] in vinodes - {p} && vinodes[vhash[i]].inum == i
      ensures vinodes[vhash[i]].node == node'[i]
    {
      assert i in vhash && node'[i] == node[i];
    }
  }

  lemma WrittenBackOk(s: State, p: Ptr)
    requires StateOk(s) && p in s.c.vinodes && s.c.vinodes[p].ref == 0
    ensures 0 <= s.c.vinodes[p].inum < |s.dino|
    ensures StateOk(s.(dino := s.dino[s.c.vinodes[p].inum := s.c.vinodes[p].node], c := WithoutVinode(s.c, p)))
  {
    VinodeInRange(s, p);
    hide VolumeOk, InodesOk, CacheOk;
    AllNodesOk(s.v);
    WithoutVinodeCache(s.c, s.v, p);
    WrittenBackInodes(s.dino, s.c, s.v.node, p);
  }

  lemma AllNodesOk(v: Volume)
    requires VolumeOk(v)
    ensures forall i {:trigger v.node[i]} :: i in v.node ==> NodeOk(v.node[i])
  {
  }

  lemma VinodeInRange(s: State, p: Ptr)
    requires StateOk(s) && p in s.c.vinodes
    ensures var i := s.c.vinodes[p].inum;
            && 0 <= i < NINODES == |s.dino| && i in s.c.vhash && s.c.vhash[i] == p
            && i in s.v.node && s.v.node[i] == s.c.vinodes[p].node
  {
    hide CacheOk;
    assert s.c.vinodes[p].inum in s.c.vhash;
    NodeInRange(s.v, s.c.vinodes[p].inum);
  }

  // ---------------------------------------------------------------------
  // Opening, seeking and closing
  // ---------------------------------------------------------------------

  function Touched(c: Cache, d: Ptr, dref: int, files: map<Fd, OpenFile>): Cache
    requires d in c.dents
  {
    c.(dents := c.dents[d := c.dents[d].(dref := dref)], files := files)
  }

  lemma TouchedDents(c: Cache, v: Volume, d: Ptr, dref: int, files: map<Fd, OpenFile>)
    requires DentsOk(c, v) && RefsOk(c) && d in c.dents
    ensures DentsOk(Touched(c, d, dref, files), v) && RefsOk(Touched(c, d, dref, files))
  {
    TouchedAnchors(c, v, d, dref, files);
    var c' := Touched(c, d, dref, files);
    forall p | p in c'.vinodes ensures c'.vinodes[p].ref == |DentsOf(c'.dents, p)| {
      DentsOfTouch(c.dents, d, dref, p);
    }
    hide DentsOk;
  }

  lemma TouchedAnchors(c: Cache, v: Volume, d: Ptr, dref: int, files: map<Fd, OpenFile>)
    requires DentsOk(c, v) && d in c.dents
    ensures DentsOk(Touched(c, d, dref, files), v)
  {
    hide Anchored, AllAnchored, HashSound, OneDentryPerDir, RootCached;
    var c' := Touched(c, d, dref, files);
    forall o | o in c'.dents ensures StillThere(c, c', o) { TouchedStill(c, v, d, dref, files, o); }
    forall k | k in c'.dhash ensures StillHashed(c, c', k) { HashedTo(c, v, k); }
    RootThere(c, v);
    DentsWithin(c, c', v);
  }

  lemma TouchedStill(c: Cache, v: Volume, d: Ptr, dref: int, files: map<Fd, OpenFile>, o: Ptr)
    requires DentsOk(c, v) && d in c.dents && o in c.dents
    ensures StillThere(c, Touched(c, d, dref, files), o)
  {
    hide HashSound, OneDentryPerDir, RootCached;
    if o != c.root { assert Anchored(c, v, o); }
  }

  function Opened(c: Cache, f: Fd, o: OpenFile): Cache
    requires o.dentry in c.dents
  {
    Touched(c, o.dentry, c.dents[o.dentry].dref + 1, c.files[f := o])
  }

  lemma OpenedFiles(c: Cache, v: Volume, f: Fd, o: OpenFile)
    requires FilesOk(c) && OffsetsOk(c, v) && f !in c.files && o.dentry in c.dents && o.offset == 0
    requires Points(c, o.dentry) && Inum(c, o.dentry) in v.node && 0 <= v.node[Inum(c, o.dentry)].size
    ensures FilesOk(Opened(c, f, o)) && OffsetsOk(Opened(c, f, o), v)
  {
    var c' := Opened(c, f, o);
    forall d | d in c'.dents ensures c'.dents[d].dref == |FilesOf(c'.files, d)| {
      FilesOfAdds(c.files, f, o, d);
    }
  }

  lemma OpenedOk(s: State, f: Fd, o: OpenFile)
    requires StateOk(s) && f !in s.c.files && o.dentry in s.c.dents && o.offset == 0
    ensures StateOk(s.(c := Opened(s.c, f, o)))
  {
    hide VolumeOk, InodesOk, DentsOk, RefsOk, FilesOk, OffsetsOk;
    var c := s.c;
    OpenNodes(s);
    TouchedDents(c, s.v, o.dentry, c.dents[o.dentry].dref + 1, c.files[f := o]);
    OpenedFiles(c, s.v, f, o);
  }

  // Every dentry stands for a live inode of nonnegative size.
  lemma OpenNodes(s: State)
    requires StateOk(s)
    ensures forall d {:trigger d in s.c.dents} :: d in s.c.dents ==>
      Points(s.c, d) && Inum(s.c, d) in s.v.node && 0 <= s.v.node[Inum(s.c, d)].size
  {
    forall d | d in s.c.dents
      ensures Points(s.c, d) && Inum(s.c, d) in s.v.node && 0 <= s.v.node[Inum(s.c, d)].size
    {
      VinodeInRange(s, s.c.dents[d].inode);
      hide CacheOk, InodesOk;
      NodeInRange(s.v, Inum(s.c, d));
    }
  }

  function Closed(c: Cache, f: Fd): Cache
    requires f in c.files && c.files[f].dentry in c.dents
  {
    Touched(c, c.files[f].dentry, c.dents[c.files[f].dentry].dref - 1, c.files - {f})
  }

  lemma ClosedFiles(c: Cache, v: Volume, f: Fd)
    requires FilesOk(c) && OffsetsOk(c, v) && f in c.files
    ensures c.files[f].dentry in c.dents
    ensures FilesOk(Closed(c, f)) && OffsetsOk(Closed(c, f), v)
  {
    var c' := Closed(c, f);
    forall d | d in c'.dents ensures c'.dents[d].dref == |FilesOf(c'.files, d)| {
      FilesOfDrops(c.files, f, d);
    }
    forall g | g in c'.files && Points(c', c'.files[g].dentry)
      ensures Points(c, c.files[g].dentry) && Inum(c', c'.files[g].dentry) == Inum(c, c.files[g].dentry)
    {
    }
  }

  lemma ClosedOk(s: State, f: Fd)
    requires StateOk(s) && f in s.c.files
    ensures s.c.files[f].dentry in s.c.dents
    ensures StateOk(s.(c := Closed(s.c, f)))
  {
    var c := s.c;
    hide VolumeOk, InodesOk, DentsOk, RefsOk, FilesOk, OffsetsOk;
    ClosedFiles(c, s.v, f);
    TouchedDents(c, s.v, c.files[f].dentry, c.dents[c.files[f].dentry].dref - 1, c.files - {f});
  }

  // ---------------------------------------------------------------------
  // A node changes, with its cached copy and perhaps its disk inode
  // ---------------------------------------------------------------------

  function Patched(c: Cache, p: Ptr, n: Node): Cache
    requires p in c.vinodes
  {
    c.(vinodes := c.vinodes[p := c.vinodes[p].(node := n)])
  }

  lemma PatchedShape(c: Cache, p: Ptr, n: Node)
    requires p in c.vinodes
    ensures SameShape(c, Patched(c, p, n))
  {
  }

  // The cached node changes and is written through.
  lemma FlushedInodes(dino: seq<Node>, c: Cache, node: map<int, Node>, p: Ptr, n: Node)
    requires InodesOk(dino, c.vinodes, c.vhash, node) && p in c.vinodes
    requires var i := c.vinodes[p].inum; 0 <= i < NINODES && NodeOk(n) && n.kind != Free
    ensures var i := c.vinodes[p].inum;
            var c' := Patched(c, p, n);
            InodesOk(dino[i := n], c'.vinodes, c'.vhash, node[i := n])
  {
    var i := c.vinodes[p].inum;
    assert i in c.vhash;
    var dino', node' := dino[i := n], node[i := n];
    forall j | 0 <= j < NINODES && j in node' ensures Synced(dino'[j], node'[j], j in c.vhash) {
      if j != i { assert Synced(dino[j], node[j], j in c.vhash); }
    }
  }

  // Only the cached node changes: a file that may have grown.
  lemma GrownInodes(dino: seq<Node>, c: Cache, node: map<int, Node>, p: Ptr, n: Node)
    requires InodesOk(dino, c.vinodes, c.vhash, node) && p in c.vinodes
    requires var i := c.vinodes[p].inum;
             && 0 <= i < NINODES && n.kind == File == c.vinodes[p].node.kind && n.nlinks == c.vinodes[p].node.nlinks
             && |n.addrs| == |c.vinodes[p].node.addrs| && 0 <= c.vinodes[p].node.blocks <= n.blocks <= |n.addrs|
             && n.addrs[..c.vinodes[p].node.blocks] == c.vinodes[p].node.addrs[..c.vinodes[p].node.blocks]
    ensures var i := c.vinodes[p].inum;
            var c' := Patched(c, p, n);
            InodesOk(dino, c'.vinodes, c'.vhash, node[i := n])
  {
    var i := c.vinodes[p].inum;
    assert i in c.vhash && node[i] == c.vinodes[p].node;
    var node' := node[i := n];
    var old_ := node[i];
    forall j | 0 <= j < NINODES && j in node' ensures Synced(dino[j], node'[j], j in c.vhash) {
      assert Synced(dino[j], node[j], j in c.vhash);
      if j == i {
        var m := dino[i].blocks;
        assert n.addrs[..m] == n.addrs[..old_.blocks][..m];
        assert old_.addrs[..m] == old_.addrs[..old_.blocks][..m];
      }
    }
  }

  // A new inode appears on disk, not cached yet.
  lemma NewInodes(dino: seq<Node>, c: Cache, node: map<int, Node>, i: int, n: Node)
    requires InodesOk(dino, c.vinodes, c.vhash, node)
    requires 0 <= i < NINODES && i !in node && NodeOk(n) && n.kind != Free
    ensures InodesOk(dino[i := n], c.vinodes, c.vhash, node[i := n])
    ensures i !in c.vhash
  {
    var dino', node' := dino[i := n], node[i := n];
    forall j | 0 <= j < NINODES && j in node' ensures Synced(dino'[j], node'[j], j in c.vhash) {
      if j != i { assert Synced(dino[j], node[j], j in c.vhash); }
    }
  }

  // A dead inode disappears from disk and from the cache.
  lemma DeadInodes(dino: seq<Node>, c: Cache, node: map<int, Node>, p: Ptr, n: Node)
    requires InodesOk(dino, c.vinodes, c.vhash, node) && p in c.vinodes && n.kind == Free
    requires 0 <= c.vinodes[p].inum < NINODES
    ensures var i := c.vinodes[p].inum;
            var c' := WithoutVinode(c, p);
            InodesOk(dino[i := n], c'.vinodes, c'.vhash, node - {i})
  {
    hide VinodesOk;
    var i := c.vinodes[p].inum;
    VinodeAt(c.vinodes, c.vhash, node, p);
    var c', dino', node' := WithoutVinode(c, p), dino[i := n], node - {i};
    forall j | 0 <= j < NINODES && j in node' ensures Synced(dino'[j], node'[j], j in c'.vhash) {
      assert Synced(dino[j], node[j], j in c.vhash);
    }
    VinodesWithout(c.vinodes, c.vhash, node, node', p);
  }

  // ---------------------------------------------------------------------
  // Volume changes under the caches
  // ---------------------------------------------------------------------

  // From the caches' point of view: every cached dentry keeps its directory entry,
  // its kind, and (as a file) does not shrink.
  ghost predicate KeepsCached(c: Cache, v: Volume, v': Volume) {
    && (forall d {:trigger Anchored(c, v, d)} :: Points(c, d) && d != c.root && Anchored(c, v, d) ==>
          var k := Key(Inum(c, c.dents[d].parent), c.dents[d].name); k in v'.names && v'.names[k] == v.names[k])
    && (forall d {:trigger d in c.dents} :: d in c.dents && Points(c, d) && Inum(c, d) in v.node ==>
          Inum(c, d) in v'.node && v'.node[Inum(c, d)].kind == v.node[Inum(c, d)].kind &&
          (v.node[Inum(c, d)].kind == File ==> v.node[Inum(c, d)].size <= v'.node[Inum(c, d)].size))
  }

  ghost predicate DentsLive(c: Cache, v: Volume) {
    forall d {:trigger d in c.dents} :: d in c.dents ==> Points(c, d) && Inum(c, d) in v.node
  }

  lemma CacheFrame(c: Cache, v: Volume, c': Cache, v': Volume)
    requires CacheOk(c, v) && SameShape(c, c') && DentsLive(c, v) && KeepsCached(c, v, v')
    ensures CacheOk(c', v')
  {
    hide DentsOk, RefsOk, OffsetsOk, Inum;
    DentsKept(c, v, c', v');
    RefsFrame(c, c');
    OffsetsFrame(c, v, c', v');
  }

  lemma DentsKept(c: Cache, v: Volume, c': Cache, v': Volume)
    requires DentsOk(c, v) && SameShape(c, c') && DentsLive(c, v) && KeepsCached(c, v, v')
    ensures DentsOk(c', v')
  {
    hide DentsOk, Anchored, SameShape;
    DentsFrame(c, v, c', v');
  }

  lemma OffsetsFrame(c: Cache, v: Volume, c': Cache, v': Volume)
    requires OffsetsOk(c, v) && SameShape(c, c') && DentsLive(c, v) && KeepsCached(c, v, v')
    ensures OffsetsOk(c', v')
  {
    hide Anchored;
    forall f | f in c'.files && Points(c', c'.files[f].dentry)
      ensures Points(c, c.files[f].dentry) && Inum(c', c'.files[f].dentry) == Inum(c, c.files[f].dentry)
    {
    }
  }

  lemma StateDentsLive(s: State)
    requires StateOk(s)
    ensures DentsLive(s.c, s.v)
  {
    hide StateOk;
    OpenNodes(s);
  }

  // ---------------------------------------------------------------------
  // Write
  // ---------------------------------------------------------------------

  lemma WriteExtends(v: Volume, i: int, n': Node, news: seq<int>, data': map<int, Block>)
    requires CanWrite(v, i, n', news, data')
    ensures var n := v.node[i];
            && n.kind == n'.kind == File && n'.nlinks == n.nlinks
            && |n'.addrs| == |n.addrs| && 0 <= n.blocks <= n'.blocks <= |n.addrs|
            && n'.addrs[..n.blocks] == n.addrs[..n.blocks]
    ensures Rewritten(v, i, n', news, data').node == v.node[i := n']
    ensures Rewritten(v, i, n', news, data').names == v.names
  {
  }

  lemma WriteOk(s: State, p: Ptr, n': Node, news: seq<int>, data': map<int, Block>)
    requires StateOk(s) && p in s.c.vinodes
    requires CanWrite(s.v, s.c.vinodes[p].inum, n', news, data')
    requires s.c.vinodes[p].inum in s.v.node && n'.size >= s.v.node[s.c.vinodes[p].inum].size
    ensures StateOk(State(Rewritten(s.v, s.c.vinodes[p].inum, n', news, data'), s.dino, Patched(s.c, p, n')))
  {
    hide VolumeOk, InodesOk, CacheOk, CanWrite, Rewritten;
    var i := s.c.vinodes[p].inum;
    VinodeInRange(s, p);
    StateDentsLive(s);
    var v' := Rewritten(s.v, i, n', news, data');
    WriteExtends(s.v, i, n', news, data');
    RewrittenOk(s.v, i, n', news, data');
    PatchedShape(s.c, p, n');
    GrownInodes(s.dino, s.c, s.v.node, p, n');
    assert KeepsCached(s.c, s.v, v');
    CacheFrame(s.c, s.v, Patched(s.c, p, n'), v');
  }

  function WithOffset(c: Cache, f: Fd, offset: int): Cache
    requires f in c.files
  {
    c.(files := c.files[f := c.files[f].(offset := offset)])
  }

  lemma WithOffsetDents(c: Cache, v: Volume, f: Fd, offset: int)
    requires DentsOk(c, v) && f in c.files
    ensures DentsOk(WithOffset(c, f, offset), v)
  {
    var c' := WithOffset(c, f, offset);
    forall d | d in c'.dents && d != c'.root ensures Anchored(c', v, d) {
      assert Anchored(c, v, d);
    }
  }

  lemma WithOffsetFiles(c: Cache, v: Volume, f: Fd, offset: int)
    requires FilesOk(c) && OffsetsOk(c, v) && f in c.files && 0 <= offset
    requires Points(c, c.files[f].dentry) && Inum(c, c.files[f].dentry) in v.node
    requires v.node[Inum(c, c.files[f].dentry)].kind == File ==>
      offset <= v.node[Inum(c, c.files[f].dentry)].size
    ensures FilesOk(WithOffset(c, f, offset)) && OffsetsOk(WithOffset(c, f, offset), v)
  {
    var c' := WithOffset(c, f, offset);
    forall d | d in c'.dents ensures FilesOf(c'.files, d) == FilesOf(c.files, d) {}
    forall g | g in c'.files && Points(c', c'.files[g].dentry)
      ensures Points(c, c.files[g].dentry) && Inum(c', c'.files[g].dentry) == Inum(c, c.files[g].dentry)
    {
    }
  }

  lemma WithOffsetOk(s: State, f: Fd, offset: int)
    requires StateOk(s) && f in s.c.files && 0 <= offset
    requires Points(s.c, s.c.files[f].dentry) && Inum(s.c, s.c.files[f].dentry) in s.v.node
    requires s.v.node[Inum(s.c, s.c.files[f].dentry)].kind == File ==>
      offset <= s.v.node[Inum(s.c, s.c.files[f].dentry)].size
    ensures StateOk(s.(c := WithOffset(s.c, f, offset)))
  {
    hide VolumeOk, InodesOk, DentsOk, FilesOk, OffsetsOk;
    WithOffsetDents(s.c, s.v, f, offset);
    WithOffsetFiles(s.c, s.v, f, offset);
  }

  // ---------------------------------------------------------------------
  // Create and mkdir
  // ---------------------------------------------------------------------

  predicate CanCreate(v: Volume, i: int, n: Node, a: int, dir: int, name: Name) {
    && IsFree(v, a) && FreshNode(n, a) && i !in v.node && 0 <= i < NINODES
    && dir in v.node && NodeOk(v.node[dir]) && Blocks(v.data) && v.node[dir].kind == Dir
    && HasRoom(v.node[dir]) && EntryFits(DirEntry(i, name))
    && Key(dir, name) !in v.names
  }

  function OneLonger(n: Node): Node { n.(size := n.size + DIRENT) }

  // The volume gains an inode and a name; the parent's vinode and the two disk
  // inodes follow.
  ghost function CreatedState(s: State, i: int, n: Node, a: int, pp: Ptr, name: Name): State
    requires NodesOk(s.v) && |s.dino| == NINODES
    requires pp in s.c.vinodes && 0 <= s.c.vinodes[pp].inum < NINODES
    requires CanCreate(s.v, i, n, a, s.c.vinodes[pp].inum, name)
  {
    var dir := s.c.vinodes[pp].inum;
    var dn := OneLonger(s.v.node[dir]);
    State(Created(s.v, i, n, a, dir, name), s.dino[i := n][dir := dn], Patched(s.c, pp, dn))
  }

  lemma CreatedNode(v: Volume, i: int, n: Node, a: int, dir: int, name: Name)
    requires NodesOk(v) && CanCreate(v, i, n, a, dir, name)
    ensures Created(v, i, n, a, dir, name).node == v.node[i := n][dir := OneLonger(v.node[dir])]
    ensures NodeOk(OneLonger(v.node[dir])) && dir != i
  {
  }

  lemma AddKeepsCached(c: Cache, v: Volume, v': Volume, key: Key, i: int)
    requires DentsLive(c, v) && key !in v.names && v'.names == v.names[key := i]
    requires forall j {:trigger j in v.node} :: j in v.node ==>
      j in v'.node && v'.node[j].kind == v.node[j].kind && v'.node[j].size >= v.node[j].size
    ensures KeepsCached(c, v, v')
  {
  }

  lemma CreatedInodes(dino: seq<Node>, c: Cache, node: map<int, Node>, i: int, n: Node, pp: Ptr, dn: Node)
    requires InodesOk(dino, c.vinodes, c.vhash, node)
    requires i !in node && 0 <= i < NINODES && NodeOk(n) && n.kind != Free
    requires pp in c.vinodes && 0 <= c.vinodes[pp].inum < NINODES && NodeOk(dn) && dn.kind != Free
    ensures var dir, c' := c.vinodes[pp].inum, Patched(c, pp, dn);
            InodesOk(dino[i := n][dir := dn], c'.vinodes, c'.vhash, node[i := n][dir := dn])
    ensures i !in c.vhash
  {
    assert |dino| == NINODES;
    NewInodes(dino, c, node, i, n);
    hide InodesOk;
    FlushedInodes(dino[i := n], c, node[i := n], pp, dn);
  }

  lemma CreatedStateOk(s: State, i: int, n: Node, a: int, pp: Ptr, name: Name)
    requires StateOk(s) && pp in s.c.vinodes && 0 <= s.c.vinodes[pp].inum < NINODES == |s.dino|
    requires CanCreate(s.v, i, n, a, s.c.vinodes[pp].inum, name)
    ensures StateOk(CreatedState(s, i, n, a, pp, name))
    ensures var s' := CreatedState(s, i, n, a, pp, name);
            && i !in s'.c.vhash && i in s'.v.node && s'.v.node[i] == n
            && s'.v.names == s.v.names[Key(s.c.vinodes[pp].inum, name) := i]
            && NodesOk(s'.v) && Leaked(s'.v) == Leaked(s.v)
  {
    hide InodesOk, CacheOk, BlocksOwned, NamesStored, LinksCounted, Leaked, SameShape, DentsLive, Created, NodeOk;
    var dir := s.c.vinodes[pp].inum;
    var dn := OneLonger(s.v.node[dir]);
    var s' := CreatedState(s, i, n, a, pp, name);
    StateDentsLive(s);
    CreatedNode(s.v, i, n, a, dir, name);
    CreatedInodes(s.dino, s.c, s.v.node, i, n, pp, dn);
    CreatedOk(s.v, i, n, a, dir, name);
    PatchedShape(s.c, pp, dn);
    AddKeepsCached(s.c, s.v, s'.v, Key(dir, name), i);
    CacheFrame(s.c, s.v, s'.c, s'.v);
  }

  // ---------------------------------------------------------------------
  // Link
  // ---------------------------------------------------------------------

  predicate CanLink(v: Volume, i: int, dir: int, name: Name) {
    && i in v.node && v.node[i].kind == File && 0 <= i < NINODES
    && dir in v.node && NodeOk(v.node[dir]) && v.node[dir].kind == Dir && 0 <= dir < NINODES
    && HasRoom(v.node[dir]) && EntryFits(DirEntry(i, name))
    && Key(dir, name) !in v.names
  }

  function OneLinkMore(n: Node): Node { n.(nlinks := n.nlinks + 1) }

  // The volume gains a name; both vinodes are written through to disk.
  ghost function LinkedState(s: State, pi: Ptr, pp: Ptr, name: Name): State
    requires NodesOk(s.v) && |s.dino| == NINODES && pi in s.c.vinodes && pp in s.c.vinodes
    requires CanLink(s.v, s.c.vinodes[pi].inum, s.c.vinodes[pp].inum, name)
  {
    var i, dir := s.c.vinodes[pi].inum, s.c.vinodes[pp].inum;
    var n, dn := OneLinkMore(s.v.node[i]), OneLonger(s.v.node[dir]);
    State(Linked(s.v, i, dir, name), s.dino[dir := dn][i := n], Patched(Patched(s.c, pp, dn), pi, n))
  }

  lemma LinkedNode(v: Volume, i: int, dir: int, name: Name)
    requires NodesOk(v) && CanLink(v, i, dir, name)
    ensures Linked(v, i, dir, name).node == v.node[dir := OneLonger(v.node[dir])][i := OneLinkMore(v.node[i])]
    ensures NodeOk(OneLonger(v.node[dir])) && NodeOk(OneLinkMore(v.node[i])) && dir != i
  {
    assert NodeOk(v.node[dir]) && NodeOk(v.node[i]);
    LongerOk(v.node[dir]);
    hide NodesOk, NodeOk;
  }

  lemma LongerOk(n: Node)
    requires NodeOk(n) && HasRoom(n)
    ensures NodeOk(OneLonger(n))
  {
  }

  lemma FlushedTwice(dino: seq<Node>, c: Cache, node: map<int, Node>, pp: Ptr, dn: Node, pi: Ptr, n: Node)
    requires InodesOk(dino, c.vinodes, c.vhash, node) && pp in c.vinodes && pi in c.vinodes
    requires 0 <= c.vinodes[pp].inum < NINODES && NodeOk(dn) && dn.kind != Free
    requires 0 <= c.vinodes[pi].inum < NINODES && NodeOk(n) && n.kind != Free
    ensures var dir, i, c' := c.vinodes[pp].inum, c.vinodes[pi].inum, Patched(Patched(c, pp, dn), pi, n);
            InodesOk(dino[dir := dn][i := n], c'.vinodes, c'.vhash, node[dir := dn][i := n])
    ensures SameShape(c, Patched(Patched(c, pp, dn), pi, n))
  {
    var dir := c.vinodes[pp].inum;
    assert |dino| == NINODES;
    FlushedInodes(dino, c, node, pp, dn);
    hide InodesOk;
    FlushedInodes(dino[dir := dn], Patched(c, pp, dn), node[dir := dn], pi, n);
  }

  lemma LinkedStateOk(s: State, pi: Ptr, pp: Ptr, name: Name)
    requires StateOk(s) && |s.dino| == NINODES && pi in s.c.vinodes && pp in s.c.vinodes
    requires CanLink(s.v, s.c.vinodes[pi].inum, s.c.vinodes[pp].inum, name)
    ensures StateOk(LinkedState(s, pi, pp, name))
    ensures var s' := LinkedState(s, pi, pp, name);
            && s'.v.names == s.v.names[Key(s.c.vinodes[pp].inum, name) := s.c.vinodes[pi].inum]
            && NodesOk(s'.v) && Leaked(s'.v) == Leaked(s.v)
  {
    hide InodesOk, CacheOk, BlocksOwned, NamesStored, LinksCounted, Leaked, SameShape, DentsLive, Linked, NodeOk;
    var i, dir := s.c.vinodes[pi].inum, s.c.vinodes[pp].inum;
    var s' := LinkedState(s, pi, pp, name);
    StateDentsLive(s);
    LinkedNode(s.v, i, dir, name);
    FlushedTwice(s.dino, s.c, s.v.node, pp, OneLonger(s.v.node[dir]), pi, OneLinkMore(s.v.node[i]));
    LinkedOk(s.v, i, dir, name);
    AddKeepsCached(s.c, s.v, s'.v, Key(dir, name), i);
    CacheFrame(s.c, s.v, s'.c, s'.v);
  }

  // ---------------------------------------------------------------------
  // Unlink
  // ---------------------------------------------------------------------

  // One link less, in the vinode and in the disk inode (whose other fields keep
  // their perhaps older values).
  lemma OneLinkLessInodes(dino: seq<Node>, c: Cache, node: map<int, Node>, p: Ptr)
    requires InodesOk(dino, c.vinodes, c.vhash, node) && p in c.vinodes && 0 <= c.vinodes[p].inum < NINODES
    requires c.vinodes[p].node.kind == File
    ensures var i, m := c.vinodes[p].inum, c.vinodes[p].node.nlinks - 1;
            var n := c.vinodes[p].node.(nlinks := m);
            var c' := Patched(c, p, n);
            InodesOk(dino[i := dino[i].(nlinks := m)], c'.vinodes, c'.vhash, node[i := n])
  {
    var i, m := c.vinodes[p].inum, c.vinodes[p].node.nlinks - 1;
    assert i in c.vhash && node[i] == c.vinodes[p].node;
    var dino', node' := dino[i := dino[i].(nlinks := m)], node[i := node[i].(nlinks := m)];
    forall j | 0 <= j < NINODES && j in node' ensures Synced(dino'[j], node'[j], j in c.vhash) {
      assert Synced(dino[j], node[j], j in c.vhash);
    }
  }

  // The name of a dentry that is gone is used by no other dentry.
  lemma NameNotUsed(c: Cache, v: Volume, d: Ptr, o: Ptr)
    requires DentsOk(c, v) && d in c.dents && o in c.dents && d != c.root && o != c.root && o != d
    ensures Points(c, c.dents[d].parent) && Points(c, c.dents[o].parent)
    ensures Key(Inum(c, c.dents[o].parent), c.dents[o].name) != Key(Inum(c, c.dents[d].parent), c.dents[d].name)
  {
    assert Anchored(c, v, d) && Anchored(c, v, o);
    assert c.dents[d].parent in c.dents && c.dents[o].parent in c.dents;
  }

  function OneShorter(n: Node): Node {
    if GivesBack(n) then Shrunk(n).(blocks := n.blocks - 1) else Shrunk(n)
  }

  lemma ShorterSmall(node: map<int, Node>, dir: int)
    requires SmallDirs(node) && dir in node && node[dir].kind == Dir
    ensures OneShorter(node[dir]).blocks == 1
  {
  }

  function OneLinkFewer(n: Node): Node { n.(nlinks := n.nlinks - 1) }

  lemma UnlinkedNode(v: Volume, i: int, freemap': seq<bool>, listed: int,
                     dir: int, k: int, name: Name, data': map<int, Block>)
    requires CanUnlink(v, i, freemap', listed, dir, k, name, data')
    ensures NodesOk(v) && IsDir(v, dir) && i in v.node && v.node[i].kind == File
    ensures dir != i && |freemap'| == NBLOCKS && v.node[dir].size > 0 && NodeOk(v.node[dir])
    ensures Unlinked(v, i, freemap', dir, name, data').node ==
            (if v.node[i].nlinks == 1 then v.node - {i} else v.node[i := OneLinkFewer(v.node[i])])
            [dir := OneShorter(v.node[dir])]
    ensures NodeOk(OneShorter(v.node[dir])) && OneShorter(v.node[dir]).kind == Dir
  {
    assert NodeOk(v.node[dir]);
    ShorterNode(v.node[dir]);
    hide CompactedTo, NodesOk, NodeOk, Listing;
    UnlinkedNodes(v, i, freemap', dir, name, data');
  }

  lemma ShorterNode(n: Node)
    requires NodeOk(n) && n.kind == Dir && n.size > 0
    ensures NodeOk(OneShorter(n)) && OneShorter(n).kind == Dir
  {
    GivesBackEmpty(n);
  }

  lemma UnlinkedNodes(v: Volume, i: int, freemap': seq<bool>, dir: int, name: Name, data': map<int, Block>)
    requires i in v.node && IsDir(v, dir) && dir != i && NodeOk(v.node[dir]) && v.node[dir].size > 0
    requires |v.freemap| == |freemap'| == NBLOCKS
    ensures Unlinked(v, i, freemap', dir, name, data').node ==
            (if v.node[i].nlinks == 1 then v.node - {i} else v.node[i := OneLinkFewer(v.node[i])])
            [dir := OneShorter(v.node[dir])]
  {
    hide NodeOk;
    var w := Released(v, i, freemap');
    assert w.node == if v.node[i].nlinks == 1 then v.node - {i} else v.node[i := OneLinkFewer(v.node[i])];
    assert w.node[dir] == v.node[dir];
    hide Released;
    assert Shortened(w, dir, name, data').node == w.node[dir := OneShorter(v.node[dir])];
  }

  /** Every dentry that stays keeps its directory entry, so none of them points at an
      inode whose last name is gone. */
  lemma UnlinkKeepsCached(c: Cache, v: Volume, d: Ptr, v': Volume)
    requires DentsOk(c, v) && DentsLive(c, v) && CanForget(c, v, d)
    requires Points(c, c.dents[d].parent)
    requires v'.names == v.names - {Key(Inum(c, c.dents[d].parent), c.dents[d].name)}
    requires LinksCounted(v') && ROOT in v'.node
    requires forall j {:trigger j in v'.node} :: j in v'.node ==>
      j in v.node && v'.node[j].kind == v.node[j].kind && (v.node[j].kind == File ==> v'.node[j].size == v.node[j].size)
    ensures KeepsCached(WithoutDentry(c, d), v, v') && DentsLive(WithoutDentry(c, d), v')
  {
    hide DentsOk, LinksCounted, IsDir, WithoutDentry;
    var c1 := WithoutDentry(c, d);
    forall o | o in c1.dents ensures Points(c1, o) && Inum(c1, o) in v'.node {
      StillCached(c, v, d, v', o);
    }
    forall o | o in c1.dents && Points(c1, o) && Inum(c1, o) in v.node
      ensures Inum(c1, o) in v'.node && v'.node[Inum(c1, o)].kind == v.node[Inum(c1, o)].kind
    {
      assert Inum(c1, o) in v'.node;
    }
    forall o | Points(c1, o) && o != c1.root && Anchored(c1, v, o)
      ensures var k := Key(Inum(c1, c1.dents[o].parent), c1.dents[o].name); k in v'.names && v'.names[k] == v.names[k]
    {
      StillNamed(c, v, d, v', o);
    }
  }

  lemma StillCached(c: Cache, v: Volume, d: Ptr, v': Volume, o: Ptr)
    requires DentsOk(c, v) && CanForget(c, v, d) && Points(c, c.dents[d].parent) && o in WithoutDentry(c, d).dents
    requires v'.names == v.names - {Key(Inum(c, c.dents[d].parent), c.dents[d].name)}
    requires LinksCounted(v') && ROOT in v'.node
    ensures var c1 := WithoutDentry(c, d); Points(c1, o) && Inum(c1, o) in v'.node
  {
    hide HashSound, OneDentryPerDir;
    assert o in c.dents;
    if o != c.root {
      NameNotUsed(c, v, d, o);
      assert Anchored(c, v, o);
      assert Key(Inum(c, c.dents[o].parent), c.dents[o].name) in v'.names;
    }
  }

  lemma StillNamed(c: Cache, v: Volume, d: Ptr, v': Volume, o: Ptr)
    requires DentsOk(c, v) && CanForget(c, v, d) && Points(c, c.dents[d].parent)
    requires v'.names == v.names - {Key(Inum(c, c.dents[d].parent), c.dents[d].name)}
    requires var c1 := WithoutDentry(c, d); Points(c1, o) && o != c1.root && Anchored(c1, v, o)
    ensures var c1 := WithoutDentry(c, d);
            var k := Key(Inum(c1, c1.dents[o].parent), c1.dents[o].name); k in v'.names && v'.names[k] == v.names[k]
  {
    assert WithoutDentry(c, d).dents[o].parent in c.dents;
    NameNotUsed(c, v, d, o);
  }

  /** The "dead inode has ref 0" assertion of vfs_unlink. */
  lemma DeadHasNoRef(c: Cache, v: Volume, p: Ptr)
    requires RefsOk(c) && DentsLive(c, v) && p in c.vinodes && c.vinodes[p].inum !in v.node
    ensures c.vinodes[p].ref == 0
  {
    forall d | d in c.dents ensures c.dents[d].inode != p {}
    assert DentsOf(c.dents, p) == {};
  }

  // The caches and disk inodes after unlinking dentry d, when its inode has other
  // names left, and when it has none.  `dn` is the directory's new node.
  ghost function SurvivorState(s: State, pi: Ptr, pp: Ptr, dn: Node, v': Volume): State
    requires pi in s.c.vinodes && pp in s.c.vinodes && |s.dino| == NINODES
    requires 0 <= s.c.vinodes[pi].inum < NINODES && 0 <= s.c.vinodes[pp].inum < NINODES
  {
    var i, dir := s.c.vinodes[pi].inum, s.c.vinodes[pp].inum;
    var n := OneLinkFewer(s.c.vinodes[pi].node);
    State(v', s.dino[i := s.dino[i].(nlinks := n.nlinks)][dir := dn], Patched(Patched(s.c, pi, n), pp, dn))
  }

  ghost function DeadState(s: State, pi: Ptr, pp: Ptr, dn: Node, v': Volume): State
    requires pi in s.c.vinodes && pp in s.c.vinodes && |s.dino| == NINODES
    requires 0 <= s.c.vinodes[pi].inum < NINODES && 0 <= s.c.vinodes[pp].inum < NINODES
  {
    var i, dir := s.c.vinodes[pi].inum, s.c.vinodes[pp].inum;
    State(v', s.dino[dir := dn][i := s.dino[i].(nlinks := 0, kind := Free)], WithoutVinode(Patched(s.c, pp, dn), pi))
  }

  lemma SurvivorOk(s: State, pi: Ptr, pp: Ptr, dn: Node, v': Volume)
    requires StateOk(s) && pi in s.c.vinodes && pp in s.c.vinodes && pi != pp && |s.dino| == NINODES
    requires 0 <= s.c.vinodes[pi].inum < NINODES && 0 <= s.c.vinodes[pp].inum < NINODES
    requires s.c.vinodes[pi].node.kind == File && NodeOk(dn) && dn.kind == Dir && dn.blocks == 1
    requires VolumeOk(v') && DentsLive(s.c, s.v) && KeepsCached(s.c, s.v, v')
    requires v'.node == s.v.node[s.c.vinodes[pi].inum := OneLinkFewer(s.c.vinodes[pi].node)][s.c.vinodes[pp].inum := dn]
    ensures StateOk(SurvivorState(s, pi, pp, dn, v'))
  {
    hide VolumeOk, InodesOk, CacheOk, KeepsCached, DentsLive, NodeOk;
    var i, dir := s.c.vinodes[pi].inum, s.c.vinodes[pp].inum;
    var n := OneLinkFewer(s.c.vinodes[pi].node);
    var c1 := Patched(s.c, pi, n);
    OneLinkLessInodes(s.dino, s.c, s.v.node, pi);
    FlushedInodes(s.dino[i := s.dino[i].(nlinks := n.nlinks)], c1, s.v.node[i := n], pp, dn);
    CacheFrame(s.c, s.v, Patched(c1, pp, dn), v');
  }

  lemma DeadOk(s: State, pi: Ptr, pp: Ptr, dn: Node, v': Volume)
    requires StateOk(s) && pi in s.c.vinodes && pp in s.c.vinodes && pi != pp && |s.dino| == NINODES
    requires 0 <= s.c.vinodes[pi].inum < NINODES && 0 <= s.c.vinodes[pp].inum < NINODES
    requires s.c.vinodes[pi].inum != s.c.vinodes[pp].inum && NodeOk(dn) && dn.kind == Dir && dn.blocks == 1
    requires VolumeOk(v') && DentsLive(s.c, s.v) && KeepsCached(s.c, s.v, v') && DentsLive(s.c, v')
    requires v'.node == (s.v.node - {s.c.vinodes[pi].inum})[s.c.vinodes[pp].inum := dn]
    ensures s.c.vinodes[pi].ref == 0
    ensures StateOk(DeadState(s, pi, pp, dn, v'))
  {
    hide StateOk, VolumeOk, InodesOk, CacheOk, KeepsCached, DentsLive, NodeOk, RefsOk, SameShape, SmallDirs, Patched;
    StateParts(s);
    var i, dir := s.c.vinodes[pi].inum, s.c.vinodes[pp].inum;
    var c1 := Patched(s.c, pp, dn);
    DeadHasNoRef(s.c, v', pi);
    PatchedShape(s.c, pp, dn);
    PatchedOther(s.c, pp, dn, pi);
    CacheFrame(s.c, s.v, c1, v');
    WithoutVinodeCache(c1, v', pi);
    FlushedInodes(s.dino, s.c, s.v.node, pp, dn);
    DeadInodes(s.dino[dir := dn], c1, s.v.node[dir := dn], pi, s.dino[i].(nlinks := 0, kind := Free));
    DeadNodes(s.v.node, i, dir, dn);
    StateWhole(DeadState(s, pi, pp, dn, v'));
  }

  lemma PatchedOther(c: Cache, p: Ptr, n: Node, q: Ptr)
    requires p in c.vinodes && q in c.vinodes && q != p
    ensures q in Patched(c, p, n).vinodes && Patched(c, p, n).vinodes[q] == c.vinodes[q]
  {
  }

  lemma DeadNodes(node: map<int, Node>, i: int, dir: int, dn: Node)
    requires SmallDirs(node) && i != dir && (dn.kind == Dir ==> dn.blocks == 1)
    ensures node[dir := dn] - {i} == (node - {i})[dir := dn]
    ensures SmallDirs((node - {i})[dir := dn])
  {
  }

  lemma StateParts(s: State)
    requires StateOk(s)
    ensures SmallDirs(s.v.node) && VolumeOk(s.v) && InodesOk(s.dino, s.c.vinodes, s.c.vhash, s.v.node)
    ensures CacheOk(s.c, s.v)
    ensures DentsOk(s.c, s.v) && RefsOk(s.c)
  {
  }

  lemma StateWhole(s: State)
    requires SmallDirs(s.v.node) && VolumeOk(s.v) && InodesOk(s.dino, s.c.vinodes, s.c.vhash, s.v.node)
    requires CacheOk(s.c, s.v)
    ensures StateOk(s)
  {
  }

  lemma VolumeParts(v: Volume)
    requires VolumeOk(v)
    ensures LinksCounted(v) && NodesOk(v) && ROOT in v.node
  {
  }

  // What vfs_unlink leads to, from the state before it.
  ghost function UnlinkedState(s: State, pi: Ptr, pp: Ptr, d: Ptr, v': Volume): State
    requires Points(s.c, d) && pi == s.c.dents[d].inode && pp in s.c.vinodes && |s.dino| == NINODES
    requires 0 <= s.c.vinodes[pi].inum < NINODES && 0 <= s.c.vinodes[pp].inum < NINODES
    requires s.c.vinodes[pp].inum in v'.node
  {
    var s1 := s.(c := WithoutDentry(s.c, d));
    var dn := v'.node[s.c.vinodes[pp].inum];
    if s.c.vinodes[pi].node.nlinks == 1 then DeadState(s1, pi, pp, dn, v') else SurvivorState(s1, pi, pp, dn, v')
  }

  // What vfs_unlink has found when it gets to the real work.
  ghost predicate CanUnlinkDentry(s: State, pi: Ptr, pp: Ptr, d: Ptr,
                                  freemap': seq<bool>, listed: int, k: int, data': map<int, Block>) {
    && CanForget(s.c, s.v, d) && pi == s.c.dents[d].inode
    && Points(s.c, s.c.dents[d].parent) && pp == s.c.dents[s.c.dents[d].parent].inode
    && |s.dino| == NINODES
    && 0 <= s.c.vinodes[pi].inum < NINODES && 0 <= s.c.vinodes[pp].inum < NINODES
    && s.c.vinodes[pi].inum in s.v.node && s.v.node[s.c.vinodes[pi].inum] == s.c.vinodes[pi].node
    && CanUnlink(s.v, s.c.vinodes[pi].inum, freemap', listed, s.c.vinodes[pp].inum, k, s.c.dents[d].name, data')
  }

  ghost function UnlinkVolume(s: State, pi: Ptr, pp: Ptr, d: Ptr,
                              freemap': seq<bool>, listed: int, k: int, data': map<int, Block>): Volume
    requires CanUnlinkDentry(s, pi, pp, d, freemap', listed, k, data')
  {
    UnlinkedNode(s.v, s.c.vinodes[pi].inum, freemap', listed, s.c.vinodes[pp].inum, k, s.c.dents[d].name, data');
    Unlinked(s.v, s.c.vinodes[pi].inum, freemap', s.c.vinodes[pp].inum, s.c.dents[d].name, data')
  }

  /** Unlinking keeps everything, and a dead inode's vinode has no reference left. */
  lemma UnlinkedStateOk(s: State, pi: Ptr, pp: Ptr, d: Ptr,
                        freemap': seq<bool>, listed: int, k: int, data': map<int, Block>)
    requires StateOk(s) && CanUnlinkDentry(s, pi, pp, d, freemap', listed, k, data')
    ensures var v' := UnlinkVolume(s, pi, pp, d, freemap', listed, k, data');
            && s.c.vinodes[pp].inum in v'.node
            && StateOk(UnlinkedState(s, pi, pp, d, v'))
            && v'.names == s.v.names - {Key(s.c.vinodes[pp].inum, s.c.dents[d].name)}
            && NodesOk(s.v) && NodesOk(v')
            && Leaked(v') == Leaked(s.v) + (if s.c.vinodes[pi].node.nlinks != 1 then {} else
                 Addrs(s.c.vinodes[pi].node, listed, s.c.vinodes[pi].node.blocks))
    ensures s.c.vinodes[pi].node.nlinks == 1 ==> WithoutDentry(s.c, d).vinodes[pi].ref == 0
  {
    hide StateOk, VolumeOk, InodesOk, CacheOk, KeepsCached, DentsLive, NodeOk, CanUnlink, Unlinked, OneShorter, Leaked,
      NodesOk, SmallDirs, LinksCounted, WithoutDentry, DeadState, SurvivorState;
    var i, dir := s.c.vinodes[pi].inum, s.c.vinodes[pp].inum;
    var v' := UnlinkVolume(s, pi, pp, d, freemap', listed, k, data');
    UnlinkedNode(s.v, i, freemap', listed, dir, k, s.c.dents[d].name, data');
    StateParts(s);
    UnlinkedOk(s.v, i, freemap', listed, dir, k, s.c.dents[d].name, data');
    VolumeParts(v');
    StateDentsLive(s);
    WithoutDentryOk(s, d);
    UnlinkFrames(s, d, v', i, dir, OneShorter(s.v.node[dir]));
    ShorterSmall(s.v.node, dir);
    ForgottenVinode(s.c, d, pi);
    ForgottenVinode(s.c, d, pp);
    var s1 := s.(c := WithoutDentry(s.c, d));
    if s.c.vinodes[pi].node.nlinks == 1 {
      DeadOk(s1, pi, pp, v'.node[dir], v');
    } else {
      SurvivorOk(s1, pi, pp, v'.node[dir], v');
    }
  }

  lemma ForgottenVinode(c: Cache, d: Ptr, p: Ptr)
    requires Points(c, d) && p in c.vinodes
    ensures var c' := WithoutDentry(c, d);
            p in c'.vinodes && c'.vinodes[p].inum == c.vinodes[p].inum && c'.vinodes[p].node == c.vinodes[p].node
  {
  }

  lemma StillLive(c: Cache, v: Volume, d: Ptr)
    requires DentsLive(c, v) && Points(c, d)
    ensures DentsLive(WithoutDentry(c, d), v)
  {
  }

  lemma UnlinkFrames(s: State, d: Ptr, v': Volume, i: int, dir: int, dn: Node)
    requires StateOk(s) && CanForget(s.c, s.v, d) && DentsLive(s.c, s.v)
    requires Points(s.c, s.c.dents[d].parent) && i == Inum(s.c, d) && dir == Inum(s.c, s.c.dents[d].parent)
    requires VolumeOk(v') && v'.names == s.v.names - {Key(dir, s.c.dents[d].name)}
    requires IsDir(s.v, dir) && i in s.v.node && dn.kind == Dir
    requires var left := if s.v.node[i].nlinks == 1 then s.v.node - {i} else s.v.node[i := OneLinkFewer(s.v.node[i])];
             v'.node == left[dir := dn]
    ensures var c1 := WithoutDentry(s.c, d);
            KeepsCached(c1, s.v, v') && DentsLive(c1, v') && DentsLive(c1, s.v)
  {
    hide StateOk, VolumeOk, KeepsCached, DentsOk, LinksCounted, NodesOk, DentsLive, RefsOk, FilesOk, OffsetsOk,
      InodesOk;
    StateParts(s);
    VolumeParts(v');
    UnlinkKeepsCached(s.c, s.v, d, v');
    StillLive(s.c, s.v, d);
  }
}
