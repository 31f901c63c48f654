/**
 The two hash tables of the VFS: dentries by parent and name, vinodes by super block and
 inode number.
 */
module VfsTables {
  import opened Base
  import opened RfsLayout
  import opened VfsState
  import opened HashTable

  // ---------------------------------------------------------------------
  // Dentry keys: a parent address and a name in some NUL-terminated buffer
  // ---------------------------------------------------------------------

  datatype DentryKey = DentryKey(parent: Ptr, name: Bytes)

  const WORD: nat := 0x1_0000_0000_0000_0000

  function Djb(h: nat, name: Bytes): (r: nat)
    decreases |name|
  {
    if name == [] then h else Djb((h * 33 + name[0]) % WORD, name[1..])
  }

  function DentryHash(name: Bytes, parent: nat): nat {
    (Djb(5381, name) * 33 + parent) % WORD % HASH_TABLE_SIZE
  }

  // dentry_hash_func and dentry_hash_equal
  function DentryFunc(k: DentryKey): nat { DentryHash(CStr(k.name), k.parent) }
  predicate DentryEqual(k: DentryKey, l: DentryKey) { CStr(k.name) == CStr(l.name) && k.parent == l.parent }

  // What a key means.
  ghost function DentryAbs(k: DentryKey): DKey { DKey(k.parent, CStr(k.name)) }
  ghost function DKeyHash(k: DKey): nat { DentryHash(k.name, k.parent) }

  lemma CStrFrom(s: Bytes, k: nat)
    requires k < |s|
    ensures CStr(s[k..]) == if s[k] == 0 then [] else [s[k]] + CStr(s[k + 1..])
  {
    assert s[k..][1..] == s[k + 1..];
  }

  /** dentry_hash_func reads the name up to its NUL, so it depends on the string only. */
  method DentryHashFunc(buf: Bytes, parent: Ptr) returns (h: nat)
    requires 0 in buf
    ensures h == DentryFunc(DentryKey(parent, buf))
  {
    hide CStr;
    ghost var nul :| 0 <= nul < |buf| && buf[nul] == 0;
    ghost var name := CStr(buf);
    assert buf[0..] == buf;
    h := 5381;
    var k := 0;
    while buf[k] != 0
      invariant 0 <= k <= nul
      invariant Djb(5381, name) == Djb(h, CStr(buf[k..]))
      decreases nul - k
    {
      CStrFrom(buf, k);
      assert ([buf[k]] + CStr(buf[k + 1..]))[1..] == CStr(buf[k + 1..]);
      h := (h * 33 + buf[k]) % WORD;
      k := k + 1;
    }
    CStrFrom(buf, k);
    h := (h * 33 + parent) % WORD;
    h := h % HASH_TABLE_SIZE;
  }

  /** strcmp tells whether two NUL-terminated buffers hold the same string. */
  method SameString(a: Bytes, b: Bytes) returns (same: bool)
    requires 0 in a && 0 in b
    ensures same <==> CStr(a) == CStr(b)
  {
    hide CStr;
    ghost var na :| 0 <= na < |a| && a[na] == 0;
    ghost var nb :| 0 <= nb < |b| && b[nb] == 0;
    assert a[0..] == a && b[0..] == b;
    var k := 0;
    while a[k] != 0 && a[k] == b[k]
      invariant 0 <= k <= na && k <= nb
      invariant CStr(a) == CStr(b) <==> CStr(a[k..]) == CStr(b[k..])
      decreases na - k
    {
      CStrFrom(a, k);
      CStrFrom(b, k);
      SameHead(a[k], CStr(a[k + 1..]), b[k], CStr(b[k + 1..]));
      k := k + 1;
    }
    CStrFrom(a, k);
    CStrFrom(b, k);
    SameHead(a[k], CStr(a[k + 1..]), b[k], CStr(b[k + 1..]));
    same := a[k] == b[k];
  }

  method DentryHashEqual(k: DentryKey, l: DentryKey) returns (same: bool)
    requires 0 in k.name && 0 in l.name
    ensures same <==> DentryEqual(k, l)
  {
    hide CStr;
    same := SameString(k.name, l.name);
    same := same && k.parent == l.parent;
  }

  lemma SameHead(x: byte, s: Bytes, y: byte, t: Bytes)
    ensures [x] + s == [y] + t <==> x == y && s == t
  {
    if [x] + s == [y] + t {
      assert x == ([x] + s)[0] && y == ([y] + t)[0];
      assert s == ([x] + s)[1..] && t == ([y] + t)[1..];
    }
  }

  type DentryTable = Table<DentryKey, Ptr>

  ghost predicate DentryTableIs(t: DentryTable, m: map<DKey, Ptr>) { TableIs(t, DentryFunc, DentryAbs, DKeyHash, m) }

  lemma DentryKeysLawful()
    ensures Lawful(DentryFunc, DentryEqual, DentryAbs, DKeyHash)
  {
  }

  // A name in a dentry, as a C string.
  lemma NameInBuffer(name: Bytes)
    requires 0 !in name
    ensures CStr(name + [0]) == name
  {
    CStrOfTerminated(name, []);
    assert name + [0] + [] == name + [0];
  }

  /** hash_get_dentry */
  method HashGetDentry(t: DentryTable, parent: Ptr, name: Bytes, ghost m: map<DKey, Ptr>) returns (d: Option<Ptr>)
    requires DentryTableIs(t, m)
    ensures var k := DKey(parent, CStr(name)); d == if k in m then Some(m[k]) else None
  {
    DentryKeysLawful();
    d := HashGet(t, DentryFunc, DentryEqual, DentryKey(parent, name), DentryAbs, DKeyHash, m);
  }

  /** hash_put_dentry */
  method HashPutDentry(t: DentryTable, parent: Ptr, name: Bytes, d: Ptr, page: Ptr, ghost m: map<DKey, Ptr>)
    returns (ret: int, t': DentryTable)
    requires DentryTableIs(t, m) && page != NULL && page !in t.nodes && 0 !in name
    ensures ret == if DKey(parent, name) in m then -1 else 0
    ensures ret != 0 ==> t' == t
    ensures ret == 0 ==> DentryTableIs(t', m[DKey(parent, name) := d]) && t'.nodes.Keys == t.nodes.Keys + {page}
  {
    DentryKeysLawful();
    NameInBuffer(name);
    ret, t' := HashPut(t, DentryFunc, DentryEqual, DentryKey(parent, name + [0]), d, page, DentryAbs, DKeyHash, m);
  }

  /** hash_erase_dentry */
  method HashEraseDentry(t: DentryTable, parent: Ptr, name: Bytes, ghost m: map<DKey, Ptr>)
    returns (ret: int, t': DentryTable)
    requires DentryTableIs(t, m) && 0 !in name
    ensures ret == if DKey(parent, name) in m then 0 else -1
    ensures DentryTableIs(t', m - {DKey(parent, name)}) && t'.nodes.Keys <= t.nodes.Keys
  {
    DentryKeysLawful();
    NameInBuffer(name);
    ret, t' := HashErase(t, DentryFunc, DentryEqual, DentryKey(parent, name + [0]), DentryAbs, DKeyHash, m);
  }

  // ---------------------------------------------------------------------
  // Vinode keys: a super block and an inode number
  // ---------------------------------------------------------------------

  const SB: Ptr := 1                    // the super block of the mounted volume

  datatype VinodeKey = VinodeKey(sb: Ptr, inum: int)
  type MountedKey = k: VinodeKey | k.sb == SB witness VinodeKey(SB, 0)

  // vinode_hash_func and vinode_hash_equal
  function VinodeFunc(k: MountedKey): nat { k.inum % HASH_TABLE_SIZE }
  predicate VinodeEqual(k: MountedKey, l: MountedKey) { k.inum == l.inum && k.sb == l.sb }

  ghost function VinodeAbs(k: MountedKey): int { k.inum }
  ghost function InumHash(i: int): nat { i % HASH_TABLE_SIZE }

  type VinodeTable = Table<MountedKey, Ptr>

  ghost predicate VinodeTableIs(t: VinodeTable, m: map<int, Ptr>) { TableIs(t, VinodeFunc, VinodeAbs, InumHash, m) }

  lemma VinodeKeysLawful()
    ensures Lawful(VinodeFunc, VinodeEqual, VinodeAbs, InumHash)
  {
  }

  /** hash_get_vinode */
  method HashGetVinode(t: VinodeTable, inum: int, ghost m: map<int, Ptr>) returns (p: Option<Ptr>)
    requires VinodeTableIs(t, m)
    ensures p == if inum in m && 0 <= inum then Some(m[inum]) else None
  {
    if inum < 0 { return None; }
    VinodeKeysLawful();
    var k: MountedKey := VinodeKey(SB, inum);
    p := HashGet(t, VinodeFunc, VinodeEqual, k, VinodeAbs, InumHash, m);
  }

  /** hash_put_vinode */
  method HashPutVinode(t: VinodeTable, inum: int, p: Ptr, page: Ptr, ghost m: map<int, Ptr>)
    returns (ret: int, t': VinodeTable)
    requires VinodeTableIs(t, m) && page != NULL && page !in t.nodes
    ensures ret == if inum in m || inum < 0 then -1 else 0
    ensures ret != 0 ==> t' == t
    ensures ret == 0 ==> VinodeTableIs(t', m[inum := p]) && t'.nodes.Keys == t.nodes.Keys + {page}
  {
    if inum < 0 { return -1, t; }
    VinodeKeysLawful();
    var k: MountedKey := VinodeKey(SB, inum);
    ret, t' := HashPut(t, VinodeFunc, VinodeEqual, k, p, page, VinodeAbs, InumHash, m);
  }

  /** hash_erase_vinode */
  method HashEraseVinode(t: VinodeTable, inum: int, ghost m: map<int, Ptr>) returns (ret: int, t': VinodeTable)
    requires VinodeTableIs(t, m)
    ensures ret == if inum in m && 0 <= inum then 0 else -1
    ensures t'.nodes.Keys <= t.nodes.Keys
    ensures inum >= 0 ==> VinodeTableIs(t', m - {inum})
    ensures inum < 0 ==> t' == t
  {
    if inum < 0 { return -1, t; }
    VinodeKeysLawful();
    var k: MountedKey := VinodeKey(SB, inum);
    ret, t' := HashErase(t, VinodeFunc, VinodeEqual, k, VinodeAbs, InumHash, m);
  }
}
