/**
 The on-disk shapes of RFS: blocks of bytes, 32-byte directory entries inside
 them, and disk inodes with direct blocks only.
 */
module RfsLayout {
  import opened Base

  type Name = seq<byte>

  const BLKSIZE: int := 4096
  const DIRENT: int := 32            // sizeof(struct rfs_direntry)
  const NAME_LEN: int := 28          // RFS_MAX_FILE_NAME_LEN
  const EPB: int := 128              // directory entries per block
  const DIRECT: int := 10            // RFS_DIRECT_BLKNUM
  const NINODES: int := 320          // RFS_BLKSIZE / RFS_INODESIZE * RFS_MAX_INODE_BLKNUM
  const NBLOCKS: int := 100          // RFS_MAX_INODE_BLKNUM * RFS_DIRECT_BLKNUM
  const OFFSET_FREE: int := 12       // RFS_BLK_OFFSET_FREE
  const ROOT: int := 0               // inode number of the root directory

  type Block = b: Bytes | |b| == BLKSIZE witness seq(BLKSIZE, i => 0)

  datatype Kind = File | Dir | Free

  // A disk inode; a vinode caches exactly these fields.
  datatype Node = Node(size: int, kind: Kind, nlinks: int, blocks: int, addrs: seq<int>)

  datatype DirEntry = DirEntry(inum: int, name: Name)

  predicate IsData(a: int) { OFFSET_FREE <= a < OFFSET_FREE + NBLOCKS }

  // ---------------------------------------------------------------------
  // C strings and little-endian integers inside a block
  // ---------------------------------------------------------------------

  function CStr(s: Bytes): (r: Bytes)
    ensures |r| <= |s| && r == s[..|r|] && 0 !in r
    ensures |r| < |s| ==> s[|r|] == 0
  {
    if s == [] || s[0] == 0 then [] else [s[0]] + CStr(s[1..])
  }

  lemma {:induction false} CStrOfTerminated(name: Bytes, rest: Bytes)
    requires 0 !in name
    ensures CStr(name + [0] + rest) == name
  {
    var s := name + [0] + rest;
    if name == [] {
    } else {
      CStrOfTerminated(name[1..], rest);
      assert s[1..] == name[1..] + [0] + rest;
    }
  }

  lemma {:induction false} CStrWhole(s: Bytes)
    ensures CStr(s) == s <==> 0 !in s
  {
    if s != [] {
      CStrWhole(s[1..]);
    }
  }

  function Le32(b: Bytes): (v: int)
    requires |b| == 4
    ensures 0 <= v < 0x1_0000_0000
  {
    var b0: int, b1: int, b2: int, b3: int := b[0], b[1], b[2], b[3];
    b0 + 0x100 * b1 + 0x1_0000 * b2 + 0x100_0000 * b3
  }

  function ToLe32(v: int): (b: Bytes)
    requires 0 <= v < 0x1_0000_0000
    ensures |b| == 4 && Le32(b) == v
  {
    var v1 := v / 0x100;
    var v2 := v1 / 0x100;
    [v % 0x100, v1 % 0x100, v2 % 0x100, v2 / 0x100]
  }

  // ---------------------------------------------------------------------
  // Directory entries
  // ---------------------------------------------------------------------

  // The k-th 32-byte cell of a block.
  function Cell(b: Block, k: int): (c: Bytes)
    requires 0 <= k < EPB
    ensures |c| == DIRENT
  {
    b[DIRENT * k..DIRENT * k + DIRENT]
  }

  function Decode(c: Bytes): DirEntry
    requires |c| == DIRENT
  {
    DirEntry(Le32(c[..4]), CStr(c[4..]))
  }

  function Slot(b: Block, k: int): DirEntry
    requires 0 <= k < EPB
  {
    Decode(Cell(b, k))
  }

  // What fits an entry: an int inode number and a NUL-terminated name of 28 bytes.
  predicate EntryFits(e: DirEntry) {
    0 <= e.inum < 0x8000_0000 && |e.name| < NAME_LEN && 0 !in e.name
  }

  // rfs_add_direntry's two stores into the buffer: the number, then strcpy of the
  // name; bytes of the cell after the terminator keep their old value.
  function PutEntry(b: Block, k: int, e: DirEntry): (r: Block)
    requires 0 <= k < EPB && EntryFits(e)
  {
    var at := DIRENT * k;
    b[..at] + (ToLe32(e.inum) + (e.name + [0] + b[at + 4 + |e.name| + 1..at + DIRENT])) + b[at + DIRENT..]
  }

  lemma PutEntrySlot(b: Block, k: int, e: DirEntry, j: int)
    requires 0 <= k < EPB && 0 <= j < EPB && EntryFits(e)
    ensures Slot(PutEntry(b, k, e), j) == if j == k then e else Slot(b, j)
  {
    var r := PutEntry(b, k, e);
    var at := DIRENT * k;
    if j == k {
      var rest := b[at + 4 + |e.name| + 1..at + DIRENT];
      var cell := ToLe32(e.inum) + (e.name + [0] + rest);
      assert r[at..at + DIRENT] == cell;
      assert cell[..4] == ToLe32(e.inum);
      assert cell[4..] == e.name + [0] + rest;
      CStrOfTerminated(e.name, rest);
    } else if j < k {
      assert r[DIRENT * j..DIRENT * j + DIRENT] == b[DIRENT * j..DIRENT * j + DIRENT];
    } else {
      assert r[DIRENT * j..DIRENT * j + DIRENT] == b[DIRENT * j..DIRENT * j + DIRENT];
    }
  }

  /** The bytes of an entry: the number, lowest byte first, the name and a NUL; no other changes. */
  lemma PutEntryBytes(b: Block, k: int, e: DirEntry)
    requires 0 <= k < EPB && EntryFits(e)
    ensures var r, at, end := PutEntry(b, k, e), 32 * k, 32 * k + 4 + |e.name|;
            && r[at] == e.inum % 0x100 && r[at + 1] == e.inum / 0x100 % 0x100
            && r[at + 2] == e.inum / 0x1_0000 % 0x100 && r[at + 3] == e.inum / 0x100_0000
            && r[at + 4..end] == e.name && r[end] == 0
            && forall j {:trigger r[j]} :: 0 <= j < at || end < j < 4096 ==> r[j] == b[j]
  {
    var r, at := PutEntry(b, k, e), DIRENT * k;
    var le := ToLe32(e.inum);
    assert r[at] == le[0] && r[at + 1] == le[1] && r[at + 2] == le[2] && r[at + 3] == le[3];
  }

  // ---------------------------------------------------------------------
  // Nodes and the directory they describe
  // ---------------------------------------------------------------------

  predicate NodeOk(n: Node) {
    && |n.addrs| == DIRECT
    && 1 <= n.blocks <= DIRECT
    && 0 <= n.size <= n.blocks * BLKSIZE
    && (forall j {:trigger n.addrs[j]} :: 0 <= j < n.blocks ==> IsData(n.addrs[j]))
    && (n.kind == Dir ==> n.size % DIRENT == 0)
  }

  predicate Blocks(data: map<int, Block>) {
    forall a {:trigger a in data} :: OFFSET_FREE <= a < OFFSET_FREE + NBLOCKS ==> a in data
  }

  function NumEntries(n: Node): int { n.size / DIRENT }

  function EntryAt(n: Node, data: map<int, Block>, k: int): DirEntry
    requires NodeOk(n) && Blocks(data) && 0 <= k < NumEntries(n)
  {
    assert k / EPB < n.blocks;
    Slot(data[n.addrs[k / EPB]], k % EPB)
  }

  // The entries of a directory file, in order.
  function Listing(n: Node, data: map<int, Block>): (es: seq<DirEntry>)
    requires NodeOk(n) && Blocks(data)
    ensures |es| == NumEntries(n)
    ensures forall k {:trigger es[k]} :: 0 <= k < |es| ==> es[k] == EntryAt(n, data, k)
  {
    seq(NumEntries(n), k requires 0 <= k < NumEntries(n) => EntryAt(n, data, k))
  }

  // The first entry with a given name, or the length of the list.
  function Find(es: seq<DirEntry>, name: Name): (k: nat)
    ensures k <= |es|
    ensures k < |es| ==> es[k].name == name
    ensures forall j {:trigger es[j]} :: 0 <= j < k ==> es[j].name != name
  {
    if es == [] || es[0].name == name then 0
    else
      var k := Find(es[1..], name);
      assert forall j {:trigger es[j]} :: 0 < j < 1 + k ==> es[j] == es[1..][j - 1];
      1 + k
  }
}
