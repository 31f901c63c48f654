/**
 File contents: rfs_read and rfs_write move bytes between a buffer and the blocks
 of a file, one block at a time, through the device's single I/O buffer.

 `Flat` lays the blocks of a file end to end; the content of the file is its first
 `size` bytes.
 */
module RfsFile {
  import opened Base
  import opened RfsLayout

  // ---------------------------------------------------------------------
  // The flat view of a file
  // ---------------------------------------------------------------------

  // A file whose blocks are distinct data blocks, all marked used.
  predicate FileOk(n: Node, freemap: seq<bool>) {
    && NodeOk(n) && |freemap| == NBLOCKS
    && (forall j {:trigger n.addrs[j]} :: 0 <= j < n.blocks ==> freemap[n.addrs[j] - OFFSET_FREE])
    && Distinct(n)
  }

  predicate Distinct(n: Node)
    requires NodeOk(n)
  {
    forall i, j {:trigger n.addrs[i], n.addrs[j]} :: 0 <= i < j < n.blocks ==> n.addrs[i] != n.addrs[j]
  }

  function ByteAt(n: Node, data: map<int, Block>, p: int): byte
    requires NodeOk(n) && Blocks(data) && 0 <= p < n.blocks * BLKSIZE
  {
    data[n.addrs[p / BLKSIZE]][p % BLKSIZE]
  }

  function BlockAt(n: Node, data: map<int, Block>, b: int): (r: Block)
    requires NodeOk(n) && Blocks(data) && 0 <= b < n.blocks
  {
    data[n.addrs[b]]
  }

  function Flat(n: Node, data: map<int, Block>): (f: Bytes)
    requires NodeOk(n) && Blocks(data)
    ensures |f| == n.blocks * BLKSIZE
    ensures forall p {:trigger f[p]} :: 0 <= p < |f| ==> f[p] == ByteAt(n, data, p)
  {
    seq(n.blocks * BLKSIZE, p requires 0 <= p < n.blocks * BLKSIZE => ByteAt(n, data, p))
  }

  function Content(n: Node, data: map<int, Block>): (c: Bytes)
    requires NodeOk(n) && Blocks(data)
    ensures |c| == n.size
  {
    Flat(n, data)[..n.size]
  }

  lemma FlatSlice(n: Node, data: map<int, Block>, b: int, lo: int, hi: int)
    requires NodeOk(n) && Blocks(data) && 0 <= b < n.blocks && 0 <= lo <= hi <= BLKSIZE
    ensures Flat(n, data)[b * BLKSIZE + lo..b * BLKSIZE + hi] == data[n.addrs[b]][lo..hi]
  {
    var f := Flat(n, data);
    forall x | 0 <= x < hi - lo ensures f[b * BLKSIZE + lo..b * BLKSIZE + hi][x] == data[n.addrs[b]][lo..hi][x] {
      var p := b * BLKSIZE + lo + x;
      assert p / BLKSIZE == b && p % BLKSIZE == lo + x;
    }
  }

  // Overwriting block b of the file.
  lemma FlatSet(n: Node, data: map<int, Block>, b: int, c: Block)
    requires NodeOk(n) && Distinct(n) && Blocks(data) && 0 <= b < n.blocks
    ensures Blocks(data[n.addrs[b] := c])
    ensures Flat(n, data[n.addrs[b] := c])
         == Flat(n, data)[..b * BLKSIZE] + c + Flat(n, data)[(b + 1) * BLKSIZE..]
  {
    var data' := data[n.addrs[b] := c];
    var f, f' := Flat(n, data), Flat(n, data');
    var want := f[..b * BLKSIZE] + c + f[(b + 1) * BLKSIZE..];
    forall p | 0 <= p < |f'| ensures f'[p] == want[p] {
      if p / BLKSIZE == b {
        assert p % BLKSIZE == p - b * BLKSIZE;
      } else {
        assert n.addrs[p / BLKSIZE] != n.addrs[b];
        assert f'[p] == f[p];
      }
    }
  }

  // Appending a newly allocated block.
  function Grown(n: Node, a: int): Node
    requires |n.addrs| == DIRECT && 0 <= n.blocks < DIRECT
  {
    n.(addrs := n.addrs[n.blocks := a], blocks := n.blocks + 1)
  }

  lemma FlatGrow(n: Node, data: map<int, Block>, a: int, c: Block)
    requires NodeOk(n) && Blocks(data) && n.blocks < DIRECT && IsData(a) && n.kind == File
    requires forall j {:trigger n.addrs[j]} :: 0 <= j < n.blocks ==> n.addrs[j] != a
    ensures NodeOk(Grown(n, a)) && Blocks(data[a := c])
    ensures Flat(Grown(n, a), data[a := c]) == Flat(n, data) + c
  {
    var data' := data[a := c];
    var f, f' := Flat(n, data), Flat(Grown(n, a), data');
    forall p | 0 <= p < |f'| ensures f'[p] == (f + c)[p] {
      if p / BLKSIZE == n.blocks {
        assert p % BLKSIZE == p - n.blocks * BLKSIZE;
      } else {
        assert n.addrs[p / BLKSIZE] != a;
      }
    }
  }

  // ---------------------------------------------------------------------
  // Block allocation
  // ---------------------------------------------------------------------

  // How many blocks are free.
  function FreeCount(f: seq<bool>): nat {
    if f == [] then 0 else FreeCount(f[..|f| - 1]) + (if f[|f| - 1] then 0 else 1)
  }

  lemma {:induction false} FreeCountTake(f: seq<bool>, b: nat)
    requires b < |f| && !f[b]
    ensures FreeCount(f[b := true]) == FreeCount(f) - 1
  {
    var n := |f| - 1;
    if b == n {
      assert f[b := true][..n] == f[..n];
    } else {
      FreeCountTake(f[..n], b);
      assert f[b := true][..n] == f[..n][b := true];
    }
  }

  lemma {:induction false} NoneFree(f: seq<bool>)
    ensures FreeCount(f) == 0 <==> forall b {:trigger f[b]} :: 0 <= b < |f| ==> f[b]
  {
    if f != [] {
      var n := |f| - 1;
      NoneFree(f[..n]);
      assert forall b {:trigger f[b]} :: 0 <= b < n ==> f[b] == f[..n][b];
    }
  }

  /** rfs_alloc_block: the lowest free block, or a panic when there is none. */
  method AllocBlock(freemap: seq<bool>) returns (ok: bool, a: int, freemap': seq<bool>)
    requires |freemap| == NBLOCKS
    ensures ok ==> IsData(a) && !freemap[a - OFFSET_FREE] && freemap' == freemap[a - OFFSET_FREE := true]
    ensures ok ==> forall b {:trigger freemap[b]} :: 0 <= b < a - OFFSET_FREE ==> freemap[b]
    ensures !ok ==> freemap' == freemap
    ensures ok <==> FreeCount(freemap) > 0
    ensures ok ==> FreeCount(freemap') == FreeCount(freemap) - 1
  {
    hide FreeCount;
    NoneFree(freemap);
    freemap' := freemap;
    a := -1;
    ok := false;
    var block := 0;
    while block < NBLOCKS
      invariant 0 <= block <= NBLOCKS
      invariant forall b {:trigger freemap[b]} :: 0 <= b < block ==> freemap[b]
    {
      if !freemap[block] {
        FreeCountTake(freemap, block);
        return true, OFFSET_FREE + block, freemap[block := true];
      }
      block := block + 1;
    }
  }

  // The free map after the blocks of `news` were taken.
  function Taken(freemap: seq<bool>, news: seq<int>): (f: seq<bool>)
    requires |freemap| == NBLOCKS
    ensures |f| == NBLOCKS
    ensures forall b {:trigger f[b]} :: 0 <= b < NBLOCKS ==> (f[b] <==> freemap[b] || OFFSET_FREE + b in news)
  {
    seq(NBLOCKS, b requires 0 <= b < NBLOCKS => freemap[b] || OFFSET_FREE + b in news)
  }

  // Every block of `news` was free when it was taken.
  predicate WereFree(freemap: seq<bool>, news: seq<int>)
    requires |freemap| == NBLOCKS
  {
    && (forall x {:trigger news[x]} :: 0 <= x < |news| ==> IsData(news[x]) && !freemap[news[x] - OFFSET_FREE])
    && (forall x, y {:trigger news[x], news[y]} :: 0 <= x < y < |news| ==> news[x] != news[y])
  }

  // The node after its blocks grew by `news`.
  function Extended(n: Node, news: seq<int>): (n': Node)
    requires |n.addrs| == DIRECT && 0 <= n.blocks <= n.blocks + |news| <= DIRECT
    ensures |n'.addrs| == DIRECT
  {
    n.(blocks := n.blocks + |news|,
       addrs := n.addrs[..n.blocks] + news + n.addrs[n.blocks + |news|..])
  }

  lemma ExtendedStep(n: Node, news: seq<int>, a: int)
    requires |n.addrs| == DIRECT && 0 <= n.blocks && n.blocks + |news| < DIRECT
    ensures Extended(n, news + [a]) == Grown(Extended(n, news), a)
  {
    assert Extended(n, news + [a]).addrs == Grown(Extended(n, news), a).addrs;
  }

  lemma ExtendedAddrs(n: Node, news: seq<int>, j: int)
    requires |n.addrs| == DIRECT && 0 <= n.blocks <= n.blocks + |news| <= DIRECT
    requires 0 <= j < n.blocks + |news|
    ensures Extended(n, news).addrs[j] == if j < n.blocks then n.addrs[j] else news[j - n.blocks]
  {
  }

  // ---------------------------------------------------------------------
  // rfs_write
  // ---------------------------------------------------------------------

  // What a write touches: the vinode, the device with its buffer, the free map.
  datatype Io = Io(n: Node, data: map<int, Block>, freemap: seq<bool>, iobuffer: Block)

  predicate IoOk(s: Io) {
    FileOk(s.n, s.freemap) && Blocks(s.data) && s.n.kind == File
  }

  ghost function BlockSet(n: Node): set<int>
    requires 0 <= n.blocks <= |n.addrs|
  {
    set j {:trigger n.addrs[j]} | 0 <= j < n.blocks :: n.addrs[j]
  }

  // From s0 to s the file took the blocks `news`; no foreign block changed.
  ghost predicate Grew(s0: Io, s: Io, news: seq<int>) {
    && IoOk(s0) && IoOk(s)
    && s0.n.blocks + |news| <= DIRECT && WereFree(s0.freemap, news)
    && s.n == Extended(s0.n, news) && s.freemap == Taken(s0.freemap, news)
    && s.data.Keys == s0.data.Keys
    && forall a {:trigger s.data[a]} :: a in s0.data && a !in BlockSet(s.n) ==> s.data[a] == s0.data[a]
  }

  lemma GrewSelf(s: Io)
    requires IoOk(s)
    ensures Grew(s, s, [])
  {
  }

  lemma GrewOverwrite(s0: Io, s: Io, news: seq<int>, b: int, c: Block)
    requires Grew(s0, s, news) && 0 <= b < s.n.blocks
    ensures Grew(s0, s.(data := s.data[s.n.addrs[b] := c], iobuffer := c), news)
  {
    assert s.n.addrs[b] in BlockSet(s.n);
  }

  lemma GrownOk(n: Node, freemap: seq<bool>, a: int)
    requires FileOk(n, freemap) && n.kind == File && n.blocks < DIRECT
    requires IsData(a) && !freemap[a - OFFSET_FREE]
    ensures FileOk(Grown(n, a), freemap[a - OFFSET_FREE := true])
    ensures BlockSet(Grown(n, a)) == BlockSet(n) + {a}
  {
    var n' := Grown(n, a);
    assert forall j {:trigger n'.addrs[j]} :: 0 <= j < n.blocks ==> n'.addrs[j] == n.addrs[j];
    assert n'.addrs[n.blocks] == a;
    forall x | x in BlockSet(n) + {a} ensures x in BlockSet(n') {
      if x in BlockSet(n) {
        var j :| 0 <= j < n.blocks && n.addrs[j] == x;
        assert n'.addrs[j] == x;
      }
    }
  }

  lemma TakenStep(freemap: seq<bool>, news: seq<int>, a: int)
    requires |freemap| == NBLOCKS && WereFree(freemap, news) && IsData(a) && !Taken(freemap, news)[a - OFFSET_FREE]
    ensures WereFree(freemap, news + [a])
    ensures Taken(freemap, news + [a]) == Taken(freemap, news)[a - OFFSET_FREE := true]
  {
    var news' := news + [a];
    assert a !in news && !freemap[a - OFFSET_FREE];
    assert forall x {:trigger x in news'} :: x in news' <==> x in news || x == a;
  }

  lemma GrewTake(s0: Io, s: Io, news: seq<int>, a: int, c: Block)
    requires Grew(s0, s, news) && s.n.blocks < DIRECT
    requires IsData(a) && !s.freemap[a - OFFSET_FREE]
    ensures Grew(s0, Io(Grown(s.n, a), s.data[a := c], s.freemap[a - OFFSET_FREE := true], c), news + [a])
  {
    GrownOk(s.n, s.freemap, a);
    TakenStep(s0.freemap, news, a);
    ExtendedStep(s0.n, news, a);
    hide Extended, Taken, WereFree, FileOk, Grown, BlockSet;
    var s' := Io(Grown(s.n, a), s.data[a := c], s.freemap[a - OFFSET_FREE := true], c);
    assert |news + [a]| == |news| + 1;
  }

  function Min(a: int, b: int): int { if a < b then a else b }

  // The flat file with block b replaced, or appended when b is just past the end.
  function SetBlock(f: Bytes, b: int, c: Block): Bytes
    requires 0 <= b && b * BLKSIZE <= |f|
  {
    f[..b * BLKSIZE] + c + f[Min((b + 1) * BLKSIZE, |f|)..]
  }

  // Fill the buffer and write it as block b of the file, allocating that block when
  // the file does not have it yet.
  method PutBlock(ghost s0: Io, s: Io, ghost news: seq<int>, b: int, c: Block)
    returns (ok: bool, s': Io, ghost news': seq<int>)
    requires Grew(s0, s, news) && 0 <= b <= s.n.blocks && b < DIRECT
    ensures ok ==> Grew(s0, s', news') && s'.iobuffer == c
    ensures b < s.n.blocks ==> ok && news' == news
    ensures ok ==> Flat(s'.n, s'.data) == SetBlock(Flat(s.n, s.data), b, c)
    ensures !ok ==> b == s.n.blocks && FreeCount(s.freemap) == 0
  {
    hide FreeCount;
    news' := news;
    s' := s;
    ok := true;
    if b == s.n.blocks {
      var a, freemap';
      ok, a, freemap' := AllocBlock(s.freemap);
      if ok {
        GrewTake(s0, s, news, a, c);
        FlatGrow(s.n, s.data, a, c);
        s' := Io(Grown(s.n, a), s.data[a := c], freemap', c);
        news' := news + [a];
        assert Flat(s.n, s.data)[..b * BLKSIZE] == Flat(s.n, s.data);
      }
    } else {
      GrewOverwrite(s0, s, news, b, c);
      FlatSet(s.n, s.data, b, c);
      s' := s.(data := s.data[s.n.addrs[b] := c], iobuffer := c);
    }
  }

  // The flat file once the first `upto` bytes of the buffer are in place.
  function Spliced(f: Bytes, buf: Bytes, off: int, upto: int): (r: Bytes)
    requires 0 <= off <= |f| && 0 <= upto <= |buf|
  {
    f[..off] + buf[..upto] + f[Min(off + upto, |f|)..]
  }

  // Does the write leave the rest of its last block alone?  It does when it ends on
  // a block boundary, and when it starts and ends inside one block; otherwise the
  // last block is written without having been read.
  predicate KeepsTail(off: int, len: int) {
    (off + len) % BLKSIZE == 0 || (off % BLKSIZE != 0 && off % BLKSIZE + len < BLKSIZE)
  }

  // What the I/O buffer holds once `upto` bytes, up to a block boundary, are written:
  // the last block written, or what it held before the write.
  function BufferAt(f: Bytes, io0: Block, buf: Bytes, off: int, upto: int): Block
    requires 0 <= off <= |f| && 0 <= upto <= |buf|
    requires upto == 0 || upto >= BLKSIZE || off % BLKSIZE + upto == BLKSIZE
  {
    if upto == 0 then io0
    else if upto >= BLKSIZE then buf[upto - BLKSIZE..upto]
    else f[off - off % BLKSIZE..off] + buf[..upto]
  }

  // The bytes of the buffer that go in before the last, partial block.
  function Whole(off: int, len: int): int { len - (off + len) % BLKSIZE }

  // The flat file after the write, exactly.
  function WriteFlat(f: Bytes, io0: Block, buf: Bytes, off: int): (r: Bytes)
    requires 0 <= off <= |f| && |f| % BLKSIZE == 0
  {
    var end := off + |buf|;
    if KeepsTail(off, |buf|) then Spliced(f, buf, off, |buf|)
    else
      f[..off] + buf + BufferAt(f, io0, buf, off, Whole(off, |buf|))[end % BLKSIZE..]
        + f[Min(end - end % BLKSIZE + BLKSIZE, |f|)..]
  }

  // Replacing the block just after what has been spliced in so far.
  lemma SplicedSet(f: Bytes, buf: Bytes, off: int, upto: int, b: int, c: Block)
    requires 0 <= off <= |f| && 0 <= upto <= |buf| && off + upto == b * BLKSIZE
    ensures b * BLKSIZE <= |Spliced(f, buf, off, upto)|
    ensures SetBlock(Spliced(f, buf, off, upto), b, c)
         == f[..off] + buf[..upto] + c + f[Min(b * BLKSIZE + BLKSIZE, |f|)..]
  {
    var g, k := Spliced(f, buf, off, upto), b * BLKSIZE + BLKSIZE;
    assert g[..b * BLKSIZE] == f[..off] + buf[..upto];
    if off + upto <= |f| {
      assert |g| == |f|;
      forall x | k <= x < |f| ensures g[x] == f[x] {
        assert g[x] == f[off + upto..][x - (off + upto)];
      }
    }
    assert g[Min(k, |g|)..] == f[Min(k, |f|)..];
  }

  lemma SpliceFirst(f: Bytes, buf: Bytes, off: int, first: int, c: Block)
    requires 0 <= off < |f| && |f| % BLKSIZE == 0 && 0 <= first <= |buf|
    requires off % BLKSIZE + first <= BLKSIZE
    requires var b := off / BLKSIZE;
             c == f[b * BLKSIZE..off] + buf[..first] + f[off + first..(b + 1) * BLKSIZE]
    ensures SetBlock(f, off / BLKSIZE, c) == Spliced(f, buf, off, first)
  {
    var b := off / BLKSIZE;
    assert (b + 1) * BLKSIZE <= |f|;
    assert f[..off] == f[..b * BLKSIZE] + f[b * BLKSIZE..off];
    assert f[off + first..] == f[off + first..(b + 1) * BLKSIZE] + f[(b + 1) * BLKSIZE..];
  }

  lemma SpliceFull(f: Bytes, buf: Bytes, off: int, upto: int, b: int)
    requires 0 <= off <= |f| && 0 <= upto && upto + BLKSIZE <= |buf| && off + upto == b * BLKSIZE
    ensures b * BLKSIZE <= |Spliced(f, buf, off, upto)|
    ensures SetBlock(Spliced(f, buf, off, upto), b, buf[upto..upto + BLKSIZE]) == Spliced(f, buf, off, upto + BLKSIZE)
  {
    SplicedSet(f, buf, off, upto, b, buf[upto..upto + BLKSIZE]);
    hide SetBlock;
    assert buf[..upto + BLKSIZE] == buf[..upto] + buf[upto..upto + BLKSIZE];
  }

  lemma RestArithmetic(off: int, len: int, upto: int)
    requires 0 <= off && 0 <= upto < len < upto + BLKSIZE && (off + upto) % BLKSIZE == 0
    requires upto == 0 || upto >= BLKSIZE || off % BLKSIZE + upto == BLKSIZE
    ensures (off + len) % BLKSIZE == len - upto && Whole(off, len) == upto && !KeepsTail(off, len)
  {
  }

  lemma FourParts(a: Bytes, b: Bytes, c: Bytes, d: Bytes, e: Bytes)
    ensures (a + b) + (c + d) + e == a + (b + c) + d + e
  {
  }

  lemma SpliceRest(f: Bytes, io0: Block, buf: Bytes, off: int, upto: int, b: int, c: Block)
    requires 0 <= off <= |f| && |f| % BLKSIZE == 0
    requires 0 <= upto < |buf| < upto + BLKSIZE && off + upto == b * BLKSIZE
    requires upto == 0 || upto >= BLKSIZE || off % BLKSIZE + upto == BLKSIZE
    requires c == buf[upto..] + BufferAt(f, io0, buf, off, upto)[|buf| - upto..]
    ensures b * BLKSIZE <= |Spliced(f, buf, off, upto)|
    ensures SetBlock(Spliced(f, buf, off, upto), b, c) == WriteFlat(f, io0, buf, off)
  {
    hide BufferAt, KeepsTail, SetBlock, Spliced, WriteFlat, Whole;
    SplicedSet(f, buf, off, upto, b, c);
    RestArithmetic(off, |buf|, upto);
    var tail := BufferAt(f, io0, buf, off, upto)[|buf| - upto..];
    WriteFlatRest(f, io0, buf, off);
    FourParts(f[..off], buf[..upto], buf[upto..], tail, f[Min(b * BLKSIZE + BLKSIZE, |f|)..]);
    assert buf[..upto] + buf[upto..] == buf;
  }

  lemma WriteFlatRest(f: Bytes, io0: Block, buf: Bytes, off: int)
    requires 0 <= off <= |f| && |f| % BLKSIZE == 0 && !KeepsTail(off, |buf|)
    ensures var end := off + |buf|;
            && 0 <= Whole(off, |buf|) <= |buf|
            && (Whole(off, |buf|) == 0 || Whole(off, |buf|) >= BLKSIZE || off % BLKSIZE + Whole(off, |buf|) == BLKSIZE)
            && WriteFlat(f, io0, buf, off) ==
               f[..off] + buf + BufferAt(f, io0, buf, off, Whole(off, |buf|))[end % BLKSIZE..]
               + f[Min(end - end % BLKSIZE + BLKSIZE, |f|)..]
  {
    hide BufferAt;
  }

  datatype WriteResult = Written | NoFreeBlock | BadOffset

  // The parts of the first block that a write leaves.
  lemma FirstBlock(n: Node, data: map<int, Block>, off: int, first: int)
    requires NodeOk(n) && Blocks(data) && 0 <= off < n.blocks * BLKSIZE && 0 <= first <= BLKSIZE - off % BLKSIZE
    ensures var f, b, align := Flat(n, data), off / BLKSIZE, off % BLKSIZE;
            && b < n.blocks && f[b * BLKSIZE..off] == data[n.addrs[b]][..align]
            && f[off + first..(b + 1) * BLKSIZE] == data[n.addrs[b]][align + first..]
  {
    hide Flat;
    var b, align := off / BLKSIZE, off % BLKSIZE;
    assert off == b * BLKSIZE + align;
    FlatSlice(n, data, b, 0, align);
    FlatSlice(n, data, b, align + first, BLKSIZE);
  }

  // The first, unaligned block is read, patched and written back.
  method WriteFirst(s: Io, buf: Bytes, off: int) returns (s': Io, first: int)
    requires IoOk(s) && 0 <= off <= s.n.size && off % BLKSIZE != 0
    ensures first == if off % BLKSIZE + |buf| < BLKSIZE then |buf| else BLKSIZE - off % BLKSIZE
    ensures Grew(s, s', [])
    ensures Flat(s'.n, s'.data) == Spliced(Flat(s.n, s.data), buf, off, first)
    ensures off % BLKSIZE + first == BLKSIZE ==>
      s'.iobuffer == Flat(s.n, s.data)[off - off % BLKSIZE..off] + buf[..first]
  {
    hide Grew, SetBlock, Spliced, Distinct;
    var align, b := off % BLKSIZE, off / BLKSIZE;
    var io := s.data[s.n.addrs[b]];
    first := if (|buf| + align) / BLKSIZE == 0 then |buf| else BLKSIZE - align;
    var c: Block := io[..align] + buf[..first] + io[align + first..];
    ghost var f := Flat(s.n, s.data);
    FirstBlock(s.n, s.data, off, first);
    SpliceFirst(f, buf, off, first, c);
    GrewSelf(s);
    ghost var news';
    var ok;
    ok, s', news' := PutBlock(s, s, [], b, c);
  }

  // Where the write stands: the first `upto` bytes are in, up to a block boundary.
  ghost predicate Standing(s0: Io, s: Io, news: seq<int>, buf: Bytes, off: int, upto: int, b: int) {
    && Grew(s0, s, news)
    && 0 <= off <= |Flat(s0.n, s0.data)| && 0 <= upto <= |buf|
    && off + upto == b * BLKSIZE && b <= s.n.blocks
    && (upto == 0 || upto >= BLKSIZE || off % BLKSIZE + upto == BLKSIZE)
    && Flat(s.n, s.data) == Spliced(Flat(s0.n, s0.data), buf, off, upto)
    && s.iobuffer == BufferAt(Flat(s0.n, s0.data), s0.iobuffer, buf, off, upto)
  }

  // One complete block.
  method WriteOne(ghost s0: Io, s1: Io, ghost news1: seq<int>, buf: Bytes, off: int, upto: int, b: int)
    returns (ok: bool, s: Io, ghost news: seq<int>)
    requires upto + BLKSIZE <= |buf| && off + |buf| <= DIRECT * BLKSIZE
    requires Standing(s0, s1, news1, buf, off, upto, b)
    ensures ok ==> Standing(s0, s, news, buf, off, upto + BLKSIZE, b + 1)
    ensures !ok ==> FreeCount(s0.freemap) < Needed(s0.n, off, |buf|)
  {
    hide FreeCount;
    SpliceFull(Flat(s0.n, s0.data), buf, off, upto, b);
    OutOfBlocks(s0, s1, news1, off, |buf|, b);
    ok, s, news := PutBlock(s0, s1, news1, b, buf[upto..upto + BLKSIZE]);
    if ok {
      assert |Flat(s.n, s.data)| >= (b + 1) * BLKSIZE by { hide Spliced, Grew; }
      hide Spliced, SetBlock, Grew;
    }
  }

  // The loop over complete blocks.
  method WriteFull(ghost s0: Io, s1: Io, ghost news1: seq<int>, buf: Bytes, off: int, upto1: int, b1: int, times: int)
    returns (ok: bool, s: Io, ghost news: seq<int>)
    requires 0 <= times && upto1 + times * BLKSIZE <= |buf| && off + |buf| <= DIRECT * BLKSIZE
    requires Standing(s0, s1, news1, buf, off, upto1, b1)
    ensures ok ==> Standing(s0, s, news, buf, off, upto1 + times * BLKSIZE, b1 + times)
    ensures !ok ==> FreeCount(s0.freemap) < Needed(s0.n, off, |buf|)
  {
    hide Standing, FreeCount, Needed;
    s, news, ok := s1, news1, true;
    var left, upto, b := times, upto1, b1;
    while left != 0
      invariant 0 <= left <= times
      invariant upto == upto1 + (times - left) * BLKSIZE && b == b1 + (times - left)
      invariant Standing(s0, s, news, buf, off, upto, b)
    {
      ok, s, news := WriteOne(s0, s, news, buf, off, upto, b);
      if !ok { return; }
      upto, b, left := upto + BLKSIZE, b + 1, left - 1;
    }
  }

  // The remaining bytes: the last block is written without having been read.
  method WriteRest(ghost s0: Io, s1: Io, ghost news1: seq<int>, buf: Bytes, off: int, upto: int, b: int)
    returns (ok: bool, s: Io, ghost news: seq<int>)
    requires off + |buf| <= DIRECT * BLKSIZE
    requires Standing(s0, s1, news1, buf, off, upto, b)
    requires upto < |buf| < upto + BLKSIZE
    ensures ok ==> Grew(s0, s, news)
    ensures ok ==> Flat(s.n, s.data) == WriteFlat(Flat(s0.n, s0.data), s0.iobuffer, buf, off)
    ensures !ok ==> FreeCount(s0.freemap) < Needed(s0.n, off, |buf|)
  {
    hide FreeCount;
    OutOfBlocks(s0, s1, news1, off, |buf|, b);
    var c: Block := buf[upto..] + s1.iobuffer[|buf| - upto..];
    SpliceRest(Flat(s0.n, s0.data), s0.iobuffer, buf, off, upto, b, c);
    ok, s, news := PutBlock(s0, s1, news1, b, c);
  }

  lemma StandingStart(s0: Io, s: Io, buf: Bytes, off: int, upto: int)
    requires IoOk(s0) && 0 <= off <= s0.n.size && 0 <= upto <= |buf|
    requires upto == 0 ==> s == s0 && off % BLKSIZE == 0
    requires upto > 0 ==>
      && off % BLKSIZE + upto == BLKSIZE && off % BLKSIZE != 0
      && Grew(s0, s, [])
      && Flat(s.n, s.data) == Spliced(Flat(s0.n, s0.data), buf, off, upto)
      && s.iobuffer == Flat(s0.n, s0.data)[off - off % BLKSIZE..off] + buf[..upto]
    ensures Standing(s0, s, [], buf, off, upto, (off + upto) / BLKSIZE)
  {
    GrewSelf(s0);
    hide Grew, Flat;
    var f := Flat(s0.n, s0.data);
    if upto == 0 {
      assert Spliced(f, buf, off, 0) == f;
    }
    hide Spliced;
  }

  lemma StandingEnd(s0: Io, s: Io, news: seq<int>, buf: Bytes, off: int, b: int)
    requires Standing(s0, s, news, buf, off, |buf|, b)
    ensures Grew(s0, s, news)
    ensures Flat(s.n, s.data) == WriteFlat(Flat(s0.n, s0.data), s0.iobuffer, buf, off)
  {
    hide BufferAt, Spliced, Extended, Taken, WereFree, FileOk, BlockSet;
    assert KeepsTail(off, |buf|);
  }

  // All the blocks of a write, in the source's order: a first unaligned block, the
  // complete ones, the rest.
  method WriteBlocks(s0: Io, buf: Bytes, off: int) returns (ok: bool, s: Io, ghost news: seq<int>)
    requires IoOk(s0) && 0 <= off <= s0.n.size && off + |buf| <= DIRECT * BLKSIZE
    ensures ok ==> Grew(s0, s, news)
    ensures ok ==> Flat(s.n, s.data) == WriteFlat(Flat(s0.n, s0.data), s0.iobuffer, buf, off)
    ensures !ok ==> FreeCount(s0.freemap) < Needed(s0.n, off, |buf|)
  {
    hide Grew, Standing, BufferAt, Spliced, FileOk, NodeOk, FreeCount, Needed;
    var align := off % BLKSIZE;
    var writetimes, remain := (|buf| + align) / BLKSIZE, (|buf| + align) % BLKSIZE;
    s, news, ok := s0, [], true;
    var upto := 0;
    if align != 0 {
      s, upto := WriteFirst(s0, buf, off);
      writetimes := writetimes - 1;
    }
    if writetimes >= 0 {
      StandingStart(s0, s, buf, off, upto);
      var whole, b := upto + writetimes * BLKSIZE, (off + upto) / BLKSIZE;
      assert |buf| - whole == remain;
      ok, s, news := WriteFull(s0, s, news, buf, off, upto, b, writetimes);
      if !ok { return; }
      if remain > 0 {
        ok, s, news := WriteRest(s0, s, news, buf, off, whole, b + writetimes);
      } else {
        StandingEnd(s0, s, news, buf, off, b + writetimes);
      }
    }
  }

  function Max(a: int, b: int): int { if a < b then b else a }

  // The blocks that the first `bytes` bytes of a file take, and those of them that a
  // write to the file has to find.
  function BlocksFor(bytes: int): int { (bytes + BLKSIZE - 1) / BLKSIZE }
  function Needed(n: Node, off: int, len: int): (k: nat) { Max(0, BlocksFor(off + len) - n.blocks) }

  lemma {:induction false} TakenCount(freemap: seq<bool>, news: seq<int>)
    requires |freemap| == NBLOCKS && WereFree(freemap, news)
    ensures FreeCount(Taken(freemap, news)) == FreeCount(freemap) - |news|
    decreases |news|
  {
    hide FreeCount;
    if news == [] {
      assert Taken(freemap, news) == freemap;
    } else {
      var front, a := news[..|news| - 1], news[|news| - 1];
      assert news == front + [a];
      forall x, y | 0 <= x < y < |front|
        ensures front[x] != front[y]
      { assert news[x] == front[x] && news[y] == front[y]; }
      forall x | 0 <= x < |front| ensures front[x] != a && IsData(front[x]) && !freemap[front[x] - OFFSET_FREE] {
        assert news[x] == front[x] && news[|front|] == a;
      }
      TakenCount(freemap, front);
      assert IsData(a) && !freemap[a - OFFSET_FREE] by { assert news[|front|] == a; }
      TakenStep(freemap, front, a);
      FreeCountTake(Taken(freemap, front), a - OFFSET_FREE);
    }
  }

  // No block is left at a point where the write has more to write.
  lemma OutOfBlocks(s0: Io, s: Io, news: seq<int>, off: int, len: int, b: int)
    requires Grew(s0, s, news) && b * BLKSIZE < off + len
    ensures b == s.n.blocks && FreeCount(s.freemap) == 0 ==> FreeCount(s0.freemap) < Needed(s0.n, off, len)
  {
    hide FreeCount;
    TakenCount(s0.freemap, news);
  }

  // A write takes no more blocks than it needs.
  lemma TookNeeded(s0: Io, s: Io, news: seq<int>, buf: Bytes, off: int)
    requires Grew(s0, s, news) && 0 <= off <= s0.n.size
    requires Flat(s.n, s.data) == WriteFlat(Flat(s0.n, s0.data), s0.iobuffer, buf, off)
    ensures |news| == Needed(s0.n, off, |buf|) && FreeCount(s.freemap) == FreeCount(s0.freemap) - |news|
  {
    hide FreeCount, WriteFlat, Flat, Grew, NodeOk, Blocks, KeepsTail, BlocksFor;
    GrewParts(s0, s, news);
    WholeBlocks(s0.n.blocks);
    WriteFlatLength(Flat(s0.n, s0.data), s0.iobuffer, buf, off);
    RoundedBlocks(off, |buf|, s0.n.size, s0.n.blocks, s.n.blocks);
  }

  lemma GrewParts(s0: Io, s: Io, news: seq<int>)
    requires Grew(s0, s, news)
    ensures NodeOk(s0.n) && NodeOk(s.n) && Blocks(s0.data) && Blocks(s.data) && s.n.blocks == s0.n.blocks + |news|
    ensures 1 <= s0.n.blocks && 0 <= s0.n.size <= s0.n.blocks * BLKSIZE
    ensures FreeCount(s.freemap) == FreeCount(s0.freemap) - |news|
  {
    TakenCount(s0.freemap, news);
    hide FreeCount, Taken, WereFree;
  }

  lemma WholeBlocks(blocks: int)
    ensures blocks * BLKSIZE % BLKSIZE == 0
  {
  }

  lemma RoundedBlocks(off: int, len: int, size: int, blocks: int, blocks': int)
    requires 0 <= off <= size <= blocks * BLKSIZE && 0 <= len
    requires var end := off + len;
             blocks' * BLKSIZE ==
             Max(if KeepsTail(off, len) then end else end - end % BLKSIZE + BLKSIZE, blocks * BLKSIZE)
    ensures blocks' == Max(blocks, BlocksFor(off + len))
  {
    WholeBlocks(blocks);
    if KeepsTail(off, len) && (off + len) % BLKSIZE != 0 { StaysInside(off, len, blocks * BLKSIZE); }
    assert !KeepsTail(off, len) ==> (off + len) % BLKSIZE != 0;
    hide KeepsTail, BlocksFor;
    RoundedUp(off + len, blocks, blocks', KeepsTail(off, len));
  }

  lemma RoundedUp(end: int, blocks: int, blocks': int, keeps: bool)
    requires 0 <= end && 0 <= blocks
    requires keeps && end % BLKSIZE != 0 ==> end <= blocks * BLKSIZE
    requires blocks' * BLKSIZE == Max(if keeps then end else end - end % BLKSIZE + BLKSIZE, blocks * BLKSIZE)
    requires !keeps ==> end % BLKSIZE != 0
    ensures blocks' == Max(blocks, BlocksFor(end))
  {
    var q, r := end / BLKSIZE, end % BLKSIZE;
    assert end == q * BLKSIZE + r;
    assert BlocksFor(end) == if r == 0 then q else q + 1 by { RoundUp(q, r); }
  }

  lemma RoundUp(q: int, r: int)
    requires 0 <= r < BLKSIZE
    ensures BlocksFor(q * BLKSIZE + r) == if r == 0 then q else q + 1
  {
  }

  /** rfs_write.  `off'` is the file offset afterwards. */
  method Write(s: Io, buf: Bytes, off: int) returns (r: WriteResult, s': Io, ghost news: seq<int>, off': int)
    requires IoOk(s) && 0 <= off && off + |buf| <= DIRECT * BLKSIZE
    ensures r == BadOffset <==> s.n.size < off
    ensures r == NoFreeBlock <==> off <= s.n.size && FreeCount(s.freemap) < Needed(s.n, off, |buf|)
    ensures r == Written ==> |news| == Needed(s.n, off, |buf|) && FreeCount(s'.freemap) == FreeCount(s.freemap) - |news|
    ensures r == Written ==> off' == off + |buf| && |news| <= DIRECT - s.n.blocks
    ensures r == Written ==> s'.n == Extended(s.n, news).(size := Max(s.n.size, off + |buf|)) && IoOk(s')
    ensures r == Written ==> Grew(s, s'.(n := s'.n.(size := s.n.size)), news)
    ensures r == Written ==> Flat(s'.n, s'.data) == WriteFlat(Flat(s.n, s.data), s.iobuffer, buf, off)
  {
    hide FreeCount, Needed;
    s', off', news := s, off, [];
    if s.n.size < off { return BadOffset, s', news, off'; }
    var ok;
    ok, s', news := WriteBlocks(s, buf, off);
    if !ok { return NoFreeBlock, s', news, off'; }
    TookNeeded(s, s', news, buf, off);
    ResizedFlat(s', Max(s.n.size, off + |buf|));
    WriteFlatReaches(Flat(s.n, s.data), s.iobuffer, buf, off);
    s' := s'.(n := s'.n.(size := Max(s'.n.size, off + |buf|)));
    off' := off + |buf|;
    r := Written;
    assert s'.(n := s'.n.(size := s.n.size)).n == Extended(s.n, news);
  }

  lemma ResizedFlat(s: Io, size: int)
    requires IoOk(s)
    ensures 0 <= size <= |Flat(s.n, s.data)| ==>
      IoOk(s.(n := s.n.(size := size))) && Flat(s.n.(size := size), s.data) == Flat(s.n, s.data)
  {
  }

  lemma WriteFlatLength(f: Bytes, io0: Block, buf: Bytes, off: int)
    requires 0 <= off <= |f| && |f| % BLKSIZE == 0
    ensures var end := off + |buf|;
            |WriteFlat(f, io0, buf, off)| ==
            Max(if KeepsTail(off, |buf|) then end else end - end % BLKSIZE + BLKSIZE, |f|)
  {
    hide KeepsTail, BufferAt, Whole;
  }

  lemma WriteFlatReaches(f: Bytes, io0: Block, buf: Bytes, off: int)
    requires 0 <= off <= |f| && |f| % BLKSIZE == 0
    ensures |WriteFlat(f, io0, buf, off)| >= off + |buf|
    ensures |WriteFlat(f, io0, buf, off)| >= |f|
    ensures |WriteFlat(f, io0, buf, off)| % BLKSIZE == 0
  {
    hide WriteFlat;
    WriteFlatLength(f, io0, buf, off);
    if KeepsTail(off, |buf|) && (off + |buf|) % BLKSIZE != 0 { StaysInside(off, |buf|, |f|); }
  }

  // A write that stays in its block does not get past whole blocks.
  lemma StaysInside(off: int, len: int, size: int)
    requires 0 <= off <= size && size % BLKSIZE == 0 && 0 <= len && off % BLKSIZE != 0 && off % BLKSIZE + len < BLKSIZE
    ensures off + len <= size
  {
    assert off == off / BLKSIZE * BLKSIZE + off % BLKSIZE && size == size / BLKSIZE * BLKSIZE;
    assert off / BLKSIZE < size / BLKSIZE;
  }

  /** Every write leaves the file right up to where it ends. */
  lemma WriteFlatPrefix(f: Bytes, io0: Block, buf: Bytes, off: int)
    requires 0 <= off <= |f| && |f| % BLKSIZE == 0
    ensures off + |buf| <= |WriteFlat(f, io0, buf, off)|
    ensures WriteFlat(f, io0, buf, off)[..off + |buf|] == f[..off] + buf
  {
    hide BufferAt, KeepsTail, Whole;
    WriteFlatReaches(f, io0, buf, off);
  }

  // ---------------------------------------------------------------------
  // When a write is a splice
  // ---------------------------------------------------------------------

  function Splice(c: Bytes, buf: Bytes, off: int): Bytes
    requires 0 <= off <= |c|
  {
    c[..off] + buf + c[Min(off + |buf|, |c|)..]
  }

  lemma WriteKeepsTail(f: Bytes, io0: Block, buf: Bytes, off: int)
    requires 0 <= off <= |f| && |f| % BLKSIZE == 0 && KeepsTail(off, |buf|)
    ensures WriteFlat(f, io0, buf, off) == f[..off] + buf + f[Min(off + |buf|, |f|)..]
  {
    hide KeepsTail, BufferAt;
  }

  // Splicing into the blocks and cutting off at the size is splicing into the content.
  lemma SpliceAndCut(f: Bytes, buf: Bytes, off: int, size: int)
    requires 0 <= off <= size <= |f|
    ensures var w, m := f[..off] + buf + f[Min(off + |buf|, |f|)..], Max(size, off + |buf|);
            m <= |w| && w[..m] == Splice(f[..size], buf, off)
  {
    var a, end := f[..off] + buf, off + |buf|;
    assert f[..size][..off] == f[..off];
    if end >= size {
      TakeThrough(a, f[Min(end, |f|)..], 0);
      assert f[..size][size..] == [];
    } else {
      TakeThrough(a, f[end..], size - end);
      assert f[..size][end..] == f[end..][..size - end];
    }
  }

  lemma TakeThrough(a: Bytes, t: Bytes, n: nat)
    requires n <= |t|
    ensures (a + t)[..|a| + n] == a + t[..n]
  {
  }

  /** A write that reaches the end of the file, or keeps the tail of its last block,
      is a splice of the content ... */
  lemma WriteIsSplice(f: Bytes, io0: Block, buf: Bytes, off: int, size: int)
    requires 0 <= off <= size <= |f| && |f| % BLKSIZE == 0
    requires KeepsTail(off, |buf|) || off + |buf| >= size
    ensures Max(size, off + |buf|) <= |WriteFlat(f, io0, buf, off)|
    ensures WriteFlat(f, io0, buf, off)[..Max(size, off + |buf|)] == Splice(f[..size], buf, off)
  {
    hide WriteFlat, KeepsTail;
    WriteFlatReaches(f, io0, buf, off);
    if KeepsTail(off, |buf|) {
      WriteKeepsTail(f, io0, buf, off);
      SpliceAndCut(f, buf, off, size);
    } else {
      WriteFlatPrefix(f, io0, buf, off);
    }
  }

  lemma AtSeam(a: Bytes, b: Bytes, c: Bytes)
    requires b != []
    ensures (a + b + c)[|a|] == b[0]
  {
  }

  // ... and otherwise the byte after the write comes from the stale buffer.
  lemma ByteAfterWrite(f: Bytes, io0: Block, buf: Bytes, off: int)
    requires 0 <= off && off + |buf| < |f| && |f| % BLKSIZE == 0 && !KeepsTail(off, |buf|)
    ensures off + |buf| < |WriteFlat(f, io0, buf, off)|
    ensures WriteFlat(f, io0, buf, off)[off + |buf|]
         == BufferAt(f, io0, buf, off, Whole(off, |buf|))[(off + |buf|) % BLKSIZE]
  {
    var end := off + |buf|;
    hide BufferAt;
    var tail := BufferAt(f, io0, buf, off, Whole(off, |buf|))[end % BLKSIZE..];
    AtSeam(f[..off] + buf, tail, f[Min(end - end % BLKSIZE + BLKSIZE, |f|)..]);
  }

  lemma ByteAfterSplice(c: Bytes, buf: Bytes, off: int)
    requires 0 <= off && off + |buf| < |c|
    ensures off + |buf| < |Splice(c, buf, off)| && Splice(c, buf, off)[off + |buf|] == c[off + |buf|]
  {
  }

  ghost predicate AlwaysSplices(blocks: int, size: int, buf: Bytes, off: int)
    requires 0 <= off <= size <= blocks * BLKSIZE
  {
    forall f: Bytes, io0: Block {:trigger WriteFlat(f, io0, buf, off)} :: |f| == blocks * BLKSIZE ==>
      && Max(size, off + |buf|) <= |WriteFlat(f, io0, buf, off)|
      && WriteFlat(f, io0, buf, off)[..Max(size, off + |buf|)] == Splice(f[..size], buf, off)
  }

  /** The exact condition: whatever the file and the device buffer hold, the write is
      a splice if and only if it keeps its last block's tail or reaches end of file. */
  lemma WriteSplicesExactlyWhen(blocks: int, size: int, buf: Bytes, off: int)
    requires 0 <= off <= size <= blocks * BLKSIZE
    ensures AlwaysSplices(blocks, size, buf, off) <==> KeepsTail(off, |buf|) || off + |buf| >= size
  {
    if KeepsTail(off, |buf|) || off + |buf| >= size {
      forall f: Bytes, io0: Block | |f| == blocks * BLKSIZE
        ensures Max(size, off + |buf|) <= |WriteFlat(f, io0, buf, off)|
        ensures WriteFlat(f, io0, buf, off)[..Max(size, off + |buf|)] == Splice(f[..size], buf, off)
      {
        WriteIsSplice(f, io0, buf, off, size);
      }
    } else {
      DisturbedTail(blocks, size, buf, off);
    }
  }

  lemma DisturbedTail(blocks: int, size: int, buf: Bytes, off: int)
    requires 0 <= off <= size <= blocks * BLKSIZE
    requires !KeepsTail(off, |buf|) && off + |buf| < size
    ensures !AlwaysSplices(blocks, size, buf, off)
  {
    var zero: Bytes := seq(blocks * BLKSIZE, p => 0);
    var io0: Block := seq(BLKSIZE, p => 0);
    var end, upto := off + |buf|, Whole(off, |buf|);
    var stale := BufferAt(zero, io0, buf, off, upto)[end % BLKSIZE];
    var f := zero[end := if stale == 0 then 1 else 0];
    assert f[off - off % BLKSIZE..off] == zero[off - off % BLKSIZE..off];
    assert BufferAt(f, io0, buf, off, upto) == BufferAt(zero, io0, buf, off, upto);
    ByteAfterWrite(f, io0, buf, off);
    ByteAfterSplice(f[..size], buf, off);
    WriteFlatReaches(f, io0, buf, off);
    hide WriteFlat, Splice, BufferAt;
    assert WriteFlat(f, io0, buf, off)[..size][end] != Splice(f[..size], buf, off)[end];
  }

  // ---------------------------------------------------------------------
  // rfs_read
  // ---------------------------------------------------------------------

  // `NoBlock`: the offset is at the end of a file that fills its last block, so the
  // code reads a block address the file does not have.
  datatype ReadResult = Read(bytes: Bytes) | NoBlock | PastEnd

  // The loop over complete blocks.
  method ReadFull(n: Node, data: map<int, Block>, off: int, got1: Bytes, times: int) returns (got: Bytes)
    requires NodeOk(n) && Blocks(data) && 0 <= off && 0 <= times
    requires (off + |got1|) % BLKSIZE == 0 && off + |got1| + times * BLKSIZE <= n.blocks * BLKSIZE
    requires got1 == Flat(n, data)[off..off + |got1|]
    ensures |got| == |got1| + times * BLKSIZE && got == Flat(n, data)[off..off + |got|]
  {
    hide NodeOk, Flat, BlockAt;
    got := got1;
    var left, b := times, (off + |got1|) / BLKSIZE;
    while left != 0
      invariant 0 <= left <= times && |got| == |got1| + (times - left) * BLKSIZE
      invariant off + |got| == b * BLKSIZE
      invariant got == Flat(n, data)[off..off + |got|]
    {
      FlatSliceAt(n, data, b * BLKSIZE, BLKSIZE);
      JoinSlices(Flat(n, data), off, off + |got|, off + |got| + BLKSIZE);
      got := got + BlockAt(n, data, b)[0..BLKSIZE];
      b, left := b + 1, left - 1;
    }
  }

  lemma FlatSliceAt(n: Node, data: map<int, Block>, off: int, len: int)
    requires NodeOk(n) && Blocks(data) && 0 <= off < n.blocks * BLKSIZE && 0 <= len <= BLKSIZE - off % BLKSIZE
    ensures Flat(n, data)[off..off + len] == BlockAt(n, data, off / BLKSIZE)[off % BLKSIZE..off % BLKSIZE + len]
  {
    FlatSlice(n, data, off / BLKSIZE, off % BLKSIZE, off % BLKSIZE + len);
  }

  // The blocks from the one at the offset on.
  method ReadBlocks(n: Node, data: map<int, Block>, off: int, want: int) returns (got: Bytes)
    requires NodeOk(n) && Blocks(data) && 0 <= off < n.blocks * BLKSIZE
    requires 0 <= want && off + want <= n.blocks * BLKSIZE
    ensures got == Flat(n, data)[off..off + want]
  {
    hide NodeOk, Flat, BlockAt;
    var align, b := off % BLKSIZE, off / BLKSIZE;
    var readtimes, remain := (align + want) / BLKSIZE, (align + want) % BLKSIZE;
    var first := if readtimes == 0 then want else BLKSIZE - align;
    ReadSteps(off, want, n.blocks);
    FlatSliceAt(n, data, off, first);
    got := BlockAt(n, data, b)[align..align + first];
    readtimes := readtimes - 1;
    if readtimes >= 0 {
      got := ReadFull(n, data, off, got, readtimes);
      if remain > 0 { got := ReadLast(n, data, off, got, remain); }
    }
  }

  method ReadLast(n: Node, data: map<int, Block>, off: int, got1: Bytes, remain: int) returns (got: Bytes)
    requires NodeOk(n) && Blocks(data) && 0 <= off && 0 < remain < BLKSIZE
    requires (off + |got1|) % BLKSIZE == 0 && off + |got1| + remain <= n.blocks * BLKSIZE
    requires got1 == Flat(n, data)[off..off + |got1|]
    ensures got == Flat(n, data)[off..off + |got1| + remain]
  {
    hide NodeOk, Flat, BlockAt;
    var at := off + |got1|;
    FlatSliceAt(n, data, at, remain);
    JoinSlices(Flat(n, data), off, at, at + remain);
    got := got1 + BlockAt(n, data, at / BLKSIZE)[0..remain];
  }

  // The read goes to the end of the first block, over whole blocks and into a last one.
  lemma ReadSteps(off: int, want: int, blocks: int)
    requires 0 <= off && 0 <= want && off + want <= blocks * BLKSIZE
    ensures var align := off % BLKSIZE;
            var times, remain := (align + want) / BLKSIZE, (align + want) % BLKSIZE;
            && (times == 0 ==> align + want < BLKSIZE)
            && (times > 0 ==>
                  var at := off + (BLKSIZE - align) + (times - 1) * BLKSIZE;
                  && (off + (BLKSIZE - align)) % BLKSIZE == 0 && at % BLKSIZE == 0 && at + remain == off + want)
  {
    var align, b := off % BLKSIZE, off / BLKSIZE;
    var times := (align + want) / BLKSIZE;
    assert off + (BLKSIZE - align) == (b + 1) * BLKSIZE;
    WholeBlocks(b + 1);
    WholeBlocks(b + times);
  }

  lemma JoinSlices(f: Bytes, lo: int, mid: int, hi: int)
    requires 0 <= lo <= mid <= hi <= |f|
    ensures f[lo..mid] + f[mid..hi] == f[lo..hi]
  {
  }

  lemma LastBlock(n: Node, off: int)
    requires NodeOk(n) && 0 <= off <= n.size
    ensures off / BLKSIZE >= n.blocks <==> off == n.size == n.blocks * BLKSIZE
    ensures off / BLKSIZE < n.blocks ==> off < n.blocks * BLKSIZE
  {
  }

  lemma ContentSlice(n: Node, data: map<int, Block>, lo: int, hi: int)
    requires NodeOk(n) && Blocks(data) && 0 <= lo <= hi <= n.size
    ensures n.size <= n.blocks * BLKSIZE && Content(n, data)[lo..hi] == Flat(n, data)[lo..hi]
  {
    hide Flat, Blocks;
  }

  /** rfs_read: the slice of the content at the offset, cut at end of file; the
      caller's buffer receives it as a C string. */
  method ReadFile(n: Node, data: map<int, Block>, off: int, len: int) returns (r: ReadResult, rbuf: Bytes)
    requires NodeOk(n) && Blocks(data) && 0 <= off && 0 <= len
    ensures r == PastEnd <==> n.size < off
    ensures r == NoBlock <==> off == n.size == n.blocks * BLKSIZE
    ensures r.Read? ==> r.bytes == Content(n, data)[off..Min(off + len, n.size)]
    ensures r.Read? ==> rbuf == CStr(r.bytes)
  {
    hide Flat, Content, Blocks, CStr;
    rbuf := [];
    if n.size < off { return PastEnd, rbuf; }
    var want := if n.size < off + len then n.size - off else len;
    LastBlock(n, off);
    if off / BLKSIZE >= n.blocks { return NoBlock, rbuf; }
    var got := ReadBlocks(n, data, off, want);
    ContentSlice(n, data, off, off + want);
    rbuf := CStr(got);
    r := ReadResult.Read(got);
  }

  /** The caller sees the whole slice exactly when it holds no NUL. */
  lemma ReadSeesSlice(bytes: Bytes)
    ensures CStr(bytes) == bytes <==> 0 !in bytes
  {
    CStrWhole(bytes);
  }
}
