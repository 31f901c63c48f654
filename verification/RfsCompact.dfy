/**
 Removing one entry from a directory file: rfs_unlink slides every later entry
 down by one cell, across block boundaries, through one shared I/O buffer.
 */
module RfsCompact {
  import opened Base
  import opened RfsLayout

  // ---------------------------------------------------------------------
  // memmove
  // ---------------------------------------------------------------------

  function Moved(s: Bytes, dst: int, src: int, n: int): (r: Bytes)
    requires 0 <= dst && 0 <= src && 0 <= n && dst + n <= |s| && src + n <= |s|
    ensures |r| == |s|
    ensures forall k {:trigger r[k]} :: 0 <= k < |s| ==> r[k] == if dst <= k < dst + n then s[k - dst + src] else s[k]
  {
    s[..dst] + s[src..src + n] + s[dst + n..]
  }

  // Copy from the last byte down: used when the source starts below the
  // destination and runs into it.
  method CopyBackward(a: array<byte>, dst: nat, src: nat, n: nat)
    requires dst + n <= a.Length && src < dst
    modifies a
    ensures forall i {:trigger a[i]} :: 0 <= i < a.Length ==>
      a[i] == if dst <= i < dst + n then old(a[i - dst + src]) else old(a[i])
  {
    var k := n;
    while k > 0
      invariant 0 <= k <= n
      invariant forall i {:trigger a[i]} :: 0 <= i < a.Length ==>
        a[i] == if dst + k <= i < dst + n then old(a[i - dst + src]) else old(a[i])
    {
      k := k - 1;
      a[dst + k] := a[src + k];
    }
  }

  method CopyForward(a: array<byte>, dst: nat, src: nat, n: nat)
    requires dst + n <= a.Length && src + n <= a.Length && (src >= dst || src + n <= dst)
    modifies a
    ensures forall i {:trigger a[i]} :: 0 <= i < a.Length ==>
      a[i] == if dst <= i < dst + n then old(a[i - dst + src]) else old(a[i])
  {
    var k := 0;
    while k < n
      invariant 0 <= k <= n
      invariant forall i {:trigger a[i]} :: 0 <= i < a.Length ==>
        a[i] == if dst <= i < dst + k then old(a[i - dst + src]) else old(a[i])
    {
      a[dst + k] := a[src + k];
      k := k + 1;
    }
  }

  // The direction depends on how the two ranges overlap, so that no byte is
  // overwritten before it has been read.
  method MemMove(a: array<byte>, dst: nat, src: nat, n: nat)
    requires dst + n <= a.Length && src + n <= a.Length
    modifies a
    ensures a[..] == Moved(old(a[..]), dst, src, n)
  {
    if src < dst && src + n > dst {
      CopyBackward(a, dst, src, n);
    } else {
      CopyForward(a, dst, src, n);
    }
  }

  // ---------------------------------------------------------------------
  // A directory as one row of cells
  // ---------------------------------------------------------------------

  predicate DirBlocks(data: map<int, Block>, addrs: seq<int>) {
    && Blocks(data)
    && 0 < |addrs|
    && (forall j :: 0 <= j < |addrs| ==> IsData(addrs[j]))
    && (forall i, j :: 0 <= i < j < |addrs| ==> addrs[i] != addrs[j])
  }

  function CellAt(data: map<int, Block>, addrs: seq<int>, j: int): Bytes
    requires DirBlocks(data, addrs) && 0 <= j < |addrs| * EPB
  {
    Cell(data[addrs[j / EPB]], j % EPB)
  }

  lemma MovedCells(b: Block, off: int)
    requires 0 <= off < EPB
    ensures var r: Block := Moved(b, off * DIRENT, (off + 1) * DIRENT, (EPB - off - 1) * DIRENT);
            forall c :: 0 <= c < EPB ==> Cell(r, c) == Cell(b, if off <= c < EPB - 1 then c + 1 else c)
  {
    var r: Block := Moved(b, off * DIRENT, (off + 1) * DIRENT, (EPB - off - 1) * DIRENT);
    forall c | 0 <= c < EPB ensures Cell(r, c) == Cell(b, if off <= c < EPB - 1 then c + 1 else c) {
      var from := if off <= c < EPB - 1 then c + 1 else c;
      forall x | 0 <= x < DIRENT ensures Cell(r, c)[x] == Cell(b, from)[x] {
        assert Cell(r, c)[x] == r[DIRENT * c + x];
        assert Cell(b, from)[x] == b[DIRENT * from + x];
      }
    }
  }

  // The memmove that closes the gap left by cell `off` of one block.
  function SlideDown(b: Block, off: int): (r: Block)
    requires 0 <= off < EPB
    ensures forall c {:trigger Cell(r, c)} ::
      0 <= c < EPB ==> Cell(r, c) == Cell(b, if off <= c < EPB - 1 then c + 1 else c)
  {
    MovedCells(b, off);
    Moved(b, off * DIRENT, (off + 1) * DIRENT, (EPB - off - 1) * DIRENT)
  }

  function WithLastCell(b: Block, cell: Bytes): (r: Block)
    requires |cell| == DIRENT
    ensures forall c {:trigger Cell(r, c)} :: 0 <= c < EPB - 1 ==> Cell(r, c) == Cell(b, c)
    ensures Cell(r, EPB - 1) == cell
  {
    var r := b[..(EPB - 1) * DIRENT] + cell;
    assert forall c :: 0 <= c < EPB - 1 ==> Cell(r, c) == Cell(b, c);
    r
  }

  // The first n cells of a directory, and the same row with cell `index` taken out.
  function Row(data: map<int, Block>, addrs: seq<int>, n: int): (r: seq<Bytes>)
    requires DirBlocks(data, addrs) && 0 <= n <= |addrs| * EPB
    ensures |r| == n
    ensures forall j {:trigger r[j]} :: 0 <= j < n ==> r[j] == CellAt(data, addrs, j)
  {
    seq(n, j requires 0 <= j < n => CellAt(data, addrs, j))
  }

  function RowWithout(data: map<int, Block>, addrs: seq<int>, index: int, n: int): (r: seq<Bytes>)
    requires DirBlocks(data, addrs) && 0 <= index < |addrs| * EPB && 0 <= n < |addrs| * EPB
    ensures |r| == n
    ensures forall j {:trigger r[j]} :: 0 <= j < n ==> r[j] == CellAt(data, addrs, if j < index then j else j + 1)
  {
    seq(n, j requires 0 <= j < n => CellAt(data, addrs, if j < index then j else j + 1))
  }

  function Cells(b: Block, n: int): (r: seq<Bytes>)
    requires 0 <= n <= EPB
    ensures |r| == n
    ensures forall c {:trigger r[c]} :: 0 <= c < n ==> r[c] == Cell(b, c)
  {
    seq(n, c requires 0 <= c < n => Cell(b, c))
  }

  // The first n cells that block m must end up with.
  function FinalCells(data: map<int, Block>, addrs: seq<int>, index: int, m: int, n: int): (r: seq<Bytes>)
    requires DirBlocks(data, addrs) && 0 <= index < |addrs| * EPB
    requires 0 <= m && 0 <= n <= EPB && m * EPB + n < |addrs| * EPB
    ensures |r| == n
    ensures forall c {:trigger r[c]} :: 0 <= c < n ==>
      r[c] == CellAt(data, addrs, if m * EPB + c < index then m * EPB + c else m * EPB + c + 1)
  {
    seq(n, c requires 0 <= c < n =>
      CellAt(data, addrs, if m * EPB + c < index then m * EPB + c else m * EPB + c + 1))
  }

  lemma WriteFinalBlock(data: map<int, Block>, data': map<int, Block>, addrs: seq<int>, index: int,
                        b: Block, m: int, n: int, upto: int)
    requires DirBlocks(data, addrs) && DirBlocks(data', addrs)
    requires 0 <= index < |addrs| * EPB
    requires 0 <= m < |addrs| && 0 <= n <= EPB && upto == m * EPB + n < |addrs| * EPB
    requires Row(data', addrs, m * EPB) == RowWithout(data, addrs, index, m * EPB)
    requires Cells(b, n) == FinalCells(data, addrs, index, m, n)
    ensures DirBlocks(data'[addrs[m] := b], addrs)
    ensures Row(data'[addrs[m] := b], addrs, upto) == RowWithout(data, addrs, index, upto)
  {
    var data2 := data'[addrs[m] := b];
    var row, want := Row(data2, addrs, upto), RowWithout(data, addrs, index, upto);
    forall j | 0 <= j < upto ensures row[j] == want[j] {
      if j < m * EPB {
        assert CellAt(data2, addrs, j) == CellAt(data', addrs, j);
        assert Row(data', addrs, m * EPB)[j] == RowWithout(data, addrs, index, m * EPB)[j];
      } else {
        assert j / EPB == m;
        var c := j % EPB;
        assert m * EPB + c == j;
        assert Cells(b, n)[c] == FinalCells(data, addrs, index, m, n)[c];
      }
    }
  }

  // The block the entry is deleted from, once its own gap is closed, lacks one cell ...
  lemma FirstBlockSlides(data: map<int, Block>, addrs: seq<int>, index: int)
    requires DirBlocks(data, addrs) && 0 <= index < |addrs| * EPB
    ensures Cells(SlideDown(data[addrs[index / EPB]], index % EPB), EPB - 1)
         == FinalCells(data, addrs, index, index / EPB, EPB - 1)
    ensures Row(data, addrs, index / EPB * EPB) == RowWithout(data, addrs, index, index / EPB * EPB)
  {
    var m, off := index / EPB, index % EPB;
    var b := SlideDown(data[addrs[m]], off);
    forall c | 0 <= c < EPB - 1
      ensures Cell(b, c) == CellAt(data, addrs, if m * EPB + c < index then m * EPB + c else m * EPB + c + 1)
    {
      var j := m * EPB + c;
      assert j < index <==> c < off;
      assert (j + 1) / EPB == m && (j + 1) % EPB == c + 1;
    }
  }

  // ... which is the first cell of the next block, and so on to the last block.
  lemma NextBlockFills(data: map<int, Block>, addrs: seq<int>, index: int, previous: Block, i: int)
    requires DirBlocks(data, addrs) && 0 <= index < |addrs| * EPB
    requires index / EPB < i < |addrs|
    requires Cells(previous, EPB - 1) == FinalCells(data, addrs, index, i - 1, EPB - 1)
    ensures Cells(WithLastCell(previous, data[addrs[i]][..DIRENT]), EPB)
         == FinalCells(data, addrs, index, i - 1, EPB)
  {
    var full := WithLastCell(previous, data[addrs[i]][..DIRENT]);
    var base := (i - 1) * EPB;
    forall c | 0 <= c < EPB
      ensures Cell(full, c) == CellAt(data, addrs, if base + c < index then base + c else base + c + 1)
    {
      if c < EPB - 1 {
        assert Cells(previous, EPB - 1)[c] == FinalCells(data, addrs, index, i - 1, EPB - 1)[c];
      } else {
        assert data[addrs[i]][..DIRENT] == Cell(data[addrs[i]], 0);
        assert (base + c + 1) / EPB == i && (base + c + 1) % EPB == 0;
      }
    }
  }

  lemma NextBlockSlides(data: map<int, Block>, addrs: seq<int>, index: int, i: int)
    requires DirBlocks(data, addrs) && 0 <= index < |addrs| * EPB
    requires index / EPB < i < |addrs|
    ensures Cells(SlideDown(data[addrs[i]], 0), EPB - 1) == FinalCells(data, addrs, index, i, EPB - 1)
  {
    var b := SlideDown(data[addrs[i]], 0);
    forall c | 0 <= c < EPB - 1
      ensures Cell(b, c) == CellAt(data, addrs, if i * EPB + c < index then i * EPB + c else i * EPB + c + 1)
    {
      assert (i * EPB + c + 1) / EPB == i;
    }
  }

  // The state of the loop when block i is next: blocks below i - 1 are final on disk,
  // `previous` is block i - 1 but for its last cell, everything else is untouched.
  ghost predicate Sliding(data: map<int, Block>, data': map<int, Block>, addrs: seq<int>, index: int,
                          i: int, previous: Block)
    requires DirBlocks(data, addrs) && 0 <= index < |addrs| * EPB
  {
    && index / EPB < i <= |addrs|
    && DirBlocks(data', addrs) && data'.Keys == data.Keys
    && (forall a :: a in data && a !in addrs[..i - 1] ==> data'[a] == data[a])
    && Row(data', addrs, (i - 1) * EPB) == RowWithout(data, addrs, index, (i - 1) * EPB)
    && Cells(previous, EPB - 1) == FinalCells(data, addrs, index, i - 1, EPB - 1)
  }

  lemma PrefixGrows(addrs: seq<int>, i: int)
    requires 0 < i <= |addrs| && forall x, y :: 0 <= x < y < |addrs| ==> addrs[x] != addrs[y]
    ensures forall a :: a in addrs[..i] <==> a in addrs[..i - 1] || a == addrs[i - 1]
    ensures i < |addrs| ==> addrs[i] !in addrs[..i - 1]
  {
    assert addrs[..i] == addrs[..i - 1] + [addrs[i - 1]];
  }

  // One turn of the loop.
  method SlideBlock(data: map<int, Block>, data1: map<int, Block>, addrs: seq<int>, index: int,
                    i: int, previous1: Block) returns (data2: map<int, Block>, previous2: Block)
    requires DirBlocks(data, addrs) && 0 <= index < |addrs| * EPB && i < |addrs|
    requires Sliding(data, data1, addrs, index, i, previous1)
    ensures Sliding(data, data2, addrs, index, i + 1, previous2)
  {
    NextBlockFills(data, addrs, index, previous1, i);
    NextBlockSlides(data, addrs, index, i);
    PrefixGrows(addrs, i);
    var iobuffer := data1[addrs[i]];
    var thisBlock: Block := iobuffer;
    var previous := WithLastCell(previous1, iobuffer[..DIRENT]);
    thisBlock := SlideDown(thisBlock, 0);
    iobuffer := previous;
    WriteFinalBlock(data, data1, addrs, index, iobuffer, i - 1, EPB, i * EPB);
    data2 := data1[addrs[i - 1] := iobuffer];
    previous2 := thisBlock;
  }

  /** The compaction loop of rfs_unlink.  Every cell but the last of the directory
      ends up as in the row without the deleted one; no other block changes. */
  method Compact(data: map<int, Block>, addrs: seq<int>, index: int) returns (data': map<int, Block>)
    requires DirBlocks(data, addrs) && 0 <= index < |addrs| * EPB
    ensures DirBlocks(data', addrs) && data'.Keys == data.Keys
    ensures forall a :: a in data && a !in addrs ==> data'[a] == data[a]
    ensures var n := |addrs| * EPB - 1; Row(data', addrs, n) == RowWithout(data, addrs, index, n)
  {
    hide Sliding, Row, RowWithout, SlideDown;
    var deleteBlock := index / EPB;
    var iobuffer := data[addrs[deleteBlock]];
    iobuffer := SlideDown(iobuffer, index % EPB);
    var previous: Block := iobuffer;
    data' := data;
    SlidingStart(data, addrs, index);
    var i := deleteBlock + 1;
    while i < |addrs|
      invariant deleteBlock < i <= |addrs| && Sliding(data, data', addrs, index, i, previous)
    {
      data', previous := SlideBlock(data, data', addrs, index, i, previous);
      i := i + 1;
    }
    iobuffer := previous;
    var last := |addrs| - 1;
    SlidingEnd(data, data', addrs, index, iobuffer);
    data' := data'[addrs[last] := iobuffer];
  }

  lemma SlidingStart(data: map<int, Block>, addrs: seq<int>, index: int)
    requires DirBlocks(data, addrs) && 0 <= index < |addrs| * EPB
    ensures Sliding(data, data, addrs, index, index / EPB + 1, SlideDown(data[addrs[index / EPB]], index % EPB))
  {
    hide Row, RowWithout, Cells, FinalCells, SlideDown;
    FirstBlockSlides(data, addrs, index);
  }

  lemma SlidingEnd(data: map<int, Block>, data': map<int, Block>, addrs: seq<int>, index: int, b: Block)
    requires DirBlocks(data, addrs) && 0 <= index < |addrs| * EPB && Sliding(data, data', addrs, index, |addrs|, b)
    ensures var data2 := data'[addrs[|addrs| - 1] := b];
            && DirBlocks(data2, addrs) && data2.Keys == data.Keys
            && (forall a :: a in data && a !in addrs ==> data2[a] == data[a])
            && Row(data2, addrs, |addrs| * EPB - 1) == RowWithout(data, addrs, index, |addrs| * EPB - 1)
  {
    hide Row, RowWithout, Cells, FinalCells;
    WriteFinalBlock(data, data', addrs, index, b, |addrs| - 1, EPB - 1, |addrs| * EPB - 1);
    PrefixGrows(addrs, |addrs|);
    assert addrs[..|addrs|] == addrs;
    assert addrs[|addrs| - 1] in data' by { assert IsData(addrs[|addrs| - 1]); }
  }

  // ---------------------------------------------------------------------
  // What that means for the directory's entry list
  // ---------------------------------------------------------------------

  function EntryList(data: map<int, Block>, addrs: seq<int>, n: int): (es: seq<DirEntry>)
    requires DirBlocks(data, addrs) && 0 <= n <= |addrs| * EPB
    ensures |es| == n
    ensures forall k {:trigger es[k]} :: 0 <= k < n ==> es[k] == Decode(CellAt(data, addrs, k))
  {
    seq(n, k requires 0 <= k < n => Decode(CellAt(data, addrs, k)))
  }

  // The number of blocks a directory of n entries has: the root and a new
  // directory start with one, and an emptied last block is given back.
  predicate Tight(blocks: int, n: int) {
    0 <= n <= blocks * EPB && (blocks == 1 || (blocks > 1 && (blocks - 1) * EPB < n))
  }

  // The blocks that rfs_unlink keeps after removing one of n entries.
  function BlocksKept(blocks: int, n: int): int {
    if (n - 1) % EPB == 0 && blocks > 1 then blocks - 1 else blocks
  }

  /** The directory afterwards is the same list without entry `index`, and the last
      block is given back exactly when it holds no entry and is not the only one. */
  lemma CompactRemovesEntry(data: map<int, Block>, data': map<int, Block>, addrs: seq<int>, index: int, n: int)
    requires DirBlocks(data, addrs) && DirBlocks(data', addrs)
    requires 0 <= index < n <= |addrs| * EPB
    requires Row(data', addrs, |addrs| * EPB - 1) == RowWithout(data, addrs, index, |addrs| * EPB - 1)
    requires Tight(|addrs|, n)
    ensures Tight(BlocksKept(|addrs|, n), n - 1)
    ensures BlocksKept(|addrs|, n) < |addrs| <==> |addrs| > 1 && n - 1 <= (|addrs| - 1) * EPB
    ensures EntryList(data', addrs[..BlocksKept(|addrs|, n)], n - 1)
         == EntryList(data, addrs, n)[..index] + EntryList(data, addrs, n)[index + 1..]
  {
    hide DirBlocks, Tight, BlocksKept, Row, RowWithout, CellAt, EntryList;
    KeptBlocks(|addrs|, n);
    var kept := addrs[..BlocksKept(|addrs|, n)];
    DirPrefix(data', addrs, |kept|);
    var left := EntryList(data', kept, n - 1);
    var es := EntryList(data, addrs, n);
    forall k | 0 <= k < n - 1 ensures left[k] == (es[..index] + es[index + 1..])[k] {
      KeptEntry(data, data', addrs, index, n, |kept|, k);
    }
    assert left == es[..index] + es[index + 1..];
  }

  lemma KeptBlocks(blocks: int, n: int)
    requires Tight(blocks, n) && n > 0
    ensures Tight(BlocksKept(blocks, n), n - 1) && 0 < BlocksKept(blocks, n) <= blocks
    ensures n - 1 <= BlocksKept(blocks, n) * EPB
    ensures BlocksKept(blocks, n) < blocks <==> blocks > 1 && n - 1 <= (blocks - 1) * EPB
  {
  }

  lemma DirPrefix(data: map<int, Block>, addrs: seq<int>, m: int)
    requires DirBlocks(data, addrs) && 0 < m <= |addrs|
    ensures DirBlocks(data, addrs[..m])
  {
  }

  lemma KeptEntry(data: map<int, Block>, data': map<int, Block>, addrs: seq<int>, index: int, n: int, m: int, k: int)
    requires 0 < m <= |addrs| && DirBlocks(data, addrs) && DirBlocks(data', addrs) && DirBlocks(data', addrs[..m])
    requires 0 <= index < n <= |addrs| * EPB && n - 1 <= m * EPB && 0 <= k < n - 1
    requires Row(data', addrs, |addrs| * EPB - 1) == RowWithout(data, addrs, index, |addrs| * EPB - 1)
    ensures EntryList(data', addrs[..m], n - 1)[k] == EntryList(data, addrs, n)[if k < index then k else k + 1]
  {
    hide DirBlocks;
    assert Row(data', addrs, |addrs| * EPB - 1)[k] == RowWithout(data, addrs, index, |addrs| * EPB - 1)[k];
    SameCell(data', addrs, m, k);
    hide CellAt;
  }

  lemma SameCell(data: map<int, Block>, addrs: seq<int>, m: int, k: int)
    requires 0 < m <= |addrs| && DirBlocks(data, addrs) && DirBlocks(data, addrs[..m]) && 0 <= k < m * EPB
    ensures CellAt(data, addrs[..m], k) == CellAt(data, addrs, k)
  {
    assert k / EPB < m;
  }
}
