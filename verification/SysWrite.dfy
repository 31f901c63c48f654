/**
 The write system call: the bytes of a user buffer, page by page through the process's
 page table, into an open file.
 */
module SysWrite {
  import opened Base
  import opened RfsLayout
  import opened RfsVolume
  import opened VfsState
  import opened VfsTables
  import opened FileSystem
  import opened FileCalls
  import RfsFile
  import Sv39
  import PageTables
  import Paging
  import opened UserBytes

  // ---------------------------------------------------------------------
  // Bytes in user memory
  // ---------------------------------------------------------------------

  // The buffer, gathered.
  function Gathered(m: PageTables.M, p: nat, va: int, count: nat): (b: Bytes)
    requires p in m.roots
    ensures |b| == count && forall k {:trigger b[k]} :: 0 <= k < count ==> b[k] == UserByte(m, p, va + k)
  {
    seq<byte>(count, k requires 0 <= k < count => UserByte(m, p, va + k))
  }

  lemma GatheredSplit(m: PageTables.M, p: nat, va: int, i: nat, len: nat)
    requires p in m.roots
    ensures Gathered(m, p, va, i + len) == Gathered(m, p, va, i) + Gathered(m, p, va + i, len)
  {
    hide UserByte;
    var a, b, c := Gathered(m, p, va, i + len), Gathered(m, p, va, i), Gathered(m, p, va + i, len);
    forall k | 0 <= k < i + len ensures a[k] == (b + c)[k] {
      if k >= i { assert (b + c)[k] == c[k - i]; }
    }
  }

  // The part of the buffer in one page is a slice of that page.
  lemma GatheredPage(m: PageTables.M, p: nat, va: Sv39.Word, len: nat)
    requires p in m.roots && va < Sv39.MAXVA && va % Sv39.PGSIZE + len <= Sv39.PGSIZE
    requires var pa := Paging.PhysicalPage(m, p, va); pa > 0 && pa / Sv39.PGSIZE in m.mem
    ensures var off := va % Sv39.PGSIZE;
            Gathered(m, p, va, len) == PageBytes(m.mem[Paging.PhysicalPage(m, p, va) / Sv39.PGSIZE])[off..off + len]
  {
    var bytes := PageBytes(m.mem[Paging.PhysicalPage(m, p, va) / Sv39.PGSIZE]);
    var off := va % Sv39.PGSIZE;
    var g := Gathered(m, p, va, len);
    forall k | 0 <= k < len ensures g[k] == bytes[off..off + len][k] {
      InPage(m, p, va, k);
    }
  }

  lemma InPage(m: PageTables.M, p: nat, va: Sv39.Word, k: nat)
    requires p in m.roots && va < Sv39.MAXVA && va % Sv39.PGSIZE + k < Sv39.PGSIZE
    requires var pa := Paging.PhysicalPage(m, p, va); pa > 0 && pa / Sv39.PGSIZE in m.mem
    ensures UserByte(m, p, va + k) ==
            PageBytes(m.mem[Paging.PhysicalPage(m, p, va) / Sv39.PGSIZE])[va % Sv39.PGSIZE + k]
  {
    hide PageTables.At, PageBytes, Sv39.R, Sv39.W;
    SamePage(va, k);
  }

  lemma SamePage(va: Sv39.Word, k: nat)
    requires va < Sv39.MAXVA && va % Sv39.PGSIZE + k < Sv39.PGSIZE
    ensures (va + k) / Sv39.PGSIZE == va / Sv39.PGSIZE && (va + k) % Sv39.PGSIZE == va % Sv39.PGSIZE + k
    ensures va + k < Sv39.MAXVA
  {
  }

  // ---------------------------------------------------------------------
  // A write in pieces
  // ---------------------------------------------------------------------

  // The bytes are in the file up to where they end, whatever follows; nothing else
  // changed.
  ghost predicate Chunked(s: State, s': State, fd: Fd, buf: Bytes) {
    && fd in s.c.files && s'.dino == s.dino && FileOf(s', fd) == FileOf(s, fd) && KeepsDents(s.c, s'.c)
    && s'.c.files == s.c.files[fd := s.c.files[fd].(offset := s.c.files[fd].offset + |buf|)]
    && UpTo(s.v, s'.v, FileOf(s, fd), s.c.files[fd].offset, buf)
  }

  ghost predicate UpTo(v: Volume, v': Volume, i: int, off: int, buf: Bytes) {
    && v'.names == v.names && NodesOk(v) && NodesOk(v') && Leaked(v') == Leaked(v)
    && i in v.node && i in v'.node && 0 <= off <= v.node[i].size
    && v'.node == v.node[i := v'.node[i]]
    && v'.node[i].kind == v.node[i].kind && v'.node[i].size == RfsFile.Max(v.node[i].size, off + |buf|)
    && Took(v, v', i, RfsFile.Needed(v.node[i], off, |buf|))
    && RfsFile.Content(v'.node[i], v'.data)[..off + |buf|] == RfsFile.Content(v.node[i], v.data)[..off] + buf
    && OthersSame(v, v', i)
  }

  // The file has k blocks more, from the free ones.
  ghost predicate Took(v: Volume, v': Volume, i: int, k: nat)
    requires i in v.node && i in v'.node
  {
    && v'.node[i].blocks == v.node[i].blocks + k && v'.node[i].nlinks == v.node[i].nlinks
    && RfsFile.FreeCount(v'.freemap) == RfsFile.FreeCount(v.freemap) - k
  }

  // The blocks that two writes in a row need are the blocks that one needs.
  lemma NeededTwice(n: Node, n1: Node, off: int, a: nat, b: nat)
    requires 0 <= off && n1.blocks == n.blocks + RfsFile.Needed(n, off, a)
    ensures RfsFile.Needed(n, off, a + b) == RfsFile.Needed(n, off, a) + RfsFile.Needed(n1, off + a, b)
  {
    Monotone(off + a, b);
  }

  lemma Monotone(x: int, b: nat)
    ensures RfsFile.BlocksFor(x) <= RfsFile.BlocksFor(x + b)
  {
  }

  ghost predicate OthersSame(v: Volume, v': Volume, i: int)
    requires NodesOk(v) && NodesOk(v')
  {
    forall d {:trigger v.node[d]} {:trigger v'.node[d]} :: d in v.node && d != i ==>
      d in v'.node && v'.node[d] == v.node[d] &&
      RfsFile.Content(v'.node[d], v'.data) == RfsFile.Content(v.node[d], v.data)
  }

  lemma WrittenUpTo(v: Volume, v': Volume, i: int, off: int, buf: Bytes)
    requires VolumeWritten(v, v', i, off, buf)
    ensures UpTo(v, v', i, off, buf)
  {
    hide Leaked, RfsFile.Content, RfsFile.Splice, RfsFile.KeepsTail, NodeOk, RfsFile.Needed, RfsFile.FreeCount;
  }

  lemma UpToTwice(v: Volume, v1: Volume, v2: Volume, i: int, off: int, a: Bytes, b: Bytes)
    requires UpTo(v, v1, i, off, a) && UpTo(v1, v2, i, off + |a|, b)
    ensures UpTo(v, v2, i, off, a + b)
  {
    hide Leaked, RfsFile.Content, NodesOk, NodeOk, Blocks, RfsFile.Needed, RfsFile.FreeCount;
    NeededTwice(v.node[i], v1.node[i], off, |a|, |b|);
    var c, c1, c2 := BytesOf(v, i), BytesOf(v1, i), BytesOf(v2, i);
    assert c2[..off + |a + b|] == c[..off] + (a + b);
    OthersTwice(v, v1, v2, i);
  }

  ghost function BytesOf(v: Volume, i: int): Bytes
    requires NodesOk(v) && i in v.node
  {
    RfsFile.Content(v.node[i], v.data)
  }

  lemma OthersTwice(v: Volume, v1: Volume, v2: Volume, i: int)
    requires NodesOk(v) && NodesOk(v1) && NodesOk(v2) && OthersSame(v, v1, i) && OthersSame(v1, v2, i)
    ensures OthersSame(v, v2, i)
  {
    hide RfsFile.Content;
    forall d | d in v.node && d != i
      ensures d in v2.node && v2.node[d] == v.node[d] &&
              RfsFile.Content(v2.node[d], v2.data) == RfsFile.Content(v.node[d], v.data)
    {
      assert v.node[d] == v1.node[d];
    }
  }

  /** A write in pieces that reaches the end of the file is the write in one piece. */
  lemma PiecesMakeOne(s: State, s': State, fd: Fd, buf: Bytes)
    requires Chunked(s, s', fd, buf) && FileOf(s, fd) in s.v.node
    requires s.c.files[fd].offset + |buf| >= s.v.node[FileOf(s, fd)].size
    ensures WriteEffect(s, s', fd, buf)
  {
    hide Leaked, RfsFile.Content, RfsFile.KeepsTail, NodeOk, KeepsDents, RfsFile.Needed, RfsFile.FreeCount;
    var i, off := FileOf(s, fd), s.c.files[fd].offset;
    var c, c' := BytesOf(s.v, i), BytesOf(s'.v, i);
    assert c' == c'[..off + |buf|];
    assert c' == RfsFile.Splice(c, buf, off);
  }

  lemma FirstPiece(s: State, s': State, fd: Fd, buf: Bytes)
    requires WriteEffect(s, s', fd, buf)
    ensures Chunked(s, s', fd, buf)
  {
    hide VolumeWritten, UpTo, KeepsDents;
    WrittenUpTo(s.v, s'.v, FileOf(s, fd), s.c.files[fd].offset, buf);
  }

  lemma NextPiece(s: State, s1: State, s2: State, fd: Fd, a: Bytes, b: Bytes)
    requires Chunked(s, s1, fd, a) && WriteEffect(s1, s2, fd, b)
    ensures Chunked(s, s2, fd, a + b)
  {
    hide VolumeWritten, UpTo, KeepsDents;
    FirstPiece(s1, s2, fd, b);
    KeepsTwice(s.c, s1.c, s2.c);
    UpToTwice(s.v, s1.v, s2.v, FileOf(s, fd), s.c.files[fd].offset, a, b);
  }

  lemma KeepsTwice(c: Cache, c1: Cache, c2: Cache)
    requires KeepsDents(c, c1) && KeepsDents(c1, c2)
    ensures KeepsDents(c, c2)
  {
    hide EntryOf;
    forall d | Points(c, d) ensures Points(c2, d) && EntryOf(c2, d) == EntryOf(c, d) && Inum(c2, d) == Inum(c, d) {
      assert d in c1.dents;
      assert Points(c1, d);
      assert d in c2.dents;
    }
  }

  // ---------------------------------------------------------------------
  // How it ends
  // ---------------------------------------------------------------------

  // A write goes through exactly when its pieces do, one after the other.
  lemma PieceVerdict(s: State, s1: State, fd: Fd, a: Bytes, b: Bytes)
    requires StateOk(s1) && Chunked(s, s1, fd, a) && WriteVerdict(s, fd, a) == Done
    ensures WriteVerdict(s1, fd, b) == WriteVerdict(s, fd, a + b)
  {
    hide StateOk, Leaked, NodesOk, KeepsDents, RfsFile.FreeCount, RfsFile.Needed;
    FilePoints(s1, fd);
    var i := FileOf(s, fd);
    NeededTwice(s.v.node[i], s1.v.node[i], s.c.files[fd].offset, |a|, |b|);
    assert OnKind(s1, fd, File);
  }

  lemma PrefixVerdict(s: State, fd: Fd, a: Bytes, b: Bytes)
    requires StateOk(s) && WriteVerdict(s, fd, a + b) == Done
    ensures WriteVerdict(s, fd, a) == Done
  {
    hide StateOk, RfsFile.FreeCount;
    FileReady(s, fd);
    Monotone(s.c.files[fd].offset + |a|, |b|);
  }

  // The byte at a user address is in a page of the memory that the kernel hands out.
  ghost predicate Readable(m: PageTables.M, p: nat, va: int)
    requires p in m.roots
  {
    0 <= va < Sv39.MAXVA && Paging.PhysicalPage(m, p, va) > 0 && Paging.PhysicalPage(m, p, va) / Sv39.PGSIZE in m.mem
  }

  ghost predicate AllReadable(m: PageTables.M, p: nat, va: int, count: nat)
    requires p in m.roots
  {
    forall a {:trigger Readable(m, p, a)} :: va <= a < va + count ==> Readable(m, p, a)
  }

  // How far a piece of the buffer goes: to the end of its page.
  function PieceLength(va: int, left: nat): (len: nat)
    ensures left > 0 ==> 0 < len <= left
  {
    RfsFile.Min(left, Sv39.PGSIZE - va % Sv39.PGSIZE)
  }

  // The whole buffer can be read, and the file takes it.
  ghost predicate Goes(s: State, fd: Fd, m: PageTables.M, p: nat, va: int, count: nat)
    requires p in m.roots
  {
    count > 0 ==> AllReadable(m, p, va, count) && WriteVerdict(s, fd, Gathered(m, p, va, count)) == Done
  }

  // The file takes the first n bytes of the buffer, and the next piece is why the call stops
  // with outcome o: its page is not there, or the file does not take it.
  ghost predicate Stops(s: State, fd: Fd, m: PageTables.M, p: nat, va: int, count: nat, n: nat, o: Outcome)
    requires p in m.roots && n < count
  {
    && Goes(s, fd, m, p, va, n)
    && (if Readable(m, p, va + n) then
          var w := WriteVerdict(s, fd, Gathered(m, p, va, n + PieceLength(va + n, count - n)));
          w != Done && o == if w == Refused then OutOfScope else w
        else o == OutOfScope)
  }

  lemma StopsShort(s: State, fd: Fd, m: PageTables.M, p: nat, va: int, count: nat, n: nat, o: Outcome)
    requires StateOk(s) && p in m.roots && n < count && Stops(s, fd, m, p, va, count, n, o)
    ensures !Goes(s, fd, m, p, va, count)
  {
    hide StateOk, WriteVerdict, Gathered, Paging.PhysicalPage;
    if Goes(s, fd, m, p, va, count) {
      assert Readable(m, p, va + n);
      var k := n + PieceLength(va + n, count - n);
      GatheredSplit(m, p, va, k, count - k);
      PrefixVerdict(s, fd, Gathered(m, p, va, k), Gathered(m, p, va + k, count - k));
    }
  }

  lemma PageReadable(m: PageTables.M, p: nat, va: int, i: nat, len: nat)
    requires p in m.roots && AllReadable(m, p, va, i) && Readable(m, p, va + i)
    requires (va + i) % Sv39.PGSIZE + len <= Sv39.PGSIZE
    ensures AllReadable(m, p, va, i + len)
  {
    hide PageTables.At;
    forall a | va <= a < va + i + len ensures Readable(m, p, a) {
      if a >= va + i { SamePage(va + i, a - (va + i)); }
    }
  }

  lemma PieceInFile(s: State, s': State, fd: Fd, buf: Bytes)
    requires Chunked(s, s', fd, buf)
    ensures fd in s.c.files && FileOf(s, fd) in s.v.node && NodesOk(s.v)
  {
  }

  // The state after the first i bytes of the buffer.
  ghost predicate Standing(s: State, s': State, fd: Fd, m: PageTables.M, p: nat, va: int, i: nat)
    requires p in m.roots
  {
    (i == 0 ==> s' == s) && (i > 0 ==> Chunked(s, s', fd, Gathered(m, p, va, i))) && Goes(s, fd, m, p, va, i)
  }

  lemma StandingVerdict(s: State, s1: State, fd: Fd, m: PageTables.M, p: nat, va: int, i: nat, len: nat)
    requires StateOk(s1) && p in m.roots && Standing(s, s1, fd, m, p, va, i)
    ensures WriteVerdict(s1, fd, Gathered(m, p, va + i, len)) == WriteVerdict(s, fd, Gathered(m, p, va, i + len))
  {
    hide StateOk, WriteVerdict, Chunked, Gathered, AllReadable;
    if i > 0 {
      GatheredSplit(m, p, va, i, len);
      PieceVerdict(s, s1, fd, Gathered(m, p, va, i), Gathered(m, p, va + i, len));
    }
  }

  lemma StandingNext(s: State, s1: State, s2: State, fd: Fd, m: PageTables.M, p: nat, va: int, i: nat, len: nat)
    requires p in m.roots && len > 0 && Standing(s, s1, fd, m, p, va, i)
    requires WriteEffect(s1, s2, fd, Gathered(m, p, va + i, len))
    requires Readable(m, p, va + i) && (va + i) % Sv39.PGSIZE + len <= Sv39.PGSIZE
    requires WriteVerdict(s, fd, Gathered(m, p, va, i + len)) == Done
    ensures Standing(s, s2, fd, m, p, va, i + len)
  {
    hide WriteEffect, Chunked, Gathered, WriteVerdict, Readable;
    PageReadable(m, p, va, i, len);
    if i == 0 {
      FirstPiece(s1, s2, fd, Gathered(m, p, va, len));
    } else {
      NextPiece(s, s1, s2, fd, Gathered(m, p, va, i), Gathered(m, p, va + i, len));
      GatheredSplit(m, p, va, i, len);
    }
  }

  lemma StandingStops(s: State, s1: State, fd: Fd, m: PageTables.M, p: nat, va: int, count: nat, i: nat, o: Outcome)
    requires StateOk(s) && p in m.roots && i < count && Standing(s, s1, fd, m, p, va, i)
    requires if Readable(m, p, va + i) then
               var w := WriteVerdict(s, fd, Gathered(m, p, va, i + PieceLength(va + i, count - i)));
               w != Done && o == if w == Refused then OutOfScope else w
             else o == OutOfScope
    ensures Stops(s, fd, m, p, va, count, i, o) && !Goes(s, fd, m, p, va, count)
  {
    hide StateOk, WriteVerdict, Gathered, Goes, Readable;
    StopsShort(s, fd, m, p, va, count, i, o);
  }

  // The bytes are in the file up to where they end; if that is its end, the file is as after
  // one write.
  ghost predicate WentIn(s: State, s': State, fd: Fd, buf: Bytes) {
    && Chunked(s, s', fd, buf) && FileOf(s, fd) in s.v.node
    && (s.c.files[fd].offset + |buf| >= s.v.node[FileOf(s, fd)].size ==> WriteEffect(s, s', fd, buf))
  }

  lemma AllIn(s: State, s': State, fd: Fd, buf: Bytes)
    requires Chunked(s, s', fd, buf)
    ensures WentIn(s, s', fd, buf)
  {
    hide Chunked, WriteEffect;
    PieceInFile(s, s', fd, buf);
    if s.c.files[fd].offset + |buf| >= s.v.node[FileOf(s, fd)].size { PiecesMakeOne(s, s', fd, buf); }
  }

  /** sys_user_write: the call succeeds exactly when the whole buffer can be read and the file
      takes it at once; then the bytes of the buffer are in the file, and the file is as if
      they had been gathered and written at once, for every write that reaches its end. */
  method SysUserWrite(calls: Calls, mmu: Paging.Mmu, ghost p: nat, pageDir: Sv39.Frame, fd: Fd, bufva: Sv39.Word,
                      count: nat)
    returns (o: Outcome, n: nat)
    requires calls.Valid() && mmu.Valid() && p in mmu.roots && mmu.roots[p] == pageDir
    modifies calls.fs, mmu
    ensures mmu.S() == old(mmu.S()) && p in mmu.roots
    ensures o.Done? <==> Goes(old(calls.fs.S()), fd, mmu.S(), p, bufva, count)
    ensures o.Done? ==> calls.Valid() && n == count
    ensures !o.Done? ==> n < count && Stops(old(calls.fs.S()), fd, mmu.S(), p, bufva, count, n, o)
    ensures !o.Done? && !Readable(mmu.S(), p, bufva + n) ==>
              calls.Valid() && Standing(old(calls.fs.S()), calls.fs.S(), fd, mmu.S(), p, bufva, n)
    ensures o.Done? && count == 0 ==> calls.fs.S() == old(calls.fs.S())
    ensures o.Done? && count > 0 ==> WentIn(old(calls.fs.S()), calls.fs.S(), fd, Gathered(mmu.S(), p, bufva, count))
  {
    hide StateOk, SlotsCounted, PageTables.PagesOk, WriteEffect, Chunked, Gathered, Standing, Readable, Shaped;
    hide Vfs.Tabled, Goes, Stops, WriteVerdict, WentIn, PieceLength;
    ghost var s, m := calls.fs.S(), mmu.S();
    NoneYet(s, fd, m, p, bufva);
    n := 0;
    var i := 0;
    while i < count
      invariant 0 <= i <= count && calls.Valid() && mmu.S() == m && Standing(s, calls.fs.S(), fd, m, p, bufva, i)
    {
      ghost var s1 := calls.fs.S();
      var len;
      o, len := WritePiece(calls, mmu, p, pageDir, fd, bufva + i, count - i);
      StandingVerdict(s, s1, fd, m, p, bufva, i, len);
      if o != Done {
        o := if o == Refused then OutOfScope else o;
        StandingStops(s, s1, fd, m, p, bufva, count, i, o);
        return o, i;
      }
      StandingNext(s, s1, calls.fs.S(), fd, m, p, bufva, i, len);
      i := i + len;
    }
    StandsChunked(s, calls.fs.S(), fd, m, p, bufva, count);
    if count > 0 { AllIn(s, calls.fs.S(), fd, Gathered(m, p, bufva, count)); }
    return Done, count;
  }

  // One turn of the loop: the rest of the page at va goes to the file.
  method WritePiece(calls: Calls, mmu: Paging.Mmu, ghost p: nat, pageDir: Sv39.Frame, fd: Fd, va: nat, rest: nat)
    returns (o: Outcome, len: nat)
    requires calls.Valid() && mmu.Valid() && p in mmu.roots && mmu.roots[p] == pageDir && rest > 0
    modifies calls.fs, mmu
    ensures mmu.S() == old(mmu.S()) && 0 < len == PieceLength(va, rest) && va % Sv39.PGSIZE + len <= Sv39.PGSIZE
    ensures !Readable(mmu.S(), p, va) ==> o == OutOfScope && calls.fs.S() == old(calls.fs.S()) && calls.Valid()
    ensures Readable(mmu.S(), p, va) ==> o == WriteVerdict(old(calls.fs.S()), fd, Gathered(mmu.S(), p, va, len))
    ensures o.Done? ==>
              calls.Valid() && WriteEffect(old(calls.fs.S()), calls.fs.S(), fd, Gathered(mmu.S(), p, va, len))
  {
    hide StateOk, SlotsCounted, PageTables.PagesOk, WriteEffect, WriteVerdict, Gathered, Paging.PhysicalPage, PageBytes;
    hide Vfs.Tabled, KeepsOpen, Shaped, Silent;
    var off := va % Sv39.PGSIZE;
    len := if rest < Sv39.PGSIZE - off then rest else Sv39.PGSIZE - off;
    if va >= Sv39.MAXVA { return OutOfScope, len; }
    var pa := mmu.LookupPa(p, pageDir, va);
    PageAddress(mmu.S(), p, va);
    if pa == 0 || pa / Sv39.PGSIZE !in mmu.mem { return OutOfScope, len; }
    GatheredPage(mmu.S(), p, va, len);
    o := calls.DoWrite(fd, PageBytes(mmu.mem[pa / Sv39.PGSIZE])[off..off + len]);
  }

  lemma NoneYet(s: State, fd: Fd, m: PageTables.M, p: nat, va: int)
    requires p in m.roots
    ensures Standing(s, s, fd, m, p, va, 0)
  {
  }

  lemma StandsChunked(s: State, s': State, fd: Fd, m: PageTables.M, p: nat, va: int, i: nat)
    requires p in m.roots && Standing(s, s', fd, m, p, va, i)
    ensures Goes(s, fd, m, p, va, i) && (i == 0 ==> s' == s) && (i > 0 ==> Chunked(s, s', fd, Gathered(m, p, va, i)))
  {
  }

  lemma PageAddress(m: PageTables.M, p: nat, va: Sv39.Word)
    requires p in m.roots
    ensures Paging.PhysicalPage(m, p, va) >= 0
  {
  }
}
