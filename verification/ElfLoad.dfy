/**
 The ELF segment loader, over the page allocator and the page tables in memory.
 */
module ElfLoad {
  import opened Base
  import opened Sv39
  import opened PageTables
  import opened Paging
  import opened UserSpace
  import opened ProcMemory
  import opened ProcFork
  import opened UserBytes

  const PROG_LOAD := 1
  const PHDR_SIZE := 56
  const SLOTS := 256                  // PGSIZE / sizeof(mapped_region)
  const WORDS := 0x1_0000_0000_0000_0000

  datatype Segment = Segment(kind: Word, flags: Word, off: Word, vaddr: Word, filesz: Word, memsz: Word)

  // The elf_status values that elf_load returns, a panic, or a full table of regions.
  datatype Status = OK | EIO | ERR | Panicked | NoSlot

  // ---------------------------------------------------------------------
  // Program headers
  // ---------------------------------------------------------------------

  function Header(b: Bytes): (s: Segment)
    requires |b| == PHDR_SIZE
  {
    Pow256Of8();
    Segment(Le(b, 4), Le(b[4..], 4), Le(b[8..], 8), Le(b[16..], 8), Le(b[32..], 8), Le(b[40..], 8))
  }

  // A program header as it lies in the file: eight fields, in this order, lowest byte first.
  datatype ProgramHeader = ProgramHeader(kind: Word, flags: Word, off: Word, vaddr: Word, paddr: Word, filesz: Word,
                                         memsz: Word, align: Word)

  function EncHeader(h: ProgramHeader): (b: Bytes)
    ensures |b| == PHDR_SIZE
  {
    LeBytes(h.kind, 4) + LeBytes(h.flags, 4) + LeBytes(h.off, 8) + LeBytes(h.vaddr, 8) + LeBytes(h.paddr, 8) +
    LeBytes(h.filesz, 8) + LeBytes(h.memsz, 8) + LeBytes(h.align, 8)
  }

  // The field of n bytes at an offset.
  predicate FieldAt(b: Bytes, at: nat, n: nat, x: nat) { at + n <= |b| && b[at..at + n] == LeBytes(x, n) }

  lemma FieldReads(b: Bytes, at: nat, n: nat, x: nat)
    requires FieldAt(b, at, n, x) && x < Pow256(n)
    ensures Le(b[at..], n) == x
  {
    hide LeBytes, Le;
    assert b[at..] == LeBytes(x, n) + b[at + n..];
    LeBack(x, n, b[at + n..]);
  }

  lemma HeaderFields(h: ProgramHeader)
    ensures var b := EncHeader(h);
            && FieldAt(b, 0, 4, h.kind) && FieldAt(b, 4, 4, h.flags) && FieldAt(b, 8, 8, h.off)
            && FieldAt(b, 16, 8, h.vaddr) && FieldAt(b, 32, 8, h.filesz) && FieldAt(b, 40, 8, h.memsz)
  {
    hide LeBytes;
  }

  /** Every header that is written field by field reads back as the segment it describes. */
  lemma HeaderDecodes(h: ProgramHeader)
    requires h.kind < 0x1_0000_0000 && h.flags < 0x1_0000_0000
    ensures Header(EncHeader(h)) == Segment(h.kind, h.flags, h.off, h.vaddr, h.filesz, h.memsz)
  {
    hide EncHeader, Le, LeBytes, Pow256, FieldAt;
    var b := EncHeader(h);
    Pow256Of8();
    HeaderFields(h);
    assert b[0..] == b;
    FieldReads(b, 0, 4, h.kind);
    FieldReads(b, 4, 4, h.flags);
    FieldReads(b, 8, 8, h.off);
    FieldReads(b, 16, 8, h.vaddr);
    FieldReads(b, 32, 8, h.filesz);
    FieldReads(b, 40, 8, h.memsz);
  }

  function EncHeaders(hs: seq<ProgramHeader>): (b: Bytes)
    ensures |b| == PHDR_SIZE * |hs|
  {
    if hs == [] then [] else EncHeaders(hs[..|hs| - 1]) + EncHeader(hs[|hs| - 1])
  }

  // The segments of the headers whose type is PT_LOAD.
  function LoadSegments(hs: seq<ProgramHeader>): seq<Segment> {
    if hs == [] then []
    else
      var h := hs[|hs| - 1];
      LoadSegments(hs[..|hs| - 1]) +
      if h.kind == 1 then [Segment(h.kind, h.flags, h.off, h.vaddr, h.filesz, h.memsz)] else []
  }

  predicate Uint32Fields(hs: seq<ProgramHeader>) {
    forall i {:trigger hs[i]} :: 0 <= i < |hs| ==> hs[i].kind < 0x1_0000_0000 && hs[i].flags < 0x1_0000_0000
  }

  /** A table of headers anywhere in the file gives the loadable segments in order. */
  lemma {:induction false} TableDecodes(file: Bytes, phoff: nat, hs: seq<ProgramHeader>)
    requires phoff + PHDR_SIZE * |hs| <= |file| && file[phoff..phoff + PHDR_SIZE * |hs|] == EncHeaders(hs)
    requires Uint32Fields(hs)
    ensures HeadersThere(file, phoff, |hs|) && Loads(file, phoff, |hs|) == LoadSegments(hs)
  {
    hide Header, EncHeader;
    if hs != [] {
      var n := |hs| - 1;
      var all := file[phoff..phoff + PHDR_SIZE * |hs|];
      assert file[phoff..phoff + PHDR_SIZE * n] == all[..PHDR_SIZE * n] == EncHeaders(hs[..n]);
      assert file[phoff + PHDR_SIZE * n..phoff + PHDR_SIZE * n + PHDR_SIZE] == all[PHDR_SIZE * n..] == EncHeader(hs[n]);
      TableDecodes(file, phoff, hs[..n]);
      HeaderDecodes(hs[n]);
    }
  }

  // A read that the host cuts short at the end of the file.
  function Pread(file: Bytes, n: nat, offset: nat): (r: Bytes)
    ensures n > 0 ==> (|r| == n <==> offset + n <= |file|)
    ensures |r| == n && n > 0 ==> r == file[offset..offset + n]
  {
    if offset >= |file| then [] else if offset + n <= |file| then file[offset..offset + n] else file[offset..]
  }

  // ---------------------------------------------------------------------
  // What a loaded segment looks like
  // ---------------------------------------------------------------------

  // The byte at an address once the first `loaded` bytes of the file part are in place.
  function ByteAt(file: Bytes, s: Segment, loaded: nat, addr: int): byte
    requires loaded > 0 ==> s.off + loaded <= |file|
  {
    if s.vaddr <= addr < s.vaddr + loaded then file[s.off + addr - s.vaddr] else 0
  }

  function PageAt(file: Bytes, s: Segment, loaded: nat, v: nat): (b: Bytes)
    requires loaded > 0 ==> s.off + loaded <= |file|
    ensures |b| == PGSIZE
    ensures forall j {:trigger b[j]} :: 0 <= j < PGSIZE ==> b[j] == ByteAt(file, s, loaded, v * PGSIZE + j)
  {
    seq<byte>(PGSIZE, j requires 0 <= j < PGSIZE => ByteAt(file, s, loaded, v * PGSIZE + j))
  }

  function FirstPage(s: Segment): nat { s.vaddr / PGSIZE }

  // The page past the segment's last; the rounding of an empty segment at 0 wraps to 0.
  function EndPage(s: Segment): (e: nat)
    ensures e >= FirstPage(s)
  {
    if s.vaddr + s.memsz == 0 then 0 else (s.vaddr + s.memsz - 1) / PGSIZE + 1
  }

  predicate InSegment(s: Segment, v: nat) { FirstPage(s) <= v < EndPage(s) }

  function PagesOf(s: Segment): seq<nat> { PageRange(FirstPage(s), EndPage(s) - FirstPage(s)) }

  /** The pages of a segment that is not empty are those with an address of it. */
  lemma PagesByAddress(s: Segment, v: nat)
    requires s.memsz > 0
    ensures v in PagesOf(s) <==> v * PGSIZE < s.vaddr + s.memsz && s.vaddr < (v + 1) * PGSIZE
  {
    PagesOfMeans(s, v);
  }

  lemma PagesOfMeans(s: Segment, v: nat)
    ensures v in PagesOf(s) <==> InSegment(s, v)
  {
    var r := PagesOf(s);
    if InSegment(s, v) { assert r[v - FirstPage(s)] == v; }
  }

  // The PROT_ bits that elf_alloc_mb makes of the flags, and the page's permissions.
  function ProtOf(flags: Word): nat { flags / 4 % 2 * 1 + flags / 2 % 2 * 2 + flags % 2 * 4 }

  function Perm(s: Segment): Word { ProtToType(ProtOf(s.flags), true) }

  // lookup_pa finds no page that can only be executed.
  predicate ExecOnly(flags: Word) { ProtOf(flags) == 4 }

  // More bytes in the file than in memory, or past the end of the address range.
  predicate Malformed(s: Segment) { s.memsz < s.filesz || s.vaddr + s.memsz >= WORDS }

  // The file part cannot be read in.
  predicate ReadFails(file: Bytes, s: Segment) { s.filesz > 0 && (ExecOnly(s.flags) || s.off + s.filesz > |file|) }

  // From m0 to m the address space p got the pages vs, all from the free list, and the
  // tables for them; nothing else changed.
  ghost predicate Extended(m0: M, m: M, p: nat, vs: seq<nat>) {
    && p in m0.roots && m.roots == m0.roots && Kept(m0, m, NO_PAGE) && Distinct(vs)
    && ShapeOf(m, p) == ExtendAll(ShapeOf(m0, p), vs)
    && |m.free| == |m0.free| - |vs| - TablesFor(ShapeOf(m0, p), vs)
    && (forall q, v: nat {:trigger At(m, q, v)} ::
         q in m0.roots && v < MAXVPN && !(q == p && v in vs) ==> At(m, q, v) == At(m0, q, v))
    && (forall v {:trigger v in vs} {:trigger PrivateAt(m, p, v)} :: v in vs ==> NewPage(m0, m, p, v))
  }

  ghost predicate NewPage(m0: M, m: M, p: nat, v: nat)
    requires p in m0.roots && p in m.roots
  {
    && v < MAXVPN && At(m0, p, v) == 0 && PrivateAt(m, p, v)
    && (Ppn(At(m, p, v)) in m0.use ==> !InHands(m0.use[Ppn(At(m, p, v))]))
  }

  // The pages vs can be added: none is mapped yet, none comes twice, and there is memory
  // for them and their tables.
  ghost predicate CanExtend(m: M, p: nat, vs: seq<nat>)
    requires p in m.roots
  {
    && Distinct(vs) && |vs| + TablesFor(ShapeOf(m, p), vs) <= |m.free|
    && forall v {:trigger v in vs} :: v in vs ==> v < MAXVPN && At(m, p, v) == 0
  }

  // A page of p with these permissions and bytes.
  ghost predicate PageHolds(m: M, p: nat, v: nat, perm: Word, bytes: Bytes)
    requires p in m.roots
  {
    var e := At(m, p, v);
    PrivateAt(m, p, v) && Flags(e) == perm + 1 && Ppn(e) in m.mem && PageBytes(m.mem[Ppn(e)]) == bytes
  }

  // The segment's pages hold the first `loaded` bytes of its file part.
  ghost predicate Partly(m: M, p: nat, file: Bytes, s: Segment, loaded: nat)
    requires p in m.roots
  {
    && loaded <= s.filesz && (loaded > 0 ==> s.off + loaded <= |file|)
    && forall v: nat {:trigger InSegment(s, v)} {:trigger At(m, p, v)} :: InSegment(s, v) ==>
         v < MAXVPN && PageHolds(m, p, v, Perm(s), PageAt(file, s, loaded, v))
  }

  // ---------------------------------------------------------------------
  // Lists of pages
  // ---------------------------------------------------------------------

  lemma {:induction false} TablesForJoin(t: Shape, vs: seq<nat>, ws: seq<nat>)
    ensures TablesFor(t, vs + ws) == TablesFor(t, vs) + TablesFor(ExtendAll(t, vs), ws)
    ensures ExtendAll(t, vs + ws) == ExtendAll(ExtendAll(t, vs), ws)
    decreases |ws|
  {
    hide Missing, Extend;
    if ws == [] {
      assert vs + ws == vs;
    } else {
      var front, w := ws[..|ws| - 1], ws[|ws| - 1];
      TablesForJoin(t, vs, front);
      assert vs + ws == vs + front + [w] && ws == front + [w];
      TablesForNext(t, vs + front, w);
      TablesForNext(ExtendAll(t, vs), front, w);
    }
  }

  lemma DistinctJoin(vs: seq<nat>, ws: seq<nat>)
    ensures Distinct(vs + ws) <==> Distinct(vs) && Distinct(ws) && forall v {:trigger v in vs} :: v in vs ==> v !in ws
  {
    var all := vs + ws;
    if Distinct(all) {
      DistinctPrefix(vs, all);
      forall i, j | 0 <= i < j < |ws| ensures ws[i] != ws[j] {
        assert all[|vs| + i] == ws[i] && all[|vs| + j] == ws[j];
      }
      forall v | v in vs ensures v !in ws {
        var i :| 0 <= i < |vs| && vs[i] == v;
        forall j | 0 <= j < |ws| ensures ws[j] != v { assert all[i] == v && all[|vs| + j] == ws[j]; }
      }
    } else {
      var i, j :| 0 <= i < j < |all| && all[i] == all[j];
      if i < |vs| <= j { assert vs[i] in vs && ws[j - |vs|] in ws; }
    }
  }

  /** Pages can be added one list after the other exactly if they can be added together. */
  lemma CanExtendJoin(m0: M, m: M, p: nat, vs: seq<nat>, ws: seq<nat>)
    requires Extended(m0, m, p, vs)
    ensures p in m.roots && (CanExtend(m, p, ws) <==> CanExtend(m0, p, vs + ws))
  {
    hide At, ShapeOf, TablesFor, ExtendAll, Distinct, NewPage;
    TablesForJoin(ShapeOf(m0, p), vs, ws);
    DistinctJoin(vs, ws);
    forall v | v in vs ensures v < MAXVPN && At(m0, p, v) == 0 && At(m, p, v) != 0 { NewPageMeans(m0, m, p, v); }
    forall v: nat | v < MAXVPN && v !in vs ensures At(m, p, v) == At(m0, p, v) {}
    if CanExtend(m, p, ws) {
      forall v | v in vs + ws ensures v < MAXVPN && At(m0, p, v) == 0 { if v !in vs { assert v in ws; } }
      forall v | v in vs ensures v !in ws {}
    }
    if CanExtend(m0, p, vs + ws) {
      forall v | v in ws ensures v < MAXVPN && At(m, p, v) == 0 { assert v in vs + ws; }
    }
  }

  lemma NewPageMeans(m0: M, m: M, p: nat, v: nat)
    requires p in m0.roots && p in m.roots && NewPage(m0, m, p, v)
    ensures v < MAXVPN && At(m0, p, v) == 0 && At(m, p, v) != 0 && PrivateAt(m, p, v)
  {
  }

  lemma ExtendedJoin(m0: M, m1: M, m2: M, p: nat, vs: seq<nat>, ws: seq<nat>)
    requires Extended(m0, m1, p, vs) && Extended(m1, m2, p, ws) && 0 !in m0.use && 0 !in m1.use
    ensures Extended(m0, m2, p, vs + ws)
  {
    hide At, ShapeOf, TablesFor, ExtendAll, Distinct, NewPage, Kept;
    TablesForJoin(ShapeOf(m0, p), vs, ws);
    DistinctJoin(vs, ws);
    KeptTrans(m0, m1, m2, NO_PAGE);
    forall v | v in vs ensures v !in ws && NewPage(m0, m2, p, v) {
      assert NewPage(m0, m1, p, v);
      NewPageMeans(m0, m1, p, v);
      if v in ws { NewPageMeans(m1, m2, p, v); assert false; }
      assert At(m2, p, v) == At(m1, p, v);
      OldNewPage(m0, m1, m2, p, v);
    }
    forall v | v in ws ensures NewPage(m0, m2, p, v) {
      assert NewPage(m1, m2, p, v);
      NewPageMeans(m1, m2, p, v);
      if v in vs { NewPageMeans(m0, m1, p, v); }
      assert At(m1, p, v) == At(m0, p, v);
      LaterNewPage(m0, m1, m2, p, v);
    }
    forall q, v: nat | q in m0.roots && v < MAXVPN && !(q == p && v in vs + ws) ensures At(m2, q, v) == At(m0, q, v) {
      assert At(m2, q, v) == At(m1, q, v);
      assert At(m1, q, v) == At(m0, q, v);
    }
  }

  lemma OldNewPage(m0: M, m1: M, m2: M, p: nat, v: nat)
    requires p in m0.roots && p in m1.roots && p in m2.roots && NewPage(m0, m1, p, v) && Kept(m1, m2, NO_PAGE)
    requires 0 !in m1.use
    requires At(m2, p, v) == At(m1, p, v)
    ensures NewPage(m0, m2, p, v)
  {
    hide At;
    var f := Ppn(At(m1, p, v));
    assert m1.use[f] == Private(p, v);
  }

  lemma LaterNewPage(m0: M, m1: M, m2: M, p: nat, v: nat)
    requires p in m0.roots && p in m1.roots && p in m2.roots && NewPage(m1, m2, p, v) && Kept(m0, m1, NO_PAGE)
    requires 0 !in m0.use
    requires At(m0, p, v) == 0
    ensures NewPage(m0, m2, p, v)
  {
    hide At;
  }

  lemma CanExtendLess(m: M, p: nat, vs: seq<nat>, ws: seq<nat>)
    requires p in m.roots && vs <= ws && CanExtend(m, p, ws)
    ensures CanExtend(m, p, vs)
  {
    hide At, ShapeOf, TablesFor, Distinct;
    assert ws == vs + ws[|vs|..];
    TablesForMore(ShapeOf(m, p), vs, ws[|vs|..]);
    DistinctPrefix(vs, ws);
    forall v | v in vs ensures v in ws {
      var i :| 0 <= i < |vs| && vs[i] == v;
      assert ws[i] == v;
    }
  }

  lemma ExtendedNone(m: M, p: nat)
    requires p in m.roots && PagesOk(m)
    ensures Extended(m, m, p, [])
  {
    hide PagesOk, At, ShapeOf;
    KeptSelf(m);
  }

  // A page of the free list was taken: can it be mapped?
  lemma CanMapOne(m1: M, m2: M, p: nat, v: nat)
    requires p in m1.roots && SameMaps(m1, m2) && SameShapes(m1, m2) && |m2.free| == |m1.free| - 1
    ensures p in m2.roots && (CanMap(m2, p, v) <==> CanExtend(m1, p, [v]))
  {
    hide At, ShapeOf, Missing;
    TablesForNext(ShapeOf(m1, p), [], v);
    assert [] + [v] == [v];
    SameAt(m1, m2, p, v);
    ShapeSame(m1, m2, p);
    assert v in [v];
  }

  lemma ExtendedByOne(m1: M, m2: M, m3: M, p: nat, v: nat, f: Frame, e: Word)
    requires p in m1.roots && SameMaps(m1, m2) && SameShapes(m1, m2) && |m2.free| == |m1.free| - 1
    requires Kept(m1, m2, NO_PAGE)
    requires f in m1.use && !InHands(m1.use[f]) && v < MAXVPN && At(m2, p, v) == 0
    requires OneChanged(m2, m3, p, v, e) && Kept(m2, m3, f) && Walked(m2, m3, p, v, 0)
    requires e != 0 && Ppn(e) == f && f in m3.use && m3.use[f] == Private(p, v)
    ensures Extended(m1, m3, p, [v])
  {
    hide At, ShapeOf, Missing, Extend;
    TablesForNext(ShapeOf(m1, p), [], v);
    assert [] + [v] == [v];
    SameAt(m1, m2, p, v);
    ShapeSame(m1, m2, p);
    AddsOne(m1, m2, m3, p, v, e, f);
    forall q, w: nat | q in m1.roots && w < MAXVPN && !(q == p && w in [v]) ensures At(m3, q, w) == At(m1, q, w) {
      assert v in [v];
    }
    assert At(m3, p, v) == e;
  }

  // ---------------------------------------------------------------------
  // Contents of pages
  // ---------------------------------------------------------------------

  lemma PageStays(m1: M, m2: M, p: nat, v: nat, perm: Word, bytes: Bytes)
    requires p in m1.roots && p in m2.roots && PageHolds(m1, p, v, perm, bytes) && Kept(m1, m2, NO_PAGE) && 0 !in m1.use
    requires At(m2, p, v) == At(m1, p, v)
    ensures PageHolds(m2, p, v, perm, bytes)
  {
    hide At, PageBytes;
    assert m1.use[Ppn(At(m1, p, v))] == Private(p, v);
  }

  // The n pages from v0 on hold zeros.
  ghost predicate HoldZeros(m: M, p: nat, perm: Word, v0: nat, n: nat)
    requires p in m.roots
  {
    forall v: nat {:trigger PageHolds(m, p, v, perm, ZeroPage())} ::
      v0 <= v < v0 + n ==> PageHolds(m, p, v, perm, ZeroPage())
  }

  function ZeroPage(): Bytes { seq<byte>(PGSIZE, _ => 0) }

  lemma HoldZerosNext(m1: M, m3: M, p: nat, perm: Word, v0: nat, n: nat, f: Frame)
    requires p in m1.roots && HoldZeros(m1, p, perm, v0, n) && Extended(m1, m3, p, [v0 + n]) && 0 !in m1.use
    requires Flags(At(m3, p, v0 + n)) == perm + 1 && Ppn(At(m3, p, v0 + n)) == f && f in m3.mem && m3.mem[f] == Zeros()
    ensures HoldZeros(m3, p, perm, v0, n + 1)
  {
    hide At, ShapeOf, TablesFor, ExtendAll, NewPage, PageBytes, Zeros, PageHolds, Kept;
    ZeroBytes();
    var w := v0 + n;
    assert w in [w] && NewPage(m1, m3, p, w);
    NewPageMeans(m1, m3, p, w);
    forall v: nat | v0 <= v < v0 + n + 1 ensures PageHolds(m3, p, v, perm, ZeroPage()) {
      if v == w {
        NewZeros(m3, p, w, perm, f);
      } else {
        assert PageHolds(m1, p, v, perm, ZeroPage());
        assert v !in [w] && At(m3, p, v) == At(m1, p, v);
        PageStays(m1, m3, p, v, perm, ZeroPage());
      }
    }
  }

  lemma NewZeros(m: M, p: nat, v: nat, perm: Word, f: Frame)
    requires p in m.roots && PrivateAt(m, p, v) && Flags(At(m, p, v)) == perm + 1 && Ppn(At(m, p, v)) == f
    requires f in m.mem && m.mem[f] == Zeros() && PageBytes(Zeros()) == ZeroPage()
    ensures PageHolds(m, p, v, perm, ZeroPage())
  {
    hide At, PageBytes, Zeros;
  }

  lemma ZerosArePartly(m: M, p: nat, file: Bytes, s: Segment)
    requires p in m.roots && HoldZeros(m, p, Perm(s), FirstPage(s), EndPage(s) - FirstPage(s))
    requires EndPage(s) > FirstPage(s) ==> EndPage(s) <= MAXVPN
    ensures Partly(m, p, file, s, 0)
  {
    hide At, PageBytes, ProtOf, PageHolds, ProtToType;
    forall v: nat | InSegment(s, v) ensures PageHolds(m, p, v, Perm(s), PageAt(file, s, 0, v)) {
      assert PageAt(file, s, 0, v) == ZeroPage();
    }
  }

  // What one read of the copy loop does to its page.
  function Filled(b: Bytes, at: nat, got: Bytes): (r: Bytes)
    requires |b| == PGSIZE && at + |got| <= PGSIZE
    ensures |r| == PGSIZE
  {
    b[..at] + got + b[at + |got|..]
  }

  lemma FilledPage(file: Bytes, s: Segment, loaded: nat, n: nat, v: nat)
    requires s.off + loaded + n <= |file| && n > 0
    requires v == (s.vaddr + loaded) / PGSIZE && (s.vaddr + loaded) % PGSIZE + n <= PGSIZE
    ensures var at := (s.vaddr + loaded) % PGSIZE;
            Filled(PageAt(file, s, loaded, v), at, file[s.off + loaded..s.off + loaded + n]) ==
            PageAt(file, s, loaded + n, v)
  {
    var at := (s.vaddr + loaded) % PGSIZE;
    assert v * PGSIZE + at == s.vaddr + loaded;
    var b, q := PageAt(file, s, loaded, v), PageAt(file, s, loaded + n, v);
    var r := Filled(b, at, file[s.off + loaded..s.off + loaded + n]);
    forall j | 0 <= j < PGSIZE ensures r[j] == q[j] {
      if at <= j < at + n {
        assert r[j] == file[s.off + loaded..s.off + loaded + n][j - at];
      } else {
        assert r[j] == b[j];
      }
    }
  }

  // Pages other than the one being read into do not change.
  lemma OtherPage(file: Bytes, s: Segment, loaded: nat, n: nat, v: nat)
    requires s.off + loaded + n <= |file| && n > 0
    requires v != (s.vaddr + loaded) / PGSIZE && (s.vaddr + loaded) % PGSIZE + n <= PGSIZE
    ensures PageAt(file, s, loaded + n, v) == PageAt(file, s, loaded, v)
  {
    var b, q, w := PageAt(file, s, loaded, v), PageAt(file, s, loaded + n, v), (s.vaddr + loaded) / PGSIZE;
    assert w * PGSIZE <= s.vaddr + loaded && s.vaddr + loaded + n <= w * PGSIZE + PGSIZE;
    forall j | 0 <= j < PGSIZE ensures q[j] == b[j] {
      assert v < w ==> v * PGSIZE + j < w * PGSIZE;
      assert v > w ==> v * PGSIZE + j >= w * PGSIZE + PGSIZE;
    }
  }

  // One page gets new bytes; no other page of p changes.
  lemma PageRefilled(m: M, m': M, p: nat, v: nat, w: nat, f: Frame, perm: Word, old_: Bytes, new_: Bytes)
    requires p in m.roots && SameMaps(m, m') && Kept(m, m', f) && m'.use == m.use && 0 !in m.use
    requires PrivateAt(m, p, v) && f == Ppn(At(m, p, v)) && PageHolds(m, p, w, perm, old_)
    requires f in m'.mem && PageBytes(m'.mem[f]) == new_
    ensures p in m'.roots && PageHolds(m', p, w, perm, if w == v then new_ else old_)
  {
    hide At, PageBytes;
    SameAt(m, m', p, w);
    var g := Ppn(At(m, p, w));
    assert m.use[g] == Private(p, w);
  }

  lemma PartlyNext(m: M, m': M, p: nat, file: Bytes, s: Segment, loaded: nat, n: nat, f: Frame)
    requires p in m.roots && Partly(m, p, file, s, loaded) && SameMaps(m, m') && m'.use == m.use && 0 !in m.use
    requires Kept(m, m', f)
    requires loaded + n <= s.filesz <= s.memsz && s.off + loaded + n <= |file| && n > 0
    requires (s.vaddr + loaded) % PGSIZE + n <= PGSIZE
    requires var v, at := (s.vaddr + loaded) / PGSIZE, (s.vaddr + loaded) % PGSIZE;
             f == Ppn(At(m, p, v)) && f in m'.mem &&
             PageBytes(m'.mem[f]) == Filled(PageAt(file, s, loaded, v), at, file[s.off + loaded..s.off + loaded + n])
    ensures p in m'.roots && Partly(m', p, file, s, loaded + n)
  {
    hide At, PageAt, Filled, PageBytes, PageHolds, ProtOf, ProtToType, Kept;
    var v, at := (s.vaddr + loaded) / PGSIZE, (s.vaddr + loaded) % PGSIZE;
    InsideSegment(s, loaded);
    assert PageHolds(m, p, v, Perm(s), PageAt(file, s, loaded, v));
    HoldsPrivate(m, p, v, Perm(s), PageAt(file, s, loaded, v));
    FilledPage(file, s, loaded, n, v);
    MapsRoots(m, m');
    forall w: nat | InSegment(s, w) ensures PageHolds(m', p, w, Perm(s), PageAt(file, s, loaded + n, w)) {
      assert PageHolds(m, p, w, Perm(s), PageAt(file, s, loaded, w));
      if w != v { OtherPage(file, s, loaded, n, w); }
      PageRefilled(m, m', p, v, w, f, Perm(s), PageAt(file, s, loaded, w), PageAt(file, s, loaded + n, v));
    }
  }

  lemma HoldsPrivate(m: M, p: nat, v: nat, perm: Word, bytes: Bytes)
    requires p in m.roots && PageHolds(m, p, v, perm, bytes)
    ensures PrivateAt(m, p, v) && Flags(At(m, p, v)) == perm + 1
    ensures var f := Ppn(At(m, p, v));
            f in m.mem && PageBytes(m.mem[f]) == bytes && f in m.use && m.use[f] == Private(p, v)
  {
  }

  lemma InsideSegment(s: Segment, x: nat)
    requires x < s.memsz
    ensures InSegment(s, (s.vaddr + x) / PGSIZE)
  {
    assert s.vaddr / PGSIZE <= (s.vaddr + x) / PGSIZE <= (s.vaddr + s.memsz - 1) / PGSIZE;
  }

  // New contents of an added page.
  lemma ExtendedFilled(m0: M, m: M, m': M, p: nat, vs: seq<nat>, v: nat)
    requires Extended(m0, m, p, vs) && v in vs && SameMaps(m, m') && SameShapes(m, m') && m'.free == m.free
    requires m'.use == m.use
    requires Kept(m, m', Ppn(At(m, p, v)))
    ensures Extended(m0, m', p, vs)
  {
    hide At, ShapeOf, TablesFor, ExtendAll, Distinct;
    var f := Ppn(At(m, p, v));
    assert NewPage(m0, m, p, v);
    forall g | g in m0.use && InHands(m0.use[g]) && g != NO_PAGE
      ensures g in m'.use && m'.use[g] == m0.use[g] && g in m0.mem && g in m'.mem && m'.mem[g] == m0.mem[g]
    {
      assert m0.use[g] == m.use[g];
    }
    ShapeSame(m, m', p);
    forall w | w in vs ensures NewPage(m0, m', p, w) {
      assert NewPage(m0, m, p, w);
      SameAt(m, m', p, w);
    }
    forall q, w: nat | q in m0.roots && w < MAXVPN && !(q == p && w in vs) ensures At(m', q, w) == At(m0, q, w) {
      SameAt(m, m', q, w);
      assert At(m, q, w) == At(m0, q, w);
    }
  }

  // ---------------------------------------------------------------------
  // The table of regions
  // ---------------------------------------------------------------------

  function RegionOf(s: Segment): Region {
    Region(s.vaddr, EndPage(s) - FirstPage(s), if s.flags == 5 then CODE else DATA)
  }

  // The slot that the loader takes: the first whose address is 0.
  function FirstFree(info: seq<Region>): (j: nat)
    ensures j <= |info| && (j < |info| ==> info[j].va == 0)
    ensures forall k {:trigger info[k]} :: 0 <= k < j ==> info[k].va != 0
  {
    if info == [] then 0 else if info[0].va == 0 then 0
    else
      var j := FirstFree(info[1..]);
      assert forall k {:trigger info[k]} :: 0 < k < 1 + j ==> info[k] == info[1..][k - 1];
      1 + j
  }

  // The table after these segments, if each finds a slot.
  function RecordAll(info: seq<Region>, segs: seq<Segment>): (r: seq<Region>)
    ensures |r| == |info|
  {
    if segs == [] then info
    else
      var r := RecordAll(info, segs[..|segs| - 1]);
      var j := FirstFree(r);
      if j < |r| then r[j := RegionOf(segs[|segs| - 1])] else r
  }

  lemma RecordNext(info: seq<Region>, segs: seq<Segment>, s: Segment)
    ensures var r := RecordAll(info, segs); var j := FirstFree(r);
            RecordAll(info, segs + [s]) == if j < |r| then r[j := RegionOf(s)] else r
  {
    assert (segs + [s])[..|segs|] == segs;
  }

  lemma FirstFreeIs(info: seq<Region>, j: nat)
    requires j < |info| && info[j].va == 0 && forall k {:trigger info[k]} :: 0 <= k < j ==> info[k].va != 0
    ensures FirstFree(info) == j
  {
  }

  // Slots 0 to t - 1 are in use, and no other.
  predicate UsedUpTo(info: seq<Region>, t: nat) {
    t <= |info| && forall k {:trigger info[k]} :: 0 <= k < |info| ==> (info[k].va != 0 <==> k < t)
  }

  // How many of the segments keep their slot.
  function Placed(segs: seq<Segment>): (n: nat)
    ensures n <= |segs|
  {
    if segs == [] then 0 else Placed(segs[..|segs| - 1]) + (if segs[|segs| - 1].vaddr != 0 then 1 else 0)
  }

  lemma {:induction false} PlacedAll(segs: seq<Segment>)
    ensures Placed(segs) == |segs| <==> forall k {:trigger segs[k]} :: 0 <= k < |segs| ==> segs[k].vaddr != 0
  {
    if segs != [] {
      var front := segs[..|segs| - 1];
      PlacedAll(front);
      assert forall k {:trigger segs[k]} :: 0 <= k < |front| ==> segs[k] == front[k];
    }
  }

  lemma {:induction false} RecordedUpTo(info: seq<Region>, segs: seq<Segment>, t: nat)
    requires UsedUpTo(info, t) && t + |segs| <= |info|
    ensures UsedUpTo(RecordAll(info, segs), t + Placed(segs))
  {
    if segs != [] {
      var front := segs[..|segs| - 1];
      RecordedUpTo(info, front, t);
      FirstFreeIs(RecordAll(info, front), t + Placed(front));
    }
  }

  /** As many slots are taken as segments are recorded, as total_mapped_region has it,
      exactly if no segment lies at address 0: that one's slot is taken again. */
  lemma RecordedInOrder(info: seq<Region>, segs: seq<Segment>, t: nat)
    requires UsedUpTo(info, t) && t + |segs| <= |info|
    ensures UsedUpTo(RecordAll(info, segs), t + |segs|) <==>
      forall k {:trigger segs[k]} :: 0 <= k < |segs| ==> segs[k].vaddr != 0
  {
    hide UsedUpTo, RecordAll;
    RecordedUpTo(info, segs, t);
    PlacedAll(segs);
    OneBoundary(RecordAll(info, segs), t + |segs|, t + Placed(segs));
  }

  /** With no segment at address 0, the k-th goes to the k-th free slot, under its own address, as
      code or as data by its flags, with the number of its pages; the other slots stay. */
  lemma {:induction false} RecordedIs(info: seq<Region>, segs: seq<Segment>, t: nat, j: nat)
    requires UsedUpTo(info, t) && t + |segs| <= |info| && j < |info|
    requires forall k {:trigger segs[k]} :: 0 <= k < |segs| ==> segs[k].vaddr != 0
    ensures !(t <= j < t + |segs|) ==> RecordAll(info, segs)[j] == info[j]
    ensures t <= j < t + |segs| ==> SlotOf(RecordAll(info, segs)[j], segs[j - t])
  {
    if segs != [] {
      var front := segs[..|segs| - 1];
      RecordedIs(info, front, t, j);
      RecordedUpTo(info, front, t);
      PlacedAll(front);
      FirstFreeIs(RecordAll(info, front), t + |front|);
      if j == t + |front| {
        assert RecordAll(info, segs)[j] == RegionOf(segs[|front|]);
      } else {
        assert RecordAll(info, segs)[j] == RecordAll(info, front)[j];
      }
    }
  }

  predicate SlotOf(r: Region, s: Segment) {
    && r.va == s.vaddr && (s.flags == 5 ==> r.kind == CODE) && (s.flags != 5 ==> r.kind == DATA)
    && r.npages == |PagesOf(s)|
  }

  lemma OneBoundary(info: seq<Region>, t: nat, u: nat)
    requires UsedUpTo(info, u) && t <= |info|
    ensures UsedUpTo(info, t) <==> t == u
  {
    if t < u { assert info[t].va != 0; } else if u < t { assert info[u].va == 0; }
  }

  // ---------------------------------------------------------------------
  // The loader
  // ---------------------------------------------------------------------

  /** memset of a page that the kernel holds. */
  method ClearPage(mmu: Mmu, f: Frame)
    requires Ok(mmu) && f in mmu.use && InHands(mmu.use[f])
    modifies mmu
    ensures Ok(mmu) && SameMaps(old(mmu.S()), mmu.S()) && Kept(old(mmu.S()), mmu.S(), f)
    ensures SameShapes(old(mmu.S()), mmu.S())
    ensures mmu.use == old(mmu.use) && mmu.free == old(mmu.free) && f in mmu.mem && mmu.mem[f] == Zeros()
  {
    FillPage(mmu, f, Zeros());
  }

  class Loader {
    const mmu: Mmu
    const pageDir: Frame                // of the process that is loaded
    ghost const p: nat
    var info: seq<Region>               // mapped_info
    var total: nat                      // total_mapped_region

    ghost predicate Valid()
      reads this, mmu
    {
      Ok(mmu) && p in mmu.roots && mmu.roots[p] == pageDir && mmu.end <= DRAM_BASE + MAX_RAM && |info| == SLOTS
    }

    constructor (mmu: Mmu, pageDir: Frame, ghost p: nat, info: seq<Region>, total: nat)
      requires Ok(mmu) && p in mmu.roots && mmu.roots[p] == pageDir && mmu.end <= DRAM_BASE + MAX_RAM && |info| == SLOTS
      ensures Valid() && this.mmu == mmu && this.p == p && this.info == info && this.total == total
    {
      this.mmu, this.pageDir, this.p, this.info, this.total := mmu, pageDir, p, info, total;
    }

    // One page of elf_alloc_mb; false is a panic.
    method AllocOne(s: Segment, v: nat) returns (ok: bool)
      requires Valid() && v * PGSIZE < WORDS
      modifies mmu
      ensures ok <==> CanExtend(old(mmu.S()), p, [v])
      ensures mmu.roots == old(mmu.roots)
      ensures ok ==> Valid() && Extended(old(mmu.S()), mmu.S(), p, [v]) && Flags(At(mmu.S(), p, v)) == Perm(s) + 1
      ensures ok ==> var f := Ppn(At(mmu.S(), p, v)); f in mmu.mem && mmu.mem[f] == Zeros()
    {
      hide Ok, Kept, SameMaps, SameShapes, OneChanged, Walked, At, ShapeOf, MkPte, ProtToType, ProtOf, CanMap,
        CanExtend, Extended, Zeros;
      ghost var m := mmu.S();
      ZeroNotUsed(mmu);
      var f := TakePage(mmu);
      ghost var m1 := mmu.S();
      MapsRoots(m, m1);
      if f == 0 { NothingFits(m, p, v); return false; }
      FreeHere(m, f);
      KernelLow(mmu, f);
      ClearPage(mmu, f);
      ghost var m2 := mmu.S();
      TakenKept(m, m1, m2, f);
      SameMapsTrans(m, m1, m2);
      SameShapesTrans(m, m1, m2);
      MapsRoots(m, m2);
      CanMapOne(m, m2, p, v);
      ProtBits(ProtOf(s.flags), true);
      var r := MapUser(mmu, p, pageDir, v * PGSIZE, f, Perm(s));
      if r != Mapped { return false; }
      EntryOfPage(f, Perm(s));
      MkPteFields(f * PGSIZE, Perm(s));
      ExtendedByOne(m, m2, mmu.S(), p, v, f, MkPte(f * PGSIZE, Perm(s)));
      AfterOne(m2, mmu.S(), p, v, MkPte(f * PGSIZE, Perm(s)), v);
      ok := true;
    }

    /** elf_alloc_mb: the pages of the segment, all zero; false is a panic, because a page
        is mapped already or out of range or memory runs out. */
    method AllocMb(s: Segment) returns (ok: bool, npages: nat)
      requires Valid() && !Malformed(s)
      modifies mmu
      ensures ok <==> CanExtend(old(mmu.S()), p, PagesOf(s))
      ensures mmu.roots == old(mmu.roots)
      ensures ok ==> Valid() && Extended(old(mmu.S()), mmu.S(), p, PagesOf(s)) && npages == EndPage(s) - FirstPage(s)
      ensures ok ==> HoldZeros(mmu.S(), p, Perm(s), FirstPage(s), EndPage(s) - FirstPage(s))
    {
      hide Ok, Kept, At, ShapeOf, CanExtend, Extended, HoldZeros, Zeros, ProtToType, ProtOf, PageRange;
      npages := EndPage(s) - FirstPage(s);
      ghost var m0 := mmu.S();
      var v0 := FirstPage(s);
      ZeroNotUsed(mmu);
      NoPagesYet(mmu, p, v0, Perm(s));
      var i := 0;
      while i < npages
        invariant 0 <= i <= npages && Valid() && mmu.roots == m0.roots
        invariant Extended(m0, mmu.S(), p, PageRange(v0, i)) && HoldZeros(mmu.S(), p, Perm(s), v0, i)
      {
        ghost var m1 := mmu.S();
        ZeroNotUsed(mmu);
        PageInWords(s, v0 + i);
        PageRangeNext(v0, i);
        CanExtendJoin(m0, m1, p, PageRange(v0, i), [v0 + i]);
        ok := AllocOne(s, v0 + i);
        if !ok {
          AllOrNone(m0, p, v0, i + 1, npages);
          return;
        }
        ExtendedJoin(m0, m1, mmu.S(), p, PageRange(v0, i), [v0 + i]);
        HoldZerosNext(m1, mmu.S(), p, Perm(s), v0, i, Ppn(At(mmu.S(), p, v0 + i)));
        i := i + 1;
      }
      ExtendedCould(m0, mmu.S(), p, PageRange(v0, npages));
      ok := true;
    }

    // One turn of the copy loop: the next `n` bytes.
    method CopyChunk(file: Bytes, s: Segment, loaded: nat, ghost m0: M) returns (ok: bool, n: nat)
      requires Valid() && loaded < s.filesz <= s.memsz && Extended(m0, mmu.S(), p, PagesOf(s))
      requires Partly(mmu.S(), p, file, s, loaded)
      modifies mmu
      ensures n == Chunk(s, loaded)
      ensures ok <==> !ExecOnly(s.flags) && s.off + loaded + n <= |file|
      ensures mmu.roots == old(mmu.roots)
      ensures Valid() && Extended(m0, mmu.S(), p, PagesOf(s))
      ensures ok ==> Partly(mmu.S(), p, file, s, loaded + n)
    {
      hide PagesOk, MapsOk, Ranged, Kept, SameMaps, SameShapes, At, ShapeOf, Extended, Partly, PageAt, PageBytes,
        BytesPage, PagesOf, ExecOnly, Filled, PhysicalPage, PageHolds, Ppn, Malformed;
      ghost var m := mmu.S();
      ZeroNotUsed(mmu);
      n := Chunk(s, loaded);
      PageThere(m, p, file, s, loaded);
      var v: nat, at: nat := (s.vaddr + loaded) / PGSIZE, (s.vaddr + loaded) % PGSIZE;
      var pa := mmu.LookupPa(p, pageDir, v * PGSIZE);
      if pa == 0 { return false, n; }
      var got := Pread(file, n, s.off + loaded);
      if |got| != n { return false, n; }
      var f: Frame := pa / PGSIZE;
      var bytes := Filled(PageBytes(mmu.mem[f]), at, got);
      BytesBack(bytes);
      FillPage(mmu, f, BytesPage(bytes));
      MapsRoots(m, mmu.S());
      PagesOfMeans(s, v);
      ExtendedFilled(m0, m, mmu.S(), p, PagesOf(s), v);
      PartlyNext(m, mmu.S(), p, file, s, loaded, n, f);
      ok := true;
    }

    // The copy loop of elf_load.
    method CopyIn(file: Bytes, s: Segment, ghost m0: M) returns (ok: bool)
      requires Valid() && s.filesz <= s.memsz && Extended(m0, mmu.S(), p, PagesOf(s)) && Partly(mmu.S(), p, file, s, 0)
      modifies mmu
      ensures ok <==> !ReadFails(file, s)
      ensures mmu.roots == old(mmu.roots)
      ensures Valid() && Extended(m0, mmu.S(), p, PagesOf(s))
      ensures ok ==> Partly(mmu.S(), p, file, s, s.filesz)
    {
      hide Ok, Extended, Partly, PagesOf, ExecOnly, Chunk;
      var loaded := 0;
      while loaded < s.filesz
        invariant 0 <= loaded <= s.filesz && Valid() && mmu.roots == old(mmu.roots)
        invariant Extended(m0, mmu.S(), p, PagesOf(s)) && Partly(mmu.S(), p, file, s, loaded)
        invariant loaded > 0 ==> !ExecOnly(s.flags) && s.off + loaded <= |file|
        decreases s.filesz - loaded
      {
        var n;
        ok, n := CopyChunk(file, s, loaded, m0);
        if !ok { return; }
        loaded := loaded + n;
      }
      ok := true;
    }

    /** One PT_LOAD header of elf_load. */
    method LoadSegment(file: Bytes, s: Segment) returns (st: Status)
      requires Valid()
      modifies this, mmu
      ensures st == StatusOf(old(mmu.S()), p, file, s, old(info))
      ensures mmu.roots == old(mmu.roots)
      ensures st == OK ==>
        Valid() && Extended(old(mmu.S()), mmu.S(), p, PagesOf(s)) && Partly(mmu.S(), p, file, s, s.filesz)
      ensures st == OK ==> info == old(info)[FirstFree(old(info)) := RegionOf(s)] && total == old(total) + 1
    {
      hide Ok, At, ShapeOf, Extended, CanExtend, Partly, HoldZeros, PagesOf, ReadFails, ProtOf, ProtToType;
      if s.memsz < s.filesz { return ERR; }
      if (s.vaddr + s.memsz) % WORDS < s.vaddr { return ERR; }
      ghost var m0 := mmu.S();
      var ok, npages := AllocMb(s);
      if !ok { return Panicked; }
      PagesLow(m0, mmu.S(), p, s);
      ZerosArePartly(mmu.S(), p, file, s);
      ok := CopyIn(file, s, m0);
      if !ok { return EIO; }
      var j := 0;
      while j < |info| && info[j].va != 0
        invariant 0 <= j <= |info| && forall k {:trigger info[k]} :: 0 <= k < j ==> info[k].va != 0
      {
        j := j + 1;
      }
      if j < |info| { FirstFreeIs(info, j); }
      if j == SLOTS { return NoSlot; }
      if s.flags == 5 {
        info := info[j := Region(s.vaddr, npages, CODE)];
      } else if s.flags == 6 {
        info := info[j := Region(s.vaddr, npages, DATA)];
      } else {
        return Panicked;
      }
      total := total + 1;
      st := OK;
    }

    /** elf_load: when it succeeds every loadable segment is in memory, whole, in pages of
        its own.  It succeeds exactly if the headers are there, each segment is in order,
        no two have a page in common or one that is mapped, and memory lasts. */
    method Load(file: Bytes, phoff: nat, phnum: nat) returns (st: Status)
      requires Valid()
      modifies this, mmu
      ensures st == OK <==>
        HeadersThere(file, phoff, phnum) && Ready(old(mmu.S()), p, file, old(info), Loads(file, phoff, phnum))
      ensures st != OK ==>
        exists i: nat {:trigger HeadersThere(file, phoff, i)} ::
          i < phnum && StopsAt(old(mmu.S()), p, file, old(info), phoff, i, st)
      ensures st == OK ==> Valid() && AllLoaded(old(mmu.S()), mmu.S(), p, file, Loads(file, phoff, phnum))
      ensures st == OK ==>
        info == RecordAll(old(info), Loads(file, phoff, phnum)) && total == old(total) + |Loads(file, phoff, phnum)|
    {
      hide Ok, AllLoaded, Ready, Extended, Partly, Le, PagesOf, StatusOf, RecordAll, Header, Loads, FailsAs;
      ghost var m0, info0 := mmu.S(), info;
      ZeroNotUsed(mmu);
      var i, off := 0, phoff;
      NoneLoaded(mmu, p, file, info, phoff);
      while i < phnum
        invariant 0 <= i <= phnum && off == phoff + PHDR_SIZE * i && HeadersThere(file, phoff, i) && Valid()
        invariant AllLoaded(m0, mmu.S(), p, file, Loads(file, phoff, i))
        invariant Ready(m0, p, file, info0, Loads(file, phoff, i))
        invariant info == RecordAll(info0, Loads(file, phoff, i)) && total == old(total) + |Loads(file, phoff, i)|
      {
        var got := Pread(file, PHDR_SIZE, off);
        if |got| != PHDR_SIZE { return EIO; }
        var s := Header(got);
        assert s == HeaderAt(file, phoff, i);
        ghost var before := Loads(file, phoff, i);
        LoadsNext(file, phoff, i);
        if s.kind == PROG_LOAD {
          ghost var m1, info1 := mmu.S(), info;
          ZeroNotUsed(mmu);
          NowReady(m0, m1, p, file, info0, before, s);
          FailsSo(m0, m1, p, file, info0, before, s);
          st := LoadSegment(file, s);
          if st != OK {
            if HeadersThere(file, phoff, phnum) { NeverReady(m0, p, file, info0, phoff, i + 1, phnum); }
            return;
          }
          OneMoreLoaded(m0, m1, mmu.S(), p, file, before, s);
          RecordNext(info0, before, s);
          SlotFound(m1, p, file, s, info1);
        }
        i, off := i + 1, off + PHDR_SIZE;
      }
      st := OK;
    }
  }

  // ---------------------------------------------------------------------
  // All segments
  // ---------------------------------------------------------------------

  predicate HeadersThere(file: Bytes, phoff: nat, n: nat) { n == 0 || phoff + PHDR_SIZE * n <= |file| }

  function HeaderAt(file: Bytes, phoff: nat, i: nat): Segment
    requires phoff + PHDR_SIZE * (i + 1) <= |file|
  {
    Header(file[phoff + PHDR_SIZE * i..phoff + PHDR_SIZE * i + PHDR_SIZE])
  }

  // The loadable segments among the first n program headers.
  function Loads(file: Bytes, phoff: nat, n: nat): seq<Segment>
    requires HeadersThere(file, phoff, n)
  {
    if n == 0 then []
    else
      var s := HeaderAt(file, phoff, n - 1);
      if s.kind == PROG_LOAD then Loads(file, phoff, n - 1) + [s] else Loads(file, phoff, n - 1)
  }

  lemma LoadsNext(file: Bytes, phoff: nat, i: nat)
    requires HeadersThere(file, phoff, i + 1)
    ensures var s := HeaderAt(file, phoff, i);
            Loads(file, phoff, i + 1) ==
            if s.kind == PROG_LOAD then Loads(file, phoff, i) + [s] else Loads(file, phoff, i)
  {
    hide HeaderAt;
  }

  lemma {:induction false} LoadsMore(file: Bytes, phoff: nat, i: nat, n: nat)
    requires HeadersThere(file, phoff, n) && i <= n
    ensures Loads(file, phoff, i) <= Loads(file, phoff, n)
    decreases n - i
  {
    hide HeaderAt;
    if i < n { LoadsMore(file, phoff, i, n - 1); }
  }

  function AllPages(segs: seq<Segment>): seq<nat> {
    if segs == [] then [] else AllPages(segs[..|segs| - 1]) + PagesOf(segs[|segs| - 1])
  }

  lemma AllPagesNext(segs: seq<Segment>, s: Segment)
    ensures AllPages(segs + [s]) == AllPages(segs) + PagesOf(s)
  {
    assert (segs + [s])[..|segs|] == segs;
  }

  lemma {:induction false} AllPagesMore(segs: seq<Segment>, more: seq<Segment>)
    requires segs <= more
    ensures AllPages(segs) <= AllPages(more)
    decreases |more|
  {
    hide PagesOf;
    if |segs| < |more| {
      AllPagesMore(segs, more[..|more| - 1]);
    } else {
      assert segs == more;
    }
  }

  // A segment that can be loaded, memory aside, after those before it.
  predicate SegmentOk(file: Bytes, info: seq<Region>, segs: seq<Segment>, k: nat)
    requires k < |segs|
  {
    && !Malformed(segs[k]) && !ReadFails(file, segs[k]) && (segs[k].flags == 5 || segs[k].flags == 6)
    && FirstFree(RecordAll(info, segs[..k])) < |info|
  }

  ghost predicate Ready(m: M, p: nat, file: Bytes, info: seq<Region>, segs: seq<Segment>)
    requires p in m.roots
  {
    && CanExtend(m, p, AllPages(segs))
    && forall k: nat {:trigger SegmentOk(file, info, segs, k)} :: k < |segs| ==> SegmentOk(file, info, segs, k)
  }

  // All is well up to header i, and there the load stops.
  ghost predicate StopsAt(m: M, p: nat, file: Bytes, info: seq<Region>, phoff: nat, i: nat, st: Status)
    requires p in m.roots
  {
    && HeadersThere(file, phoff, i) && Ready(m, p, file, info, Loads(file, phoff, i))
    && if !HeadersThere(file, phoff, i + 1) then st == EIO
       else
         && HeaderAt(file, phoff, i).kind == PROG_LOAD
         && FailsAs(m, p, file, info, Loads(file, phoff, i), HeaderAt(file, phoff, i), st)
  }

  // A segment after those in segs cannot be loaded, and this is why: it is malformed, its pages
  // cannot be had, the file is too short for it or cannot be read in, every slot is taken, or its
  // flags are neither read-execute nor read-write.
  ghost predicate FailsAs(m: M, p: nat, file: Bytes, info: seq<Region>, segs: seq<Segment>, s: Segment, st: Status)
    requires p in m.roots
  {
    if s.filesz > s.memsz || s.vaddr + s.memsz >= 0x1_0000_0000_0000_0000 then st == ERR
    else if !CanExtend(m, p, AllPages(segs + [s])) then st == Panicked
    else if s.filesz > 0 && (ExecOnly(s.flags) || s.off + s.filesz > |file|) then st == EIO
    else if forall r :: r in RecordAll(info, segs) ==> r.va != 0 then st == NoSlot
    else st == Panicked && s.flags !in {5, 6}
  }

  // Each segment is in place, in pages of its own, and nothing else changed.
  ghost predicate AllLoaded(m0: M, m: M, p: nat, file: Bytes, segs: seq<Segment>) {
    && Extended(m0, m, p, AllPages(segs))
    && forall k {:trigger segs[k]} :: 0 <= k < |segs| ==> Partly(m, p, file, segs[k], segs[k].filesz)
  }

  lemma NoneLoaded(mmu: Mmu, p: nat, file: Bytes, info: seq<Region>, phoff: nat)
    requires Ok(mmu) && p in mmu.roots
    ensures AllLoaded(mmu.S(), mmu.S(), p, file, Loads(file, phoff, 0))
    ensures Ready(mmu.S(), p, file, info, Loads(file, phoff, 0))
    ensures RecordAll(info, Loads(file, phoff, 0)) == info && Loads(file, phoff, 0) == []
  {
    hide PagesOk, Extended, MapsOk, Ranged, CanExtend;
    ExtendedNone(mmu.S(), p);
    ExtendedCould(mmu.S(), mmu.S(), p, []);
  }

  // After the segments so far, the next one can be loaded exactly if all can together.
  lemma NowReady(m0: M, m: M, p: nat, file: Bytes, info: seq<Region>, segs: seq<Segment>, s: Segment)
    requires p in m0.roots && AllLoaded(m0, m, p, file, segs) && Ready(m0, p, file, info, segs)
    ensures p in m.roots
    ensures Ready(m0, p, file, info, segs + [s]) <==> StatusOf(m, p, file, s, RecordAll(info, segs)) == OK
  {
    hide Extended, CanExtend, Partly, PagesOf, ReadFails, RecordAll, AllPages;
    CanExtendJoin(m0, m, p, AllPages(segs), PagesOf(s));
    AllPagesNext(segs, s);
    var all, n := segs + [s], |segs|;
    assert all[..n] == segs;
    forall k: nat | k < n ensures SegmentOk(file, info, all, k) {
      assert SegmentOk(file, info, segs, k);
      assert all[..k] == segs[..k] && all[k] == segs[k];
    }
    assert SegmentOk(file, info, all, n) <==>
           !Malformed(s) && !ReadFails(file, s) && (s.flags == 5 || s.flags == 6) &&
           FirstFree(RecordAll(info, segs)) < |info|;
  }

  lemma FailsSo(m0: M, m: M, p: nat, file: Bytes, info: seq<Region>, segs: seq<Segment>, s: Segment)
    requires p in m0.roots && AllLoaded(m0, m, p, file, segs) && Ready(m0, p, file, info, segs) && p in m.roots
    ensures var st := StatusOf(m, p, file, s, RecordAll(info, segs));
            st != OK ==> FailsAs(m0, p, file, info, segs, s, st)
  {
    hide Extended, CanExtend, Partly, PagesOf, RecordAll, AllPages;
    CanExtendJoin(m0, m, p, AllPages(segs), PagesOf(s));
    AllPagesNext(segs, s);
    var r := RecordAll(info, segs);
    if FirstFree(r) < |r| { assert r[FirstFree(r)] in r; }
  }

  lemma NeverReady(m: M, p: nat, file: Bytes, info: seq<Region>, phoff: nat, i: nat, n: nat)
    requires p in m.roots && i <= n && HeadersThere(file, phoff, n) && HeadersThere(file, phoff, i)
    requires !Ready(m, p, file, info, Loads(file, phoff, i))
    ensures !Ready(m, p, file, info, Loads(file, phoff, n))
  {
    hide CanExtend, Loads, AllPages, RecordAll, ReadFails;
    var some, all := Loads(file, phoff, i), Loads(file, phoff, n);
    LoadsMore(file, phoff, i, n);
    AllPagesMore(some, all);
    if CanExtend(m, p, AllPages(all)) { CanExtendLess(m, p, AllPages(some), AllPages(all)); }
    forall k: nat | k < |some| ensures SegmentOk(file, info, some, k) <==> SegmentOk(file, info, all, k) {
      assert some[..k] == all[..k] && some[k] == all[k];
    }
  }

  lemma OneMoreLoaded(m0: M, m1: M, m2: M, p: nat, file: Bytes, segs: seq<Segment>, s: Segment)
    requires AllLoaded(m0, m1, p, file, segs) && Extended(m1, m2, p, PagesOf(s)) && p in m2.roots
    requires Partly(m2, p, file, s, s.filesz)
    requires 0 !in m0.use && 0 !in m1.use
    ensures AllLoaded(m0, m2, p, file, segs + [s])
  {
    hide Extended, Partly, PagesOf, AllPages;
    ExtendedJoin(m0, m1, m2, p, AllPages(segs), PagesOf(s));
    ExtendedRoots(m0, m1, p, AllPages(segs));
    AllPagesNext(segs, s);
    forall k | 0 <= k < |segs + [s]| ensures Partly(m2, p, file, (segs + [s])[k], (segs + [s])[k].filesz) {
      if k < |segs| {
        assert (segs + [s])[k] == segs[k];
        PartlyStays(m1, m2, p, file, segs[k], PagesOf(s));
      }
    }
  }

  lemma PartlyStays(m1: M, m2: M, p: nat, file: Bytes, s: Segment, vs: seq<nat>)
    requires p in m1.roots && p in m2.roots && Partly(m1, p, file, s, s.filesz) && Extended(m1, m2, p, vs)
    requires 0 !in m1.use
    ensures Partly(m2, p, file, s, s.filesz)
  {
    hide At, ShapeOf, TablesFor, ExtendAll, Distinct, NewPage, PageHolds, PageAt, ProtOf, ProtToType, Kept;
    forall v: nat | InSegment(s, v) ensures PageHolds(m2, p, v, Perm(s), PageAt(file, s, s.filesz, v)) {
      HoldsPrivate(m1, p, v, Perm(s), PageAt(file, s, s.filesz, v));
      if v in vs { NewPageMeans(m1, m2, p, v); }
      assert At(m2, p, v) == At(m1, p, v);
      PageStays(m1, m2, p, v, Perm(s), PageAt(file, s, s.filesz, v));
    }
  }

  lemma SlotFound(m: M, p: nat, file: Bytes, s: Segment, info: seq<Region>)
    requires p in m.roots && StatusOf(m, p, file, s, info) == OK
    ensures FirstFree(info) < |info|
  {
    hide CanExtend, ReadFails;
  }

  /** A file can be loaded exactly if each of its segments has no more bytes in the file than in
      memory, ends below 2^64, lies in the file, and is read-execute or read-write; if there are
      slots; and if the pages can be had. */
  lemma ReadyExactlyWhen(m: M, p: nat, file: Bytes, info: seq<Region>, segs: seq<Segment>, t: nat)
    requires p in m.roots && UsedUpTo(info, t)
    requires forall k {:trigger segs[k]} :: 0 <= k < |segs| ==> segs[k].vaddr != 0
    ensures Ready(m, p, file, info, segs) <==>
      && t + |segs| <= |info| && CanExtend(m, p, AllPages(segs))
      && forall k {:trigger segs[k]} :: 0 <= k < |segs| ==>
           && segs[k].filesz <= segs[k].memsz && segs[k].vaddr + segs[k].memsz < 0x1_0000_0000_0000_0000
           && (segs[k].filesz == 0 || segs[k].off + segs[k].filesz <= |file|) && segs[k].flags in {5, 6}
  {
    hide CanExtend, AllPages, RecordAll;
    if t + |segs| <= |info| {
      forall k: nat | k < |segs| ensures FirstFree(RecordAll(info, segs[..k])) < |info| {
        SlotsLeft(info, segs[..k], t);
      }
    } else {
      var k := |info| - t;
      TableFull(info, segs[..k], t);
      assert !SegmentOk(file, info, segs, k);
    }
    forall k: nat | k < |segs|
      ensures SegmentOk(file, info, segs, k) ==>
        && segs[k].filesz <= segs[k].memsz && segs[k].vaddr + segs[k].memsz < 0x1_0000_0000_0000_0000
        && (segs[k].filesz == 0 || segs[k].off + segs[k].filesz <= |file|) && segs[k].flags in {5, 6}
    {
    }
  }

  lemma SlotsLeft(info: seq<Region>, segs: seq<Segment>, t: nat)
    requires UsedUpTo(info, t) && t + |segs| < |info|
    ensures FirstFree(RecordAll(info, segs)) < |info|
  {
    RecordedUpTo(info, segs, t);
    FirstFreeIs(RecordAll(info, segs), t + Placed(segs));
  }

  lemma TableFull(info: seq<Region>, segs: seq<Segment>, t: nat)
    requires UsedUpTo(info, t) && t + |segs| == |info|
    requires forall k {:trigger segs[k]} :: 0 <= k < |segs| ==> segs[k].vaddr != 0
    ensures FirstFree(RecordAll(info, segs)) == |info|
  {
    hide RecordAll;
    RecordedUpTo(info, segs, t);
    PlacedAll(segs);
  }

  // A byte of user memory, as the kernel finds it and as the hardware loads it.
  ghost predicate ReadsAs(m: M, p: nat, va: int, b: byte) {
    && p in m.roots && 0 <= va < MAXVA && UserByte(m, p, va) == b
    && var t := HwTranslate(m.mem, m.roots[p], va, Load);
       t.Translated? && t.pa >= 0 && t.pa / PGSIZE in m.mem && PageBytes(m.mem[t.pa / PGSIZE])[t.pa % PGSIZE] == b
  }

  /** Every byte of a loaded segment reads through the page table, by the kernel's walk and
      by the hardware's, as the file byte below filesz and as zero from there to memsz.  A
      segment that is to be executed can be fetched from and not stored to, any other can be
      stored to and not fetched from. */
  lemma SegmentReads(m0: M, m: M, p: nat, file: Bytes, segs: seq<Segment>, k: nat, x: nat)
    requires AllLoaded(m0, m, p, file, segs) && k < |segs| && PagesOk(m)
    requires x < segs[k].memsz && (segs[k].flags == 5 || segs[k].flags == 6)
    ensures x < segs[k].filesz ==> segs[k].off + x < |file|
    ensures ReadsAs(m, p, segs[k].vaddr + x, if x < segs[k].filesz then file[segs[k].off + x] else 0)
    ensures var v: nat := (segs[k].vaddr + x) / PGSIZE;
            var f := Ppn(At(m, p, v));
            if segs[k].flags == 5 then CodePage(m, p, v, f) else DataPage(m, p, v, f)
  {
    hide CodePage, DataPage, ForCode, ForData, PagesOk, Extended, At, PageBytes, HwTranslate, R, V, Allows, ProtToType,
      PageAt, PageHolds, Ppn, ReadsAs;
    var s := segs[k];
    var va := s.vaddr + x;
    var v: nat := va / PGSIZE;
    assert p in m.roots by { ExtendedRoots(m0, m, p, AllPages(segs)); }
    assert Partly(m, p, file, s, s.filesz);
    InsideSegment(s, x);
    assert PageHolds(m, p, v, Perm(s), PageAt(file, s, s.filesz, v));
    AddressIn(va, v);
    HoldsPrivate(m, p, v, Perm(s), PageAt(file, s, s.filesz, v));
    LoadableFlags(s, At(m, p, v));
    EntryUse(m, p, v);
    PageReads(m, p, va, Perm(s), PageAt(file, s, s.filesz, v));
    assert PageAt(file, s, s.filesz, v)[va % PGSIZE] == ByteAt(file, s, s.filesz, v * PGSIZE + va % PGSIZE);
  }

  lemma AddressIn(va: nat, v: nat)
    requires v == va / PGSIZE && v < MAXVPN
    ensures va < MAXVA && v * PGSIZE + va % PGSIZE == va
  {
  }

  lemma PageReads(m: M, p: nat, va: Word, perm: Word, bytes: Bytes)
    requires PagesOk(m) && p in m.roots && va < MAXVA && |bytes| == PGSIZE && PageHolds(m, p, va / PGSIZE, perm, bytes)
    requires R(At(m, p, va / PGSIZE)) && Allows(At(m, p, va / PGSIZE), Load)
    ensures ReadsAs(m, p, va, bytes[va % PGSIZE])
  {
    hide PagesOk, At, PageBytes, HwTranslate, R, W, Allows;
    var e := At(m, p, va / PGSIZE);
    NoZero(m);
    PageOf(e);
    HardwareAgrees(m, p, va, Load);
  }

  lemma ExtendedRoots(m0: M, m: M, p: nat, vs: seq<nat>)
    requires Extended(m0, m, p, vs)
    ensures p in m.roots
  {
  }

  lemma LoadableFlags(s: Segment, e: Word)
    requires Flags(e) == Perm(s) + 1 && (s.flags == 5 || s.flags == 6)
    ensures R(e) && Allows(e, Load) && if s.flags == 5 then ForCode(e) else ForData(e)
  {
    hide ProtToType, R, W, V, X, U, A, D;
    ProtBits(ProtOf(s.flags), true);
    SetV(Perm(s));
    SameFlags(e, Perm(s) + 1);
  }

  // How many bytes the next turn of the copy loop reads.
  function Chunk(s: Segment, loaded: nat): (n: nat)
    requires loaded < s.filesz
    ensures 0 < n <= s.filesz - loaded && (s.vaddr + loaded) % PGSIZE + n <= PGSIZE
  {
    var room := PGSIZE - (s.vaddr + loaded) % PGSIZE;
    if s.filesz - loaded < room then s.filesz - loaded else room
  }

  // What becomes of a loadable segment.
  ghost function StatusOf(m: M, p: nat, file: Bytes, s: Segment, info: seq<Region>): Status
    requires p in m.roots
  {
    if Malformed(s) then ERR
    else if !CanExtend(m, p, PagesOf(s)) then Panicked
    else if ReadFails(file, s) then EIO
    else if FirstFree(info) == |info| then NoSlot
    else if s.flags != 5 && s.flags != 6 then Panicked
    else OK
  }

  lemma NothingFits(m: M, p: nat, v: nat)
    requires p in m.roots && m.free == []
    ensures !CanExtend(m, p, [v])
  {
  }

  lemma NoPagesYet(mmu: Mmu, p: nat, v0: nat, perm: Word)
    requires Ok(mmu) && p in mmu.roots
    ensures Extended(mmu.S(), mmu.S(), p, PageRange(v0, 0)) && HoldZeros(mmu.S(), p, perm, v0, 0)
  {
    hide PagesOk, Extended, MapsOk, Ranged;
    ExtendedNone(mmu.S(), p);
    assert PageRange(v0, 0) == [];
  }

  lemma PageInWords(s: Segment, v: nat)
    requires !Malformed(s) && InSegment(s, v)
    ensures v * PGSIZE < WORDS
  {
  }

  lemma AllOrNone(m: M, p: nat, v0: nat, i: nat, n: nat)
    requires p in m.roots && i <= n && !CanExtend(m, p, PageRange(v0, i))
    ensures !CanExtend(m, p, PageRange(v0, n))
  {
    hide CanExtend;
    assert PageRange(v0, i) <= PageRange(v0, n);
    if CanExtend(m, p, PageRange(v0, n)) { CanExtendLess(m, p, PageRange(v0, i), PageRange(v0, n)); }
  }

  lemma ExtendedCould(m0: M, m: M, p: nat, vs: seq<nat>)
    requires Extended(m0, m, p, vs)
    ensures p in m0.roots && CanExtend(m0, p, vs)
  {
    hide At, ShapeOf, TablesFor, ExtendAll, Distinct, Kept;
    forall v | v in vs ensures v < MAXVPN && At(m0, p, v) == 0 { assert NewPage(m0, m, p, v); }
  }

  lemma PagesLow(m0: M, m: M, p: nat, s: Segment)
    requires Extended(m0, m, p, PagesOf(s))
    ensures EndPage(s) > FirstPage(s) ==> EndPage(s) <= MAXVPN
  {
    hide At, ShapeOf, TablesFor, ExtendAll, Distinct, Kept;
    if EndPage(s) > FirstPage(s) {
      var v := EndPage(s) - 1;
      PagesOfMeans(s, v);
      assert NewPage(m0, m, p, v);
    }
  }

  // The page that the copy loop reads into is there, and lookup_pa finds it unless it can
  // only be executed.
  lemma PageThere(m: M, p: nat, file: Bytes, s: Segment, loaded: nat)
    requires p in m.roots && Partly(m, p, file, s, loaded) && loaded < s.filesz <= s.memsz && 0 !in m.use
    ensures var v := (s.vaddr + loaded) / PGSIZE;
            && InSegment(s, v) && v * PGSIZE < MAXVA && PageHolds(m, p, v, Perm(s), PageAt(file, s, loaded, v))
            && (PhysicalPage(m, p, v * PGSIZE) == 0 <==> ExecOnly(s.flags))
            && PhysicalPage(m, p, v * PGSIZE) >= 0
            && (!ExecOnly(s.flags) ==>
                  var f := PhysicalPage(m, p, v * PGSIZE) / PGSIZE;
                  f == Ppn(At(m, p, v)) && f in m.mem && PageBytes(m.mem[f]) == PageAt(file, s, loaded, v) &&
                  f in m.use && m.use[f] == Private(p, v))
  {
    hide At, PageAt, PageBytes, ProtToType, R, W, ProtRead, ProtWrite, ProtExec;
    InsideSegment(s, loaded);
    var v := (s.vaddr + loaded) / PGSIZE;
    assert PageHolds(m, p, v, Perm(s), PageAt(file, s, loaded, v));
    var e := At(m, p, v);
    assert v * PGSIZE / PGSIZE == v;
    PermReads(s, e);
    PageOf(e);
  }

  lemma PermReads(s: Segment, e: Word)
    requires Flags(e) == Perm(s) + 1
    ensures R(e) || W(e) <==> !ExecOnly(s.flags)
  {
    hide ProtToType, R, W, V, X, U, A, D;
    ProtBits(ProtOf(s.flags), true);
    SetV(Perm(s));
    SameFlags(e, Perm(s) + 1);
    ProtCases(s.flags);
  }

  lemma ProtCases(flags: Word)
    ensures var prot := ProtOf(flags);
            (ProtRead(prot) || (!ProtWrite(prot) && !ProtExec(prot)) || ProtWrite(prot)) <==> !ExecOnly(flags)
  {
    var a, b, c := flags / 4 % 2, flags / 2 % 2, flags % 2;
    assert ProtOf(flags) == a + 2 * b + 4 * c;
    assert ProtOf(flags) % 2 == a && ProtOf(flags) / 2 % 2 == b && ProtOf(flags) / 4 % 2 == c;
  }
}
