/**
 The page allocator and the page table code over raw memory: alloc_page, free_page,
 page_walk, map_pages, unmapping and lookup.
 */
module Paging {
  import opened Base
  import opened Sv39
  import opened PageTables

  // A pointer to a page table entry; the address check of page_walk panics.
  datatype PtePtr = Null | Slot(frame: Frame, index: nat) | OutOfRange

  datatype Mapping = Mapped | NoMemory | Remap | BadAddress

  // From m to m' free pages may have become tables; no other page was touched, but for
  // the words of tables.
  ghost predicate TookTables(m: M, m': M) {
    && m'.roots == m.roots && m'.shared == m.shared && m'.use.Keys == m.use.Keys
    && forall f {:trigger m'.use[f]} :: f in m.use ==>
         && (m'.use[f] == m.use[f] || (m.use[f].FreeAt? && m'.use[f].Table?))
         && f in m.mem && f in m'.mem
         && (!m.use[f].Table? && !m'.use[f].Table? ==> m'.mem[f] == m.mem[f])
  }

  lemma TookNone(m: M)
    requires PagesOk(m)
    ensures TookTables(m, m)
  {
    hide FreeOk, TablesOk;
  }

  lemma TookTrans(m: M, m1: M, m2: M)
    requires TookTables(m, m1) && TookTables(m1, m2)
    ensures TookTables(m, m2)
  {
    forall f | f in m.use
      ensures m2.use[f] == m.use[f] || (m.use[f].FreeAt? && m2.use[f].Table?)
      ensures f in m.mem && f in m2.mem
      ensures !m.use[f].Table? && !m2.use[f].Table? ==> m2.mem[f] == m.mem[f]
    {
      assert f in m1.use && f in m2.use;
      assert m1.use[f] == m1.use[f] && m2.use[f] == m2.use[f];
    }
  }

  lemma SameMapsTrans(m: M, m1: M, m2: M)
    requires SameMaps(m, m1) && SameMaps(m1, m2)
    ensures SameMaps(m, m2)
  {
  }

  lemma LinkTook(m: M, f: Frame, k: nat, g: Frame)
    requires PagesOk(m) && m.free != [] && g == m.free[|m.free| - 1]
    requires CanLink(Popped(m), f, k, g)
    ensures TookTables(m, Linked(Popped(m), f, k, g))
  {
    PoppedHead(m);
    hide FreeOk, TablesOk;
  }

  class Mmu {
    var mem: map<Frame, Page>
    var head: int
    const start: int            // free_mem_start_addr
    const end: int              // free_mem_end_addr

    ghost var free: seq<Frame>
    ghost var use: map<Frame, Use>
    ghost var roots: map<nat, Frame>
    ghost var shared: set<Frame>

    ghost function S(): M
      reads this
    {
      M(mem, head, free, use, roots, shared)
    }

    ghost predicate Valid()
      reads this
    {
      PagesOk(S())
    }

    // Memory before pmm_init: the pages from start to end are the kernel's to hand out;
    // the page of the trap vector lies below them.
    constructor (mem: map<Frame, Page>, start: int, end: int, vector: Frame)
      requires 0 < start && end <= PPN_LIMIT * PGSIZE
      requires forall f: Frame {:trigger f in mem} :: start <= f * PGSIZE < end ==> f in mem
      requires vector in mem && 0 < vector && vector * PGSIZE < start && vector < PPN_LIMIT
      ensures Valid() && free == [] && roots == map[] && shared == {vector} && this.start == start && this.end == end
      ensures this.mem == mem
      ensures use == (map f: Frame | f in mem && start <= f * PGSIZE < end :: Kernel)[vector := Shared]
    {
      this.mem, this.start, this.end, head := mem, start, end, 0;
      free, roots, shared := [], map[], {vector};
      use := (map f: Frame | f in mem && start <= f * PGSIZE < end :: Kernel)[vector := Shared];
    }

    /** alloc_page: the head of the list, or 0. */
    method AllocPage() returns (pa: int)
      requires Valid()
      modifies this`head, this`free, this`use
      ensures Valid() && SameMaps(old(S()), S())
      ensures old(free) == [] ==> pa == 0 && S() == old(S())
      ensures old(free) != [] ==> pa == old(free)[|old(free)| - 1] * PGSIZE && S() == Popped(old(S()))
    {
      hide PagesOk, TablesOk;
      ghost var m := S();
      pa := head;
      HeadNull(m);
      if pa != 0 {
        PoppedOk(m);
        head := mem[pa / PGSIZE][0];
        use := use[free[|free| - 1] := Kernel];
        free := free[..|free| - 1];
        assert S() == Popped(m);
      }
    }

    /** free_page; false is the panic on a bad address. */
    method FreePage(pa: int) returns (ok: bool)
      requires Valid()
      requires InRange(pa, start, end) ==>
        pa >= 0 && pa / PGSIZE in use && !use[pa / PGSIZE].FreeAt? && !use[pa / PGSIZE].Table?
      modifies this`mem, this`head, this`free, this`use
      ensures ok <==> InRange(pa, start, end)
      ensures Valid() && SameMaps(old(S()), S())
      ensures ok ==>
        pa / PGSIZE in old(mem) && 0 <= old(head) < 0x1_0000_0000_0000_0000 && S() == Pushed(old(S()), pa / PGSIZE)
      ensures !ok ==> S() == old(S())
    {
      hide PagesOk, TablesOk;
      if pa % PGSIZE != 0 || pa < start || pa >= end { SameMapsSelf(S()); return false; }
      ghost var m := S();
      var f := pa / PGSIZE;
      PushedOk(m, f);
      mem := mem[f := mem[f][0 := head]];
      head := pa;
      use := use[f := FreeAt(|free|)];
      free := free + [f];
      assert S() == Pushed(m, f);
      ok := true;
    }

    // One level of page_walk: entry k of table pt, with a new table if asked for.
    method WalkStep(ghost p: nat, pt: Frame, k: nat, alloc: bool) returns (ok: bool, next: Frame)
      requires Valid() && pt in use && use[pt].Table? && use[pt].p == p && !use[pt].place.Leaf? && pt in mem && k < 512
      modifies this
      ensures Valid() && SameMaps(old(S()), S()) && TookTables(old(S()), S())
      ensures ok ==>
        Next(mem, pt, k) == Some(next) && next in use && use[next] == Table(p, Below(old(use)[pt].place, k))
      ensures !ok ==> S() == old(S()) && Next(mem, pt, k) == None && (alloc ==> free == [])
      ensures !alloc ==> S() == old(S())
      ensures OthersKept(old(S()), S(), pt)
      ensures ok ==> Stepped(old(S()), S(), pt, k, next)
    {
      hide PagesOk, SameMaps, TookTables, OthersKept;
      ghost var m := S();
      OthersSame(m, pt);
      WalkFacts(m, pt, k);
      TablesInMemory(m);
      SameMapsSelf(m);
      TookNone(m);
      next := 0;
      var pte := mem[pt][k];
      if V(pte) {
        return true, Pte2Pa(pte) / PGSIZE;
      }
      if !alloc { return false, 0; }
      var pa := AllocPage();
      if pa == 0 { AllocFails(m, pa); return false, 0; }
      next := pa / PGSIZE;
      CanLinkNew(m, pt, k, next);
      LinkedOk(Popped(m), pt, k, next);
      SameMapsTrans(m, Popped(m), Linked(Popped(m), pt, k, next));
      LinkTook(m, pt, k, next);
      LinkedNext(Popped(m), pt, k, next, pt, k);
      // memset(pt, 0, PGSIZE) and the entry that leads to it
      mem := mem[next := Zeros()];
      mem := mem[pt := mem[pt][k := Pa2Pte(pa) + 1]];
      use := use[next := Table(p, Below(m.use[pt].place, k))];
      assert S() == Linked(Popped(m), pt, k, next);
      ok := true;
    }

    /** page_walk: the address of the entry for va.  Whatever tables it adds, no address
        space translates anything differently. */
    method PageWalk(ghost p: nat, pageDir: Frame, va: Word, alloc: bool) returns (r: PtePtr)
      requires Valid() && p in roots && roots[p] == pageDir
      modifies this
      ensures Valid() && SameMaps(old(S()), S()) && TookTables(old(S()), S())
      ensures r.OutOfRange? <==> va >= MAXVA
      ensures r.Slot? ==> IsEntry(S(), p, va / PGSIZE, r.frame) && r.index == Lo(va / PGSIZE) && r.frame in mem
      ensures alloc && va < MAXVA ==> (r.Null? <==> |old(free)| < Missing(ShapeOf(old(S()), p), va / PGSIZE))
      ensures alloc && r.Slot? ==> Walked(old(S()), S(), p, va / PGSIZE, 0)
      ensures r.Null? ==> LeafTable(mem, roots[p], va / PGSIZE) == None
      ensures !alloc || va >= MAXVA ==> S() == old(S())
    {
      hide PagesOk, SameMaps, TookTables, OthersKept, Below, PX, Walked, Stepped;
      ghost var m := S();
      SameMapsSelf(m);
      TookNone(m);
      if va >= MAXVA { return OutOfRange; }
      PxIsIndex(va);
      ghost var vpn := va / PGSIZE;
      RootTable(m, p);
      NotWalked(m, p, vpn);
      var pt := pageDir;
      var level := 2;
      while level > 0
        invariant 0 <= level <= 2
        invariant Valid() && SameMaps(m, S()) && TookTables(m, S()) && roots == m.roots
        invariant OnPath(S(), p, vpn, level, pt)
        invariant !alloc ==> S() == m
        invariant alloc ==> Walked(m, S(), p, vpn, level)
      {
        ghost var m1 := S();
        PathTable(m1, p, vpn, level, pt);
        var ok, next := WalkStep(p, pt, PX(level, va), alloc);
        SameMapsTrans(m, m1, S());
        TookTrans(m, m1, S());
        SameRoots(m1, S());
        if !ok {
          PathEnds(m1, p, vpn, level, pt);
          if alloc { WalkFails(m, m1, p, vpn, level, pt); }
          return Null;
        }
        if alloc { WalkGoesOn(m, m1, S(), p, vpn, level, pt, next); }
        PathGoesOn(m1, S(), p, vpn, level, pt, next);
        pt := next;
        level := level - 1;
      }
      PathTable(S(), p, vpn, 0, pt);
      if alloc { WalkEnds(m, S(), p, vpn); }
      r := Slot(pt, PX(0, va));
    }

    // One page of map_pages.
    method MapPage(ghost p: nat, pageDir: Frame, va: Word, pa: Word, perm: Word) returns (r: Mapping)
      requires Valid() && p in roots && roots[p] == pageDir && perm < 1024 && pa / PGSIZE < PPN_LIMIT
      modifies this
      ensures Valid() && TookTables(old(S()), S())
      ensures r.Mapped? ==> va < MAXVA && At(old(S()), p, va / PGSIZE) == 0 &&
                            OneChanged(old(S()), S(), p, va / PGSIZE, MkPte(pa, perm))
      ensures !r.Mapped? ==> SameMaps(old(S()), S())
      ensures r.BadAddress? <==> va >= MAXVA
      ensures r.NoMemory? <==> va < MAXVA && |old(free)| < Missing(ShapeOf(old(S()), p), va / PGSIZE)
      ensures r.Remap? <==> va < MAXVA && At(old(S()), p, va / PGSIZE) != 0
      ensures r.Mapped? ==> Walked(old(S()), S(), p, va / PGSIZE, 0)
    {
      hide PagesOk, SameMaps, TookTables, MkPte, V, Walked;
      ghost var m := S();
      var pte := PageWalk(p, pageDir, va, true);
      ghost var m1 := S();
      if pte.OutOfRange? { return BadAddress; }
      MappedHasTables(m, p, va / PGSIZE);
      if pte.Null? { return NoMemory; }
      SameAt(m, m1, p, va / PGSIZE);
      EntryIs(m1, p, va / PGSIZE, pte.frame);
      if V(mem[pte.frame][pte.index]) { return Remap; }
      MkPteFields(pa, perm);
      Nonzero(MkPte(pa, perm));
      WithEntryOk(m1, p, va / PGSIZE, pte.frame, MkPte(pa, perm));
      TookEntry(m, m1, p, va / PGSIZE, pte.frame, MkPte(pa, perm));
      OneChangedFrom(m, m1, WithEntry(m1, pte.frame, pte.index, MkPte(pa, perm)), p, va / PGSIZE, MkPte(pa, perm));
      WalkedEntry(m, m1, p, va / PGSIZE, pte.frame, MkPte(pa, perm));
      mem := mem[pte.frame := mem[pte.frame][pte.index := MkPte(pa, perm)]];
      assert S() == WithEntry(m1, pte.frame, pte.index, MkPte(pa, perm));
      r := Mapped;
    }

    /** map_pages; a remap and an address past the end panic.  `n` pages are mapped when
        it ends, all that were asked for when it succeeds. */
    method MapPages(ghost p: nat, pageDir: Frame, va: Word, size: Word, pa: Word, perm: Word)
      returns (r: Mapping, ghost n: nat)
      requires Valid() && p in roots && roots[p] == pageDir && perm < 1024 && pa + MAXVA + PGSIZE <= PPN_LIMIT * PGSIZE
      modifies this
      ensures Valid() && TookTables(old(S()), S())
      ensures RangeMapped(old(S()), S(), p, va / PGSIZE, n, pa, perm)
      ensures n <= Pages(va, size) && (r.Mapped? <==> n == Pages(va, size))
      ensures r.BadAddress? ==> va / PGSIZE + n >= MAXVPN
      ensures r.NoMemory? ==>
        va / PGSIZE + n < MAXVPN && TablesFor(ShapeOf(old(S()), p), PageRange(va / PGSIZE, n + 1)) > |old(free)|
      ensures r.Remap? ==> n < Pages(va, size) && va / PGSIZE + n < MAXVPN && At(old(S()), p, va / PGSIZE + n) != 0
      ensures r.Mapped? ==> Built(old(S()), S(), p, PageRange(va / PGSIZE, n))
      ensures r.Mapped? && size > 0 && va + size <= 0x1_0000_0000_0000_0000 ==>
                AddressesMapped(old(S()), S(), p, va, size, pa, perm)
    {
      hide PagesOk, SameMaps, TookTables, MkPte, OneChanged, RangeMapped, Walked, Built, ShapeOf, TablesFor, Missing,
        PageRange, At, AddressesMapped;
      ghost var m := S();
      TookNone(m);
      RangeNone(m, p, va / PGSIZE, pa, perm);
      BuiltNone(m, p, va / PGSIZE);
      n := 0;
      var first, last := va / PGSIZE * PGSIZE, (va + size - 1) % 0x1_0000_0000_0000_0000 / PGSIZE * PGSIZE;
      var at: Word := pa;
      while first <= last
        invariant Valid() && TookTables(m, S()) && roots == m.roots
        invariant RangeMapped(m, S(), p, va / PGSIZE, n, pa, perm) && Built(m, S(), p, PageRange(va / PGSIZE, n))
        invariant first == (va / PGSIZE + n) * PGSIZE && at == pa + n * PGSIZE
        invariant n <= Pages(va, size) && (n > 0 ==> va / PGSIZE + n <= MAXVPN)
        decreases Pages(va, size) - n
      {
        ghost var m1 := S();
        r := MapPage(p, pageDir, first, at, perm);
        TookTrans(m, m1, S());
        RangeKept(m, m1, S(), p, va / PGSIZE, n, pa, perm, first / PGSIZE);
        PageRangeNext(va / PGSIZE, n);
        if r != Mapped {
          if r == NoMemory { BuiltNoMore(m, m1, p, PageRange(va / PGSIZE, n), first / PGSIZE); }
          return;
        }
        BuiltNext(m, m1, S(), p, PageRange(va / PGSIZE, n), first / PGSIZE);
        RangeStep(m, m1, S(), p, va / PGSIZE, n, pa, perm);
        TookRoots(m, S());
        first := first + PGSIZE;
        at := at + PGSIZE;
        n := n + 1;
      }
      if size > 0 && va + size <= 0x1_0000_0000_0000_0000 { RangeByAddress(m, S(), p, va, size, n, pa, perm); }
      r := Mapped;
    }

    /** lookup_pa: the physical page of a readable or writable page, or 0. */
    method LookupPa(ghost p: nat, pageDir: Frame, va: Word) returns (pa: int)
      requires Valid() && p in roots && roots[p] == pageDir
      modifies this
      ensures S() == old(S())
      ensures pa == PhysicalPage(S(), p, va)
    {
      hide PagesOk, V;
      if va >= MAXVA { return 0; }
      var pte := PageWalk(p, pageDir, va, false);
      if pte.Null? { NoEntry(S(), p, va / PGSIZE); return 0; }
      EntryIs(S(), p, va / PGSIZE, pte.frame);
      var e := mem[pte.frame][pte.index];
      if !V(e) || (!R(e) && !W(e)) { return 0; }
      pa := Pte2Pa(e);
    }

    /** user_va_to_pa: the physical address of va, or 0; an address past the end panics. */
    method UserVaToPa(ghost p: nat, pageDir: Frame, va: Word) returns (ok: bool, pa: int)
      requires Valid() && p in roots && roots[p] == pageDir
      modifies this
      ensures S() == old(S()) && (ok <==> va < MAXVA)
      ensures ok ==> pa == (var e := At(S(), p, va / PGSIZE); if e != 0 then Pte2Pa(e) + va % PGSIZE else 0)
    {
      hide PagesOk, V;
      var pte := PageWalk(p, pageDir, va, false);
      if pte.OutOfRange? { return false, 0; }
      if pte.Null? { NoEntry(S(), p, va / PGSIZE); return true, 0; }
      EntryIs(S(), p, va / PGSIZE, pte.frame);
      var e := mem[pte.frame][pte.index];
      if !V(e) { return true, 0; }
      ok, pa := true, Pte2Pa(e) + va % PGSIZE;
    }

    /** user_vm_unmap: one page, whatever the size; false is a panic. */
    method UserVmUnmap(ghost p: nat, pageDir: Frame, va: Word, freeIt: bool) returns (ok: bool)
      requires Valid() && p in roots && roots[p] == pageDir
      requires freeIt && va < MAXVA && At(S(), p, va / PGSIZE) != 0 ==>
                 var f := Ppn(At(S(), p, va / PGSIZE));
                 f in use && !use[f].FreeAt? && !use[f].Table?
      modifies this
      ensures var e := At(old(S()), p, va / PGSIZE);
              ok <==> va < MAXVA && (freeIt && e != 0 ==> InRange(Pte2Pa(e), start, end))
      ensures ok ==> Valid()
      ensures ok && At(old(S()), p, va / PGSIZE) == 0 ==> S() == old(S())
      ensures ok && At(old(S()), p, va / PGSIZE) != 0 ==>
                Unmapped(old(S()), S(), p, va / PGSIZE, Ppn(At(old(S()), p, va / PGSIZE)), freeIt)
    {
      hide PagesOk, SameMaps, V, OneChanged;
      ghost var m := S();
      ghost var vpn := va / PGSIZE;
      var pte := PageWalk(p, pageDir, va, false);
      if pte.OutOfRange? { return false; }
      if pte.Null? { NoEntry(m, p, vpn); return true; }
      EntryIs(m, p, vpn, pte.frame);
      var e := mem[pte.frame][pte.index];
      if !V(e) { return true; }
      ghost var f := Ppn(e);
      SameMapsSelf(m);
      if freeIt {
        var good := FreePage(Pte2Pa(e));
        if !good { return false; }
        PushedEntry(m, f, p, vpn, pte.frame);
      }
      ghost var m1 := S();
      ZeroInvalid();
      WithEntryOk(m1, p, vpn, pte.frame, 0);
      OneChangedFrom(m, m1, WithEntry(m1, pte.frame, pte.index, 0), p, vpn, 0);
      UnmappedOk(m, m1, p, vpn, pte.frame, f, freeIt);
      mem := mem[pte.frame := mem[pte.frame][pte.index := 0]];
      assert S() == WithEntry(m1, pte.frame, pte.index, 0);
      ok := true;
    }

    /** create_freepage_list: all whole pages of the range but the last become free. */
    method CreateFreePageList(from: int, to: int)
      requires Valid() && free == [] && 0 < from && start <= RoundUp(from) && to <= end
      requires Held(use, RoundUp(from), to)
      modifies this
      ensures Valid() && SameMaps(old(S()), S())
      ensures WholePages(free, from, to)
      ensures |free| == (if RoundUp(from) + PGSIZE < to then (to - RoundUp(from) - 1) / PGSIZE else 0)
      ensures forall i {:trigger free[i]} :: 0 <= i < |free| ==> free[i] * PGSIZE == RoundUp(from) + i * PGSIZE
      ensures roots == old(roots) && shared == old(shared) && Released(old(use), use)
    {
      hide PagesOk, SameMaps, WholePages;
      ghost var m := S();
      SameMapsSelf(m);
      EmptyHead(m);
      head := 0;
      var at := (from - 1) / PGSIZE * PGSIZE + PGSIZE;
      while at + PGSIZE < to
        invariant Valid() && SameMaps(m, S())
        invariant at == RoundUp(from) + |free| * PGSIZE
        invariant |free| > 0 ==> at < to
        invariant forall i {:trigger free[i]} :: 0 <= i < |free| ==> free[i] * PGSIZE == RoundUp(from) + i * PGSIZE
        invariant Held(use, at, to) && roots == m.roots && shared == m.shared && Released(m.use, use)
      {
        ghost var m1 := S();
        assert at / PGSIZE * PGSIZE == at && at / PGSIZE in use;
        var ok := FreePage(at);
        SameMapsTrans(m, m1, S());
        at := at + PGSIZE;
      }
      FreeByAddress(free, from, to);
    }
  }

  // The whole pages from `at`, but for the last, are not in use for anything yet.
  ghost predicate Held(use: map<Frame, Use>, at: int, to: int) {
    forall f: Frame {:trigger f in use} :: at <= f * PGSIZE && f * PGSIZE + PGSIZE < to ==> f in use && use[f] == Kernel
  }

  // Pages went from the kernel's hands to the free list, and nothing else.
  ghost predicate Released(use: map<Frame, Use>, use': map<Frame, Use>) {
    && use'.Keys == use.Keys
    && forall f {:trigger use'[f]} :: f in use ==> use'[f] == use[f] || (use[f] == Kernel && use'[f].FreeAt?)
  }

  function RoundUp(a: int): int { ((a - 1) / PGSIZE + 1) * PGSIZE }

  // In order, the pages that lie in the range with at least a byte behind them.
  ghost predicate WholePages(free: seq<Frame>, from: int, to: int) {
    && (forall f: Frame {:trigger f in free} :: f in free <==> from <= f * PGSIZE && f * PGSIZE + PGSIZE < to)
    && (forall i {:trigger free[i]} :: 0 < i < |free| ==> free[i] == free[i - 1] + 1)
  }

  lemma FreeByAddress(free: seq<Frame>, from: int, to: int)
    requires 0 < from
    requires |free| == (if RoundUp(from) + PGSIZE < to then (to - RoundUp(from) - 1) / PGSIZE else 0)
    requires forall i {:trigger free[i]} :: 0 <= i < |free| ==> free[i] * PGSIZE == RoundUp(from) + i * PGSIZE
    ensures WholePages(free, from, to)
  {
    var first := (from - 1) / PGSIZE + 1;
    forall f: Frame ensures f in free <==> from <= f * PGSIZE && f * PGSIZE + PGSIZE < to {
      if from <= f * PGSIZE && f * PGSIZE + PGSIZE < to {
        assert first <= f < first + |free|;
        assert free[f - first] == f;
      }
    }
  }

  // Page vpn of p is not mapped any more; its physical page f is free if asked for.
  ghost predicate Unmapped(m: M, m': M, p: nat, vpn: nat, f: Frame, freed: bool) {
    && OneChanged(m, m', p, vpn, 0) && m'.shared == m.shared
    && m'.free == (if freed then m.free + [f] else m.free)
    && m'.use == (if freed then m.use[f := FreeAt(|m.free|)] else m.use)
    && forall g {:trigger m.use[g]} {:trigger m'.mem[g]} :: g in m.use && !m.use[g].Table? && g != f ==>
         g in m.mem && g in m'.mem && m'.mem[g] == m.mem[g]
  }

  lemma UnmappedOk(m: M, m1: M, p: nat, vpn: nat, slot: Frame, f: Frame, freed: bool)
    requires PagesOk(m) && PagesOk(m1) && IsEntry(m1, p, vpn, slot) && slot in m1.mem && p in m.roots
    requires OneChanged(m, WithEntry(m1, slot, Lo(vpn), 0), p, vpn, 0)
    requires freed ==> f in m.use && f in m.mem && 0 <= m.head < 0x1_0000_0000_0000_0000 && m1 == Pushed(m, f)
    requires freed ==> !m.use[f].Table?
    requires !freed ==> m1 == m
    ensures Unmapped(m, WithEntry(m1, slot, Lo(vpn), 0), p, vpn, f, freed)
  {
    hide FreeOk, TablesOk, OneChanged, V, Ppn, Hi, Mi, Lo;
    WalkPlaces(m1, p, vpn);
  }

  lemma PushedEntry(m: M, f: Frame, p: nat, vpn: nat, slot: Frame)
    requires PagesOk(m) && IsEntry(m, p, vpn, slot) && f in m.use && !m.use[f].FreeAt? && !m.use[f].Table?
    ensures f in m.mem && 0 <= m.head < 0x1_0000_0000_0000_0000 && IsEntry(Pushed(m, f), p, vpn, slot)
    ensures slot in m.mem && slot != f && Pushed(m, f).mem[slot] == m.mem[slot]
  {
    hide FreeOk, TablesOk, V, Ppn, Hi, Mi, Lo;
    PushedOk(m, f);
    WalkPlaces(m, p, vpn);
    WalkPlaces(Pushed(m, f), p, vpn);
  }

  lemma ZeroInvalid()
    ensures !V(0)
  {
  }

  lemma EmptyHead(m: M)
    requires PagesOk(m) && m.free == []
    ensures m.head == 0
  {
  }

  // ---------------------------------------------------------------------
  // What the hardware makes of a mapping
  // ---------------------------------------------------------------------

  predicate AskedFor(prot: nat, acc: Access) {
    match acc
    case Load => ProtRead(prot)
    case Store => ProtWrite(prot)
    case Fetch => ProtExec(prot)
  }

  /** A user page mapped with prot_to_type(prot, 1) can be used exactly for what prot
      asks for, provided that write was not asked for without read. */
  lemma MappedProt(m: M, p: nat, va: Word, pa: Word, prot: nat, acc: Access)
    requires PagesOk(m) && p in m.roots && va < MAXVA && ProtToType(prot, true) < 1024
    requires At(m, p, va / PGSIZE) == MkPte(pa, ProtToType(prot, true))
    ensures HwTranslate(m.mem, m.roots[p], va, acc) ==
            if AskedFor(prot, acc) && (ProtWrite(prot) ==> ProtRead(prot))
            then Translated(pa / PGSIZE * PGSIZE + va % PGSIZE) else Fault
  {
    hide PagesOk, HwTranslate, MkPte, ProtToType, R, W, X, U, A, D, ProtRead, ProtWrite, ProtExec, V;
    var t := ProtToType(prot, true);
    HardwareAgrees(m, p, va, acc);
    MkPteFields(pa, t);
    ProtBits(prot, true);
    SetV(t);
    SameFlags(MkPte(pa, t), t + 1);
    Nonzero(MkPte(pa, t));
  }

  lemma SameFlags(e: Word, t: Word)
    requires t < 1024 && Flags(e) == t
    ensures (R(e) <==> R(t)) && (W(e) <==> W(t)) && (X(e) <==> X(t)) && (U(e) <==> U(t)) && (A(e) <==> A(t))
    ensures D(e) <==> D(t)
  {
    assert Flags(t) == t;
  }

  // lookup_pa's answer.
  function PhysicalPage(m: M, p: nat, va: Word): int
    requires p in m.roots
  {
    var e := At(m, p, va / PGSIZE);
    if va < MAXVA && e != 0 && (R(e) || W(e)) then Pte2Pa(e) else 0
  }

  /** Where user code can load or store, lookup_pa finds the page; where it can do anything,
      user_va_to_pa gives the very address. */
  lemma LookupSeesUser(m: M, p: nat, va: Word, acc: Access)
    requires PagesOk(m) && p in m.roots && va < MAXVA && HwTranslate(m.mem, m.roots[p], va, acc).Translated?
    ensures var pa := HwTranslate(m.mem, m.roots[p], va, acc).pa;
            && At(m, p, va / PGSIZE) != 0 && Pte2Pa(At(m, p, va / PGSIZE)) + va % PGSIZE == pa
            && (acc != Fetch ==> PhysicalPage(m, p, va) == pa - va % PGSIZE)
  {
    hide PagesOk, HwTranslate, At;
    HardwareAgrees(m, p, va, acc);
  }

  // How many pages map_pages goes over; va + size - 1 wraps around.
  function Pages(va: Word, size: Word): nat {
    var first, last := va / PGSIZE, (va + size - 1) % 0x1_0000_0000_0000_0000 / PGSIZE;
    if first <= last then last - first + 1 else 0
  }

  // n pages from page v0 of address space p map to consecutive physical pages from pa;
  // they were not mapped before, and nothing else changed.
  ghost predicate RangeMapped(m: M, m': M, p: nat, v0: nat, n: nat, pa: Word, perm: Word)
    requires perm < 1024
  {
    && m'.roots == m.roots && pa + n * PGSIZE < 0x1_0000_0000_0000_0000 && (n > 0 ==> v0 + n <= MAXVPN)
    && forall q, v: nat {:trigger At(m', q, v)} :: q in m.roots && v < MAXVPN ==>
         if q == p && v0 <= v < v0 + n
         then At(m, q, v) == 0 && At(m', q, v) == MkPte(pa + (v - v0) * PGSIZE, perm)
         else At(m', q, v) == At(m, q, v)
  }

  // The entry of physical page f with these permissions, and valid.
  predicate EntryFor(e: Word, f: Frame, perm: Word) {
    e != 0 && V(e) && Ppn(e) == f && Flags(e) - Flags(e) % 2 == perm - perm % 2
  }

  // The pages of the addresses va .. va + size - 1 map to the physical pages from that of pa
  // on, and were not mapped before; no other page of any address space changed.
  ghost predicate AddressesMapped(m: M, m': M, p: nat, va: Word, size: Word, pa: Word, perm: Word) {
    && p in m.roots && m'.roots == m.roots
    && (forall a: nat {:trigger At(m', p, a / PGSIZE)} :: va <= a < va + size ==>
          && a / PGSIZE < MAXVPN && At(m, p, a / PGSIZE) == 0
          && EntryFor(At(m', p, a / PGSIZE), pa / PGSIZE + (a / PGSIZE - va / PGSIZE), perm))
    && forall q, v: nat {:trigger At(m', q, v)} ::
         q in m.roots && v < MAXVPN && !(q == p && va < (v + 1) * PGSIZE && v * PGSIZE < va + size) ==>
         At(m', q, v) == At(m, q, v)
  }

  lemma RangeByAddress(m: M, m': M, p: nat, va: Word, size: Word, n: nat, pa: Word, perm: Word)
    requires perm < 1024 && p in m.roots && size > 0 && va + size <= 0x1_0000_0000_0000_0000
    requires RangeMapped(m, m', p, va / PGSIZE, n, pa, perm) && n == Pages(va, size)
    ensures AddressesMapped(m, m', p, va, size, pa, perm)
  {
    hide At, MkPte, EntryFor;
    var last := va + size - 1;
    assert last % 0x1_0000_0000_0000_0000 == last;
    assert n == last / PGSIZE - va / PGSIZE + 1;
    forall a: nat | va <= a < va + size
      ensures a / PGSIZE < MAXVPN && At(m, p, a / PGSIZE) == 0
      ensures EntryFor(At(m', p, a / PGSIZE), pa / PGSIZE + (a / PGSIZE - va / PGSIZE), perm)
    {
      var k := a / PGSIZE - va / PGSIZE;
      assert 0 <= k < n;
      assert At(m', p, a / PGSIZE) == MkPte(pa + k * PGSIZE, perm);
      EntryForPage(pa, k, perm);
    }
    forall q, v: nat | q in m.roots && v < MAXVPN && !(q == p && va < (v + 1) * PGSIZE && v * PGSIZE < va + size)
      ensures At(m', q, v) == At(m, q, v)
    {
      assert v < va / PGSIZE || v >= va / PGSIZE + n || q != p;
    }
  }

  lemma EntryForPage(pa: Word, k: nat, perm: Word)
    requires perm < 1024 && pa + k * PGSIZE < 0x1_0000_0000_0000_0000
    ensures EntryFor(MkPte(pa + k * PGSIZE, perm), pa / PGSIZE + k, perm)
  {
    hide MkPte;
    MkPteFields(pa + k * PGSIZE, perm);
  }

  lemma RangeNone(m: M, p: nat, v0: nat, pa: Word, perm: Word)
    requires perm < 1024
    ensures RangeMapped(m, m, p, v0, 0, pa, perm)
  {
  }

  lemma RangeKept(m: M, m1: M, m2: M, p: nat, v0: nat, n: nat, pa: Word, perm: Word, vpn: nat)
    requires perm < 1024 && RangeMapped(m, m1, p, v0, n, pa, perm)
    ensures SameMaps(m1, m2) ==> RangeMapped(m, m2, p, v0, n, pa, perm)
    ensures vpn == v0 + n && vpn < MAXVPN && p in m.roots ==> p in m1.roots && At(m1, p, vpn) == At(m, p, vpn)
  {
    hide At, MkPte;
    if SameMaps(m1, m2) {
      forall q, v: nat | q in m.roots && v < MAXVPN
        ensures if q == p && v0 <= v < v0 + n
                then At(m, q, v) == 0 && At(m2, q, v) == MkPte(pa + (v - v0) * PGSIZE, perm)
                else At(m2, q, v) == At(m, q, v)
      {
        assert At(m2, q, v) == At(m1, q, v);
      }
    }
  }

  lemma RangeStep(m: M, m1: M, m2: M, p: nat, v0: nat, n: nat, pa: Word, perm: Word)
    requires perm < 1024 && RangeMapped(m, m1, p, v0, n, pa, perm) && p in m.roots && v0 + n < MAXVPN
    requires pa + (n + 1) * PGSIZE < 0x1_0000_0000_0000_0000
    requires At(m1, p, v0 + n) == 0 && OneChanged(m1, m2, p, v0 + n, MkPte(pa + n * PGSIZE, perm))
    ensures RangeMapped(m, m2, p, v0, n + 1, pa, perm)
  {
    hide At, MkPte;
    assert At(m1, p, v0 + n) == At(m, p, v0 + n);
    forall q, v: nat | q in m.roots && v < MAXVPN
      ensures if q == p && v0 <= v < v0 + n + 1
              then At(m, q, v) == 0 && At(m2, q, v) == MkPte(pa + (v - v0) * PGSIZE, perm)
              else At(m2, q, v) == At(m, q, v)
    {
      assert At(m2, q, v) == if q == p && v == v0 + n then MkPte(pa + n * PGSIZE, perm) else At(m1, q, v);
    }
  }

  lemma SameAt(m: M, m1: M, p: nat, vpn: nat)
    requires SameMaps(m, m1) && p in m.roots
    ensures p in m1.roots && At(m1, p, vpn) == At(m, p, vpn)
  {
  }

  lemma Nonzero(e: Word)
    requires V(e)
    ensures e != 0
  {
  }

  lemma EntryIs(m: M, p: nat, vpn: nat, f: Frame)
    requires IsEntry(m, p, vpn, f) && f in m.mem
    ensures At(m, p, vpn) == if V(m.mem[f][Lo(vpn)]) then m.mem[f][Lo(vpn)] else 0
  {
  }

  lemma NoEntry(m: M, p: nat, vpn: nat)
    requires p in m.roots && LeafTable(m.mem, m.roots[p], vpn) == None
    ensures At(m, p, vpn) == 0
  {
  }

  lemma TookEntry(m: M, m1: M, p: nat, vpn: nat, f: Frame, e: Word)
    requires PagesOk(m1) && TookTables(m, m1) && IsEntry(m1, p, vpn, f) && f in m1.mem
    ensures TookTables(m, WithEntry(m1, f, Lo(vpn), e))
  {
    hide FreeOk, TablesOk, Hi, Mi, Lo, V, Ppn;
    WalkPlaces(m1, p, vpn);
  }

  lemma TookRoots(m: M, m': M)
    requires TookTables(m, m')
    ensures m'.roots == m.roots
  {
  }

  lemma OneChangedFrom(m: M, m1: M, m2: M, p: nat, vpn: nat, e: Word)
    requires SameMaps(m, m1) && OneChanged(m1, m2, p, vpn, e)
    ensures OneChanged(m, m2, p, vpn, e)
  {
  }

  // ---------------------------------------------------------------------
  // The tables that a walk adds
  // ---------------------------------------------------------------------

  // One step of the walk: the table was there, or is a new one.
  ghost predicate Stepped(m: M, m': M, pt: Frame, k: nat, next: Frame)
    requires k < 512
  {
    if Next(m.mem, pt, k).Some? then m' == m
    else m.free != [] && CanLink(Popped(m), pt, k, next) && m' == Linked(Popped(m), pt, k, next)
  }

  // From m to m1 the walk to vpn came down to a level, with the tables it needed.
  ghost predicate Walked(m: M, m1: M, p: nat, vpn: nat, level: nat) {
    && p in m.roots && p in m1.roots
    && var s := ShapeOf(m, p);
       match level
       case 2 => ShapeOf(m1, p) == s && |m1.free| == |m.free|
       case 1 => ShapeOf(m1, p) == s.(mids := s.mids + {Hi(vpn)}) &&
         |m1.free| == |m.free| - (if Hi(vpn) in s.mids then 0 else 1)
       case _ => ShapeOf(m1, p) == Extend(s, vpn) && |m1.free| == |m.free| - Missing(s, vpn)
  }

  lemma NotWalked(m: M, p: nat, vpn: nat)
    requires p in m.roots
    ensures Walked(m, m, p, vpn, 2)
  {
  }

  lemma WalkEnds(m: M, m1: M, p: nat, vpn: nat)
    requires Walked(m, m1, p, vpn, 0)
    ensures |m.free| >= Missing(ShapeOf(m, p), vpn)
  {
  }

  lemma WalkFails(m: M, m1: M, p: nat, vpn: nat, level: nat, pt: Frame)
    requires Walked(m, m1, p, vpn, level) && 1 <= level <= 2 && OnPath(m1, p, vpn, level, pt) && m1.free == []
    requires Next(m1.mem, pt, if level == 2 then Hi(vpn) else Mi(vpn)) == None
    ensures |m.free| < Missing(ShapeOf(m, p), vpn)
  {
    hide ShapeOf, Hi, Mi;
    var s, a, b := ShapeOf(m, p), Hi(vpn), Mi(vpn);
    if level == 2 {
      assert !HasMid(m1, p, a);
    } else {
      assert !HasLeaf(m1, p, a, b);
      assert (a, b) !in ShapeOf(m1, p).leaves;
    }
  }

  lemma WalkGoesOn(m: M, m1: M, m2: M, p: nat, vpn: nat, level: nat, pt: Frame, next: Frame)
    requires Walked(m, m1, p, vpn, level) && 1 <= level <= 2 && OnPath(m1, p, vpn, level, pt)
    requires Stepped(m1, m2, pt, if level == 2 then Hi(vpn) else Mi(vpn), next)
    ensures Walked(m, m2, p, vpn, level - 1)
  {
    hide ShapeOf, Hi, Mi, PagesOk, Linked, HasMid, HasLeaf;
    var a, b, t := Hi(vpn), Mi(vpn), ShapeOf(m1, p);
    HasTables(m1, p, vpn);
    if level == 2 {
      if Next(m1.mem, pt, a).Some? {
        assert t.mids + {a} == t.mids;
      } else {
        PoppedShape(m1, p);
        LinkedMid(Popped(m1), p, a, next);
        LinkedFrees(Popped(m1), pt, a, next);
      }
    } else {
      HasFirst(m1, p, vpn);
      if Next(m1.mem, pt, b).Some? {
        assert t.leaves + {(a, b)} == t.leaves;
      } else {
        PoppedShape(m1, p);
        LinkedLeaf(Popped(m1), p, a, pt, b, next);
        LinkedFrees(Popped(m1), pt, b, next);
      }
      FirstStep(m, p, vpn);
    }
  }

  lemma HasTables(m: M, p: nat, vpn: nat)
    requires p in m.roots
    ensures Hi(vpn) in ShapeOf(m, p).mids <==> Next(m.mem, m.roots[p], Hi(vpn)).Some?
    ensures (Hi(vpn), Mi(vpn)) in ShapeOf(m, p).leaves <==>
            Next(m.mem, m.roots[p], Hi(vpn)).Some? && Next(m.mem, Next(m.mem, m.roots[p], Hi(vpn)).value, Mi(vpn)).Some?
  {
    hide ShapeOf;
    MappedHasTables(m, p, vpn);
  }

  lemma HasFirst(m: M, p: nat, vpn: nat)
    requires p in m.roots && Next(m.mem, m.roots[p], Hi(vpn)).Some?
    ensures Hi(vpn) in ShapeOf(m, p).mids && ShapeOf(m, p).mids + {Hi(vpn)} == ShapeOf(m, p).mids
  {
    HasTables(m, p, vpn);
  }

  // Under a missing table there is none.
  lemma FirstStep(m: M, p: nat, vpn: nat)
    requires p in m.roots
    ensures Hi(vpn) !in ShapeOf(m, p).mids ==> (Hi(vpn), Mi(vpn)) !in ShapeOf(m, p).leaves
  {
    hide ShapeOf;
    HasTables(m, p, vpn);
  }

  lemma PoppedShape(m: M, p: nat)
    requires p in m.roots && m.free != []
    ensures ShapeOf(Popped(m), p) == ShapeOf(m, p) && |Popped(m).free| == |m.free| - 1 && Popped(m).roots == m.roots
    ensures Popped(m).mem == m.mem
  {
  }

  lemma LinkedFrees(m: M, f: Frame, k: nat, g: Frame)
    requires CanLink(m, f, k, g)
    ensures Linked(m, f, k, g).free == m.free && Linked(m, f, k, g).roots == m.roots
  {
  }

  lemma WalkedEntry(m: M, m1: M, p: nat, vpn: nat, f: Frame, e: Word)
    requires Walked(m, m1, p, vpn, 0) && PagesOk(m1) && IsEntry(m1, p, vpn, f) && f in m1.mem
    ensures Walked(m, WithEntry(m1, f, Lo(vpn), e), p, vpn, 0)
  {
    hide ShapeOf, Hi, Mi, Lo, PagesOk, Missing;
    WithEntryShape(m1, p, vpn, f, e);
  }

  function PageRange(v0: nat, n: nat): (r: seq<nat>)
    ensures |r| == n && forall i {:trigger r[i]} :: 0 <= i < n ==> r[i] == v0 + i
  {
    seq<nat>(n, i requires 0 <= i < n => v0 + i)
  }

  lemma PageRangeNext(v0: nat, n: nat)
    ensures PageRange(v0, n + 1) == PageRange(v0, n) + [v0 + n]
  {
  }

  // From m to m1 the walks to these pages added the tables they needed, and no page was
  // taken for anything else.
  ghost predicate Built(m: M, m1: M, p: nat, vs: seq<nat>) {
    && p in m.roots && p in m1.roots
    && ShapeOf(m1, p) == ExtendAll(ShapeOf(m, p), vs) && |m1.free| == |m.free| - TablesFor(ShapeOf(m, p), vs)
  }

  lemma BuiltNone(m: M, p: nat, v: nat)
    requires p in m.roots
    ensures Built(m, m, p, PageRange(v, 0))
  {
  }

  lemma BuiltNext(m: M, m1: M, m2: M, p: nat, vs: seq<nat>, v: nat)
    requires Built(m, m1, p, vs) && Walked(m1, m2, p, v, 0)
    ensures Built(m, m2, p, vs + [v])
  {
    hide ShapeOf, Missing;
    TablesForNext(ShapeOf(m, p), vs, v);
  }

  lemma BuiltNoMore(m: M, m1: M, p: nat, vs: seq<nat>, v: nat)
    requires Built(m, m1, p, vs) && |m1.free| < Missing(ShapeOf(m1, p), v)
    ensures TablesFor(ShapeOf(m, p), vs + [v]) > |m.free|
  {
    hide ShapeOf, Missing;
    TablesForNext(ShapeOf(m, p), vs, v);
  }

  // Table pt is where the walk to vpn stands at a level.
  ghost predicate OnPath(m: M, p: nat, vpn: nat, level: nat, pt: Frame) {
    && p in m.roots && pt in m.use && pt in m.mem
    && match level
       case 2 => pt == m.roots[p] && m.use[pt] == Table(p, Root)
       case 1 => Next(m.mem, m.roots[p], Hi(vpn)) == Some(pt) && m.use[pt] == Table(p, Mid(Hi(vpn)))
       case _ => LeafTable(m.mem, m.roots[p], vpn) == Some(pt) && m.use[pt] == Table(p, Leaf(Hi(vpn), Mi(vpn)))
  }

  lemma RootTable(m: M, p: nat)
    requires PagesOk(m) && p in m.roots
    ensures m.roots[p] in m.use && m.roots[p] in m.mem && m.use[m.roots[p]] == Table(p, Root)
  {
    hide FreeOk, TableOk;
  }

  lemma PathTable(m: M, p: nat, vpn: nat, level: nat, pt: Frame)
    requires OnPath(m, p, vpn, level, pt) && level <= 2
    ensures m.use[pt].Table? && m.use[pt].p == p && (m.use[pt].place.Leaf? <==> level == 0) && pt in m.mem
    ensures level == 0 ==> LeafTable(m.mem, m.roots[p], vpn) == Some(pt)
  {
  }

  lemma PathEnds(m: M, p: nat, vpn: nat, level: nat, pt: Frame)
    requires OnPath(m, p, vpn, level, pt) && 1 <= level <= 2
    requires Next(m.mem, pt, if level == 2 then Hi(vpn) else Mi(vpn)) == None
    ensures LeafTable(m.mem, m.roots[p], vpn) == None
  {
  }

  lemma PathGoesOn(m: M, m': M, p: nat, vpn: nat, level: nat, pt: Frame, next: Frame)
    requires PagesOk(m) && PagesOk(m') && OnPath(m, p, vpn, level, pt) && 1 <= level <= 2 && m'.roots == m.roots
    requires Next(m'.mem, pt, if level == 2 then Hi(vpn) else Mi(vpn)) == Some(next)
    requires next in m'.use && m'.use[next] == Table(p, Below(m.use[pt].place, if level == 2 then Hi(vpn) else Mi(vpn)))
    requires OthersKept(m, m', pt)
    ensures OnPath(m', p, vpn, level - 1, next)
  {
    RootTable(m, p);
    TablesInMemory(m');
    hide PagesOk;
    assert m'.use[next].Table?;
  }

  lemma OthersSame(m: M, pt: Frame)
    requires PagesOk(m)
    ensures OthersKept(m, m, pt)
  {
    hide FreeOk, TablesOk;
  }

  lemma SameRoots(m: M, m': M)
    requires SameMaps(m, m')
    ensures m'.roots == m.roots
  {
  }

  lemma TablesInMemory(m: M)
    requires PagesOk(m)
    ensures forall f {:trigger m.use[f].Table?} :: f in m.use && m.use[f].Table? ==> f in m.mem
  {
    hide FreeOk, TableOk;
  }

  // Tables other than pt hold the same words.
  ghost predicate OthersKept(m: M, m': M, pt: Frame) {
    forall f {:trigger m'.mem[f]} :: f in m.use && m.use[f].Table? && f != pt ==>
      f in m.mem && f in m'.mem && m'.mem[f] == m.mem[f]
  }

  predicate InRange(pa: int, start: int, end: int) { pa % PGSIZE == 0 && start <= pa < end }

  lemma SameMapsSelf(m: M)
    ensures SameMaps(m, m)
  {
  }

  lemma HeadNull(m: M)
    requires PagesOk(m)
    ensures m.head == 0 <==> m.free == []
    ensures m.free != [] ==> m.head == m.free[|m.free| - 1] * PGSIZE && m.head / PGSIZE == m.free[|m.free| - 1] &&
                             m.free[|m.free| - 1] in m.mem && m.mem[m.free[|m.free| - 1]][0] == Popped(m).head
    ensures SameMaps(m, m)
  {
    hide TablesOk;
    if m.free != [] { PoppedHead(m); }
  }

  lemma AllocFails(m: M, pa: int)
    requires PagesOk(m) && (m.free != [] ==> pa == m.free[|m.free| - 1] * PGSIZE) && pa == 0
    ensures m.free == []
  {
    hide TablesOk;
    if m.free != [] { PoppedHead(m); assert false; }
  }

  lemma CanLinkNew(m: M, pt: Frame, k: nat, g: Frame)
    requires PagesOk(m) && m.free != [] && g == m.free[|m.free| - 1]
    requires pt in m.use && m.use[pt].Table? && !m.use[pt].place.Leaf? && pt in m.mem && k < 512 && !V(m.mem[pt][k])
    ensures CanLink(Popped(m), pt, k, g) && pt in Popped(m).use && Popped(m).use[pt] == m.use[pt] && pt != g
    ensures OthersKept(m, Linked(Popped(m), pt, k, g), pt)
  {
    hide FreeOk, TablesOk, Zeros;
    PoppedOk(m);
    PoppedHead(m);
  }

  lemma WalkFacts(m: M, pt: Frame, k: nat)
    requires PagesOk(m) && pt in m.use && m.use[pt].Table? && !m.use[pt].place.Leaf? && pt in m.mem && k < 512
    ensures V(m.mem[pt][k]) ==>
              var f := Ppn(m.mem[pt][k]);
              f in m.use && m.use[f] == Table(m.use[pt].p, Below(m.use[pt].place, k)) &&
              Pte2Pa(m.mem[pt][k]) / PGSIZE == f
  {
    hide FreeOk;
    assert TableOk(m, pt);
  }
}
