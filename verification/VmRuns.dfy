/**
 Runs of the memory calls of any number of processes: what holds after each step.
 */
module VmRuns {
  import opened Sv39
  import opened PageTables
  import opened Paging
  import opened UserSpace
  import opened ProcMemory
  import opened ProcFork

  datatype Op =
    | New(p: nat)
    | LoadCode(p: nat, va: Word, page: Page)
    | Allocate(p: nat)
    | Free(p: nat, va: Word)
    | Fault(p: nat, stval: Word)
    | Store(p: nat, va: Word, w: Word)
    | Fork(parent: nat, child: nat, junk: seq<int>)

  // A code page can be loaded: the address is one of a page, not yet mapped, and there are
  // pages for it and its tables.
  ghost predicate CanLoad(m: M, p: nat, va: Word)
    requires p in m.roots
  {
    va < MAXVA && At(m, p, va / PGSIZE) == 0 && HasPages(m, p, va / PGSIZE)
  }

  /** The loader's part for a page-aligned code segment of one page, readable and
      executable; nothing but a lack of pages, or a page already mapped, stops it. */
  method LoadCodePage(ps: Procs, p: nat, va: Word, page: Page) returns (o: Outcome)
    requires ps.Valid() && p in ps.procs && p in ps.mmu.roots
    modifies ps, ps.mmu
    ensures o.OutOfScope? <==> va % PGSIZE != 0 || InArena(va / PGSIZE)
    ensures o.Fine? <==> va % PGSIZE == 0 && !InArena(va / PGSIZE) && CanLoad(old(ps.mmu.S()), p, va)
    ensures o.Fine? ==>
      ps.Valid() && ps.clean == old(ps.clean) && p in ps.mmu.roots && SharedAt(ps.mmu.S(), p, va / PGSIZE)
    ensures o.Fine? ==> var f := Ppn(At(ps.mmu.S(), p, va / PGSIZE)); f in ps.mmu.mem && ps.mmu.mem[f] == page
    ensures o.Fine? ==> ps.mmu.shared == old(ps.mmu.shared) + {Ppn(At(ps.mmu.S(), p, va / PGSIZE))}
    ensures o.Fine? ==>
      ps.procs == old(ps.procs)[p := old(ps.procs)[p].(regions := old(ps.procs)[p].regions + [Region(va, 1, CODE)])]
    ensures o.Fine? ==> SharedStay(old(ps.mmu.S()), ps.mmu.S())
    ensures o.Fine? ==> var e := At(ps.mmu.S(), p, va / PGSIZE);
                        && OneChanged(old(ps.mmu.S()), ps.mmu.S(), p, va / PGSIZE, e)
                        && Kept(Declared(old(ps.mmu.S()), Ppn(e)), ps.mmu.S(), NO_PAGE)
                        && CodePage(ps.mmu.S(), p, va / PGSIZE, Ppn(e))
  {
    hide Ok, ProcsOk, Kept, SameMaps, SameUser, SameShapes, OneChanged, At, MkPte, ProtToType, R, W, HasPages, CanMap,
      Walked, SharedStay, ShapeOf, CodePage, ForCode;
    if va % PGSIZE != 0 || InArena(va / PGSIZE) { return OutOfScope; }
    var mmu := ps.mmu;
    ghost var m := mmu.S();
    ZeroNotUsed(mmu);
    var f := TakePage(mmu);
    ghost var m1 := mmu.S();
    if f == 0 { NoPages(m, p); return Panic; }
    SameMapsUser(m, m1);
    ProcsStay(m, m1, ps.procs, ps.clean, NO_PAGE);
    StillShared(m, m1, ps.trapPage);
    KernelLow(mmu, f);
    ghost var d := Declared(m1, f);
    DeclaredProcs(m1, f, ps.procs, ps.clean);
    SharePage(mmu, f, page);
    ghost var m2 := mmu.S();
    SameMapsUser(d, m2);
    ProcsStay(d, m2, ps.procs, ps.clean, f);
    StillShared2(d, m2, ps.trapPage, f);
    DirOf(m2, ps.procs, ps.clean, p);
    LoadCanMap(m, m1, m2, p, va, f);
    FrameFits(f);
    ProtBits(5, true);
    ZeroNotUsed(mmu);
    var r := MapUser(mmu, p, ps.procs[p].pageDir, va, f, CodePerm());
    if r != Mapped { return Panic; }
    ghost var m3 := mmu.S();
    ghost var e := MkPte(f * PGSIZE, CodePerm());
    EntryOfPage(f, CodePerm());
    AfterOne(m2, m3, p, va / PGSIZE, e, va / PGSIZE);
    SharedKept(m2, m3, f);
    ProcsOne(m2, m3, ps.procs, ps.clean, p, va / PGSIZE, e, NO_PAGE);
    StillHere(m2, m3, ps.trapPage);
    LoadShares(m, m1, m2, m3, f);
    LoadKeeps(m, m1, m2, m3, f);
    LoadMaps(m, m1, m2, m3, p, va / PGSIZE, e, f);
    PageUse(mmu, p, va / PGSIZE);
    var proc := ps.procs[p].(regions := ps.procs[p].regions + [Region(va, 1, CODE)]);
    MoreCode(m3, ps.procs, ps.clean, p, va, proc);
    ps.procs := ps.procs[p := proc];
    o := Fine;
  }

  lemma LoadCanMap(m: M, m1: M, m2: M, p: nat, va: Word, f: Frame)
    requires p in m.roots && SameUser(m, m1) && SameShapes(m, m1) && |m1.free| == |m.free| - 1
    requires SameUser(Declared(m1, f), m2) && SameShapes(Declared(m1, f), m2) && m2.free == m1.free
    ensures p in m2.roots && (CanMap(m2, p, va / PGSIZE) <==> CanLoad(m, p, va))
  {
    hide At, ShapeOf, HasPages, Missing;
    var d := Declared(m1, f);
    DeclaredSame(m1, f);
    TakenCanMap(m, m1, p, va / PGSIZE);
    ShapeSame(m1, d, p);
    ShapeSame(d, m2, p);
    SameUserAt(m1, d, p, va / PGSIZE);
    SameUserAt(d, m2, p, va / PGSIZE);
  }

  lemma DeclaredSame(m: M, f: Frame)
    ensures SameUser(m, Declared(m, f)) && SameShapes(m, Declared(m, f))
  {
  }

  lemma LoadShares(m: M, m1: M, m2: M, m3: M, f: Frame)
    requires Kept(m, m1, NO_PAGE) && Kept(Declared(m1, f), m2, f) && Kept(m2, m3, NO_PAGE) && 0 !in m.use
    requires 0 !in m2.use
    requires f in m1.use && m1.use[f] == Kernel
    ensures SharedStay(m, m3)
  {
    hide Kept, SharedStay;
    var d := Declared(m1, f);
    KeptShared(m, m1, NO_PAGE);
    assert SharedStay(m, d) by { SharedDeclared(m, m1, f); }
    KeptShared(d, m2, f);
    KeptShared(m2, m3, NO_PAGE);
    SharedTrans(m, d, m2);
    SharedTrans(m, m2, m3);
  }

  lemma LoadKeeps(m: M, m1: M, m2: M, m3: M, f: Frame)
    requires Kept(m, m1, NO_PAGE) && Kept(Declared(m1, f), m2, f) && Kept(m2, m3, NO_PAGE)
    requires f in m.use ==> !InHands(m.use[f])
    ensures Kept(Declared(m, f), m3, NO_PAGE)
  {
    var d, d1 := Declared(m, f), Declared(m1, f);
    assert Kept(d, d1, NO_PAGE);
    TakenKept(d, d1, m2, f);
    KeptTrans(d, m2, m3, NO_PAGE);
  }

  lemma LoadMaps(m: M, m1: M, m2: M, m3: M, p: nat, v: nat, e: Word, f: Frame)
    requires SameUser(m, m1) && SameUser(Declared(m1, f), m2) && OneChanged(m2, m3, p, v, e)
    ensures OneChanged(m, m3, p, v, e)
  {
    hide At;
    var d := Declared(m1, f);
    DeclaredSame(m1, f);
    forall q, w: nat | q in m.roots && w < MAXVPN ensures At(m2, q, w) == At(m, q, w) {
      assert At(m2, q, w) == At(d, q, w) == At(m1, q, w) == At(m, q, w);
    }
  }

  lemma SharedDeclared(m: M, m1: M, f: Frame)
    requires SharedStay(m, m1)
    ensures SharedStay(m, Declared(m1, f))
  {
    var d := Declared(m1, f);
    forall g | g in m.use && m.use[g] == Shared
      ensures g in d.use && d.use[g] == Shared && g in m.mem && g in d.mem && d.mem[g] == m.mem[g]
    {
      assert m.use[g] == m1.use[g];
    }
  }

  // A page in the kernel's hands gets its contents and is from now on meant to be shared.
  method SharePage(mmu: Mmu, f: Frame, page: Page)
    requires Ok(mmu) && f in mmu.use && mmu.use[f] == Kernel
    modifies mmu
    ensures Ok(mmu) && mmu.roots == old(mmu.roots) && mmu.shared == old(mmu.shared) + {f} && mmu.free == old(mmu.free)
    ensures var d := Declared(old(mmu.S()), f); SameMaps(d, mmu.S()) && Kept(d, mmu.S(), f) && SameShapes(d, mmu.S())
    ensures f in mmu.use && mmu.use[f] == Shared && f in mmu.mem && mmu.mem[f] == page
  {
    hide PagesOk, At, SameShapes;
    ghost var d := Declared(mmu.S(), f);
    DeclaredOk(mmu.S(), f);
    NowShared(d, f, page);
    mmu.shared := mmu.shared + {f};
    mmu.mem := mmu.mem[f := page];
    mmu.use := mmu.use[f := Shared];
    assert mmu.S() == Rewritten(d, f, page, Shared);
  }

  // f joins the pages that may be shared.
  ghost function Declared(m: M, f: Frame): M { m.(shared := m.shared + {f}) }

  lemma DeclaredOk(m: M, f: Frame)
    requires PagesOk(m) && MapsOk(m)
    ensures PagesOk(Declared(m, f)) && MapsOk(Declared(m, f))
  {
    hide PagesOk, Entry, Ppn, V;
    DeclaredPages(m, f);
    var d := Declared(m, f);
    forall p, v: nat | p in d.roots && v < MAXVPN && At(d, p, v) != 0 ensures Owned(d, p, v, At(d, p, v)) {
      assert At(d, p, v) == At(m, p, v);
      assert Owned(m, p, v, At(m, p, v));
    }
  }

  lemma DeclaredPages(m: M, f: Frame)
    requires PagesOk(m)
    ensures PagesOk(Declared(m, f))
  {
    hide FreeOk, TablesOk;
    DeclaredFree(m, f);
    DeclaredTables(m, f);
  }

  lemma DeclaredFree(m: M, f: Frame)
    requires FreeOk(m)
    ensures FreeOk(Declared(m, f))
  {
  }

  lemma DeclaredTables(m: M, f: Frame)
    requires TablesOk(m)
    ensures TablesOk(Declared(m, f))
  {
    hide TableOk;
    var d := Declared(m, f);
    forall g | g in d.use && d.use[g].Table? ensures g in d.mem && TableOk(d, g) {
      assert m.use[g].Table?;
      DeclaredTable(m, f, g);
    }
  }

  lemma DeclaredTable(m: M, f: Frame, g: Frame)
    requires g in m.use && m.use[g].Table? && g in m.mem && TableOk(m, g)
    ensures TableOk(Declared(m, f), g)
  {
    hide Flags, Ppn, V;
  }

  lemma DeclaredProcs(m: M, f: Frame, procs: map<nat, Proc>, clean: set<nat>)
    requires ProcsOk(m, procs, clean)
    ensures ProcsOk(Declared(m, f), procs, clean)
  {
    hide HeapOk, CodeOk;
    var d := Declared(m, f);
    forall p | p in procs ensures CodeOk(d, p, procs[p].regions) { DeclaredCode(m, f, p, procs[p].regions); }
    forall p | p in clean ensures HeapOk(d, p, procs[p].heap) { DeclaredHeap(m, f, p, procs[p].heap); }
  }

  lemma DeclaredCode(m: M, f: Frame, p: nat, rs: seq<Region>)
    requires p in m.roots && CodeOk(m, p, rs)
    ensures CodeOk(Declared(m, f), p, rs)
  {
    var d := Declared(m, f);
    forall v: nat | InArena(v) && At(d, p, v) != 0 ensures PrivateAt(d, p, v) { assert At(d, p, v) == At(m, p, v); }
    forall j | 4 <= j < |rs| && rs[j].kind == CODE ensures SharedAt(d, p, rs[j].va / PGSIZE) {
      assert SharedAt(m, p, rs[j].va / PGSIZE);
    }
  }

  lemma DeclaredHeap(m: M, f: Frame, p: nat, h: Heap)
    requires HeapOk(m, p, h)
    ensures HeapOk(Declared(m, f), p, h)
  {
    var d := Declared(m, f);
    forall v: nat | HEAP_VPN <= v < ARENA_END
      ensures if v * PGSIZE < h.top && v * PGSIZE !in h.freed then HeapPage(d, p, v) else At(d, p, v) == 0
    {
      assert At(d, p, v) == At(m, p, v);
    }
  }

  lemma NowShared(m: M, f: Frame, page: Page)
    requires PagesOk(m) && MapsOk(m) && f in m.use && m.use[f] == Kernel
    ensures var m' := Rewritten(m, f, page, Shared);
            PagesOk(m') && SameMaps(m, m') && Kept(m, m', f) && MapsOk(m') && SameShapes(m, m')
  {
    hide FreeOk, TablesOk, At, SameShapes, W;
    RewrittenOk(m, f, page, Shared);
    FilledShapes(m, f, page);
    SharedShapes(m, f, page);
    InMemory(m);
    var m' := Rewritten(m, f, page, Shared);
    forall p, v: nat | p in m'.roots && v < MAXVPN && At(m', p, v) != 0 ensures Owned(m', p, v, At(m', p, v)) {
      assert At(m', p, v) == At(m, p, v);
      assert Owned(m, p, v, At(m, p, v));
    }
  }

  lemma SharedShapes(m: M, f: Frame, page: Page)
    requires f in m.use && SameShapes(m, Rewritten(m, f, page, m.use[f]))
    ensures SameShapes(m, Rewritten(m, f, page, Shared))
  {
    var a, b := Rewritten(m, f, page, m.use[f]), Rewritten(m, f, page, Shared);
    forall p | p in m.roots ensures ShapeOf(b, p) == ShapeOf(m, p) {
      assert ShapeOf(a, p) == ShapeOf(m, p);
    }
  }

  lemma MoreCode(m: M, procs: map<nat, Proc>, clean: set<nat>, p: nat, va: Word, proc: Proc)
    requires ProcsOk(m, procs, clean) && p in procs && p in m.roots && SharedAt(m, p, va / PGSIZE)
    requires va % PGSIZE == 0 && va < MAXVA && !InArena(va / PGSIZE)
    requires proc == procs[p].(regions := procs[p].regions + [Region(va, 1, CODE)])
    ensures ProcsOk(m, procs[p := proc], clean)
  {
    hide HeapOk, At;
    var rs := procs[p].regions;
    assert CodeOk(m, p, rs);
    forall j | 4 <= j < |proc.regions| && proc.regions[j].kind == CODE
      ensures SharedAt(m, p, proc.regions[j].va / PGSIZE)
    {
      if j < |rs| { assert proc.regions[j] == rs[j]; }
    }
  }

  // ---------------------------------------------------------------------
  // One call
  // ---------------------------------------------------------------------

  datatype Snapshot = Snapshot(m: M, procs: map<nat, Proc>, clean: set<nat>)

  ghost function Snap(ps: Procs): Snapshot
    reads ps, ps.mmu
  {
    Snapshot(ps.mmu.S(), ps.procs, ps.clean)
  }

  // The call comes to its end: it neither panics nor leaves what the code provides for.
  ghost predicate Succeeds(op: Op, s: Snapshot, vector: Frame) {
    match op
    case New(p) => p !in s.procs && CanAllocProcess(s.m, vector)
    case LoadCode(p, va, _) => p in s.procs && p in s.m.roots && va % PGSIZE == 0 && !InArena(va / PGSIZE) &&
      CanLoad(s.m, p, va)
    case Allocate(p) => p in s.procs && p in s.m.roots && AllocateOutcome(s.m, p, s.procs[p].heap) == Fine
    case Free(p, va) => p in s.procs && va < MAXVA && InArena(va / PGSIZE) && |s.procs[p].heap.freed| < MAX_HEAP_PAGES
    case Fault(p, stval) =>
      p in s.procs && p in s.m.roots && stval < MAXVA && At(s.m, p, stval / PGSIZE) == 0 &&
      HasPages(s.m, p, stval / PGSIZE)
    case Store(p, va, _) => p in s.procs && va < MAXVA && va % 8 == 0
    case Fork(parent, child, junk) =>
      parent in s.procs && parent in s.m.roots && child !in s.procs && |junk| == MAX_HEAP_PAGES &&
      CanFork(s.m, parent, s.procs[parent], vector, junk)
  }

  // What a call that comes to its end does, to the processes and to memory; va is what it
  // returns.
  ghost predicate Effect(op: Op, s: Snapshot, s': Snapshot, va: int, vector: Frame) {
    && SharedStay(s.m, s'.m) && SharedGrows(op, s.m, s'.m)
    && match op
       case New(p) => Creates(s, s', p, vector)
       case LoadCode(p, at, page) => p in s.procs && Loads(s, s', p, at, page)
       case Allocate(p) => p in s.procs && Allocates(s, s', p, va)
       case Free(p, at) => p in s.procs && Frees(s, s', p, at)
       case Fault(p, stval) => FaultsIn(s, s', p, stval)
       case Store(p, at, w) => Stores(s, s', p, at, w)
       case Fork(parent, child, junk) =>
         && parent in s.procs && |junk| == MAX_HEAP_PAGES
         && Forks(s.m, s.procs, s.clean, s'.m, s'.procs, s'.clean, parent, child, junk)
  }

  // A new process, whose address space is the stack page, the trap frame and the vector.
  ghost predicate Creates(s: Snapshot, s': Snapshot, p: nat, vector: Frame) {
    && p !in s.procs && p in s'.procs && s'.procs == s.procs[p := s'.procs[p]] && s'.procs[p].heap == EMPTY_HEAP
    && s'.clean == s.clean + {p} && Beyond(s.m, s'.m, p) && p in s'.m.roots
    && IsFresh(s'.m, p, s'.procs[p].trapframe, vector)
  }

  ghost predicate IsFresh(m: M, p: nat, tf: Frame, vector: Frame)
    requires p in m.roots
  {
    && tf < 0x8_8000 && vector < 0x8_8000 && tf in m.mem && m.mem[tf][..FRAME_WORDS] == BlankFrame()
    && exists stack: Frame {:trigger m.use[stack]} ::
         stack < 0x8_8000 && stack in m.use && m.use[stack] == Private(p, STACK_VPN) &&
         FreshSpace(m, p, stack, tf, vector) && FreshUse(m, p, stack)
  }

  // One page more in one address space, and nothing else mapped differently.
  ghost predicate MapsOne(m: M, m': M, p: nat, v: nat) {
    && p in m.roots && p in m'.roots && v < MAXVPN && At(m, p, v) == 0 && At(m', p, v) != 0
    && OneChanged(m, m', p, v, At(m', p, v))
  }

  ghost predicate Loads(s: Snapshot, s': Snapshot, p: nat, at: Word, page: Page)
    requires p in s.procs
  {
    && s'.procs == s.procs[p := s.procs[p].(regions := s.procs[p].regions + [Region(at, 1, CODE)])]
    && s'.clean == s.clean
    && MapsOne(s.m, s'.m, p, at / PGSIZE) && SharedAt(s'.m, p, at / PGSIZE)
    && var f := Ppn(At(s'.m, p, at / PGSIZE));
       f in s'.m.mem && s'.m.mem[f] == page && Kept(Declared(s.m, f), s'.m, NO_PAGE) &&
       CodePage(s'.m, p, at / PGSIZE, f)
  }

  // The page is no longer mapped, and free; or it was not mapped, and nothing happens.  Every
  // access to it faults.
  ghost predicate Frees(s: Snapshot, s': Snapshot, p: nat, at: Word)
    requires p in s.procs
  {
    && s'.procs == s.procs[p := s.procs[p].(heap := Reclaimed(s.procs[p].heap, at))]
    && s'.clean == (if Live(s.procs[p].heap, at) then s.clean else s.clean - {p})
    && p in s.m.roots && at < MAXVA && p in s'.m.roots && NoAccess(s'.m, p, at / PGSIZE)
    && var e := At(s.m, p, at / PGSIZE);
       if e == 0 then s'.m == s.m
       else PrivateAt(s.m, p, at / PGSIZE) && Kept(s.m, s'.m, Ppn(e)) && OneChanged(s.m, s'.m, p, at / PGSIZE, 0) &&
            s'.m.free == s.m.free + [Ppn(e)]
  }

  ghost predicate FaultsIn(s: Snapshot, s': Snapshot, p: nat, stval: Word) {
    && s'.procs == s.procs && s'.clean == (if InArena(stval / PGSIZE) then s.clean - {p} else s.clean)
    && MapsOne(s.m, s'.m, p, stval / PGSIZE) && PrivateAt(s'.m, p, stval / PGSIZE) && Kept(s.m, s'.m, NO_PAGE)
    && DataPage(s'.m, p, stval / PGSIZE, Ppn(At(s'.m, p, stval / PGSIZE)))
  }

  // One word of a page of the process's own changes, or nothing when the hardware faults.
  ghost predicate Stores(s: Snapshot, s': Snapshot, p: nat, at: Word, w: Word) {
    && s'.procs == s.procs && s'.clean == s.clean && p in s.m.roots && at < MAXVA && SameUser(s.m, s'.m)
    && (if HwTranslate(s.m.mem, s.m.roots[p], at, Access.Store).Translated? then
          && PrivateAt(s.m, p, at / PGSIZE) && Ppn(At(s.m, p, at / PGSIZE)) in s.m.mem
          && s'.m == WithWord(s.m, Ppn(At(s.m, p, at / PGSIZE)), at % PGSIZE / 8, w)
        else s'.m == s.m)
  }

  ghost predicate Allocates(s: Snapshot, s': Snapshot, p: nat, va: int)
    requires p in s.procs
  {
    && p in s.m.roots && p in s'.m.roots && va == NextPage(s.procs[p].heap) && 0 <= va < MAXVA && s'.clean == s.clean
    && p in s'.procs && s'.procs == s.procs[p := s'.procs[p]] && s'.procs[p].heap == Allocated(s.procs[p].heap)
    && HeapCounted(s.procs[p], s'.procs[p])
    && MapsOne(s.m, s'.m, p, va / PGSIZE) && PrivateAt(s'.m, p, va / PGSIZE) && Kept(s.m, s'.m, NO_PAGE)
    && DataPage(s'.m, p, va / PGSIZE, Ppn(At(s'.m, p, va / PGSIZE)))
  }

  /** One call, by its exact condition and effect. */
  method Execute(ps: Procs, op: Op) returns (o: Outcome, va: int)
    requires ps.Valid()
    modifies ps, ps.mmu
    ensures o.Fine? <==> Succeeds(op, old(Snap(ps)), ps.trapPage)
    ensures o.Fine? ==> ps.Valid() && Effect(op, old(Snap(ps)), Snap(ps), va, ps.trapPage)
  {
    hide Ok, ProcsOk, Succeeds, Effect;
    match op
    case New(_) => o, va := ExecuteNew(ps, op);
    case Fork(_, _, _) => o, va := ExecuteNew(ps, op);
    case LoadCode(_, _, _) => o, va := ExecuteMap(ps, op);
    case Allocate(_) => o, va := ExecuteMap(ps, op);
    case Fault(_, _) => o, va := ExecuteMap(ps, op);
    case Free(_, _) => o, va := ExecuteOwn(ps, op);
    case Store(_, _, _) => o, va := ExecuteOwn(ps, op);
  }

  // ... the calls that make a process,
  method ExecuteNew(ps: Procs, op: Op) returns (o: Outcome, va: int)
    requires ps.Valid() && (op.New? || op.Fork?)
    modifies ps, ps.mmu
    ensures o.Fine? <==> Succeeds(op, old(Snap(ps)), ps.trapPage)
    ensures o.Fine? ==> ps.Valid() && Effect(op, old(Snap(ps)), Snap(ps), va, ps.trapPage)
  {
    hide Ok, ProcsOk, At, Beyond, ForkState, CanFork, CanAllocProcess, SharedStay, SpaceBuilt, FreshSpace, HeapOk,
      FilterOf, BlankFrame, ForkIsWhole;
    va := 0;
    ghost var m := ps.mmu.S();
    KeptSelfOf(ps.mmu);
    match op
    case New(p) =>
      if p in ps.procs { return OutOfScope, 0; }
      Unused(m, ps.procs, ps.clean, p);
      var stack;
      o, stack := AllocProcess(ps, p);
      if o.Fine? {
        BeyondSame(m, ps.mmu.S(), p);
        assert ps.mmu.use[stack] == Private(p, STACK_VPN);
      }
    case Fork(parent, child, junk) =>
      if parent !in ps.procs || child in ps.procs || |junk| != MAX_HEAP_PAGES { return OutOfScope, 0; }
      DirOf(m, ps.procs, ps.clean, parent);
      Unused(m, ps.procs, ps.clean, child);
      ghost var par := ps.procs[parent];
      o := DoFork(ps, parent, child, junk);
      if o.Fine? { ForkSame(m, ps.mmu.S(), parent, child, par, FilterOf(par.heap, junk)); }
  }

  // ... the calls that map a page,
  method ExecuteMap(ps: Procs, op: Op) returns (o: Outcome, va: int)
    requires ps.Valid() && (op.LoadCode? || op.Allocate? || op.Fault?)
    modifies ps, ps.mmu
    ensures o.Fine? <==> Succeeds(op, old(Snap(ps)), ps.trapPage)
    ensures o.Fine? ==> ps.Valid() && Effect(op, old(Snap(ps)), Snap(ps), va, ps.trapPage)
  {
    hide Ok, ProcsOk, At, AllocateOutcome, HasPages, SharedStay, HeapOk, OneChanged, Kept;
    va := 0;
    ghost var m := ps.mmu.S();
    if op.p !in ps.procs { return OutOfScope, 0; }
    DirOf(m, ps.procs, ps.clean, op.p);
    match op
    case LoadCode(p, at, page) =>
      o := LoadCodePage(ps, p, at, page);
    case Allocate(p) =>
      o, va := ps.SysUserAllocatePage(p);
    case Fault(p, stval) =>
      o := ps.StorePageFault(p, stval);
      if o.Fine? { OneRoots(m, ps.mmu.S(), p, stval / PGSIZE, At(ps.mmu.S(), p, stval / PGSIZE)); }
  }

  // ... and the others.
  method ExecuteOwn(ps: Procs, op: Op) returns (o: Outcome, va: int)
    requires ps.Valid() && (op.Free? || op.Store?)
    modifies ps, ps.mmu
    ensures o.Fine? <==> Succeeds(op, old(Snap(ps)), ps.trapPage)
    ensures o.Fine? ==> ps.Valid() && Effect(op, old(Snap(ps)), Snap(ps), va, ps.trapPage)
  {
    hide Ok, ProcsOk, At, SharedStay, HeapOk, OneChanged, SameUser, Kept, HwTranslate;
    va := 0;
    ghost var m := ps.mmu.S();
    if op.p !in ps.procs { return OutOfScope, 0; }
    DirOf(m, ps.procs, ps.clean, op.p);
    match op
    case Free(p, at) =>
      o := ps.SysUserFreePage(p, at);
    case Store(p, at, w) =>
      if at >= MAXVA || at % 8 != 0 { return OutOfScope, 0; }
      var ok := ps.UserStore(p, at, w);
      UserRoots(m, ps.mmu.S());
      o := Fine;
  }

  lemma OneRoots(m: M, m': M, p: nat, v: nat, e: Word)
    requires OneChanged(m, m', p, v, e)
    ensures m'.roots == m.roots
  {
  }

  lemma UserRoots(m: M, m': M)
    requires SameUser(m, m')
    ensures m'.roots == m.roots
  {
  }

  // Only the loading of code makes a page that may be mapped in several places.
  ghost predicate SharedGrows(op: Op, m: M, m': M) {
    if op.LoadCode? then
      op.p in m'.roots && op.va / PGSIZE < MAXVPN && m'.shared == m.shared + {Ppn(At(m', op.p, op.va / PGSIZE))}
    else m'.shared == m.shared
  }

  lemma BeyondSame(m: M, m': M, p: nat)
    requires Beyond(m, m', p) && 0 !in m.use
    ensures m'.shared == m.shared && SharedStay(m, m')
  {
    hide At;
    KeptShared(m, m', NO_PAGE);
  }

  lemma ForkSame(m: M, m': M, parent: nat, child: nat, par: Proc, filter: seq<int>)
    requires 0 <= HeapPages(par.heap) <= |filter| && Forked(m, m', parent, child, par, filter) && 0 !in m.use
    ensures m'.shared == m.shared && SharedStay(m, m')
  {
    hide Beyond, CopiedAt, HeapCopied, ArenaAbove, SharedWith, SharedStay;
    BeyondSame(m, m', child);
  }

  lemma Unused(m: M, procs: map<nat, Proc>, clean: set<nat>, p: nat)
    requires ProcsOk(m, procs, clean) && p !in procs
    ensures p !in m.roots
  {
    hide HeapOk, CodeOk;
  }

  // ---------------------------------------------------------------------
  // Runs
  // ---------------------------------------------------------------------

  // What holds in every state.
  ghost predicate StateOk(s: Snapshot) {
    && PagesOk(s.m) && MapsOk(s.m) && PagesApart(s.m)
    && ProcsOk(s.m, s.procs, s.clean) && Ranged(s.m, DRAM_BASE, DRAM_BASE + MAX_RAM)
  }

  // The states of a run: the calls in order, each with its effect, up to the end or to the
  // first call that cannot be done.
  ghost predicate IsRun(ops: seq<Op>, states: seq<Snapshot>, vas: seq<int>, vector: Frame) {
    && 0 < |states| <= |ops| + 1 && |vas| == |states| - 1
    && (forall k {:trigger states[k]} :: 0 <= k < |states| ==> StateOk(states[k]))
    && (forall k {:trigger ops[k]} :: 0 <= k < |states| - 1 ==>
          Succeeds(ops[k], states[k], vector) && Effect(ops[k], states[k], states[k + 1], vas[k], vector))
    && (|states| <= |ops| ==> !Succeeds(ops[|states| - 1], states[|states| - 1], vector))
  }

  // ... so far.
  ghost predicate RunSoFar(ops: seq<Op>, states: seq<Snapshot>, vas: seq<int>, vector: Frame, n: nat) {
    && |states| == n + 1 <= |ops| + 1 && |vas| == n
    && (forall k {:trigger states[k]} :: 0 <= k <= n ==> StateOk(states[k]))
    && (forall k {:trigger ops[k]} :: 0 <= k < n ==>
          Succeeds(ops[k], states[k], vector) && Effect(ops[k], states[k], states[k + 1], vas[k], vector))
  }

  /** Any sequence of memory calls by any processes: at every point pages are apart and each
      clean process's heap is split exactly into its mapped and its reclaimed pages; the run
      ends early only at a call whose condition does not hold. */
  method Run(ps: Procs, ops: seq<Op>) returns (o: Outcome, vas: seq<int>, ghost states: seq<Snapshot>)
    requires ps.Valid()
    modifies ps, ps.mmu
    ensures IsRun(ops, states, vas, ps.trapPage) && states[0] == old(Snap(ps))
    ensures o.Fine? <==> |states| == |ops| + 1
    ensures o.Fine? ==> ps.Valid() && states[|ops|] == Snap(ps)
  {
    hide Ok, ProcsOk, PagesApart, Succeeds, Effect, RunSoFar, IsRun, Snap, StateOk;
    GoodState(ps);
    states, vas, o := [Snap(ps)], [], Fine;
    FirstStep(ops, states, ps.trapPage);
    var n := 0;
    while n < |ops|
      invariant 0 <= n <= |ops| && |states| == n + 1 && ps.Valid() && states[n] == Snap(ps)
      invariant states[0] == old(Snap(ps))
      invariant RunSoFar(ops, states, vas, ps.trapPage, n)
    {
      var va;
      o, va := Execute(ps, ops[n]);
      if o != Fine { StopsHere(ops, states, vas, ps.trapPage, n); return; }
      GoodState(ps);
      OneMoreStep(ops, states, vas, ps.trapPage, n, Snap(ps), va);
      states, vas := states + [Snap(ps)], vas + [va];
      n := n + 1;
    }
    o := Fine;
    WholeRun(ops, states, vas, ps.trapPage);
  }

  lemma GoodState(ps: Procs)
    requires ps.Valid()
    ensures StateOk(Snap(ps))
  {
    hide PagesOk, MapsOk, PagesApart, ProcsOk;
    Disjoint(ps.mmu.S(), ps.mmu.start, ps.mmu.end);
    assert Ranged(ps.mmu.S(), DRAM_BASE, DRAM_BASE + MAX_RAM);
  }

  lemma FirstStep(ops: seq<Op>, states: seq<Snapshot>, vector: Frame)
    requires |states| == 1 && StateOk(states[0])
    ensures RunSoFar(ops, states, [], vector, 0)
  {
  }

  lemma OneMoreStep(ops: seq<Op>, states: seq<Snapshot>, vas: seq<int>, vector: Frame, n: nat, s: Snapshot, va: int)
    requires RunSoFar(ops, states, vas, vector, n) && n < |ops| && StateOk(s)
    requires Succeeds(ops[n], states[n], vector) && Effect(ops[n], states[n], s, va, vector)
    ensures RunSoFar(ops, states + [s], vas + [va], vector, n + 1)
  {
    hide StateOk, Succeeds, Effect;
    var states', vas' := states + [s], vas + [va];
    forall k | 0 <= k < n + 1
      ensures Succeeds(ops[k], states'[k], vector) && Effect(ops[k], states'[k], states'[k + 1], vas'[k], vector)
    {
      assert states'[k] == states[k];
      if k < n { assert states'[k + 1] == states[k + 1] && vas'[k] == vas[k]; }
    }
    forall k | 0 <= k <= n + 1 ensures StateOk(states'[k]) { if k <= n { assert states'[k] == states[k]; } }
  }

  lemma StopsHere(ops: seq<Op>, states: seq<Snapshot>, vas: seq<int>, vector: Frame, n: nat)
    requires RunSoFar(ops, states, vas, vector, n) && n < |ops| && !Succeeds(ops[n], states[n], vector)
    ensures IsRun(ops, states, vas, vector)
  {
    hide StateOk, Succeeds, Effect;
  }

  lemma WholeRun(ops: seq<Op>, states: seq<Snapshot>, vas: seq<int>, vector: Frame)
    requires RunSoFar(ops, states, vas, vector, |ops|)
    ensures IsRun(ops, states, vas, vector)
  {
    hide StateOk, Succeeds, Effect;
  }

  // ---------------------------------------------------------------------
  // The heap over a run
  // ---------------------------------------------------------------------

  // The call is one that a process may make, or suffer, and keep its heap in order: it
  // gives back live pages only, and no page of its heap area faults in.
  predicate Careful(op: Op, s: Snapshot, p: nat) {
    match op
    case Free(q, va) => q == p ==> p in s.procs && Live(s.procs[p].heap, va)
    case Fault(q, stval) => q == p ==> !InArena(stval / PGSIZE)
    case _ => true
  }

  ghost predicate CarefulRun(ops: seq<Op>, states: seq<Snapshot>, p: nat, i: nat) {
    forall k {:trigger ops[k]} {:trigger states[k]} :: i <= k < |ops| && k < |states| ==> Careful(ops[k], states[k], p)
  }

  lemma StaysClean(op: Op, s: Snapshot, s': Snapshot, va: int, vector: Frame, p: nat)
    requires p in s.clean && Careful(op, s, p) && Effect(op, s, s', va, vector)
    ensures p in s'.clean
  {
    hide SharedStay, SharedGrows, Allocates;
    if op.Allocate? { AllocatesClean(s, s', op.p, va); }
  }

  lemma AllocatesClean(s: Snapshot, s': Snapshot, p: nat, va: int)
    requires p in s.procs && Allocates(s, s', p, va)
    ensures s'.clean == s.clean
  {
    hide At;
  }

  /** Over every run in which p, once clean, is careful: its heap is at every later point
      split exactly into mapped and reclaimed pages. */
  lemma {:induction false} HeapStaysSplit(ops: seq<Op>, states: seq<Snapshot>, vas: seq<int>, vector: Frame, p: nat,
                                          i: nat, k: nat)
    requires IsRun(ops, states, vas, vector) && i <= k < |states| && p in states[i].clean
    requires CarefulRun(ops, states, p, i)
    ensures p in states[k].clean && p in states[k].procs && HeapOk(states[k].m, p, states[k].procs[p].heap)
    decreases k - i
  {
    hide HeapOk, PagesOk, MapsOk, PagesApart, Succeeds, Effect, Careful, ProcsOk;
    if i < k {
      HeapStaysSplit(ops, states, vas, vector, p, i, k - 1);
      assert Careful(ops[k - 1], states[k - 1], p);
      StaysClean(ops[k - 1], states[k - 1], states[k], vas[k - 1], vector, p);
    }
    assert StateOk(states[k]);
    HeapStill(states[k].m, states[k].procs, states[k].clean, p);
  }

  /** ... every address that an allocation returns was not live and not mapped, and is live
      then; and an allocation is refused only for lack of pages. */
  lemma AllocationsAreNew(ops: seq<Op>, states: seq<Snapshot>, vas: seq<int>, vector: Frame, p: nat, i: nat, k: nat)
    requires IsRun(ops, states, vas, vector) && i <= k < |states| && p in states[i].clean
    requires CarefulRun(ops, states, p, i)
    requires k < |ops| && ops[k] == Allocate(p)
    ensures p in states[k].procs && p in states[k].m.roots
    ensures k < |states| - 1 ==>
      && p in states[k + 1].procs && 0 <= vas[k] < MAXVA && !Live(states[k].procs[p].heap, vas[k])
      && At(states[k].m, p, vas[k] / PGSIZE) == 0
      && Live(states[k + 1].procs[p].heap, vas[k]) && p in states[k + 1].m.roots
      && PrivateAt(states[k + 1].m, p, vas[k] / PGSIZE)
    ensures k == |states| - 1 ==>
      NextPage(states[k].procs[p].heap) >= 0 && !HasPages(states[k].m, p, NextPage(states[k].procs[p].heap) / PGSIZE)
  {
    hide HeapOk, PagesOk, MapsOk, PagesApart, At, HeapShape, Succeeds, Effect, ProcsOk;
    HeapStaysSplit(ops, states, vas, vector, p, i, k);
    var s := states[k];
    HeapPoint(s.m, p, s.procs[p].heap);
    NextIsNew(s.procs[p].heap);
    if k < |states| - 1 {
      assert Effect(ops[k], s, states[k + 1], vas[k], vector);
      AllocateEffect(s, states[k + 1], p, vas[k], vector);
    } else {
      RefusedForPages(s, p, vector);
    }
  }

  lemma NextIsNew(h: Heap)
    requires HeapShape(h)
    ensures !Live(h, NextPage(h)) && Live(Allocated(h), NextPage(h))
  {
    if |h.freed| > 0 {
      var n := |h.freed| - 1;
      assert h.freed[n] in h.freed && h.bottom <= h.freed[n] < h.top;
      forall i | 0 <= i < n ensures h.freed[..n][i] != h.freed[n] {}
    }
  }

  lemma AllocateEffect(s: Snapshot, s': Snapshot, p: nat, va: int, vector: Frame)
    requires Effect(Allocate(p), s, s', va, vector)
    ensures p in s.procs && Allocates(s, s', p, va)
  {
  }

  lemma RefusedForPages(s: Snapshot, p: nat, vector: Frame)
    requires StateOk(s) && p in s.procs && p in s.clean && p in s.m.roots && !Succeeds(Allocate(p), s, vector)
    ensures NextPage(s.procs[p].heap) >= 0 && !HasPages(s.m, p, NextPage(s.procs[p].heap) / PGSIZE)
  {
    hide PagesOk, MapsOk, PagesApart, At, HeapShape, HasPages, HeapOk, CodeOk, DirsOk;
    HeapStill(s.m, s.procs, s.clean, p);
    NextPageFree(s.m, p, s.procs[p].heap, DRAM_BASE, DRAM_BASE + MAX_RAM);
    if s.m.free == [] { NoPages(s.m, p); }
  }

  /** ... and every address in a live page can be loaded from and stored to, in a page of the
      process's own. */
  lemma LiveIsUsable(ops: seq<Op>, states: seq<Snapshot>, vas: seq<int>, vector: Frame, p: nat, i: nat, k: nat, a: Word)
    requires IsRun(ops, states, vas, vector) && i <= k < |states| && p in states[i].clean
    requires CarefulRun(ops, states, p, i)
    requires p in states[k].procs && Live(states[k].procs[p].heap, a / PGSIZE * PGSIZE)
    ensures p in states[k].m.roots && PrivateAt(states[k].m, p, a / PGSIZE)
    ensures var m, f := states[k].m, Ppn(At(states[k].m, p, a / PGSIZE));
            && HwTranslate(m.mem, m.roots[p], a, Load) == Translated(f * PGSIZE + a % PGSIZE)
            && HwTranslate(m.mem, m.roots[p], a, Access.Store) == Translated(f * PGSIZE + a % PGSIZE)
  {
    hide HeapOk, PagesOk, MapsOk, PagesApart, At, Succeeds, Effect, ProcsOk, HwTranslate, Ranged, CarefulRun;
    HeapStaysSplit(ops, states, vas, vector, p, i, k);
    var s := states[k];
    assert StateOk(s);
    LivePage(s.m, p, s.procs[p].heap, a / PGSIZE);
    EntryUse(s.m, p, a / PGSIZE);
  }

  lemma LivePage(m: M, p: nat, h: Heap, v: nat)
    requires HeapOk(m, p, h) && Live(h, v * PGSIZE)
    ensures v < MAXVPN && p in m.roots && HeapPage(m, p, v)
  {
    hide At, ForData;
    assert InArena(v);
    assert HeapPage(m, p, v) by { assert At(m, p, v) == At(m, p, v); }
  }

  /** An allocation gives out the page that was given back last, or else the one at the top of
      the heap, which grows by a page. */
  lemma AllocationOrder(ops: seq<Op>, states: seq<Snapshot>, vas: seq<int>, vector: Frame, p: nat, k: nat)
    requires IsRun(ops, states, vas, vector) && k < |states| - 1 && ops[k] == Allocate(p)
    ensures p in states[k].procs && p in states[k + 1].procs
    ensures var h, h' := states[k].procs[p].heap, states[k + 1].procs[p].heap;
            h'.bottom == h.bottom && if h.freed == [] then vas[k] == h.top && h' == h.(top := h.top + PGSIZE)
                                     else h.freed == h'.freed + [vas[k]] && h'.top == h.top
    ensures k > 0 && ops[k - 1].Free? && ops[k - 1].p == p ==>
      vas[k] == ops[k - 1].va && p in states[k - 1].procs && states[k + 1].procs[p].heap == states[k - 1].procs[p].heap
  {
    hide StateOk, Succeeds, SharedStay, SharedGrows, MapsOne, DataPage, PrivateAt, Kept, OneChanged, Live;
    assert Effect(ops[k], states[k], states[k + 1], vas[k], vector);
    if k > 0 { assert Effect(ops[k - 1], states[k - 1], states[k - 1 + 1], vas[k - 1], vector); }
  }

  /** The child of a careful process has its heap in order, so that all this goes for it too,
      exactly if fork's filter skipped no live page. */
  lemma ForkedChildSplit(ops: seq<Op>, states: seq<Snapshot>, vas: seq<int>, vector: Frame, p: nat, i: nat, k: nat)
    requires IsRun(ops, states, vas, vector) && i <= k < |states| - 1 && p in states[i].clean
    requires CarefulRun(ops, states, p, i)
    requires ops[k].Fork? && ops[k].parent == p
    ensures p in states[k].procs && |ops[k].junk| == MAX_HEAP_PAGES
    ensures 0 <= HeapPages(states[k].procs[p].heap) <= MAX_HEAP_PAGES
    ensures ops[k].child in states[k + 1].clean <==>
            ForkIsWhole(states[k].procs[p].heap, ops[k].junk)
    ensures LiveAmongFirst(states[k].procs[p].heap) ==> ops[k].child in states[k + 1].clean
  {
    hide HeapOk, PagesOk, MapsOk, PagesApart, HeapShape, Succeeds, Effect, ForkIsWhole, ProcsOk;
    HeapStaysSplit(ops, states, vas, vector, p, i, k);
    var s, h := states[k], states[k].procs[p].heap;
    assert Effect(ops[k], s, states[k + 1], vas[k], vector);
    ForkEffect(s, states[k + 1], ops[k], vas[k], vector);
    assert StateOk(s);
    NotClean(s.m, s.procs, s.clean, ops[k].child);
    HeapPoint(s.m, p, h);
    if LiveAmongFirst(h) { SkipsReclaimed(h, ops[k].junk); }
  }

  // Every live page of the heap is one of the first eight.
  ghost predicate LiveAmongFirst(h: Heap) {
    forall j: nat {:trigger Reclaims(h, |h.freed|, j)} :: CLEARED <= j < HeapPages(h) ==> Reclaims(h, |h.freed|, j)
  }

  lemma SkipsReclaimed(h: Heap, junk: seq<int>)
    requires HeapShape(h) && |junk| == MAX_HEAP_PAGES && 0 <= HeapPages(h) <= MAX_HEAP_PAGES && LiveAmongFirst(h)
    ensures ForkIsWhole(h, junk)
  {
    hide HeapShape, LiveAmongFirst, Reclaims;
    var filter := FilterOf(h, junk);
    forall j: nat | j < HeapPages(h) && filter[j] != 0 ensures (HEAP_VPN + j) * PGSIZE in h.freed {
      ReclaimedFilter(h, filter, junk, j);
      FilteredFirst(h, junk, j);
    }
  }

  lemma FilteredFirst(h: Heap, junk: seq<int>, j: nat)
    requires LiveAmongFirst(h) && |junk| == MAX_HEAP_PAGES && j < HeapPages(h) <= MAX_HEAP_PAGES
    requires FilterAt(h, junk, j) != 0
    ensures Reclaims(h, |h.freed|, j)
  {
  }

  lemma ForkEffect(s: Snapshot, s': Snapshot, op: Op, va: int, vector: Frame)
    requires Effect(op, s, s', va, vector) && op.Fork?
    ensures op.parent in s.procs && op.child !in s.procs && |op.junk| == MAX_HEAP_PAGES
    ensures var h := s.procs[op.parent].heap;
            && 0 <= HeapPages(h) <= MAX_HEAP_PAGES
            && s'.clean == s.clean + (if op.parent in s.clean && ForkIsWhole(h, op.junk) then {op.child} else {})
  {
    hide SharedStay, SharedGrows, Forked, ForkIsWhole, ChildFrame;
  }

  // ---------------------------------------------------------------------
  // Private pages over a run
  // ---------------------------------------------------------------------

  // Page v of p is the page that it was, with the contents that it had.
  ghost predicate SamePage(m: M, m': M, p: nat, v: nat)
    requires p in m.roots
  {
    && p in m'.roots && At(m', p, v) == At(m, p, v) && PrivateAt(m', p, v)
    && var f := Ppn(At(m, p, v)); f in m.mem && f in m'.mem && m'.mem[f] == m.mem[f]
  }

  // The call is one by which a process writes to its page v or gives it back.
  predicate Touches(op: Op, p: nat, v: nat) {
    match op
    case Free(q, va) => q == p && va / PGSIZE == v
    case Store(q, va, _) => q == p && va / PGSIZE == v
    case _ => false
  }

  lemma PageStays(op: Op, s: Snapshot, s': Snapshot, va: int, vector: Frame, p: nat, v: nat)
    requires StateOk(s) && Effect(op, s, s', va, vector) && !Touches(op, p, v)
    requires p in s.m.roots && v < MAXVPN && PrivateAt(s.m, p, v)
    ensures SamePage(s.m, s'.m, p, v)
  {
    hide StateOk, PagesApart, ProcsOk, At, Beyond, OneChanged, Kept, SamePage, SameUser, HwTranslate, SharedStay,
      SharedGrows, IsFresh, SharedAt, ChildFrame, ForkIsWhole, FilterOf, Live, HeapOk;
    PageInMemory(s, p, v);
    match op
    case New(q) => BeyondPage(s.m, s'.m, q, p, v);
    case Fork(_, child, _) => ForkedBeyond(s, s', op, va, vector); BeyondPage(s.m, s'.m, child, p, v);
    case LoadCode(q, at, _) =>
      ElsewherePage(s.m, s'.m, q, at / PGSIZE, p, v);
      LoadedPage(s.m, s'.m, Ppn(At(s'.m, q, at / PGSIZE)), p, v);
    case Allocate(q) =>
      ElsewherePage(s.m, s'.m, q, va / PGSIZE, p, v);
      KeptPage(s.m, s'.m, NO_PAGE, p, v);
    case Fault(q, stval) =>
      ElsewherePage(s.m, s'.m, q, stval / PGSIZE, p, v);
      KeptPage(s.m, s'.m, NO_PAGE, p, v);
    case Free(q, at) => FreedElsewhere(s, s', q, at, p, v);
    case Store(q, at, w) => StoredElsewhere(s, s', q, at, w, p, v);
  }

  lemma PageInMemory(s: Snapshot, p: nat, v: nat)
    requires StateOk(s) && p in s.m.roots && PrivateAt(s.m, p, v)
    ensures Ppn(At(s.m, p, v)) != NO_PAGE && Ppn(At(s.m, p, v)) in s.m.mem
  {
    hide PagesOk, MapsOk, PagesApart, ProcsOk, Ranged, At;
    NoZero(s.m);
    InMemory(s.m);
    assert s.m.use[Ppn(At(s.m, p, v))] == Private(p, v);
  }

  // Its page table entry is the same, so it is the same page if that is in the same hands.
  lemma KeptPage(m: M, m': M, x: Frame, p: nat, v: nat)
    requires Kept(m, m', x) && p in m.roots && PrivateAt(m, p, v) && Ppn(At(m, p, v)) != x
    requires p in m'.roots && At(m', p, v) == At(m, p, v)
    ensures SamePage(m, m', p, v)
  {
    hide At;
    assert m.use[Ppn(At(m, p, v))] == Private(p, v);
  }

  lemma LoadedPage(m: M, m': M, f: Frame, p: nat, v: nat)
    requires Kept(Declared(m, f), m', NO_PAGE) && p in m.roots && PrivateAt(m, p, v) && Ppn(At(m, p, v)) != NO_PAGE
    requires p in m'.roots && At(m', p, v) == At(m, p, v)
    ensures SamePage(m, m', p, v)
  {
    hide At;
    assert Declared(m, f).use[Ppn(At(m, p, v))] == Private(p, v);
  }

  lemma BeyondPage(m: M, m': M, q: nat, p: nat, v: nat)
    requires Beyond(m, m', q) && p in m.roots && v < MAXVPN && PrivateAt(m, p, v) && Ppn(At(m, p, v)) != NO_PAGE
    ensures SamePage(m, m', p, v)
  {
    hide At, SamePage;
    assert p in m'.roots && At(m', p, v) == At(m, p, v);
    KeptPage(m, m', NO_PAGE, p, v);
  }

  lemma ForkedBeyond(s: Snapshot, s': Snapshot, op: Op, va: int, vector: Frame)
    requires op.Fork? && Effect(op, s, s', va, vector)
    ensures Beyond(s.m, s'.m, op.child)
  {
    hide Beyond, CopiedAt, ArenaAbove, HeapCopied, SharedWith, SharedStay, SharedGrows, ChildFrame, ForkIsWhole,
      FilterOf;
  }

  lemma ElsewherePage(m: M, m': M, q: nat, w: nat, p: nat, v: nat)
    requires MapsOne(m, m', q, w) && p in m.roots && v < MAXVPN && At(m, p, v) != 0
    ensures p in m'.roots && At(m', p, v) == At(m, p, v)
  {
    hide At;
  }

  lemma FreedElsewhere(s: Snapshot, s': Snapshot, q: nat, at: Word, p: nat, v: nat)
    requires q in s.procs && Frees(s, s', q, at) && !(q == p && at / PGSIZE == v)
    requires p in s.m.roots && v < MAXVPN && PrivateAt(s.m, p, v)
    requires Ppn(At(s.m, p, v)) in s.m.mem
    ensures SamePage(s.m, s'.m, p, v)
  {
    hide At, Live, Kept;
    if At(s.m, q, at / PGSIZE) != 0 {
      KeptPage(s.m, s'.m, Ppn(At(s.m, q, at / PGSIZE)), p, v);
    }
  }

  lemma StoredElsewhere(s: Snapshot, s': Snapshot, q: nat, at: Word, w: Word, p: nat, v: nat)
    requires Stores(s, s', q, at, w) && !(q == p && at / PGSIZE == v)
    requires p in s.m.roots && v < MAXVPN && PrivateAt(s.m, p, v) && Ppn(At(s.m, p, v)) in s.m.mem
    ensures SamePage(s.m, s'.m, p, v)
  {
    hide At, HwTranslate;
    assert At(s'.m, p, v) == At(s.m, p, v);
  }

  /** Over every run a private page of a process stays where it is, with its contents, until
      the process itself writes to it or gives it back: no other call of its own, and no call,
      fault, store or fork of any other process, touches it. */
  lemma {:induction false} PrivateForEver(ops: seq<Op>, states: seq<Snapshot>, vas: seq<int>, vector: Frame, p: nat,
                                          v: nat, i: nat, k: nat)
    requires IsRun(ops, states, vas, vector) && i <= k < |states|
    requires p in states[i].m.roots && v < MAXVPN && PrivateAt(states[i].m, p, v)
    requires forall j {:trigger ops[j]} :: i <= j < k ==> !Touches(ops[j], p, v)
    ensures SamePage(states[i].m, states[k].m, p, v)
    decreases k - i
  {
    hide StateOk, Succeeds, Effect, At, Touches;
    PageInMemory(states[i], p, v);
    if i < k {
      PrivateForEver(ops, states, vas, vector, p, v, i, k - 1);
      assert Effect(ops[k - 1], states[k - 1], states[k], vas[k - 1], vector);
      PageStays(ops[k - 1], states[k - 1], states[k], vas[k - 1], vector, p, v);
    }
  }

  /** Over every run a word that was stored is what the process loads there later, until it
      writes to the page again or gives it back. */
  lemma StoresReadBack(ops: seq<Op>, states: seq<Snapshot>, vas: seq<int>, vector: Frame, k: nat, m: nat)
    requires IsRun(ops, states, vas, vector) && k < m < |states| && ops[k].Store? && ops[k].p in states[k].m.roots
    requires var s := states[k].m; HwTranslate(s.mem, s.roots[ops[k].p], ops[k].va, Access.Store).Translated?
    requires forall j {:trigger ops[j]} :: k < j < m ==> !Touches(ops[j], ops[k].p, ops[k].va / PGSIZE)
    ensures var p, va, s := ops[k].p, ops[k].va, states[m].m;
            && p in s.roots && va < MAXVA && va % 8 == 0
            && var pa := HwTranslate(s.mem, s.roots[p], va, Load);
               && pa.Translated? && pa.pa >= 0 && pa.pa % PGSIZE == va % PGSIZE && pa.pa / PGSIZE in s.mem
               && s.mem[pa.pa / PGSIZE][pa.pa % PGSIZE / 8] == ops[k].w
  {
    hide StateOk, At, HwTranslate, Touches, Effect, SamePage;
    var p, va, w := ops[k].p, ops[k].va, ops[k].w;
    assert StateOk(states[k]) && StateOk(states[k + 1]) && StateOk(states[m]);
    assert Effect(ops[k], states[k], states[k + 1], vas[k], vector) && Succeeds(ops[k], states[k], vector);
    StoredWord(states[k], states[k + 1], vas[k], vector, p, va, w);
    PrivateForEver(ops, states, vas, vector, p, va / PGSIZE, k + 1, m);
    LoadsSame(states[k + 1], states[m], p, va);
  }

  // The page is the process's own, can be loaded from, and has the word.
  lemma StoredWord(s: Snapshot, s': Snapshot, ret: int, vector: Frame, p: nat, va: Word, w: Word)
    requires StateOk(s) && StateOk(s') && Effect(Op.Store(p, va, w), s, s', ret, vector) && p in s.m.roots && va < MAXVA
    requires HwTranslate(s.m.mem, s.m.roots[p], va, Access.Store).Translated?
    ensures p in s'.m.roots && PrivateAt(s'.m, p, va / PGSIZE) && Allows(At(s'.m, p, va / PGSIZE), Load)
    ensures var f := Ppn(At(s'.m, p, va / PGSIZE)); f in s'.m.mem && s'.m.mem[f][va % PGSIZE / 8] == w
  {
    hide PagesOk, MapsOk, PagesApart, ProcsOk, Ranged, At, HwTranslate, SharedStay, SharedGrows;
    HardwareAgrees(s.m, p, va, Access.Store);
    SameUserAt(s.m, s'.m, p, va / PGSIZE);
  }

  lemma LoadsSame(s: Snapshot, s': Snapshot, p: nat, va: Word)
    requires StateOk(s') && p in s.m.roots && va < MAXVA && SamePage(s.m, s'.m, p, va / PGSIZE)
    requires Allows(At(s.m, p, va / PGSIZE), Load) && At(s.m, p, va / PGSIZE) != 0
    ensures p in s'.m.roots
    ensures var pa, f := HwTranslate(s'.m.mem, s'.m.roots[p], va, Load), Ppn(At(s.m, p, va / PGSIZE));
            && pa == Translated(f * PGSIZE + va % PGSIZE) && (f * PGSIZE + va % PGSIZE) / PGSIZE == f
            && f in s.m.mem && f in s'.m.mem && s'.m.mem[f] == s.m.mem[f]
  {
    hide PagesOk, MapsOk, PagesApart, ProcsOk, Ranged, At, HwTranslate;
    HardwareAgrees(s'.m, p, va, Load);
  }

  /** Pages that were once shared, the code pages among them, keep their contents for ever:
      no call, no fault and no user's store changes them. */
  lemma {:induction false} SharedForEver(ops: seq<Op>, states: seq<Snapshot>, vas: seq<int>, vector: Frame, i: nat,
                                         k: nat)
    requires IsRun(ops, states, vas, vector) && i < k < |states|
    ensures SharedStay(states[i].m, states[k].m)
    decreases k - i
  {
    hide StateOk, Succeeds, SharedStay;
    assert Effect(ops[k - 1], states[k - 1], states[k], vas[k - 1], vector);
    if i < k - 1 {
      SharedForEver(ops, states, vas, vector, i, k - 1);
      SharedTrans(states[i].m, states[k - 1].m, states[k].m);
    }
  }

  /** pmm_init, and then any calls. */
  method Boot(mem: map<Frame, Page>, start: int, end: int, vector: Frame, ops: seq<Op>)
    returns (o: Outcome, vas: seq<int>, ghost states: seq<Snapshot>)
    requires DRAM_BASE <= start && start % PGSIZE == 0 && end <= DRAM_BASE + MAX_RAM
    requires forall f: Frame {:trigger f in mem} :: start <= f * PGSIZE < end ==> f in mem
    requires vector in mem && 0x8_0000 <= vector && vector * PGSIZE < start && vector < 0x8_8000
    ensures |vas| <= |ops| && (o.Fine? <==> |vas| == |ops|)
    ensures IsRun(ops, states, vas, vector)
    ensures states[0].procs == map[] && states[0].m.shared == {vector}
    ensures var free := states[0].m.free;
            && |free| == (if start + PGSIZE < end then (end - start - 1) / PGSIZE else 0)
            && forall i {:trigger free[i]} :: 0 <= i < |free| ==> free[i] * PGSIZE == start + i * PGSIZE
  {
    hide PagesOk, PagesApart, ProcsOk, IsRun;
    var mmu := new Mmu(mem, start, end, vector);
    ghost var use := mmu.use;
    assert RoundUp(start) == start;
    assert Held(use, start, end);
    mmu.CreateFreePageList(start, end);
    FirstState(mmu, use, vector);
    var ps := new Procs(mmu, vector);
    o, vas, states := Run(ps, ops);
    RunLengths(ops, states, vas, vector);
  }

  lemma RunLengths(ops: seq<Op>, states: seq<Snapshot>, vas: seq<int>, vector: Frame)
    requires IsRun(ops, states, vas, vector)
    ensures 0 < |states| <= |ops| + 1 && |vas| == |states| - 1
  {
  }

  lemma FirstState(mmu: Mmu, use: map<Frame, Use>, vector: Frame)
    requires mmu.Valid() && mmu.roots == map[] && mmu.shared == {vector} && Released(use, mmu.use)
    requires forall f {:trigger use[f]} ::
      f in use ==> (use[f] == Kernel && mmu.start <= f * PGSIZE < mmu.end) || (f == vector && use[f] == Shared)
    requires vector in use && use[vector] == Shared
    ensures Ok(mmu) && vector in mmu.use && mmu.use[vector] == Shared
  {
    hide PagesOk;
    forall f | f in mmu.use
      ensures if mmu.use[f] == Shared then f in mmu.shared else mmu.start <= f * PGSIZE < mmu.end
    {
      assert use[f] == use[f];
    }
    assert mmu.use[vector] == mmu.use[vector];
  }
}
