/**
 The creation of a process's address space, and fork.
 */
module ProcFork {
  import opened Sv39
  import opened PageTables
  import opened Paging
  import opened UserSpace
  import opened ProcMemory

  // From m to m' only the address space p was added or changed; every page that was in
  // anybody's hands is as it was.
  ghost predicate Beyond(m: M, m': M, p: nat) {
    && p !in m.roots && p in m'.roots && m'.roots == m.roots[p := m'.roots[p]]
    && Kept(m, m', NO_PAGE)
    && forall q, v: nat {:trigger At(m', q, v)} :: q in m.roots && v < MAXVPN ==> At(m', q, v) == At(m, q, v)
  }

  function TrapframePerm(): Word { ProtToType(3, false) }
  function VectorPerm(): Word { ProtToType(5, false) }

  lemma Perms()
    ensures ReadWrite() < 1024 && TrapframePerm() < 1024 && VectorPerm() < 1024 && !W(VectorPerm())
  {
    hide ProtToType, W;
    ProtBits(3, true);
    ProtBits(3, false);
    ProtBits(5, false);
  }

  // A new address space: the stack page, the trap frame and the trap vector.
  ghost predicate FreshSpace(m: M, p: nat, stack: Frame, tf: Frame, vector: Frame)
    requires p in m.roots && stack < 0x8_8000 && tf < 0x8_8000 && vector < 0x8_8000
  {
    Perms();
    forall v: nat {:trigger At(m, p, v)} :: v < MAXVPN ==>
      At(m, p, v) == if v == STACK_VPN then MkPte(stack * PGSIZE, ReadWrite())
                     else if v == tf then MkPte(tf * PGSIZE, TrapframePerm())
                     else if v == vector then MkPte(vector * PGSIZE, VectorPerm()) else 0
  }

  lemma BeyondOne(m: M, m1: M, m2: M, p: nat, vpn: nat, e: Word, f: Frame)
    requires Beyond(m, m1, p) && OneChanged(m1, m2, p, vpn, e) && Kept(m1, m2, f)
    requires f in m.use ==>
      !InHands(m.use[f]) || (f in m2.use && m2.use[f] == m.use[f] && f in m.mem && f in m2.mem && m2.mem[f] == m.mem[f])
    ensures Beyond(m, m2, p)
  {
    hide At;
    forall g | g in m.use && InHands(m.use[g]) && g != NO_PAGE
      ensures g in m2.use && m2.use[g] == m.use[g] && g in m.mem && g in m2.mem && m2.mem[g] == m.mem[g]
    {
      assert m.use[g] == m1.use[g];
    }
    forall q, v: nat | q in m.roots && v < MAXVPN ensures At(m2, q, v) == At(m, q, v) {
      assert At(m2, q, v) == At(m1, q, v);
    }
  }

  lemma BeyondTake(m: M, m1: M, m2: M, p: nat)
    requires Beyond(m, m1, p) && SameMaps(m1, m2) && Kept(m1, m2, NO_PAGE)
    ensures Beyond(m, m2, p)
  {
    hide At;
    KeptTrans(m, m1, m2, NO_PAGE);
    forall q, v: nat | q in m.roots && v < MAXVPN ensures At(m2, q, v) == At(m, q, v) {
      assert At(m2, q, v) == At(m1, q, v);
    }
  }

  // The three mappings of alloc_process.
  method BuildSpace(mmu: Mmu, ghost m: M, ghost p: nat, pageDir: Frame, stack: Frame, tf: Frame, vector: Frame)
    returns (ok: bool)
    requires Ok(mmu) && DRAM_BASE <= mmu.start && mmu.end <= DRAM_BASE + MAX_RAM
    requires p in mmu.roots && mmu.roots[p] == pageDir
    requires forall v: nat {:trigger At(mmu.S(), p, v)} :: At(mmu.S(), p, v) == 0
    requires ShapeOf(mmu.S(), p) == NO_TABLES
    requires stack in mmu.use && mmu.use[stack] == Kernel && tf in mmu.use && mmu.use[tf] == Kernel && stack != tf
    requires vector in mmu.use && mmu.use[vector] == Shared && 0x8_0000 <= vector < 0x8_8000
    requires Beyond(m, mmu.S(), p) && (stack in m.use ==> !InHands(m.use[stack]))
    requires tf in m.use ==> !InHands(m.use[tf])
    modifies mmu
    ensures Ok(mmu) && mmu.roots == old(mmu.roots) && Beyond(m, mmu.S(), p)
    ensures ok <==> TablesFor(NO_TABLES, [STACK_VPN, tf, vector]) <= |old(mmu.free)|
    ensures ok ==> Built(old(mmu.S()), mmu.S(), p, [STACK_VPN, tf, vector])
    ensures stack < 0x8_8000 && 0x8_0000 <= tf < 0x8_8000
    ensures ok ==> FreshSpace(mmu.S(), p, stack, tf, vector)
    ensures ok ==> stack in mmu.use && mmu.use[stack] == Private(p, STACK_VPN)
    ensures ok ==> tf in mmu.use && mmu.use[tf] == Private(p, tf)
  {
    hide Ok, Kept, OneChanged, At, MkPte, ProtToType, Beyond, SameUser, ShapeOf, Built, Walked, TablesFor, Missing, W;
    ghost var m0 := mmu.S();
    BuiltFirst(m0, p);
    ZeroNotUsed(mmu);
    KernelLow(mmu, stack);
    KernelHigh(mmu, tf);
    VectorLow(vector);
    Perms();
    ghost var all := [STACK_VPN, tf, vector];
    var r := MapUser(mmu, p, pageDir, STACK_VPN * PGSIZE, stack, ReadWrite());
    ghost var m1 := mmu.S();
    BeyondStep(m, m0, m1, p, STACK_VPN, MkPte(stack * PGSIZE, ReadWrite()), stack);
    if r != Mapped { NoTablesLeft(m0, m0, p, [], STACK_VPN, all); return false; }
    BuiltNext(m0, m0, m1, p, [], STACK_VPN);
    assert [] + [STACK_VPN] == all[..1];
    HeldStill(m0, m1, tf, stack);
    HeldStill(m0, m1, vector, stack);
    AfterOne(m0, m1, p, STACK_VPN, MkPte(stack * PGSIZE, ReadWrite()), tf);
    r := MapUser(mmu, p, pageDir, tf * PGSIZE, tf, TrapframePerm());
    ghost var m2 := mmu.S();
    BeyondStep(m, m1, m2, p, tf, MkPte(tf * PGSIZE, TrapframePerm()), tf);
    if r != Mapped { NoTablesLeft(m0, m1, p, all[..1], tf, all); return false; }
    BuiltNext(m0, m1, m2, p, all[..1], tf);
    assert all[..1] + [tf] == all[..2];
    HeldStill(m1, m2, vector, tf);
    HeldStill(m1, m2, stack, tf);
    AfterOne(m0, m1, p, STACK_VPN, MkPte(stack * PGSIZE, ReadWrite()), vector);
    AfterOne(m1, m2, p, tf, MkPte(tf * PGSIZE, TrapframePerm()), vector);
    r := MapUser(mmu, p, pageDir, vector * PGSIZE, vector, VectorPerm());
    ghost var m3 := mmu.S();
    BeyondStep(m, m2, m3, p, vector, MkPte(vector * PGSIZE, VectorPerm()), vector);
    if r != Mapped { NoTablesLeft(m0, m2, p, all[..2], vector, all); return false; }
    BuiltNext(m0, m2, m3, p, all[..2], vector);
    assert all[..2] + [vector] == all;
    BuiltCount(m0, m3, p, all);
    HeldStill(m2, m3, stack, vector);
    HeldStill(m2, m3, tf, vector);
    ThreePages(m0, m1, m2, m3, p, stack, tf, vector);
    ok := true;
  }

  lemma BuiltFirst(m: M, p: nat)
    requires p in m.roots
    ensures Built(m, m, p, [])
  {
  }

  lemma BuiltRoots(m: M, m1: M, p: nat, vs: seq<nat>)
    requires Built(m, m1, p, vs)
    ensures p in m.roots
  {
  }

  lemma BuiltCount(m: M, m1: M, p: nat, vs: seq<nat>)
    requires Built(m, m1, p, vs)
    ensures TablesFor(ShapeOf(m, p), vs) <= |m.free|
  {
  }

  // The walk to v fails, so there are too few pages for any list that goes on like this.
  lemma NoTablesLeft(m: M, m1: M, p: nat, vs: seq<nat>, v: nat, all: seq<nat>)
    requires Built(m, m1, p, vs) && |m1.free| < Missing(ShapeOf(m1, p), v)
    requires |vs| < |all| && vs == all[..|vs|] && v == all[|vs|]
    ensures TablesFor(ShapeOf(m, p), all) > |m.free|
  {
    hide ShapeOf, Built, TablesFor, Missing;
    assert p in m.roots by { BuiltRoots(m, m1, p, vs); }
    BuiltNoMore(m, m1, p, vs, v);
    TablesForMore(ShapeOf(m, p), vs + [v], all[|vs| + 1..]);
    assert vs + [v] + all[|vs| + 1..] == all;
  }

  lemma KernelHigh(mmu: Mmu, f: Frame)
    requires Ok(mmu) && f in mmu.use && mmu.use[f] != Shared && DRAM_BASE <= mmu.start && mmu.end <= DRAM_BASE + MAX_RAM
    ensures f * PGSIZE + MAXVA + PGSIZE <= PPN_LIMIT * PGSIZE && 0x8_0000 <= f < 0x8_8000 && f * PGSIZE < MAXVA
  {
    hide PagesOk, MapsOk;
    PrivateRange(mmu.S(), f, mmu.start, mmu.end);
  }

  lemma VectorLow(f: Frame)
    requires 0x8_0000 <= f < 0x8_8000
    ensures f * PGSIZE + MAXVA + PGSIZE <= PPN_LIMIT * PGSIZE && f * PGSIZE < MAXVA && f * PGSIZE / PGSIZE == f
  {
  }

  lemma HeldStill(m: M, m': M, f: Frame, x: Frame)
    requires Kept(m, m', x) && f in m.use && InHands(m.use[f]) && f != x
    ensures f in m'.use && m'.use[f] == m.use[f] && f in m.mem && f in m'.mem && m'.mem[f] == m.mem[f]
  {
  }

  lemma AfterOne(m: M, m': M, p: nat, vpn: nat, e: Word, v: nat)
    requires OneChanged(m, m', p, vpn, e) && p in m.roots && v < MAXVPN
    ensures p in m'.roots && At(m', p, v) == if v == vpn then e else At(m, p, v)
  {
  }

  lemma ThreePages(m0: M, m1: M, m2: M, m3: M, p: nat, stack: Frame, tf: Frame, vector: Frame)
    requires p in m0.roots && forall v: nat {:trigger At(m0, p, v)} :: At(m0, p, v) == 0
    requires ReadWrite() < 1024 && TrapframePerm() < 1024 && VectorPerm() < 1024
    requires stack < 0x8_8000 && 0x8_0000 <= tf < 0x8_8000 && 0x8_0000 <= vector < 0x8_8000 && tf != vector
    requires OneChanged(m0, m1, p, STACK_VPN, MkPte(stack * PGSIZE, ReadWrite()))
    requires OneChanged(m1, m2, p, tf, MkPte(tf * PGSIZE, TrapframePerm()))
    requires OneChanged(m2, m3, p, vector, MkPte(vector * PGSIZE, VectorPerm()))
    ensures p in m3.roots && FreshSpace(m3, p, stack, tf, vector)
  {
    hide At, MkPte, ProtToType;
    forall v: nat | v < MAXVPN
      ensures At(m3, p, v) == if v == STACK_VPN then MkPte(stack * PGSIZE, ReadWrite())
                              else if v == tf then MkPte(tf * PGSIZE, TrapframePerm())
                              else if v == vector then MkPte(vector * PGSIZE, VectorPerm()) else 0
    {
      assert At(m3, p, v) == if v == vector then MkPte(vector * PGSIZE, VectorPerm()) else At(m2, p, v);
      assert At(m2, p, v) == if v == tf then MkPte(tf * PGSIZE, TrapframePerm()) else At(m1, p, v);
      assert At(m1, p, v) == if v == STACK_VPN then MkPte(stack * PGSIZE, ReadWrite()) else At(m0, p, v);
    }
  }

  // One mapping of page f, or none: f was nobody's in m, or is as it was.
  lemma BeyondStep(m: M, m1: M, m2: M, p: nat, vpn: nat, e: Word, f: Frame)
    requires Beyond(m, m1, p) && Kept(m1, m2, f) && f != NO_PAGE
    requires if SameUser(m1, m2) && Kept(m1, m2, NO_PAGE) then true
             else
               OneChanged(m1, m2, p, vpn, e) &&
               (f in m.use && InHands(m.use[f]) ==>
                  f in m1.use && f in m2.use && f in m1.mem && f in m2.mem && m2.mem[f] == m1.mem[f] &&
                  m2.use[f] == m1.use[f])
    ensures Beyond(m, m2, p)
  {
    hide At;
    if !(SameUser(m1, m2) && Kept(m1, m2, NO_PAGE)) {
      if f in m.use && InHands(m.use[f]) { assert m.use[f] == m1.use[f]; }
      BeyondOne(m, m1, m2, p, vpn, e, f);
    } else {
      KeptTrans(m, m1, m2, NO_PAGE);
      forall q, v: nat | q in m.roots && v < MAXVPN ensures At(m2, q, v) == At(m, q, v) {
        assert At(m2, q, v) == At(m1, q, v);
      }
    }
  }

  lemma NobodysPage(m: M, m1: M, f: Frame)
    requires Kept(m, m1, NO_PAGE) && f in m1.use && m1.use[f].FreeAt? && f != NO_PAGE
    ensures f in m.use ==> !InHands(m.use[f])
  {
  }

  lemma BeyondRoot(m: M, m2: M, m3: M, p: nat, g: Frame)
    requires SameMaps(m, m2) && Kept(m, m2, NO_PAGE) && Kept(m2, m3, g) && (g in m.use ==> !InHands(m.use[g]))
    requires p !in m.roots && m3.roots == m2.roots[p := g]
    requires forall q, v {:trigger At(m3, q, v)} :: q in m2.roots ==> At(m3, q, v) == At(m2, q, v)
    ensures Beyond(m, m3, p)
  {
    hide At;
    forall f | f in m.use && InHands(m.use[f]) && f != NO_PAGE
      ensures f in m3.use && m3.use[f] == m.use[f] && f in m.mem && f in m3.mem && m3.mem[f] == m.mem[f]
    {
      assert m.use[f] == m2.use[f];
    }
    forall q, v: nat | q in m.roots && v < MAXVPN ensures At(m3, q, v) == At(m, q, v) {
      assert At(m3, q, v) == At(m2, q, v);
    }
  }

  lemma StillEmpty(m: M, m': M, p: nat)
    requires SameMaps(m, m') && p in m.roots && forall v: nat {:trigger At(m, p, v)} :: At(m, p, v) == 0
    ensures p in m'.roots && m'.roots == m.roots && forall v: nat {:trigger At(m', p, v)} :: At(m', p, v) == 0
  {
    hide At;
    forall v: nat ensures At(m', p, v) == 0 {
      assert At(m', p, v) == At(m, p, v);
    }
  }

  lemma FreshStays(m: M, m': M, p: nat, stack: Frame, tf: Frame, vector: Frame)
    requires SameMaps(m, m') && p in m.roots && stack < 0x8_8000 && tf < 0x8_8000 && vector < 0x8_8000
    requires FreshSpace(m, p, stack, tf, vector)
    ensures p in m'.roots && FreshSpace(m', p, stack, tf, vector)
  {
    hide At, MkPte, ProtToType;
    Perms();
    forall v: nat | v < MAXVPN ensures At(m', p, v) == At(m, p, v) {}
  }

  const EMPTY_HEAP: Heap := Heap(HEAP_VPN * PGSIZE, HEAP_VPN * PGSIZE, [])

  lemma NewProcOk(m: M, m': M, procs: map<nat, Proc>, clean: set<nat>, p: nat, proc: Proc, stack: Frame, tf: Frame,
                  vector: Frame)
    requires ProcsOk(m, procs, clean) && Beyond(m, m', p) && proc.pageDir == m'.roots[p] && proc.heap == EMPTY_HEAP
    requires stack < 0x8_8000 && 0x8_0000 <= tf < 0x8_8000 && 0x8_0000 <= vector < 0x8_8000
    requires FreshSpace(m', p, stack, tf, vector) && 0 !in m.use && RegionsOk(proc.regions) && |proc.regions| == 4
    requires proc.trapframe == tf && tf in m'.use && m'.use[tf] == Private(p, tf)
    ensures p !in procs && ProcsOk(m', procs[p := proc], clean + {p})
  {
    hide At, MkPte, ProtToType, FreedOk;
    var procs' := procs[p := proc];
    assert p !in procs;
    TrapsStay(m, m', procs, NO_PAGE);
    forall q | q in procs ensures q in m'.roots && CodeOk(m', q, procs[q].regions) {
      CodeStays(m, m', q, procs[q].regions, NO_PAGE);
    }
    forall q | q in clean + {p} ensures q in procs' && HeapOk(m', q, procs'[q].heap) {
      if q == p {
        EmptyHeapOk(m', p, stack, tf, vector);
      } else {
        HeapPoint(m, q, procs[q].heap);
        HeapStays(m, m', q, procs[q].heap, NO_PAGE);
      }
    }
  }

  lemma EmptyHeapOk(m: M, p: nat, stack: Frame, tf: Frame, vector: Frame)
    requires p in m.roots && stack < 0x8_8000 && 0x8_0000 <= tf < 0x8_8000 && 0x8_0000 <= vector < 0x8_8000
    requires FreshSpace(m, p, stack, tf, vector)
    ensures HeapOk(m, p, EMPTY_HEAP)
  {
    hide At, MkPte, ProtToType;
    Perms();
    forall v: nat | InArena(v) ensures At(m, p, v) == 0 {}
  }

  // The pages of a new address space; the trap frame takes the first free page.
  ghost function FirstPages(m: M, vector: Frame): seq<nat>
    requires m.free != []
  {
    [STACK_VPN, m.free[|m.free| - 1], vector]
  }

  // Six pages for the process itself, and those for the page tables.
  ghost predicate CanAllocProcess(m: M, vector: Frame) {
    m.free != [] && 6 + TablesFor(NO_TABLES, FirstPages(m, vector)) <= |m.free|
  }

  // User code can load and store in the stack page, and do nothing else anywhere.
  ghost predicate FreshUse(m: M, p: nat, stack: Frame)
    requires p in m.roots
  {
    && DataPage(m, p, STACK_VPN, stack)
    && forall v: nat, acc: Access {:trigger Barred(m, p, v, acc)} ::
        v < MAXVPN && v != STACK_VPN ==> Barred(m, p, v, acc)
  }

  lemma SpaceUse(mmu: Mmu, p: nat, stack: Frame, tf: Frame, vector: Frame)
    requires Ok(mmu) && p in mmu.roots && stack < 0x8_8000 && 0x8_0000 <= tf < 0x8_8000 && 0x8_0000 <= vector < 0x8_8000
    requires FreshSpace(mmu.S(), p, stack, tf, vector)
    ensures FreshUse(mmu.S(), p, stack)
  {
    hide PagesOk, At, DataPage, Barred, MkPte, ProtToType, Allows;
    Perms();
    EntryOfPage(stack, ReadWrite());
    PageUse(mmu, p, STACK_VPN);
    KernelOnly(tf, 3);
    KernelOnly(vector, 5);
    forall v: nat, acc: Access | v < MAXVPN && v != STACK_VPN ensures Barred(mmu.S(), p, v, acc) {
      EntryReaches(mmu.S(), p, v, acc);
      EntryIsOne(mmu.S(), p, stack, tf, vector, v);
    }
  }

  lemma EntryIsOne(m: M, p: nat, stack: Frame, tf: Frame, vector: Frame, v: nat)
    requires p in m.roots && stack < 0x8_8000 && tf < 0x8_8000 && vector < 0x8_8000 && v < MAXVPN && v != STACK_VPN
    requires FreshSpace(m, p, stack, tf, vector)
    ensures TrapframePerm() < 1024 && VectorPerm() < 1024
    ensures At(m, p, v) in {0, MkPte(tf * PGSIZE, TrapframePerm()), MkPte(vector * PGSIZE, VectorPerm())}
  {
    hide At, MkPte, ProtToType;
    Perms();
  }

  // An entry without the user bit bars user code.
  lemma KernelOnly(f: Frame, prot: nat)
    requires f < 0x8_8000
    ensures ProtToType(prot, false) < 1024
    ensures forall acc {:trigger Allows(MkPte(f * PGSIZE, ProtToType(prot, false)), acc)} ::
              !Allows(MkPte(f * PGSIZE, ProtToType(prot, false)), acc)
  {
    hide MkPte, ProtToType, V, U;
    var t := ProtToType(prot, false);
    ProtBits(prot, false);
    MkPteFields(f * PGSIZE, t);
    SetV(t);
    SameFlags(MkPte(f * PGSIZE, t), t + 1);
  }

  // What a new address space has taken.
  ghost predicate SpaceBuilt(m: M, m': M, p: nat, vector: Frame) {
    && m.free != [] && p in m'.roots && ShapeOf(m', p) == ExtendAll(NO_TABLES, FirstPages(m, vector))
    && |m'.free| == |m.free| - 6 - TablesFor(NO_TABLES, FirstPages(m, vector))
  }

  /** alloc_process for a free slot: a new address space with the stack page, the trap
      frame and the trap vector, and an empty heap. */
  method AllocProcess(ps: Procs, p: nat) returns (o: Outcome, stack: Frame)
    requires ps.Valid() && p !in ps.procs && p !in ps.mmu.roots
    modifies ps, ps.mmu
    ensures o.Fine? ==> ps.Valid() && Beyond(old(ps.mmu.S()), ps.mmu.S(), p)
    ensures o.Fine? ==> p in ps.procs && ps.procs == old(ps.procs)[p := ps.procs[p]] && ps.clean == old(ps.clean) + {p}
    ensures o.Fine? ==>
      && ps.procs[p].heap == EMPTY_HEAP && |ps.procs[p].regions| == 4
      && FirstOnes(ps.procs[p].regions, ps.procs[p].trapframe, ps.trapPage)
      && p in ps.mmu.roots && 0x8_0000 <= ps.procs[p].trapframe < 0x8_8000 && stack < 0x8_8000
      && FreshSpace(ps.mmu.S(), p, stack, ps.procs[p].trapframe, ps.trapPage)
      && stack in ps.mmu.use && ps.mmu.use[stack] == Private(p, STACK_VPN)
    ensures o.Fine? ==> FreshUse(ps.mmu.S(), p, stack)
    ensures o.Fine? ==> stack in old(ps.mmu.use) ==> !InHands(old(ps.mmu.use)[stack])
    ensures o.Fine? <==> CanAllocProcess(old(ps.mmu.S()), ps.trapPage)
    ensures o.Fine? ==> SpaceBuilt(old(ps.mmu.S()), ps.mmu.S(), p, ps.trapPage)
    ensures o.Fine? ==> ps.procs[p].trapframe == old(ps.mmu.free)[|old(ps.mmu.free)| - 1]
    ensures o.Fine? ==> ps.procs[p].trapframe in old(ps.mmu.use) ==> !InHands(old(ps.mmu.use)[ps.procs[p].trapframe])
    ensures o.Fine? ==>
      ps.procs[p].trapframe in ps.mmu.mem && ps.mmu.mem[ps.procs[p].trapframe][..FRAME_WORDS] == BlankFrame()
  {
    hide Ok, ProcsOk, Kept, SameMaps, SameShapes, At, Beyond, FreshSpace, MkPte, ProtToType, ShapeOf, TablesFor,
      ExtendAll, FreshUse;
    var mmu := ps.mmu;
    ghost var m := mmu.S();
    ZeroNotUsed(mmu);
    stack := 0;
    var tf, pd := NewDirectory(mmu, p);
    ghost var m3 := mmu.S();
    if pd == 0 { return OutOfScope, 0; }
    var kstack := TakePage(mmu);
    ghost var m4 := mmu.S();
    if kstack == 0 { return OutOfScope, 0; }
    BeyondTake(m, m3, m4, p);
    ShapeSame(m3, m4, p);
    StillEmpty(m3, m4, p);
    HeldStill(m3, m4, tf, NO_PAGE);
    stack := TakePage(mmu);
    ghost var m5 := mmu.S();
    if stack == 0 { return OutOfScope, 0; }
    BeyondTake(m, m4, m5, p);
    ShapeSame(m4, m5, p);
    StillEmpty(m4, m5, p);
    HeldStill(m4, m5, tf, NO_PAGE);
    BeyondKept(m, m4, p);
    NobodysPage(m, m4, stack);
    o := Finish(ps, m, p, pd, tf, stack);
    if o == Fine { SpaceUse(mmu, p, stack, tf, ps.trapPage); }
  }

  // The first two pages of a process: the trap frame and an empty page directory.
  method NewDirectory(mmu: Mmu, p: nat) returns (tf: Frame, pd: Frame)
    requires Ok(mmu) && p !in mmu.roots
    modifies mmu
    ensures pd == 0 <==> |old(mmu.free)| < 2
    ensures pd != 0 ==> Ok(mmu) && Beyond(old(mmu.S()), mmu.S(), p) && p in mmu.roots && mmu.roots[p] == pd
    ensures pd != 0 ==>
      ShapeOf(mmu.S(), p) == NO_TABLES && forall v: nat {:trigger At(mmu.S(), p, v)} :: At(mmu.S(), p, v) == 0
    ensures pd != 0 ==>
      tf != 0 && tf in mmu.use && mmu.use[tf] == Kernel && (tf in old(mmu.use) ==> !InHands(old(mmu.use)[tf]))
    ensures pd != 0 ==> tf == old(mmu.free)[|old(mmu.free)| - 1] && |mmu.free| == |old(mmu.free)| - 2
  {
    hide Ok, Kept, SameMaps, SameShapes, At, Beyond, ShapeOf;
    ghost var m := mmu.S();
    ZeroNotUsed(mmu);
    pd := 0;
    tf := TakePage(mmu);
    ghost var m1 := mmu.S();
    if tf == 0 { return; }
    pd := TakePage(mmu);
    ghost var m2 := mmu.S();
    if pd == 0 { return; }
    KeptTrans(m, m1, m2, NO_PAGE);
    SameMapsTrans(m, m1, m2);
    NobodysPage(m, m1, pd);
    FreeHere(m, tf);
    HeldStill(m1, m2, tf, NO_PAGE);
    MapsRoots(m, m2);
    NewSpace(mmu, p, pd);
    BeyondRoot(m, m2, mmu.S(), p, pd);
    HeldStill(m2, mmu.S(), tf, pd);
  }

  lemma FreeHere(m: M, f: Frame)
    requires f in m.use && m.use[f].FreeAt?
    ensures !InHands(m.use[f])
  {
  }

  lemma MapsRoots(m: M, m': M)
    requires SameMaps(m, m')
    ensures m'.roots == m.roots
  {
  }

  lemma BeyondKept(m: M, m': M, p: nat)
    requires Beyond(m, m', p)
    ensures Kept(m, m', NO_PAGE) && p in m'.roots
  {
  }

  // The rest of alloc_process, once the stack page is there.
  method Finish(ps: Procs, ghost m: M, p: nat, pd: Frame, tf: Frame, stack: Frame) returns (o: Outcome)
    requires Ok(ps.mmu) && DRAM_BASE <= ps.mmu.start && ps.mmu.end <= DRAM_BASE + MAX_RAM && 0 !in m.use
    requires ps.trapPage in m.use && m.use[ps.trapPage] == Shared && 0x8_0000 <= ps.trapPage < 0x8_8000
    requires ProcsOk(m, ps.procs, ps.clean) && p in ps.mmu.roots && ps.mmu.roots[p] == pd && Beyond(m, ps.mmu.S(), p)
    requires forall v: nat {:trigger At(ps.mmu.S(), p, v)} :: At(ps.mmu.S(), p, v) == 0
    requires ShapeOf(ps.mmu.S(), p) == NO_TABLES
    requires stack in ps.mmu.use && ps.mmu.use[stack] == Kernel && tf in ps.mmu.use && ps.mmu.use[tf] == Kernel
    requires stack != tf
    requires (stack in m.use ==> !InHands(m.use[stack])) && (tf in m.use ==> !InHands(m.use[tf]))
    modifies ps, ps.mmu
    ensures o.Fine? ==> ps.Valid() && Beyond(m, ps.mmu.S(), p)
    ensures o.Fine? ==> p in ps.procs && ps.procs == old(ps.procs)[p := ps.procs[p]] && ps.clean == old(ps.clean) + {p}
    ensures o.Fine? ==>
      && ps.procs[p].heap == EMPTY_HEAP && |ps.procs[p].regions| == 4
      && FirstOnes(ps.procs[p].regions, ps.procs[p].trapframe, ps.trapPage)
      && p in ps.mmu.roots && 0x8_0000 <= ps.procs[p].trapframe < 0x8_8000 && stack < 0x8_8000
      && FreshSpace(ps.mmu.S(), p, stack, ps.procs[p].trapframe, ps.trapPage)
      && stack in ps.mmu.use && ps.mmu.use[stack] == Private(p, STACK_VPN)
    ensures o.Fine? <==> 2 + TablesFor(NO_TABLES, [STACK_VPN, tf, ps.trapPage]) <= |old(ps.mmu.free)|
    ensures o.Fine? ==>
      ps.procs[p].trapframe == tf && ShapeOf(ps.mmu.S(), p) == ExtendAll(NO_TABLES, [STACK_VPN, tf, ps.trapPage])
    ensures o.Fine? ==> |ps.mmu.free| == |old(ps.mmu.free)| - 2 - TablesFor(NO_TABLES, [STACK_VPN, tf, ps.trapPage])
    ensures o.Fine? ==> tf in ps.mmu.mem && ps.mmu.mem[tf][..FRAME_WORDS] == BlankFrame()
  {
    hide Ok, ProcsOk, Kept, SameMaps, SameShapes, At, Beyond, FreshSpace, MkPte, ProtToType, ShapeOf, TablesFor,
      ExtendAll;
    var mmu := ps.mmu;
    ghost var m0 := mmu.S();
    ZeroNotUsed(mmu);
    var info := TakePage(mmu);
    ghost var m1 := mmu.S();
    if info == 0 { return OutOfScope; }
    BeyondTake(m, m0, m1, p);
    ShapeSame(m0, m1, p);
    StillEmpty(m0, m1, p);
    KeptPages(m0, m1, stack, tf);
    BeyondKept(m, m1, p);
    StillShared(m, m1, ps.trapPage);
    var ok := BuildSpace(mmu, m, p, pd, stack, tf, ps.trapPage);
    if !ok { return Panic; }
    ghost var m2 := mmu.S();
    // init_proc_file_management
    var pfiles := TakePage(mmu);
    if pfiles == 0 { return OutOfScope; }
    ghost var m3 := mmu.S();
    BeyondTake(m, m2, m3, p);
    ShapeSame(m2, m3, p);
    FreshStays(m2, m3, p, stack, tf, ps.trapPage);
    MapsRoots(m2, m3);
    HeldStill(m2, m3, stack, NO_PAGE);
    HeldStill(m2, m3, tf, NO_PAGE);
    BeyondKept(m, m3, p);
    StillShared(m, m3, ps.trapPage);
    Enroll(ps, m, p, pd, tf, stack);
    o := Fine;
  }

  // The process's own record, and its trap frame, which the code sets up between the allocations.
  method Enroll(ps: Procs, ghost m: M, p: nat, pd: Frame, tf: Frame, ghost stack: Frame)
    requires Ok(ps.mmu) && DRAM_BASE <= ps.mmu.start && ps.mmu.end <= DRAM_BASE + MAX_RAM && 0 !in m.use
    requires ps.trapPage in ps.mmu.use && ps.mmu.use[ps.trapPage] == Shared && 0x8_0000 <= ps.trapPage < 0x8_8000
    requires ProcsOk(m, ps.procs, ps.clean) && p in ps.mmu.roots && ps.mmu.roots[p] == pd && Beyond(m, ps.mmu.S(), p)
    requires stack < 0x8_8000 && 0x8_0000 <= tf < 0x8_8000 && FreshSpace(ps.mmu.S(), p, stack, tf, ps.trapPage)
    requires tf in ps.mmu.mem && tf in ps.mmu.use && ps.mmu.use[tf] == Private(p, tf)
    requires tf in m.use ==> !InHands(m.use[tf])
    modifies ps, ps.mmu
    ensures ps.Valid() && Beyond(m, ps.mmu.S(), p) && ps.mmu.roots == old(ps.mmu.roots)
    ensures p in ps.procs && ps.procs == old(ps.procs)[p := ps.procs[p]] && ps.clean == old(ps.clean) + {p}
    ensures ps.procs[p].trapframe == tf && ps.procs[p].heap == EMPTY_HEAP && |ps.procs[p].regions| == 4
    ensures FirstOnes(ps.procs[p].regions, tf, ps.trapPage)
    ensures FreshSpace(ps.mmu.S(), p, stack, tf, ps.trapPage)
    ensures ps.mmu.use == old(ps.mmu.use) && ps.mmu.free == old(ps.mmu.free)
    ensures ShapeOf(ps.mmu.S(), p) == ShapeOf(old(ps.mmu.S()), p)
    ensures tf in ps.mmu.mem && ps.mmu.mem[tf][..FRAME_WORDS] == BlankFrame()
  {
    hide Ok, ProcsOk, Kept, SameMaps, SameShapes, At, Beyond, FreshSpace, MkPte, ProtToType, ShapeOf;
    ghost var m3 := ps.mmu.S();
    var regions := [Region(STACK_VPN * PGSIZE, 1, STACK), Region(tf * PGSIZE, 1, CONTEXT),
                    Region(ps.trapPage * PGSIZE, 1, SYSTEM), Region(HEAP_VPN * PGSIZE, 0, HEAP)];
    FirstOnesOk(regions, tf, ps.trapPage);
    var proc := Proc(pd, tf, EMPTY_HEAP, regions);
    NewProcOk(m, m3, ps.procs, ps.clean, p, proc, stack, tf, ps.trapPage);
    ps.procs, ps.clean := ps.procs[p := proc], ps.clean + {p};
    SetFrame(ps, p, WithFrame(ps.mmu.mem[tf], BlankFrame()));
    ghost var m4 := ps.mmu.S();
    BeyondFilled(m, m3, m4, p, tf);
    ShapeSame(m3, m4, p);
    FreshStays(m3, m4, p, stack, tf, ps.trapPage);
    MapsRoots(m3, m4);
  }

  // A page of stack, the trap frame, the trap vector, and a heap of no pages.
  predicate FirstOnes(rs: seq<Region>, tf: Frame, vector: Frame) {
    && |rs| == 4 && rs[0].va == USER_STACK_TOP - PGSIZE && rs[0].npages == 1 && rs[0].kind == STACK
    && rs[1].va == tf * PGSIZE && rs[1].npages == 1 && rs[1].kind == CONTEXT
    && rs[2].va == vector * PGSIZE && rs[2].npages == 1 && rs[2].kind == SYSTEM
    && rs[3].va == HEAP_VPN * PGSIZE && rs[3].npages == 0 && rs[3].kind == HEAP
  }

  lemma FirstOnesOk(rs: seq<Region>, tf: Frame, vector: Frame)
    requires FirstOnes(rs, tf, vector)
    ensures RegionsOk(rs) && |rs| == 4
  {
  }

  // ---------------------------------------------------------------------
  // Trap frames
  // ---------------------------------------------------------------------

  const FRAME_WORDS: nat := 35              // the size of a trapframe in words
  const REG_SP: nat := 1                    // where it keeps sp and a0
  const REG_A0: nat := 9

  function BlankFrame(): seq<Word> { seq(FRAME_WORDS, k => if k == REG_SP then USER_STACK_TOP else 0) }

  function WithFrame(page: Page, frame: seq<Word>): (r: Page)
    requires |frame| == FRAME_WORDS
    ensures r[..FRAME_WORDS] == frame
  {
    frame + page[FRAME_WORDS..]
  }

  lemma TrapOf(m: M, procs: map<nat, Proc>, clean: set<nat>, p: nat)
    requires ProcsOk(m, procs, clean) && p in procs
    ensures var tf := procs[p].trapframe; DRAM_PAGE <= tf < 0x8_8000 && tf in m.use && m.use[tf] == Private(p, tf)
  {
    hide HeapOk, CodeOk;
  }

  // The kernel writes a process's trap frame.
  method SetFrame(ps: Procs, p: nat, page: Page)
    requires ps.Valid() && p in ps.procs
    modifies ps.mmu
    ensures ps.Valid() && ps.procs[p].trapframe in ps.mmu.mem && ps.mmu.mem[ps.procs[p].trapframe] == page
    ensures SameMaps(old(ps.mmu.S()), ps.mmu.S()) && Kept(old(ps.mmu.S()), ps.mmu.S(), ps.procs[p].trapframe)
    ensures ps.mmu.use == old(ps.mmu.use) && ps.mmu.free == old(ps.mmu.free) && SameShapes(old(ps.mmu.S()), ps.mmu.S())
  {
    hide PagesOk, MapsOk, ProcsOk, SameMaps, Kept, SameShapes, Ranged;
    ghost var m := ps.mmu.S();
    TrapOf(m, ps.procs, ps.clean, p);
    ProcsFilled(m, ps.procs, ps.clean, ps.procs[p].trapframe, page);
    FillPage(ps.mmu, ps.procs[p].trapframe, page);
  }

  // The child's trap frame holds what the parent's held.
  predicate FrameCopied(m: M, m': M, ptf: Frame, ctf: Frame) {
    ptf in m.mem && ctf in m'.mem && m'.mem[ctf][..FRAME_WORDS] == m.mem[ptf][..FRAME_WORDS]
  }

  lemma FrameStays(m: M, m1: M, m2: M, ptf: Frame, ctf: Frame)
    requires FrameCopied(m, m1, ptf, ctf) && Kept(m1, m2, NO_PAGE) && ctf in m1.use && InHands(m1.use[ctf])
    requires ctf != NO_PAGE
    ensures FrameCopied(m, m2, ptf, ctf)
  {
  }

  // A trap frame of the child was written: what has been copied is still there.
  lemma ForkStays(m: M, m1: M, m2: M, parent: nat, child: nat, rs: seq<Region>, filter: seq<int>, n: nat, i: nat,
                  tf: Frame)
    requires n <= |filter| <= MAX_HEAP_PAGES && i <= |rs| && ForkState(m, m1, parent, child, rs, filter, n, i)
    requires SameMaps(m1, m2) && Kept(m1, m2, tf) && tf in m1.use && m1.use[tf] == Private(child, tf) && DRAM_PAGE <= tf
    requires tf in m.use ==> !InHands(m.use[tf])
    ensures ForkState(m, m2, parent, child, rs, filter, n, i)
  {
    hide Beyond, CopiedAt, ArenaAbove, HeapCopied, SharedWith, At, SameMaps, Kept;
    MapsRoots(m1, m2);
    BeyondFilled(m, m1, m2, child, tf);
    if i > 0 { CopyStays(m, m1, m2, parent, child, STACK_VPN, tf); }
    if i <= 3 {
      ArenaSame(m1, m2, child, HEAP_VPN);
    } else {
      ArenaSame(m1, m2, child, HEAP_VPN + n);
      CopiesStay(m, m1, m2, parent, child, filter, n, tf);
    }
    forall j | 4 <= j < i && rs[j].kind == CODE ensures SharedWith(m, m2, parent, child, rs[j].va / PGSIZE) {
      SharingStays(m, m1, m2, parent, child, rs[j].va / PGSIZE, tf);
    }
  }

  lemma CopyStays(m: M, m1: M, m2: M, parent: nat, child: nat, v: nat, tf: Frame)
    requires CopiedAt(m, m1, parent, child, v) && v != tf
    requires SameMaps(m1, m2) && Kept(m1, m2, tf) && tf in m1.use && m1.use[tf] == Private(child, tf)
    ensures CopiedAt(m, m2, parent, child, v)
  {
    hide At;
    assert At(m2, child, v) == At(m1, child, v);
    assert m1.use[Ppn(At(m1, child, v))] == Private(child, v);
  }

  lemma CopiesStay(m: M, m1: M, m2: M, parent: nat, child: nat, filter: seq<int>, n: nat, tf: Frame)
    requires n <= |filter| <= MAX_HEAP_PAGES && HeapCopied(m, m1, parent, child, filter, n) && DRAM_PAGE <= tf
    requires SameMaps(m1, m2) && Kept(m1, m2, tf) && tf in m1.use && m1.use[tf] == Private(child, tf)
    ensures HeapCopied(m, m2, parent, child, filter, n)
  {
    hide At, CopiedAt, Kept;
    MapsRoots(m1, m2);
    forall j: nat | j < n
      ensures if filter[j] != 0 then At(m2, child, HEAP_VPN + j) == 0 else CopiedAt(m, m2, parent, child, HEAP_VPN + j)
    {
      if filter[j] != 0 {
        assert At(m2, child, HEAP_VPN + j) == At(m1, child, HEAP_VPN + j);
      } else {
        CopyStays(m, m1, m2, parent, child, HEAP_VPN + j, tf);
      }
    }
  }

  lemma SharingStays(m: M, m1: M, m2: M, parent: nat, child: nat, v: nat, tf: Frame)
    requires SharedWith(m, m1, parent, child, v)
    requires SameMaps(m1, m2) && Kept(m1, m2, tf) && tf in m1.use && m1.use[tf] == Private(child, tf)
    ensures SharedWith(m, m2, parent, child, v)
  {
    hide At;
    assert At(m2, child, v) == At(m1, child, v);
    assert m1.use[Ppn(At(m1, child, v))] == Shared;
  }

  /** The CONTEXT_SEGMENT case of do_fork. */
  method ForkContext(ps: Procs, ghost m: M, parent: nat, child: nat, ghost ptf: Frame, ghost ctf: Frame)
    requires ps.Valid() && Beyond(m, ps.mmu.S(), child) && parent in ps.procs && child in ps.procs && parent != child
    requires ptf == ps.procs[parent].trapframe && ctf == ps.procs[child].trapframe
    requires ptf in m.use && m.use[ptf] == Private(parent, ptf) && ptf in m.mem
    modifies ps.mmu
    ensures ps.Valid() && FrameCopied(m, ps.mmu.S(), ptf, ctf)
    ensures SameMaps(old(ps.mmu.S()), ps.mmu.S()) && Kept(old(ps.mmu.S()), ps.mmu.S(), ctf)
    ensures ps.mmu.use == old(ps.mmu.use) && ps.mmu.free == old(ps.mmu.free) && SameShapes(old(ps.mmu.S()), ps.mmu.S())
  {
    hide ProcsOk, SameMaps, SameShapes, PagesOk, MapsOk, Ranged, At;
    ghost var m0 := ps.mmu.S();
    var from, to := ps.procs[parent].trapframe, ps.procs[child].trapframe;
    TrapOf(m0, ps.procs, ps.clean, parent);
    TrapOf(m0, ps.procs, ps.clean, child);
    BeyondKept(m, m0, child);
    assert m.use[ptf] == m0.use[ptf];
    InMemory(m0);
    assert ctf in ps.mmu.mem by { assert m0.use[ctf] == Private(child, ctf); }
    SetFrame(ps, child, WithFrame(ps.mmu.mem[to], ps.mmu.mem[from][..FRAME_WORDS]));
  }

  lemma KeptPages(m: M, m': M, f: Frame, g: Frame)
    requires Kept(m, m', NO_PAGE) && f in m.use && m.use[f] == Kernel && g in m.use && m.use[g] == Kernel && f != 0
    requires g != 0
    ensures f in m'.use && m'.use[f] == Kernel && g in m'.use && m'.use[g] == Kernel
  {
  }

  // ---------------------------------------------------------------------
  // Fork
  // ---------------------------------------------------------------------

  // In m', page v of the child is mapped to a page of its own that holds what the
  // parent's page held in m.
  predicate CopiedAt(m: M, m': M, parent: nat, child: nat, v: nat) {
    && parent in m.roots && child in m'.roots && v < MAXVPN && At(m, parent, v) != 0
    && PrivateAt(m', child, v) && ForData(At(m', child, v))
    && Ppn(At(m, parent, v)) != Ppn(At(m', child, v))
    && Ppn(At(m, parent, v)) in m.mem && Ppn(At(m', child, v)) in m'.mem
    && m'.mem[Ppn(At(m', child, v))] == m.mem[Ppn(At(m, parent, v))]
  }

  // Page v of the child is the parent's page.
  predicate SharedWith(m: M, m': M, parent: nat, child: nat, v: nat) {
    && parent in m.roots && child in m'.roots && v < MAXVPN && At(m, parent, v) != 0 && At(m', child, v) != 0
    && Ppn(At(m', child, v)) == Ppn(At(m, parent, v)) && SharedAt(m', child, v)
  }

  // What the child has mapped stays mapped; no page in anybody's hands is touched.
  ghost predicate Adds(m1: M, m2: M, child: nat) {
    && m2.roots == m1.roots && child in m1.roots && Kept(m1, m2, NO_PAGE)
    && forall v: nat {:trigger At(m2, child, v)} ::
        v < MAXVPN && At(m1, child, v) != 0 ==> At(m2, child, v) == At(m1, child, v)
  }

  lemma AddsKeeps(m: M, m1: M, m2: M, child: nat)
    requires Kept(m, m1, NO_PAGE) && Adds(m1, m2, child)
    ensures Kept(m, m2, NO_PAGE)
  {
    KeptTrans(m, m1, m2, NO_PAGE);
  }

  lemma CopiedStays(m: M, m1: M, m2: M, parent: nat, child: nat, v: nat)
    requires CopiedAt(m, m1, parent, child, v) && Adds(m1, m2, child) && 0 !in m1.use
    ensures CopiedAt(m, m2, parent, child, v)
  {
    hide At;
    assert At(m2, child, v) == At(m1, child, v);
    assert m1.use[Ppn(At(m1, child, v))] == Private(child, v);
  }

  lemma SharedStays(m: M, m1: M, m2: M, parent: nat, child: nat, v: nat)
    requires SharedWith(m, m1, parent, child, v) && Adds(m1, m2, child) && 0 !in m1.use
    ensures SharedWith(m, m2, parent, child, v)
  {
    hide At;
    assert At(m2, child, v) == At(m1, child, v);
    assert m1.use[Ppn(At(m1, child, v))] == Shared;
  }

  // One more page, or another page handed out.
  lemma AddsOne(m1: M, m2: M, m3: M, child: nat, vpn: nat, e: Word, f: Frame)
    requires SameMaps(m1, m2) && Kept(m1, m2, NO_PAGE) && OneChanged(m2, m3, child, vpn, e) && Kept(m2, m3, f)
    requires child in m1.roots && vpn < MAXVPN && At(m2, child, vpn) == 0 && (f in m1.use ==> !InHands(m1.use[f]))
    ensures Adds(m1, m3, child) && At(m1, child, vpn) == 0 && OneChanged(m1, m3, child, vpn, e)
  {
    hide At;
    assert At(m2, child, vpn) == At(m1, child, vpn);
    forall g | g in m1.use && InHands(m1.use[g]) && g != NO_PAGE
      ensures g in m3.use && m3.use[g] == m1.use[g] && g in m1.mem && g in m3.mem && m3.mem[g] == m1.mem[g]
    {
      assert m1.use[g] == m2.use[g];
    }
    forall v: nat | v < MAXVPN && At(m1, child, v) != 0 ensures At(m3, child, v) == At(m1, child, v) {
      assert At(m3, child, v) == At(m2, child, v);
    }
    forall q, v: nat | q in m1.roots && v < MAXVPN
      ensures At(m3, q, v) == if q == child && v == vpn then e else At(m1, q, v)
    {
      assert At(m3, q, v) == if q == child && v == vpn then e else At(m2, q, v);
    }
  }

  // The parent's page, as it was before the fork.
  lemma ParentPage(m: M, m1: M, parent: nat, child: nat, v: nat)
    requires PagesOk(m) && MapsOk(m) && Beyond(m, m1, child) && parent in m.roots && v < MAXVPN && At(m, parent, v) != 0
    ensures parent in m1.roots && At(m1, parent, v) == At(m, parent, v)
    ensures var f := Ppn(At(m, parent, v));
            f in m.mem && f in m1.mem && m1.mem[f] == m.mem[f] && f in m.use && InHands(m.use[f])
  {
    hide PagesOk, At;
    NoZero(m);
    assert Owned(m, parent, v, At(m, parent, v));
    assert m.use[Ppn(At(m, parent, v))] == m1.use[Ppn(At(m, parent, v))];
  }

  // What a fork has used so far: `pages` pages for itself and its copies, and the tables
  // for the pages vs, which are what the child has mapped.
  ghost predicate Spent(m: M, m': M, child: nat, vs: seq<nat>, pages: nat) {
    && child in m'.roots && Distinct(vs)
    && ShapeOf(m', child) == ExtendAll(NO_TABLES, vs) && |m'.free| == |m.free| - pages - TablesFor(NO_TABLES, vs)
    && forall v: nat {:trigger At(m', child, v)} :: v < MAXVPN ==> (At(m', child, v) != 0 <==> v in vs)
  }

  predicate Distinct(vs: seq<nat>) { forall i, j {:trigger vs[i], vs[j]} :: 0 <= i < j < |vs| ==> vs[i] != vs[j] }

  // One more page at v, when d pages are taken beside its tables.
  ghost predicate OneMoreFits(m: M, vs: seq<nat>, pages: nat, v: nat) {
    v < MAXVPN && v !in vs && pages + TablesFor(NO_TABLES, vs + [v]) <= |m.free|
  }

  lemma SpentCanMap(m: M, m0: M, m2: M, child: nat, vs: seq<nat>, pages: nat, d: nat, v: nat)
    requires Spent(m, m0, child, vs, pages) && SameMaps(m0, m2) && SameShapes(m0, m2) && |m2.free| == |m0.free| - d
    ensures child in m2.roots && (CanMap(m2, child, v) <==> OneMoreFits(m, vs, pages + d, v))
  {
    hide At, ShapeOf, Missing, ExtendAll, TablesFor;
    TablesForNext(NO_TABLES, vs, v);
    ShapeSame(m0, m2, child);
    SameAt(m0, m2, child, v);
    assert v < MAXVPN ==> (At(m0, child, v) != 0 <==> v in vs);
  }

  lemma SpentNext(m: M, m0: M, m2: M, m3: M, child: nat, vs: seq<nat>, pages: nat, d: nat, v: nat, e: Word)
    requires Spent(m, m0, child, vs, pages) && SameMaps(m0, m2) && SameShapes(m0, m2) && |m2.free| == |m0.free| - d
    requires OneMoreFits(m, vs, pages + d, v) && Walked(m2, m3, child, v, 0) && OneChanged(m2, m3, child, v, e)
    requires e != 0
    ensures Spent(m, m3, child, vs + [v], pages + d)
  {
    hide At, ShapeOf, Missing, ExtendAll, TablesFor, Extend;
    TablesForNext(NO_TABLES, vs, v);
    ShapeSame(m0, m2, child);
    MapsRoots(m0, m2);
    forall w: nat | w < MAXVPN ensures At(m3, child, w) != 0 <==> w in vs + [v] {
      assert At(m3, child, w) == if w == v then e else At(m2, child, w);
      SameAt(m0, m2, child, w);
      assert At(m0, child, w) != 0 <==> w in vs;
    }
    DistinctNext(vs, v);
  }

  lemma DistinctNext(vs: seq<nat>, v: nat)
    ensures Distinct(vs + [v]) <==> Distinct(vs) && v !in vs
  {
    var ws := vs + [v];
    if Distinct(ws) {
      forall i, j | 0 <= i < j < |vs| ensures vs[i] != vs[j] { assert ws[i] == vs[i] && ws[j] == vs[j]; }
      forall i | 0 <= i < |vs| ensures vs[i] != v { assert ws[i] == vs[i] && ws[|vs|] == v; }
    }
  }

  lemma SpentEmpty(m: M, m0: M, child: nat, vs: seq<nat>, pages: nat, v: nat)
    requires Spent(m, m0, child, vs, pages) && m0.free == []
    ensures !OneMoreFits(m, vs, pages + 1, v)
  {
    hide ShapeOf, TablesFor, ExtendAll, Missing;
    TablesForNext(NO_TABLES, vs, v);
  }

  // Pages that are no tables were taken and filled; the child has what it had.
  lemma SpentSame(m: M, m0: M, m1: M, child: nat, vs: seq<nat>, pages: nat)
    requires Spent(m, m0, child, vs, pages) && SameMaps(m0, m1) && SameShapes(m0, m1) && m1.free == m0.free
    ensures Spent(m, m1, child, vs, pages)
  {
    hide At, ShapeOf, TablesFor, ExtendAll;
    ShapeSame(m0, m1, child);
    forall w: nat | w < MAXVPN ensures At(m1, child, w) != 0 <==> w in vs {
      SameAt(m0, m1, child, w);
      assert At(m0, child, w) != 0 <==> w in vs;
    }
  }

  lemma SameShapesTrans(m: M, m1: M, m2: M)
    requires SameShapes(m, m1) && SameShapes(m1, m2)
    ensures SameShapes(m, m2)
  {
    hide ShapeOf;
    forall p | p in m.roots ensures ShapeOf(m2, p) == ShapeOf(m, p) {
      assert ShapeOf(m2, p) == ShapeOf(m1, p);
    }
  }

  // One page after the others.
  function Then(vs: seq<nat>, v: nat): seq<nat> { vs + [v] }

  /** One page of the heap: a new page, the parent's contents, and the mapping. */
  method ForkPage(ps: Procs, ghost m: M, parent: nat, child: nat, va: Word, ghost vs: seq<nat>, ghost pages: nat)
    returns (o: Outcome)
    requires child in ps.mmu.roots && parent in m.roots && va < MAXVA
    requires ps.Valid() && PagesOk(m) && MapsOk(m) && Beyond(m, ps.mmu.S(), child) && child !in ps.clean
    requires parent in ps.procs && child in ps.procs && va % PGSIZE == 0
    requires Spent(m, ps.mmu.S(), child, vs, pages)
    modifies ps.mmu
    ensures ps.mmu.roots == old(ps.mmu.roots)
    ensures o.Fine? <==> PhysicalPage(m, parent, va) != 0 && OneMoreFits(m, vs, pages + 1, va / PGSIZE)
    ensures o.Fine? ==> Spent(m, ps.mmu.S(), child, Then(vs, va / PGSIZE), pages + 1)
    ensures o.Fine? ==> ps.Valid() && Beyond(m, ps.mmu.S(), child) && Adds(old(ps.mmu.S()), ps.mmu.S(), child)
    ensures o.Fine? ==> CopiedAt(m, ps.mmu.S(), parent, child, va / PGSIZE) &&
                        OneChanged(old(ps.mmu.S()), ps.mmu.S(), child, va / PGSIZE, At(ps.mmu.S(), child, va / PGSIZE))
  {
    hide ProcsOk, Kept, SameMaps, SameShapes, At, Beyond, MkPte, ProtToType, OneChanged, PagesOk, MapsOk, SameUser,
      Ranged, PhysicalPage, Spent, OneMoreFits, Walked, CanMap;
    var mmu := ps.mmu;
    ghost var m0 := mmu.S();
    ghost var v := va / PGSIZE;
    ZeroNotUsed(mmu);
    DirOf(m0, ps.procs, ps.clean, child);
    DirOf(m0, ps.procs, ps.clean, parent);
    var f := TakePage(mmu);
    ghost var m1 := mmu.S();
    MapsRoots(m0, m1);
    if f == 0 { SpentEmpty(m, m0, child, vs, pages, v); return OutOfScope; }
    FreeHere(m0, f);
    BeyondKept(m, m0, child);
    NobodysPage(m, m0, f);
    BeyondTake(m, m0, m1, child);
    SameMapsUser(m0, m1);
    ProcsStay(m0, m1, ps.procs, ps.clean, NO_PAGE);
    var pa := mmu.LookupPa(parent, ps.procs[parent].pageDir, va);
    Looked(m, m1, parent, child, va, pa);
    if pa == 0 { return OutOfScope; }
    CopyPage(mmu, f, pa / PGSIZE);
    ghost var m2 := mmu.S();
    TakenKept(m0, m1, m2, f);
    SameMapsTrans(m0, m1, m2);
    SameShapesTrans(m0, m1, m2);
    MapsRoots(m0, m2);
    SpentCanMap(m, m0, m2, child, vs, pages, 1, v);
    o := MapCopy(ps, m, m0, m2, parent, child, va, f);
    if o == Fine { SpentNext(m, m0, m2, mmu.S(), child, vs, pages, 1, v, At(mmu.S(), child, v)); }
  }

  // Mapping the copied page.
  method MapCopy(ps: Procs, ghost m: M, ghost m0: M, ghost m2: M, ghost parent: nat, child: nat, va: Word, f: Frame)
    returns (o: Outcome)
    requires Ok(ps.mmu) && DRAM_BASE <= ps.mmu.start && ps.mmu.end <= DRAM_BASE + MAX_RAM && ps.mmu.S() == m2
    requires ps.trapPage in m0.use && m0.use[ps.trapPage] == Shared && 0x8_0000 <= ps.trapPage < 0x8_8000
    requires SameMaps(m0, m2) && Kept(m0, m2, NO_PAGE) && ProcsOk(m0, ps.procs, ps.clean) && 0 !in m0.use
    requires Beyond(m, m0, child) && child !in ps.clean && child in ps.procs && va < MAXVA && va % PGSIZE == 0
    requires f in m2.use && m2.use[f] == Kernel && (f in m0.use ==> !InHands(m0.use[f]))
    requires f in m.use ==> !InHands(m.use[f])
    requires parent in m.roots && At(m, parent, va / PGSIZE) != 0
    requires var g := Ppn(At(m, parent, va / PGSIZE)); g in m.mem && f in m2.mem && m2.mem[f] == m.mem[g] && g != f
    modifies ps.mmu
    ensures ps.mmu.roots == old(ps.mmu.roots)
    ensures o.Fine? ==> ps.Valid() && Beyond(m, ps.mmu.S(), child) && Adds(m0, ps.mmu.S(), child)
    ensures o.Fine? ==> CopiedAt(m, ps.mmu.S(), parent, child, va / PGSIZE) &&
                        OneChanged(m0, ps.mmu.S(), child, va / PGSIZE, At(ps.mmu.S(), child, va / PGSIZE))
    ensures child in m2.roots && (o.Fine? <==> CanMap(m2, child, va / PGSIZE))
    ensures o.Fine? ==> Walked(m2, ps.mmu.S(), child, va / PGSIZE, 0)
    ensures o.Fine? ==> At(ps.mmu.S(), child, va / PGSIZE) != 0 &&
                        OneChanged(m2, ps.mmu.S(), child, va / PGSIZE, At(ps.mmu.S(), child, va / PGSIZE))
  {
    hide Ok, ProcsOk, Kept, SameMaps, At, Beyond, MkPte, ProtToType, OneChanged, SameUser, Adds, Walked, CanMap;
    var mmu := ps.mmu;
    ghost var v := va / PGSIZE;
    SameMapsUser(m0, m2);
    MapsRoots(m0, m2);
    ProcsStay(m0, m2, ps.procs, ps.clean, NO_PAGE);
    DirOf(m2, ps.procs, ps.clean, child);
    SameUserAt(m0, m2, child, v);
    StillShared(m0, m2, ps.trapPage);
    KernelLow(mmu, f);
    Perms();
    BeyondTake(m, m0, m2, child);
    var r := MapUser(mmu, child, ps.procs[child].pageDir, va, f, ReadWrite());
    if r != Mapped { return Panic; }
    ghost var e := MkPte(f * PGSIZE, ReadWrite());
    ghost var m3 := mmu.S();
    EntryOfPage(f, ReadWrite());
    ZeroFrame(m2, f);
    AddsOne(m0, m2, m3, child, v, e, f);
    AfterOne(m0, m3, child, v, e, v);
    StillShared2(m2, m3, ps.trapPage, f);
    ProcsOne(m2, m3, ps.procs, ps.clean, child, v, e, f);
    BeyondOne(m, m2, m3, child, v, e, f);
    o := Fine;
  }

  lemma ZeroFrame(m: M, f: Frame)
    requires f in m.use && m.use[f] == Kernel
    ensures !m.use[f].Private? && m.use[f] != Shared
  {
  }

  lemma Looked(m: M, m1: M, parent: nat, child: nat, va: Word, pa: int)
    requires PagesOk(m) && MapsOk(m) && Beyond(m, m1, child) && parent in m.roots && va < MAXVA
    requires parent in m1.roots && pa == PhysicalPage(m1, parent, va)
    ensures pa == PhysicalPage(m, parent, va)
    ensures pa != 0 ==> At(m, parent, va / PGSIZE) != 0 && pa / PGSIZE == Ppn(At(m, parent, va / PGSIZE))
    ensures pa != 0 ==> var g := Ppn(At(m, parent, va / PGSIZE));
                        g in m.mem && g in m1.mem && m1.mem[g] == m.mem[g] && g in m.use && InHands(m.use[g])
  {
    hide PagesOk, MapsOk, At;
    var v := va / PGSIZE;
    assert At(m1, parent, v) == At(m, parent, v);
    if At(m, parent, v) != 0 { ParentPage(m, m1, parent, child, v); }
  }

  // No page of the child's heap area from v on is mapped.
  ghost predicate ArenaAbove(m: M, child: nat, lo: nat) {
    child in m.roots && forall v: nat {:trigger At(m, child, v)} :: lo <= v < ARENA_END ==> At(m, child, v) == 0
  }

  // The first n heap pages: the ones that the filter skips are not mapped, the others
  // are copies.
  ghost predicate HeapCopied(m: M, m': M, parent: nat, child: nat, filter: seq<int>, n: nat)
    requires n <= |filter|
  {
    && child in m'.roots
    && forall j: nat {:trigger filter[j]} :: j < n ==>
         if filter[j] != 0 then At(m', child, HEAP_VPN + j) == 0 else CopiedAt(m, m', parent, child, HEAP_VPN + j)
  }

  lemma HeapCopiedStays(m: M, m1: M, m2: M, parent: nat, child: nat, filter: seq<int>, n: nat, vpn: nat, e: Word)
    requires n <= |filter| <= MAX_HEAP_PAGES && HeapCopied(m, m1, parent, child, filter, n) && 0 !in m1.use
    requires Adds(m1, m2, child) && OneChanged(m1, m2, child, vpn, e) && !(HEAP_VPN <= vpn < HEAP_VPN + n)
    ensures HeapCopied(m, m2, parent, child, filter, n)
  {
    hide At, CopiedAt;
    forall j: nat | j < n
      ensures if filter[j] != 0 then At(m2, child, HEAP_VPN + j) == 0 else CopiedAt(m, m2, parent, child, HEAP_VPN + j)
    {
      assert At(m2, child, HEAP_VPN + j) == At(m1, child, HEAP_VPN + j);
      if filter[j] == 0 { CopiedStays(m, m1, m2, parent, child, HEAP_VPN + j); }
    }
  }

  lemma ArenaStays(m1: M, m2: M, child: nat, lo: nat, vpn: nat, e: Word)
    requires ArenaAbove(m1, child, lo) && OneChanged(m1, m2, child, vpn, e) && !(lo <= vpn < ARENA_END)
    ensures ArenaAbove(m2, child, lo)
  {
    hide At;
    forall v: nat | lo <= v < ARENA_END ensures At(m2, child, v) == 0 {
      assert At(m2, child, v) == At(m1, child, v);
    }
  }

  // What memset with the number of elements as its length clears: MAX_HEAP_PAGES bytes of
  // four-byte integers.
  const CLEARED := MAX_HEAP_PAGES / 4

  // A page of the heap that was given back, by its number.
  predicate Reclaims(h: Heap, n: nat, j: int)
    requires n <= |h.freed|
  {
    exists i {:trigger h.freed[i]} :: 0 <= i < n && (h.freed[i] - h.bottom) / PGSIZE == j
  }

  function FilterAt(h: Heap, junk: seq<int>, j: nat): int
    requires |junk| == MAX_HEAP_PAGES && j < MAX_HEAP_PAGES
  {
    if Reclaims(h, |h.freed|, j) then 1 else if j < CLEARED then 0 else junk[j]
  }

  /** The filter of do_fork, over an array whose bytes were `junk`; false if a reclaimed
      page is not among the first MAX_HEAP_PAGES. */
  method BuildFilter(h: Heap, junk: seq<int>) returns (ok: bool, filter: seq<int>)
    requires |junk| == MAX_HEAP_PAGES
    ensures ok ==>
      |filter| == MAX_HEAP_PAGES && forall j: nat {:trigger filter[j]} :: j < MAX_HEAP_PAGES ==>
        filter[j] == FilterAt(h, junk, j)
    ensures ok <==>
      forall i {:trigger h.freed[i]} :: 0 <= i < |h.freed| ==> 0 <= (h.freed[i] - h.bottom) / PGSIZE < MAX_HEAP_PAGES
  {
    filter := seq(MAX_HEAP_PAGES, j requires 0 <= j < MAX_HEAP_PAGES => if j < CLEARED then 0 else junk[j]);
    var i := 0;
    while i < |h.freed|
      invariant 0 <= i <= |h.freed| && |filter| == MAX_HEAP_PAGES
      invariant forall k {:trigger h.freed[k]} :: 0 <= k < i ==> 0 <= (h.freed[k] - h.bottom) / PGSIZE < MAX_HEAP_PAGES
      invariant forall j: nat {:trigger filter[j]} :: j < MAX_HEAP_PAGES ==>
                  filter[j] == if Reclaims(h, i, j) then 1 else if j < CLEARED then 0 else junk[j]
    {
      var index := (h.freed[i] - h.bottom) / PGSIZE;
      if !(0 <= index < MAX_HEAP_PAGES) { return false, []; }
      filter := filter[index := 1];
      i := i + 1;
    }
    ok := true;
  }

  function HeapPages(h: Heap): int { (h.top - h.bottom) / PGSIZE }

  // How far the fork has come, region by region, from the state m before it.
  ghost predicate ForkState(m: M, m': M, parent: nat, child: nat, rs: seq<Region>, filter: seq<int>, n: nat, i: nat)
    requires n <= |filter| && i <= |rs|
  {
    && Beyond(m, m', child) && child in m'.roots
    && (i > 0 ==> CopiedAt(m, m', parent, child, STACK_VPN))
    && (if i <= 3 then ArenaAbove(m', child, HEAP_VPN)
        else HeapCopied(m, m', parent, child, filter, n) && ArenaAbove(m', child, HEAP_VPN + n))
    && forall j {:trigger rs[j]} ::
        4 <= j < i && rs[j].kind == CODE ==> SharedWith(m, m', parent, child, rs[j].va / PGSIZE)
  }

  // The heap pages among the first n that the filter lets through.
  function CopiedPages(filter: seq<int>, n: nat): seq<nat>
    requires n <= |filter|
  {
    if n == 0 then [] else CopiedPages(filter, n - 1) + (if filter[n - 1] == 0 then [HEAP_VPN + n - 1] else [])
  }

  lemma {:induction false} CopiedPagesMore(filter: seq<int>, n: nat, k: nat)
    requires n <= k <= |filter|
    ensures CopiedPages(filter, n) <= CopiedPages(filter, k)
    decreases k - n
  {
    if n < k { CopiedPagesMore(filter, n, k - 1); }
  }

  // The parent's pages that are to be copied can be read.
  ghost predicate ReadableHeap(m: M, parent: nat, filter: seq<int>, n: nat)
    requires parent in m.roots && n <= |filter| <= MAX_HEAP_PAGES
  {
    forall j: nat {:trigger filter[j]} ::
      j < n && filter[j] == 0 ==> PhysicalPage(m, parent, (HEAP_VPN + j) * PGSIZE) != 0
  }

  // Pages vs and their tables fit.
  ghost predicate Fits(m: M, vs: seq<nat>, pages: nat) { pages + TablesFor(NO_TABLES, vs) <= |m.free| }

  lemma FitsLess(m: M, vs: seq<nat>, ws: seq<nat>, pages: nat, more: nat)
    requires vs <= ws && pages <= more && Fits(m, ws, more)
    ensures Fits(m, vs, pages)
  {
    hide TablesFor;
    TablesForMore(NO_TABLES, vs, ws[|vs|..]);
    assert ws == vs + ws[|vs|..];
  }

  // The heap loop stops at page n: then the whole does not fit, or cannot be read.
  lemma HeapStops(m: M, parent: nat, filter: seq<int>, n: nat, k: nat, vs: seq<nat>, pages: nat)
    requires parent in m.roots && n < k <= |filter| <= MAX_HEAP_PAGES && filter[n] == 0
    requires HEAP_VPN + n !in vs + CopiedPages(filter, n)
    requires !BlockFits(m, parent, filter, n, vs, pages)
    ensures ReadableHeap(m, parent, filter, k) ==>
      !Fits(m, vs + CopiedPages(filter, k), pages + |CopiedPages(filter, k)|)
  {
    hide TablesFor, PhysicalPage;
    var a, b, c := CopiedPages(filter, n), CopiedPages(filter, n + 1), CopiedPages(filter, k);
    assert b == a + [HEAP_VPN + n];
    assert vs + b == vs + a + [HEAP_VPN + n];
    if Fits(m, vs + c, pages + |c|) {
      CopiedPagesMore(filter, n + 1, k);
      FitsLess(m, vs + b, vs + c, pages + |b|, pages + |c|);
    }
  }

  /** The HEAP_SEGMENT case of do_fork. */
  method ForkHeap(ps: Procs, ghost m: M, parent: nat, child: nat, h: Heap, filter: seq<int>, ghost vs: seq<nat>,
                  ghost pages: nat)
    returns (o: Outcome)
    requires ps.Valid() && PagesOk(m) && MapsOk(m) && Beyond(m, ps.mmu.S(), child) && child !in ps.clean
    requires parent in m.roots && parent in ps.procs && child in ps.procs && BaseHeap(h)
    requires HeapPages(h) <= |filter| == MAX_HEAP_PAGES
    requires ArenaAbove(ps.mmu.S(), child, HEAP_VPN) && CopiedAt(m, ps.mmu.S(), parent, child, STACK_VPN)
    requires Spent(m, ps.mmu.S(), child, vs, pages)
    modifies ps.mmu
    ensures o.Fine? ==> ps.Valid() && Beyond(m, ps.mmu.S(), child) && Kept(old(ps.mmu.S()), ps.mmu.S(), NO_PAGE)
    ensures o.Fine? ==> HeapCopied(m, ps.mmu.S(), parent, child, filter, HeapPages(h)) &&
                        ArenaAbove(ps.mmu.S(), child, HEAP_VPN + HeapPages(h)) &&
                        CopiedAt(m, ps.mmu.S(), parent, child, STACK_VPN)
    ensures o.Fine? <==> ReadableHeap(m, parent, filter, HeapPages(h)) &&
                         Fits(m, vs + CopiedPages(filter, HeapPages(h)), pages + |CopiedPages(filter, HeapPages(h))|)
    ensures o.Fine? ==>
      Spent(m, ps.mmu.S(), child, vs + CopiedPages(filter, HeapPages(h)), pages + |CopiedPages(filter, HeapPages(h))|)
  {
    hide Ok, ProcsOk, Kept, At, Beyond, OneChanged, PagesOk, MapsOk, HeapCopied, ArenaAbove, CopiedAt, Adds,
      PhysicalPage, Spent, OneMoreFits, Fits, HeapSoFar, ReadableHeap;
    var block, n := h.bottom, 0;
    ghost var m0 := ps.mmu.S();
    KeptSelfOf(ps.mmu);
    NoneSoFar(m, m0, parent, child, filter, vs);
    while block < h.top
      invariant ps.Valid() && 0 <= n <= HeapPages(h) && block == h.bottom + n * PGSIZE
      invariant HeapSoFar(m, m0, ps.mmu.S(), parent, child, filter, n) && ReadableHeap(m, parent, filter, n)
      invariant Spent(m, ps.mmu.S(), child, vs + CopiedPages(filter, n), pages + |CopiedPages(filter, n)|)
      decreases h.top - block
    {
      SoFarParts(m, m0, ps.mmu.S(), parent, child, filter, n);
      BlockNotYet(m, ps.mmu.S(), child, vs + CopiedPages(filter, n), pages + |CopiedPages(filter, n)|, n);
      o := ForkBlock(ps, m, m0, parent, child, block, filter, n, vs, pages);
      if o != Fine { HeapStops(m, parent, filter, n, HeapPages(h), vs, pages); return; }
      block, n := block + PGSIZE, n + 1;
    }
    SpentFits(m, ps.mmu.S(), child, vs + CopiedPages(filter, n), pages + |CopiedPages(filter, n)|);
    SoFarParts(m, m0, ps.mmu.S(), parent, child, filter, n);
    o := Fine;
  }

  // The state once the first n blocks of the heap are done; m0 is the one before.
  ghost predicate HeapSoFar(m: M, m0: M, m': M, parent: nat, child: nat, filter: seq<int>, n: nat)
    requires n <= |filter|
  {
    && Beyond(m, m', child) && Kept(m0, m', NO_PAGE) && CopiedAt(m, m', parent, child, STACK_VPN)
    && HeapCopied(m, m', parent, child, filter, n) && ArenaAbove(m', child, HEAP_VPN + n)
  }

  lemma NoneSoFar(m: M, m0: M, parent: nat, child: nat, filter: seq<int>, vs: seq<nat>)
    requires parent in m.roots && |filter| <= MAX_HEAP_PAGES && Beyond(m, m0, child) && Kept(m0, m0, NO_PAGE)
    requires ArenaAbove(m0, child, HEAP_VPN) && CopiedAt(m, m0, parent, child, STACK_VPN)
    ensures HeapSoFar(m, m0, m0, parent, child, filter, 0) && ReadableHeap(m, parent, filter, 0)
    ensures vs + CopiedPages(filter, 0) == vs
  {
    hide Beyond, Kept, CopiedAt, At, ArenaAbove;
    NothingCopied(m, m0, parent, child, filter);
  }

  lemma SoFarParts(m: M, m0: M, m': M, parent: nat, child: nat, filter: seq<int>, n: nat)
    requires n <= |filter| && HeapSoFar(m, m0, m', parent, child, filter, n)
    ensures Beyond(m, m', child) && Kept(m0, m', NO_PAGE) && CopiedAt(m, m', parent, child, STACK_VPN)
    ensures HeapCopied(m, m', parent, child, filter, n) && ArenaAbove(m', child, HEAP_VPN + n)
  {
  }

  // Block n can be read, and there are pages for its copy and for the tables that map it.
  ghost predicate BlockFits(m: M, parent: nat, filter: seq<int>, n: nat, vs: seq<nat>, pages: nat)
    requires parent in m.roots && n < |filter| <= MAX_HEAP_PAGES
  {
    && PhysicalPage(m, parent, (HEAP_VPN + n) * PGSIZE) != 0
    && OneMoreFits(m, vs + CopiedPages(filter, n), pages + |CopiedPages(filter, n)| + 1, HEAP_VPN + n)
  }

  lemma BlockNotYet(m: M, m': M, child: nat, vs: seq<nat>, pages: nat, n: nat)
    requires n < MAX_HEAP_PAGES && ArenaAbove(m', child, HEAP_VPN + n) && Spent(m, m', child, vs, pages)
    ensures HEAP_VPN + n !in vs
  {
    ArenaPoint(m', child, HEAP_VPN + n);
    SpentAt(m, m', child, vs, pages, HEAP_VPN + n);
  }

  // One turn of the loop over the heap.
  method ForkBlock(ps: Procs, ghost m: M, ghost m0: M, parent: nat, child: nat, block: Word, filter: seq<int>, n: nat,
                   ghost vs: seq<nat>, ghost pages: nat)
    returns (o: Outcome)
    requires n < |filter| == MAX_HEAP_PAGES && block == (HEAP_VPN + n) * PGSIZE && parent in m.roots
    requires parent in ps.procs && child in ps.procs && child !in ps.clean
    requires HeapSoFar(m, m0, ps.mmu.S(), parent, child, filter, n) && ReadableHeap(m, parent, filter, n)
    requires Spent(m, ps.mmu.S(), child, vs + CopiedPages(filter, n), pages + |CopiedPages(filter, n)|)
    requires ps.Valid() && PagesOk(m) && MapsOk(m)
    modifies ps.mmu
    ensures o.Fine? <==> filter[n] != 0 || BlockFits(m, parent, filter, n, vs, pages)
    ensures o.Fine? ==> ps.Valid() && HeapSoFar(m, m0, ps.mmu.S(), parent, child, filter, n + 1)
    ensures o.Fine? ==>
      Spent(m, ps.mmu.S(), child, vs + CopiedPages(filter, n + 1), pages + |CopiedPages(filter, n + 1)|)
    ensures o.Fine? ==> ReadableHeap(m, parent, filter, n + 1)
  {
    hide Ok, ProcsOk, Kept, At, Beyond, OneChanged, PagesOk, MapsOk, HeapCopied, ArenaAbove, CopiedAt, Adds,
      PhysicalPage, Spent, OneMoreFits, Fits, HeapSoFar;
    ghost var m1 := ps.mmu.S();
    SoFarParts(m, m0, m1, parent, child, filter, n);
    if filter[n] != 0 {
      HeapSkipped(m, m1, parent, child, filter, n);
      SoFarIs(m, m0, m1, parent, child, filter, n + 1);
      assert CopiedPages(filter, n + 1) == CopiedPages(filter, n);
      o := Fine;
    } else {
      assert block / PGSIZE == HEAP_VPN + n;
      ghost var ws := vs + CopiedPages(filter, n);
      BeyondKept(m, m1, child);
      ZeroNotUsed(ps.mmu);
      BlockNotYet(m, m1, child, ws, pages + |CopiedPages(filter, n)|, n);
      o := ForkPage(ps, m, parent, child, block, ws, pages + |CopiedPages(filter, n)|);
      if o == Fine {
        assert CopiedPages(filter, n + 1) == CopiedPages(filter, n) + [HEAP_VPN + n];
        assert Then(ws, HEAP_VPN + n) == vs + CopiedPages(filter, n + 1);
        HeapGoesOn(m, m0, m1, ps.mmu.S(), parent, child, filter, n);
      }
    }
  }

  lemma SoFarIs(m: M, m0: M, m': M, parent: nat, child: nat, filter: seq<int>, n: nat)
    requires n <= |filter| && Beyond(m, m', child) && Kept(m0, m', NO_PAGE) && CopiedAt(m, m', parent, child, STACK_VPN)
    requires HeapCopied(m, m', parent, child, filter, n) && ArenaAbove(m', child, HEAP_VPN + n)
    ensures HeapSoFar(m, m0, m', parent, child, filter, n)
  {
  }

  // Block n was copied.
  lemma HeapGoesOn(m: M, m0: M, m1: M, m2: M, parent: nat, child: nat, filter: seq<int>, n: nat)
    requires n < |filter| <= MAX_HEAP_PAGES && filter[n] == 0 && HeapSoFar(m, m0, m1, parent, child, filter, n)
    requires 0 !in m1.use
    requires child in m2.roots && Beyond(m, m2, child) && Adds(m1, m2, child)
    requires CopiedAt(m, m2, parent, child, HEAP_VPN + n)
    requires OneChanged(m1, m2, child, HEAP_VPN + n, At(m2, child, HEAP_VPN + n))
    ensures HeapSoFar(m, m0, m2, parent, child, filter, n + 1)
  {
    hide Kept, At, Beyond, OneChanged, HeapCopied, ArenaAbove, CopiedAt, Adds;
    var e := At(m2, child, HEAP_VPN + n);
    AddsKeeps(m0, m1, m2, child);
    HeapCopiedStays(m, m1, m2, parent, child, filter, n, HEAP_VPN + n, e);
    CopiedStays(m, m1, m2, parent, child, STACK_VPN);
    OneMoreCopied(m, m2, parent, child, filter, n);
    ArenaNext(m1, child, HEAP_VPN + n);
    ArenaStays(m1, m2, child, HEAP_VPN + n + 1, HEAP_VPN + n, e);
  }

  lemma SpentAt(m: M, m': M, child: nat, vs: seq<nat>, pages: nat, v: nat)
    requires Spent(m, m', child, vs, pages) && v < MAXVPN
    ensures child in m'.roots && (At(m', child, v) != 0 <==> v in vs)
  {
  }

  lemma SpentFits(m: M, m': M, child: nat, vs: seq<nat>, pages: nat)
    requires Spent(m, m', child, vs, pages)
    ensures Fits(m, vs, pages) && Distinct(vs)
  {
  }

  lemma NothingCopied(m: M, m': M, parent: nat, child: nat, filter: seq<int>)
    requires ArenaAbove(m', child, HEAP_VPN)
    ensures HeapCopied(m, m', parent, child, filter, 0)
  {
  }

  lemma ArenaPoint(m: M, child: nat, v: nat)
    requires ArenaAbove(m, child, v)
    ensures child in m.roots && (v < ARENA_END ==> At(m, child, v) == 0)
  {
  }

  lemma ArenaNext(m: M, child: nat, v: nat)
    requires ArenaAbove(m, child, v)
    ensures ArenaAbove(m, child, v + 1)
  {
    hide At;
  }

  lemma HeapSkipped(m: M, m': M, parent: nat, child: nat, filter: seq<int>, n: nat)
    requires n < |filter| <= MAX_HEAP_PAGES && HeapCopied(m, m', parent, child, filter, n)
    requires ArenaAbove(m', child, HEAP_VPN + n) && filter[n] != 0
    ensures HeapCopied(m, m', parent, child, filter, n + 1) && ArenaAbove(m', child, HEAP_VPN + n + 1)
  {
    hide At, CopiedAt;
    ArenaNext(m', child, HEAP_VPN + n);
    assert At(m', child, HEAP_VPN + n) == 0;
  }

  lemma OneMoreCopied(m: M, m': M, parent: nat, child: nat, filter: seq<int>, n: nat)
    requires n < |filter| <= MAX_HEAP_PAGES && HeapCopied(m, m', parent, child, filter, n) && filter[n] == 0
    requires CopiedAt(m, m', parent, child, HEAP_VPN + n)
    ensures HeapCopied(m, m', parent, child, filter, n + 1)
  {
    hide At, CopiedAt;
  }

  /** The STACK_SEGMENT case of do_fork. */
  method ForkStack(ps: Procs, ghost m: M, parent: nat, child: nat, ghost stack: Frame, ghost vs: seq<nat>,
                   ghost pages: nat) returns (o: Outcome)
    requires ps.Valid() && PagesOk(m) && MapsOk(m) && Beyond(m, ps.mmu.S(), child) && parent in m.roots
    requires parent in ps.procs && child in ps.procs && parent != child && child in ps.mmu.roots
    requires stack in ps.mmu.use && ps.mmu.use[stack] == Private(child, STACK_VPN) && stack < 0x8_8000
    requires (stack in m.use ==> !InHands(m.use[stack]))
    requires ReadWrite() < 1024 && At(ps.mmu.S(), child, STACK_VPN) == MkPte(stack * PGSIZE, ReadWrite())
    requires ArenaAbove(ps.mmu.S(), child, HEAP_VPN) && Spent(m, ps.mmu.S(), child, vs, pages)
    modifies ps.mmu
    ensures o.Fine? ==> ps.Valid() && Beyond(m, ps.mmu.S(), child) && ArenaAbove(ps.mmu.S(), child, HEAP_VPN)
    ensures o.Fine? ==> CopiedAt(m, ps.mmu.S(), parent, child, STACK_VPN)
    ensures o.Fine? <==> PhysicalPage(m, parent, STACK_VPN * PGSIZE) != 0
    ensures o.Fine? ==> Spent(m, ps.mmu.S(), child, vs, pages)
  {
    hide ProcsOk, Kept, SameMaps, SameShapes, At, Beyond, MkPte, ProtToType, PagesOk, MapsOk, SameUser, Ranged,
      ArenaAbove, PhysicalPage, Spent;
    var mmu := ps.mmu;
    var va: Word := STACK_VPN * PGSIZE;
    ghost var m0 := mmu.S();
    DirOf(m0, ps.procs, ps.clean, parent);
    DirOf(m0, ps.procs, ps.clean, child);
    var src := mmu.LookupPa(parent, ps.procs[parent].pageDir, va);
    Looked(m, m0, parent, child, va, src);
    if src == 0 { return OutOfScope; }
    var dst := mmu.LookupPa(child, ps.procs[child].pageDir, va);
    EntryOfPage(stack, ReadWrite());
    LookedAt(m0, child, va, stack);
    CopyPage(mmu, dst / PGSIZE, src / PGSIZE);
    ghost var m1 := mmu.S();
    SameMapsUser(m0, m1);
    MapsRoots(m0, m1);
    SpentSame(m, m0, m1, child, vs, pages);
    SameAt(m0, m1, child, STACK_VPN);
    ProcsStay(m0, m1, ps.procs, ps.clean, stack);
    BeyondFilled(m, m0, m1, child, stack);
    ArenaSame(m0, m1, child, HEAP_VPN);
    ZeroNotUsed(mmu);
    StillShared2(m0, m1, ps.trapPage, stack);
    o := Fine;
  }

  lemma LookedAt(m: M, p: nat, va: Word, f: Frame)
    requires p in m.roots && va < MAXVA && At(m, p, va / PGSIZE) != 0 && R(At(m, p, va / PGSIZE))
    requires Ppn(At(m, p, va / PGSIZE)) == f
    ensures PhysicalPage(m, p, va) == f * PGSIZE && PhysicalPage(m, p, va) / PGSIZE == f
  {
    hide At, R;
    PageOf(At(m, p, va / PGSIZE));
  }

  lemma ArenaSame(m: M, m': M, child: nat, lo: nat)
    requires ArenaAbove(m, child, lo) && SameMaps(m, m')
    ensures ArenaAbove(m', child, lo)
  {
    hide At;
    forall v: nat | lo <= v < ARENA_END ensures At(m', child, v) == 0 {
      assert At(m', child, v) == At(m, child, v);
    }
  }

  lemma BeyondFilled(m: M, m1: M, m2: M, p: nat, x: Frame)
    requires Beyond(m, m1, p) && SameMaps(m1, m2) && Kept(m1, m2, x) && (x in m.use ==> !InHands(m.use[x]))
    ensures Beyond(m, m2, p)
  {
    hide At;
    forall f | f in m.use && InHands(m.use[f]) && f != NO_PAGE
      ensures f in m2.use && m2.use[f] == m.use[f] && f in m.mem && f in m2.mem && m2.mem[f] == m.mem[f]
    {
      assert m.use[f] == m1.use[f];
    }
    forall q, v: nat | q in m.roots && v < MAXVPN ensures At(m2, q, v) == At(m, q, v) {
      assert At(m2, q, v) == At(m1, q, v);
    }
  }

  /** The CODE_SEGMENT case of do_fork: one page, shared. */
  method ForkCode(ps: Procs, ghost m: M, parent: nat, child: nat, va: Word, ghost vs: seq<nat>, ghost pages: nat)
    returns (o: Outcome)
    requires child in ps.mmu.roots && parent in m.roots && va < MAXVA
    requires ps.Valid() && PagesOk(m) && MapsOk(m) && Beyond(m, ps.mmu.S(), child) && child !in ps.clean
    requires parent in ps.procs && child in ps.procs && va % PGSIZE == 0
    requires SharedAt(m, parent, va / PGSIZE) && !InArena(va / PGSIZE) && Spent(m, ps.mmu.S(), child, vs, pages)
    modifies ps.mmu
    ensures ps.mmu.roots == old(ps.mmu.roots)
    ensures o.Fine? <==> OneMoreFits(m, vs, pages, va / PGSIZE)
    ensures o.Fine? ==> Spent(m, ps.mmu.S(), child, Then(vs, va / PGSIZE), pages)
    ensures o.Fine? ==> ps.Valid() && Beyond(m, ps.mmu.S(), child) && Adds(old(ps.mmu.S()), ps.mmu.S(), child)
    ensures o.Fine? ==> SharedWith(m, ps.mmu.S(), parent, child, va / PGSIZE) &&
                        OneChanged(old(ps.mmu.S()), ps.mmu.S(), child, va / PGSIZE, At(ps.mmu.S(), child, va / PGSIZE))
  {
    hide ProcsOk, Kept, SameMaps, SameShapes, At, Beyond, MkPte, ProtToType, OneChanged, PagesOk, MapsOk, SameUser,
      Ranged, PhysicalPage, Adds, Spent, OneMoreFits, Walked, CanMap, R, W;
    var mmu := ps.mmu;
    ghost var m0 := mmu.S();
    ghost var v := va / PGSIZE;
    DirOf(m0, ps.procs, ps.clean, child);
    DirOf(m0, ps.procs, ps.clean, parent);
    ParentPage(m, m0, parent, child, v);
    BeyondKept(m, m0, child);
    NoZero(m);
    ZeroNotUsed(mmu);
    StillHere(m, m0, Ppn(At(m, parent, v)));
    var pa := mmu.LookupPa(parent, ps.procs[parent].pageDir, va);
    Looked(m, m0, parent, child, va, pa);
    ghost var f := Ppn(At(m, parent, v));
    LookedAt(m, parent, va, f);
    InUseNotZero(m, f);
    ProtBits(5, true);
    FrameFits(f);
    SameMapsSelf(m0);
    SelfShapes(m0);
    SpentCanMap(m, m0, m0, child, vs, pages, 0, v);
    var r := MapUser(mmu, child, ps.procs[child].pageDir, va, pa / PGSIZE, CodePerm());
    if r != Mapped { return Panic; }
    ghost var m1 := mmu.S();
    ghost var e := MkPte(f * PGSIZE, CodePerm());
    EntryOfPage(f, CodePerm());
    SpentNext(m, m0, m0, m1, child, vs, pages, 0, v, e);
    AfterOne(m0, m1, child, v, e, v);
    SharedKept(m0, m1, f);
    AddsShared(m0, m1, child, v, e);
    ProcsOne(m0, m1, ps.procs, ps.clean, child, v, e, NO_PAGE);
    BeyondShared(m, m0, m1, child, v, e);
    StillHere(m0, m1, ps.trapPage);
    o := Fine;
  }

  lemma InUseNotZero(m: M, f: Frame)
    requires f in m.use && 0 !in m.use
    ensures f * PGSIZE != 0
  {
  }

  lemma SelfShapes(m: M)
    ensures SameShapes(m, m)
  {
  }

  lemma FrameFits(f: Frame)
    requires f < 0x8_8000
    ensures f * PGSIZE + MAXVA + PGSIZE <= PPN_LIMIT * PGSIZE
  {
  }

  lemma StillHere(m: M, m': M, f: Frame)
    requires Kept(m, m', NO_PAGE) && f in m.use && InHands(m.use[f]) && f != 0
    ensures f in m'.use && m'.use[f] == m.use[f] && m'.shared == m.shared
  {
  }

  // A shared page was mapped once more: nothing in anybody's hands changed.
  lemma SharedKept(m0: M, m1: M, f: Frame)
    requires Kept(m0, m1, f) && f in m0.use && m0.use[f] == Shared && f in m1.use && m1.use[f] == Shared
    requires f in m0.mem && f in m1.mem && m1.mem[f] == m0.mem[f]
    ensures Kept(m0, m1, NO_PAGE)
  {
  }

  lemma AddsShared(m0: M, m1: M, child: nat, v: nat, e: Word)
    requires Kept(m0, m1, NO_PAGE) && OneChanged(m0, m1, child, v, e) && child in m0.roots && At(m0, child, v) == 0
    ensures Adds(m0, m1, child)
  {
    hide At;
    forall w: nat | w < MAXVPN && At(m0, child, w) != 0 ensures At(m1, child, w) == At(m0, child, w) {}
  }

  lemma BeyondShared(m: M, m0: M, m1: M, child: nat, v: nat, e: Word)
    requires Beyond(m, m0, child) && Kept(m0, m1, NO_PAGE) && OneChanged(m0, m1, child, v, e)
    ensures Beyond(m, m1, child)
  {
    hide At;
    KeptTrans(m, m0, m1, NO_PAGE);
    forall q, w: nat | q in m.roots && w < MAXVPN ensures At(m1, q, w) == At(m, q, w) {
      assert At(m1, q, w) == At(m0, q, w);
    }
  }

  // ---------------------------------------------------------------------
  // do_fork, region by region
  // ---------------------------------------------------------------------

  lemma ForkNothing(m: M, m': M, parent: nat, child: nat, rs: seq<Region>, filter: seq<int>, n: nat, i: nat)
    requires n <= |filter| && i < |rs| && ForkState(m, m', parent, child, rs, filter, n, i)
    requires i != 0 && i != 3 && (i >= 4 ==> rs[i].kind != CODE)
    ensures ForkState(m, m', parent, child, rs, filter, n, i + 1)
  {
    hide Beyond, CopiedAt, ArenaAbove, HeapCopied, SharedWith;
  }

  lemma ForkCoded(m: M, m1: M, m2: M, parent: nat, child: nat, rs: seq<Region>, filter: seq<int>, n: nat, i: nat,
                  e: Word)
    requires n <= |filter| <= MAX_HEAP_PAGES && 4 <= i < |rs| && ForkState(m, m1, parent, child, rs, filter, n, i)
    requires Beyond(m, m2, child) && Adds(m1, m2, child) && OneChanged(m1, m2, child, rs[i].va / PGSIZE, e)
    requires SharedWith(m, m2, parent, child, rs[i].va / PGSIZE) && !InArena(rs[i].va / PGSIZE) && 0 !in m1.use
    ensures ForkState(m, m2, parent, child, rs, filter, n, i + 1)
  {
    hide Beyond, CopiedAt, ArenaAbove, HeapCopied, SharedWith, Adds, OneChanged, At;
    var v := rs[i].va / PGSIZE;
    CopiedStays(m, m1, m2, parent, child, STACK_VPN);
    HeapCopiedStays(m, m1, m2, parent, child, filter, n, v, e);
    ArenaStays(m1, m2, child, HEAP_VPN + n, v, e);
    forall j | 4 <= j < i && rs[j].kind == CODE ensures SharedWith(m, m2, parent, child, rs[j].va / PGSIZE) {
      SharedStays(m, m1, m2, parent, child, rs[j].va / PGSIZE);
    }
    InRoots(m2, parent, child, v, m);
  }

  lemma InRoots(m': M, parent: nat, child: nat, v: nat, m: M)
    requires SharedWith(m, m', parent, child, v)
    ensures child in m'.roots
  {
  }

  // The code pages among the first i regions.
  function CodePages(rs: seq<Region>, i: nat): seq<nat>
    requires i <= |rs|
  {
    if i <= 4 then [] else CodePages(rs, i - 1) + (if rs[i - 1].kind == CODE then [rs[i - 1].va / PGSIZE] else [])
  }

  // The child's pages after i regions, the first three being those of alloc_process.
  function PagesBy(first: seq<nat>, filter: seq<int>, n: nat, rs: seq<Region>, i: nat): seq<nat>
    requires n <= |filter| && i <= |rs|
  {
    if i <= 3 then first else first + CopiedPages(filter, n) + CodePages(rs, i)
  }

  // ... and the pages for itself and for the copies.
  function CopiesBy(filter: seq<int>, n: nat, i: nat): nat
    requires n <= |filter|
  {
    6 + if i <= 3 then 0 else |CopiedPages(filter, n)|
  }

  lemma {:induction false} PagesByMore(first: seq<nat>, filter: seq<int>, n: nat, rs: seq<Region>, i: nat, j: nat)
    requires n <= |filter| && i <= j <= |rs|
    ensures PagesBy(first, filter, n, rs, i) <= PagesBy(first, filter, n, rs, j)
    ensures CopiesBy(filter, n, i) <= CopiesBy(filter, n, j)
    decreases j - i
  {
    if i < j { PagesByMore(first, filter, n, rs, i, j - 1); }
  }

  // What region i needs to be done.
  ghost predicate RegionFits(m: M, parent: nat, first: seq<nat>, filter: seq<int>, n: nat, rs: seq<Region>, i: nat)
    requires parent in m.roots && n <= |filter| <= MAX_HEAP_PAGES && i < |rs|
  {
    if i == 0 then PhysicalPage(m, parent, STACK_VPN * PGSIZE) != 0
    else if i == 3 then
      ReadableHeap(m, parent, filter, n) && Fits(m, first + CopiedPages(filter, n), 6 + |CopiedPages(filter, n)|)
    else if i >= 4 && rs[i].kind == CODE then
      OneMoreFits(m, PagesBy(first, filter, n, rs, i), CopiesBy(filter, n, i), rs[i].va / PGSIZE)
    else true
  }

  // One turn of the loop.
  method ForkRegion(ps: Procs, ghost m: M, parent: nat, child: nat, rs: seq<Region>, h: Heap, filter: seq<int>, i: nat,
                    ghost stack: Frame, ghost first: seq<nat>, ghost ptf: Frame, ghost ctf: Frame)
    returns (o: Outcome)
    requires ps.Valid() && PagesOk(m) && MapsOk(m) && child !in ps.clean && parent != child
    requires parent in m.roots && parent in ps.procs && child in ps.procs && BaseHeap(h)
    requires HeapPages(h) <= |filter| == MAX_HEAP_PAGES
    requires CodeOk(m, parent, rs) && i < |rs| && ForkState(m, ps.mmu.S(), parent, child, rs, filter, HeapPages(h), i)
    requires Spent(m, ps.mmu.S(), child, PagesBy(first, filter, HeapPages(h), rs, i), CopiesBy(filter, HeapPages(h), i))
    requires i == 0 ==>
      && stack in ps.mmu.use && ps.mmu.use[stack] == Private(child, STACK_VPN) && stack < 0x8_8000
      && (stack in m.use ==> !InHands(m.use[stack]))
      && ReadWrite() < 1024 && At(ps.mmu.S(), child, STACK_VPN) == MkPte(stack * PGSIZE, ReadWrite())
    requires ptf == ps.procs[parent].trapframe && ctf == ps.procs[child].trapframe && FramesApart(m, parent, ptf, ctf)
    requires i > 1 ==> FrameCopied(m, ps.mmu.S(), ptf, ctf)
    modifies ps.mmu
    ensures o.Fine? && i >= 1 ==> FrameCopied(m, ps.mmu.S(), ptf, ctf)
    ensures o.Fine? ==> ps.Valid() && ForkState(m, ps.mmu.S(), parent, child, rs, filter, HeapPages(h), i + 1)
    ensures o.Fine? <==> RegionFits(m, parent, first, filter, HeapPages(h), rs, i)
    ensures o.Fine? ==>
      Spent(m, ps.mmu.S(), child, PagesBy(first, filter, HeapPages(h), rs, i + 1),
            CopiesBy(filter, HeapPages(h), i + 1))
  {
    hide Ok, ProcsOk, At, Beyond, MkPte, ProtToType, PagesOk, MapsOk, ArenaAbove, HeapCopied, CopiedAt, SharedWith,
      Spent, OneMoreFits, Fits, ReadableHeap, PhysicalPage;
    ghost var m1 := ps.mmu.S();
    ghost var vs, pages := PagesBy(first, filter, HeapPages(h), rs, i), CopiesBy(filter, HeapPages(h), i);
    RegionKind(m, parent, rs, i);
    NextPages(first, filter, HeapPages(h), rs, i);
    TrapOf(m1, ps.procs, ps.clean, child);
    match rs[i].kind
    case STACK =>
      o := ForkStack(ps, m, parent, child, stack, vs, pages);
      if o == Fine { ArenaPoint(ps.mmu.S(), child, HEAP_VPN); }
    case HEAP =>
      o := ForkHeap(ps, m, parent, child, h, filter, vs, pages);
      if o == Fine {
        ArenaPoint(ps.mmu.S(), child, HEAP_VPN + HeapPages(h));
        FrameStays(m, m1, ps.mmu.S(), ptf, ctf);
      }
    case CODE =>
      ZeroNotUsed(ps.mmu);
      o := ForkCode(ps, m, parent, child, rs[i].va, vs, pages);
      if o == Fine {
        InRoots(ps.mmu.S(), parent, child, rs[i].va / PGSIZE, m);
        ForkCoded(m, m1, ps.mmu.S(), parent, child, rs, filter, HeapPages(h), i,
                  At(ps.mmu.S(), child, rs[i].va / PGSIZE));
        AddsKept(m1, ps.mmu.S(), child);
        FrameStays(m, m1, ps.mmu.S(), ptf, ctf);
      }
    case CONTEXT =>
      ForkNothing(m, m1, parent, child, rs, filter, HeapPages(h), i);
      ForkContext(ps, m, parent, child, ptf, ctf);
      ForkStays(m, m1, ps.mmu.S(), parent, child, rs, filter, HeapPages(h), i + 1, ctf);
      SpentSame(m, m1, ps.mmu.S(), child, vs, pages);
      o := Fine;
    case _ =>
      ForkNothing(m, m1, parent, child, rs, filter, HeapPages(h), i);
      o := Fine;
  }

  // The parent's trap frame is its own from the start, the child's was nobody's.
  predicate FramesApart(m: M, parent: nat, ptf: Frame, ctf: Frame) {
    ptf in m.use && m.use[ptf] == Private(parent, ptf) && ptf in m.mem && (ctf in m.use ==> !InHands(m.use[ctf]))
  }

  lemma AddsKept(m1: M, m2: M, child: nat)
    requires Adds(m1, m2, child)
    ensures Kept(m1, m2, NO_PAGE)
  {
  }

  // How the list of pages goes on with region i.
  lemma NextPages(first: seq<nat>, filter: seq<int>, n: nat, rs: seq<Region>, i: nat)
    requires n <= |filter| && i < |rs|
    ensures PagesBy(first, filter, n, rs, i + 1) ==
            if i == 3 then PagesBy(first, filter, n, rs, i) + CopiedPages(filter, n)
            else if i >= 4 && rs[i].kind == CODE then PagesBy(first, filter, n, rs, i) + [rs[i].va / PGSIZE]
            else PagesBy(first, filter, n, rs, i)
    ensures CopiesBy(filter, n, i + 1) == if i == 3 then 6 + |CopiedPages(filter, n)| else CopiesBy(filter, n, i)
  {
  }

  lemma RegionKind(m: M, parent: nat, rs: seq<Region>, i: nat)
    requires parent in m.roots && CodeOk(m, parent, rs) && i < |rs|
    ensures rs[i].kind == STACK <==> i == 0
    ensures rs[i].kind == HEAP <==> i == 3
    ensures rs[i].kind == CONTEXT <==> i == 1
    ensures rs[i].kind == CODE ==>
      i >= 4 && rs[i].va < MAXVA && rs[i].va % PGSIZE == 0 && !InArena(rs[i].va / PGSIZE) &&
                                   SharedAt(m, parent, rs[i].va / PGSIZE)
  {
    hide At;
  }

  // Every heap page that the filter skips was given back.
  ghost predicate SkipsOnlyReclaimed(h: Heap, filter: seq<int>)
    requires HeapPages(h) <= |filter|
  {
    forall j: nat {:trigger filter[j]} :: j < HeapPages(h) && filter[j] != 0 ==> (HEAP_VPN + j) * PGSIZE in h.freed
  }

  // The filter of do_fork has a place for each reclaimed page.
  predicate FilterFits(h: Heap) {
    forall i {:trigger h.freed[i]} :: 0 <= i < |h.freed| ==> 0 <= (h.freed[i] - h.bottom) / PGSIZE < MAX_HEAP_PAGES
  }

  function FilterOf(h: Heap, junk: seq<int>): (filter: seq<int>)
    requires |junk| == MAX_HEAP_PAGES
    ensures |filter| == MAX_HEAP_PAGES
    ensures forall j: nat {:trigger filter[j]} :: j < MAX_HEAP_PAGES ==> filter[j] == FilterAt(h, junk, j)
  {
    seq(MAX_HEAP_PAGES, j requires 0 <= j < MAX_HEAP_PAGES => FilterAt(h, junk, j))
  }

  // A process can be forked: its heap is one that the filter can describe, the stack page
  // and the pages to be copied are readable, the child's pages are all different, and
  // there is memory for six pages of its own, the copies and the page tables.
  ghost predicate CanFork(m: M, parent: nat, par: Proc, vector: Frame, junk: seq<int>)
    requires parent in m.roots && |junk| == MAX_HEAP_PAGES
  {
    var n, rs := HeapPages(par.heap), par.regions;
    && m.free != [] && 0 <= n <= MAX_HEAP_PAGES && FilterFits(par.heap)
    && PhysicalPage(m, parent, STACK_VPN * PGSIZE) != 0
    && var filter := FilterOf(par.heap, junk);
       && ReadableHeap(m, parent, filter, n)
       && var vs := PagesBy(FirstPages(m, vector), filter, n, rs, |rs|);
          Distinct(vs) && Fits(m, vs, CopiesBy(filter, n, |rs|))
  }

  // What do_fork leaves: every other process and every page in use is as it was; the child
  // has its own copy of the stack page and of each heap page that the filter does not skip,
  // shares the code pages, and comes back with the parent's registers, but 0 in a0.  Its
  // heap is in order if the parent's was and no live page was skipped.
  ghost predicate Forks(m: M, procs: map<nat, Proc>, clean: set<nat>, m': M, procs': map<nat, Proc>, clean': set<nat>,
                        parent: nat, child: nat, junk: seq<int>)
    requires parent in procs && |junk| == MAX_HEAP_PAGES
  {
    && child !in procs && child in procs' && procs' == procs[child := procs'[child]]
    && procs'[child].heap == procs[parent].heap && 0 <= HeapPages(procs[parent].heap) <= MAX_HEAP_PAGES
    && clean' == clean + (if parent in clean && ForkIsWhole(procs[parent].heap, junk) then {child} else {})
    && Forked(m, m', parent, child, procs[parent], FilterOf(procs[parent].heap, junk))
    && ChildFrame(m, m', procs[parent].trapframe, procs'[child].trapframe)
    && ForkedUse(m', child, procs[parent].regions, FilterOf(procs[parent].heap, junk), HeapPages(procs[parent].heap))
    && ForkedRegions(procs[parent].regions, procs'[child].regions)
  }

  // The child's regions: its own first four, with as many heap pages as the parent's, and the
  // parent's code regions.
  predicate ForkedRegions(rs: seq<Region>, rs': seq<Region>) {
    && |rs| >= 4 && |rs'| >= 4 && rs'[0].va == USER_STACK_TOP - PGSIZE && rs'[0].npages == 1 && rs'[0].kind == STACK
    && rs'[1].kind == CONTEXT && rs'[2].kind == SYSTEM && rs'[3] == Region(HEAP_VPN * PGSIZE, rs[3].npages, HEAP)
    && rs'[4..] == CodesOf(rs)
  }

  /** The code regions of the parent are the child's, each as often, and no other. */
  lemma {:induction false} CodesAre(rs: seq<Region>, r: Region)
    ensures multiset(CodesOf(rs))[r] == if r.kind == CODE then multiset(rs)[r] else 0
  {
    if rs != [] {
      var front := rs[..|rs| - 1];
      CodesAre(front, r);
      assert rs == front + [rs[|rs| - 1]];
    }
  }

  // What the child can do with its memory: load and store, but not fetch, in its stack page and
  // its copies of heap pages; load and fetch, but not store, in the code pages.
  ghost predicate ForkedUse(m: M, child: nat, rs: seq<Region>, filter: seq<int>, n: nat)
    requires n <= |filter|
  {
    && child in m.roots && DataPage(m, child, STACK_VPN, Ppn(At(m, child, STACK_VPN)))
    && (forall j: nat {:trigger filter[j]} :: j < n && filter[j] == 0 ==>
          DataPage(m, child, HEAP_VPN + j, Ppn(At(m, child, HEAP_VPN + j))))
    && (forall j {:trigger rs[j]} :: 4 <= j < |rs| && rs[j].kind == CODE ==>
          CodePage(m, child, rs[j].va / PGSIZE, Ppn(At(m, child, rs[j].va / PGSIZE))))
  }

  lemma ForkUse(mmu: Mmu, m: M, parent: nat, child: nat, rs: seq<Region>, filter: seq<int>, n: nat)
    requires Ok(mmu) && n <= |filter| <= MAX_HEAP_PAGES && |rs| >= 4
    requires ForkState(m, mmu.S(), parent, child, rs, filter, n, |rs|)
    ensures ForkedUse(mmu.S(), child, rs, filter, n)
  {
    hide Ok, At, DataPage, CodePage, Beyond, ForData, ForCode;
    var m' := mmu.S();
    PageUse(mmu, child, STACK_VPN);
    forall j: nat | j < n && filter[j] == 0
      ensures DataPage(m', child, HEAP_VPN + j, Ppn(At(m', child, HEAP_VPN + j)))
    {
      assert CopiedAt(m, m', parent, child, HEAP_VPN + j);
      PageUse(mmu, child, HEAP_VPN + j);
    }
    forall j | 4 <= j < |rs| && rs[j].kind == CODE
      ensures CodePage(m', child, rs[j].va / PGSIZE, Ppn(At(m', child, rs[j].va / PGSIZE)))
    {
      assert SharedWith(m, m', parent, child, rs[j].va / PGSIZE);
      PageUse(mmu, child, rs[j].va / PGSIZE);
    }
  }

  // The filter skips only reclaimed pages.
  ghost predicate ForkIsWhole(h: Heap, junk: seq<int>)
    requires |junk| == MAX_HEAP_PAGES && HeapPages(h) <= MAX_HEAP_PAGES
  {
    SkipsOnlyReclaimed(h, FilterOf(h, junk))
  }

  ghost predicate Forked(m: M, m': M, parent: nat, child: nat, par: Proc, filter: seq<int>)
    requires 0 <= HeapPages(par.heap) <= |filter|
  {
    ForkState(m, m', parent, child, par.regions, filter, HeapPages(par.heap), |par.regions|)
  }

  predicate ChildFrame(m: M, m': M, ptf: Frame, ctf: Frame) {
    ptf in m.mem && ctf in m'.mem && m'.mem[ctf][..FRAME_WORDS] == m.mem[ptf][..FRAME_WORDS][REG_A0 := 0]
  }

  /** do_fork. */
  method DoFork(ps: Procs, parent: nat, child: nat, junk: seq<int>) returns (o: Outcome)
    requires ps.Valid() && parent in ps.procs && parent in ps.mmu.roots && child !in ps.procs && child !in ps.mmu.roots
    requires |junk| == MAX_HEAP_PAGES
    modifies ps, ps.mmu
    ensures o.Fine? <==> CanFork(old(ps.mmu.S()), parent, old(ps.procs)[parent], ps.trapPage, junk)
    ensures o.Fine? ==> ps.Valid()
    ensures o.Fine? ==>
      Forks(old(ps.mmu.S()), old(ps.procs), old(ps.clean), ps.mmu.S(), ps.procs, ps.clean, parent, child, junk)
    ensures o.Fine? && parent in old(ps.clean) ==>
      (HeapOk(ps.mmu.S(), child, old(ps.procs)[parent].heap) <==> ForkIsWhole(old(ps.procs)[parent].heap, junk))
  {
    hide Ok, ProcsOk, At, Beyond, MkPte, ProtToType, FreshSpace, CodeOk, ForkState, FilterAt, ForkIsWhole, PagesOk,
      MapsOk, HeapOk, CanFork, Spent, CanAllocProcess, SpaceBuilt, RegionFits, PagesBy, CopiesBy, AllFit, Forks,
      FramesApart, BlankFrame;
    ghost var m, clean0 := ps.mmu.S(), ps.clean;
    ghost var procs0 := ps.procs;
    var par := ps.procs[parent];
    var h, rs := par.heap, par.regions;
    ParentIs(ps.mmu, ps.procs, ps.clean, parent);
    NotClean(m, ps.procs, ps.clean, child);
    if HeapPages(h) > MAX_HEAP_PAGES { CannotFork(m, parent, par, ps.trapPage, junk); return OutOfScope; }
    var ok, filter := BuildFilter(h, junk);
    if !ok { CannotFork(m, parent, par, ps.trapPage, junk); return OutOfScope; }
    assert filter == FilterOf(h, junk);
    var stack;
    o, stack := AllocProcess(ps, child);
    if o != Fine { NoSpaceNoFork(m, parent, par, ps.trapPage, junk); return; }
    ghost var m1 := ps.mmu.S();
    LessClean(m1, ps.procs, ps.clean, child);
    ps.clean := ps.clean - {child};
    ChildStarts(m, m1, parent, child, rs, filter, HeapPages(h), stack, ps.procs[child].trapframe, ps.trapPage);
    FreeNotEmpty(m, m1, child, ps.trapPage);
    TrapNotFree(m, ps.trapPage);
    SpentFirst(m, m1, child, stack, ps.trapPage);
    FrameOfParent(m, procs0, clean0, parent, ps.procs[child].trapframe);
    var codes;
    o, codes := ForkRegions(ps, m, parent, child, rs, h, filter, stack, FirstPages(m, ps.trapPage), par.trapframe,
                            ps.procs[child].trapframe);
    if o != Fine {
      SomeRegionStops(m, parent, par, ps.trapPage, junk);
      return;
    }
    AllRegionsDone(m, ps.mmu.S(), parent, child, par, ps.trapPage, junk);
    FinishFork(ps, m, procs0, clean0, parent, par, child, filter, junk, codes);
  }

  lemma FrameOfParent(m: M, procs: map<nat, Proc>, clean: set<nat>, parent: nat, ctf: Frame)
    requires PagesOk(m) && ProcsOk(m, procs, clean) && parent in procs && (ctf in m.use ==> !InHands(m.use[ctf]))
    ensures FramesApart(m, parent, procs[parent].trapframe, ctf)
  {
    hide PagesOk, ProcsOk;
    TrapOf(m, procs, clean, parent);
    InMemory(m);
    assert m.use[procs[parent].trapframe].Private?;
  }

  // do_fork after the loop: a0, the regions and the heap manager of the child.
  method FinishFork(ps: Procs, ghost m: M, ghost procs0: map<nat, Proc>, ghost clean0: set<nat>, ghost parent: nat,
                    par: Proc, child: nat, ghost filter: seq<int>, ghost junk: seq<int>, codes: seq<Region>)
    requires parent in procs0 && procs0[parent] == par && child !in procs0 && child !in clean0 && ps.clean == clean0
    requires child in ps.procs && ps.procs == procs0[child := ps.procs[child]]
    requires FirstOnes(ps.procs[child].regions, ps.procs[child].trapframe, ps.trapPage)
    requires |junk| == MAX_HEAP_PAGES && 0 <= HeapPages(par.heap) <= MAX_HEAP_PAGES
    requires filter == FilterOf(par.heap, junk)
    requires |par.regions| >= 4 && codes == CodesOf(par.regions)
    requires Forked(m, ps.mmu.S(), parent, child, par, filter)
    requires FrameCopied(m, ps.mmu.S(), par.trapframe, ps.procs[child].trapframe)
    requires ps.procs[child].trapframe in m.use ==> !InHands(m.use[ps.procs[child].trapframe])
    requires ps.Valid() && ProcsOk(m, procs0, clean0)
    modifies ps, ps.mmu
    ensures ps.Valid() && Forks(m, procs0, clean0, ps.mmu.S(), ps.procs, ps.clean, parent, child, junk)
    ensures parent in clean0 ==> (HeapOk(ps.mmu.S(), child, par.heap) <==> ForkIsWhole(par.heap, junk))
  {
    hide Ok, ProcsOk, At, Beyond, CodeOk, ForkState, FilterAt, SkipsOnlyReclaimed, HeapOk, CodesOf, FilterOf, SameMaps,
      Kept, SameShapes, ForkedUse;
    var h, rs := par.heap, par.regions;
    ghost var m2 := ps.mmu.S();
    var ctf := ps.procs[child].trapframe;
    TrapOf(m2, ps.procs, ps.clean, child);
    var frame := ps.mmu.mem[ctf];
    SetFrame(ps, child, frame[REG_A0 := 0]);
    ForkStays(m, m2, ps.mmu.S(), parent, child, rs, filter, HeapPages(h), |rs|, ctf);
    assert frame[REG_A0 := 0][..FRAME_WORDS] == frame[..FRAME_WORDS][REG_A0 := 0];
    var regions := ps.procs[child].regions[3 := ps.procs[child].regions[3].(npages := rs[3].npages)] + codes;
    var proc := ps.procs[child].(heap := h, regions := regions);
    ghost var good := parent in clean0 && SkipsOnlyReclaimed(h, filter);
    FirstFour(ps.mmu.S(), ps.procs, ps.clean, child, regions, rs[3].npages, codes);
    ChildEnds(m, ps.mmu.S(), procs0, ps.procs, clean0, ps.clean, parent, child, filter, junk, proc, good);
    if parent in clean0 { ChildSplit(m, ps.mmu.S(), procs0, clean0, parent, child, filter, junk); }
    ForkUse(ps.mmu, m, parent, child, rs, filter, HeapPages(h));
    ps.procs := ps.procs[child := proc];
    if good { ps.clean := ps.clean + {child}; }
    assert ps.procs == procs0[child := proc];
    assert ps.clean == clean0 + (if good then {child} else {});
  }

  // The loop over the parent's regions.
  method ForkRegions(ps: Procs, ghost m: M, parent: nat, child: nat, rs: seq<Region>, h: Heap, filter: seq<int>,
                     ghost stack: Frame, ghost first: seq<nat>, ghost ptf: Frame, ghost ctf: Frame)
    returns (o: Outcome, codes: seq<Region>)
    requires ps.Valid() && PagesOk(m) && MapsOk(m) && child !in ps.clean && parent != child
    requires parent in m.roots && parent in ps.procs && child in ps.procs && BaseHeap(h)
    requires HeapPages(h) <= |filter| == MAX_HEAP_PAGES
    requires CodeOk(m, parent, rs) && ForkState(m, ps.mmu.S(), parent, child, rs, filter, HeapPages(h), 0)
    requires Spent(m, ps.mmu.S(), child, first, 6)
    requires stack in ps.mmu.use && ps.mmu.use[stack] == Private(child, STACK_VPN) && stack < 0x8_8000
    requires (stack in m.use ==> !InHands(m.use[stack])) && child in ps.mmu.roots
    requires ReadWrite() < 1024 && At(ps.mmu.S(), child, STACK_VPN) == MkPte(stack * PGSIZE, ReadWrite())
    requires ptf == ps.procs[parent].trapframe && ctf == ps.procs[child].trapframe && FramesApart(m, parent, ptf, ctf)
    modifies ps.mmu
    ensures o.Fine? ==> FrameCopied(m, ps.mmu.S(), ptf, ctf)
    ensures o.Fine? ==>
      ps.Valid() && ForkState(m, ps.mmu.S(), parent, child, rs, filter, HeapPages(h), |rs|) && codes == CodesOf(rs)
    ensures o.Fine? <==> AllFit(m, parent, first, filter, HeapPages(h), rs, |rs|)
    ensures o.Fine? ==>
      Spent(m, ps.mmu.S(), child, PagesBy(first, filter, HeapPages(h), rs, |rs|), CopiesBy(filter, HeapPages(h), |rs|))
  {
    hide Ok, ProcsOk, At, Beyond, MkPte, ProtToType, CodeOk, ForkState, PagesOk, MapsOk, Spent, RegionFits, AllFit,
      PagesBy, CopiesBy, CodesOf;
    ghost var m1 := ps.mmu.S();
    var i := 0;
    codes := [];
    BeforeRegions(m, parent, first, filter, HeapPages(h), rs);
    while i < |rs|
      invariant 0 <= i <= |rs| && ps.Valid() && ForkState(m, ps.mmu.S(), parent, child, rs, filter, HeapPages(h), i)
      invariant Spent(m, ps.mmu.S(), child, PagesBy(first, filter, HeapPages(h), rs, i),
                      CopiesBy(filter, HeapPages(h), i))
      invariant AllFit(m, parent, first, filter, HeapPages(h), rs, i)
      invariant i == 0 ==> ps.mmu.S() == m1
      invariant i > 1 ==> FrameCopied(m, ps.mmu.S(), ptf, ctf)
      invariant codes == CodesOf(rs[..i])
    {
      o := ForkRegion(ps, m, parent, child, rs, h, filter, i, stack, first, ptf, ctf);
      AllFitNext(m, parent, first, filter, HeapPages(h), rs, i);
      if o != Fine { return; }
      CodesNext(rs, i);
      if rs[i].kind == CODE { codes := codes + [rs[i]]; }
      i := i + 1;
    }
    assert rs[..|rs|] == rs;
    FourOrMore(m, parent, rs);
    o := Fine;
  }

  lemma FourOrMore(m: M, parent: nat, rs: seq<Region>)
    requires parent in m.roots && CodeOk(m, parent, rs)
    ensures |rs| >= 4
  {
  }

  lemma TrapNotFree(m: M, f: Frame)
    requires PagesOk(m) && f in m.use && m.use[f] == Shared && m.free != []
    ensures m.free[|m.free| - 1] != f
  {
    hide PagesOk;
    NotFree(m, f);
  }

  ghost predicate AllFit(m: M, parent: nat, first: seq<nat>, filter: seq<int>, n: nat, rs: seq<Region>, i: nat)
    requires parent in m.roots && n <= |filter| <= MAX_HEAP_PAGES && i <= |rs|
  {
    forall k: nat {:trigger RegionFits(m, parent, first, filter, n, rs, k)} ::
      k < i ==> RegionFits(m, parent, first, filter, n, rs, k)
  }

  lemma BeforeRegions(m: M, parent: nat, first: seq<nat>, filter: seq<int>, n: nat, rs: seq<Region>)
    requires parent in m.roots && n <= |filter| <= MAX_HEAP_PAGES
    ensures AllFit(m, parent, first, filter, n, rs, 0) && PagesBy(first, filter, n, rs, 0) == first
    ensures CopiesBy(filter, n, 0) == 6
    ensures CodesOf(rs[..0]) == []
  {
  }

  lemma AllFitNext(m: M, parent: nat, first: seq<nat>, filter: seq<int>, n: nat, rs: seq<Region>, i: nat)
    requires parent in m.roots && n <= |filter| <= MAX_HEAP_PAGES && i < |rs|
    requires AllFit(m, parent, first, filter, n, rs, i)
    ensures RegionFits(m, parent, first, filter, n, rs, i) ==> AllFit(m, parent, first, filter, n, rs, i + 1)
    ensures !RegionFits(m, parent, first, filter, n, rs, i) ==> !AllFit(m, parent, first, filter, n, rs, |rs|)
  {
    hide RegionFits;
  }

  lemma CodesNext(rs: seq<Region>, i: nat)
    requires i < |rs|
    ensures CodesOf(rs[..i + 1]) == CodesOf(rs[..i]) + (if rs[i].kind == CODE then [rs[i]] else [])
  {
    assert rs[..i + 1][..i] == rs[..i];
  }

  lemma CannotFork(m: M, parent: nat, par: Proc, vector: Frame, junk: seq<int>)
    requires parent in m.roots && |junk| == MAX_HEAP_PAGES
    requires HeapPages(par.heap) > MAX_HEAP_PAGES || !FilterFits(par.heap)
    ensures !CanFork(m, parent, par, vector, junk)
  {
  }

  lemma FreeNotEmpty(m: M, m': M, child: nat, vector: Frame)
    requires SpaceBuilt(m, m', child, vector)
    ensures m.free != []
  {
  }

  lemma NoSpaceNoFork(m: M, parent: nat, par: Proc, vector: Frame, junk: seq<int>)
    requires parent in m.roots && |junk| == MAX_HEAP_PAGES && !CanAllocProcess(m, vector)
    ensures !CanFork(m, parent, par, vector, junk)
  {
    hide TablesFor, FilterOf, FilterFits, ReadableHeap, PhysicalPage, Distinct;
    var n, rs := HeapPages(par.heap), par.regions;
    if CanFork(m, parent, par, vector, junk) {
      var first, filter := FirstPages(m, vector), FilterOf(par.heap, junk);
      PagesByMore(first, filter, n, rs, 0, |rs|);
      FitsLess(m, first, PagesBy(first, filter, n, rs, |rs|), 6, CopiesBy(filter, n, |rs|));
      assert false;
    }
  }

  lemma SpentFirst(m: M, m1: M, child: nat, stack: Frame, vector: Frame)
    requires SpaceBuilt(m, m1, child, vector) && 0x8_0000 <= vector < 0x8_8000 && stack < 0x8_8000
    requires var tf := m.free[|m.free| - 1];
             0x8_0000 <= tf < 0x8_8000 && tf != vector && FreshSpace(m1, child, stack, tf, vector)
    ensures Spent(m, m1, child, FirstPages(m, vector), 6)
  {
    hide At, ShapeOf, TablesFor, ExtendAll, MkPte, ProtToType;
    Perms();
    var tf := m.free[|m.free| - 1];
    EntryOfPage(stack, ReadWrite());
    EntryOfPage(tf, TrapframePerm());
    EntryOfPage(vector, VectorPerm());
    forall v: nat | v < MAXVPN ensures At(m1, child, v) != 0 <==> v in FirstPages(m, vector) {}
  }

  lemma {:induction false} DistinctPrefix(vs: seq<nat>, ws: seq<nat>)
    requires vs <= ws && Distinct(ws)
    ensures Distinct(vs)
  {
    forall i, j | 0 <= i < j < |vs| ensures vs[i] != vs[j] { assert ws[i] == vs[i] && ws[j] == vs[j]; }
  }

  // A region that cannot be done is one that the process cannot be forked with.
  lemma RegionStops(m: M, parent: nat, par: Proc, vector: Frame, junk: seq<int>, i: nat)
    requires parent in m.roots && |junk| == MAX_HEAP_PAGES && CodeOk(m, parent, par.regions) && i < |par.regions|
    requires m.free != [] && 0 <= HeapPages(par.heap) <= MAX_HEAP_PAGES
    requires var n, rs, filter := HeapPages(par.heap), par.regions, FilterOf(par.heap, junk);
             !RegionFits(m, parent, FirstPages(m, vector), filter, n, rs, i)
    ensures !CanFork(m, parent, par, vector, junk)
  {
    hide FilterOf, FilterFits, ReadableHeap, PhysicalPage, Distinct, CodePages, CodeOk, FirstPages, TablesFor;
    var n, rs := HeapPages(par.heap), par.regions;
    if CanFork(m, parent, par, vector, junk) {
      var first, filter := FirstPages(m, vector), FilterOf(par.heap, junk);
      var all := PagesBy(first, filter, n, rs, |rs|);
      RegionKind(m, parent, rs, i);
      PagesByMore(first, filter, n, rs, i + 1, |rs|);
      NextPages(first, filter, n, rs, i);
      FitsLess(m, PagesBy(first, filter, n, rs, i + 1), all, CopiesBy(filter, n, i + 1), CopiesBy(filter, n, |rs|));
      DistinctPrefix(PagesBy(first, filter, n, rs, i + 1), all);
      DistinctNext(PagesBy(first, filter, n, rs, i), rs[i].va / PGSIZE);
      assert false;
    }
  }

  lemma SomeRegionStops(m: M, parent: nat, par: Proc, vector: Frame, junk: seq<int>)
    requires parent in m.roots && |junk| == MAX_HEAP_PAGES && CodeOk(m, parent, par.regions)
    requires m.free != [] && 0 <= HeapPages(par.heap) <= MAX_HEAP_PAGES
    requires var n, rs, filter := HeapPages(par.heap), par.regions, FilterOf(par.heap, junk);
             !AllFit(m, parent, FirstPages(m, vector), filter, n, rs, |rs|)
    ensures !CanFork(m, parent, par, vector, junk)
  {
    hide RegionFits, FilterOf, CanFork, CodeOk;
    var first, filter := FirstPages(m, vector), FilterOf(par.heap, junk);
    var i: nat :| i < |par.regions| && !RegionFits(m, parent, first, filter, HeapPages(par.heap), par.regions, i);
    RegionStops(m, parent, par, vector, junk, i);
  }

  lemma AllRegionsDone(m: M, m': M, parent: nat, child: nat, par: Proc, vector: Frame, junk: seq<int>)
    requires parent in m.roots && |junk| == MAX_HEAP_PAGES && |par.regions| >= 4 && FilterFits(par.heap)
    requires m.free != [] && 0 <= HeapPages(par.heap) <= MAX_HEAP_PAGES
    requires var n, rs, filter := HeapPages(par.heap), par.regions, FilterOf(par.heap, junk);
             AllFit(m, parent, FirstPages(m, vector), filter, n, rs, |rs|) &&
             Spent(m, m', child, PagesBy(FirstPages(m, vector), filter, n, rs, |rs|), CopiesBy(filter, n, |rs|))
    ensures CanFork(m, parent, par, vector, junk)
  {
    hide FilterOf, FilterFits, ReadableHeap, PhysicalPage, Distinct, CodePages, Spent, Fits, CopiedPages;
    var n, rs, filter := HeapPages(par.heap), par.regions, FilterOf(par.heap, junk);
    SpentFits(m, m', child, PagesBy(FirstPages(m, vector), filter, n, rs, |rs|), CopiesBy(filter, n, |rs|));
    assert RegionFits(m, parent, FirstPages(m, vector), filter, n, rs, 0);
    assert RegionFits(m, parent, FirstPages(m, vector), filter, n, rs, 3);
  }

  // A clean parent's child is clean exactly if no live page was skipped.
  lemma ChildSplit(m: M, m': M, procs: map<nat, Proc>, clean: set<nat>, parent: nat, child: nat, filter: seq<int>,
                   junk: seq<int>)
    requires ProcsOk(m, procs, clean) && parent in clean && parent in procs && |procs[parent].regions| >= 4
    requires var h, rs := procs[parent].heap, procs[parent].regions;
             && 0 <= HeapPages(h) <= MAX_HEAP_PAGES == |junk| && filter == FilterOf(h, junk)
             && ForkState(m, m', parent, child, rs, filter, HeapPages(h), |rs|)
    ensures HeapOk(m', child, procs[parent].heap) <==> SkipsOnlyReclaimed(procs[parent].heap, filter)
  {
    hide At, CodeOk, FilterAt, CopiedAt, Beyond, SharedWith, FilterOf;
    var h := procs[parent].heap;
    assert HeapOk(m, parent, h);
    HeapPoint(m, parent, h);
    TopIs(h);
    if SkipsOnlyReclaimed(h, filter) {
      ChildHeap(m, m', parent, child, h, filter, junk);
    }
  }

  function CodesOf(rs: seq<Region>): seq<Region> {
    if rs == [] then []
    else
      var front, last := rs[..|rs| - 1], rs[|rs| - 1];
      if last.kind == CODE then CodesOf(front) + [last] else CodesOf(front)
  }

  lemma ParentIs(mmu: Mmu, procs: map<nat, Proc>, clean: set<nat>, parent: nat)
    requires Ok(mmu) && ProcsOk(mmu.S(), procs, clean) && parent in procs
    ensures PagesOk(mmu.S()) && MapsOk(mmu.S()) && parent in mmu.roots && CodeOk(mmu.S(), parent, procs[parent].regions)
    ensures BaseHeap(procs[parent].heap) && HeapPages(procs[parent].heap) >= 0 && |procs[parent].regions| >= 4
  {
    hide PagesOk, MapsOk, HeapOk, At;
  }

  lemma ChildStarts(m: M, m1: M, parent: nat, child: nat, rs: seq<Region>, filter: seq<int>, n: nat, stack: Frame,
                    tf: Frame, vector: Frame)
    requires n <= |filter| && Beyond(m, m1, child) && child in m1.roots
    requires stack < 0x8_8000 && 0x8_0000 <= tf < 0x8_8000 && 0x8_0000 <= vector < 0x8_8000
    requires FreshSpace(m1, child, stack, tf, vector)
    ensures ForkState(m, m1, parent, child, rs, filter, n, 0)
    ensures ReadWrite() < 1024 && At(m1, child, STACK_VPN) == MkPte(stack * PGSIZE, ReadWrite())
  {
    hide Beyond, At, MkPte, ProtToType;
    Perms();
    forall v: nat | HEAP_VPN <= v < ARENA_END ensures At(m1, child, v) == 0 {}
  }

  lemma ChildHeap(m: M, m': M, parent: nat, child: nat, h: Heap, filter: seq<int>, junk: seq<int>)
    requires HeapOk(m, parent, h) && HeapPages(h) <= |filter| == |junk| == MAX_HEAP_PAGES && 0 <= HeapPages(h)
    requires forall j: nat {:trigger filter[j]} :: j < MAX_HEAP_PAGES ==> filter[j] == FilterAt(h, junk, j)
    requires HeapCopied(m, m', parent, child, filter, HeapPages(h)) && ArenaAbove(m', child, HEAP_VPN + HeapPages(h))
    requires SkipsOnlyReclaimed(h, filter)
    ensures HeapOk(m', child, h)
  {
    hide At, HeapShape, CopiedAt, FilterAt;
    HeapPoint(m, parent, h);
    TopIs(h);
    forall v: nat | InArena(v)
      ensures if v * PGSIZE < h.top && v * PGSIZE !in h.freed then HeapPage(m', child, v) else At(m', child, v) == 0
    {
      if v * PGSIZE < h.top {
        var j: nat := v - HEAP_VPN;
        ReclaimedFilter(h, filter, junk, j);
        assert filter[j] == FilterAt(h, junk, j);
        if filter[j] == 0 { CopyIsPage(m, m', parent, child, HEAP_VPN + j); }
      } else {
        assert At(m', child, v) == 0;
      }
    }
  }

  lemma TopIs(h: Heap)
    requires HeapShape(h)
    ensures h.top == (HEAP_VPN + HeapPages(h)) * PGSIZE && HeapPages(h) >= 0
  {
  }

  lemma CopyIsPage(m: M, m': M, parent: nat, child: nat, v: nat)
    requires CopiedAt(m, m', parent, child, v)
    ensures child in m'.roots && HeapPage(m', child, v)
  {
  }

  lemma ReclaimedFilter(h: Heap, filter: seq<int>, junk: seq<int>, j: nat)
    requires HeapShape(h) && |junk| == MAX_HEAP_PAGES && j < MAX_HEAP_PAGES
    ensures (HEAP_VPN + j) * PGSIZE in h.freed ==> FilterAt(h, junk, j) != 0
    ensures Reclaims(h, |h.freed|, j) <==> (HEAP_VPN + j) * PGSIZE in h.freed
  {
    var va := (HEAP_VPN + j) * PGSIZE;
    if va in h.freed {
      var i :| 0 <= i < |h.freed| && h.freed[i] == va;
      assert (h.freed[i] - h.bottom) / PGSIZE == j;
    }
    if Reclaims(h, |h.freed|, j) {
      var i :| 0 <= i < |h.freed| && (h.freed[i] - h.bottom) / PGSIZE == j;
      assert h.freed[i] % PGSIZE == 0 && h.freed[i] == va;
    }
  }

  lemma {:induction false} CodesAreCode(rs: seq<Region>, k: int)
    requires 0 <= k < |CodesOf(rs)|
    ensures exists j {:trigger rs[j]} :: 0 <= j < |rs| && rs[j] == CodesOf(rs)[k] && rs[j].kind == CODE
  {
    var front := rs[..|rs| - 1];
    if k < |CodesOf(front)| {
      CodesAreCode(front, k);
      var j :| 0 <= j < |front| && front[j] == CodesOf(front)[k] && front[j].kind == CODE;
      assert rs[j] == front[j];
    } else {
      assert rs[|rs| - 1] == CodesOf(rs)[k];
    }
  }

  lemma ChildCode(m: M, m': M, parent: nat, child: nat, rs: seq<Region>, filter: seq<int>, n: nat, regions: seq<Region>)
    requires parent in m.roots && CodeOk(m, parent, rs) && n <= |filter|
    requires ForkState(m, m', parent, child, rs, filter, n, |rs|)
    requires |regions| >= 4 && RegionsOk(regions[..4]) && regions[4..] == CodesOf(rs)
    requires child in m'.roots && ArenaPrivate(m', child)
    ensures CodeOk(m', child, regions)
  {
    hide At, Beyond, CopiedAt, HeapCopied, ArenaAbove;
    forall k | 4 <= k < |regions|
      ensures regions[k].kind in {CODE, DATA} && regions[k].va % PGSIZE == 0 && regions[k].va < MAXVA
      ensures !InArena(regions[k].va / PGSIZE)
      ensures SharedAt(m', child, regions[k].va / PGSIZE)
    {
      assert regions[k] == CodesOf(rs)[k - 4];
      CodesAreCode(rs, k - 4);
      var j :| 0 <= j < |rs| && rs[j] == CodesOf(rs)[k - 4] && rs[j].kind == CODE;
      RegionKind(m, parent, rs, j);
      assert SharedWith(m, m', parent, child, rs[j].va / PGSIZE);
    }
    assert regions[0] == regions[..4][0] && regions[1] == regions[..4][1];
    assert regions[2] == regions[..4][2] && regions[3] == regions[..4][3];
  }

  lemma ChildEnds(m: M, m': M, procs0: map<nat, Proc>, procs: map<nat, Proc>, clean0: set<nat>, clean: set<nat>,
                  parent: nat, child: nat, filter: seq<int>, junk: seq<int>, proc: Proc, good: bool)
    requires ProcsOk(m, procs0, clean0) && ProcsOk(m', procs, clean) && parent in procs0 && child in procs
    requires child !in clean
    requires var h, rs := procs0[parent].heap, procs0[parent].regions;
             && 0 <= HeapPages(h) <= |filter| == |junk| == MAX_HEAP_PAGES
             && (forall j: nat {:trigger filter[j]} :: j < MAX_HEAP_PAGES ==> filter[j] == FilterAt(h, junk, j))
             && ForkState(m, m', parent, child, rs, filter, HeapPages(h), |rs|)
             && proc.heap == h && proc.pageDir == procs[child].pageDir && proc.trapframe == procs[child].trapframe
             && |proc.regions| >= 4 && RegionsOk(proc.regions[..4]) && proc.regions[4..] == CodesOf(rs)
             && (good ==> parent in clean0 && SkipsOnlyReclaimed(h, filter))
    ensures ProcsOk(m', procs[child := proc], if good then clean + {child} else clean)
  {
    hide At, HeapOk, CodeOk, Beyond, FilterAt, SkipsOnlyReclaimed, HeapCopied, ArenaAbove, CopiedAt, SharedWith,
      RegionsOk, TrapsOk;
    var h, rs := procs0[parent].heap, procs0[parent].regions;
    FourRegions(m, procs0, clean0, parent);
    FourRegions(m', procs, clean, child);
    ChildCode(m, m', parent, child, rs, filter, HeapPages(h), proc.regions);
    if good { ChildHeap(m, m', parent, child, h, filter, junk); }
    OneProcChanged(m', procs, clean, child, proc, good);
  }

  lemma OneProcChanged(m: M, procs: map<nat, Proc>, clean: set<nat>, p: nat, proc: Proc, good: bool)
    requires ProcsOk(m, procs, clean) && p in procs && p !in clean && p in m.roots
    requires proc.pageDir == procs[p].pageDir && proc.trapframe == procs[p].trapframe && BaseHeap(proc.heap)
    requires CodeOk(m, p, proc.regions) && (good ==> HeapOk(m, p, proc.heap))
    ensures ProcsOk(m, procs[p := proc], if good then clean + {p} else clean)
  {
    hide HeapOk, CodeOk;
    var procs' := procs[p := proc];
    forall q | q in procs'
      ensures q in m.roots && procs'[q].pageDir == m.roots[q] && BaseHeap(procs'[q].heap)
      ensures CodeOk(m, q, procs'[q].regions) && procs'[q].trapframe == procs[q].trapframe
    {
      assert procs[q].pageDir == m.roots[q];
    }
  }

  lemma NotClean(m: M, procs: map<nat, Proc>, clean: set<nat>, p: nat)
    requires ProcsOk(m, procs, clean) && p !in procs
    ensures p !in clean
  {
    hide HeapOk, CodeOk;
  }

  lemma FourRegions(m: M, procs: map<nat, Proc>, clean: set<nat>, p: nat)
    requires ProcsOk(m, procs, clean) && p in procs
    ensures p in m.roots && |procs[p].regions| >= 4 && CodeOk(m, p, procs[p].regions) && ArenaPrivate(m, p)
  {
    hide HeapOk, At;
  }

  lemma FirstFour(m: M, procs: map<nat, Proc>, clean: set<nat>, p: nat, regions: seq<Region>, npages: nat,
                  codes: seq<Region>)
    requires ProcsOk(m, procs, clean) && p in procs && |procs[p].regions| == 4
    requires regions == procs[p].regions[3 := procs[p].regions[3].(npages := npages)] + codes
    ensures |regions| >= 4 && RegionsOk(regions[..4]) && regions[4..] == codes
  {
    hide HeapOk, At;
    assert CodeOk(m, p, procs[p].regions);
    var rs := procs[p].regions;
    assert regions[..4] == rs[3 := rs[3].(npages := npages)];
  }

  // ---------------------------------------------------------------------
  // When the heap is copied whole
  // ---------------------------------------------------------------------

  ghost predicate CopiesAllLive(h: Heap, junk: seq<int>)
    requires |junk| == MAX_HEAP_PAGES && HeapPages(h) <= MAX_HEAP_PAGES
  {
    forall j: nat {:trigger FilterAt(h, junk, j)} ::
      j < HeapPages(h) && FilterAt(h, junk, j) != 0 ==> Reclaims(h, |h.freed|, j)
  }

  /** Whatever the filter's array held before, no live heap page is left out, exactly when
      every live page is among the first eight. */
  lemma CopiesAllExactlyWhen(h: Heap)
    requires HeapPages(h) <= MAX_HEAP_PAGES
    ensures (forall junk: seq<int> {:trigger CopiesAllLive(h, junk)} ::
              |junk| == MAX_HEAP_PAGES ==> CopiesAllLive(h, junk)) <==>
            (forall j: nat {:trigger Reclaims(h, |h.freed|, j)} ::
              CLEARED <= j < HeapPages(h) ==> Reclaims(h, |h.freed|, j))
  {
    var ones := seq(MAX_HEAP_PAGES, _ => 1);
    if CopiesAllLive(h, ones) {
      forall j: nat | CLEARED <= j < HeapPages(h) ensures Reclaims(h, |h.freed|, j) {
        assert FilterAt(h, ones, j) != 0;
      }
    }
  }

  /** Then after a fork of a clean process each live heap page of the parent is mapped in
      the child at the same address, to another page with the same contents, and each
      page it has given back is not mapped. */
  lemma ForkedHeap(m: M, m': M, parent: nat, child: nat, h: Heap, rs: seq<Region>, filter: seq<int>, junk: seq<int>,
                   va: Word)
    requires HeapOk(m, parent, h) && 0 <= HeapPages(h) <= |filter| == |junk| == MAX_HEAP_PAGES
    requires forall j: nat {:trigger filter[j]} :: j < MAX_HEAP_PAGES ==> filter[j] == FilterAt(h, junk, j)
    requires |rs| >= 4 && ForkState(m, m', parent, child, rs, filter, HeapPages(h), |rs|)
    requires forall j: nat {:trigger Reclaims(h, |h.freed|, j)} ::
      CLEARED <= j < HeapPages(h) ==> Reclaims(h, |h.freed|, j)
    requires va % PGSIZE == 0 && h.bottom <= va < h.top
    ensures child in m'.roots
    ensures Live(h, va) ==> CopiedAt(m, m', parent, child, va / PGSIZE)
    ensures !Live(h, va) ==> At(m', child, va / PGSIZE) == 0
  {
    hide At, HeapShape, CopiedAt, Beyond, ArenaAbove, SharedWith;
    HeapPoint(m, parent, h);
    TopIs(h);
    BottomIs(h);
    var j: nat := va / PGSIZE - HEAP_VPN;
    assert va == (HEAP_VPN + j) * PGSIZE;
    ReclaimedFilter(h, filter, junk, j);
    assert filter[j] == FilterAt(h, junk, j);
  }

  lemma BottomIs(h: Heap)
    requires HeapShape(h)
    ensures h.bottom == HEAP_VPN * PGSIZE
  {
  }
}
