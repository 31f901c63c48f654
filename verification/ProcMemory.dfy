/**
 The memory of user processes: their creation, heap, page faults, stores and fork.

 A process is clean as long as nothing but its heap calls has mapped or unmapped pages
 of its heap area; what the heap promises is promised to clean processes.
 */
module ProcMemory {
  import opened Sv39
  import opened PageTables
  import opened Paging
  import opened UserSpace

  const DRAM_BASE := 0x8000_0000
  const MAX_RAM := 0x800_0000               // PKE_MAX_ALLOWABLE_RAM
  const DRAM_PAGE: nat := 0x8_0000          // the page at DRAM_BASE
  const USER_STACK_TOP := 0x7fff_f000
  const STACK_VPN: nat := 0x7_fffe          // the page below USER_STACK_TOP
  const HEAP_VPN: nat := 1024               // USER_FREE_ADDRESS_START / PGSIZE
  const MAX_HEAP_PAGES := 32
  // The heap cannot grow past this page: there are not that many physical pages.
  const ARENA_END: nat := 1024 + 0x8000 + 1

  predicate InArena(v: nat) { HEAP_VPN <= v < ARENA_END }

  datatype Kind = STACK | CONTEXT | SYSTEM | HEAP | CODE | DATA
  datatype Region = Region(va: Word, npages: nat, kind: Kind)
  datatype Heap = Heap(bottom: int, top: int, freed: seq<Word>)
  datatype Proc = Proc(pageDir: Frame, trapframe: Frame, heap: Heap, regions: seq<Region>)

  // Panic, or what the code does not handle: no page left where it does not ask, or a
  // list longer than its array.
  datatype Outcome = Fine | Panic | OutOfScope

  function ReadWrite(): Word { ProtToType(3, true) }
  function CodePerm(): Word { ProtToType(5, true) }

  // ---------------------------------------------------------------------
  // The heap of a process
  // ---------------------------------------------------------------------

  predicate FreedOk(h: Heap) {
    && (forall i {:trigger h.freed[i]} ::
         0 <= i < |h.freed| ==> h.freed[i] % PGSIZE == 0 && h.bottom <= h.freed[i] < h.top)
    && (forall i, j {:trigger h.freed[i], h.freed[j]} :: 0 <= i < j < |h.freed| ==> h.freed[i] != h.freed[j])
  }

  predicate HeapShape(h: Heap) {
    && h.bottom == HEAP_VPN * PGSIZE && h.top % PGSIZE == 0 && h.bottom <= h.top <= ARENA_END * PGSIZE
    && |h.freed| <= MAX_HEAP_PAGES && FreedOk(h)
  }

  predicate PrivateAt(m: M, p: nat, v: nat)
    requires p in m.roots
  {
    At(m, p, v) != 0 && Ppn(At(m, p, v)) in m.use && m.use[Ppn(At(m, p, v))] == Private(p, v)
  }

  // The pages of the heap are the mapped ones, all private and for data, and the reclaimed
  // ones; no page above them in the heap area is mapped.
  ghost predicate HeapOk(m: M, p: nat, h: Heap) {
    && p in m.roots && HeapShape(h)
    && forall v: nat {:trigger At(m, p, v)} :: HEAP_VPN <= v < ARENA_END ==>
         if v * PGSIZE < h.top && v * PGSIZE !in h.freed then HeapPage(m, p, v) else At(m, p, v) == 0
  }

  predicate HeapPage(m: M, p: nat, v: nat)
    requires p in m.roots
  {
    PrivateAt(m, p, v) && ForData(At(m, p, v))
  }

  // No heap page changed, so the heap is as good as before.
  lemma HeapStays(m: M, m': M, p: nat, h: Heap, x: Frame)
    requires HeapOk(m, p, h) && p in m'.roots && Kept(m, m', x)
    requires forall v: nat {:trigger At(m', p, v)} :: HEAP_VPN <= v < ARENA_END ==> At(m', p, v) == At(m, p, v)
    requires x in m.use ==> !(m.use[x].Private? && m.use[x].p == p && HEAP_VPN <= m.use[x].vpn < ARENA_END)
    ensures HeapOk(m', p, h)
  {
    hide HeapShape;
    forall v: nat | HEAP_VPN <= v < ARENA_END
      ensures if v * PGSIZE < h.top && v * PGSIZE !in h.freed then HeapPage(m', p, v) else At(m', p, v) == 0
    {
      assert At(m', p, v) == At(m, p, v);
      if v * PGSIZE < h.top && v * PGSIZE !in h.freed { assert HeapPage(m, p, v); }
    }
  }

  // ---------------------------------------------------------------------
  // There are fewer physical pages than the heap area has
  // ---------------------------------------------------------------------

  ghost function Frames(m: M, p: nat, lo: nat, hi: nat): set<Frame>
    requires p in m.roots && lo <= hi
  {
    if lo == hi then {} else Frames(m, p, lo, hi - 1) + {Ppn(At(m, p, hi - 1))}
  }

  lemma {:induction false} FramesDistinct(m: M, p: nat, lo: nat, hi: nat)
    requires p in m.roots && lo <= hi
    requires forall v: nat {:trigger PrivateAt(m, p, v)} :: lo <= v < hi ==> PrivateAt(m, p, v)
    ensures |Frames(m, p, lo, hi)| == hi - lo
    ensures forall f {:trigger f in Frames(m, p, lo, hi)} :: f in Frames(m, p, lo, hi) ==>
              f in m.use && m.use[f].Private? && m.use[f].vpn < hi
  {
    hide At;
    if lo < hi {
      FramesDistinct(m, p, lo, hi - 1);
      assert PrivateAt(m, p, hi - 1);
    }
  }

  lemma {:induction false} FewFrames(s: set<Frame>, a: nat, b: nat)
    requires a <= b && forall f {:trigger f in s} :: f in s ==> a <= f < b
    ensures |s| <= b - a
  {
    if a == b {
      assert s == {};
    } else {
      FewFrames(s - {b - 1}, a, b - 1);
      assert |s| <= |s - {b - 1}| + 1;
    }
  }

  lemma HeapFits(m: M, p: nat, hi: nat, start: int, end: int)
    requires p in m.roots && HEAP_VPN <= hi && Ranged(m, start, end) && DRAM_BASE <= start && end <= DRAM_BASE + MAX_RAM
    requires forall v: nat {:trigger PrivateAt(m, p, v)} :: HEAP_VPN <= v < hi ==> PrivateAt(m, p, v)
    ensures hi - HEAP_VPN <= 0x8000
  {
    hide At;
    FramesDistinct(m, p, HEAP_VPN, hi);
    var s := Frames(m, p, HEAP_VPN, hi);
    forall f | f in s ensures 0x8_0000 <= f < 0x8_8000 {
      assert m.use[f] != Shared;
    }
    FewFrames(s, 0x8_0000, 0x8_8000);
  }

  // ---------------------------------------------------------------------
  // All processes
  // ---------------------------------------------------------------------

  predicate BaseHeap(h: Heap) { h.bottom == HEAP_VPN * PGSIZE && h.top % PGSIZE == 0 && h.bottom <= h.top }

  ghost predicate DirsOk(m: M, procs: map<nat, Proc>) {
    && (forall p {:trigger p in procs} {:trigger p in m.roots} :: p in procs <==> p in m.roots)
    && (forall p {:trigger procs[p]} :: p in procs ==>
          p in m.roots && procs[p].pageDir == m.roots[p] && BaseHeap(procs[p].heap))
  }

  // The regions start with the four of alloc_process; the loader's lie outside the heap
  // area, and a code page is mapped and shared.
  predicate RegionsOk(rs: seq<Region>) {
    && |rs| >= 4 && rs[0].kind == STACK && rs[0].va == STACK_VPN * PGSIZE
    && rs[1].kind == CONTEXT && rs[2].kind == SYSTEM && rs[3].kind == HEAP
    && forall j {:trigger rs[j]} :: 4 <= j < |rs| ==>
         rs[j].kind in {CODE, DATA} && rs[j].va % PGSIZE == 0 && rs[j].va < MAXVA && !InArena(rs[j].va / PGSIZE)
  }

  predicate SharedAt(m: M, p: nat, v: nat)
    requires p in m.roots
  {
    && v < MAXVPN && At(m, p, v) != 0 && ForCode(At(m, p, v)) && Ppn(At(m, p, v)) < 0x8_8000
    && Ppn(At(m, p, v)) in m.use && m.use[Ppn(At(m, p, v))] == Shared
  }

  ghost predicate CodeOk(m: M, p: nat, rs: seq<Region>)
    requires p in m.roots
  {
    && RegionsOk(rs) && ArenaPrivate(m, p)
    && forall j {:trigger rs[j]} :: 4 <= j < |rs| && rs[j].kind == CODE ==> SharedAt(m, p, rs[j].va / PGSIZE)
  }

  // What is mapped in the heap area is the process's own.
  ghost predicate ArenaPrivate(m: M, p: nat)
    requires p in m.roots
  {
    forall v: nat {:trigger At(m, p, v)} :: InArena(v) && At(m, p, v) != 0 ==> PrivateAt(m, p, v)
  }

  lemma ArenaStaysPrivate(m: M, m': M, p: nat, x: Frame)
    requires p in m.roots && p in m'.roots && ArenaPrivate(m, p) && Kept(m, m', x)
    requires forall v: nat {:trigger At(m', p, v)} :: InArena(v) ==>
               At(m', p, v) == At(m, p, v) || At(m', p, v) == 0 || PrivateAt(m', p, v)
    requires x in m.use && m.use[x].Private? && m.use[x].p == p && InArena(m.use[x].vpn) ==>
      At(m', p, m.use[x].vpn) == 0
    ensures ArenaPrivate(m', p)
  {
    hide At;
    forall v: nat | InArena(v) && At(m', p, v) != 0 ensures PrivateAt(m', p, v) {
      if At(m', p, v) == At(m, p, v) { assert PrivateAt(m, p, v); }
    }
  }

  // Shared pages that are mapped stay so.
  lemma CodeStays(m: M, m': M, p: nat, rs: seq<Region>, x: Frame)
    requires p in m.roots && p in m'.roots && CodeOk(m, p, rs) && Kept(m, m', x) && (x in m.use ==> m.use[x] != Shared)
    requires forall v: nat {:trigger At(m', p, v)} :: SharedAt(m, p, v) ==> At(m', p, v) == At(m, p, v)
    requires forall v: nat {:trigger At(m', p, v)} :: InArena(v) ==>
               At(m', p, v) == At(m, p, v) || At(m', p, v) == 0 || PrivateAt(m', p, v)
    requires x in m.use && m.use[x].Private? && m.use[x].p == p && InArena(m.use[x].vpn) ==>
      At(m', p, m.use[x].vpn) == 0
    ensures CodeOk(m', p, rs)
  {
    hide At;
    ArenaStaysPrivate(m, m', p, x);
    forall j | 4 <= j < |rs| && rs[j].kind == CODE ensures SharedAt(m', p, rs[j].va / PGSIZE) {
      var v := rs[j].va / PGSIZE;
      assert SharedAt(m, p, v);
      assert At(m', p, v) == At(m, p, v);
    }
  }

  // The trap frame of a process is a page of its own, mapped at its physical address.
  ghost predicate TrapsOk(m: M, procs: map<nat, Proc>) {
    forall p {:trigger procs[p]} :: p in procs ==>
      var tf := procs[p].trapframe; DRAM_PAGE <= tf < 0x8_8000 && tf in m.use && m.use[tf] == Private(p, tf)
  }

  lemma TrapsStay(m: M, m': M, procs: map<nat, Proc>, x: Frame)
    requires TrapsOk(m, procs) && Kept(m, m', x) && (x in m.use && m.use[x].Private? ==> m.use[x].vpn < DRAM_PAGE)
    ensures TrapsOk(m', procs)
  {
    forall p | p in procs
      ensures procs[p].trapframe in m'.use && m'.use[procs[p].trapframe] == Private(p, procs[p].trapframe)
    {
      assert m.use[procs[p].trapframe] == Private(p, procs[p].trapframe);
    }
  }

  ghost predicate ProcsOk(m: M, procs: map<nat, Proc>, clean: set<nat>) {
    && DirsOk(m, procs)
    && (forall p {:trigger procs[p]} :: p in procs ==> CodeOk(m, p, procs[p].regions))
    && TrapsOk(m, procs)
    && forall p {:trigger p in clean} :: p in clean ==> p in procs && HeapOk(m, p, procs[p].heap)
  }

  // Page x may be in new hands: it was not a page of a heap area, nor a trap frame.
  predicate NoHeapPage(m: M, x: Frame) {
    x in m.use && m.use[x].Private? ==> !InArena(m.use[x].vpn) && m.use[x].vpn < DRAM_PAGE
  }

  lemma ProcsStay(m: M, m': M, procs: map<nat, Proc>, clean: set<nat>, x: Frame)
    requires ProcsOk(m, procs, clean) && SameUser(m, m') && Kept(m, m', x) && NoHeapPage(m, x)
    requires x in m.use ==> m.use[x] != Shared
    ensures ProcsOk(m', procs, clean)
  {
    hide HeapOk, At, CodeOk, TrapsOk;
    TrapsStay(m, m', procs, x);
    forall p | p in procs ensures CodeOk(m', p, procs[p].regions) {
      CodeStays(m, m', p, procs[p].regions, x);
    }
    forall p | p in clean ensures HeapOk(m', p, procs[p].heap) {
      HeapPoint(m, p, procs[p].heap);
      HeapStays(m, m', p, procs[p].heap, x);
    }
  }

  lemma HeapPoint(m: M, p: nat, h: Heap)
    requires HeapOk(m, p, h)
    ensures p in m.roots && HeapShape(h)
  {
  }

  // One page of one process changed, not one of a clean heap area.
  lemma ProcsOne(m: M, m': M, procs: map<nat, Proc>, clean: set<nat>, p: nat, vpn: nat, e: Word, x: Frame)
    requires ProcsOk(m, procs, clean) && OneChanged(m, m', p, vpn, e) && Kept(m, m', x) && NoHeapPage(m, x)
    requires (p in clean ==> !InArena(vpn)) && p in m.roots && At(m, p, vpn) == 0 && (x in m.use ==> m.use[x] != Shared)
    requires InArena(vpn) ==> Ppn(e) in m'.use && m'.use[Ppn(e)] == Private(p, vpn)
    ensures ProcsOk(m', procs, clean)
  {
    hide HeapOk, At, CodeOk, TrapsOk;
    TrapsStay(m, m', procs, x);
    forall q | q in procs ensures CodeOk(m', q, procs[q].regions) {
      CodeStays(m, m', q, procs[q].regions, x);
    }
    forall q | q in clean ensures HeapOk(m', q, procs[q].heap) {
      HeapPoint(m, q, procs[q].heap);
      HeapStays(m, m', q, procs[q].heap, x);
    }
  }

  lemma SameMapsUser(m: M, m': M)
    requires SameMaps(m, m')
    ensures SameUser(m, m')
  {
  }

  // A process is no longer clean.
  lemma LessClean(m: M, procs: map<nat, Proc>, clean: set<nat>, p: nat)
    requires ProcsOk(m, procs, clean)
    ensures ProcsOk(m, procs, clean - {p})
  {
    hide HeapOk, CodeOk;
  }

  // The heap of p grew or got back a reclaimed page: page vpn is mapped now.
  lemma HeapGrows(m: M, m': M, p: nat, h: Heap, h': Heap, vpn: nat, e: Word, f: Frame)
    requires HeapOk(m, p, h) && OneChanged(m, m', p, vpn, e) && Kept(m, m', f) && InArena(vpn)
    requires f in m.use && m.use[f] == Kernel && f in m'.use && m'.use[f] == Private(p, vpn) && e != 0 && Ppn(e) == f
    requires ForData(e)
    requires HeapShape(h') && vpn * PGSIZE < h'.top && vpn * PGSIZE !in h'.freed
    requires forall v: nat {:trigger v * PGSIZE} :: InArena(v) && v != vpn ==>
               (v * PGSIZE < h'.top <==> v * PGSIZE < h.top) && (v * PGSIZE in h'.freed <==> v * PGSIZE in h.freed)
    ensures HeapOk(m', p, h')
  {
    hide HeapShape;
    forall v: nat | InArena(v)
      ensures if v * PGSIZE < h'.top && v * PGSIZE !in h'.freed then HeapPage(m', p, v) else At(m', p, v) == 0
    {
      assert At(m', p, v) == if v == vpn then e else At(m, p, v);
    }
  }

  // The heap of p gave up page vpn.
  lemma HeapShrinks(m: M, m': M, p: nat, h: Heap, h': Heap, vpn: nat, f: Frame)
    requires HeapOk(m, p, h) && OneChanged(m, m', p, vpn, 0) && Kept(m, m', f) && InArena(vpn)
    requires PrivateAt(m, p, vpn) && f == Ppn(At(m, p, vpn))
    requires HeapShape(h') && h'.top == h.top && h'.freed == h.freed + [vpn * PGSIZE]
    ensures HeapOk(m', p, h')
  {
    hide HeapShape;
    forall v: nat | InArena(v)
      ensures if v * PGSIZE < h'.top && v * PGSIZE !in h'.freed then HeapPage(m', p, v) else At(m', p, v) == 0
    {
      assert At(m', p, v) == if v == vpn then 0 else At(m, p, v);
      if v != vpn && v * PGSIZE < h.top && v * PGSIZE !in h.freed { assert HeapPage(m, p, v); }
    }
  }

  // The shape of the heap after an allocation.
  function Allocated(h: Heap): Heap {
    if |h.freed| > 0 then h.(freed := h.freed[..|h.freed| - 1]) else h.(top := h.top + PGSIZE)
  }

  // ... and after a page was given back.
  function Reclaimed(h: Heap, va: Word): Heap { h.(freed := h.freed + [va]) }

  function NextPage(h: Heap): int { if |h.freed| > 0 then h.freed[|h.freed| - 1] else h.top }

  // An address that the process got from the heap and has not given back.
  predicate Live(h: Heap, va: int) { va % PGSIZE == 0 && h.bottom <= va < h.top && va !in h.freed }

  lemma NextPageFree(m: M, p: nat, h: Heap, start: int, end: int)
    requires HeapOk(m, p, h) && Ranged(m, start, end) && DRAM_BASE <= start && end <= DRAM_BASE + MAX_RAM
    ensures var va := NextPage(h);
            && 0 <= va && va % PGSIZE == 0 && InArena(va / PGSIZE) && va / PGSIZE * PGSIZE == va && va < MAXVA
            && At(m, p, va / PGSIZE) == 0 && HeapShape(Allocated(h))
            && (|h.freed| > 0 ==> va < h.top)
            && va < Allocated(h).top && va !in Allocated(h).freed
  {
    hide At;
    if |h.freed| > 0 {
      var va := NextPage(h);
      assert va == va / PGSIZE * PGSIZE && va in h.freed;
      assert At(m, p, va / PGSIZE) == 0;
    } else {
      forall v: nat | HEAP_VPN <= v < h.top / PGSIZE ensures PrivateAt(m, p, v) {
        assert HeapPage(m, p, v) by { assert At(m, p, v) == At(m, p, v); }
      }
      HeapFits(m, p, h.top / PGSIZE, start, end);
      assert h.top == h.top / PGSIZE * PGSIZE;
      assert At(m, p, h.top / PGSIZE) == 0;
    }
  }

  lemma AllocatedElsewhere(h: Heap)
    requires HeapShape(h)
    ensures forall v: nat {:trigger v * PGSIZE} :: v * PGSIZE != NextPage(h) ==>
              (v * PGSIZE < Allocated(h).top <==> v * PGSIZE < h.top) &&
              (v * PGSIZE in Allocated(h).freed <==> v * PGSIZE in h.freed)
  {
    if |h.freed| > 0 {
      var n := |h.freed| - 1;
      assert h.freed == h.freed[..n] + [h.freed[n]];
    }
  }

  // There is a page to map, and there are pages for the tables it needs.
  ghost predicate HasPages(m: M, p: nat, vpn: nat)
    requires p in m.roots
  {
    1 + Missing(ShapeOf(m, p), vpn) <= |m.free|
  }

  // What becomes of an allocation.
  ghost function AllocateOutcome(m: M, p: nat, h: Heap): Outcome
    requires p in m.roots
  {
    var va := NextPage(h);
    if m.free == [] then OutOfScope
    else if (|h.freed| > 0 && va >= h.top) || va >= MAXVA then Panic
    else if va % PGSIZE != 0 || va < 0 then OutOfScope
    else if At(m, p, va / PGSIZE) == 0 && HasPages(m, p, va / PGSIZE) then Fine else Panic
  }

  lemma TakenCanMap(m: M, m1: M, p: nat, vpn: nat)
    requires p in m.roots && SameUser(m, m1) && SameShapes(m, m1) && |m1.free| == |m.free| - 1
    ensures p in m1.roots && (CanMap(m1, p, vpn) <==> vpn < MAXVPN && At(m, p, vpn) == 0 && HasPages(m, p, vpn))
  {
    hide At, ShapeOf, Missing;
    ShapeSame(m, m1, p);
    SameUserAt(m, m1, p, vpn);
  }

  // Shared pages stay shared, with their contents.
  ghost predicate SharedStay(m: M, m': M) {
    forall f {:trigger m.use[f]} {:trigger m'.mem[f]} :: f in m.use && m.use[f] == Shared ==>
      f in m'.use && m'.use[f] == Shared && f in m.mem && f in m'.mem && m'.mem[f] == m.mem[f]
  }

  lemma KeptShared(m: M, m': M, x: Frame)
    requires Kept(m, m', x) && (x in m.use ==> m.use[x] != Shared)
    ensures SharedStay(m, m')
  {
  }

  lemma SharedTrans(m: M, m1: M, m2: M)
    requires SharedStay(m, m1) && SharedStay(m1, m2)
    ensures SharedStay(m, m2)
  {
    forall f | f in m.use && m.use[f] == Shared
      ensures f in m2.use && m2.use[f] == Shared && f in m.mem && f in m2.mem && m2.mem[f] == m.mem[f]
    {
      assert m.use[f] == m1.use[f];
    }
  }

  // Page f was nobody's, and then it was taken and changed: no page in anybody's hands did.
  lemma TakenKept(m: M, m1: M, m2: M, f: Frame)
    requires Kept(m, m1, NO_PAGE) && Kept(m1, m2, f) && (f in m.use ==> !InHands(m.use[f]))
    ensures Kept(m, m2, NO_PAGE)
  {
    forall g | g in m.use && InHands(m.use[g]) && g != NO_PAGE
      ensures g in m2.use && m2.use[g] == m.use[g] && g in m.mem && g in m2.mem && m2.mem[g] == m.mem[g]
    {
      assert m.use[g] == m1.use[g];
    }
  }

  // The kernel's page f became page v of process p, for data.
  ghost predicate MappedTo(m: M, m': M, p: nat, v: nat, f: Frame) {
    && p in m.roots && p in m'.roots && v < MAXVPN && At(m, p, v) == 0 && PrivateAt(m', p, v)
    && Ppn(At(m', p, v)) == f && ForData(At(m', p, v)) && OneChanged(m, m', p, v, At(m', p, v)) && Kept(m, m', f)
  }

  lemma MappedFacts(m: M, m': M, p: nat, v: nat, f: Frame)
    requires MappedTo(m, m', p, v, f)
    ensures p in m.roots && p in m'.roots && v < MAXVPN && At(m, p, v) == 0 && PrivateAt(m', p, v)
    ensures At(m', p, v) != 0 && Ppn(At(m', p, v)) == f && ForData(At(m', p, v))
    ensures OneChanged(m, m', p, v, At(m', p, v))
    ensures Kept(m, m', f)
    ensures f in m'.use && m'.use[f] == Private(p, v)
  {
    hide At, OneChanged, Kept;
  }

  // The region of the heap counts a page more exactly if the heap grew.
  predicate HeapCounted(before: Proc, after: Proc) {
    && |before.regions| >= 4 && after.pageDir == before.pageDir && after.trapframe == before.trapframe
    && var r := before.regions[3];
       after.regions == before.regions[3 := r.(npages := r.npages + if after.heap.top > before.heap.top then 1 else 0)]
  }

  // One word of one page changed.
  ghost function WithWord(m: M, f: Frame, k: nat, w: Word): M
    requires f in m.mem && k < 512
  {
    m.(mem := m.mem[f := m.mem[f][k := w]])
  }

  class Procs {
    const mmu: Mmu
    const trapPage: Frame              // the page of the trap vector
    var procs: map<nat, Proc>
    ghost var clean: set<nat>

    ghost predicate Valid()
      reads this, mmu
    {
      && Ok(mmu) && DRAM_BASE <= mmu.start && mmu.end <= DRAM_BASE + MAX_RAM
      && trapPage in mmu.use && mmu.use[trapPage] == Shared && 0x8_0000 <= trapPage < 0x8_8000
      && ProcsOk(mmu.S(), procs, clean)
    }

    constructor (mmu: Mmu, trapPage: Frame)
      requires Ok(mmu) && DRAM_BASE <= mmu.start && mmu.end <= DRAM_BASE + MAX_RAM && mmu.roots == map[]
      requires trapPage in mmu.use && mmu.use[trapPage] == Shared && 0x8_0000 <= trapPage < 0x8_8000
      ensures Valid() && procs == map[] && this.mmu == mmu && this.trapPage == trapPage
    {
      this.mmu, this.trapPage := mmu, trapPage;
      procs, clean := map[], {};
    }

    // The page f, just taken, is mapped for the process; m is the state before it was taken.
    method MapTaken(ghost m: M, p: nat, va: Word, f: Frame) returns (ok: bool)
      requires Valid() && p in procs && p in m.roots && va % PGSIZE == 0
      requires SameUser(m, mmu.S()) && SameShapes(m, mmu.S()) && |mmu.free| == |m.free| - 1 && Kept(m, mmu.S(), NO_PAGE)
      requires 0 !in m.use && f in m.use && !InHands(m.use[f]) && f in mmu.use && mmu.use[f] == Kernel
      modifies mmu
      ensures p in mmu.roots
      ensures ok <==> va < MAXVA && At(m, p, va / PGSIZE) == 0 && HasPages(m, p, va / PGSIZE)
      ensures ok ==>
        Ok(mmu) && trapPage in mmu.use && mmu.use[trapPage] == Shared && mmu.shared == m.shared &&
        SharedStay(m, mmu.S())
      ensures ok ==> MappedTo(old(mmu.S()), mmu.S(), p, va / PGSIZE, f)
      ensures ok ==> OneChanged(m, mmu.S(), p, va / PGSIZE, At(mmu.S(), p, va / PGSIZE)) && Kept(m, mmu.S(), NO_PAGE)
    {
      hide Ok, ProcsOk, Kept, SameMaps, SameUser, SameShapes, OneChanged, HeapOk, HeapShape, At, Ranged, MkPte,
        ProtToType, HasPages, CanMap, SharedStay;
      ghost var m1, v := mmu.S(), va / PGSIZE;
      KernelLow(mmu, f);
      ProtBits(3, true);
      DirOf(m1, procs, clean, p);
      SameUserAt(m, m1, p, v);
      TakenCanMap(m, m1, p, v);
      var r := MapUser(mmu, p, procs[p].pageDir, va, f, ReadWrite());
      ok := r == Mapped;
      if ok {
        TakenKept(m, m1, mmu.S(), f);
        KeptShared(m, mmu.S(), NO_PAGE);
        EntryOfPage(f, ReadWrite());
        NowAt(m, m1, mmu.S(), p, v, MkPte(f * PGSIZE, ReadWrite()), f);
        StillShared2(m1, mmu.S(), trapPage, f);
      }
    }

    /** sys_user_allocate_page.  For a clean process the address was not live, and only a
        lack of pages stops the call. */
    method SysUserAllocatePage(p: nat) returns (o: Outcome, va: int)
      requires Valid() && p in procs
      modifies this, mmu
      ensures p in mmu.roots && o == AllocateOutcome(old(mmu.S()), p, old(procs)[p].heap)
      ensures p in old(clean) ==> (o.Fine? <==> HasPages(old(mmu.S()), p, NextPage(old(procs)[p].heap) / PGSIZE))
      ensures o.Fine? ==>
        Valid() && clean == old(clean) && mmu.shared == old(mmu.shared) && SharedStay(old(mmu.S()), mmu.S())
      ensures o.Fine? ==>
        && va == NextPage(old(procs)[p].heap) && 0 <= va < MAXVA && procs.Keys == old(procs).Keys
        && procs == old(procs)[p := procs[p]] && procs[p].heap == Allocated(old(procs)[p].heap)
        && At(old(mmu.S()), p, va / PGSIZE) == 0 && PrivateAt(mmu.S(), p, va / PGSIZE)
        && OneChanged(old(mmu.S()), mmu.S(), p, va / PGSIZE, At(mmu.S(), p, va / PGSIZE))
        && Kept(old(mmu.S()), mmu.S(), NO_PAGE)
      ensures o.Fine? ==> DataPage(mmu.S(), p, va / PGSIZE, Ppn(At(mmu.S(), p, va / PGSIZE)))
      ensures o.Fine? ==> HeapCounted(old(procs)[p], procs[p])
    {
      hide Ok, ProcsOk, Kept, SameMaps, SameUser, SameShapes, OneChanged, HeapOk, HeapShape, At, Ranged, MkPte,
        ProtToType, HasPages, CanMap, SharedStay, MappedTo, DataPage, ForData;
      ghost var m := mmu.S();
      DirOf(m, procs, clean, p);
      ZeroNotUsed(mmu);
      var f := TakePage(mmu);
      ghost var m1 := mmu.S();
      SameMapsUser(m, m1);
      if f == 0 { NoPages(m, p); return OutOfScope, 0; }
      StillShared(m, m1, trapPage);
      ProcsStay(m, m1, procs, clean, NO_PAGE);
      var h := procs[p].heap;
      if p in clean { CleanNext(mmu, procs, clean, p); CleanSame(m, m1, p, h); }
      va := NextPage(h);
      if |h.freed| > 0 && va >= h.top { return Panic, va; }     // the assertion
      if va % PGSIZE != 0 || va < 0 || va >= MAXVA {
        return if va >= MAXVA then Panic else OutOfScope, va;
      }
      var ok := MapTaken(m, p, va, f);
      if !ok { return Panic, va; }
      MappedFacts(m1, mmu.S(), p, va / PGSIZE, f);
      PageUse(mmu, p, va / PGSIZE);
      var regions := procs[p].regions;
      if |h.freed| == 0 { regions := regions[3 := regions[3].(npages := regions[3].npages + 1)]; }
      var proc := procs[p].(heap := Allocated(h), regions := regions);
      AllocatedOk(m1, mmu.S(), procs, clean, p, va / PGSIZE, f, At(mmu.S(), p, va / PGSIZE), proc);
      procs := procs[p := proc];
      o := Fine;
    }

    /** sys_user_free_page, of any address in the heap area.  The split of the heap into
        mapped and reclaimed pages survives exactly if the process gave back a live page. */
    method SysUserFreePage(p: nat, va: Word) returns (o: Outcome)
      requires Valid() && p in procs && p in mmu.roots
      modifies this, mmu
      ensures o.Panic? <==> va >= MAXVA
      ensures o.OutOfScope? <==> va < MAXVA && (|old(procs)[p].heap.freed| >= MAX_HEAP_PAGES || !InArena(va / PGSIZE))
      ensures o.Fine? ==> Valid() && mmu.shared == old(mmu.shared) && SharedStay(old(mmu.S()), mmu.S())
      ensures o.Fine? ==> clean == if Live(old(procs)[p].heap, va) then old(clean) else old(clean) - {p}
      ensures o.Fine? ==>
        && procs == old(procs)[p := old(procs)[p].(heap := Reclaimed(old(procs)[p].heap, va))]
        && (At(old(mmu.S()), p, va / PGSIZE) == 0 ==> mmu.S() == old(mmu.S()))
        && (At(old(mmu.S()), p, va / PGSIZE) != 0 ==>
              && PrivateAt(old(mmu.S()), p, va / PGSIZE)
              && Kept(old(mmu.S()), mmu.S(), Ppn(At(old(mmu.S()), p, va / PGSIZE)))
              && OneChanged(old(mmu.S()), mmu.S(), p, va / PGSIZE, 0)
              && mmu.free == old(mmu.free) + [Ppn(At(old(mmu.S()), p, va / PGSIZE))])
      ensures p in old(clean) && o.Fine? && Live(old(procs)[p].heap, va) ==> At(old(mmu.S()), p, va / PGSIZE) != 0
      ensures p in old(clean) && o.Fine? ==>
                (HeapOk(mmu.S(), p, Reclaimed(old(procs)[p].heap, va)) <==> Live(old(procs)[p].heap, va))
      ensures o.Fine? ==> p in mmu.roots && NoAccess(mmu.S(), p, va / PGSIZE)
    {
      hide NoAccess, Ok, ProcsOk, Kept, SameUser, OneChanged, HeapOk, HeapShape, At, Ranged, SharedStay;
      if va >= MAXVA { return Panic; }
      var h := procs[p].heap;
      if |h.freed| >= MAX_HEAP_PAGES || !InArena(va / PGSIZE) { return OutOfScope; }
      ghost var m := mmu.S();
      DirOf(m, procs, clean, p);
      OwnPage(m, procs, clean, p, va / PGSIZE);
      var proc := procs[p].(heap := Reclaimed(h, va));
      LiveMapped(m, procs, clean, p, va);
      EntryMeans(m, p, va / PGSIZE);
      if V(Entry(mmu.mem, procs[p].pageDir, va / PGSIZE)) {
        UnmapUser(mmu, p, procs[p].pageDir, va);
        FreedOkAll(m, mmu.S(), procs, clean, p, va, proc);
        StillShared2(m, mmu.S(), trapPage, Ppn(At(m, p, va / PGSIZE)));
        KeptShared(m, mmu.S(), Ppn(At(m, p, va / PGSIZE)));
      } else {
        SameUserSelf(m);
        KeptSelfOf(mmu);
        KeptShared(m, m, NO_PAGE);
        NotMapped(m, procs, clean, p, va, proc);
      }
      if p in clean {
        HeapStill(mmu.S(), procs[p := proc], if Live(h, va) then clean else clean - {p}, p);
        if !Live(h, va) { FreeBreaks(mmu.S(), p, h, va); }
      }
      GoneUse(mmu, m, p, va / PGSIZE);
      clean := if Live(h, va) then clean else clean - {p};
      procs := procs[p := proc];
      o := Fine;
    }

    /** handle_user_page_fault on a store.  A page faulted in from the heap area breaks the
        split of the heap, any other fault leaves it. */
    method StorePageFault(p: nat, stval: Word) returns (o: Outcome)
      requires Valid() && p in procs && p in mmu.roots
      modifies this, mmu
      ensures o.Fine? || o.Panic?
      ensures var v := stval / PGSIZE;
              o.Fine? <==> stval < MAXVA && At(old(mmu.S()), p, v) == 0 && HasPages(old(mmu.S()), p, v)
      ensures o.Fine? ==>
        Valid() && procs == old(procs) && mmu.shared == old(mmu.shared) && SharedStay(old(mmu.S()), mmu.S())
      ensures p in old(clean) && o.Fine? ==> (HeapOk(mmu.S(), p, procs[p].heap) <==> !InArena(stval / PGSIZE))
      ensures o.Fine? ==> clean == if InArena(stval / PGSIZE) then old(clean) - {p} else old(clean)
      ensures o.Fine? ==>
        && p in mmu.roots
        && stval < MAXVA && At(old(mmu.S()), p, stval / PGSIZE) == 0 && PrivateAt(mmu.S(), p, stval / PGSIZE)
        && OneChanged(old(mmu.S()), mmu.S(), p, stval / PGSIZE, At(mmu.S(), p, stval / PGSIZE))
        && Kept(old(mmu.S()), mmu.S(), NO_PAGE)
      ensures o.Fine? ==> DataPage(mmu.S(), p, stval / PGSIZE, Ppn(At(mmu.S(), p, stval / PGSIZE)))
    {
      hide Ok, ProcsOk, Kept, SameMaps, SameUser, SameShapes, OneChanged, HeapOk, HeapShape, At, Ranged, MkPte,
        ProtToType, CanMap, SharedStay, HasPages, MappedTo, DataPage, ForData;
      ghost var m := mmu.S();
      DirOf(m, procs, clean, p);
      ZeroNotUsed(mmu);
      var f := TakePage(mmu);
      ghost var m1 := mmu.S();
      SameMapsUser(m, m1);
      if f == 0 { NoPages(m, p); return Panic; }
      StillShared(m, m1, trapPage);
      ProcsStay(m, m1, procs, clean, NO_PAGE);
      var ok := MapTaken(m, p, stval / PGSIZE * PGSIZE, f);
      if !ok { return Panic; }
      MappedFacts(m1, mmu.S(), p, stval / PGSIZE, f);
      PageUse(mmu, p, stval / PGSIZE);
      if InArena(stval / PGSIZE) {
        LessClean(m1, procs, clean, p);
        if p in clean { FaultBreaks(m, mmu.S(), procs, clean, p, stval / PGSIZE); }
        clean := clean - {p};
      }
      ProcsOne(m1, mmu.S(), procs, clean, p, stval / PGSIZE, At(mmu.S(), p, stval / PGSIZE), f);
      HeapStill(mmu.S(), procs, clean, p);
      o := Fine;
    }

    /** A store by user code, of one word, as the hardware does it: it can touch nothing
        but a page of the process's own. */
    method UserStore(p: nat, va: Word, w: Word) returns (ok: bool)
      requires Valid() && p in procs && p in mmu.roots && va < MAXVA && va % 8 == 0
      modifies mmu
      ensures Valid() && SameUser(old(mmu.S()), mmu.S()) && mmu.use == old(mmu.use) && mmu.free == old(mmu.free)
      ensures mmu.shared == old(mmu.shared)
      ensures SharedStay(old(mmu.S()), mmu.S())
      ensures ok <==> HwTranslate(old(mmu.mem), mmu.roots[p], va, Store).Translated?
      ensures !ok ==> mmu.S() == old(mmu.S())
      ensures ok ==> var f := Ppn(At(old(mmu.S()), p, va / PGSIZE));
                     && PrivateAt(old(mmu.S()), p, va / PGSIZE)
                     && f in old(mmu.mem) && mmu.S() == WithWord(old(mmu.S()), f, va % PGSIZE / 8, w)
    {
      hide ProcsOk, Kept, SameMaps, SameUser, At, HwTranslate, Allows, PagesOk, MapsOk, Ranged, Ppn, SharedStay;
      ghost var m := mmu.S();
      DirOf(m, procs, clean, p);
      StoreTarget(mmu, p, va);
      SameUserSelf(m);
      KeptSelfOf(mmu);
      KeptShared(m, m, NO_PAGE);
      match HwTranslate(mmu.mem, procs[p].pageDir, va, Store)
      case Fault => ok := false;
      case Translated(pa) =>
        var f := pa / PGSIZE;
        var page: Page := mmu.mem[f][pa % PGSIZE / 8 := w];
        StoreFills(mmu, f, page);
        KeptShared(m, Rewritten(m, f, page, m.use[f]), f);
        ProcsFilled(m, procs, clean, f, page);
        mmu.mem := mmu.mem[f := page];
        assert m.use[f := m.use[f]] == m.use;
        assert mmu.S() == Rewritten(m, f, page, m.use[f]);
        SameMapsUser(m, mmu.S());
        ok := true;
    }
  }

  lemma PageUse(mmu: Mmu, p: nat, v: nat)
    requires Ok(mmu) && p in mmu.roots && v < MAXVPN && At(mmu.S(), p, v) != 0
    ensures var e := At(mmu.S(), p, v);
            (ForData(e) ==> DataPage(mmu.S(), p, v, Ppn(e))) && (ForCode(e) ==> CodePage(mmu.S(), p, v, Ppn(e)))
  {
    hide PagesOk, At, DataPage, CodePage;
    EntryUse(mmu.S(), p, v);
  }

  lemma GoneUse(mmu: Mmu, m: M, p: nat, v: nat)
    requires Ok(mmu) && p in m.roots && v < MAXVPN
    requires OneChanged(m, mmu.S(), p, v, 0) || (mmu.S() == m && At(m, p, v) == 0)
    ensures p in mmu.roots && NoAccess(mmu.S(), p, v)
  {
    hide PagesOk, At, Barred, Reaches;
    assert At(mmu.S(), p, v) == 0;
    EntryReaches(mmu.S(), p, v, Load);
    EntryReaches(mmu.S(), p, v, Store);
    EntryReaches(mmu.S(), p, v, Fetch);
  }

  lemma NoPages(m: M, p: nat)
    requires p in m.roots && m.free == []
    ensures forall v: nat {:trigger HasPages(m, p, v)} :: !HasPages(m, p, v)
  {
  }

  lemma HeapStill(m: M, procs: map<nat, Proc>, clean: set<nat>, p: nat)
    requires ProcsOk(m, procs, clean)
    ensures p in clean ==> p in procs && HeapOk(m, p, procs[p].heap)
  {
    hide HeapOk, CodeOk, DirsOk;
  }

  /** After a page that is not live is given back, no memory makes the heap right: the list
      of reclaimed pages has a page twice, or one that the heap does not have. */
  lemma FreeBreaks(m: M, p: nat, h: Heap, va: Word)
    requires !Live(h, va)
    ensures !HeapOk(m, p, Reclaimed(h, va))
  {
    hide At;
    var h' := Reclaimed(h, va);
    var n := |h.freed|;
    assert h'.freed[n] == va;
    if va in h.freed {
      var i :| 0 <= i < n && h.freed[i] == va;
      assert h'.freed[i] == h'.freed[n];
    }
  }

  /** A page of the heap area that faulted in is not part of a clean heap. */
  lemma FaultBreaks(m: M, m': M, procs: map<nat, Proc>, clean: set<nat>, p: nat, v: nat)
    requires ProcsOk(m, procs, clean) && p in clean && p in procs && p in m.roots && p in m'.roots
    requires InArena(v) && At(m, p, v) == 0 && At(m', p, v) != 0
    ensures !HeapOk(m', p, procs[p].heap)
  {
    hide At, HeapShape, CodeOk, DirsOk;
    var h := procs[p].heap;
    assert HeapOk(m, p, h);
    assert !(v * PGSIZE < h.top && v * PGSIZE !in h.freed);
  }

  lemma KeptSelfOf(mmu: Mmu)
    requires Ok(mmu)
    ensures Kept(mmu.S(), mmu.S(), NO_PAGE) && 0 !in mmu.use
  {
    KeptSelf(mmu.S());
    NoZero(mmu.S());
  }

  lemma CleanSame(m: M, m1: M, p: nat, h: Heap)
    requires p in m.roots && p in m1.roots && SameUser(m, m1) && 0 <= NextPage(h) < MAXVA
    requires At(m1, p, NextPage(h) / PGSIZE) == 0
    ensures At(m, p, NextPage(h) / PGSIZE) == 0
  {
    SameUserAt(m, m1, p, NextPage(h) / PGSIZE);
  }

  lemma SameUserAt(m: M, m': M, p: nat, v: nat)
    requires SameUser(m, m') && p in m.roots
    ensures p in m'.roots && (v < MAXVPN ==> At(m', p, v) == At(m, p, v))
  {
  }

  lemma SameUserSelf(m: M)
    ensures SameUser(m, m)
  {
  }

  lemma EntryMeans(m: M, p: nat, v: nat)
    requires p in m.roots
    ensures Entry(m.mem, m.roots[p], v) == At(m, p, v) && (At(m, p, v) != 0 <==> V(At(m, p, v)))
  {
  }

  lemma OwnPage(m: M, procs: map<nat, Proc>, clean: set<nat>, p: nat, v: nat)
    requires ProcsOk(m, procs, clean) && p in procs && p in m.roots && InArena(v)
    ensures At(m, p, v) != 0 ==> PrivateAt(m, p, v)
  {
    hide HeapOk, At;
    assert ArenaPrivate(m, p) by { assert CodeOk(m, p, procs[p].regions); }
  }

  lemma LiveMapped(m: M, procs: map<nat, Proc>, clean: set<nat>, p: nat, va: Word)
    requires ProcsOk(m, procs, clean) && p in procs && p in m.roots
    ensures p in clean && Live(procs[p].heap, va) ==> InArena(va / PGSIZE) && PrivateAt(m, p, va / PGSIZE)
  {
    hide At;
    if p in clean && Live(procs[p].heap, va) {
      assert va / PGSIZE * PGSIZE == va;
      assert HeapPage(m, p, va / PGSIZE) by { assert At(m, p, va / PGSIZE) == At(m, p, va / PGSIZE); }
    }
  }

  lemma FreedShape(h: Heap, va: Word)
    requires HeapShape(h) && Live(h, va) && |h.freed| < MAX_HEAP_PAGES
    ensures HeapShape(Reclaimed(h, va))
  {
    var h' := Reclaimed(h, va);
    forall i, j | 0 <= i < j < |h'.freed| ensures h'.freed[i] != h'.freed[j] {
      if j == |h.freed| { assert h'.freed[i] in h.freed; }
    }
  }

  lemma FreedOkAll(m: M, m': M, procs: map<nat, Proc>, clean: set<nat>, p: nat, va: Word, proc: Proc)
    requires ProcsOk(m, procs, clean) && p in procs && p in m.roots && |procs[p].heap.freed| < MAX_HEAP_PAGES
    requires PrivateAt(m, p, va / PGSIZE) && OneChanged(m, m', p, va / PGSIZE, 0)
    requires Kept(m, m', Ppn(At(m, p, va / PGSIZE)))
    requires InArena(va / PGSIZE)
    requires proc == procs[p].(heap := Reclaimed(procs[p].heap, va))
    ensures ProcsOk(m', procs[p := proc], if Live(procs[p].heap, va) then clean else clean - {p})
  {
    hide HeapOk, At, HeapShape, CodeOk;
    var f, h := Ppn(At(m, p, va / PGSIZE)), procs[p].heap;
    TrapsStay(m, m', procs, f);
    forall q | q in procs ensures CodeOk(m', q, procs[q].regions) {
      CodeStays(m, m', q, procs[q].regions, f);
    }
    forall q | q in clean && q != p ensures HeapOk(m', q, procs[q].heap) {
      HeapPoint(m, q, procs[q].heap);
      HeapStays(m, m', q, procs[q].heap, f);
    }
    if p in clean && Live(h, va) {
      HeapPoint(m, p, h);
      LiveMapped(m, procs, clean, p, va);
      FreedShape(h, va);
      assert va / PGSIZE * PGSIZE == va;
      HeapShrinks(m, m', p, h, proc.heap, va / PGSIZE, f);
    }
  }

  lemma NotMapped(m: M, procs: map<nat, Proc>, clean: set<nat>, p: nat, va: Word, proc: Proc)
    requires ProcsOk(m, procs, clean) && p in procs && p in m.roots && At(m, p, va / PGSIZE) == 0
    requires proc == procs[p].(heap := Reclaimed(procs[p].heap, va))
    ensures ProcsOk(m, procs[p := proc], if Live(procs[p].heap, va) then clean else clean - {p})
  {
    hide HeapOk, At, CodeOk;
    LiveMapped(m, procs, clean, p, va);
  }

  lemma StoreTarget(mmu: Mmu, p: nat, va: Word)
    requires Ok(mmu) && p in mmu.roots && va < MAXVA
    ensures HwTranslate(mmu.mem, mmu.roots[p], va, Store).Translated? ==>
              var pa, e := HwTranslate(mmu.mem, mmu.roots[p], va, Store).pa, At(mmu.S(), p, va / PGSIZE);
              && e != 0 && pa >= 0 && pa / PGSIZE == Ppn(e) && pa % PGSIZE == va % PGSIZE
              && Ppn(e) in mmu.use && mmu.use[Ppn(e)] == Private(p, va / PGSIZE) && Ppn(e) in mmu.mem
  {
    hide PagesOk, HwTranslate, At, Ranged, R, W, D, U, A;
    InMemory(mmu.S());
    HardwareAgrees(mmu.S(), p, va, Store);
    PageOf(At(mmu.S(), p, va / PGSIZE));
  }

  lemma StoreFills(mmu: Mmu, f: Frame, page: Page)
    requires Ok(mmu) && f in mmu.use && InHands(mmu.use[f])
    ensures f in mmu.mem
    ensures var m' := Rewritten(mmu.S(), f, page, mmu.use[f]);
            && PagesOk(m') && MapsOk(m') && Ranged(m', mmu.start, mmu.end) && SameMaps(mmu.S(), m')
            && Kept(mmu.S(), m', f)
  {
    hide PagesOk, At;
    InMemory(mmu.S());
    FillKept(mmu.S(), f, page);
    assert mmu.use[f := mmu.use[f]] == mmu.use;
  }

  lemma FilledCode(m: M, m': M, p: nat, rs: seq<Region>)
    requires p in m.roots && SameMaps(m, m') && m'.use == m.use && CodeOk(m, p, rs)
    ensures p in m'.roots && CodeOk(m', p, rs)
  {
    hide At;
    forall j | 4 <= j < |rs| && rs[j].kind == CODE ensures SharedAt(m', p, rs[j].va / PGSIZE) {
      assert SharedAt(m, p, rs[j].va / PGSIZE);
      assert At(m', p, rs[j].va / PGSIZE) == At(m, p, rs[j].va / PGSIZE);
    }
  }

  lemma ProcsFilled(m: M, procs: map<nat, Proc>, clean: set<nat>, f: Frame, page: Page)
    requires ProcsOk(m, procs, clean) && PagesOk(m) && MapsOk(m) && f in m.use && InHands(m.use[f])
    ensures ProcsOk(Rewritten(m, f, page, m.use[f]), procs, clean)
  {
    hide PagesOk, MapsOk, At, CodeOk, HeapOk, SameMaps, Kept, SameShapes;
    FillKept(m, f, page);
    var m' := Rewritten(m, f, page, m.use[f]);
    assert m'.use == m.use && m'.roots == m.roots;
    forall p | p in procs ensures CodeOk(m', p, procs[p].regions) {
      FilledCode(m, m', p, procs[p].regions);
    }
    forall p | p in clean ensures HeapOk(m', p, procs[p].heap) {
      FilledHeap(m, m', p, procs[p].heap);
    }
  }

  lemma FilledHeap(m: M, m': M, p: nat, h: Heap)
    requires SameMaps(m, m') && m'.use == m.use && HeapOk(m, p, h)
    ensures HeapOk(m', p, h)
  {
    hide At, HeapShape;
    forall v: nat | InArena(v)
      ensures if v * PGSIZE < h.top && v * PGSIZE !in h.freed then HeapPage(m', p, v) else At(m', p, v) == 0
    {
      assert At(m', p, v) == At(m, p, v);
    }
  }

  lemma EntryOfPage(f: Frame, perm: Word)
    requires perm < 1024 && f < 0x8_8000
    ensures MkPte(f * PGSIZE, perm) != 0 && Ppn(MkPte(f * PGSIZE, perm)) == f
    ensures perm == ReadWrite() ==> ForData(MkPte(f * PGSIZE, perm))
    ensures perm == CodePerm() ==> ForCode(MkPte(f * PGSIZE, perm))
  {
    hide MkPte, V, R, W, ProtToType;
    MkPteFields(f * PGSIZE, perm);
    Nonzero(MkPte(f * PGSIZE, perm));
    if perm == ReadWrite() {
      ProtBits(3, true);
      SetV(perm);
      SameFlags(MkPte(f * PGSIZE, perm), perm + 1);
    }
    if perm == CodePerm() {
      ProtBits(5, true);
      SetV(perm);
      SameFlags(MkPte(f * PGSIZE, perm), perm + 1);
    }
  }

  lemma DirOf(m: M, procs: map<nat, Proc>, clean: set<nat>, p: nat)
    requires ProcsOk(m, procs, clean) && p in procs
    ensures p in m.roots && procs[p].pageDir == m.roots[p] && RegionsOk(procs[p].regions) && BaseHeap(procs[p].heap)
  {
    hide HeapOk;
  }

  lemma StillShared(m: M, m': M, f: Frame)
    requires Kept(m, m', NO_PAGE) && f in m.use && m.use[f] == Shared && f != 0
    ensures f in m'.use && m'.use[f] == Shared && m'.shared == m.shared
  {
  }

  lemma StillShared2(m: M, m': M, f: Frame, x: Frame)
    requires Kept(m, m', x) && f in m.use && m.use[f] == Shared && x in m.use && m.use[x] != Shared
    ensures f in m'.use && m'.use[f] == Shared && m'.shared == m.shared
  {
  }

  lemma ZeroNotUsed(mmu: Mmu)
    requires Ok(mmu)
    ensures 0 !in mmu.use
  {
    NoZero(mmu.S());
  }

  lemma CleanNext(mmu: Mmu, procs: map<nat, Proc>, clean: set<nat>, p: nat)
    requires Ok(mmu) && DRAM_BASE <= mmu.start && mmu.end <= DRAM_BASE + MAX_RAM
    requires ProcsOk(mmu.S(), procs, clean) && p in clean
    ensures p in procs && p in mmu.roots
    ensures var va := NextPage(procs[p].heap);
            && 0 <= va && va % PGSIZE == 0 && InArena(va / PGSIZE) && va < MAXVA
            && At(mmu.S(), p, va / PGSIZE) == 0 && (|procs[p].heap.freed| > 0 ==> va < procs[p].heap.top)
            && HeapShape(Allocated(procs[p].heap)) && va < Allocated(procs[p].heap).top
            && va !in Allocated(procs[p].heap).freed
  {
    hide PagesOk, MapsOk, HeapShape, At;
    NextPageFree(mmu.S(), p, procs[p].heap, mmu.start, mmu.end);
  }

  lemma KernelLow(mmu: Mmu, f: Frame)
    requires Ok(mmu) && f in mmu.use && mmu.use[f] != Shared && mmu.end <= DRAM_BASE + MAX_RAM
    ensures f * PGSIZE + MAXVA + PGSIZE <= PPN_LIMIT * PGSIZE && f < 0x8_8000
  {
    hide PagesOk, MapsOk;
    PrivateRange(mmu.S(), f, mmu.start, mmu.end);
  }

  lemma AllocatedOk(m: M, m': M, procs: map<nat, Proc>, clean: set<nat>, p: nat, vpn: nat, f: Frame, e: Word,
                    proc: Proc)
    requires ProcsOk(m, procs, clean) && p in procs && vpn * PGSIZE == NextPage(procs[p].heap)
    requires p in m.roots && OneChanged(m, m', p, vpn, e) && Kept(m, m', f) && At(m, p, vpn) == 0
    requires f in m.use && m.use[f] == Kernel && f in m'.use && m'.use[f] == Private(p, vpn) && e != 0 && Ppn(e) == f
    requires ForData(e)
    requires p in clean ==> InArena(vpn) && HeapShape(Allocated(procs[p].heap)) &&
                            vpn * PGSIZE < Allocated(procs[p].heap).top &&
                            vpn * PGSIZE !in Allocated(procs[p].heap).freed
    requires AfterAlloc(procs[p], proc)
    ensures ProcsOk(m', procs[p := proc], clean)
  {
    hide HeapOk, At, HeapShape, CodeOk;
    var h := procs[p].heap;
    TrapsStay(m, m', procs, f);
    forall q | q in procs ensures CodeOk(m', q, procs[q].regions) {
      CodeStays(m, m', q, procs[q].regions, f);
    }
    SameCode(m', p, procs[p].regions, proc.regions);
    forall q | q in clean && q != p ensures HeapOk(m', q, procs[q].heap) {
      HeapPoint(m, q, procs[q].heap);
      HeapStays(m, m', q, procs[q].heap, f);
    }
    if p in clean {
      HeapPoint(m, p, h);
      AllocatedElsewhere(h);
      HeapGrows(m, m', p, h, Allocated(h), vpn, e, f);
    }
  }

  predicate AfterAlloc(before: Proc, proc: Proc) {
    && proc.heap == Allocated(before.heap) && proc.pageDir == before.pageDir && proc.trapframe == before.trapframe
    && SameRegions(before.regions, proc.regions)
  }

  // The same but for page counts.
  predicate SameRegions(rs: seq<Region>, rs': seq<Region>) {
    |rs'| == |rs| && forall j {:trigger rs'[j]} :: 0 <= j < |rs| ==> rs'[j].kind == rs[j].kind && rs'[j].va == rs[j].va
  }

  lemma SameCode(m: M, p: nat, rs: seq<Region>, rs': seq<Region>)
    requires p in m.roots && CodeOk(m, p, rs) && SameRegions(rs, rs')
    ensures CodeOk(m, p, rs')
  {
    hide At;
    forall j | 4 <= j < |rs'| && rs'[j].kind == CODE ensures SharedAt(m, p, rs'[j].va / PGSIZE) {
      assert rs'[j].va == rs[j].va && rs[j].kind == CODE;
    }
  }

  lemma NowAt(m: M, m1: M, m2: M, p: nat, vpn: nat, e: Word, f: Frame)
    requires SameUser(m, m1) && OneChanged(m1, m2, p, vpn, e) && p in m.roots && vpn < MAXVPN && At(m1, p, vpn) == 0
    requires e != 0 && Ppn(e) == f && f in m2.use && m2.use[f] == Private(p, vpn)
    ensures p in m2.roots && At(m2, p, vpn) == e && At(m, p, vpn) == 0 && PrivateAt(m2, p, vpn)
    ensures OneChanged(m, m2, p, vpn, e)
  {
    hide At;
  }
}
