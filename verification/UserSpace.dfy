/**
 Who owns which page of memory: no page that one address space maps is free, a page
 table, or mapped anywhere else, unless it is shared by design.
 */
module UserSpace {
  import opened Sv39
  import opened PageTables
  import opened Paging

  // Every mapped page is private to that mapping or meant to be shared; a shared page is
  // nowhere writable.
  ghost predicate MapsOk(m: M) {
    forall p, v: nat {:trigger At(m, p, v)} ::
      p in m.roots && v < MAXVPN && At(m, p, v) != 0 ==> Owned(m, p, v, At(m, p, v))
  }

  predicate Owned(m: M, p: nat, v: nat, e: Word) {
    Ppn(e) in m.use && (m.use[Ppn(e)] == Private(p, v) || (m.use[Ppn(e)] == Shared && !W(e)))
  }

  // Pages handed out by the allocator lie in its range; shared pages were made so.
  ghost predicate Ranged(m: M, start: int, end: int) {
    forall f {:trigger m.use[f]} :: f in m.use ==>
      if m.use[f] == Shared then f in m.shared else start <= f * PGSIZE < end
  }

  // Both pages are mapped, to the same physical page.
  predicate MapSame(m: M, p: nat, v: nat, q: nat, w: nat) {
    && p in m.roots && q in m.roots && v < MAXVPN && w < MAXVPN
    && At(m, p, v) != 0 && At(m, q, w) != 0 && Ppn(At(m, p, v)) == Ppn(At(m, q, w))
  }

  predicate InHands(u: Use) { u.Private? || u.Shared? || u.Kernel? }

  // Pages that a process or the kernel has keep their use and contents, but for page x.
  ghost predicate Kept(m: M, m': M, x: Frame) {
    && m'.shared == m.shared
    && forall f {:trigger m.use[f]} {:trigger m'.use[f]} {:trigger m'.mem[f]} ::
        f in m.use && InHands(m.use[f]) && f != x ==>
      f in m'.use && m'.use[f] == m.use[f] && f in m.mem && f in m'.mem && m'.mem[f] == m.mem[f]
  }

  // No page is in the free list twice; a page that some process maps is neither free nor
  // a page table; if it is mapped at two places it is a shared one; no table is free.
  ghost predicate PagesApart(m: M) {
    && (forall i, j {:trigger m.free[i], m.free[j]} :: 0 <= i < j < |m.free| ==> m.free[i] != m.free[j])
    && (forall p, v: nat {:trigger At(m, p, v)} :: p in m.roots && v < MAXVPN && At(m, p, v) != 0 ==>
          Ppn(At(m, p, v)) !in m.free && Ppn(At(m, p, v)) in m.use && !m.use[Ppn(At(m, p, v))].Table?)
    && (forall p, v: nat, q, w: nat {:trigger MapSame(m, p, v, q, w)} ::
          MapSame(m, p, v, q, w) && (p, v) != (q, w) ==> Ppn(At(m, p, v)) in m.shared)
    && (forall f {:trigger m.use[f].Table?} :: f in m.use && m.use[f].Table? ==> f !in m.free)
  }

  lemma Disjoint(m: M, start: int, end: int)
    requires PagesOk(m) && MapsOk(m) && Ranged(m, start, end)
    ensures PagesApart(m)
  {
    hide At, TablesOk;
    forall i, j | 0 <= i < j < |m.free| ensures m.free[i] != m.free[j] {
      assert m.use[m.free[i]] == FreeAt(i) && m.use[m.free[j]] == FreeAt(j);
    }
    forall p, v: nat | p in m.roots && v < MAXVPN && At(m, p, v) != 0
      ensures Ppn(At(m, p, v)) !in m.free && Ppn(At(m, p, v)) in m.use && !m.use[Ppn(At(m, p, v))].Table?
    {
      assert Owned(m, p, v, At(m, p, v));
      NotFree(m, Ppn(At(m, p, v)));
    }
    forall p, v: nat, q, w: nat | MapSame(m, p, v, q, w) && (p, v) != (q, w)
      ensures Ppn(At(m, p, v)) in m.shared
    {
      assert Owned(m, p, v, At(m, p, v)) && Owned(m, q, w, At(m, q, w));
      assert m.use[Ppn(At(m, p, v))] == Shared;
    }
    forall f | f in m.use && m.use[f].Table? ensures f !in m.free {
      NotFree(m, f);
    }
  }

  lemma NotFree(m: M, f: Frame)
    requires PagesOk(m) && f in m.use && !m.use[f].FreeAt?
    ensures f !in m.free
  {
    hide TablesOk;
    forall i | 0 <= i < |m.free| ensures m.free[i] != f {
      assert m.use[m.free[i]] == FreeAt(i);
    }
  }

  // ---------------------------------------------------------------------
  // Steps
  // ---------------------------------------------------------------------

  const NO_PAGE: Frame := 0

  ghost predicate Ok(mmu: Mmu)
    reads mmu
  {
    mmu.Valid() && MapsOk(mmu.S()) && Ranged(mmu.S(), mmu.start, mmu.end)
  }

  lemma KeptSelf(m: M)
    requires PagesOk(m)
    ensures Kept(m, m, NO_PAGE)
  {
    hide FreeOk, TablesOk;
  }

  lemma KeptTrans(m: M, m1: M, m2: M, x: Frame)
    requires Kept(m, m1, x) && Kept(m1, m2, x)
    ensures Kept(m, m2, x)
  {
    forall f | f in m.use && InHands(m.use[f]) && f != x
      ensures f in m2.use && m2.use[f] == m.use[f] && f in m.mem && f in m2.mem && m2.mem[f] == m.mem[f]
    {
      assert m.use[f] == m1.use[f];
    }
  }

  lemma KeptWeaker(m: M, m': M, x: Frame)
    requires Kept(m, m', NO_PAGE) && 0 !in m.use
    ensures Kept(m, m', x)
  {
  }

  // No mapping changed, and the mapped pages kept their use.
  lemma MapsStay(m: M, m': M)
    requires MapsOk(m) && SameMaps(m, m') && Kept(m, m', NO_PAGE) && 0 !in m.use
    ensures MapsOk(m')
  {
    forall p, v: nat | p in m'.roots && v < MAXVPN && At(m', p, v) != 0 ensures Owned(m', p, v, At(m', p, v)) {
      assert At(m', p, v) == At(m, p, v);
      assert Owned(m, p, v, At(m, p, v));
    }
  }

  lemma NoZero(m: M)
    requires PagesOk(m)
    ensures 0 !in m.use
  {
    hide FreeOk, TablesOk;
    assert forall f {:trigger f in m.use} :: f in m.use ==> m.use[f] == m.use[f] && f > 0;
  }

  lemma PoppedKept(m: M)
    requires PagesOk(m) && m.free != []
    ensures Kept(m, Popped(m), NO_PAGE)
  {
    hide FreeOk, TablesOk;
    PoppedHead(m);
  }

  lemma PoppedRanged(m: M, start: int, end: int)
    requires PagesOk(m) && m.free != [] && Ranged(m, start, end)
    ensures Ranged(Popped(m), start, end)
  {
    hide FreeOk, TablesOk;
    PoppedHead(m);
    var g := m.free[|m.free| - 1];
    assert m.use[g] != Shared;
  }

  /** alloc_page for the kernel's own use; page 0 stands for none. */
  method TakePage(mmu: Mmu) returns (f: Frame)
    requires Ok(mmu)
    modifies mmu
    ensures Ok(mmu) && SameMaps(old(mmu.S()), mmu.S()) && Kept(old(mmu.S()), mmu.S(), NO_PAGE)
    ensures (f == 0 <==> old(mmu.free) == []) && (f == 0 ==> mmu.free == [])
    ensures f != 0 ==>
      f in mmu.use && mmu.use[f] == Kernel && f in old(mmu.use) && old(mmu.use)[f].FreeAt? && f in mmu.mem
    ensures f != 0 ==> f == old(mmu.free)[|old(mmu.free)| - 1] && mmu.free == old(mmu.free)[..|old(mmu.free)| - 1]
    ensures mmu.mem == old(mmu.mem) && SameShapes(old(mmu.S()), mmu.S())
  {
    hide PagesOk, MapsOk, Ranged, Kept, SameMaps, SameShapes;
    ghost var m := mmu.S();
    NoZero(m);
    KeptSelf(m);
    HeadNull(m);
    if mmu.head != 0 {
      PoppedHeadOf(m);
      PoppedKept(m);
      PoppedRanged(m, mmu.start, mmu.end);
    }
    var pa := mmu.AllocPage();
    MapsStay(m, mmu.S());
    SameMemShapes(m, mmu.S());
    f := pa / PGSIZE;
  }

  lemma PoppedHeadOf(m: M)
    requires PagesOk(m) && m.free != []
    ensures var f := m.free[|m.free| - 1];
            f in m.use && m.use[f].FreeAt? && f in m.mem && f > 0 && m.head / PGSIZE == f
  {
    hide TablesOk;
    PoppedHead(m);
  }

  // Every address space has the tables it had.
  ghost predicate SameShapes(m: M, m': M) {
    m'.roots == m.roots && forall p {:trigger ShapeOf(m', p)} :: p in m.roots ==> ShapeOf(m', p) == ShapeOf(m, p)
  }

  lemma SameMemShapes(m: M, m': M)
    requires m'.mem == m.mem && SameMaps(m, m')
    ensures SameShapes(m, m')
  {
  }

  lemma ShapeSame(m: M, m': M, p: nat)
    requires SameShapes(m, m') && p in m.roots
    ensures p in m'.roots && ShapeOf(m', p) == ShapeOf(m, p)
  {
  }

  // A page can be mapped there: it is not yet, and there are pages for the tables.
  ghost predicate CanMap(m: M, p: nat, vpn: nat)
    requires p in m.roots
  {
    vpn < MAXVPN && At(m, p, vpn) == 0 && Missing(ShapeOf(m, p), vpn) <= |m.free|
  }

  // No mapping of a user address changed.
  ghost predicate SameUser(m: M, m': M) {
    && m'.roots == m.roots
    && forall p, v: nat {:trigger At(m', p, v)} :: p in m.roots && v < MAXVPN ==> At(m', p, v) == At(m, p, v)
  }

  lemma RangeOne(m: M, m1: M, p: nat, vpn: nat, n: nat, pa: Word, perm: Word)
    requires perm < 1024 && RangeMapped(m, m1, p, vpn, n, pa, perm) && p in m.roots && n <= 1
    ensures n == 0 ==> SameUser(m, m1)
    ensures n == 1 ==> vpn < MAXVPN && At(m, p, vpn) == 0 && OneChanged(m, m1, p, vpn, MkPte(pa, perm))
  {
    hide At, MkPte;
    if n == 0 {
      forall q, v: nat | q in m.roots && v < MAXVPN ensures At(m1, q, v) == At(m, q, v) {}
    } else {
      forall q, v: nat | q in m.roots && v < MAXVPN
        ensures At(m1, q, v) == if q == p && v == vpn then MkPte(pa, perm) else At(m, q, v)
      {}
      assert At(m1, p, vpn) == MkPte(pa, perm);
    }
  }

  lemma OnePage(va: Word)
    requires va % PGSIZE == 0
    ensures Pages(va, PGSIZE) == 1
  {
    var last := va + PGSIZE - 1;
    assert last % 0x1_0000_0000_0000_0000 == last;
    assert last / PGSIZE == va / PGSIZE;
  }

  lemma TookKept(m: M, m': M)
    requires TookTables(m, m')
    ensures Kept(m, m', NO_PAGE)
  {
  }

  lemma TookRanged(m: M, m': M, start: int, end: int)
    requires TookTables(m, m') && Ranged(m, start, end)
    ensures Ranged(m', start, end)
  {
    forall f | f in m'.use ensures if m'.use[f] == Shared then f in m'.shared else start <= f * PGSIZE < end {
      assert m.use[f] == m.use[f];
    }
  }

  lemma UserMapsStay(m: M, m': M)
    requires MapsOk(m) && SameUser(m, m') && Kept(m, m', NO_PAGE) && 0 !in m.use
    ensures MapsOk(m')
  {
    forall p, v: nat | p in m'.roots && v < MAXVPN && At(m', p, v) != 0 ensures Owned(m', p, v, At(m', p, v)) {
      assert At(m', p, v) == At(m, p, v);
      assert Owned(m, p, v, At(m, p, v));
    }
  }

  // One page f is newly mapped, as private or as an already shared page.
  lemma MapsWithOne(m: M, m': M, p: nat, vpn: nat, f: Frame, e: Word)
    requires MapsOk(m) && OneChanged(m, m', p, vpn, e) && Kept(m, m', f) && p in m.roots && vpn < MAXVPN
    requires f in m.use && (m.use[f] == Kernel || m.use[f] == Shared) && Ppn(e) == f
    requires f in m'.use && (m'.use[f] == Private(p, vpn) || (m'.use[f] == Shared && !W(e)))
    requires m.use[f] == Shared ==> m'.use[f] == Shared
    ensures MapsOk(m')
  {
    forall q, v: nat | q in m'.roots && v < MAXVPN && At(m', q, v) != 0 ensures Owned(m', q, v, At(m', q, v)) {
      if !(q == p && v == vpn) {
        assert At(m', q, v) == At(m, q, v);
        assert Owned(m, q, v, At(m, q, v));
      }
    }
  }

  // The use that a page gets when it is mapped.
  function UseMapped(u: Use, p: nat, vpn: nat): Use { if u == Shared then Shared else Private(p, vpn) }

  /** user_vm_map of one page: a page the kernel holds becomes private, a shared one stays
      shared. */
  method MapUser(mmu: Mmu, ghost p: nat, pageDir: Frame, va: Word, f: Frame, perm: Word) returns (r: Mapping)
    requires Ok(mmu) && p in mmu.roots && mmu.roots[p] == pageDir && va % PGSIZE == 0 && perm < 1024
    requires f in mmu.use && (mmu.use[f] == Kernel || (mmu.use[f] == Shared && !W(perm)))
    requires f * PGSIZE + MAXVA + PGSIZE <= PPN_LIMIT * PGSIZE
    modifies mmu
    ensures Ok(mmu) && Kept(old(mmu.S()), mmu.S(), f) && mmu.roots == old(mmu.roots)
    ensures r.Mapped? ==>
      && va < MAXVA && At(old(mmu.S()), p, va / PGSIZE) == 0
      && OneChanged(old(mmu.S()), mmu.S(), p, va / PGSIZE, MkPte(f * PGSIZE, perm))
      && f in mmu.use && mmu.use[f] == UseMapped(old(mmu.use)[f], p, va / PGSIZE)
      && f in mmu.mem && f in old(mmu.mem) && mmu.mem[f] == old(mmu.mem)[f]
    ensures !r.Mapped? ==> SameUser(old(mmu.S()), mmu.S()) && Kept(old(mmu.S()), mmu.S(), NO_PAGE)
    ensures r.Mapped? <==> CanMap(old(mmu.S()), p, va / PGSIZE)
    ensures r.BadAddress? <==> va >= MAXVA
    ensures r.NoMemory? <==> va < MAXVA && |old(mmu.free)| < Missing(ShapeOf(old(mmu.S()), p), va / PGSIZE)
    ensures r.Mapped? ==> Walked(old(mmu.S()), mmu.S(), p, va / PGSIZE, 0)
  {
    hide PagesOk, MapsOk, Ranged, Kept, SameUser, RangeMapped, TookTables, OneChanged, MkPte, At, ShapeOf, Missing,
      TablesFor, Built, PageRange, W;
    ghost var m := mmu.S();
    NoZero(m);
    OnePage(va);
    ghost var n;
    r, n := mmu.MapPages(p, pageDir, va, PGSIZE, f * PGSIZE, perm);
    ghost var m1 := mmu.S();
    RangeOne(m, m1, p, va / PGSIZE, n, f * PGSIZE, perm);
    TablesOne(m, m1, p, va / PGSIZE, n);
    TookRoots(m, m1);
    TookKept(m, m1);
    KeptWeaker(m, m1, f);
    TookRanged(m, m1, mmu.start, mmu.end);
    KeptAt(m, m1, f);
    if r != Mapped {
      UserMapsStay(m, m1);
      return;
    }
    ghost var u := UseMapped(m.use[f], p, va / PGSIZE);
    NewlyMapped(m, m1, p, va / PGSIZE, f, MkPte(f * PGSIZE, perm), u, mmu.start, mmu.end);
    MkPteFields(f * PGSIZE, perm);
    MkPteWrites(f * PGSIZE, perm);
    WalkedRewritten(m, m1, p, va / PGSIZE, f, u);
    mmu.use := mmu.use[f := u];
    assert m1.mem[f := m1.mem[f]] == m1.mem;
    assert mmu.S() == Rewritten(m1, f, m1.mem[f], u);
    MapsWithOne(m, mmu.S(), p, va / PGSIZE, f, MkPte(f * PGSIZE, perm));
  }

  // The case of one page.
  lemma TablesOne(m: M, m1: M, p: nat, vpn: nat, n: nat)
    requires p in m.roots && n <= 1
    ensures n == 0 ==> TablesFor(ShapeOf(m, p), PageRange(vpn, n + 1)) == Missing(ShapeOf(m, p), vpn)
    ensures n == 1 && Built(m, m1, p, PageRange(vpn, n)) ==>
      Walked(m, m1, p, vpn, 0) && Missing(ShapeOf(m, p), vpn) <= |m.free|
    ensures At(m, p, vpn) != 0 ==> Missing(ShapeOf(m, p), vpn) == 0
  {
    hide ShapeOf, Missing, At, Extend, PageRange;
    MappedHasTables(m, p, vpn);
    assert PageRange(vpn, 1) == [] + [vpn];
    TablesForNext(ShapeOf(m, p), [], vpn);
  }

  lemma MkPteWrites(pa: Word, perm: Word)
    requires perm < 1024
    ensures W(MkPte(pa, perm)) <==> W(perm)
  {
    hide MkPte, V, R, W, X, U, A, D;
    MkPteFields(pa, perm);
    if V(perm) {
      SameFlags(MkPte(pa, perm), perm);
    } else {
      NotLast(perm);
      SetV(perm);
      SameFlags(MkPte(pa, perm), perm + 1);
    }
  }

  lemma NotLast(perm: Word)
    requires perm < 1024 && !V(perm)
    ensures perm < 1023
  {
  }

  // The bookkeeping of a page's use does not touch the tables.
  lemma WalkedRewritten(m: M, m1: M, p: nat, vpn: nat, f: Frame, u: Use)
    requires f in m1.mem && p in m.roots && p in m1.roots
    ensures Walked(m, m1, p, vpn, 0) ==> Walked(m, Rewritten(m1, f, m1.mem[f], u), p, vpn, 0)
  {
    hide Extend, Missing;
    assert m1.mem[f := m1.mem[f]] == m1.mem;
  }

  lemma KeptAt(m: M, m': M, f: Frame)
    requires Kept(m, m', NO_PAGE) && f in m.use && InHands(m.use[f]) && 0 !in m.use
    ensures f in m'.use && m'.use[f] == m.use[f] && f in m.mem && f in m'.mem && m'.mem[f] == m.mem[f]
  {
  }

  lemma NewlyMapped(m: M, m1: M, p: nat, vpn: nat, f: Frame, e: Word, u: Use, start: int, end: int)
    requires PagesOk(m1) && f in m1.use && (m1.use[f] == Kernel || m1.use[f] == Shared) && f in m1.mem
    requires u == UseMapped(m1.use[f], p, vpn) && Kept(m, m1, f) && Ranged(m1, start, end)
    requires OneChanged(m, m1, p, vpn, e)
    ensures var m2 := Rewritten(m1, f, m1.mem[f], u);
            PagesOk(m2) && Kept(m, m2, f) && Ranged(m2, start, end) && OneChanged(m, m2, p, vpn, e)
  {
    hide FreeOk, TablesOk, At;
    RewrittenOk(m1, f, m1.mem[f], u);
    assert m1.use[f] == m1.use[f];
  }

  lemma UnmappedStay(m: M, m': M, p: nat, vpn: nat, f: Frame, start: int, end: int)
    requires MapsOk(m) && Ranged(m, start, end) && Unmapped(m, m', p, vpn, f, true) && p in m.roots && vpn < MAXVPN
    requires f in m.use && m.use[f] == Private(p, vpn)
    ensures MapsOk(m') && Ranged(m', start, end) && Kept(m, m', f)
  {
    forall q, v: nat | q in m'.roots && v < MAXVPN && At(m', q, v) != 0 ensures Owned(m', q, v, At(m', q, v)) {
      assert At(m', q, v) == At(m, q, v);
      assert Owned(m, q, v, At(m, q, v));
    }
    forall g | g in m'.use ensures if m'.use[g] == Shared then g in m'.shared else start <= g * PGSIZE < end {
      assert m.use[g] == m.use[g];
    }
  }

  /** user_vm_unmap with free: a private page goes back to the free list. */
  method UnmapUser(mmu: Mmu, ghost p: nat, pageDir: Frame, va: Word)
    requires Ok(mmu) && p in mmu.roots && mmu.roots[p] == pageDir && va < MAXVA
    requires var e := At(mmu.S(), p, va / PGSIZE);
             e != 0 && Ppn(e) in mmu.use && mmu.use[Ppn(e)] == Private(p, va / PGSIZE)
    modifies mmu
    ensures Ok(mmu) && mmu.roots == old(mmu.roots)
    ensures OneChanged(old(mmu.S()), mmu.S(), p, va / PGSIZE, 0)
    ensures Kept(old(mmu.S()), mmu.S(), Ppn(At(old(mmu.S()), p, va / PGSIZE)))
    ensures mmu.free == old(mmu.free) + [Ppn(At(old(mmu.S()), p, va / PGSIZE))]
  {
    hide PagesOk, MapsOk, Ranged, Kept, OneChanged, At;
    ghost var m := mmu.S();
    ghost var f := Ppn(At(m, p, va / PGSIZE));
    PrivateRange(m, f, mmu.start, mmu.end);
    PageOf(At(m, p, va / PGSIZE));
    var ok := mmu.UserVmUnmap(p, pageDir, va, true);
    UnmappedStay(m, mmu.S(), p, va / PGSIZE, f, mmu.start, mmu.end);
    OneRoots(m, mmu.S(), p, va / PGSIZE, 0);
  }

  lemma OneRoots(m: M, m': M, p: nat, vpn: nat, e: Word)
    requires OneChanged(m, m', p, vpn, e)
    ensures m'.roots == m.roots
  {
  }

  lemma PrivateRange(m: M, f: Frame, start: int, end: int)
    requires Ranged(m, start, end) && f in m.use && m.use[f] != Shared
    ensures start <= f * PGSIZE < end
  {
  }

  lemma PageOf(e: Word)
    ensures Pte2Pa(e) == Ppn(e) * PGSIZE && Pte2Pa(e) % PGSIZE == 0
  {
  }

  /** memcpy of a whole page into a page that the kernel holds. */
  method CopyPage(mmu: Mmu, to: Frame, from: Frame)
    requires Ok(mmu) && to in mmu.use && InHands(mmu.use[to]) && from in mmu.mem
    modifies mmu
    ensures Ok(mmu) && SameMaps(old(mmu.S()), mmu.S()) && Kept(old(mmu.S()), mmu.S(), to)
    ensures mmu.use == old(mmu.use) && to in mmu.mem && from in old(mmu.mem) && mmu.mem[to] == old(mmu.mem)[from]
    ensures mmu.free == old(mmu.free) && SameShapes(old(mmu.S()), mmu.S())
  {
    FillPage(mmu, to, mmu.mem[from]);
  }

  // The kernel writes to a page in somebody's hands.
  method FillPage(mmu: Mmu, to: Frame, page: Page)
    requires Ok(mmu) && to in mmu.use && InHands(mmu.use[to])
    modifies mmu
    ensures Ok(mmu) && SameMaps(old(mmu.S()), mmu.S()) && Kept(old(mmu.S()), mmu.S(), to)
    ensures mmu.use == old(mmu.use) && to in mmu.mem && mmu.mem[to] == page
    ensures mmu.S() == Rewritten(old(mmu.S()), to, page, old(mmu.use)[to])
    ensures mmu.free == old(mmu.free) && SameShapes(old(mmu.S()), mmu.S())
  {
    hide PagesOk, SameMaps, SameShapes;
    ghost var m := mmu.S();
    FillKept(m, to, page);
    mmu.mem := mmu.mem[to := page];
    assert m.use[to := m.use[to]] == m.use;
    assert mmu.S() == Rewritten(m, to, page, m.use[to]);
  }

  // New contents of a page that is neither free nor a table disturb nothing.
  lemma FillKept(m: M, f: Frame, page: Page)
    requires PagesOk(m) && MapsOk(m) && f in m.use && InHands(m.use[f])
    ensures var m' := Rewritten(m, f, page, m.use[f]);
            PagesOk(m') && SameMaps(m, m') && Kept(m, m', f) && MapsOk(m') && SameShapes(m, m')
  {
    hide FreeOk, TablesOk, At, ShapeOf, W;
    RewrittenOk(m, f, page, m.use[f]);
    var m' := Rewritten(m, f, page, m.use[f]);
    FilledShapes(m, f, page);
    assert m'.use == m.use;
    InMemory(m);
    forall p, v: nat | p in m'.roots && v < MAXVPN && At(m', p, v) != 0 ensures Owned(m', p, v, At(m', p, v)) {
      assert At(m', p, v) == At(m, p, v);
      assert Owned(m, p, v, At(m, p, v));
    }
  }

  lemma FilledShapes(m: M, f: Frame, page: Page)
    requires PagesOk(m) && f in m.use && !m.use[f].Table?
    ensures SameShapes(m, Rewritten(m, f, page, m.use[f]))
  {
    hide FreeOk, TablesOk, ShapeOf;
    var m' := Rewritten(m, f, page, m.use[f]);
    assert TablesOk(m);
    InMemory(m);
    forall p | p in m.roots ensures ShapeOf(m', p) == ShapeOf(m, p) { ShapeStays(m, m', p); }
  }

  lemma InMemory(m: M)
    requires PagesOk(m)
    ensures forall f {:trigger m.use[f]} {:trigger f in m.mem} :: f in m.use ==> f in m.mem
  {
    hide FreeOk, TablesOk;
    assert forall f {:trigger m.use[f]} {:trigger f in m.mem} :: f in m.use ==> m.use[f] == m.use[f];
  }

  /** A cleared page becomes the page directory of a new address space. */
  method NewSpace(mmu: Mmu, p: nat, g: Frame)
    requires Ok(mmu) && p !in mmu.roots && g in mmu.use && mmu.use[g] == Kernel
    modifies mmu
    ensures Ok(mmu) && mmu.roots == old(mmu.roots)[p := g] && Kept(old(mmu.S()), mmu.S(), g)
    ensures forall v {:trigger At(mmu.S(), p, v)} :: At(mmu.S(), p, v) == 0
    ensures forall q, v {:trigger At(mmu.S(), q, v)} ::
      q in old(mmu.roots) ==> At(mmu.S(), q, v) == At(old(mmu.S()), q, v)
    ensures mmu.free == old(mmu.free) && ShapeOf(mmu.S(), p) == NO_TABLES
  {
    hide PagesOk, At, ShapeOf;
    ghost var m := mmu.S();
    RootedOk(m, p, g);
    RootedShape(m, p, g);
    RootedMaps(m, p, g);
    mmu.mem := mmu.mem[g := Zeros()];
    mmu.use := mmu.use[g := Table(p, Root)];
    mmu.roots := mmu.roots[p := g];
    assert mmu.S() == Rooted(m, p, g);
  }

  lemma RootedMaps(m: M, p: nat, g: Frame)
    requires PagesOk(m) && MapsOk(m) && p !in m.roots && g in m.use && m.use[g] == Kernel
    ensures MapsOk(Rooted(m, p, g)) && Kept(m, Rooted(m, p, g), g)
  {
    hide FreeOk, TablesOk, At;
    RootedOk(m, p, g);
    InMemory(m);
    var m' := Rooted(m, p, g);
    forall q, v: nat | q in m'.roots && v < MAXVPN && At(m', q, v) != 0 ensures Owned(m', q, v, At(m', q, v)) {
      assert q in m.roots;
      assert At(m', q, v) == At(m, q, v);
      assert Owned(m, q, v, At(m, q, v));
    }
  }
}
