/**
 Physical pages and the three-level page tables that live in them.

 The memory is raw: a page is 512 words, the list of free pages is threaded through
 the first word of each, and a page table is a page.  A ghost map gives every page
 its one use; the invariants tie it to the words in memory.
 */
module PageTables {
  import opened Base
  import opened Sv39

  // ---------------------------------------------------------------------
  // Walking the tables
  // ---------------------------------------------------------------------

  // A virtual page number is three table indices.
  function Hi(vpn: nat): (k: nat) ensures k < 512 { vpn / 0x40000 % 512 }
  function Mi(vpn: nat): (k: nat) ensures k < 512 { vpn / 512 % 512 }
  function Lo(vpn: nat): (k: nat) ensures k < 512 { vpn % 512 }

  lemma PxIsIndex(va: Word)
    requires va < MAXVA
    ensures va / PGSIZE < MAXVPN
    ensures PX(2, va) == Hi(va / PGSIZE) && PX(1, va) == Mi(va / PGSIZE) && PX(0, va) == Lo(va / PGSIZE)
  {
    assert va / 0x20_0000 == va / 4096 / 512 && va / 0x4000_0000 == va / 4096 / 0x40000;
  }

  lemma FromIndices(v: nat)
    requires v < MAXVPN
    ensures v == Hi(v) * 0x40000 + Mi(v) * 512 + Lo(v)
  {
    var w := v / 512;
    assert v == w * 512 + v % 512;
    assert w == w / 512 * 512 + w % 512;
    assert v / 0x40000 == w / 512 && w / 512 < 512;
  }

  lemma IndicesName(v: nat, w: nat)
    requires v < MAXVPN && w < MAXVPN && Hi(v) == Hi(w) && Mi(v) == Mi(w) && Lo(v) == Lo(w)
    ensures v == w
  {
    hide Hi, Mi, Lo;
    FromIndices(v);
    FromIndices(w);
  }

  function Next(mem: map<Frame, Page>, f: Frame, k: nat): Option<Frame>
    requires k < 512
  {
    if f in mem && V(mem[f][k]) then Some(Ppn(mem[f][k])) else None
  }

  // The lowest-level table that has the entry of a page.
  function LeafTable(mem: map<Frame, Page>, root: Frame, vpn: nat): Option<Frame> {
    match Next(mem, root, Hi(vpn))
    case None => None
    case Some(f) => Next(mem, f, Mi(vpn))
  }

  // The entry that maps a page, or 0.
  function Entry(mem: map<Frame, Page>, root: Frame, vpn: nat): (e: Word)
    ensures e != 0 <==> V(e)
  {
    match LeafTable(mem, root, vpn)
    case None => 0
    case Some(f) => if f in mem && V(mem[f][Lo(vpn)]) then mem[f][Lo(vpn)] else 0
  }

  // ---------------------------------------------------------------------
  // Uses of pages
  // ---------------------------------------------------------------------

  // The place of a table: the root, the table under root entry a, or the table under
  // entry b of that one.
  datatype Place = Root | Mid(a: nat) | Leaf(a: nat, b: nat)

  // Uses: in the free list (place i from its end), a table of address space p, mapped
  // at page vpn of address space p only, mapped in several, or held by the kernel.
  datatype Use = FreeAt(i: nat) | Table(p: nat, place: Place) | Private(p: nat, vpn: nat) | Shared | Kernel

  datatype M = M(
    mem: map<Frame, Page>,
    head: int,                   // g_free_mem_list.next
    free: seq<Frame>,            // the free list, its head last
    use: map<Frame, Use>,
    roots: map<nat, Frame>,      // the root tables of the address spaces
    shared: set<Frame>)          // the pages that may be mapped in several address spaces

  // The address of the page below place i of the list, or 0.
  function Under(free: seq<Frame>, i: nat): int
    requires i <= |free|
  {
    if i == 0 then 0 else free[i - 1] * PGSIZE
  }

  ghost predicate Listed(m: M) {
    forall i {:trigger m.free[i]} :: 0 <= i < |m.free| ==>
      m.free[i] in m.use && m.use[m.free[i]] == FreeAt(i) && m.free[i] in m.mem && 0 < m.free[i] < PPN_LIMIT
  }

  // Each page in the list holds the address of the next.
  ghost predicate Threaded(m: M)
    requires Listed(m)
  {
    && m.head == Under(m.free, |m.free|)
    && forall i {:trigger m.mem[m.free[i]]} :: 0 <= i < |m.free| ==> m.mem[m.free[i]][0] == Under(m.free, i)
  }

  ghost predicate FreeOk(m: M) {
    && Listed(m) && Threaded(m)
    && forall f {:trigger m.use[f].FreeAt?} :: f in m.use && m.use[f].FreeAt? ==>
         m.use[f].i < |m.free| && m.free[m.use[f].i] == f
  }

  // Valid, and none of the permission bits.
  predicate IsPointer(e: Word) { Flags(e) == 1 }

  // An entry that leads to the table at `place`.
  predicate LeadsTo(m: M, e: Word, p: nat, place: Place) {
    IsPointer(e) && Ppn(e) in m.use && m.use[Ppn(e)] == Table(p, place) && Ppn(e) < PPN_LIMIT
  }

  predicate TableOk(m: M, f: Frame)
    requires f in m.use && m.use[f].Table? && f in m.mem
  {
    var u := m.use[f];
    match u.place
    case Root => u.p in m.roots && m.roots[u.p] == f &&
      forall k {:trigger m.mem[f][k]} :: 0 <= k < 512 && V(m.mem[f][k]) ==> LeadsTo(m, m.mem[f][k], u.p, Mid(k))
    case Mid(a) =>
      forall k {:trigger m.mem[f][k]} :: 0 <= k < 512 && V(m.mem[f][k]) ==> LeadsTo(m, m.mem[f][k], u.p, Leaf(a, k))
    case Leaf(_, _) =>
      forall k {:trigger m.mem[f][k]} :: 0 <= k < 512 && V(m.mem[f][k]) ==> Ppn(m.mem[f][k]) < PPN_LIMIT
  }

  ghost predicate TablesOk(m: M) {
    && (forall p {:trigger m.roots[p]} :: p in m.roots ==>
          m.roots[p] in m.use && m.use[m.roots[p]] == Table(p, Root))
    && (forall f {:trigger m.use[f]} :: f in m.use && m.use[f].Table? ==> f in m.mem && TableOk(m, f))
  }

  ghost predicate PagesOk(m: M) {
    && (forall f {:trigger m.use[f]} :: f in m.use ==> f in m.mem && 0 < f < PPN_LIMIT)
    && FreeOk(m) && TablesOk(m)
  }

  // The entry of a page in an address space.
  function At(m: M, p: nat, vpn: nat): (e: Word)
    requires p in m.roots
    ensures e != 0 <==> V(e)
  {
    Entry(m.mem, m.roots[p], vpn)
  }

  // No address space maps anything differently.
  ghost predicate SameMaps(m: M, m': M) {
    && m'.roots == m.roots
    && forall p, vpn {:trigger At(m', p, vpn)} :: p in m.roots ==> At(m', p, vpn) == At(m, p, vpn)
  }

  // Where a walk passes.
  lemma WalkPlaces(m: M, p: nat, vpn: nat)
    requires TablesOk(m) && p in m.roots
    ensures m.roots[p] in m.mem && m.roots[p] in m.use && m.use[m.roots[p]] == Table(p, Root)
    ensures match Next(m.mem, m.roots[p], Hi(vpn))
            case None => true
            case Some(f) => f in m.mem && f in m.use && m.use[f] == Table(p, Mid(Hi(vpn)))
    ensures match LeafTable(m.mem, m.roots[p], vpn)
            case None => true
            case Some(f) => f in m.mem && f in m.use && m.use[f] == Table(p, Leaf(Hi(vpn), Mi(vpn)))
  {
    var f := m.roots[p];
    assert m.use[f] == Table(p, Root);
    if V(m.mem[f][Hi(vpn)]) {
      var g := Ppn(m.mem[f][Hi(vpn)]);
      assert m.use[g] == Table(p, Mid(Hi(vpn)));
      if V(m.mem[g][Mi(vpn)]) {
        var h := Ppn(m.mem[g][Mi(vpn)]);
        assert m.use[h] == Table(p, Leaf(Hi(vpn), Mi(vpn)));
      }
    }
  }

  // ---------------------------------------------------------------------
  // Steps that change no translation
  // ---------------------------------------------------------------------

  // The tables hold the same words.
  lemma TablesSame(m: M, m': M)
    requires TablesOk(m) && m'.roots == m.roots
    requires forall f {:trigger m.use[f]} :: f in m.use && m.use[f].Table? ==> f in m'.mem && m'.mem[f] == m.mem[f]
    ensures SameMaps(m, m')
  {
    forall p, vpn | p in m.roots ensures At(m', p, vpn) == At(m, p, vpn) {
      WalkPlaces(m, p, vpn);
    }
  }

  // ... and are the same tables.
  lemma TablesStay(m: M, m': M)
    requires TablesOk(m) && m'.roots == m.roots
    requires forall f {:trigger m.use[f]} :: f in m.use && m.use[f].Table? ==>
      f in m'.use && m'.use[f] == m.use[f] && f in m'.mem && m'.mem[f] == m.mem[f]
    requires forall f {:trigger m'.use[f]} :: f in m'.use && m'.use[f].Table? ==> f in m.use && m.use[f] == m'.use[f]
    ensures TablesOk(m')
  {
    forall f | f in m'.use && m'.use[f].Table? ensures f in m'.mem && TableOk(m', f) {
      assert m.use[f] == m'.use[f] && TableOk(m, f);
    }
  }

  // alloc_page takes the head of the list.
  function Popped(m: M): M
    requires m.free != []
  {
    var n := |m.free| - 1;
    m.(head := Under(m.free, n), free := m.free[..n], use := m.use[m.free[n] := Kernel])
  }

  lemma UnderPrefix(free: seq<Frame>, n: nat)
    requires n <= |free|
    ensures forall i: nat {:trigger Under(free[..n], i)} :: i <= n ==> Under(free[..n], i) == Under(free, i)
  {
  }

  lemma PoppedHead(m: M)
    requires FreeOk(m) && m.free != []
    ensures var f := m.free[|m.free| - 1];
            && f in m.mem && m.head == f * PGSIZE && m.mem[f][0] == Popped(m).head && 0 < f < PPN_LIMIT
            && f in m.use && m.use[f] == FreeAt(|m.free| - 1)
  {
    assert m.mem[m.free[|m.free| - 1]][0] == Under(m.free, |m.free| - 1);
  }

  lemma PoppedThreaded(m: M)
    requires Listed(m) && Threaded(m) && m.free != []
    ensures Listed(Popped(m)) && Threaded(Popped(m))
  {
    hide Under;
    var m', n := Popped(m), |m.free| - 1;
    UnderPrefix(m.free, n);
    forall i | 0 <= i < n
      ensures m'.free[i] in m'.use && m'.use[m'.free[i]] == FreeAt(i) && m'.mem[m'.free[i]][0] == Under(m'.free, i)
    {
      assert m.free[i] == m'.free[i] && m.use[m.free[n]] == FreeAt(n);
    }
  }

  lemma PoppedFree(m: M)
    requires FreeOk(m) && m.free != []
    ensures FreeOk(Popped(m))
  {
    hide Threaded;
    PoppedThreaded(m);
    assert m.use[m.free[|m.free| - 1]] == FreeAt(|m.free| - 1);
  }

  lemma PoppedOk(m: M)
    requires PagesOk(m) && m.free != []
    ensures PagesOk(Popped(m)) && SameMaps(m, Popped(m))
  {
    hide FreeOk, TableOk;
    PoppedFree(m);
    PoppedHead(m);
    TablesSame(m, Popped(m));
    TablesStay(m, Popped(m));
  }

  // free_page puts a page at the head of the list.
  function Pushed(m: M, f: Frame): M
    requires f in m.mem && 0 <= m.head < 0x1_0000_0000_0000_0000
  {
    m.(mem := m.mem[f := m.mem[f][0 := m.head]], head := f * PGSIZE,
       free := m.free + [f], use := m.use[f := FreeAt(|m.free|)])
  }

  lemma HeadIsWord(m: M)
    requires FreeOk(m)
    ensures 0 <= m.head < 0x1_0000_0000_0000_0000
  {
  }

  lemma PushedThreaded(m: M, f: Frame)
    requires Listed(m) && Threaded(m) && f in m.use && !m.use[f].FreeAt? && f in m.mem && 0 < f < PPN_LIMIT
    requires 0 <= m.head < 0x1_0000_0000_0000_0000
    ensures Listed(Pushed(m, f)) && Threaded(Pushed(m, f))
  {
    hide Under;
    var m', n := Pushed(m, f), |m.free|;
    UnderPushed(m.free, f);
    forall i | 0 <= i < n
      ensures m'.free[i] in m'.use && m'.use[m'.free[i]] == FreeAt(i) && m'.mem[m'.free[i]][0] == Under(m'.free, i)
    {
      assert m.free[i] == m'.free[i] && m.use[m.free[i]] == FreeAt(i) && m.free[i] != f;
    }
    assert m'.free[n] == f;
  }

  lemma PushedFree(m: M, f: Frame)
    requires FreeOk(m) && f in m.use && !m.use[f].FreeAt? && f in m.mem && 0 < f < PPN_LIMIT
    requires 0 <= m.head < 0x1_0000_0000_0000_0000
    ensures FreeOk(Pushed(m, f))
  {
    hide Threaded, Listed;
    PushedThreaded(m, f);
    assert Pushed(m, f).free[|m.free|] == f;
  }

  lemma UnderPushed(free: seq<Frame>, f: Frame)
    ensures Under(free + [f], |free| + 1) == f * PGSIZE
    ensures forall i: nat {:trigger Under(free + [f], i)} :: i <= |free| ==> Under(free + [f], i) == Under(free, i)
  {
  }

  lemma PushedOk(m: M, f: Frame)
    requires PagesOk(m) && f in m.use && !m.use[f].FreeAt? && !m.use[f].Table?
    ensures f in m.mem && 0 <= m.head < 0x1_0000_0000_0000_0000
    ensures PagesOk(Pushed(m, f)) && SameMaps(m, Pushed(m, f))
  {
    hide FreeOk, TableOk;
    HeadIsWord(m);
    assert m.use[f] == m.use[f];
    PushedFree(m, f);
    TablesSame(m, Pushed(m, f));
    TablesStay(m, Pushed(m, f));
  }

  // A page that is no table and not free gets new contents or another such use.
  function Rewritten(m: M, f: Frame, page: Page, use: Use): M { m.(mem := m.mem[f := page], use := m.use[f := use]) }

  lemma RewrittenOk(m: M, f: Frame, page: Page, use: Use)
    requires PagesOk(m) && f in m.use && !m.use[f].FreeAt? && !m.use[f].Table? && !use.FreeAt? && !use.Table?
    ensures PagesOk(Rewritten(m, f, page, use)) && SameMaps(m, Rewritten(m, f, page, use))
  {
    var m' := Rewritten(m, f, page, use);
    assert m.use[f] == m.use[f];
    forall i | 0 <= i < |m.free| ensures m.free[i] != f {
      assert m.use[m.free[i]] == FreeAt(i);
    }
    TablesSame(m, m');
    TablesStay(m, m');
  }

  // ---------------------------------------------------------------------
  // A new table
  // ---------------------------------------------------------------------

  function Zeros(): Page { seq(512, _ => 0) }

  // The place under entry k of a table.
  function Below(place: Place, k: nat): Place
    requires !place.Leaf?
  {
    if place.Root? then Mid(k) else Leaf(place.a, k)
  }

  // Entry k of table f leads to page g, cleared, as a new table.
  function Linked(m: M, f: Frame, k: nat, g: Frame): M
    requires f in m.mem && k < 512 && g < PPN_LIMIT
    requires f in m.use && m.use[f].Table? && !m.use[f].place.Leaf?
  {
    m.(mem := m.mem[g := Zeros()][f := m.mem[f][k := g * 1024 + 1]],
       use := m.use[g := Table(m.use[f].p, Below(m.use[f].place, k))])
  }

  ghost predicate CanLink(m: M, f: Frame, k: nat, g: Frame) {
    && PagesOk(m) && f in m.use && m.use[f].Table? && !m.use[f].place.Leaf? && f in m.mem
    && k < 512 && !V(m.mem[f][k])
    && g in m.use && m.use[g] == Kernel && g < PPN_LIMIT
  }

  lemma PointerEntry(g: Frame)
    requires g < PPN_LIMIT
    ensures V(g * 1024 + 1) && Ppn(g * 1024 + 1) == g && IsPointer(g * 1024 + 1)
  {
    hide V;
    OddPointer(g);
  }

  lemma OddPointer(g: Frame)
    requires g < PPN_LIMIT
    ensures V(g * 1024 + 1)
  {
    Odd(g * 512);
  }

  lemma Odd(h: nat)
    ensures (2 * h + 1) % 2 == 1
  {
  }

  lemma NothingInZeros()
    ensures forall k {:trigger Zeros()[k]} :: 0 <= k < 512 ==> Zeros()[k] == 0 && !V(Zeros()[k])
  {
  }

  lemma LinkedTables(m: M, f: Frame, k: nat, g: Frame)
    requires CanLink(m, f, k, g)
    ensures TablesOk(Linked(m, f, k, g))
  {
    hide FreeOk, V, Ppn, IsPointer, Zeros;
    PointerEntry(g);
    NothingInZeros();
    var m' := Linked(m, f, k, g);
    forall h | h in m'.use && m'.use[h].Table? ensures h in m'.mem && TableOk(m', h) {
      if h != g {
        assert m.use[h] == m'.use[h] && TableOk(m, h);
        forall j | 0 <= j < 512 && V(m'.mem[h][j]) ensures (h == f && j == k) || m'.mem[h][j] == m.mem[h][j] {}
      }
    }
  }

  lemma LinkedFree(m: M, f: Frame, k: nat, g: Frame)
    requires CanLink(m, f, k, g)
    ensures FreeOk(Linked(m, f, k, g))
  {
    hide TableOk, Under, Zeros;
    var m' := Linked(m, f, k, g);
    forall i | 0 <= i < |m.free| ensures m.free[i] != g && m.free[i] != f {
      assert m.use[m.free[i]] == FreeAt(i);
    }
  }

  lemma LinkedNext(m: M, f: Frame, k: nat, g: Frame, h: Frame, j: nat)
    requires CanLink(m, f, k, g) && h in m.use && m.use[h].Table? && h in m.mem && j < 512
    ensures var mem' := Linked(m, f, k, g).mem;
            && Next(mem', h, j) == (if h == f && j == k then Some(g) else Next(m.mem, h, j))
            && Next(mem', g, j) == None && g in mem' && !V(mem'[g][j])
            && h in mem' && (h != f ==> mem'[h] == m.mem[h])
  {
    hide PagesOk, V, Ppn, Zeros;
    PointerEntry(g);
    NothingInZeros();
  }

  lemma LinkedAt(m: M, f: Frame, k: nat, g: Frame, p: nat, vpn: nat)
    requires CanLink(m, f, k, g) && p in m.roots
    ensures At(Linked(m, f, k, g), p, vpn) == At(m, p, vpn)
  {
    hide FreeOk, TablesOk, Linked, V, Ppn, Hi, Mi, Lo;
    var m' := Linked(m, f, k, g);
    LinkedRoots(m, f, k, g);
    WalkPlaces(m, p, vpn);
    var r := m.roots[p];
    LinkedNext(m, f, k, g, r, Hi(vpn));
    LinkedNext(m, f, k, g, r, Mi(vpn));
    LinkedNext(m, f, k, g, r, Lo(vpn));
    match Next(m.mem, r, Hi(vpn)) {
      case None =>
      case Some(h) =>
        LinkedNext(m, f, k, g, h, Mi(vpn));
        match Next(m.mem, h, Mi(vpn)) {
          case None =>
          case Some(i) => LinkedNext(m, f, k, g, i, Lo(vpn));
        }
    }
  }

  lemma LinkedRoots(m: M, f: Frame, k: nat, g: Frame)
    requires CanLink(m, f, k, g)
    ensures Linked(m, f, k, g).roots == m.roots
  {
  }

  lemma LinkedOk(m: M, f: Frame, k: nat, g: Frame)
    requires CanLink(m, f, k, g)
    ensures PagesOk(Linked(m, f, k, g)) && SameMaps(m, Linked(m, f, k, g))
  {
    hide FreeOk, TablesOk, Lo;
    LinkedTables(m, f, k, g);
    LinkedFree(m, f, k, g);
    forall p, vpn | p in m.roots ensures At(Linked(m, f, k, g), p, vpn) == At(m, p, vpn) {
      LinkedAt(m, f, k, g, p, vpn);
    }
  }

  // A cleared page becomes the root of a new address space.
  function Rooted(m: M, p: nat, g: Frame): M {
    m.(mem := m.mem[g := Zeros()], use := m.use[g := Table(p, Root)], roots := m.roots[p := g])
  }

  lemma RootedTables(m: M, p: nat, g: Frame)
    requires PagesOk(m) && p !in m.roots && g in m.use && m.use[g] == Kernel
    ensures TablesOk(Rooted(m, p, g))
  {
    hide FreeOk, V, Ppn, IsPointer, Zeros;
    NothingInZeros();
    var m' := Rooted(m, p, g);
    forall h | h in m'.use && m'.use[h].Table? ensures h in m'.mem && TableOk(m', h) {
      if h != g { assert m.use[h] == m'.use[h] && TableOk(m, h); }
    }
  }

  lemma RootedFree(m: M, p: nat, g: Frame)
    requires PagesOk(m) && g in m.use && m.use[g] == Kernel
    ensures FreeOk(Rooted(m, p, g))
  {
    hide TablesOk, Under, Zeros;
    forall i | 0 <= i < |m.free| ensures m.free[i] != g {
      assert m.use[m.free[i]] == FreeAt(i);
    }
  }

  lemma RootedOk(m: M, p: nat, g: Frame)
    requires PagesOk(m) && p !in m.roots && g in m.use && m.use[g] == Kernel
    ensures PagesOk(Rooted(m, p, g))
    ensures forall vpn {:trigger At(Rooted(m, p, g), p, vpn)} :: At(Rooted(m, p, g), p, vpn) == 0
    ensures forall q, vpn {:trigger At(Rooted(m, p, g), q, vpn)} ::
      q in m.roots ==> At(Rooted(m, p, g), q, vpn) == At(m, q, vpn)
  {
    hide FreeOk, TablesOk, V, Ppn, Zeros, Hi, Mi, Lo;
    RootedTables(m, p, g);
    RootedFree(m, p, g);
    NothingInZeros();
    var m' := Rooted(m, p, g);
    forall q, vpn | q in m.roots ensures At(m', q, vpn) == At(m, q, vpn) {
      WalkPlaces(m, q, vpn);
    }
  }

  // ---------------------------------------------------------------------
  // One entry changes
  // ---------------------------------------------------------------------

  function WithEntry(m: M, f: Frame, k: nat, e: Word): M
    requires f in m.mem && k < 512
  {
    m.(mem := m.mem[f := m.mem[f][k := e]])
  }

  // The only translation that differs is that of page vpn in address space p.
  ghost predicate OneChanged(m: M, m': M, p: nat, vpn: nat, e: Word) {
    && m'.roots == m.roots
    && forall q, v: nat {:trigger At(m', q, v)} :: q in m.roots && v < MAXVPN ==>
         At(m', q, v) == if q == p && v == vpn then e else At(m, q, v)
  }

  ghost predicate IsEntry(m: M, p: nat, vpn: nat, f: Frame) {
    p in m.roots && vpn < MAXVPN && LeafTable(m.mem, m.roots[p], vpn) == Some(f)
  }

  lemma WithEntryTables(m: M, p: nat, vpn: nat, f: Frame, e: Word)
    requires PagesOk(m) && IsEntry(m, p, vpn, f) && (V(e) ==> Ppn(e) < PPN_LIMIT)
    ensures f in m.use && m.use[f] == Table(p, Leaf(Hi(vpn), Mi(vpn))) && f in m.mem
    ensures TablesOk(WithEntry(m, f, Lo(vpn), e))
  {
    hide FreeOk, V, Ppn, IsPointer, Hi, Mi, Lo;
    WalkPlaces(m, p, vpn);
    var m' := WithEntry(m, f, Lo(vpn), e);
    forall h | h in m'.use && m'.use[h].Table? ensures h in m'.mem && TableOk(m', h) {
      assert m.use[h] == m'.use[h] && TableOk(m, h);
    }
  }

  lemma WithEntryFree(m: M, f: Frame, k: nat, e: Word)
    requires PagesOk(m) && f in m.use && m.use[f].Table? && f in m.mem && k < 512
    ensures FreeOk(WithEntry(m, f, k, e))
  {
    hide TablesOk, Under;
    forall i | 0 <= i < |m.free| ensures m.free[i] != f {
      assert m.use[m.free[i]] == FreeAt(i);
    }
  }

  lemma WithEntryAt(m: M, p: nat, vpn: nat, f: Frame, e: Word, q: nat, v: nat)
    requires PagesOk(m) && IsEntry(m, p, vpn, f) && f in m.mem && q in m.roots && v < MAXVPN
    requires e != 0 <==> V(e)
    ensures At(WithEntry(m, f, Lo(vpn), e), q, v) == if q == p && v == vpn then e else At(m, q, v)
  {
    hide V, Ppn, Hi, Mi, Lo, FreeOk, TablesOk;
    WalkPlaces(m, p, vpn);
    WalkPlaces(m, q, v);
    var m' := WithEntry(m, f, Lo(vpn), e);
    if LeafTable(m.mem, m.roots[q], v) == Some(f) && Lo(v) == Lo(vpn) {
      IndicesName(v, vpn);
    }
  }

  lemma WithEntryOk(m: M, p: nat, vpn: nat, f: Frame, e: Word)
    requires PagesOk(m) && IsEntry(m, p, vpn, f) && (V(e) ==> Ppn(e) < PPN_LIMIT) && (e != 0 <==> V(e))
    ensures f in m.mem && PagesOk(WithEntry(m, f, Lo(vpn), e)) && OneChanged(m, WithEntry(m, f, Lo(vpn), e), p, vpn, e)
  {
    hide FreeOk, TablesOk, Lo;
    WithEntryTables(m, p, vpn, f, e);
    WithEntryFree(m, f, Lo(vpn), e);
    forall q, v: nat | q in m.roots && v < MAXVPN
      ensures At(WithEntry(m, f, Lo(vpn), e), q, v) == if q == p && v == vpn then e else At(m, q, v)
    {
      WithEntryAt(m, p, vpn, f, e, q, v);
    }
  }

  // ---------------------------------------------------------------------
  // Which tables an address space has
  // ---------------------------------------------------------------------

  // The root entries with a table under them, and the entries of those with one.
  datatype Shape = Shape(mids: set<nat>, leaves: set<(nat, nat)>)

  const NO_TABLES := Shape({}, {})

  ghost predicate HasMid(m: M, p: nat, a: nat)
    requires p in m.roots
  {
    a < 512 && Next(m.mem, m.roots[p], a).Some?
  }

  ghost predicate HasLeaf(m: M, p: nat, a: nat, b: nat)
    requires p in m.roots
  {
    HasMid(m, p, a) && b < 512 && Next(m.mem, Next(m.mem, m.roots[p], a).value, b).Some?
  }

  ghost function ShapeOf(m: M, p: nat): (s: Shape)
    requires p in m.roots
    ensures forall a: nat {:trigger a in s.mids} {:trigger HasMid(m, p, a)} :: a in s.mids <==> HasMid(m, p, a)
    ensures forall a: nat, b: nat {:trigger (a, b) in s.leaves} {:trigger HasLeaf(m, p, a, b)} ::
      (a, b) in s.leaves <==> HasLeaf(m, p, a, b)
  {
    Shape(set a: nat | a < 512 && HasMid(m, p, a),
          set a: nat, b: nat | a < 512 && b < 512 && HasLeaf(m, p, a, b) :: (a, b))
  }

  // How many tables the walk to a page has to add, and what there is then.
  function Missing(s: Shape, v: nat): nat {
    if Hi(v) !in s.mids then 2 else if (Hi(v), Mi(v)) !in s.leaves then 1 else 0
  }

  function Extend(s: Shape, v: nat): Shape { Shape(s.mids + {Hi(v)}, s.leaves + {(Hi(v), Mi(v))}) }

  // The same for a list of pages, walked to one after the other.
  function TablesFor(s: Shape, vs: seq<nat>): nat {
    if vs == [] then 0 else TablesFor(s, vs[..|vs| - 1]) + Missing(ExtendAll(s, vs[..|vs| - 1]), vs[|vs| - 1])
  }

  function ExtendAll(s: Shape, vs: seq<nat>): Shape {
    if vs == [] then s else Extend(ExtendAll(s, vs[..|vs| - 1]), vs[|vs| - 1])
  }

  lemma TablesForNext(s: Shape, vs: seq<nat>, v: nat)
    ensures TablesFor(s, vs + [v]) == TablesFor(s, vs) + Missing(ExtendAll(s, vs), v)
    ensures ExtendAll(s, vs + [v]) == Extend(ExtendAll(s, vs), v)
  {
    assert (vs + [v])[..|vs|] == vs;
  }

  // Longer lists need no fewer tables.
  lemma {:induction false} TablesForMore(s: Shape, vs: seq<nat>, ws: seq<nat>)
    ensures TablesFor(s, vs) <= TablesFor(s, vs + ws)
    decreases |ws|
  {
    if ws == [] {
      assert vs + ws == vs;
    } else {
      TablesForMore(s, vs, ws[..|ws| - 1]);
      TablesForNext(s, vs + ws[..|ws| - 1], ws[|ws| - 1]);
      assert vs + ws == vs + ws[..|ws| - 1] + [ws[|ws| - 1]];
    }
  }

  lemma SameShape(s: Shape, t: Shape)
    requires forall a: nat {:trigger a in s.mids} :: a in s.mids <==> a in t.mids
    requires forall a: nat, b: nat {:trigger (a, b) in s.leaves} :: (a, b) in s.leaves <==> (a, b) in t.leaves
    ensures s == t
  {
    assert s.mids == t.mids;
    forall x | x in s.leaves ensures x in t.leaves { assert (x.0, x.1) in s.leaves; }
    forall x | x in t.leaves ensures x in s.leaves { assert (x.0, x.1) in s.leaves <==> (x.0, x.1) in t.leaves; }
    assert s.leaves == t.leaves;
  }

  // The tables hold the same words.
  lemma ShapeStays(m: M, m': M, p: nat)
    requires TablesOk(m) && m'.roots == m.roots && p in m.roots
    requires forall f {:trigger m.use[f]} :: f in m.use && m.use[f].Table? ==> f in m'.mem && m'.mem[f] == m.mem[f]
    ensures ShapeOf(m', p) == ShapeOf(m, p)
  {
    hide V, Ppn;
    var r := m.roots[p];
    assert m.use[r] == Table(p, Root) && r in m.mem;
    forall a: nat | a < 512
      ensures HasMid(m', p, a) <==> HasMid(m, p, a)
      ensures forall b: nat {:trigger HasLeaf(m, p, a, b)} :: HasLeaf(m', p, a, b) <==> HasLeaf(m, p, a, b)
    {
      if V(m.mem[r][a]) {
        assert m.use[Ppn(m.mem[r][a])] == Table(p, Mid(a)) by { assert TableOk(m, r); }
      }
    }
    SameShape(ShapeOf(m, p), ShapeOf(m', p));
  }

  // Where the entry of a mapped page is, its table is.
  lemma MappedHasTables(m: M, p: nat, v: nat)
    requires p in m.roots
    ensures HasMid(m, p, Hi(v)) <==> Next(m.mem, m.roots[p], Hi(v)).Some?
    ensures HasLeaf(m, p, Hi(v), Mi(v)) <==> LeafTable(m.mem, m.roots[p], v).Some?
    ensures At(m, p, v) != 0 ==> Missing(ShapeOf(m, p), v) == 0
  {
  }

  // An empty root has no tables under it.
  lemma RootedShape(m: M, p: nat, g: Frame)
    ensures ShapeOf(Rooted(m, p, g), p) == NO_TABLES
  {
    hide V, Ppn, Zeros;
    NothingInZeros();
    SameShape(ShapeOf(Rooted(m, p, g), p), NO_TABLES);
  }

  // A new table under the root.
  lemma LinkedMid(m: M, p: nat, k: nat, g: Frame)
    requires p in m.roots && CanLink(m, m.roots[p], k, g) && m.use[m.roots[p]] == Table(p, Root)
    ensures var s := ShapeOf(m, p); ShapeOf(Linked(m, m.roots[p], k, g), p) == s.(mids := s.mids + {k})
  {
    hide V, Ppn, Linked, FreeOk, Zeros;
    var r, m', s := m.roots[p], Linked(m, m.roots[p], k, g), ShapeOf(m, p);
    LinkedRoots(m, r, k, g);
    forall a: nat | a < 512
      ensures HasMid(m', p, a) <==> HasMid(m, p, a) || a == k
      ensures forall b: nat {:trigger HasLeaf(m, p, a, b)} :: HasLeaf(m', p, a, b) <==> HasLeaf(m, p, a, b)
    {
      LinkedNext(m, r, k, g, r, a);
      forall b: nat | b < 512 ensures HasLeaf(m', p, a, b) <==> HasLeaf(m, p, a, b) {
        LinkedNext(m, r, k, g, r, b);
        if V(m.mem[r][a]) { MidTable(m, p, a); LinkedNext(m, r, k, g, Ppn(m.mem[r][a]), b); }
      }
    }
    SameShape(ShapeOf(m', p), s.(mids := s.mids + {k}));
  }

  lemma MidTable(m: M, p: nat, a: nat)
    requires PagesOk(m) && p in m.roots && a < 512
    ensures m.roots[p] in m.use && m.roots[p] in m.mem && m.use[m.roots[p]] == Table(p, Root)
    ensures V(m.mem[m.roots[p]][a]) ==>
              var f := Ppn(m.mem[m.roots[p]][a]); f in m.use && m.use[f] == Table(p, Mid(a)) && f in m.mem
  {
    hide V, Ppn, FreeOk;
    assert m.use[m.roots[p]] == Table(p, Root);
    assert TableOk(m, m.roots[p]);
  }

  // A new table under the table at root entry a.
  lemma LinkedLeaf(m: M, p: nat, a: nat, f: Frame, k: nat, g: Frame)
    requires p in m.roots && a < 512 && Next(m.mem, m.roots[p], a) == Some(f)
    requires CanLink(m, f, k, g) && m.use[f] == Table(p, Mid(a))
    ensures var s := ShapeOf(m, p); ShapeOf(Linked(m, f, k, g), p) == s.(leaves := s.leaves + {(a, k)})
  {
    hide V, Ppn, Linked, FreeOk, Zeros;
    var r, m', s := m.roots[p], Linked(m, f, k, g), ShapeOf(m, p);
    LinkedRoots(m, f, k, g);
    forall c: nat | c < 512
      ensures HasMid(m', p, c) <==> HasMid(m, p, c)
      ensures forall b: nat {:trigger HasLeaf(m, p, c, b)} ::
        HasLeaf(m', p, c, b) <==> HasLeaf(m, p, c, b) || (c == a && b == k)
    {
      MidTable(m, p, c);
      LinkedNext(m, f, k, g, r, c);
      forall b: nat | b < 512 ensures HasLeaf(m', p, c, b) <==> HasLeaf(m, p, c, b) || (c == a && b == k) {
        if V(m.mem[r][c]) { LinkedNext(m, f, k, g, Ppn(m.mem[r][c]), b); }
      }
    }
    SameShape(ShapeOf(m', p), s.(leaves := s.leaves + {(a, k)}));
  }

  // An entry of a lowest-level table.
  lemma WithEntryShape(m: M, p: nat, vpn: nat, f: Frame, e: Word)
    requires PagesOk(m) && IsEntry(m, p, vpn, f) && f in m.mem
    ensures ShapeOf(WithEntry(m, f, Lo(vpn), e), p) == ShapeOf(m, p)
  {
    hide V, Ppn, Hi, Mi, Lo, FreeOk;
    WalkPlaces(m, p, vpn);
    var r, m' := m.roots[p], WithEntry(m, f, Lo(vpn), e);
    forall a: nat | a < 512
      ensures HasMid(m', p, a) <==> HasMid(m, p, a)
      ensures forall b: nat {:trigger HasLeaf(m, p, a, b)} :: HasLeaf(m', p, a, b) <==> HasLeaf(m, p, a, b)
    {
      MidTable(m, p, a);
    }
    SameShape(ShapeOf(m', p), ShapeOf(m, p));
  }

  // ---------------------------------------------------------------------
  // The hardware finds the same page
  // ---------------------------------------------------------------------

  /** On every table that the code has built, the hardware translates a user access
      exactly when the code's walk finds an entry that permits it and does not claim
      "writable but not readable", and then to the same physical address. */
  lemma HardwareAgrees(m: M, p: nat, va: Word, acc: Access)
    requires PagesOk(m) && p in m.roots && va < MAXVA
    ensures var e := At(m, p, va / PGSIZE);
            HwTranslate(m.mem, m.roots[p], va, acc) ==
            if e != 0 && Allows(e, acc) && (W(e) ==> R(e)) then Translated(Pte2Pa(e) + va % PGSIZE) else Fault
  {
    hide PagesOk, HwLeaf, At;
    HardwareLeaf(m, p, va);
  }

  // Every user access of this kind to page v goes to the physical page f ...
  ghost predicate Reaches(m: M, p: nat, v: nat, acc: Access, f: Frame)
    requires p in m.roots
  {
    forall a: Word {:trigger HwTranslate(m.mem, m.roots[p], a, acc)} :: a / PGSIZE == v ==>
      HwTranslate(m.mem, m.roots[p], a, acc) == Translated(f * PGSIZE + a % PGSIZE)
  }

  // ... or faults.
  ghost predicate Barred(m: M, p: nat, v: nat, acc: Access)
    requires p in m.roots
  {
    forall a: Word {:trigger HwTranslate(m.mem, m.roots[p], a, acc)} :: a / PGSIZE == v ==>
      HwTranslate(m.mem, m.roots[p], a, acc) == Fault
  }

  // Page v is there for user data, or for user code, in the physical page f.
  ghost predicate DataPage(m: M, p: nat, v: nat, f: Frame)
    requires p in m.roots
  {
    Reaches(m, p, v, Load, f) && Reaches(m, p, v, Store, f) && Barred(m, p, v, Fetch)
  }

  ghost predicate CodePage(m: M, p: nat, v: nat, f: Frame)
    requires p in m.roots
  {
    Reaches(m, p, v, Load, f) && Reaches(m, p, v, Fetch, f) && Barred(m, p, v, Store)
  }

  // Page v is not there for any access.
  ghost predicate NoAccess(m: M, p: nat, v: nat)
    requires p in m.roots
  {
    Barred(m, p, v, Load) && Barred(m, p, v, Store) && Barred(m, p, v, Fetch)
  }

  lemma EntryReaches(m: M, p: nat, v: nat, acc: Access)
    requires PagesOk(m) && p in m.roots && v < MAXVPN
    ensures var e := At(m, p, v);
            if e != 0 && Allows(e, acc) && (W(e) ==> R(e)) then Reaches(m, p, v, acc, Ppn(e)) else Barred(m, p, v, acc)
  {
    hide PagesOk, HwTranslate, At, Allows, W, R;
    var e := At(m, p, v);
    forall a: Word | a / PGSIZE == v
      ensures HwTranslate(m.mem, m.roots[p], a, acc) ==
              if e != 0 && Allows(e, acc) && (W(e) ==> R(e)) then Translated(Ppn(e) * PGSIZE + a % PGSIZE) else Fault
    {
      HardwareAgrees(m, p, a, acc);
    }
  }

  lemma EntryUse(m: M, p: nat, v: nat)
    requires PagesOk(m) && p in m.roots && v < MAXVPN && At(m, p, v) != 0
    ensures ForData(At(m, p, v)) ==> DataPage(m, p, v, Ppn(At(m, p, v)))
    ensures ForCode(At(m, p, v)) ==> CodePage(m, p, v, Ppn(At(m, p, v)))
  {
    hide PagesOk, HwTranslate, At, Ppn, Reaches, Barred;
    EntryReaches(m, p, v, Load);
    EntryReaches(m, p, v, Store);
    EntryReaches(m, p, v, Fetch);
  }

  lemma HardwareLeaf(m: M, p: nat, va: Word)
    requires PagesOk(m) && p in m.roots && va < MAXVA
    ensures var e := At(m, p, va / PGSIZE);
            HwLeaf(m.mem, m.roots[p], va, 2) ==
            if e != 0 && (R(e) || X(e)) && (W(e) ==> R(e)) then LeafAt(e, 0) else NoLeaf
  {
    hide FreeOk, TablesOk, V, R, W, X, Hi, Mi, Lo, PX, Ppn;
    var vpn := va / PGSIZE;
    PxIsIndex(va);
    WalkPlaces(m, p, vpn);
    var f := m.roots[p];
    PointerBits(m, f, Hi(vpn));
    if V(m.mem[f][Hi(vpn)]) {
      var g := Ppn(m.mem[f][Hi(vpn)]);
      PointerBits(m, g, Mi(vpn));
      if V(m.mem[g][Mi(vpn)]) {
        LeafLimit(m, Ppn(m.mem[g][Mi(vpn)]), Lo(vpn));
      }
    }
  }

  lemma LeafLimit(m: M, f: Frame, k: nat)
    requires PagesOk(m) && f in m.use && m.use[f].Table? && f in m.mem && k < 512 && m.use[f].place.Leaf?
    ensures V(m.mem[f][k]) ==> m.mem[f][k] < PPN_LIMIT * 1024
  {
    hide FreeOk;
    assert TableOk(m, f);
  }

  lemma PointerBits(m: M, f: Frame, k: nat)
    requires PagesOk(m) && f in m.use && m.use[f].Table? && !m.use[f].place.Leaf? && f in m.mem && k < 512
    ensures V(m.mem[f][k]) ==>
              var e := m.mem[f][k];
              !R(e) && !W(e) && !X(e) && e < PPN_LIMIT * 1024
  {
    hide FreeOk;
    assert TableOk(m, f);
    hide TableOk, TablesOk;
  }
}
