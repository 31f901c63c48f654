/**
 Sv39 address translation: the bit fields of addresses and page table entries, and
 the walk that the hardware does (RISC-V Privileged Architecture, version 20211203,
 section 4.3.2, with the Sv39 parameters of section 4.4).
 */
module Sv39 {

  type Word = x: int | 0 <= x < 0x1_0000_0000_0000_0000
  type Page = p: seq<Word> | |p| == 512 witness seq(512, _ => 0)
  type Frame = nat                          // a physical page, by number

  const PGSIZE := 4096
  const MAXVA := 0x40_0000_0000             // 1 << 38
  const MAXVPN := 0x400_0000                // MAXVA / PGSIZE
  const PPN_LIMIT := 0x1000_0000_0000       // a PTE has 44 bits of physical page number

  // ---------------------------------------------------------------------
  // Fields
  // ---------------------------------------------------------------------

  function PxDivisor(level: nat): int
    requires level <= 2
  {
    if level == 0 then 0x1000 else if level == 1 then 0x20_0000 else 0x4000_0000
  }

  function PX(level: nat, va: Word): (k: nat)
    requires level <= 2
    ensures k < 512
  {
    va / PxDivisor(level) % 512
  }

  function Pa2Pte(pa: Word): Word { pa / 4096 * 1024 }
  function Pte2Pa(pte: Word): int { pte / 1024 * 4096 }
  function Ppn(pte: Word): Frame { pte / 1024 }

  function Flags(pte: Word): Word { pte % 1024 }

  predicate V(pte: Word) { pte % 2 == 1 }
  predicate R(pte: Word) { Flags(pte) / 2 % 2 == 1 }
  predicate W(pte: Word) { Flags(pte) / 4 % 2 == 1 }
  predicate X(pte: Word) { Flags(pte) / 8 % 2 == 1 }
  predicate U(pte: Word) { Flags(pte) / 16 % 2 == 1 }
  predicate A(pte: Word) { Flags(pte) / 64 % 2 == 1 }
  predicate D(pte: Word) { Flags(pte) / 128 % 2 == 1 }

  // perm | PTE_V, and with the page number in place.
  function MkPte(pa: Word, perm: Word): Word
    requires perm < 1024
  {
    pa / 4096 * 1024 + (if V(perm) then perm else perm + 1)
  }

  lemma MkPteFields(pa: Word, perm: Word)
    requires perm < 1024
    ensures var e := MkPte(pa, perm);
            && V(e) && Ppn(e) == pa / 4096 && Pte2Pa(e) == pa / 4096 * 4096
            && Flags(e) == if V(perm) then perm else perm + 1
  {
  }

  lemma SetV(perm: Word)
    requires perm < 1023 && !V(perm)
    ensures var t := perm + 1;
            && (R(t) <==> R(perm)) && (W(t) <==> W(perm)) && (X(t) <==> X(perm)) && (U(t) <==> U(perm))
            && (A(t) <==> A(perm)) && (D(t) <==> D(perm))
  {
    hide Flags;
    JustFlags(perm);
    JustFlags(perm + 1);
    LowerSame(perm);
    UpperSame(perm);
  }

  lemma JustFlags(perm: Word)
    requires perm < 1024
    ensures Flags(perm) == perm
  {
  }

  // The lowest bit does not matter to the others.
  lemma LowerSame(x: nat)
    requires x % 2 == 0
    ensures (x + 1) / 2 == x / 2 && (x + 1) / 4 == x / 4 && (x + 1) / 8 == x / 8
  {
    var h := x / 2;
    assert x == 2 * h && h < 2 * (x / 4) + 2 && h < 4 * (x / 8) + 4;
  }

  lemma UpperSame(x: nat)
    requires x % 2 == 0
    ensures (x + 1) / 16 == x / 16 && (x + 1) / 64 == x / 64 && (x + 1) / 128 == x / 128
  {
    var h := x / 2;
    assert x == 2 * h && h < 8 * (x / 16) + 8 && h < 32 * (x / 64) + 32 && h < 64 * (x / 128) + 64;
  }

  // ---------------------------------------------------------------------
  // Permissions (prot_to_type)
  // ---------------------------------------------------------------------

  predicate ProtRead(prot: nat) { prot % 2 == 1 }
  predicate ProtWrite(prot: nat) { prot / 2 % 2 == 1 }
  predicate ProtExec(prot: nat) { prot / 4 % 2 == 1 }

  function ProtToType(prot: nat, user: bool): (perm: Word) {
    var ra := if ProtRead(prot) then 2 else 0;
    var wd := if ProtWrite(prot) then 4 + 128 else 0;
    var x := if ProtExec(prot) then 8 else 0;
    var a := if ProtRead(prot) || ProtExec(prot) then 64 else 0;
    var all := ra + wd + x + a;
    (if all == 0 then 2 else all) + (if user then 16 else 0)
  }

  lemma ProtBits(prot: nat, user: bool)
    ensures var t := ProtToType(prot, user);
            && t < 1024 && !V(t)
            && (R(t) <==> ProtRead(prot) || (!ProtWrite(prot) && !ProtExec(prot)))
            && (W(t) <==> ProtWrite(prot)) && (X(t) <==> ProtExec(prot)) && (U(t) <==> user)
            && (A(t) <==> ProtRead(prot) || ProtExec(prot)) && (D(t) <==> ProtWrite(prot))
  {
    var w, x, u := Bit(ProtWrite(prot)), Bit(ProtExec(prot)), Bit(user);
    var r := Bit(ProtRead(prot) || (!ProtWrite(prot) && !ProtExec(prot)));
    var a := Bit(ProtRead(prot) || ProtExec(prot));
    hide ProtRead, ProtWrite, ProtExec;
    SixBits(r, w, x, u, a, w);
  }

  function Bit(b: bool): int { if b then 1 else 0 }

  lemma SixBits(r: int, w: int, x: int, u: int, a: int, d: int)
    requires 0 <= r <= 1 && 0 <= w <= 1 && 0 <= x <= 1 && 0 <= u <= 1 && 0 <= a <= 1 && 0 <= d <= 1
    ensures var t := 2 * r + 4 * w + 8 * x + 16 * u + 64 * a + 128 * d;
            && t < 1024 && !V(t) && (R(t) <==> r == 1) && (W(t) <==> w == 1) && (X(t) <==> x == 1)
            && (U(t) <==> u == 1) && (A(t) <==> a == 1) && (D(t) <==> d == 1)
  {
    hide V, R, W, X, U, A, D;
    LowBits(r, w, x, u + 4 * a + 8 * d);
    HighBits(2 * r + 4 * w + 8 * x, u, a, d);
  }

  lemma LowBits(r: int, w: int, x: int, high: int)
    requires 0 <= r <= 1 && 0 <= w <= 1 && 0 <= x <= 1 && 0 <= high < 16
    ensures var t := 2 * r + 4 * w + 8 * x + 16 * high;
            !V(t) && (R(t) <==> r == 1) && (W(t) <==> w == 1) && (X(t) <==> x == 1)
  {
    hide Flags;
    var t := 2 * r + 4 * w + 8 * x + 16 * high;
    JustFlags(t);
    assert t / 2 == r + 2 * (w + 2 * x + 4 * high);
    assert t / 4 == w + 2 * (x + 2 * high);
    assert t / 8 == x + 2 * high;
  }

  lemma HighBits(low: int, u: int, a: int, d: int)
    requires 0 <= low < 16 && 0 <= u <= 1 && 0 <= a <= 1 && 0 <= d <= 1
    ensures var t := low + 16 * u + 64 * a + 128 * d;
            t < 1024 && (U(t) <==> u == 1) && (A(t) <==> a == 1) && (D(t) <==> d == 1)
  {
    hide Flags;
    var t := low + 16 * u + 64 * a + 128 * d;
    JustFlags(t);
    assert t / 16 == u + 2 * (2 * a + 4 * d);
    assert t / 64 == a + 2 * d;
    assert t / 128 == d;
  }

  // ---------------------------------------------------------------------
  // The hardware's walk
  // ---------------------------------------------------------------------

  datatype Access = Load | Store | Fetch
  datatype Result = Fault | Translated(pa: int)
  datatype Leaf = NoLeaf | LeafAt(pte: Word, level: nat)

  // Steps 2 to 4: down from table `a` at `level`.
  function HwLeaf(mem: map<Frame, Page>, a: Frame, va: Word, level: nat): (l: Leaf)
    requires level <= 2
    ensures l.LeafAt? ==> l.level <= level
    decreases level
  {
    if a !in mem then NoLeaf
    else
      var pte := mem[a][PX(level, va)];
      if !V(pte) || (!R(pte) && W(pte)) || pte >= PPN_LIMIT * 1024 then NoLeaf
      else if R(pte) || X(pte) then LeafAt(pte, level)
      else if level == 0 then NoLeaf
      else HwLeaf(mem, Ppn(pte), va, level - 1)
  }

  // Steps 5 and 7: a user access of this kind is allowed, and needs no A or D update.
  predicate Allows(pte: Word, acc: Access) {
    && U(pte) && A(pte)
    && match acc
       case Load => R(pte)
       case Store => W(pte) && D(pte)
       case Fetch => X(pte)
  }

  // User code may load and store through the entry, or load and fetch.
  predicate ForData(pte: Word) { Allows(pte, Load) && Allows(pte, Store) && !Allows(pte, Fetch) }
  predicate ForCode(pte: Word) { Allows(pte, Load) && Allows(pte, Fetch) && !Allows(pte, Store) }

  function Pow512(level: nat): int { if level == 0 then 1 else if level == 1 then 512 else 0x40000 }

  // The translation of a user access; the upper address bits must repeat bit 38.
  function HwTranslate(mem: map<Frame, Page>, root: Frame, va: Word, acc: Access): Result {
    if MAXVA <= va < 0x1_0000_0000_0000_0000 - MAXVA then Fault
    else
      match HwLeaf(mem, root, va, 2)
      case NoLeaf => Fault
      case LeafAt(pte, level) =>
        if !Allows(pte, acc) then Fault
        else if Ppn(pte) % Pow512(level) != 0 then Fault   // misaligned superpage
        else Translated((Ppn(pte) + va / PGSIZE % Pow512(level)) * PGSIZE + va % PGSIZE)
  }
}
