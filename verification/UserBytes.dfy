/**
 The bytes in a page of little-endian words, and the bytes that a user address reads as.
 */
module UserBytes {
  import opened Base
  import opened Sv39
  import opened PageTables
  import opened Paging

  function Pow256(k: nat): (r: int) ensures r > 0 { if k == 0 then 1 else 256 * Pow256(k - 1) }

  function PageBytes(page: Page): (b: Bytes)
    ensures |b| == PGSIZE
  {
    seq(PGSIZE, j requires 0 <= j < PGSIZE => page[j / 8] / Pow256(j % 8) % 256)
  }

  // A little-endian number of n bytes.
  function Le(b: Bytes, n: nat): (r: nat)
    requires n <= |b|
    ensures r < Pow256(n)
  {
    if n == 0 then 0 else b[0] + 256 * Le(b[1..], n - 1)
  }

  // The n bytes of a number, lowest first.
  function LeBytes(x: nat, n: nat): (b: Bytes)
    ensures |b| == n
  {
    if n == 0 then [] else [x % 256] + LeBytes(x / 256, n - 1)
  }

  /** A number written in n bytes, whatever follows, reads back. */
  lemma {:induction false} LeBack(x: nat, n: nat, rest: Bytes)
    requires x < Pow256(n)
    ensures Le(LeBytes(x, n) + rest, n) == x
  {
    if n > 0 {
      var b := LeBytes(x, n) + rest;
      LeBack(x / 256, n - 1, rest);
      assert b[1..] == LeBytes(x / 256, n - 1) + rest;
    }
  }

  lemma {:induction false} LeDigit(b: Bytes, n: nat, k: nat)
    requires k < n <= |b|
    ensures Le(b, n) / Pow256(k) % 256 == b[k]
  {
    var r := Le(b[1..], n - 1);
    assert Le(b, n) == b[0] + 256 * r;
    if k == 0 {
      LowDigit(b[0], r);
    } else {
      LeDigit(b[1..], n - 1, k - 1);
      var q := Pow256(k - 1);
      assert Pow256(k) == 256 * q;
      Shifted(b[0], r, q);
    }
  }

  lemma LowDigit(d: byte, r: nat)
    ensures (d + 256 * r) / 1 % 256 == d
  {
  }

  lemma Shifted(d: byte, r: nat, q: int)
    requires q > 0
    ensures (d + 256 * r) / (256 * q) == r / q
  {
    var x, m := r / q, r % q;
    Division(r, q);
    assert 256 * (q * x) == 256 * q * x;
    QuotientIs(d + 256 * r, 256 * q, x, 256 * m + d);
  }

  lemma QuotientIs(a: int, n: int, x: int, m: int)
    requires n > 0 && a == n * x + m && 0 <= m < n
    ensures a / n == x
  {
    var y, l := a / n, a % n;
    Division(a, n);
    SmallMultiple(n, x, y, m - l);
  }

  lemma Division(a: int, n: int)
    requires n > 0
    ensures a == n * (a / n) + a % n && 0 <= a % n < n
  {
  }

  lemma SmallMultiple(n: int, x: int, y: int, d: int)
    requires n > 0 && n * y - n * x == d && -n < d < n
    ensures y == x
  {
    if y > x { AtLeast(n, y - x); } else if y < x { AtLeast(n, x - y); }
  }

  lemma AtLeast(n: int, k: int)
    requires n > 0 && k >= 1
    ensures n * k >= n
  {
  }

  lemma Pow256Of8()
    ensures Pow256(8) == 0x1_0000_0000_0000_0000 && Pow256(4) == 0x1_0000_0000
  {
    assert Pow256(4) == 256 * Pow256(3) == 65536 * Pow256(2);
    assert Pow256(8) == 256 * Pow256(7) == 65536 * Pow256(6) == 0x100_0000 * Pow256(5) == 0x1_0000_0000 * Pow256(4);
  }

  // The page that holds these bytes.
  function BytesPage(b: Bytes): (page: Page)
    requires |b| == PGSIZE
  {
    var words := seq<Word>(512, i requires 0 <= i < 512 => Pow256Of8(); Le(b[8 * i..8 * i + 8], 8));
    assert |words| == 512;
    words
  }

  lemma {:induction false} LeBytesDigit(x: nat, n: nat, k: nat)
    requires k < n
    ensures LeBytes(x, n)[k] == x / Pow256(k) % 256
  {
    if k > 0 {
      LeBytesDigit(x / 256, n - 1, k - 1);
      var q := Pow256(k - 1);
      assert Pow256(k) == 256 * q;
      Shifted(x % 256, x / 256, q);
    }
  }

  /** The bytes of a page are those of its words, each lowest first. */
  lemma WordBytes(page: Page, i: nat)
    requires i < 512
    ensures PageBytes(page)[8 * i..8 * i + 8] == LeBytes(page[i], 8)
  {
    hide LeBytes, Pow256;
    var b, c := PageBytes(page)[8 * i..8 * i + 8], LeBytes(page[i], 8);
    forall k: nat | k < 8 ensures b[k] == c[k] {
      assert (8 * i + k) / 8 == i && (8 * i + k) % 8 == k;
      LeBytesDigit(page[i], 8, k);
    }
  }

  /** Writing bytes to a page and reading them back. */
  lemma BytesBack(b: Bytes)
    requires |b| == PGSIZE
    ensures PageBytes(BytesPage(b)) == b
  {
    hide Le, Pow256;
    var page := BytesPage(b);
    forall j | 0 <= j < PGSIZE ensures PageBytes(page)[j] == b[j] {
      var i, k := j / 8, j % 8;
      assert page[i] == Le(b[8 * i..8 * i + 8], 8);
      LeDigit(b[8 * i..8 * i + 8], 8, k);
    }
  }

  lemma ZeroBytes()
    ensures PageBytes(Zeros()) == seq<byte>(PGSIZE, _ => 0)
  {
    hide Pow256;
    var b := PageBytes(Zeros());
    forall j | 0 <= j < PGSIZE ensures b[j] == 0 { assert Zeros()[j / 8] == 0; ZeroOver(Pow256(j % 8)); }
  }

  lemma ZeroOver(n: int)
    requires n > 0
    ensures 0 / n == 0
  {
  }

  // The byte that a user address reads as, 0 where nothing is mapped.
  function UserByte(m: M, p: nat, va: int): byte
    requires p in m.roots
  {
    if 0 <= va < MAXVA && PhysicalPage(m, p, va) / PGSIZE in m.mem && PhysicalPage(m, p, va) > 0
    then PageBytes(m.mem[PhysicalPage(m, p, va) / PGSIZE])[va % PGSIZE] else 0
  }
}
