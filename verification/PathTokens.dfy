/**
 Splitting a path into its components: strtok with the delimiter "/", which keeps a
 static cursor into the caller's buffer and ends each token by overwriting the
 delimiter after it with NUL.
 */
module PathTokens {
  import opened Base
  import opened RfsLayout

  const SLASH: byte := 47
  const MAX_PATH_LEN := 30           // of a path, with its NUL

  // A string as C has it, without the NUL at its end.
  type CString = s: Bytes | 0 !in s witness []

  predicate PathFits(path: Bytes) { |path| < MAX_PATH_LEN }

  // ---------------------------------------------------------------------
  // Tokens of a byte string
  // ---------------------------------------------------------------------

  function Leading(s: Bytes, slash: bool): (n: nat)
    ensures n <= |s|
    ensures forall k {:trigger s[k]} :: 0 <= k < n ==> (s[k] == SLASH) == slash
    ensures n < |s| ==> (s[n] == SLASH) != slash
  {
    if s == [] || (s[0] == SLASH) != slash then 0
    else
      var n := Leading(s[1..], slash);
      assert forall k {:trigger s[k]} :: 1 <= k < n + 1 ==> s[k] == s[1..][k - 1];
      n + 1
  }

  function SkipSlashes(s: Bytes): Bytes { s[Leading(s, true)..] }

  predicate HasToken(s: Bytes) { SkipSlashes(s) != [] }

  function Token(s: Bytes): (t: Bytes)
    requires HasToken(s)
    ensures t != [] && SLASH !in t
  {
    var u := SkipSlashes(s);
    u[..Leading(u, false)]
  }

  // What is left for the next call.
  function AfterToken(s: Bytes): (r: Bytes)
    requires HasToken(s)
    ensures |r| < |s|
  {
    var u := SkipSlashes(s);
    var n := Leading(u, false);
    if n < |u| then u[n + 1..] else []
  }

  function Tokens(s: Bytes): (ts: seq<Bytes>)
    decreases |s|
  {
    if HasToken(s) then [Token(s)] + Tokens(AfterToken(s)) else []
  }

  // The components between slashes, empty ones dropped: an independent reading.
  function Fields(s: Bytes, acc: Bytes): seq<Bytes>
    decreases |s|
  {
    if s == [] then (if acc == [] then [] else [acc])
    else if s[0] == SLASH then (if acc == [] then [] else [acc]) + Fields(s[1..], [])
    else Fields(s[1..], acc + [s[0]])
  }

  lemma {:induction false} FieldsSkip(s: Bytes)
    ensures Fields(s, []) == Fields(SkipSlashes(s), [])
    decreases |s|
  {
    if s != [] && s[0] == SLASH {
      FieldsSkip(s[1..]);
      assert SkipSlashes(s) == SkipSlashes(s[1..]);
    } else {
      assert SkipSlashes(s) == s;
    }
  }

  lemma {:induction false} FieldsToken(u: Bytes, acc: Bytes)
    requires acc != [] || Leading(u, false) > 0
    ensures var n := Leading(u, false);
            Fields(u, acc) == [acc + u[..n]] + Fields(if n < |u| then u[n + 1..] else [], [])
    decreases |u|
  {
    var n := Leading(u, false);
    if n == 0 {
      assert acc + u[..0] == acc;
    } else {
      FieldsToken(u[1..], acc + [u[0]]);
      assert Leading(u[1..], false) == n - 1;
      assert acc + [u[0]] + u[1..][..n - 1] == acc + u[..n];
      if n < |u| { assert u[1..][n..] == u[n + 1..]; }
    }
  }

  /** strtok's tokens are the components of the path. */
  lemma {:induction false} TokensAreFields(s: Bytes)
    ensures Tokens(s) == Fields(s, [])
    decreases |s|
  {
    FieldsSkip(s);
    if HasToken(s) {
      var u := SkipSlashes(s);
      FieldsToken(u, []);
      assert [] + u[..Leading(u, false)] == Token(s);
      TokensAreFields(AfterToken(s));
    }
  }

  function LastOf(ts: seq<Bytes>): Bytes
    requires ts != []
  {
    ts[|ts| - 1]
  }

  // ---------------------------------------------------------------------
  // strtok on a buffer
  // ---------------------------------------------------------------------

  // The C string that starts at position k of a NUL-terminated buffer.
  function At(s: Bytes, k: int): Bytes
    requires 0 <= k <= |s|
    decreases |s| - k
  {
    if k < |s| && s[k] != 0 then [s[k]] + At(s, k + 1) else []
  }

  lemma {:induction false} AtIsCStr(s: Bytes, k: int)
    requires 0 <= k <= |s|
    ensures At(s, k) == CStr(s[k..])
    decreases |s| - k
  {
    if k < |s| && s[k] != 0 {
      AtIsCStr(s, k + 1);
      assert s[k..][1..] == s[k + 1..];
    }
  }

  lemma {:induction false} AtSkip(s: Bytes, k: int, n: int)
    requires 0 <= k <= k + n <= |s| && forall j {:trigger s[j]} :: k <= j < k + n ==> s[j] != 0
    ensures At(s, k) == s[k..k + n] + At(s, k + n)
    decreases n
  {
    if n == 0 {
      assert s[k..k] == [];
    } else {
      AtSkip(s, k + 1, n - 1);
      assert At(s, k) == [s[k]] + At(s, k + 1);
      assert s[k..k + n] == [s[k]] + s[k + 1..k + n];
    }
  }

  // A byte before the string does not matter to it.
  lemma {:induction false} AtElsewhere(s: Bytes, p: int, b: byte, k: int)
    requires 0 <= p < k <= |s|
    ensures At(s[p := b], k) == At(s, k)
    decreases |s| - k
  {
    if k < |s| { AtElsewhere(s, p, b, k + 1); }
  }

  // A string ends at its NUL, whatever comes after.
  lemma {:induction false} AtFrame(s: Bytes, s': Bytes, k: int, n: int)
    requires 0 <= k <= n <= |s| == |s'| && k + |At(s, k)| < n
    requires forall j {:trigger s'[j]} :: 0 <= j < n ==> s'[j] == s[j]
    ensures At(s', k) == At(s, k)
    decreases n - k
  {
    if s[k] != 0 { AtFrame(s, s', k + 1, n); }
  }

  const NONE: int := -1

  class Strtok {
    var current: int   // the static cursor; NONE is NULL

    // The part of the string not handed out yet.
    ghost function Rest(s: Bytes): Bytes
      reads this
    {
      if 0 <= current <= |s| then At(s, current) else []
    }

    constructor ()
      ensures current == NONE
    {
      current := NONE;
    }

    // strtok(str, "/"): `anew` starts on the whole buffer, otherwise the scan goes on
    // from the cursor.
    method Next(buf: array<byte>, anew: bool) returns (start: int)
      requires buf.Length > 0 && buf[buf.Length - 1] == 0
      requires current == NONE || 0 <= current < buf.Length
      modifies this, buf
      ensures current == NONE || 0 <= current < buf.Length
      ensures buf[buf.Length - 1] == 0
      ensures var rest := if anew then At(old(buf[..]), 0) else old(Rest(buf[..]));
              && (start == NONE <==> !HasToken(rest))
              && (HasToken(rest) ==>
                    0 <= start < buf.Length && At(buf[..], start) == Token(rest) && Rest(buf[..]) == AfterToken(rest))
              && (!HasToken(rest) ==> buf[..] == old(buf[..]) && Rest(buf[..]) == [])
      // earlier tokens stay, and the cursor is past the NUL of this one
      ensures !anew ==> forall j {:trigger buf[j]} :: 0 <= j < old(current) ==> buf[j] == old(buf[j])
      ensures start != NONE && current != NONE ==> 0 <= start && start + |At(buf[..], start)| < current <= buf.Length
    {
      hide At, SkipSlashes, Token, AfterToken;
      if anew { current := 0; }
      if current == NONE { NothingLeft(); return NONE; }
      ghost var s := buf[..];
      start := FirstNonSlash(buf, current);
      assert buf[..] == s;
      SkippedAt(s, current, start);
      if buf[start] == 0 {
        current := NONE;
        return NONE;
      }
      var end := TokenEnd(buf, start);
      assert buf[..] == s;
      TokenAt(s, current, start, end);
      if buf[end] != 0 {
        buf[end] := 0;
        assert buf[..] == s[end := 0];
        current := end + 1;
      } else {
        current := NONE;
        assert s[end := 0] == s;
      }
    }
  }

  lemma NothingLeft()
    ensures !HasToken([])
  {
  }

  method FirstNonSlash(buf: array<byte>, from: nat) returns (start: nat)
    requires from < buf.Length && buf[buf.Length - 1] == 0
    ensures from <= start < buf.Length && buf[start] != SLASH
    ensures forall j {:trigger buf[..][j]} :: from <= j < start ==> buf[..][j] == SLASH
  {
    start := from;
    while buf[start] != 0 && buf[start] == SLASH
      invariant from <= start < buf.Length
      invariant forall j {:trigger buf[..][j]} :: from <= j < start ==> buf[..][j] == SLASH
      decreases buf.Length - start
    {
      start := start + 1;
    }
  }

  method TokenEnd(buf: array<byte>, start: nat) returns (end: nat)
    requires start < buf.Length && buf[buf.Length - 1] == 0 && buf[start] != 0 && buf[start] != SLASH
    ensures start < end < buf.Length && (buf[end] == 0 || buf[end] == SLASH)
    ensures forall j {:trigger buf[..][j]} :: start <= j < end ==> buf[..][j] != 0 && buf[..][j] != SLASH
  {
    end := start;
    while buf[end] != 0 && buf[end] != SLASH
      invariant start <= end < buf.Length
      invariant forall j {:trigger buf[..][j]} :: start <= j < end ==> buf[..][j] != 0 && buf[..][j] != SLASH
      decreases buf.Length - end
    {
      end := end + 1;
    }
  }

  // After the leading slashes.
  lemma SkippedAt(s: Bytes, from: int, start: int)
    requires 0 <= from <= start < |s|
    requires forall j {:trigger s[j]} :: from <= j < start ==> s[j] == SLASH
    requires s[start] != SLASH
    ensures SkipSlashes(At(s, from)) == At(s, start)
    ensures HasToken(At(s, from)) <==> s[start] != 0
  {
    AtSkip(s, from, start - from);
    assert At(s, start) == [] <==> s[start] == 0;
    hide At;
    var rest := At(s, from);
    LeadingIs(s[from..start], At(s, start), true);
    assert rest[start - from..] == At(s, start);
  }

  lemma {:induction false} LeadingIs(a: Bytes, b: Bytes, slash: bool)
    requires forall k {:trigger a[k]} :: 0 <= k < |a| ==> (a[k] == SLASH) == slash
    requires b == [] || (b[0] == SLASH) != slash
    ensures Leading(a + b, slash) == |a|
  {
    if a != [] {
      assert (a + b)[1..] == a[1..] + b;
      LeadingIs(a[1..], b, slash);
    }
  }

  // A token whose end has been overwritten with NUL.
  lemma CutAt(s: Bytes, start: int, end: int)
    requires 0 <= start < end < |s|
    requires forall j {:trigger s[j]} :: start <= j < end ==> s[j] != 0
    ensures At(s[end := 0], start) == s[start..end]
    ensures At(s[end := 0], end + 1) == At(s, end + 1)
  {
    var s' := s[end := 0];
    assert forall j {:trigger s'[j]} :: start <= j < end ==> s'[j] == s[j];
    AtSkip(s', start, end - start);
    assert At(s', end) == [];
    assert s'[start..end] == s[start..end];
    AtElsewhere(s, end, 0, end + 1);
  }

  lemma SplitToken(u: Bytes, tok: Bytes, tail: Bytes, s: Bytes)
    requires u == tok + tail && tok != [] && SkipSlashes(s) == u
    requires forall k {:trigger tok[k]} :: 0 <= k < |tok| ==> tok[k] != SLASH
    requires tail == [] || tail[0] == SLASH
    ensures HasToken(s) && Token(s) == tok
    ensures AfterToken(s) == if tail == [] then [] else tail[1..]
  {
    hide SkipSlashes;
    LeadingIs(tok, tail, false);
    hide Leading;
    assert u[..|tok|] == tok;
    if tail != [] { assert u[|tok| + 1..] == tail[1..]; }
  }

  // The token, once its end has been overwritten, and what comes after it.
  lemma TokenAt(s: Bytes, from: int, start: int, end: int)
    requires 0 <= from <= start < end < |s| && s[|s| - 1] == 0
    requires SkipSlashes(At(s, from)) == At(s, start)
    requires forall j {:trigger s[j]} :: start <= j < end ==> s[j] != 0 && s[j] != SLASH
    requires s[end] == 0 || s[end] == SLASH
    ensures HasToken(At(s, from)) && At(s[end := 0], start) == Token(At(s, from))
    ensures |At(s[end := 0], start)| == end - start
    ensures s[end] == 0 ==> AfterToken(At(s, from)) == []
    ensures s[end] != 0 ==> end + 1 < |s| && AfterToken(At(s, from)) == At(s[end := 0], end + 1)
  {
    AtSkip(s, start, end - start);
    assert s[end] == 0 ==> At(s, end) == [];
    assert s[end] != 0 ==> At(s, end) == [s[end]] + At(s, end + 1);
    CutAt(s, start, end);
    hide At, SkipSlashes, HasToken, Token, AfterToken;
    SplitToken(At(s, start), s[start..end], At(s, end), At(s, from));
  }
}
