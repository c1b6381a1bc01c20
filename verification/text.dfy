/**
 * The handful of Rust `str` operations the proxy relies on, over `string`
 * (a sequence of Unicode scalar values): `trim`, `starts_with`,
 * `strip_prefix`, `split`, `find`, `contains`, `trim_start_matches`,
 * `trim_end_matches`, `eq_ignore_ascii_case` and `usize::from_str`.
 */
module Text {
  import opened Common

  /** Rust's `char::is_whitespace`: the Unicode White_Space property. */
  predicate IsWhitespace(c: char) {
    || ('\t' <= c <= '\r')
    || c == ' '
    || c == '\U{85}'
    || c == '\U{A0}'
    || c == '\U{1680}'
    || ('\U{2000}' <= c <= '\U{200A}')
    || c == '\U{2028}'
    || c == '\U{2029}'
    || c == '\U{202F}'
    || c == '\U{205F}'
    || c == '\U{3000}'
  }

  /** A string with no whitespace at either end: what `trim` produces. */
  predicate Trimmed(s: string) {
    |s| == 0 || (!IsWhitespace(s[0]) && !IsWhitespace(s[|s| - 1]))
  }

  /** `s` occurs in `t` starting at position `k`. */
  predicate InfixAt(s: string, t: string, k: int) {
    0 <= k && k + |s| <= |t| && t[k..k + |s|] == s
  }

  /** `s` occurs in `t` at some position. */
  ghost predicate IsInfix(s: string, t: string) {
    exists k :: InfixAt(s, t, k)
  }

  lemma InfixTransitive(a: string, b: string, c: string)
    requires IsInfix(a, b) && IsInfix(b, c)
    ensures IsInfix(a, c)
  {
    var i :| InfixAt(a, b, i);
    var j :| InfixAt(b, c, j);
    assert forall t :: 0 <= t < |b| ==> c[j + t] == b[t];
    assert forall t :: 0 <= t < |a| ==> b[i + t] == a[t];
    assert c[j + i..j + i + |a|] == a;
    assert InfixAt(a, c, j + i);
  }

  /** `trim_start`: whitespace removed from the front. */
  function TrimStart(s: string): string {
    if |s| > 0 && IsWhitespace(s[0]) then TrimStart(s[1..]) else s
  }

  /** `trim_end`: whitespace removed from the back. */
  function TrimEnd(s: string): string {
    if |s| > 0 && IsWhitespace(s[|s| - 1]) then TrimEnd(s[..|s| - 1]) else s
  }

  /** `trim_start` drops a whitespace prefix and stops at the first other character. */
  lemma {:induction false} TrimStartSpec(s: string)
    ensures var r := TrimStart(s); |r| <= |s| && r == s[|s| - |r|..]
    ensures var r := TrimStart(s); forall i :: 0 <= i < |s| - |r| ==> IsWhitespace(s[i])
    ensures var r := TrimStart(s); |r| > 0 ==> !IsWhitespace(r[0])
  {
    if |s| > 0 && IsWhitespace(s[0]) {
      TrimStartSpec(s[1..]);
    }
  }

  /** `trim_end` drops a whitespace suffix and stops at the last other character. */
  lemma {:induction false} TrimEndSpec(s: string)
    ensures var r := TrimEnd(s); |r| <= |s| && r == s[..|r|]
    ensures var r := TrimEnd(s); forall i :: |r| <= i < |s| ==> IsWhitespace(s[i])
    ensures var r := TrimEnd(s); |r| > 0 ==> !IsWhitespace(r[|r| - 1])
  {
    if |s| > 0 && IsWhitespace(s[|s| - 1]) {
      TrimEndSpec(s[..|s| - 1]);
    }
  }

  /** Rust's `str::trim`. */
  function Trim(s: string): (r: string)
    ensures Trimmed(r)
  {
    var t := TrimStart(s);
    TrimStartSpec(s);
    TrimEndSpec(t);
    var r := TrimEnd(t);
    assert |r| > 0 ==> r[0] == t[0];
    r
  }

  /** `trim` leaves nothing exactly when the text is all whitespace. */
  lemma TrimBlank(s: string)
    ensures |Trim(s)| == 0 <==> forall i :: 0 <= i < |s| ==> IsWhitespace(s[i])
  {
    var t := TrimStart(s);
    TrimStartSpec(s);
    TrimEndSpec(t);
    assert |TrimEnd(t)| == 0 ==> |t| == 0;
  }

  /** `trim` returns a slice of its input. */
  lemma TrimIsInfix(s: string)
    ensures IsInfix(Trim(s), s)
  {
    var t := TrimStart(s);
    var r := TrimEnd(t);
    TrimStartSpec(s);
    TrimEndSpec(t);
    assert s[|s| - |t|..][..|r|] == r;
    assert InfixAt(r, s, |s| - |t|);
  }

  lemma TrimOfTrimmed(s: string)
    requires Trimmed(s)
    ensures Trim(s) == s
  {
  }

  lemma TrimIdempotent(s: string)
    ensures Trim(Trim(s)) == Trim(s)
  {
    TrimOfTrimmed(Trim(s));
  }

  predicate StartsWith(s: string, p: string) {
    |p| <= |s| && s[..|p|] == p
  }

  /** Rust's `str::strip_prefix`. */
  function StripPrefix(s: string, p: string): (r: Option<string>)
    ensures r.Some? <==> StartsWith(s, p)
    ensures r.Some? ==> s == p + r.value
  {
    if StartsWith(s, p) then Some(s[|p|..]) else None
  }

  /**
   * Rust's `str::trim_start_matches` with a non-empty literal pattern: strips
   * the pattern from the front as often as it occurs there.
   */
  function TrimStartMatches(s: string, p: string): (r: string)
    requires |p| > 0
    ensures |r| <= |s| && r == s[|s| - |r|..]
    ensures !StartsWith(r, p)
    decreases |s|
  {
    if StartsWith(s, p) then TrimStartMatches(s[|p|..], p) else s
  }

  /** Rust's `str::trim_end_matches` with a single-character pattern. */
  function TrimEndMatchesChar(s: string, c: char): (r: string)
    ensures |r| <= |s| && r == s[..|r|]
    ensures |r| == 0 || r[|r| - 1] != c
    ensures forall i :: |r| <= i < |s| ==> s[i] == c
  {
    if |s| > 0 && s[|s| - 1] == c then TrimEndMatchesChar(s[..|s| - 1], c) else s
  }

  /** Rust's `str::find` for a character: the first position of `c`. */
  function FindChar(s: string, c: char): (r: Option<nat>)
    ensures r.Some? ==> r.value < |s| && s[r.value] == c && c !in s[..r.value]
    ensures r.None? <==> c !in s
  {
    if |s| == 0 then None
    else if s[0] == c then Some(0)
    else
      match FindChar(s[1..], c)
      case None => None
      case Some(i) =>
        assert s[..i + 1] == [s[0]] + s[1..][..i];
        Some(i + 1)
  }

  /** Rust's `str::split` on a character: always at least one piece. */
  function SplitOn(s: string, c: char): (r: seq<string>)
    ensures |r| >= 1
    ensures forall i :: 0 <= i < |r| ==> c !in r[i]
    decreases |s|
  {
    match FindChar(s, c)
    case None => [s]
    case Some(i) => [s[..i]] + SplitOn(s[i + 1..], c)
  }

  /** The inverse of `SplitOn`: the pieces glued back with `c` between them. */
  function JoinWith(pieces: seq<string>, c: char): string
    requires |pieces| >= 1
  {
    if |pieces| == 1 then pieces[0] else pieces[0] + [c] + JoinWith(pieces[1..], c)
  }

  lemma {:induction false} JoinSplit(s: string, c: char)
    ensures JoinWith(SplitOn(s, c), c) == s
    decreases |s|
  {
    var f := FindChar(s, c);
    if f.Some? {
      var i := f.value;
      var rest := SplitOn(s[i + 1..], c);
      assert SplitOn(s, c) == [s[..i]] + rest;
      assert ([s[..i]] + rest)[1..] == rest;
      JoinSplit(s[i + 1..], c);
      assert JoinWith(SplitOn(s, c), c) == s[..i] + [c] + JoinWith(rest, c);
      assert s == s[..i] + [c] + s[i + 1..];
    }
  }

  lemma {:induction false} SplitJoin(pieces: seq<string>, c: char)
    requires |pieces| >= 1
    requires forall i :: 0 <= i < |pieces| ==> c !in pieces[i]
    ensures SplitOn(JoinWith(pieces, c), c) == pieces
  {
    if |pieces| == 1 {
      assert FindChar(pieces[0], c).None?;
    } else {
      var s := JoinWith(pieces, c);
      var tail := JoinWith(pieces[1..], c);
      assert s == pieces[0] + [c] + tail;
      FindAfterPrefix(pieces[0], c, tail);
      assert s[..|pieces[0]|] == pieces[0];
      assert s[|pieces[0]| + 1..] == tail;
      SplitJoin(pieces[1..], c);
    }
  }

  lemma FindAfterPrefix(p: string, c: char, t: string)
    requires c !in p
    ensures FindChar(p + [c] + t, c) == Some(|p|)
  {
    var s := p + [c] + t;
    assert s[|p|] == c;
    assert s[..|p|] == p;
    var r := FindChar(s, c);
    assert r.value <= |p|;
    assert forall j :: 0 <= j < |p| ==> s[j] == p[j];
  }

  /** Every piece `SplitOn` produces occurs in the input. */
  lemma {:induction false} SplitPieceIsInfix(s: string, c: char, k: nat)
    requires k < |SplitOn(s, c)|
    ensures IsInfix(SplitOn(s, c)[k], s)
    decreases |s|
  {
    match FindChar(s, c)
    case None =>
      assert s[0..|s|] == s;
      assert InfixAt(s, s, 0);
    case Some(i) =>
      if k == 0 {
        assert s[0..i] == s[..i];
        assert InfixAt(s[..i], s, 0);
      } else {
        var rest := s[i + 1..];
        assert SplitOn(s, c) == [s[..i]] + SplitOn(rest, c);
        var piece := SplitOn(rest, c)[k - 1];
        assert SplitOn(s, c)[k] == piece;
        SplitPieceIsInfix(rest, c, k - 1);
        SuffixIsInfix(s, i + 1);
        InfixTransitive(piece, rest, s);
      }
  }

  lemma SuffixIsInfix(s: string, i: nat)
    requires i <= |s|
    ensures IsInfix(s[i..], s)
  {
    assert s[i..i + |s[i..]|] == s[i..];
    assert InfixAt(s[i..], s, i);
  }

  /** Rust's `str::contains` for a string pattern. */
  function ContainsSubstring(s: string, sub: string): (r: bool)
    ensures r <==> IsInfix(sub, s)
    decreases |s|
  {
    if StartsWith(s, sub) then
      assert InfixAt(sub, s, 0);
      true
    else if |s| == 0 then
      assert forall k :: !InfixAt(sub, s, k);
      false
    else
      var r := ContainsSubstring(s[1..], sub);
      assert r ==> IsInfix(sub, s) by {
        if r {
          var k :| InfixAt(sub, s[1..], k);
          assert s[k + 1..k + 1 + |sub|] == sub;
          assert InfixAt(sub, s, k + 1);
        }
      }
      assert IsInfix(sub, s) ==> r by {
        if IsInfix(sub, s) {
          var k :| InfixAt(sub, s, k);
          if k > 0 {
            assert s[1..][k - 1..k - 1 + |sub|] == sub;
            assert InfixAt(sub, s[1..], k - 1);
          }
        }
      }
      r
  }

  function AsciiLower(c: char): char {
    if 'A' <= c <= 'Z' then (c as int + 32) as char else c
  }

  /** Rust's `str::eq_ignore_ascii_case`. */
  predicate EqIgnoreAsciiCase(a: string, b: string) {
    |a| == |b| && forall i :: 0 <= i < |a| ==> AsciiLower(a[i]) == AsciiLower(b[i])
  }

  predicate IsDigit(c: char) {
    '0' <= c <= '9'
  }

  function DigitValue(c: char): nat
    requires IsDigit(c)
  {
    c as int - '0' as int
  }

  /** The number an all-digit string denotes, read most significant digit first. */
  function DigitsValue(ds: string): nat
    requires forall i :: 0 <= i < |ds| ==> IsDigit(ds[i])
  {
    if |ds| == 0 then 0 else 10 * DigitsValue(ds[..|ds| - 1]) + DigitValue(ds[|ds| - 1])
  }

  /**
   * Rust's `usize::from_str` on a 64-bit target: an optional `+`, then at
   * least one ASCII digit and nothing else, and a value that fits in 64 bits.
   */
  function ParseUsize(s: string): (r: Option<u64>)
    ensures r.Some? ==> |s| > 0
  {
    var ds := if |s| > 0 && s[0] == '+' then s[1..] else s;
    if |ds| == 0 || exists i :: 0 <= i < |ds| && !IsDigit(ds[i]) then None
    else
      var v := DigitsValue(ds);
      if v > U64_MAX then None else Some(v)
  }

  /** Decimal rendering of a natural number, most significant digit first. */
  function Decimal(n: nat): (r: string)
    ensures |r| > 0
    ensures forall i :: 0 <= i < |r| ==> IsDigit(r[i])
  {
    if n < 10 then [('0' as int + n) as char]
    else Decimal(n / 10) + [('0' as int + n % 10) as char]
  }

  lemma {:induction false} DecimalValue(n: nat)
    ensures DigitsValue(Decimal(n)) == n
  {
    if n >= 10 {
      var d := Decimal(n);
      assert d[..|d| - 1] == Decimal(n / 10);
      DecimalValue(n / 10);
    }
  }

  /** `ParseUsize` reads back every value its decimal rendering shows. */
  lemma ParseDecimalRoundTrip(n: nat)
    requires n <= U64_MAX
    ensures ParseUsize(Decimal(n)) == Some(n)
  {
    DecimalValue(n);
  }
}
