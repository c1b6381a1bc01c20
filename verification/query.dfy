/**
 * `util::query_get`: the value of one parameter in a URI's raw query string,
 * found by splitting on `&` and then on the first `=`, with no
 * percent-decoding.
 */
module Query {
  import opened Common
  import opened Text

  /** The two parts of a request URI the model reads; `query` is the text after `?`, if any. */
  datatype Uri = Uri(path: string, query: Option<string>)

  /** `splitn(2, '=')` on one `&`-separated part: its name, and the value after the first `=` if there is one. */
  function SplitPair(part: string): (r: (string, Option<string>))
    ensures r.1.None? <==> '=' !in part
    ensures r.1.None? ==> r.0 == part
    ensures r.1.Some? ==> part == r.0 + "=" + r.1.value && '=' !in r.0
  {
    match FindChar(part, '=')
    case None => (part, None)
    case Some(i) =>
      assert part == part[..i] + "=" + part[i + 1..];
      (part[..i], Some(part[i + 1..]))
  }

  function Name(part: string): string {
    SplitPair(part).0
  }

  /** The value of the first part named `key`; the scan stops at that part whether or not it has a value. */
  function Lookup(parts: seq<string>, key: string): (r: Option<string>)
    ensures r.Some? ==> exists j :: 0 <= j < |parts| && Name(parts[j]) == key && SplitPair(parts[j]).1 == r
    ensures (forall j :: 0 <= j < |parts| ==> Name(parts[j]) != key) ==> r.None?
  {
    if |parts| == 0 then None
    else if Name(parts[0]) == key then SplitPair(parts[0]).1
    else
      var r := Lookup(parts[1..], key);
      assert r.Some? ==> exists j :: 0 <= j < |parts| && Name(parts[j]) == key && SplitPair(parts[j]).1 == r by {
        if r.Some? {
          var j :| 0 <= j < |parts[1..]| && Name(parts[1..][j]) == key && SplitPair(parts[1..][j]).1 == r;
          assert parts[j + 1] == parts[1..][j];
        }
      }
      r
  }

  /** The first matching part decides: the answer is that part's value, even when it has none. */
  lemma {:induction false} LookupFirstMatch(parts: seq<string>, key: string, j: nat)
    requires j < |parts| && Name(parts[j]) == key
    requires forall i :: 0 <= i < j ==> Name(parts[i]) != key
    ensures Lookup(parts, key) == SplitPair(parts[j]).1
  {
    if j > 0 {
      LookupFirstMatch(parts[1..], key, j - 1);
    }
  }

  /** Parts after a matching one are never examined. */
  lemma {:induction false} LookupIgnoresLater(parts: seq<string>, more: seq<string>, key: string, j: nat)
    requires j < |parts| && Name(parts[j]) == key
    ensures Lookup(parts + more, key) == Lookup(parts, key)
  {
    assert (parts + more)[0] == parts[0];
    if Name(parts[0]) != key {
      assert parts[1..][j - 1] == parts[j];
      assert (parts + more)[1..] == parts[1..] + more;
      LookupIgnoresLater(parts[1..], more, key, j - 1);
    }
  }

  /** `query_get`. */
  function QueryGet(uri: Uri, key: string): (r: Option<string>)
    ensures uri.query.None? ==> r.None?
  {
    match uri.query
    case None => None
    case Some(q) => Lookup(SplitOn(q, '&'), key)
  }

  /** Nothing is decoded: a value found is a piece of the raw query text. */
  lemma QueryValueIsRaw(uri: Uri, key: string)
    requires QueryGet(uri, key).Some?
    ensures uri.query.Some? && IsInfix(QueryGet(uri, key).value, uri.query.value)
  {
    var q := uri.query.value;
    var parts := SplitOn(q, '&');
    var v := QueryGet(uri, key).value;
    var j :| 0 <= j < |parts| && Name(parts[j]) == key && SplitPair(parts[j]).1 == Some(v);
    SplitPieceIsInfix(q, '&', j);
    ValueIsInfixOfPart(parts[j]);
    InfixTransitive(v, parts[j], q);
  }

  lemma ValueIsInfixOfPart(part: string)
    requires SplitPair(part).1.Some?
    ensures IsInfix(SplitPair(part).1.value, part)
  {
    var n := SplitPair(part).0;
    var v := SplitPair(part).1.value;
    assert part == n + "=" + v;
    assert part[|n| + 1..|n| + 1 + |v|] == v;
    assert InfixAt(v, part, |n| + 1);
  }

  /** A query that begins with `key=value` answers `value` (given neither holds a separator). */
  lemma QueryGetLeading(path: string, key: string, value: string, rest: Option<string>)
    requires '&' !in key && '=' !in key && '&' !in value
    ensures QueryGet(Uri(path, Some(key + "=" + value + (if rest.Some? then "&" + rest.value else ""))), key)
      == Some(value)
  {
    var first := key + "=" + value;
    assert '&' !in first;
    var q := first + (if rest.Some? then "&" + rest.value else "");
    if rest.Some? {
      assert q == first + ['&'] + rest.value;
      FindAfterPrefix(first, '&', rest.value);
      assert q[..|first|] == first;
      assert SplitOn(q, '&')[0] == first;
    } else {
      assert FindChar(q, '&').None?;
      assert SplitOn(q, '&')[0] == first;
    }
    FindAfterPrefix(key, '=', value);
    assert first[..|key|] == key;
    assert first[|key| + 1..] == value;
    assert SplitPair(first) == (key, Some(value));
  }
}
