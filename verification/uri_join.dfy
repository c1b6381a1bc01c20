/**
 * How an upstream's base URL is kept (`parse_upstream`: trailing slashes
 * dropped from the path) and how a request's path and query are joined onto
 * it (`Upstream::build_uri`). Whether the joined text is a valid
 * `PathAndQuery` is decided by the `http` crate, so it is a parameter here.
 */
module UriJoin {
  import opened Common
  import opened Text
  import opened Router

  /** `parse_upstream`: the base path with every trailing `/` removed (a lone `/` becomes empty). */
  function BasePath(rawPath: string): (p: string)
    ensures |p| == 0 || p[|p| - 1] != '/'
    ensures StartsWith(rawPath, p)
    ensures forall i :: |p| <= i < |rawPath| ==> rawPath[i] == '/'
  {
    var t := TrimEndMatchesChar(rawPath, '/');
    // The source also maps "/" to "", which the trim has already done.
    if t == "/" then "" else t
  }

  /** A base path is never left ending in `/`, so trimming it again changes nothing. */
  lemma BasePathIdempotent(rawPath: string)
    ensures BasePath(BasePath(rawPath)) == BasePath(rawPath)
  {
  }

  /** The absolute URI `build_uri` produces: the upstream's scheme and authority and a path-and-query. */
  datatype Target = Target(scheme: string, authority: string, pathAndQuery: string)

  datatype UriError = InvalidPathAndQuery(text: string)

  /** `split_once('?')`: the path before the first `?`, and the query after it if there is one. */
  function SplitQuery(pq: string): (r: (string, Option<string>))
    ensures r.1.None? ==> r.0 == pq && '?' !in pq
    ensures r.1.Some? ==> pq == r.0 + "?" + r.1.value && '?' !in r.0
  {
    match FindChar(pq, '?')
    case None => (pq, None)
    case Some(i) =>
      assert pq == pq[..i] + "?" + pq[i + 1..];
      (pq[..i], Some(pq[i + 1..]))
  }

  /** The path-and-query `build_uri` writes for a non-empty base path. */
  function Joined(basePath: string, pq: string): (j: string)
    ensures StartsWith(j, basePath)
  {
    var sq := SplitQuery(pq);
    JoinOnto(basePath, TrimStartMatches(sq.0, "/") + (if sq.1.Some? then "?" + sq.1.value else ""))
  }

  /** `rest` after `basePath`, with a `/` between them unless the base already ends in one. */
  function JoinOnto(basePath: string, rest: string): (j: string)
    ensures StartsWith(j, basePath)
  {
    if |basePath| > 0 && basePath[|basePath| - 1] == '/' then
      StartsWithConcat(basePath, rest);
      basePath + rest
    else
      StartsWithConcat(basePath, "/" + rest);
      assert basePath + "/" + rest == basePath + ("/" + rest);
      basePath + "/" + rest
  }

  /**
   * `Upstream::build_uri`: with no base path the request's path and query
   * go through as they are; otherwise they are joined onto the base path,
   * which fails when `validPathAndQuery` rejects the joined text.
   */
  function BuildUri(base: BaseUri, pq: string, validPathAndQuery: string -> bool): (r: Result<Target, UriError>)
    ensures r.Ok? ==> r.value.scheme == base.scheme && r.value.authority == base.authority
    ensures (base.path == "" || base.path == "/") ==> r == Ok(Target(base.scheme, base.authority, pq))
    ensures base.path != "" && base.path != "/" ==>
      (r.Ok? <==> validPathAndQuery(Joined(base.path, pq))) &&
      (r.Ok? ==> r.value.pathAndQuery == Joined(base.path, pq)) &&
      (r.Err? ==> r.error == InvalidPathAndQuery(Joined(base.path, pq)))
  {
    if base.path == "" || base.path == "/" then Ok(Target(base.scheme, base.authority, pq))
    else
      var joined := Joined(base.path, pq);
      if validPathAndQuery(joined) then Ok(Target(base.scheme, base.authority, joined))
      else Err(InvalidPathAndQuery(joined))
  }

  lemma StartsWithConcat(a: string, b: string)
    ensures StartsWith(a + b, a)
  {
    assert (a + b)[..|a|] == a;
  }

  /** The pieces of `Joined` when the base path does not end in `/`. */
  lemma JoinedParts(bp: string, pq: string)
    requires |bp| > 0 && bp[|bp| - 1] != '/'
    ensures Joined(bp, pq) == bp + "/" + TrimStartMatches(SplitQuery(pq).0, "/") +
      (if SplitQuery(pq).1.Some? then "?" + SplitQuery(pq).1.value else "")
  {
  }

  lemma NoCharInSuffix(s: string, t: string, c: char)
    requires c !in s && |t| <= |s| && t == s[|s| - |t|..]
    ensures c !in t
  {
  }

  /**
   * For a base path kept by `parse_upstream`, the join puts exactly one `/`
   * between the base path and the request path, and the request's query
   * comes back out of the joined text unchanged.
   */
  lemma JoinedShape(rawPath: string, pq: string)
    requires |BasePath(rawPath)| > 0 && '?' !in BasePath(rawPath)
    ensures var bp := BasePath(rawPath);
      var j := Joined(bp, pq);
      |j| > |bp| && j[..|bp| + 1] == bp + "/" &&
      (|j| > |bp| + 1 ==> j[|bp| + 1] != '/') &&
      SplitQuery(j).1 == SplitQuery(pq).1
  {
    JoinedShapeOf(BasePath(rawPath), pq);
  }

  lemma JoinedShapeOf(bp: string, pq: string)
    requires |bp| > 0 && bp[|bp| - 1] != '/' && '?' !in bp
    ensures var j := Joined(bp, pq);
      |j| > |bp| && j[..|bp| + 1] == bp + "/" &&
      (|j| > |bp| + 1 ==> j[|bp| + 1] != '/') &&
      SplitQuery(j).1 == SplitQuery(pq).1
  {
    var sq := SplitQuery(pq);
    var rest := TrimStartMatches(sq.0, "/");
    var tail := if sq.1.Some? then "?" + sq.1.value else "";
    JoinedParts(bp, pq);
    SecondSlash(bp, rest, tail);
    NoCharInSuffix(sq.0, rest, '?');
    JoinedQuery(bp, rest, sq.1);
  }

  lemma JoinedQuery(bp: string, rest: string, query: Option<string>)
    requires '?' !in bp && '?' !in rest
    ensures SplitQuery(bp + "/" + rest + (if query.Some? then "?" + query.value else "")).1 == query
  {
    var head := bp + "/" + rest;
    NoCharInJoin(bp, rest);
    if query.Some? {
      SplitQueryAt(head, query.value);
      assert bp + "/" + rest + ("?" + query.value) == head + "?" + query.value;
    } else {
      assert bp + "/" + rest + "" == head;
      assert FindChar(head, '?').None?;
    }
  }

  lemma SecondSlash(bp: string, rest: string, tail: string)
    requires !StartsWith(rest, "/") && (|tail| == 0 || tail[0] == '?')
    ensures var j := bp + "/" + rest + tail;
      |j| > |bp| && j[..|bp| + 1] == bp + "/" && (|j| > |bp| + 1 ==> j[|bp| + 1] != '/')
  {
    var j := bp + "/" + rest + tail;
    assert j[..|bp| + 1] == bp + "/";
    if |rest| > 0 {
      assert rest[..1] == [rest[0]];
      assert j[|bp| + 1] == rest[0];
    } else if |j| > |bp| + 1 {
      assert j[|bp| + 1] == tail[0];
    }
  }

  lemma NoCharInJoin(bp: string, rest: string)
    requires '?' !in bp && '?' !in rest
    ensures '?' !in bp + "/" + rest
  {
    var h := bp + "/" + rest;
    assert forall k :: 0 <= k < |h| ==> h[k] == if k < |bp| then bp[k] else if k == |bp| then '/' else rest[k - |bp| - 1];
  }

  lemma SplitQueryAt(head: string, q: string)
    requires '?' !in head
    ensures SplitQuery(head + "?" + q) == (head, Some(q))
  {
    var s := head + "?" + q;
    assert s[|head|] == '?';
    assert s[..|head|] == head;
    assert s[|head| + 1..] == q;
  }
}
