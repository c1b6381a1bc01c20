/**
 * Token usage: reading the `usage` object of an OpenAI-style response
 * (`extract_usage_from_value`), asking a streaming chat request to report
 * usage (`ensure_stream_usage`), and picking usage out of a server-sent
 * event stream as it arrives (`parse_sse_usage`).
 */
module Usage {
  import opened Common
  import opened Text
  import opened JsonValue

  datatype UsageTokens = UsageTokens(prompt: u64, completion: u64, total: u64)

  // ---- extract_usage_from_value ----

  /** The three counters as `as_u64` reads them from a `usage` value. */
  function Field(usage: Json, name: string): (r: Option<u64>)
    ensures r.Some? <==> (usage.JObj? && name in usage.fields && usage.fields[name].JInt? &&
      0 <= usage.fields[name].i <= U64_MAX)
  {
    AsU64(Get(usage, name))
  }

  /**
   * `extract_usage_from_value`: nothing without a `usage` member or when none
   * of the three counters is a `u64`; otherwise each missing counter is 0,
   * except that a missing total is prompt + completion when both are present
   * (the `u64` sum wraps, as release builds do).
   */
  function ExtractUsage(v: Json): (r: Option<UsageTokens>)
    ensures Get(v, "usage").None? ==> r.None?
    ensures Get(v, "usage").Some? ==>
      var u := Get(v, "usage").value;
      var p := Field(u, "prompt_tokens");
      var c := Field(u, "completion_tokens");
      var t := Field(u, "total_tokens");
      && (r.None? <==> p.None? && c.None? && t.None?)
      && (r.Some? ==> r.value.prompt == p.GetOr(0) && r.value.completion == c.GetOr(0))
      && (r.Some? && t.Some? ==> r.value.total == t.value)
      && (r.Some? && t.None? && p.Some? && c.Some? ==> r.value.total == (p.value + c.value) % U64_MODULUS)
      && (r.Some? && t.None? && (p.None? || c.None?) ==> r.value.total == 0)
  {
    match Get(v, "usage")
    case None => None
    case Some(u) =>
      var p := Field(u, "prompt_tokens");
      var c := Field(u, "completion_tokens");
      var t :=
        if Field(u, "total_tokens").Some? then Field(u, "total_tokens")
        else if p.Some? && c.Some? then Some(WrappingAddU64(p.value, c.value))
        else None;
      if p.None? && c.None? && t.None? then None
      else Some(UsageTokens(p.GetOr(0), c.GetOr(0), t.GetOr(0)))
  }

  /** The `usage` object of a response body. */
  function UsageBody(prompt: Option<u64>, completion: Option<u64>, total: Option<u64>): (v: Json)
    ensures v.JObj? && "usage" in v.fields
  {
    var fields :=
      (if prompt.Some? then map["prompt_tokens" := JInt(prompt.value)] else map[]) +
      (if completion.Some? then map["completion_tokens" := JInt(completion.value)] else map[]) +
      (if total.Some? then map["total_tokens" := JInt(total.value)] else map[]);
    JObj(map["usage" := JObj(fields)])
  }

  /** A body that reports all three counters is read back exactly. */
  lemma ExtractUsageBody(p: u64, c: u64, t: u64)
    ensures ExtractUsage(UsageBody(Some(p), Some(c), Some(t))) == Some(UsageTokens(p, c, t))
  {
    var u := UsageBody(Some(p), Some(c), Some(t)).fields["usage"];
    assert Field(u, "prompt_tokens") == Some(p);
    assert Field(u, "completion_tokens") == Some(c);
    assert Field(u, "total_tokens") == Some(t);
  }

  /** Without a total, a sum that fits is the total; a lone counter gives total 0. */
  lemma ExtractUsageFallback(p: u64, c: u64)
    ensures p + c <= U64_MAX ==> ExtractUsage(UsageBody(Some(p), Some(c), None)) == Some(UsageTokens(p, c, p + c))
    ensures ExtractUsage(UsageBody(Some(p), None, None)) == Some(UsageTokens(p, 0, 0))
    ensures ExtractUsage(UsageBody(None, None, None)).None?
  {
    var u := UsageBody(Some(p), Some(c), None).fields["usage"];
    assert Field(u, "prompt_tokens") == Some(p);
    assert Field(u, "completion_tokens") == Some(c);
    assert Field(u, "total_tokens").None?;
    var u1 := UsageBody(Some(p), None, None).fields["usage"];
    assert Field(u1, "prompt_tokens") == Some(p);
    assert Field(u1, "completion_tokens").None?;
    assert Field(u1, "total_tokens").None?;
    var u0 := UsageBody(None, None, None).fields["usage"];
    assert Field(u0, "prompt_tokens").None?;
  }

  // ---- ensure_stream_usage ----

  /** `stream` read with `as_bool`, defaulting to false. */
  predicate Streaming(v: Json) {
    AsBool(Get(v, "stream")).GetOr(false)
  }

  /** A request that already asks for usage: `stream_options.include_usage` is `true`. */
  predicate AsksForUsage(v: Json) {
    && v.JObj? && "stream_options" in v.fields
    && v.fields["stream_options"].JObj?
    && "include_usage" in v.fields["stream_options"].fields
    && v.fields["stream_options"].fields["include_usage"] == JBool(true)
  }

  /** A streaming object request whose `stream_options` is absent or an object: the requests the rewrite applies to. */
  predicate Rewritable(v: Json) {
    v.JObj? && Streaming(v) && ("stream_options" in v.fields ==> v.fields["stream_options"].JObj?)
  }

  /** The `stream_options` object of a rewritable request, `{}` when absent. */
  function Options(v: Json): (o: map<string, Json>)
    requires Rewritable(v)
  {
    if "stream_options" in v.fields then v.fields["stream_options"].fields else map[]
  }

  /** The request with `stream_options.include_usage` set to `true` and nothing else changed. */
  function WithUsage(v: Json): (w: Json)
    requires Rewritable(v)
    ensures AsksForUsage(w) && Rewritable(w)
  {
    JObj(v.fields["stream_options" := JObj(Options(v)["include_usage" := JBool(true)])])
  }

  /**
   * `ensure_stream_usage` as the source writes it. When `stream_options`
   * is absent, or lacks `include_usage`, the `or_insert` calls add
   * `include_usage: true` to the value but the function reports `false`, so
   * `forward` never re-encodes the body and the upstream is not asked for
   * usage.
   */
  function EnsureStreamUsageAsWritten(v: Json): (r: (Json, bool))
    ensures r.1 ==> Rewritable(v) && r.0 == WithUsage(v)
    ensures r.1 <==> Rewritable(v) && "include_usage" in Options(v) && Options(v)["include_usage"] != JBool(true)
    ensures !Rewritable(v) ==> r == (v, false)
  {
    if !Rewritable(v) then (v, false)
    else
      var opts := Options(v);
      var inc := if "include_usage" in opts then opts["include_usage"] else JBool(true);
      if inc == JBool(true) then
        (JObj(v.fields["stream_options" := JObj(opts["include_usage" := inc])]), false)
      else (WithUsage(v), true)
  }

  /**
   * The evidently intended `ensure_stream_usage`: a rewritable request that
   * does not already ask for usage is made to, and the result is `true`
   * exactly when the value changed.
   */
  function EnsureStreamUsage(v: Json): (r: (Json, bool))
    ensures r.1 <==> r.0 != v
    ensures r.1 <==> Rewritable(v) && !AsksForUsage(v)
    ensures Rewritable(v) ==> r.0 == WithUsage(v) && AsksForUsage(r.0)
    ensures !Rewritable(v) ==> r.0 == v
  {
    if !Rewritable(v) || AsksForUsage(v) then
      assert AsksForUsage(v) && Rewritable(v) ==> WithUsage(v) == v by {
        if AsksForUsage(v) && Rewritable(v) {
          assert Options(v)["include_usage" := JBool(true)] == Options(v);
          assert v.fields["stream_options" := JObj(Options(v))] == v.fields;
        }
      }
      (v, false)
    else
      var w := WithUsage(v);
      assert w != v by {
        assert AsksForUsage(w);
      }
      (w, true)
  }

  /** A second call finds nothing left to do. */
  lemma EnsureStreamUsageIdempotent(v: Json)
    ensures EnsureStreamUsage(EnsureStreamUsage(v).0) == (EnsureStreamUsage(v).0, false)
  {
  }

  /** The rewrite touches only `stream_options.include_usage`. */
  lemma EnsureStreamUsageFrame(v: Json)
    requires Rewritable(v)
    ensures var w := EnsureStreamUsage(v).0;
      && w.JObj? && (forall n :: n in v.fields && n != "stream_options" ==> n in w.fields && w.fields[n] == v.fields[n])
      && (forall n :: n in Options(v) && n != "include_usage" ==> n in Options(w) && Options(w)[n] == Options(v)[n])
      && Streaming(w)
  {
  }

  /** When `include_usage` is already present the source's version and the intended one agree. */
  lemma AsWrittenAgreesWhenPresent(v: Json)
    requires Rewritable(v) && "include_usage" in Options(v)
    ensures EnsureStreamUsageAsWritten(v) == EnsureStreamUsage(v)
  {
    if Options(v)["include_usage"] == JBool(true) {
      assert Options(v)["include_usage" := JBool(true)] == Options(v);
      assert v.fields["stream_options" := JObj(Options(v))] == v.fields;
    }
  }

  /** `{"stream": true}`: the source adds `include_usage` to the value yet reports no change. */
  lemma AsWrittenReportsNoChange()
    ensures var v := JObj(map["stream" := JBool(true)]);
      var r := EnsureStreamUsageAsWritten(v);
      && r.0 != v && !r.1
      && AsksForUsage(r.0)
      && EnsureStreamUsage(v).1
  {
    var v := JObj(map["stream" := JBool(true)]);
    assert Rewritable(v);
    var r := EnsureStreamUsageAsWritten(v);
    assert "stream_options" in r.0.fields;
  }

  // ---- parse_sse_usage ----

  /**
   * The usage one event-stream line carries: a `data:` line (after dropping
   * trailing `\r`) whose trimmed payload is not `[DONE]`, mentions
   * `"usage"`, parses as JSON and holds a usage object.
   */
  function LineUsage(line: string, parseJson: string -> Option<Json>): (r: Option<UsageTokens>)
    ensures r.Some? ==> StartsWith(TrimEndMatchesChar(line, '\r'), "data:")
  {
    match StripPrefix(TrimEndMatchesChar(line, '\r'), "data:")
    case None => None
    case Some(rest) =>
      var data := Trim(rest);
      if data == "[DONE]" || !ContainsSubstring(data, "\"usage\"") then None
      else
        match parseJson(data)
        case None => None
        case Some(v) => ExtractUsage(v)
  }

  /** The last present entry. */
  function LastSome<T>(xs: seq<Option<T>>): Option<T> {
    if |xs| == 0 then None
    else if xs[|xs| - 1].Some? then xs[|xs| - 1]
    else LastSome(xs[..|xs| - 1])
  }

  /** Entry `i` is present and every later one is absent. */
  predicate IsLastSome<T>(xs: seq<Option<T>>, i: int) {
    0 <= i < |xs| && xs[i].Some? && forall j :: i < j < |xs| ==> xs[j].None?
  }

  /** `LastSome` is present exactly when some entry is, and then it is the last present entry. */
  lemma {:induction false} LastSomeSpec<T>(xs: seq<Option<T>>)
    ensures LastSome(xs).Some? <==> exists i :: 0 <= i < |xs| && xs[i].Some?
    ensures LastSome(xs).Some? ==> exists i :: IsLastSome(xs, i) && xs[i] == LastSome(xs)
  {
    if |xs| > 0 {
      var n := |xs| - 1;
      var pre := xs[..n];
      LastSomeSpec(pre);
      if xs[n].Some? {
        assert IsLastSome(xs, n);
      } else {
        if exists i :: 0 <= i < |xs| && xs[i].Some? {
          var i :| 0 <= i < |xs| && xs[i].Some?;
          assert pre[i] == xs[i];
        }
        if LastSome(pre).Some? {
          var i :| IsLastSome(pre, i) && pre[i] == LastSome(pre);
          assert IsLastSome(xs, i);
        }
      }
    }
  }

  lemma LastSomeSnoc<T>(xs: seq<Option<T>>, x: Option<T>)
    ensures LastSome(xs + [x]) == if x.Some? then x else LastSome(xs)
  {
    assert (xs + [x])[..|xs|] == xs;
  }

  /** The usage each line carries. */
  function Usages(lines: seq<string>, parseJson: string -> Option<Json>): (us: seq<Option<UsageTokens>>)
    ensures |us| == |lines| && forall i :: 0 <= i < |lines| ==> us[i] == LineUsage(lines[i], parseJson)
  {
    seq(|lines|, i requires 0 <= i < |lines| => LineUsage(lines[i], parseJson))
  }

  /** The usage of the last line that carries one. */
  function LastUsage(lines: seq<string>, parseJson: string -> Option<Json>): Option<UsageTokens> {
    LastSome(Usages(lines, parseJson))
  }

  /** `LastUsage` finds usage exactly when some line carries it, and then it is the last such line's. */
  lemma LastUsageSpec(lines: seq<string>, parseJson: string -> Option<Json>)
    ensures LastUsage(lines, parseJson).Some? <==> exists i :: 0 <= i < |lines| && LineUsage(lines[i], parseJson).Some?
    ensures LastUsage(lines, parseJson).Some? ==> exists i :: (0 <= i < |lines| &&
      LineUsage(lines[i], parseJson) == LastUsage(lines, parseJson) &&
      forall j :: i < j < |lines| ==> LineUsage(lines[j], parseJson).None?)
  {
    var us := Usages(lines, parseJson);
    LastSomeSpec(us);
    if LastSome(us).Some? {
      var i :| IsLastSome(us, i) && us[i] == LastSome(us);
      assert LineUsage(lines[i], parseJson) == LastUsage(lines, parseJson);
    }
  }

  /** The complete lines of a text: every `\n`-terminated piece, without its `\n`. */
  function CompleteLines(text: string): (ls: seq<string>) {
    var pieces := SplitOn(text, '\n');
    pieces[..|pieces| - 1]
  }

  /** What is left after the last `\n`: the partial line `parse_sse_usage` keeps buffered. */
  function PartialLine(text: string): (p: string)
    ensures '\n' !in p
  {
    var pieces := SplitOn(text, '\n');
    pieces[|pieces| - 1]
  }

  /**
   * `parse_sse_usage`: the chunk (already decoded to text) is appended to the
   * buffer, and every complete line is taken out of it in order. The result
   * is the usage of the last of those lines that carries one, and the buffer
   * keeps only the trailing partial line.
   */
  method ParseSseUsage(buf: string, chunk: string, parseJson: string -> Option<Json>)
    returns (buf': string, found: Option<UsageTokens>)
    ensures '\n' !in buf'
    ensures buf' == PartialLine(buf + chunk)
    ensures found == LastUsage(CompleteLines(buf + chunk), parseJson)
    ensures JoinWith(CompleteLines(buf + chunk) + [buf'], '\n') == buf + chunk
  {
    var text := buf + chunk;
    var b := text;
    found := None;
    ghost var done: seq<string> := [];
    var pos := FindChar(b, '\n');
    while pos.Some?
      invariant pos == FindChar(b, '\n')
      invariant SplitOn(text, '\n') == done + SplitOn(b, '\n')
      invariant found == LastUsage(done, parseJson)
      decreases |b|
    {
      done, b, found := SseNext(done, b, found, pos.value, parseJson);
      pos := FindChar(b, '\n');
    }
    SseFinish(text, done, b);
    buf' := b;
  }

  /** Takes the first complete line out of `b`. */
  method SseNext(ghost done: seq<string>, b: string, found: Option<UsageTokens>, pos: nat,
                 parseJson: string -> Option<Json>)
    returns (ghost done': seq<string>, b': string, found': Option<UsageTokens>)
    requires FindChar(b, '\n') == Some(pos)
    requires found == LastUsage(done, parseJson)
    ensures done + SplitOn(b, '\n') == done' + SplitOn(b', '\n')
    ensures found' == LastUsage(done', parseJson)
    ensures |b'| < |b|
  {
    var line := b[..pos];
    SplitStep(done, b, pos);
    var u := LineUsage(line, parseJson);
    found' := if u.Some? then u else found;
    UsageStep(done, line, parseJson);
    done' := done + [line];
    b' := b[pos + 1..];
  }

  lemma SplitStep(done: seq<string>, b: string, pos: nat)
    requires FindChar(b, '\n') == Some(pos)
    ensures done + SplitOn(b, '\n') == (done + [b[..pos]]) + SplitOn(b[pos + 1..], '\n')
  {
    assert SplitOn(b, '\n') == [b[..pos]] + SplitOn(b[pos + 1..], '\n');
  }

  lemma UsageStep(done: seq<string>, line: string, parseJson: string -> Option<Json>)
    ensures LastUsage(done + [line], parseJson) ==
      if LineUsage(line, parseJson).Some? then LineUsage(line, parseJson) else LastUsage(done, parseJson)
  {
    assert Usages(done + [line], parseJson) == Usages(done, parseJson) + [LineUsage(line, parseJson)];
    LastSomeSnoc(Usages(done, parseJson), LineUsage(line, parseJson));
  }

  lemma SseFinish(text: string, done: seq<string>, b: string)
    requires SplitOn(text, '\n') == done + SplitOn(b, '\n') && FindChar(b, '\n').None?
    ensures done == CompleteLines(text) && b == PartialLine(text)
    ensures JoinWith(done + [b], '\n') == text
  {
    assert SplitOn(b, '\n') == [b];
    JoinSplit(text, '\n');
  }
}
