/**
 * Request headers as the proxy reads them: the API key a client presents
 * (`extract_api_key`), the optional proxy and admin tokens
 * (`authorize_proxy`, `authorize_admin_header`), and the header set sent on
 * to an upstream (`sanitize_hop_headers` plus the `Authorization` swap in
 * `forward`).
 *
 * A header map holds, for each lower-case header name, the raw bytes of its
 * first value: `HeaderMap::get` never looks past the first.
 */
module Headers {
  import opened Common
  import opened Text
  import opened Seqs

  type HeaderMap = map<string, seq<byte>>

  /** `HeaderValue::to_str` accepts tab and the visible ASCII range. */
  predicate IsVisibleAscii(b: byte) {
    b == 9 || 32 <= b < 127
  }

  /** `HeaderValue::to_str`: the value as text when every byte is visible ASCII. */
  function ToStr(v: seq<byte>): (r: Option<string>)
    ensures r.Some? <==> forall i :: 0 <= i < |v| ==> IsVisibleAscii(v[i])
    ensures r.Some? ==> |r.value| == |v| && forall i :: 0 <= i < |v| ==> r.value[i] as int == v[i]
  {
    if forall i :: 0 <= i < |v| ==> IsVisibleAscii(v[i]) then Some(seq(|v|, i requires 0 <= i < |v| => v[i] as char))
    else None
  }

  /** The header text a string becomes on the wire, for text that is visible ASCII. */
  function AsciiBytes(s: string): (v: seq<byte>)
    requires forall i :: 0 <= i < |s| ==> s[i] as int < 256
    ensures |v| == |s| && forall i :: 0 <= i < |s| ==> v[i] == s[i] as int
  {
    seq(|s|, i requires 0 <= i < |s| => s[i] as int as byte)
  }

  predicate VisibleText(s: string) {
    forall i :: 0 <= i < |s| ==> s[i] == '\t' || (' ' <= s[i] <= '~')
  }

  /** Visible text survives the trip to bytes and back through `to_str`. */
  lemma ToStrAsciiBytes(s: string)
    requires VisibleText(s)
    ensures ToStr(AsciiBytes(s)) == Some(s)
  {
    var v := AsciiBytes(s);
    assert forall i :: 0 <= i < |v| ==> IsVisibleAscii(v[i]);
    assert ToStr(v).value == s;
  }

  /** A header's text, or nothing when it is absent or not visible ASCII. */
  function HeaderText(h: HeaderMap, name: string): (r: Option<string>)
    ensures r.Some? ==> name in h && ToStr(h[name]) == r
    ensures name in h && ToStr(h[name]).Some? ==> r.Some?
  {
    if name in h then ToStr(h[name]) else None
  }

  /** The `Authorization` value with a leading `Bearer ` or `bearer ` removed, then trimmed. */
  function BearerToken(raw: string): (key: string)
    ensures Trimmed(key)
  {
    var stripped :=
      match StripPrefix(raw, "Bearer ")
      case Some(rest) => rest
      case None =>
        match StripPrefix(raw, "bearer ")
        case Some(rest) => rest
        case None => raw;
    Trim(stripped)
  }

  /**
   * `extract_api_key`: a non-blank `x-api-key` wins, trimmed; otherwise the
   * `Authorization` header, trimmed, with a `Bearer `/`bearer ` prefix
   * dropped and trimmed again. A header that is not visible ASCII counts as
   * absent, and a blank result is no key.
   */
  function ExtractApiKey(h: HeaderMap): (r: Option<string>)
    ensures r.Some? ==> |r.value| > 0 && Trimmed(r.value)
    ensures (match HeaderText(h, "x-api-key") case Some(s) => |Trim(s)| > 0 case None => false) ==>
      r == Some(Trim(HeaderText(h, "x-api-key").value))
    ensures HeaderText(h, "x-api-key").None? && HeaderText(h, "authorization").None? ==> r.None?
    ensures (match HeaderText(h, "x-api-key") case Some(s) => |Trim(s)| == 0 case None => true) ==>
      r == (match HeaderText(h, "authorization")
            case None => None
            case Some(s) => if |BearerToken(Trim(s))| > 0 then Some(BearerToken(Trim(s))) else None)
  {
    var apiKey := HeaderText(h, "x-api-key");
    if apiKey.Some? && |Trim(apiKey.value)| > 0 then Some(Trim(apiKey.value))
    else
      match HeaderText(h, "authorization")
      case None => None
      case Some(s) =>
        var raw := Trim(s);
        if |raw| == 0 then None
        else
          var key := BearerToken(raw);
          if |key| > 0 then Some(key) else None
  }

  /** The `Bearer <key>` header the proxy itself sends names the key it carries. */
  lemma ExtractBearer(h: HeaderMap, key: string)
    requires |key| > 0 && Trimmed(key) && VisibleText(key)
    requires "x-api-key" !in h
    ensures ExtractApiKey(h["authorization" := AsciiBytes("Bearer " + key)]) == Some(key)
  {
    var v := "Bearer " + key;
    BearerHeaderText(key);
    HeaderTextOfSet(h, "authorization", v);
    var h' := h["authorization" := AsciiBytes(v)];
    assert "x-api-key" !in h';
    FromAuthorization(h', v);
  }

  /** A header set to visible text reads back as that text. */
  lemma HeaderTextOfSet(h: HeaderMap, name: string, s: string)
    requires VisibleText(s)
    ensures HeaderText(h[name := AsciiBytes(s)], name) == Some(s)
  {
    ToStrAsciiBytes(s);
  }

  /** Without a usable `x-api-key`, the key is what `BearerToken` makes of the trimmed `Authorization` text. */
  lemma FromAuthorization(h: HeaderMap, v: string)
    requires HeaderText(h, "x-api-key").None? && HeaderText(h, "authorization") == Some(v)
    requires |Trim(v)| > 0
    ensures ExtractApiKey(h) == if |BearerToken(Trim(v))| > 0 then Some(BearerToken(Trim(v))) else None
  {
  }

  /** `Bearer <key>` is visible text, already trimmed, and `BearerToken` gives back the key. */
  lemma BearerHeaderText(key: string)
    requires |key| > 0 && Trimmed(key) && VisibleText(key)
    ensures VisibleText("Bearer " + key)
    ensures Trim("Bearer " + key) == "Bearer " + key
    ensures BearerToken("Bearer " + key) == key
  {
    var v := "Bearer " + key;
    assert VisibleText(v) by {
      assert forall i :: 0 <= i < |v| ==> v[i] == if i < 7 then "Bearer "[i] else key[i - 7];
    }
    assert Trimmed(v) by {
      assert v[0] == 'B' && v[|v| - 1] == key[|key| - 1];
    }
    TrimOfTrimmed(v);
    assert v[..7] == "Bearer " && v[7..] == key;
    assert StripPrefix(v, "Bearer ") == Some(key);
    TrimOfTrimmed(key);
  }

  /** A usable `x-api-key` hides `Authorization`, whatever that header holds. */
  lemma ApiKeyPrecedence(h: HeaderMap, apiKey: string, auth: seq<byte>)
    requires VisibleText(apiKey) && |Trim(apiKey)| > 0
    ensures ExtractApiKey(h["x-api-key" := AsciiBytes(apiKey)]["authorization" := auth]) == Some(Trim(apiKey))
  {
    var h1 := h["x-api-key" := AsciiBytes(apiKey)];
    HeaderTextOfSet(h, "x-api-key", apiKey);
    var h' := h1["authorization" := auth];
    assert h'["x-api-key"] == h1["x-api-key"];
    assert HeaderText(h', "x-api-key") == Some(apiKey);
  }

  // ---- token sets ----

  /** The trimmed, non-blank entries of a token list. */
  function NonBlankTrimmed(ts: seq<string>): (s: set<string>)
    ensures forall t :: t in s ==> |t| > 0 && Trimmed(t)
    ensures forall i :: 0 <= i < |ts| && |Trim(ts[i])| > 0 ==> Trim(ts[i]) in s
    ensures forall t :: t in s ==> exists i :: 0 <= i < |ts| && t == Trim(ts[i])
  {
    set i | 0 <= i < |ts| && |Trim(ts[i])| > 0 :: Trim(ts[i])
  }

  /** The set is empty exactly when every entry is blank. */
  lemma NonBlankTrimmedEmpty(ts: seq<string>)
    ensures NonBlankTrimmed(ts) == {} <==> forall i :: 0 <= i < |ts| ==> |Trim(ts[i])| == 0
  {
    if NonBlankTrimmed(ts) != {} {
      var t :| t in NonBlankTrimmed(ts);
      var i :| 0 <= i < |ts| && |Trim(ts[i])| > 0 && Trim(ts[i]) == t;
    }
  }

  /**
   * How `RouterState::new` turns the configured `proxy_tokens` and
   * `usage_inject_upstreams` lists into sets: entries trimmed, blanks
   * dropped, and no set at all when nothing is left.
   */
  function OptionalTrimmedSet(v: Option<seq<string>>): (r: Option<set<string>>)
    ensures r.Some? ==> |r.value| > 0
    ensures r.Some? ==> forall t :: t in r.value ==> |t| > 0 && Trimmed(t)
    ensures v.None? ==> r.None?
    ensures v.Some? ==> (r.None? <==> forall i :: 0 <= i < |v.value| ==> |Trim(v.value[i])| == 0)
    ensures v.Some? && r.Some? ==> forall i :: 0 <= i < |v.value| && |Trim(v.value[i])| > 0 ==> Trim(v.value[i]) in r.value
    ensures r.Some? ==> v.Some? && forall t :: t in r.value ==> exists i :: 0 <= i < |v.value| && t == Trim(v.value[i])
  {
    match v
    case None => None
    case Some(ts) =>
      NonBlankTrimmedEmpty(ts);
      var s := NonBlankTrimmed(ts);
      if s == {} then None else Some(s)
  }

  /** `RouterState::new` keeps admin tokens that are not empty, without trimming them. */
  function AdminTokenSet(ts: seq<string>): (r: set<string>)
    ensures forall t :: t in r <==> t in ts && |t| > 0
  {
    set t | t in ts && |t| > 0
  }

  /** `authorize_proxy`: open when no proxy tokens are configured; otherwise `x-proxy-token` must be one of them exactly. */
  function AuthorizeProxy(tokens: Option<set<string>>, h: HeaderMap): (r: bool)
    ensures tokens.None? ==> r
    ensures tokens.Some? ==> (r <==> exists t :: t in tokens.value && HeaderText(h, "x-proxy-token") == Some(t))
  {
    match tokens
    case None => true
    case Some(ts) =>
      match HeaderText(h, "x-proxy-token")
      case None => false
      case Some(s) => s in ts
  }

  /** `authorize_admin_header`: `x-admin-token` must be one of the admin tokens exactly. */
  function AuthorizeAdmin(tokens: set<string>, h: HeaderMap): (r: bool)
    ensures r <==> exists t :: t in tokens && HeaderText(h, "x-admin-token") == Some(t)
  {
    match HeaderText(h, "x-admin-token")
    case None => false
    case Some(s) => s in tokens
  }

  /**
   * Against the configured list: with no non-blank entry every request
   * passes; otherwise `x-proxy-token` must read as exactly the trim of one
   * non-blank entry.
   */
  lemma ProxyTokenAccepted(v: Option<seq<string>>, h: HeaderMap)
    ensures AuthorizeProxy(OptionalTrimmedSet(v), h) <==>
      || OptionalTrimmedSet(v).None?
      || (v.Some? && exists i :: (0 <= i < |v.value| && |Trim(v.value[i])| > 0 &&
            HeaderText(h, "x-proxy-token") == Some(Trim(v.value[i]))))
  {
  }

  /** Against the configured list: `x-admin-token` must read as exactly one non-empty entry, untrimmed. */
  lemma AdminTokenAccepted(ts: seq<string>, h: HeaderMap)
    ensures AuthorizeAdmin(AdminTokenSet(ts), h) <==>
      exists i :: 0 <= i < |ts| && |ts[i]| > 0 && HeaderText(h, "x-admin-token") == Some(ts[i])
  {
  }

  /**
   * The proxy token is compared exactly, not trimmed: a presented token with
   * whitespace at either end never matches a configured one.
   */
  lemma ProxyTokenNotTrimmed(v: Option<seq<string>>, h: HeaderMap)
    requires OptionalTrimmedSet(v).Some? && AuthorizeProxy(OptionalTrimmedSet(v), h)
    ensures HeaderText(h, "x-proxy-token").Some?
    ensures var s := HeaderText(h, "x-proxy-token").value; |s| > 0 && Trimmed(s)
  {
  }

  /** `should_inject_usage`: the upstream is listed in `usage_inject_upstreams`. */
  function ShouldInjectUsage(inject: Option<set<string>>, upstreamId: string): (r: bool)
    ensures r <==> inject.Some? && upstreamId in inject.value
  {
    inject.Some? && upstreamId in inject.value
  }

  /** Against the configured list: usage is injected exactly for an id that is the trim of some non-blank entry. */
  lemma InjectUsageFor(v: Option<seq<string>>, upstreamId: string)
    ensures ShouldInjectUsage(OptionalTrimmedSet(v), upstreamId) <==>
      v.Some? && exists i :: 0 <= i < |v.value| && |Trim(v.value[i])| > 0 && Trim(v.value[i]) == upstreamId
  {
  }

  // ---- the request sent upstream ----

  /** The names `sanitize_hop_headers` removes: hop-by-hop headers and the proxy's own tokens. */
  const HOP_HEADERS: set<string> := {
    "connection", "host", "proxy-connection", "proxy-authenticate", "proxy-authorization",
    "te", "trailer", "transfer-encoding", "upgrade", "x-proxy-token", "x-admin-token"
  }

  /** `sanitize_hop_headers`. */
  function SanitizeHopHeaders(h: HeaderMap): (r: HeaderMap)
    ensures forall n :: n in r <==> n in h && n !in HOP_HEADERS
    ensures forall n :: n in r ==> r[n] == h[n]
  {
    map n | n in h && n !in HOP_HEADERS :: h[n]
  }

  /**
   * The headers of one upstream attempt in `forward`: the client's headers,
   * sanitized, with `Authorization` replaced by the selected key's header
   * and, when the body was rewritten, `content-length` set to its new length.
   */
  function OutgoingHeaders(h: HeaderMap, authHeader: seq<byte>, rewrittenLength: Option<nat>): (r: HeaderMap)
    ensures "authorization" in r && r["authorization"] == authHeader
    ensures "x-proxy-token" !in r && "x-admin-token" !in r && "host" !in r
    ensures rewrittenLength.Some? ==> "content-length" in r && r["content-length"] == AsciiBytes(Decimal(rewrittenLength.value))
    ensures forall n :: n in h && n !in HOP_HEADERS && n != "authorization" && (rewrittenLength.Some? ==> n != "content-length") ==>
      n in r && r[n] == h[n]
    ensures forall n :: n in r ==> n == "authorization" || n == "content-length" || (n in h && n !in HOP_HEADERS)
  {
    var base := SanitizeHopHeaders(h)["authorization" := authHeader];
    match rewrittenLength
    case None => base
    case Some(n) =>
      base["content-length" := AsciiBytes(Decimal(n))]
  }
}
