/**
 * The proxy's request path (`handle` and `forward`): the health and admin
 * short cuts, the proxy-token and billing gates, reading the body, working
 * out the model, picking an upstream and key, asking a streaming chat
 * request for usage, and the attempt loop that retries a 429 with another
 * key. The upstream itself is the `respond` parameter: it maps the attempt
 * number and the request sent to what came back.
 */
module Proxy {
  import opened Common
  import opened Text
  import opened Seqs
  import opened StrOrder
  import opened JsonValue
  import opened Config
  import opened Router
  import opened UriJoin
  import opened Headers
  import opened Body
  import opened Usage
  import opened Billing
  import opened ModelRoutes

  const MAX_REQUEST_BODY_BYTES: nat := 16 * 1024 * 1024
  const MAX_RETRIES: nat := 5

  /** What the proxy answers: an upstream response passed through, or one of its own JSON errors. */
  datatype Reply = Proxied(status: nat) | ProxyError(status: nat, code: string)

  // ---- request parsing ----

  /**
   * `parse_request_json`: no JSON for an empty body or for a `content-type`
   * that is present and not `application/json...`; otherwise whatever the
   * JSON parser makes of the body. A content type that is not visible ASCII
   * counts as absent.
   */
  function ParseRequestJson(h: HeaderMap, body: seq<byte>, parseJson: seq<byte> -> Option<Json>): (r: Option<Json>)
    ensures r.Some? ==> |body| > 0 && r == parseJson(body)
    ensures |body| > 0 && (var ct := HeaderText(h, "content-type").GetOr(""); ct == "" || StartsWith(ct, "application/json")) ==>
      r == parseJson(body)
    ensures (var ct := HeaderText(h, "content-type").GetOr(""); ct != "" && !StartsWith(ct, "application/json")) ==> r.None?
  {
    if |body| == 0 then None
    else
      var ct := HeaderText(h, "content-type").GetOr("");
      if ct != "" && !StartsWith(ct, "application/json") then None
      else parseJson(body)
  }

  /** The model named by a `/v1/models/{model}` path; an empty name is none. */
  function PathModel(path: string): (r: Option<string>)
    ensures r.Some? <==> StartsWith(path, "/v1/models/") && |path| > |"/v1/models/"|
    ensures r.Some? ==> path == "/v1/models/" + r.value
  {
    match StripPrefix(path, "/v1/models/")
    case None => None
    case Some(rest) => if |rest| == 0 then None else Some(rest)
  }

  /** The model of a request: the body's `"model"` string first, the path second. */
  function ResolveModel(json: Option<Json>, path: string): (r: Option<string>)
    ensures (json.Some? && AsStr(Get(json.value, "model")).Some?) ==> r == AsStr(Get(json.value, "model"))
    ensures !(json.Some? && AsStr(Get(json.value, "model")).Some?) ==> r == PathModel(path)
  {
    var fromBody := if json.Some? then AsStr(Get(json.value, "model")) else None;
    if fromBody.Some? then fromBody else PathModel(path)
  }

  /** A body model wins even over a path that names a different one. */
  lemma BodyModelWins(name: string, other: string)
    ensures ResolveModel(Some(JObj(map["model" := JStr(name)])), "/v1/models/" + other) == Some(name)
  {
  }

  /** `stream` in the request body, `false` when absent or not a boolean. */
  function StreamRequested(json: Option<Json>): bool {
    json.Some? && Streaming(json.value)
  }

  predicate IsChatCompletions(path: string) {
    path == "/v1/chat/completions" || path == "/v1/chat/completions/"
  }

  // ---- handle: the gates in front of forward ----

  /** Where `handle` sends a request. */
  datatype Route =
    | Health
    | ToAdmin
    | Rejected(status: nat, code: string)
    | ModelsList(billingKey: string)
    | Forwarded(billingKey: string)

  /**
   * `handle`: `GET /health` and anything under `/admin` are answered before
   * any check; then the proxy token, the presence of an API key, the key's
   * existence in billing and a non-negative balance are required, each
   * failure a 401 with its own code. `GET /v1/models[/]` lists models; every
   * other request is forwarded.
   */
  function Handle(verb: Method, path: string, h: HeaderMap, proxyTokens: Option<set<string>>, billing: Billing): (r: Route)
    ensures verb == GET && path == "/health" ==> r == Health
    ensures !(verb == GET && path == "/health") && StartsWith(path, "/admin") ==> r == ToAdmin
    ensures r.Rejected? ==> r.status == 401
    ensures (r.ModelsList? || r.Forwarded?) ==>
      && AuthorizeProxy(proxyTokens, h)
      && ExtractApiKey(h) == Some(r.billingKey)
      && GetBalance(billing, r.billingKey).Some? && GetBalance(billing, r.billingKey).value >= 0
    ensures r.ModelsList? <==> (r.ModelsList? || r.Forwarded?) && verb == GET && (path == "/v1/models" || path == "/v1/models/")
  {
    if verb == GET && path == "/health" then Health
    else if StartsWith(path, "/admin") then ToAdmin
    else if !AuthorizeProxy(proxyTokens, h) then Rejected(401, "proxy_unauthorized")
    else
      match ExtractApiKey(h)
      case None => Rejected(401, "api_key_required")
      case Some(key) =>
        match GetBalance(billing, key)
        case None => Rejected(401, "api_key_invalid")
        case Some(balance) =>
          if balance < 0 then Rejected(401, "balance_insufficient")
          else if verb == GET && (path == "/v1/models" || path == "/v1/models/") then ModelsList(key)
          else Forwarded(key)
  }

  /** The billing gates, in order: no key, unknown key, negative balance; a zero balance passes. */
  lemma BillingGates(verb: Method, path: string, h: HeaderMap, proxyTokens: Option<set<string>>, billing: Billing)
    requires !(verb == GET && path == "/health") && !StartsWith(path, "/admin") && AuthorizeProxy(proxyTokens, h)
    ensures ExtractApiKey(h).None? ==> Handle(verb, path, h, proxyTokens, billing) == Rejected(401, "api_key_required")
    ensures ExtractApiKey(h).Some? && GetBalance(billing, ExtractApiKey(h).value).None? ==>
      Handle(verb, path, h, proxyTokens, billing) == Rejected(401, "api_key_invalid")
    ensures ExtractApiKey(h).Some? && GetBalance(billing, ExtractApiKey(h).value).Some? ==>
      (Handle(verb, path, h, proxyTokens, billing) == Rejected(401, "balance_insufficient") <==>
       GetBalance(billing, ExtractApiKey(h).value).value < 0)
  {
  }

  /** A request failing the proxy token is rejected whatever its API key. */
  lemma ProxyTokenFirst(verb: Method, path: string, h: HeaderMap, proxyTokens: Option<set<string>>, billing: Billing)
    requires !(verb == GET && path == "/health") && !StartsWith(path, "/admin") && !AuthorizeProxy(proxyTokens, h)
    ensures Handle(verb, path, h, proxyTokens, billing) == Rejected(401, "proxy_unauthorized")
  {
  }

  /** `models_list`: the model names of the route table, sorted. */
  function ModelIds(routes: RoutesFile): (ids: seq<string>)
    ensures StrictlySorted(ids) && SetOf(ids) == routes.models.Keys
  {
    SortedElements(routes.models.Keys)
  }

  // ---- the attempt loop ----

  /** What one upstream attempt comes back with. */
  datatype Outcome = Answered(status: nat) | NetworkError | TimedOut

  /**
   * One request sent upstream: the selection it was built for, the joined
   * URI and the selected key's `Authorization` bytes. Everything else about
   * it is the same on every attempt of a forward: `WireHeaders` gives its
   * header set, and its body is the forward's body.
   */
  datatype Request = Request(sel: Selected, target: Target, authorization: seq<byte>)

  /**
   * The parts of a forward that stay fixed across attempts. `bearer` gives
   * the `Authorization` bytes of a key (the `Bearer <key>` header value
   * `build_key_states` prepared); `validPathAndQuery` is the `http` crate's
   * check inside `build_uri`.
   */
  datatype Attempts = Attempts(
    nowMs: u64,
    model: string,
    pathAndQuery: string,
    headers: HeaderMap,
    body: seq<byte>,
    rewrittenLength: Option<nat>,
    ban: BanConfig,
    validPathAndQuery: string -> bool,
    bearer: string -> seq<byte>,
    respond: (nat, Request) -> Outcome)

  /** The proxy's answer to an attempt's outcome when it does not retry. */
  function ReplyFor(o: Outcome): (r: Reply)
    ensures o.Answered? <==> r.Proxied?
    ensures o == NetworkError <==> r == ProxyError(502, "upstream_error")
    ensures o == TimedOut <==> r == ProxyError(504, "upstream_timeout")
  {
    match o
    case Answered(s) => Proxied(s)
    case NetworkError => ProxyError(502, "upstream_error")
    case TimedOut => ProxyError(504, "upstream_timeout")
  }

  const INVALID_URI: Reply := ProxyError(502, "invalid_upstream_uri")

  /** The key names of an upstream, in order. */
  function KeyNames(u: Upstream): (ns: seq<string>)
    ensures |ns| == |u.keys| && forall k :: 0 <= k < |u.keys| ==> ns[k] == u.keys[k].key
  {
    seq(|u.keys|, k requires 0 <= k < |u.keys| => u.keys[k].key)
  }

  /** Two upstream lists that agree on everything but counters, bans and streaks. */
  predicate SameLayout(a: seq<Upstream>, b: seq<Upstream>) {
    && |a| == |b|
    && forall j :: 0 <= j < |a| ==>
         && b[j].id == a[j].id && b[j].models == a[j].models && b[j].base == a[j].base
         && KeyNames(b[j]) == KeyNames(a[j])
  }

  /** A selection that names an existing upstream and key. */
  predicate ValidSel(ups: seq<Upstream>, sel: Selected) {
    sel.upstream < |ups| && sel.key < |ups[sel.upstream].keys|
  }

  /** The request `forward` builds for a selection: the joined URI, sanitized headers with the key's `Authorization`, the body. */
  predicate RequestFor(env: Attempts, ups: seq<Upstream>, req: Request) {
    && ValidSel(ups, req.sel)
    && BuildUri(ups[req.sel.upstream].base, env.pathAndQuery, env.validPathAndQuery) == Ok(req.target)
    && req.authorization == env.bearer(KeyNames(ups[req.sel.upstream])[req.sel.key])
  }

  /** The headers an attempt carries: the client's, sanitized, with the attempt's key and the rewritten length. */
  function WireHeaders(env: Attempts, req: Request): (h: HeaderMap)
    ensures "authorization" in h && h["authorization"] == req.authorization
    ensures "x-proxy-token" !in h && "x-admin-token" !in h && "host" !in h
  {
    OutgoingHeaders(env.headers, req.authorization, env.rewrittenLength)
  }

  /** The snapshot parts the attempt loop never touches. */
  predicate SameRouting(a: RouterSnapshot, b: RouterSnapshot) {
    && b.schedule == a.schedule && b.upstreamIndex == a.upstreamIndex
    && SameLayout(a.upstreams, b.upstreams)
  }

  /**
   * What the attempts of one forward look like, from attempt number
   * `retries` on, starting with selection `sel`: at most the remaining
   * budget of requests, each built for its own selection; nothing sent only
   * when the first URI could not be joined; every attempt but the last
   * answered 429; each retry on an upstream serving the model and on a
   * different selection from the one just banned (when a 429 ban has any
   * length); and the reply the last attempt's outcome, unless the retry's
   * URI could not be joined.
   */
  predicate Trace(env: Attempts, ups: seq<Upstream>, retries: nat, sel: Selected, sent: seq<Request>, reply: Reply) {
    && |sent| <= MAX_RETRIES + 1 - retries
    && (|sent| == 0 ==> reply == INVALID_URI)
    && (|sent| > 0 ==> sent[0].sel == sel)
    && (forall i :: 0 <= i < |sent| ==> RequestFor(env, ups, sent[i]))
    && (forall i :: 0 <= i < |sent| - 1 ==> env.respond(retries + i, sent[i]) == Answered(429))
    && (forall i :: 0 < i < |sent| ==> Serves(env, ups, sent[i].sel))
    && (|sent| > 0 ==> (var last := env.respond(retries + |sent| - 1, sent[|sent| - 1]);
         reply == ReplyFor(last) || (reply == INVALID_URI && last == Answered(429))))
    && (env.ban.rateLimitMs > 0 && env.nowMs < U64_MAX ==>
         forall i :: 0 <= i < |sent| - 1 ==> sent[i].sel != sent[i + 1].sel)
  }

  /** The selection names an upstream serving the requested model. */
  predicate Serves(env: Attempts, ups: seq<Upstream>, sel: Selected) {
    sel.upstream < |ups| && env.model in ups[sel.upstream].models
  }

  /**
   * The attempt loop of `forward`, from attempt number `retries` on. Each
   * attempt joins the URI (a failure is a 502 with nothing sent), sends the
   * request and reacts: a network error bans the upstream and answers 502,
   * a timeout the same with 504, and an HTTP status goes through
   * `on_upstream_status`. A 429 with retries left re-runs
   * `select_for_model` and, when that finds something, tries again;
   * everything else is passed back.
   */
  method ForwardFrom(env: Attempts, snap: RouterSnapshot, rr: u64, sel: Selected, retries: nat)
    returns (snap': RouterSnapshot, rr': u64, reply: Reply, sent: seq<Request>)
    requires SnapshotOk(snap) && ValidSel(snap.upstreams, sel) && retries <= MAX_RETRIES
    ensures SnapshotOk(snap') && SameRouting(snap, snap')
    ensures Trace(env, snap.upstreams, retries, sel, sent, reply)
    decreases MAX_RETRIES - retries, 1
  {
    var u := snap.upstreams[sel.upstream];
    var uri := BuildUri(u.base, env.pathAndQuery, env.validPathAndQuery);
    if uri.Err? {
      return snap, rr, INVALID_URI, [];
    }
    var req := Request(sel, uri.value, env.bearer(KeyNames(u)[sel.key]));
    assert RequestFor(env, snap.upstreams, req);
    var outcome := env.respond(retries, req);
    if outcome == Answered(429) && retries < MAX_RETRIES {
      snap', rr', reply, sent := RetryAfter429(env, snap, rr, req, retries);
    } else {
      snap' := Replace(snap, sel.upstream, AfterOutcome(u, sel.key, outcome, env.ban, env.nowMs));
      rr', reply, sent := rr, ReplyFor(outcome), [req];
      TraceOne(env, snap.upstreams, retries, req, reply);
    }
  }

  /**
   * After a 429 with retries left: ban the key, select again for the model
   * and, when something is ready, run the next attempt; with nothing ready
   * the 429 is passed back.
   */
  method RetryAfter429(env: Attempts, snap: RouterSnapshot, rr: u64, req: Request, retries: nat)
    returns (snap': RouterSnapshot, rr': u64, reply: Reply, sent: seq<Request>)
    requires SnapshotOk(snap) && RequestFor(env, snap.upstreams, req) && retries < MAX_RETRIES
    requires env.respond(retries, req) == Answered(429)
    ensures SnapshotOk(snap') && SameRouting(snap, snap')
    ensures |sent| > 0 && Trace(env, snap.upstreams, retries, req.sel, sent, reply)
    decreases MAX_RETRIES - retries, 0
  {
    var s3, rr3, next := BanAndReselect(env, snap, rr, req);
    match next
    case None =>
      snap', rr', reply, sent := s3, rr3, Proxied(429), [req];
      TraceOne(env, snap.upstreams, retries, req, reply);
    case Some(n) =>
      var rest;
      snap', rr', reply, rest := ForwardFrom(env, s3, rr3, n, retries + 1);
      SameRoutingTrans(snap, s3, snap');
      sent := [req] + rest;
      TraceCons(env, snap.upstreams, s3.upstreams, retries, req, n, rest, reply);
  }

  /**
   * The 429 branch before the retry: `on_upstream_status` bans the key,
   * then `select_for_model` picks again. A new selection serves the model
   * and, when the ban has any length, is not the key just banned.
   */
  method BanAndReselect(env: Attempts, snap: RouterSnapshot, rr: u64, req: Request)
    returns (s3: RouterSnapshot, rr3: u64, next: Option<Selected>)
    requires SnapshotOk(snap) && ValidSel(snap.upstreams, req.sel)
    ensures SnapshotOk(s3) && SameRouting(snap, s3)
    ensures next.Some? ==> ValidSel(s3.upstreams, next.value) && Serves(env, snap.upstreams, next.value)
    ensures next.Some? && env.ban.rateLimitMs > 0 && env.nowMs < U64_MAX ==> next.value != req.sel
  {
    var sel := req.sel;
    var u := snap.upstreams[sel.upstream];
    var s2 := Replace(snap, sel.upstream, AfterOutcome(u, sel.key, Answered(429), env.ban, env.nowMs));
    var ups3;
    ups3, rr3, next := SelectForModel(s2, env.model, rr, env.nowMs);
    s3 := s2.(upstreams := ups3);
    CountersKeepLayout(s2, ups3);
    SameRoutingTrans(snap, s2, s3);
    if next.Some? {
      BannedKeyNotReselected(env, u, sel, s2, ups3, next.value);
    }
  }

  lemma SameRoutingTrans(a: RouterSnapshot, b: RouterSnapshot, c: RouterSnapshot)
    requires SameRouting(a, b) && SameRouting(b, c)
    ensures SameRouting(a, c)
  {
  }

  /** A single attempt whose outcome is passed back. */
  lemma TraceOne(env: Attempts, ups: seq<Upstream>, retries: nat, req: Request, reply: Reply)
    requires RequestFor(env, ups, req) && retries <= MAX_RETRIES
    requires reply == ReplyFor(env.respond(retries, req))
    ensures Trace(env, ups, retries, req.sel, [req], reply)
  {
    var sent := [req];
    assert sent[|sent| - 1] == req && retries + |sent| - 1 == retries;
  }

  /** A 429 followed by the trace of the retry on another selection. */
  lemma TraceCons(env: Attempts, ups: seq<Upstream>, ups': seq<Upstream>, retries: nat, req: Request, next: Selected,
                  rest: seq<Request>, reply: Reply)
    requires RequestFor(env, ups, req) && retries < MAX_RETRIES
    requires env.respond(retries, req) == Answered(429)
    requires SameLayout(ups, ups') && Serves(env, ups, next)
    requires env.ban.rateLimitMs > 0 && env.nowMs < U64_MAX ==> next != req.sel
    requires Trace(env, ups', retries + 1, next, rest, reply)
    ensures Trace(env, ups, retries, req.sel, [req] + rest, reply)
  {
    var sent := [req] + rest;
    RequestsCarryOver(env, ups, ups', rest);
    ConsRequests(env, ups, retries, req, rest);
    ConsServes(env, ups, ups', next, req, rest);
    ConsLast(env, retries, req, rest, reply);
    ConsNeighbours(req, next, rest);
  }

  lemma ConsRequests(env: Attempts, ups: seq<Upstream>, retries: nat, req: Request, rest: seq<Request>)
    requires RequestFor(env, ups, req) && env.respond(retries, req) == Answered(429)
    requires forall i :: 0 <= i < |rest| ==> RequestFor(env, ups, rest[i])
    requires forall i :: 0 <= i < |rest| - 1 ==> env.respond(retries + 1 + i, rest[i]) == Answered(429)
    ensures forall i :: 0 <= i < |[req] + rest| ==> RequestFor(env, ups, ([req] + rest)[i])
    ensures forall i :: 0 <= i < |[req] + rest| - 1 ==> env.respond(retries + i, ([req] + rest)[i]) == Answered(429)
  {
    var sent := [req] + rest;
    forall i | 0 < i < |sent| ensures sent[i] == rest[i - 1] && RequestFor(env, ups, sent[i]) {
      assert sent[i] == rest[i - 1];
    }
    forall i | 0 < i < |sent| - 1 ensures env.respond(retries + i, sent[i]) == Answered(429) {
      assert sent[i] == rest[i - 1] && retries + i == retries + 1 + (i - 1);
    }
  }

  lemma ConsServes(env: Attempts, ups: seq<Upstream>, ups': seq<Upstream>, next: Selected, req: Request, rest: seq<Request>)
    requires SameLayout(ups, ups') && Serves(env, ups, next)
    requires |rest| > 0 ==> rest[0].sel == next
    requires forall i :: 0 < i < |rest| ==> Serves(env, ups', rest[i].sel)
    ensures forall i :: 0 < i < |[req] + rest| ==> Serves(env, ups, ([req] + rest)[i].sel)
  {
    var sent := [req] + rest;
    forall i | 0 < i < |sent| ensures Serves(env, ups, sent[i].sel) {
      assert sent[i] == rest[i - 1];
      if i > 1 {
        assert Serves(env, ups', rest[i - 1].sel);
      }
    }
  }

  lemma ConsLast(env: Attempts, retries: nat, req: Request, rest: seq<Request>, reply: Reply)
    requires env.respond(retries, req) == Answered(429)
    requires |rest| == 0 ==> reply == INVALID_URI
    requires |rest| > 0 ==> (var last := env.respond(retries + 1 + |rest| - 1, rest[|rest| - 1]);
      reply == ReplyFor(last) || (reply == INVALID_URI && last == Answered(429)))
    ensures var sent := [req] + rest; var last := env.respond(retries + |sent| - 1, sent[|sent| - 1]);
      reply == ReplyFor(last) || (reply == INVALID_URI && last == Answered(429))
  {
    var sent := [req] + rest;
    if |rest| > 0 {
      assert sent[|sent| - 1] == rest[|rest| - 1] && retries + |sent| - 1 == retries + 1 + |rest| - 1;
    } else {
      assert sent[|sent| - 1] == req && retries + |sent| - 1 == retries;
    }
  }

  lemma ConsNeighbours(req: Request, next: Selected, rest: seq<Request>)
    requires |rest| > 0 ==> rest[0].sel == next
    ensures forall i :: 0 <= i < |[req] + rest| - 1 ==>
      (([req] + rest)[i].sel != ([req] + rest)[i + 1].sel <==>
       (if i == 0 then req.sel != next else rest[i - 1].sel != rest[i].sel))
  {
    var sent := [req] + rest;
    forall i | 0 <= i < |sent| - 1
      ensures sent[i].sel != sent[i + 1].sel <==> (if i == 0 then req.sel != next else rest[i - 1].sel != rest[i].sel)
    {
      assert sent[i + 1] == rest[i];
      if i > 0 {
        assert sent[i] == rest[i - 1];
      }
    }
  }

  /** The upstream's state after one attempt's outcome: `on_upstream_status`, or `on_network_error`/`on_timeout`. */
  function AfterOutcome(u: Upstream, key: nat, o: Outcome, ban: BanConfig, nowMs: u64): (r: Upstream)
    requires key < |u.keys|
    ensures r.id == u.id && r.models == u.models && r.base == u.base && KeyNames(r) == KeyNames(u)
    ensures o.Answered? ==> r == OnUpstreamStatus(u, key, o.status, ban, nowMs)
    ensures !o.Answered? ==> r == OnNetworkFailure(u, ban, nowMs)
  {
    match o
    case Answered(s) => OnUpstreamStatus(u, key, s, ban, nowMs)
    case _ => OnNetworkFailure(u, ban, nowMs)
  }

  /** The snapshot with one upstream replaced by an update that keeps its layout. */
  function Replace(snap: RouterSnapshot, j: nat, u: Upstream): (s: RouterSnapshot)
    requires j < |snap.upstreams|
    requires u.id == snap.upstreams[j].id && u.models == snap.upstreams[j].models &&
      u.base == snap.upstreams[j].base && KeyNames(u) == KeyNames(snap.upstreams[j])
    requires SnapshotOk(snap)
    ensures SnapshotOk(s) && SameRouting(snap, s) && s.upstreams[j] == u
    ensures forall i :: 0 <= i < |snap.upstreams| && i != j ==> s.upstreams[i] == snap.upstreams[i]
  {
    snap.(upstreams := snap.upstreams[j := u])
  }

  /** Moving counters keeps the layout and the snapshot's well-formedness. */
  lemma CountersKeepLayout(s: RouterSnapshot, ups: seq<Upstream>)
    requires SnapshotOk(s) && SameButCounters(s.upstreams, ups)
    ensures SnapshotOk(s.(upstreams := ups)) && SameRouting(s, s.(upstreams := ups))
  {
    assert forall j :: 0 <= j < |ups| ==> KeyNames(ups[j]) == KeyNames(s.upstreams[j]);
  }

  /** A key just banned for a 429 is cooling down, so the re-selection picks another key or upstream. */
  lemma BannedKeyNotReselected(env: Attempts, u: Upstream, sel: Selected, s2: RouterSnapshot, ups3: seq<Upstream>, next: Selected)
    requires ValidSel(s2.upstreams, sel) && sel.key < |u.keys|
    requires s2.upstreams[sel.upstream] == OnUpstreamStatus(u, sel.key, 429, env.ban, env.nowMs)
    requires SameButCounters(s2.upstreams, ups3) && ValidSel(ups3, next)
    requires KeyReady(ups3[next.upstream].keys[next.key], env.nowMs)
    ensures env.ban.rateLimitMs > 0 && env.nowMs < U64_MAX ==> next != sel
  {
    if env.ban.rateLimitMs > 0 && env.nowMs < U64_MAX {
      var p := BackoffPow(u.keys[sel.key].failStreak, env.ban.maxBackoffPow);
      Pow2Monotone(0, p);
      ProductPositive(env.ban.rateLimitMs, Pow2(p));
    }
  }

  lemma ProductPositive(a: nat, b: nat)
    requires a >= 1 && b >= 1
    ensures a * b >= 1
  {
  }

  /** A request built on one state is built the same way on any state with the same layout. */
  lemma RequestsCarryOver(env: Attempts, a: seq<Upstream>, b: seq<Upstream>, reqs: seq<Request>)
    requires SameLayout(a, b)
    requires forall i :: 0 <= i < |reqs| ==> RequestFor(env, b, reqs[i])
    ensures forall i :: 0 <= i < |reqs| ==> RequestFor(env, a, reqs[i])
  {
    forall i | 0 <= i < |reqs| ensures RequestFor(env, a, reqs[i]) {
      var j := reqs[i].sel.upstream;
      assert |KeyNames(a[j])| == |KeyNames(b[j])|;
    }
  }

  /** A trace read against a state with the same layout says the same of the original. */
  lemma TraceCarryOver(env: Attempts, a: seq<Upstream>, b: seq<Upstream>, retries: nat, sel: Selected,
                       sent: seq<Request>, reply: Reply)
    requires SameLayout(a, b) && Trace(env, b, retries, sel, sent, reply)
    ensures Trace(env, a, retries, sel, sent, reply)
  {
    RequestsCarryOver(env, a, b, sent);
    forall i | 0 < i < |sent| ensures Serves(env, a, sent[i].sel) {
      assert Serves(env, b, sent[i].sel);
    }
  }

  // ---- forward ----

  /**
   * The body sent upstream and, when it was rewritten, its new length: a
   * streaming `/v1/chat/completions` request to an upstream listed for
   * usage injection is re-encoded with `stream_options.include_usage` set,
   * provided `ensure_stream_usage` changed it and the encoder succeeds.
   */
  function BodyToSend(json: Option<Json>, path: string, upstreamId: string, inject: Option<set<string>>,
                      body: seq<byte>, encode: Json -> Option<seq<byte>>): (r: (seq<byte>, Option<nat>))
    ensures r.1.Some? <==>
      (&& StreamRequested(json) && IsChatCompletions(path) && ShouldInjectUsage(inject, upstreamId)
       && Rewritable(json.value) && !AsksForUsage(json.value) && encode(EnsureStreamUsage(json.value).0).Some?)
    ensures r.1.Some? ==> r.0 == encode(EnsureStreamUsage(json.value).0).value && r.1.value == |r.0|
    ensures r.1.None? ==> r.0 == body
  {
    if StreamRequested(json) && IsChatCompletions(path) && ShouldInjectUsage(inject, upstreamId) then
      var (v, changed) := EnsureStreamUsage(json.value);
      if changed then
        match encode(v)
        case Some(bytes) => var n: nat := |bytes|; (bytes, Some(n))
        case None => (body, None)
      else (body, None)
    else (body, None)
  }

  /**
   * The body `forward` sends with `ensure_stream_usage` as the source
   * writes it: only a request whose `stream_options.include_usage` is
   * present and not `true` reports a change, so only that request is
   * re-encoded; one without `include_usage` goes out as it came.
   */
  function BodyToSendAsWritten(json: Option<Json>, path: string, upstreamId: string, inject: Option<set<string>>,
                               body: seq<byte>, encode: Json -> Option<seq<byte>>): (r: (seq<byte>, Option<nat>))
    ensures r.1.Some? <==>
      (&& StreamRequested(json) && IsChatCompletions(path) && ShouldInjectUsage(inject, upstreamId)
       && Rewritable(json.value) && "include_usage" in Options(json.value)
       && Options(json.value)["include_usage"] != JBool(true) && encode(WithUsage(json.value)).Some?)
    ensures r.1.Some? ==> r.0 == encode(WithUsage(json.value)).value && r.1.value == |r.0|
    ensures r.1.None? ==> r.0 == body
  {
    if StreamRequested(json) && IsChatCompletions(path) && ShouldInjectUsage(inject, upstreamId) then
      var (v, changed) := EnsureStreamUsageAsWritten(json.value);
      if changed then
        match encode(v)
        case Some(bytes) => var n: nat := |bytes|; (bytes, Some(n))
        case None => (body, None)
      else (body, None)
    else (body, None)
  }

  /** Whenever `include_usage` is already present, or the request is not rewritable, both rules send the same body. */
  lemma BodyAsWrittenAgreesWhenPresent(json: Option<Json>, path: string, upstreamId: string, inject: Option<set<string>>,
                                       body: seq<byte>, encode: Json -> Option<seq<byte>>)
    requires json.Some? && Rewritable(json.value) ==> "include_usage" in Options(json.value)
    ensures BodyToSendAsWritten(json, path, upstreamId, inject, body, encode) ==
      BodyToSend(json, path, upstreamId, inject, body, encode)
  {
    if json.Some? && Rewritable(json.value) {
      AsWrittenAgreesWhenPresent(json.value);
    }
  }

  /**
   * `{"stream": true}` to an injecting upstream: as written the body goes
   * out unchanged and the upstream is never asked for usage, where the
   * corrected rule re-encodes it.
   */
  lemma AsWrittenSkipsInjection(upstreamId: string, body: seq<byte>, encode: Json -> Option<seq<byte>>)
    requires encode(WithUsage(JObj(map["stream" := JBool(true)]))).Some?
    ensures var json := Some(JObj(map["stream" := JBool(true)]));
      var inject := Some({upstreamId});
      && BodyToSendAsWritten(json, "/v1/chat/completions", upstreamId, inject, body, encode) == (body, None)
      && BodyToSend(json, "/v1/chat/completions", upstreamId, inject, body, encode).1.Some?
  {
    var v := JObj(map["stream" := JBool(true)]);
    assert Rewritable(v) && !AsksForUsage(v);
    assert "include_usage" !in Options(v);
  }

  /**
   * With an encoder the request parser inverts, a rewritten body reads back
   * as the original request asking for usage, with everything else kept.
   */
  lemma RewrittenBodyAsksForUsage(json: Option<Json>, path: string, upstreamId: string, inject: Option<set<string>>,
                                  body: seq<byte>, encode: Json -> Option<seq<byte>>, parseJson: seq<byte> -> Option<Json>)
    requires BodyToSend(json, path, upstreamId, inject, body, encode).1.Some?
    requires var j := EnsureStreamUsage(json.value).0; encode(j).Some? ==> parseJson(encode(j).value) == Some(j)
    ensures var sent := BodyToSend(json, path, upstreamId, inject, body, encode).0;
      && parseJson(sent).Some? && AsksForUsage(parseJson(sent).value)
      && EnsureStreamUsage(json.value).0 == parseJson(sent).value
  {
  }

  /** A request that already asks for usage is sent with its body untouched. */
  lemma BodyUntouchedWhenUsageAsked(json: Option<Json>, path: string, upstreamId: string, inject: Option<set<string>>,
                                    body: seq<byte>, encode: Json -> Option<seq<byte>>)
    requires json.Some? && AsksForUsage(json.value)
    ensures BodyToSend(json, path, upstreamId, inject, body, encode) == (body, None)
  {
  }

  /** What the client sent: the path and query, its headers and its body stream. */
  datatype Incoming = Incoming(pathAndQuery: string, headers: HeaderMap, chunks: seq<Chunk>)

  /**
   * `forward`: read the body (16 MiB at most), work out the model, check it
   * is served and that something is ready for it, ask for usage when that
   * applies, then run the attempt loop. `env` is what every attempt
   * shares, `sent` the requests sent, `reply` the answer.
   */
  method Forward(snap: RouterSnapshot, rr: u64, nowMs: u64, ban: BanConfig, inject: Option<set<string>>, inc: Incoming,
                 parseJson: seq<byte> -> Option<Json>, encode: Json -> Option<seq<byte>>,
                 validPathAndQuery: string -> bool, bearer: string -> seq<byte>, respond: (nat, Request) -> Outcome)
    returns (snap': RouterSnapshot, rr': u64, reply: Reply, env: Attempts, sent: seq<Request>)
    requires SnapshotOk(snap)
    ensures SnapshotOk(snap') && SameRouting(snap, snap')
    ensures !(AllData(inc.chunks) && |Concat(inc.chunks)| <= MAX_REQUEST_BODY_BYTES) ==>
      && sent == [] && snap' == snap
      && (reply == ProxyError(413, "body_too_large") || reply == ProxyError(502, "body_read_error"))
      && (reply == ProxyError(413, "body_too_large") ==> exists k: nat :: (FitsBefore(inc.chunks, k, MAX_REQUEST_BODY_BYTES) &&
            inc.chunks[k].Data? && |Concat(inc.chunks[..k + 1])| > MAX_REQUEST_BODY_BYTES))
      && (reply == ProxyError(502, "body_read_error") ==>
            exists k: nat :: FitsBefore(inc.chunks, k, MAX_REQUEST_BODY_BYTES) && inc.chunks[k].ReadFailure?)
    ensures AllData(inc.chunks) && |Concat(inc.chunks)| <= MAX_REQUEST_BODY_BYTES ==>
      var path := SplitQuery(inc.pathAndQuery).0;
      var json := ParseRequestJson(inc.headers, Concat(inc.chunks), parseJson);
      var model := ResolveModel(json, path);
      && (model.None? ==> sent == [] && snap' == snap && reply == ProxyError(400, "model_required"))
      && (model.Some? && !ModelExists(snap, model.value) ==>
            sent == [] && snap' == snap && reply == ProxyError(404, "model_not_found"))
      && (model.Some? && ModelExists(snap, model.value) ==>
            && env.model == model.value && env.nowMs == nowMs && env.ban == ban
            && env.pathAndQuery == inc.pathAndQuery && env.headers == inc.headers
            && env.validPathAndQuery == validPathAndQuery && env.bearer == bearer && env.respond == respond
            && (reply == ProxyError(503, "model_unavailable") ==> sent == [])
            && (reply == ProxyError(503, "model_unavailable") && CountersFar(snap, rr) ==>
                  forall p :: 0 <= p < |snap.schedule| ==>
                    !UpstreamReady(snap.upstreams[snap.schedule[p]], nowMs, Some(model.value)))
            && (reply != ProxyError(503, "model_unavailable") ==>
                  exists sel :: (Serves(env, snap.upstreams, sel) && Trace(env, snap.upstreams, 0, sel, sent, reply) &&
                    UpstreamReady(snap.upstreams[sel.upstream], nowMs, Some(model.value)) &&
                    (env.body, env.rewrittenLength) ==
                      BodyToSend(json, path, snap.upstreams[sel.upstream].id, inject, Concat(inc.chunks), encode))))
  {
    env := Attempts(nowMs, "", inc.pathAndQuery, inc.headers, [], None, ban, validPathAndQuery, bearer, respond);
    var read := ReadBody(inc.chunks, MAX_REQUEST_BODY_BYTES);
    if read.Err? {
      reply := if read.error == TooLarge then ProxyError(413, "body_too_large") else ProxyError(502, "body_read_error");
      return snap, rr, reply, env, [];
    }
    var body := read.value;
    var path := SplitQuery(inc.pathAndQuery).0;
    var json := ParseRequestJson(inc.headers, body, parseJson);
    var model := ResolveModel(json, path);
    if model.None? {
      return snap, rr, ProxyError(400, "model_required"), env, [];
    }
    if !ModelExists(snap, model.value) {
      return snap, rr, ProxyError(404, "model_not_found"), env, [];
    }
    env := env.(model := model.value);
    snap', rr', reply, env, sent := ForwardModel(snap, rr, env, json, path, inject, body, encode);
  }

  /** `forward` once the model is known to be served: select, decide the body, run the attempts. */
  method ForwardModel(snap: RouterSnapshot, rr: u64, env0: Attempts, json: Option<Json>, path: string,
                      inject: Option<set<string>>, body: seq<byte>, encode: Json -> Option<seq<byte>>)
    returns (snap': RouterSnapshot, rr': u64, reply: Reply, env: Attempts, sent: seq<Request>)
    requires SnapshotOk(snap)
    ensures SnapshotOk(snap') && SameRouting(snap, snap')
    ensures env == env0.(body := env.body, rewrittenLength := env.rewrittenLength)
    ensures reply == ProxyError(503, "model_unavailable") ==> sent == []
    ensures reply == ProxyError(503, "model_unavailable") && CountersFar(snap, rr) ==>
      forall p :: 0 <= p < |snap.schedule| ==> !UpstreamReady(snap.upstreams[snap.schedule[p]], env0.nowMs, Some(env0.model))
    ensures reply != ProxyError(503, "model_unavailable") ==>
      exists sel :: (Serves(env, snap.upstreams, sel) && Trace(env, snap.upstreams, 0, sel, sent, reply) &&
        UpstreamReady(snap.upstreams[sel.upstream], env0.nowMs, Some(env0.model)) &&
        (env.body, env.rewrittenLength) == BodyToSend(json, path, snap.upstreams[sel.upstream].id, inject, body, encode))
  {
    var ups, rr1, first := SelectForModel(snap, env0.model, rr, env0.nowMs);
    var s1 := snap.(upstreams := ups);
    CountersKeepLayout(snap, ups);
    if first.None? {
      return s1, rr1, ProxyError(503, "model_unavailable"), env0, [];
    }
    snap', rr', reply, env, sent := ForwardSelected(snap, s1, rr1, first.value, env0, json, path, inject, body, encode);
  }

  /** The attempts of `ForwardModel` once the first selection is made. */
  method ForwardSelected(snap: RouterSnapshot, s1: RouterSnapshot, rr1: u64, sel: Selected, env0: Attempts,
                         json: Option<Json>, path: string, inject: Option<set<string>>, body: seq<byte>,
                         encode: Json -> Option<seq<byte>>)
    returns (snap': RouterSnapshot, rr': u64, reply: Reply, env: Attempts, sent: seq<Request>)
    requires SnapshotOk(s1) && SameRouting(snap, s1) && ValidSel(s1.upstreams, sel)
    requires Serves(env0, snap.upstreams, sel)
    ensures SnapshotOk(snap') && SameRouting(snap, snap')
    ensures env == env0.(body := env.body, rewrittenLength := env.rewrittenLength)
    ensures reply != ProxyError(503, "model_unavailable")
    ensures Serves(env, snap.upstreams, sel) && Trace(env, snap.upstreams, 0, sel, sent, reply)
    ensures (env.body, env.rewrittenLength) == BodyToSend(json, path, snap.upstreams[sel.upstream].id, inject, body, encode)
  {
    var toSend := BodyToSend(json, path, snap.upstreams[sel.upstream].id, inject, body, encode);
    env := env0.(body := toSend.0, rewrittenLength := toSend.1);
    snap', rr', reply, sent := ForwardFrom(env, s1, rr1, sel, 0);
    SameRoutingTrans(snap, s1, snap');
    TraceCarryOver(env, snap.upstreams, s1.upstreams, 0, sel, sent, reply);
    TraceReply(env, snap.upstreams, 0, sel, sent, reply);
  }

  /** A forward never answers with the no-upstream 503: that reply is only given before any attempt. */
  lemma TraceReply(env: Attempts, ups: seq<Upstream>, retries: nat, sel: Selected, sent: seq<Request>, reply: Reply)
    requires Trace(env, ups, retries, sel, sent, reply)
    ensures reply != ProxyError(503, "model_unavailable")
  {
  }
}
