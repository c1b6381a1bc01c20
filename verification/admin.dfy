/**
 * The admin side: the path and method routing of `handle_admin`,
 * `handle_api` and its two dynamic sub-routers, the key-list bodies the key
 * endpoints accept (`parse_keys_body`, `dedupe_keys`), and the query
 * parameters of `api_list_keys`, `api_requests` and `api_delete_upstream`.
 */
module Admin {
  import opened Common
  import opened Text
  import opened Seqs
  import opened Config
  import opened Query
  import opened Headers
  import opened Body
  import opened Router

  // ---- routing ----

  /** The admin API handlers a request can reach. */
  datatype Endpoint =
    | StatsStream | ListUpstreams | AddUpstream | StatsSnapshot | ReloadAll
    | GetModelRoutes | PutModelRoutes | Requests | Metrics | CreateBillingKey
    | GetBalanceOf(key: string) | AdjustBalanceOf(key: string)
    | UpdateUpstream(id: string) | DeleteUpstream(id: string) | RefreshModels(id: string)
    | AddKeys(id: string) | ReplaceKeys(id: string) | DeleteKeys(id: string) | ListKeys(id: string)

  /** Where `handle_admin` sends a request. */
  datatype AdminRoute =
    | RedirectToSlash
    | IndexPage
    | AppScript
    | PageNotFound
    | Unauthorized
    | BadRequest
    | MethodNotAllowed
    | ApiNotFound
    | Call(endpoint: Endpoint)

  /** The status each route answers with (a reached endpoint answers for itself, `None` here). */
  function RouteStatus(r: AdminRoute): (s: Option<nat>)
    ensures s.None? <==> r.Call?
  {
    match r
    case RedirectToSlash => Some(301)
    case IndexPage => Some(200)
    case AppScript => Some(200)
    case PageNotFound => Some(404)
    case Unauthorized => Some(401)
    case BadRequest => Some(400)
    case MethodNotAllowed => Some(405)
    case ApiNotFound => Some(404)
    case Call(_) => None
  }

  /** The `n`-th piece of `rest.split('/')`, `""` past the end (`parts.next().unwrap_or("")`). */
  function Segment(rest: string, n: nat): (s: string)
    ensures '/' !in s
  {
    var parts := SplitOn(rest, '/');
    if n < |parts| then parts[n] else ""
  }

  /**
   * `handle_billing_key_subroutes` on the path after `/billing/keys/`: an
   * empty key is a 400; `{key}` takes GET, `{key}/adjust` takes POST, other
   * methods there are 405, and any other action is a 404. Pieces after the
   * action are not looked at.
   */
  function BillingKeySubroutes(verb: Method, rest: string): (r: AdminRoute)
    ensures Segment(rest, 0) == "" ==> r == BadRequest
    ensures r.Call? ==> r.endpoint == GetBalanceOf(Segment(rest, 0)) || r.endpoint == AdjustBalanceOf(Segment(rest, 0))
    ensures r.Call? ==> Segment(rest, 0) != ""
  {
    var key := Segment(rest, 0);
    if key == "" then BadRequest
    else
      var action := Segment(rest, 1);
      if action == "" then (if verb == GET then Call(GetBalanceOf(key)) else MethodNotAllowed)
      else if action == "adjust" then (if verb == POST then Call(AdjustBalanceOf(key)) else MethodNotAllowed)
      else ApiNotFound
  }

  /**
   * `handle_upstream_subroutes` on the path after `/upstreams/`: an empty
   * id is a 400; `{id}` takes PUT and DELETE; `{id}/models/refresh` takes
   * POST and any other `{id}/models...` is a 404; `{id}/keys` takes POST,
   * PUT, DELETE and GET; a method a path does not take is a 405, and any
   * other sub-path a 404.
   */
  function UpstreamSubroutes(verb: Method, rest: string): (r: AdminRoute)
    ensures Segment(rest, 0) == "" ==> r == BadRequest
    ensures r.Call? ==> Segment(rest, 0) != "" && NameOf(r.endpoint) == Some(Segment(rest, 0))
    ensures r.Call? ==> !r.endpoint.GetBalanceOf? && !r.endpoint.AdjustBalanceOf?
  {
    var id := Segment(rest, 0);
    if id == "" then BadRequest
    else
      var sub := Segment(rest, 1);
      if sub == "" then
        if verb == PUT then Call(UpdateUpstream(id))
        else if verb == DELETE then Call(DeleteUpstream(id))
        else MethodNotAllowed
      else if sub == "models" then
        if Segment(rest, 2) == "refresh" then (if verb == POST then Call(RefreshModels(id)) else MethodNotAllowed)
        else ApiNotFound
      else if sub != "keys" then ApiNotFound
      else if verb == POST then Call(AddKeys(id))
      else if verb == PUT then Call(ReplaceKeys(id))
      else if verb == DELETE then Call(DeleteKeys(id))
      else if verb == GET then Call(ListKeys(id))
      else MethodNotAllowed
  }

  /** The fixed routes of `handle_api`, by method and exact path. */
  function FixedEndpoint(verb: Method, path: string): (r: Option<Endpoint>)
    ensures r.Some? ==> StartsWith(path, "/admin/api/v1/")
  {
    if verb == GET && path == "/admin/api/v1/stats/stream" then Some(StatsStream)
    else if verb == GET && path == "/admin/api/v1/upstreams" then Some(ListUpstreams)
    else if verb == POST && path == "/admin/api/v1/upstreams" then Some(AddUpstream)
    else if verb == GET && path == "/admin/api/v1/stats" then Some(StatsSnapshot)
    else if verb == POST && path == "/admin/api/v1/reload" then Some(ReloadAll)
    else if verb == GET && path == "/admin/api/v1/models/routes" then Some(GetModelRoutes)
    else if verb == PUT && path == "/admin/api/v1/models/routes" then Some(PutModelRoutes)
    else if verb == GET && path == "/admin/api/v1/requests" then Some(Requests)
    else if verb == GET && path == "/admin/api/v1/metrics" then Some(Metrics)
    else if verb == POST && path == "/admin/api/v1/billing/keys" then Some(CreateBillingKey)
    else None
  }

  /**
   * `handle_api`: the admin token first, then the fixed routes, then the
   * billing-key and upstream sub-routers, else a 404.
   */
  function HandleApi(verb: Method, path: string, authorized: bool): (r: AdminRoute)
    ensures !authorized ==> r == Unauthorized
    ensures authorized && FixedEndpoint(verb, path).Some? ==> r == Call(FixedEndpoint(verb, path).value)
  {
    if !authorized then Unauthorized
    else
      match FixedEndpoint(verb, path)
      case Some(e) => Call(e)
      case None =>
        match StripPrefix(path, "/admin/api/v1/billing/keys/")
        case Some(rest) => BillingKeySubroutes(verb, rest)
        case None =>
          match StripPrefix(path, "/admin/api/v1/upstreams/")
          case Some(rest) => UpstreamSubroutes(verb, rest)
          case None => ApiNotFound
  }

  /**
   * `handle_admin`: `/admin` redirects to `/admin/`, `GET /admin/`,
   * `/admin/index.html` and `/admin/app.js` serve the UI, anything under
   * `/admin/api/` goes to `handle_api` with the `x-admin-token` check, and
   * the rest is a plain 404.
   */
  function HandleAdmin(verb: Method, path: string, h: HeaderMap, adminTokens: set<string>): (r: AdminRoute)
    ensures r.Call? ==> StartsWith(path, "/admin/api/") && AuthorizeAdmin(adminTokens, h)
  {
    if path == "/admin" then RedirectToSlash
    else if verb == GET && (path == "/admin/" || path == "/admin/index.html") then IndexPage
    else if verb == GET && path == "/admin/app.js" then AppScript
    else if StartsWith(path, "/admin/api/") then
      ApiPathIsNoPage(path);
      HandleApi(verb, path, AuthorizeAdmin(adminTokens, h))
    else PageNotFound
  }

  /** No page of the UI lies under `/admin/api/`. */
  lemma ApiPathIsNoPage(path: string)
    requires StartsWith(path, "/admin/api/")
    ensures path != "/admin" && path != "/admin/" && path != "/admin/index.html" && path != "/admin/app.js"
  {
    assert path[..11] == "/admin/api/";
    assert path[7] == 'a' && path[9] == 'i';
  }

  /** Every admin API request without a valid admin token is refused before any handler runs. */
  lemma ApiRequiresToken(verb: Method, path: string, h: HeaderMap, adminTokens: set<string>)
    requires StartsWith(path, "/admin/api/") && !AuthorizeAdmin(adminTokens, h)
    ensures HandleAdmin(verb, path, h, adminTokens) == Unauthorized
    ensures RouteStatus(HandleAdmin(verb, path, h, adminTokens)) == Some(401)
  {
    ApiPathIsNoPage(path);
  }

  /** A name usable as a path segment: non-empty, without `/`. */
  predicate SegmentName(s: string) {
    |s| > 0 && '/' !in s
  }

  /** The canonical request for each endpoint, as the admin UI sends it. */
  function RequestFor(e: Endpoint): (r: (Method, string)) {
    match e
    case StatsStream => (GET, "/admin/api/v1/stats/stream")
    case ListUpstreams => (GET, "/admin/api/v1/upstreams")
    case AddUpstream => (POST, "/admin/api/v1/upstreams")
    case StatsSnapshot => (GET, "/admin/api/v1/stats")
    case ReloadAll => (POST, "/admin/api/v1/reload")
    case GetModelRoutes => (GET, "/admin/api/v1/models/routes")
    case PutModelRoutes => (PUT, "/admin/api/v1/models/routes")
    case Requests => (GET, "/admin/api/v1/requests")
    case Metrics => (GET, "/admin/api/v1/metrics")
    case CreateBillingKey => (POST, "/admin/api/v1/billing/keys")
    case GetBalanceOf(k) => (GET, "/admin/api/v1/billing/keys/" + k)
    case AdjustBalanceOf(k) => (POST, "/admin/api/v1/billing/keys/" + k + "/adjust")
    case UpdateUpstream(id) => (PUT, "/admin/api/v1/upstreams/" + id)
    case DeleteUpstream(id) => (DELETE, "/admin/api/v1/upstreams/" + id)
    case RefreshModels(id) => (POST, "/admin/api/v1/upstreams/" + id + "/models/refresh")
    case AddKeys(id) => (POST, "/admin/api/v1/upstreams/" + id + "/keys")
    case ReplaceKeys(id) => (PUT, "/admin/api/v1/upstreams/" + id + "/keys")
    case DeleteKeys(id) => (DELETE, "/admin/api/v1/upstreams/" + id + "/keys")
    case ListKeys(id) => (GET, "/admin/api/v1/upstreams/" + id + "/keys")
  }

  /** The name an endpoint carries in its path, if any. */
  function NameOf(e: Endpoint): Option<string> {
    match e
    case GetBalanceOf(k) => Some(k)
    case AdjustBalanceOf(k) => Some(k)
    case UpdateUpstream(id) => Some(id)
    case DeleteUpstream(id) => Some(id)
    case RefreshModels(id) => Some(id)
    case AddKeys(id) => Some(id)
    case ReplaceKeys(id) => Some(id)
    case DeleteKeys(id) => Some(id)
    case ListKeys(id) => Some(id)
    case _ => None
  }

  /** Routing inverts `RequestFor`: an authorized canonical request reaches its own endpoint. */
  lemma RoutesToEndpoint(e: Endpoint)
    requires NameOf(e).Some? ==> SegmentName(NameOf(e).value)
    ensures HandleApi(RequestFor(e).0, RequestFor(e).1, true) == Call(e)
  {
    if e.GetBalanceOf? || e.AdjustBalanceOf? {
      RoutesToBillingEndpoint(e);
    } else if NameOf(e).Some? {
      RoutesToUpstreamEndpoint(e);
    } else {
      FixedRoutes(e);
    }
  }

  lemma RoutesToBillingEndpoint(e: Endpoint)
    requires e.GetBalanceOf? || e.AdjustBalanceOf?
    requires SegmentName(e.key)
    ensures HandleApi(RequestFor(e).0, RequestFor(e).1, true) == Call(e)
  {
    var k := e.key;
    var (verb, path) := RequestFor(e);
    if e.GetBalanceOf? {
      DynamicPath(verb, BILLING_KEYS, k);
      SplitOnName(k);
    } else {
      assert path == BILLING_KEYS + (k + "/" + "adjust");
      DynamicPath(verb, BILLING_KEYS, k + "/" + "adjust");
      SplitOnNameThen(k, "adjust");
    }
  }

  lemma RoutesToUpstreamEndpoint(e: Endpoint)
    requires e.UpdateUpstream? || e.DeleteUpstream? || e.RefreshModels? || e.AddKeys? || e.ReplaceKeys? ||
             e.DeleteKeys? || e.ListKeys?
    requires SegmentName(e.id)
    ensures HandleApi(RequestFor(e).0, RequestFor(e).1, true) == Call(e)
  {
    var id := e.id;
    if e.UpdateUpstream? || e.DeleteUpstream? {
      ReachesUpstreamRouter(RequestFor(e).0, id);
      SplitOnName(id);
    } else if e.RefreshModels? {
      RoutesToRefresh(id);
    } else {
      RoutesToKeys(e);
    }
  }

  /** A path under `/upstreams/` is handed to the upstream sub-router whole. */
  lemma ReachesUpstreamRouter(verb: Method, rest: string)
    requires |rest| > 0
    ensures HandleApi(verb, UPSTREAMS + rest, true) == UpstreamSubroutes(verb, rest)
  {
    DynamicPath(verb, UPSTREAMS, rest);
  }

  lemma RoutesToRefresh(id: string)
    requires SegmentName(id)
    ensures HandleApi(POST, "/admin/api/v1/upstreams/" + id + "/models/refresh", true) == Call(RefreshModels(id))
  {
    var rest := id + "/" + "models" + "/" + "refresh";
    assert "/admin/api/v1/upstreams/" + id + "/models/refresh" == UPSTREAMS + rest;
    ReachesUpstreamRouter(POST, rest);
    LiteralNames();
    SplitOnNameThen2(id, "models", "refresh");
    assert Segment(rest, 0) == id && Segment(rest, 1) == "models" && Segment(rest, 2) == "refresh";
  }

  lemma LiteralNames()
    ensures SegmentName("models") && SegmentName("refresh") && SegmentName("keys") && SegmentName("adjust")
  {
    assert forall i :: 0 <= i < |"models"| ==> "models"[i] != '/';
    assert forall i :: 0 <= i < |"refresh"| ==> "refresh"[i] != '/';
    assert forall i :: 0 <= i < |"keys"| ==> "keys"[i] != '/';
    assert forall i :: 0 <= i < |"adjust"| ==> "adjust"[i] != '/';
  }

  lemma NameThenSegments(n: string, a: string)
    requires SegmentName(n) && a in {"keys", "adjust"}
    ensures Segment(n + "/" + a, 0) == n && Segment(n + "/" + a, 1) == a
  {
    LiteralNames();
    SplitOnNameThen(n, a);
  }

  lemma RoutesToKeys(e: Endpoint)
    requires e.AddKeys? || e.ReplaceKeys? || e.DeleteKeys? || e.ListKeys?
    requires SegmentName(e.id)
    ensures HandleApi(RequestFor(e).0, RequestFor(e).1, true) == Call(e)
  {
    var id := e.id;
    var (verb, path) := RequestFor(e);
    assert path == UPSTREAMS + (id + "/" + "keys");
    ReachesUpstreamRouter(verb, id + "/" + "keys");
    KeysSubroute(verb, id);
  }

  /** The four methods `{id}/keys` takes, each to its own endpoint. */
  lemma KeysSubroute(verb: Method, id: string)
    requires SegmentName(id)
    ensures verb == POST ==> UpstreamSubroutes(verb, id + "/" + "keys") == Call(AddKeys(id))
    ensures verb == PUT ==> UpstreamSubroutes(verb, id + "/" + "keys") == Call(ReplaceKeys(id))
    ensures verb == DELETE ==> UpstreamSubroutes(verb, id + "/" + "keys") == Call(DeleteKeys(id))
    ensures verb == GET ==> UpstreamSubroutes(verb, id + "/" + "keys") == Call(ListKeys(id))
  {
    NameThenSegments(id, "keys");
  }

  const BILLING_KEYS: string := "/admin/api/v1/billing/keys/"
  const UPSTREAMS: string := "/admin/api/v1/upstreams/"

  /** The endpoints without a name in their path are the fixed routes. */
  lemma FixedRoutes(e: Endpoint)
    requires !e.GetBalanceOf? && !e.AdjustBalanceOf? && !e.UpdateUpstream? && !e.DeleteUpstream?
    requires !e.RefreshModels? && !e.AddKeys? && !e.ReplaceKeys? && !e.DeleteKeys? && !e.ListKeys?
    ensures FixedEndpoint(RequestFor(e).0, RequestFor(e).1) == Some(e)
  {
  }

  /** A path with a name after one of the two dynamic prefixes is no fixed route and reaches its sub-router. */
  lemma DynamicPath(verb: Method, prefix: string, rest: string)
    requires prefix == BILLING_KEYS || prefix == UPSTREAMS
    requires |rest| > 0
    ensures FixedEndpoint(verb, prefix + rest).None?
    ensures StripPrefix(prefix + rest, prefix) == Some(rest)
    ensures prefix == UPSTREAMS ==> StripPrefix(prefix + rest, BILLING_KEYS).None?
  {
    var path := prefix + rest;
    assert path[..|prefix|] == prefix;
    assert path[|prefix|..] == rest;
    assert path[14] == prefix[14];
    assert |path| > |prefix|;
  }

  lemma SplitOnName(n: string)
    requires SegmentName(n)
    ensures SplitOn(n, '/') == [n]
  {
  }

  /** Splitting a name followed by `/` gives the name, then the pieces of the rest. */
  lemma SplitOnCons(n: string, rest: string)
    requires '/' !in n
    ensures SplitOn(n + "/" + rest, '/') == [n] + SplitOn(rest, '/')
  {
    var s := n + "/" + rest;
    FindAfterPrefix(n, '/', rest);
    assert s[..|n|] == n;
    assert s[|n| + 1..] == rest;
  }

  lemma SplitOnNameThen(n: string, a: string)
    requires SegmentName(n) && SegmentName(a)
    ensures SplitOn(n + "/" + a, '/') == [n, a]
  {
    SplitOnCons(n, a);
    SplitOnName(a);
  }

  lemma SplitOnNameThen2(n: string, a: string, b: string)
    requires SegmentName(n) && SegmentName(a) && SegmentName(b)
    ensures SplitOn(n + "/" + a + "/" + b, '/') == [n, a, b]
  {
    assert n + "/" + a + "/" + b == n + "/" + (a + "/" + b);
    SplitOnCons(n, a + "/" + b);
    SplitOnNameThen(a, b);
  }

  /** Pieces after the action are ignored: `{key}/adjust/anything` is still the adjust endpoint. */
  lemma TrailingPiecesIgnored(key: string, extra: string)
    requires SegmentName(key)
    ensures BillingKeySubroutes(POST, key + "/adjust/" + extra) == Call(AdjustBalanceOf(key))
    ensures UpstreamSubroutes(GET, key + "/keys/" + extra) == Call(ListKeys(key))
  {
    AdjustIgnoresTrailing(key, extra);
    KeysIgnoresTrailing(key, extra);
  }

  lemma AdjustIgnoresTrailing(key: string, extra: string)
    requires SegmentName(key)
    ensures BillingKeySubroutes(POST, key + "/adjust/" + extra) == Call(AdjustBalanceOf(key))
  {
    var rest := key + "/adjust/" + extra;
    assert rest == key + "/" + "adjust" + "/" + extra;
    LiteralNames();
    SplitPrefix(key, "adjust", extra);
    assert Segment(rest, 0) == key && Segment(rest, 1) == "adjust";
  }

  lemma KeysIgnoresTrailing(key: string, extra: string)
    requires SegmentName(key)
    ensures UpstreamSubroutes(GET, key + "/keys/" + extra) == Call(ListKeys(key))
  {
    var rest := key + "/keys/" + extra;
    assert rest == key + "/" + "keys" + "/" + extra;
    LiteralNames();
    SplitPrefix(key, "keys", extra);
    assert Segment(rest, 0) == key && Segment(rest, 1) == "keys";
  }

  lemma SplitPrefix(n: string, a: string, rest: string)
    requires SegmentName(n) && SegmentName(a)
    ensures Segment(n + "/" + a + "/" + rest, 0) == n && Segment(n + "/" + a + "/" + rest, 1) == a
  {
    assert n + "/" + a + "/" + rest == n + "/" + (a + "/" + rest);
    SplitOnCons(n, a + "/" + rest);
    SplitOnCons(a, rest);
  }

  // ---- key lists ----

  lemma {:induction false} TrimAndDropBlankSnoc(ts: seq<string>, t: string)
    ensures TrimAndDropBlank(ts + [t]) == TrimAndDropBlank(ts) + (if |Trim(t)| == 0 then [] else [Trim(t)])
    decreases |ts|
  {
    if |ts| == 0 {
      assert [t][1..] == [];
    } else {
      assert (ts + [t])[1..] == ts[1..] + [t];
      TrimAndDropBlankSnoc(ts[1..], t);
    }
  }

  /**
   * `dedupe_keys`: each key trimmed, blanks dropped, and only the first
   * occurrence of each key kept, in input order.
   */
  method DedupeKeys(keys: seq<string>) returns (out: seq<string>)
    ensures out == FirstOccurrences({}, TrimAndDropBlank(keys))
  {
    var seen: set<string> := {};
    out := [];
    var i := 0;
    while i < |keys|
      invariant 0 <= i <= |keys|
      invariant out == FirstOccurrences({}, TrimAndDropBlank(keys[..i]))
      invariant seen == SetOf(out)
    {
      out, seen := DedupeNext(keys, i, out, seen);
      i := i + 1;
    }
    assert keys[..i] == keys;
  }

  lemma SetOfSnoc(xs: seq<string>, x: string)
    ensures SetOf(xs + [x]) == SetOf(xs) + {x}
  {
  }

  /** One step of the loop: key `i` is appended, trimmed, when it is non-blank and not seen yet. */
  method DedupeNext(keys: seq<string>, i: nat, out: seq<string>, seen: set<string>)
    returns (out': seq<string>, seen': set<string>)
    requires i < |keys| && out == FirstOccurrences({}, TrimAndDropBlank(keys[..i])) && seen == SetOf(out)
    ensures out' == FirstOccurrences({}, TrimAndDropBlank(keys[..i + 1])) && seen' == SetOf(out')
  {
    var k := Trim(keys[i]);
    if |k| > 0 && k !in seen {
      DedupeKeeps(keys, i, out, seen);
      out', seen' := out + [k], seen + {k};
    } else {
      DedupeSkips(keys, i, out, seen);
      out', seen' := out, seen;
    }
  }

  /** A non-blank key not seen before is appended, trimmed. */
  lemma DedupeKeeps(keys: seq<string>, i: nat, out: seq<string>, seen: set<string>)
    requires i < |keys| && out == FirstOccurrences({}, TrimAndDropBlank(keys[..i])) && seen == SetOf(out)
    requires |Trim(keys[i])| > 0 && Trim(keys[i]) !in seen
    ensures out + [Trim(keys[i])] == FirstOccurrences({}, TrimAndDropBlank(keys[..i + 1]))
    ensures seen + {Trim(keys[i])} == SetOf(out + [Trim(keys[i])])
  {
    var k := Trim(keys[i]);
    CleanPrefixStep(keys, i);
    FirstOccurrencesStep(TrimAndDropBlank(keys[..i]), k);
    SetOfSnoc(out, k);
  }

  /** A blank key, or one seen before, leaves the output as it is. */
  lemma DedupeSkips(keys: seq<string>, i: nat, out: seq<string>, seen: set<string>)
    requires i < |keys| && out == FirstOccurrences({}, TrimAndDropBlank(keys[..i])) && seen == SetOf(out)
    requires |Trim(keys[i])| == 0 || Trim(keys[i]) in seen
    ensures out == FirstOccurrences({}, TrimAndDropBlank(keys[..i + 1]))
  {
    var k := Trim(keys[i]);
    var clean := TrimAndDropBlank(keys[..i]);
    CleanPrefixStep(keys, i);
    if |k| == 0 {
      assert clean + [] == clean;
    } else {
      FirstOccurrencesStep(clean, k);
      assert out + [] == out;
    }
  }

  lemma CleanPrefixStep(keys: seq<string>, i: nat)
    requires i < |keys|
    ensures var k := Trim(keys[i]);
      TrimAndDropBlank(keys[..i + 1]) == TrimAndDropBlank(keys[..i]) + (if |k| == 0 then [] else [k])
  {
    assert keys[..i + 1] == keys[..i] + [keys[i]];
    TrimAndDropBlankSnoc(keys[..i], keys[i]);
  }

  lemma FirstOccurrencesStep(clean: seq<string>, k: string)
    ensures var out := FirstOccurrences({}, clean);
      FirstOccurrences({}, clean + [k]) == out + (if k in SetOf(out) then [] else [k])
  {
    FirstOccurrencesSnoc({}, clean, k);
    FirstOccurrencesSpec({}, clean);
  }

  /** What `dedupe_keys` promises: trimmed, non-blank, distinct, and exactly the trimmed non-blank inputs. */
  lemma DedupeKeysSpec(keys: seq<string>)
    ensures var out := FirstOccurrences({}, TrimAndDropBlank(keys));
      && CleanList(out) && Distinct(out)
      && forall x :: x in out <==> |x| > 0 && exists j :: 0 <= j < |keys| && x == Trim(keys[j])
  {
    var clean := TrimAndDropBlank(keys);
    var out := FirstOccurrences({}, clean);
    FirstOccurrencesSpec({}, clean);
    forall x ensures x in out <==> |x| > 0 && exists j :: 0 <= j < |keys| && x == Trim(keys[j]) {
      TrimAndDropBlankMembers(keys, x);
    }
    forall i | 0 <= i < |out| ensures Trimmed(out[i]) && |out[i]| > 0 {
      assert out[i] in clean;
    }
  }

  /** Deduplicating twice changes nothing. */
  lemma DedupeIdempotent(keys: seq<string>)
    ensures var once := FirstOccurrences({}, TrimAndDropBlank(keys));
      FirstOccurrences({}, TrimAndDropBlank(once)) == once
  {
    var once := FirstOccurrences({}, TrimAndDropBlank(keys));
    DedupeKeysSpec(keys);
    TrimAndDropBlankOfClean(once);
    FirstOccurrencesOfDistinct(once);
  }

  lemma {:induction false} FirstOccurrencesOfDistinct(xs: seq<string>)
    requires Distinct(xs)
    ensures FirstOccurrences({}, xs) == xs
  {
    FirstOccurrencesAvoiding({}, xs);
  }

  lemma {:induction false} FirstOccurrencesAvoiding(seen: set<string>, xs: seq<string>)
    requires Distinct(xs) && forall i :: 0 <= i < |xs| ==> xs[i] !in seen
    ensures FirstOccurrences(seen, xs) == xs
    decreases |xs|
  {
    if |xs| > 0 {
      assert forall i :: 0 <= i < |xs[1..]| ==> xs[1..][i] == xs[i + 1] && xs[i + 1] != xs[0];
      FirstOccurrencesAvoiding(seen + {xs[0]}, xs[1..]);
      assert xs == [xs[0]] + xs[1..];
    }
  }

  /** The keys of a plain-text body: `lines()`, each trimmed, blanks dropped. */
  function TextKeys(s: string): (keys: seq<string>)
    ensures CleanList(keys)
  {
    TrimAndDropBlank(SplitOn(s, '\n'))
  }

  /** One key per line reads back as the same list. */
  lemma TextKeysOfLines(keys: seq<string>)
    requires |keys| > 0 && CleanList(keys) && forall i :: 0 <= i < |keys| ==> '\n' !in keys[i]
    ensures TextKeys(JoinWith(keys, '\n')) == keys
  {
    SplitJoin(keys, '\n');
    TrimAndDropBlankOfClean(keys);
  }

  /** A JSON keys body: the `keys` array as given and the optional `dedupe` flag. */
  datatype KeysPayload = KeysPayload(keys: seq<string>, dedupe: Option<bool>)

  datatype KeysBodyError = Unreadable(e: BodyError) | InvalidJson | NotUtf8

  const KEYS_BODY_LIMIT: nat := 50 * 1024 * 1024

  /**
   * `parse_keys_body`: a body of at most 50 MiB; with a `content-type`
   * starting `application/json` it is a JSON keys payload whose `dedupe`
   * defaults to true; otherwise UTF-8 text, one key per line, always
   * deduplicated. The JSON decoder and the UTF-8 check are parameters.
   */
  method ParseKeysBody(h: HeaderMap, chunks: seq<Chunk>, parsePayload: seq<byte> -> Option<KeysPayload>,
                       decodeUtf8: seq<byte> -> Option<string>)
    returns (r: Result<(seq<string>, bool), KeysBodyError>)
    ensures !(AllData(chunks) && |Concat(chunks)| <= KEYS_BODY_LIMIT) ==> r.Err? && r.error.Unreadable?
    ensures AllData(chunks) && |Concat(chunks)| <= KEYS_BODY_LIMIT ==>
      var body := Concat(chunks);
      if StartsWith(HeaderText(h, "content-type").GetOr(""), "application/json") then
        (parsePayload(body).None? ==> r == Err(InvalidJson)) &&
        (parsePayload(body).Some? ==> r == Ok((parsePayload(body).value.keys, parsePayload(body).value.dedupe.GetOr(true))))
      else
        (decodeUtf8(body).None? ==> r == Err(NotUtf8)) &&
        (decodeUtf8(body).Some? ==> r == Ok((TextKeys(decodeUtf8(body).value), true)))
  {
    var contentType := HeaderText(h, "content-type").GetOr("");
    var read := ReadBody(chunks, KEYS_BODY_LIMIT);
    if read.Err? {
      return Err(Unreadable(read.error));
    }
    var body := read.value;
    if StartsWith(contentType, "application/json") {
      match parsePayload(body)
      case None => r := Err(InvalidJson);
      case Some(p) => r := Ok((p.keys, p.dedupe.GetOr(true)));
    } else {
      match decodeUtf8(body)
      case None => r := Err(NotUtf8);
      case Some(s) => r := Ok((TextKeys(s), true));
    }
  }

  // ---- query parameters ----

  /** `limit` of `api_list_keys`: parsed as `usize`, default 100, clamped to [1, 5000]. */
  function ListLimit(uri: Uri): (n: nat)
    ensures 1 <= n <= 5000
    ensures (QueryGet(uri, "limit").None? || ParseUsize(QueryGet(uri, "limit").value).None?) ==> n == 100
    ensures QueryGet(uri, "limit").Some? && ParseUsize(QueryGet(uri, "limit").value).Some? ==>
      n == Clamp(ParseUsize(QueryGet(uri, "limit").value).value, 1, 5000)
  {
    var q := QueryGet(uri, "limit");
    var v := if q.Some? && ParseUsize(q.value).Some? then ParseUsize(q.value).value else 100;
    Clamp(v, 1, 5000)
  }

  /** `offset` of `api_list_keys`: parsed as `usize`, default 0, not bounded. */
  function ListOffset(uri: Uri): (n: u64)
    ensures (QueryGet(uri, "offset").None? || ParseUsize(QueryGet(uri, "offset").value).None?) ==> n == 0
    ensures QueryGet(uri, "offset").Some? && ParseUsize(QueryGet(uri, "offset").value).Some? ==>
      n == ParseUsize(QueryGet(uri, "offset").value).value
  {
    var q := QueryGet(uri, "offset");
    if q.Some? && ParseUsize(q.value).Some? then ParseUsize(q.value).value else 0
  }

  /** `limit` of `api_requests`: default 200, clamped to [1, 5000]. */
  function RequestsLimit(uri: Uri): (n: nat)
    ensures 1 <= n <= 5000
    ensures (QueryGet(uri, "limit").None? || ParseUsize(QueryGet(uri, "limit").value).None?) ==> n == 200
    ensures QueryGet(uri, "limit").Some? && ParseUsize(QueryGet(uri, "limit").value).Some? ==>
      n == Clamp(ParseUsize(QueryGet(uri, "limit").value).value, 1, 5000)
  {
    var q := QueryGet(uri, "limit");
    var v := if q.Some? && ParseUsize(q.value).Some? then ParseUsize(q.value).value else 200;
    Clamp(v, 1, 5000)
  }

  /** `delete_keys` of `api_delete_upstream`: `1` or any-case `true`; absent means false. */
  function DeleteKeysFlag(uri: Uri): (b: bool)
    ensures b ==> QueryGet(uri, "delete_keys").Some?
    ensures QueryGet(uri, "delete_keys").Some? ==>
      (b <==> QueryGet(uri, "delete_keys").value == "1" || EqIgnoreAsciiCase(QueryGet(uri, "delete_keys").value, "true"))
  {
    match QueryGet(uri, "delete_keys")
    case None => false
    case Some(v) => v == "1" || EqIgnoreAsciiCase(v, "true")
  }

  /** The flag read from a leading `delete_keys=v`: `1` or `true` in any letter case. */
  lemma DeleteKeysFlagOf(v: string, rest: Option<string>)
    requires '&' !in v
    ensures DeleteKeysFlag(Uri("/", Some("delete_keys" + "=" + v + (if rest.Some? then "&" + rest.value else "")))) <==>
      (v == "1" || EqIgnoreAsciiCase(v, "true"))
  {
    QueryGetLeading("/", "delete_keys", v, rest);
  }

  // ---- api_list_keys ----

  /** The key list as `api_list_keys` reports it: one page of key states and the paging numbers. */
  datatype KeyPage = KeyPage(total: nat, offset: u64, limit: nat, keys: seq<KeyState>)

  /**
   * The page `keys.iter().skip(offset).take(end - offset)` with
   * `end = min(offset + limit, total)`, in `usize` arithmetic: both the sum
   * and the difference wrap as in a release build.
   */
  function PageAsWritten(keys: seq<KeyState>, offset: u64, limit: nat): (page: seq<KeyState>)
    requires |keys| <= U64_MAX && limit <= 5000
  {
    var total := |keys|;
    var end := Min(WrappingAddU64(offset, limit), total);
    var count := (end - offset) % U64_MODULUS;
    var skipped := if offset < total then keys[offset..] else [];
    if count < |skipped| then skipped[..count] else skipped
  }

  /** The page is the keys from `offset` up to `offset + limit`, cut at the end; past the end it is empty. */
  lemma PageWindow(keys: seq<KeyState>, offset: u64, limit: nat)
    requires |keys| <= U64_MAX && 1 <= limit <= 5000
    ensures offset < |keys| ==> PageAsWritten(keys, offset, limit) == keys[offset..Min(offset + limit, |keys|)]
    ensures offset >= |keys| ==> PageAsWritten(keys, offset, limit) == []
    ensures |PageAsWritten(keys, offset, limit)| <= limit
  {
    var total := |keys|;
    if offset < total {
      if offset + limit < U64_MODULUS {
        var end := Min(offset + limit, total);
        assert WrappingAddU64(offset, limit) == offset + limit;
        assert (end - offset) % U64_MODULUS == end - offset;
        assert keys[offset..][..end - offset] == keys[offset..end];
      } else {
        // The sum wraps below `offset`; the difference wraps back to `limit`, which covers the rest of the keys.
        assert WrappingAddU64(offset, limit) == offset + limit - U64_MODULUS;
        assert (offset + limit - U64_MODULUS - offset) % U64_MODULUS == limit;
        assert Min(offset + limit, total) == total;
      }
    }
  }

  /** The page for given paging numbers. */
  function PageOf(keys: seq<KeyState>, offset: u64, limit: nat): (p: KeyPage)
    requires |keys| <= U64_MAX && 1 <= limit <= 5000
    ensures p.total == |keys| && p.limit == limit && p.offset == offset
    ensures offset < |keys| ==> p.keys == keys[offset..Min(offset + limit, |keys|)]
    ensures offset >= |keys| ==> p.keys == []
  {
    PageWindow(keys, offset, limit);
    KeyPage(|keys|, offset, limit, PageAsWritten(keys, offset, limit))
  }

  /** `api_list_keys` on a known upstream: the page for the `offset` and `limit` of the query. */
  function ListKeysPage(u: Upstream, uri: Uri): KeyPage
    requires |u.keys| <= U64_MAX
  {
    PageOf(u.keys, ListOffset(uri), ListLimit(uri))
  }
}
