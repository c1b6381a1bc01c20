/**
 * Building the routing snapshot from the upstream configurations
 * (`build_snapshot_from_configs`, `parse_upstream`, `build_key_states`) and
 * the stand-alone key check `validate_keys`. Three things the proxy asks of
 * foreign code are parameters: URL parsing (`parseUrl`), the key store's
 * `load_all_keys` (`keysOf`), and header-value validity of
 * `"Bearer " + key` (`headerOk`).
 */
module Snapshot {
  import opened Common
  import opened Text
  import opened Seqs
  import opened Config
  import opened Router
  import opened UriJoin

  const MAX_WEIGHT: nat := 100

  /** What `Uri::parse` yields: a scheme and an authority if present, and the path. */
  datatype ParsedUrl = ParsedUrl(scheme: Option<string>, authority: Option<string>, path: string)

  datatype SnapshotError =
    | NoUpstreams
    | DuplicateId(id: string)
    | UrlUnparsable(id: string)
    | MissingScheme(id: string)
    | MissingAuthority(id: string)
    | InvalidKey(id: string)

  datatype KeyError = NoKeys | KeyNotHeaderSafe

  function BearerValue(key: string): string {
    "Bearer " + key
  }

  // ---- keys ----

  /** Key states fresh from the store: no cooldown and no failures yet. */
  function FreshStates(names: seq<string>): (ks: seq<KeyState>)
    ensures |ks| == |names|
    ensures forall i :: 0 <= i < |names| ==> ks[i] == KeyState(names[i], 0, 0)
  {
    if |names| == 0 then [] else [KeyState(names[0], 0, 0)] + FreshStates(names[1..])
  }

  predicate AllSafe(clean: seq<string>, headerOk: string -> bool) {
    forall i :: 0 <= i < |clean| ==> headerOk(BearerValue(clean[i]))
  }

  /** Every trimmed, non-blank key makes a valid `Authorization` value. */
  predicate AllHeaderSafe(keys: seq<string>, headerOk: string -> bool) {
    AllSafe(TrimAndDropBlank(keys), headerOk)
  }

  lemma AllSafeCons(k: string, rest: seq<string>, headerOk: string -> bool)
    ensures AllSafe([k] + rest, headerOk) <==> headerOk(BearerValue(k)) && AllSafe(rest, headerOk)
  {
    var all := [k] + rest;
    assert all[0] == k;
    assert forall i :: 0 <= i < |rest| ==> all[i + 1] == rest[i];
    if headerOk(BearerValue(k)) && AllSafe(rest, headerOk) {
      forall i | 0 <= i < |all| ensures headerOk(BearerValue(all[i])) {
        if i > 0 {
          assert all[i] == rest[i - 1];
        }
      }
    }
  }

  /** The header check of a list is the check of its first key (when not blank) and of the rest. */
  lemma AllHeaderSafeStep(keys: seq<string>, headerOk: string -> bool)
    requires |keys| > 0
    ensures AllHeaderSafe(keys, headerOk) <==>
      (|Trim(keys[0])| == 0 || headerOk(BearerValue(Trim(keys[0])))) && AllHeaderSafe(keys[1..], headerOk)
  {
    var k := Trim(keys[0]);
    if |k| > 0 {
      assert TrimAndDropBlank(keys) == [k] + TrimAndDropBlank(keys[1..]);
      AllSafeCons(k, TrimAndDropBlank(keys[1..]), headerOk);
    }
  }

  /**
   * `build_key_states`: each key trimmed, blank ones skipped, the rest turned
   * into fresh key states in order; the first key that cannot be sent in a
   * header fails the whole list. Keys are not de-duplicated.
   */
  function BuildKeyStates(keys: seq<string>, headerOk: string -> bool): (r: Result<seq<KeyState>, KeyError>)
    ensures r.Ok? <==> AllHeaderSafe(keys, headerOk)
    ensures r.Err? ==> r.error == KeyNotHeaderSafe
    ensures r.Ok? ==> r.value == FreshStates(TrimAndDropBlank(keys))
  {
    if |keys| == 0 then Ok([])
    else
      var k := Trim(keys[0]);
      var rest := BuildKeyStates(keys[1..], headerOk);
      AllHeaderSafeStep(keys, headerOk);
      if |k| == 0 then rest
      else if !headerOk(BearerValue(k)) then Err(KeyNotHeaderSafe)
      else if rest.Err? then rest
      else
        assert ([k] + TrimAndDropBlank(keys[1..]))[1..] == TrimAndDropBlank(keys[1..]);
        Ok([KeyState(k, 0, 0)] + rest.value)
  }

  /**
   * `validate_keys`: the same header check on the non-blank keys, and at
   * least one non-blank key; a bad key is reported before an empty list.
   */
  function ValidateKeys(keys: seq<string>, headerOk: string -> bool): (r: Result<(), KeyError>)
    ensures r.Ok? <==> |TrimAndDropBlank(keys)| > 0 && AllHeaderSafe(keys, headerOk)
    ensures r == Err(NoKeys) <==> |TrimAndDropBlank(keys)| == 0
    ensures r == Err(KeyNotHeaderSafe) <==> !AllHeaderSafe(keys, headerOk)
  {
    if |keys| == 0 then Err(NoKeys)
    else
      var k := Trim(keys[0]);
      var rest := ValidateKeys(keys[1..], headerOk);
      AllHeaderSafeStep(keys, headerOk);
      if |k| == 0 then rest
      else if !headerOk(BearerValue(k)) then Err(KeyNotHeaderSafe)
      else if rest == Err(KeyNotHeaderSafe) then rest
      else Ok(())
  }

  /** A key list `validate_keys` accepts loads into a non-empty list of key states. */
  lemma ValidatedKeysBuild(keys: seq<string>, headerOk: string -> bool)
    requires ValidateKeys(keys, headerOk).Ok?
    ensures BuildKeyStates(keys, headerOk).Ok? && |BuildKeyStates(keys, headerOk).value| > 0
  {
  }

  // ---- one upstream ----

  /** `unwrap_or(1).clamp(1, MAX_WEIGHT)`. */
  function Weight(c: UpstreamConfig): (w: nat)
    ensures 1 <= w <= MAX_WEIGHT
    ensures c.weight.None? ==> w == 1
    ensures c.weight.Some? && 1 <= c.weight.value <= MAX_WEIGHT ==> w == c.weight.value
    ensures c.weight.Some? && c.weight.value > MAX_WEIGHT ==> w == MAX_WEIGHT
    ensures c.weight.Some? && c.weight.value < 1 ==> w == 1
  {
    Clamp(c.weight.GetOr(1), 1, MAX_WEIGHT)
  }

  /**
   * `parse_upstream`: the URL must parse and carry a scheme and an
   * authority; the upstream starts with no keys, no models, no cooldown and
   * a zero key counter.
   */
  function ParseUpstream(c: UpstreamConfig, weight: nat, parseUrl: string -> Option<ParsedUrl>): (r: Result<Upstream, SnapshotError>)
    ensures r.Ok? <==> (parseUrl(c.baseUrl).Some? && parseUrl(c.baseUrl).value.scheme.Some? &&
      parseUrl(c.baseUrl).value.authority.Some?)
    ensures r.Err? ==> r.error in {UrlUnparsable(c.id), MissingScheme(c.id), MissingAuthority(c.id)}
    ensures r.Ok? ==> var u := r.value;
      && u.id == c.id && u.baseUrl == c.baseUrl && u.weight == weight
      && u.base.scheme == parseUrl(c.baseUrl).value.scheme.value
      && u.base.authority == parseUrl(c.baseUrl).value.authority.value
      && u.base.path == BasePath(parseUrl(c.baseUrl).value.path)
      && u.keys == [] && u.keyRr == 0 && u.models == {} && u.cooldownUntilMs == 0 && u.failStreak == 0
  {
    match parseUrl(c.baseUrl)
    case None => Err(UrlUnparsable(c.id))
    case Some(p) =>
      if p.scheme.None? then Err(MissingScheme(c.id))
      else if p.authority.None? then Err(MissingAuthority(c.id))
      else
        Ok(Upstream(c.id, c.baseUrl, BaseUri(p.scheme.value, p.authority.value, BasePath(p.path)),
          weight, [], 0, {}, 0, 0))
  }

  /** The upstream one configuration becomes, once its keys are loaded; or why it cannot. */
  function UpstreamOf(c: UpstreamConfig, parseUrl: string -> Option<ParsedUrl>, keysOf: string -> seq<string>,
                      headerOk: string -> bool): (r: Result<Upstream, SnapshotError>)
    ensures r.Ok? <==> ParseUpstream(c, Weight(c), parseUrl).Ok? && BuildKeyStates(keysOf(c.id), headerOk).Ok?
    ensures r.Ok? ==> r.value == ParseUpstream(c, Weight(c), parseUrl).value.(keys := BuildKeyStates(keysOf(c.id), headerOk).value)
  {
    match ParseUpstream(c, Weight(c), parseUrl)
    case Err(e) => Err(e)
    case Ok(u) =>
      match BuildKeyStates(keysOf(c.id), headerOk)
      case Err(_) => Err(InvalidKey(c.id))
      case Ok(ks) => Ok(u.(keys := ks))
  }

  // ---- the schedule ----

  function Repeat(x: nat, n: nat): (r: seq<nat>)
    ensures |r| == n && forall i :: 0 <= i < n ==> r[i] == x
  {
    seq(n, _ => x)
  }

  /** Index `i` written `ws[i]` times, for `i` in order. */
  function Expand(ws: seq<nat>): (r: seq<nat>)
    ensures forall p :: 0 <= p < |r| ==> r[p] < |ws|
  {
    if |ws| == 0 then [] else Expand(ws[..|ws| - 1]) + Repeat(|ws| - 1, ws[|ws| - 1])
  }

  function Weights(cs: seq<UpstreamConfig>): (ws: seq<nat>)
    ensures |ws| == |cs| && forall i :: 0 <= i < |cs| ==> ws[i] == Weight(cs[i])
  {
    seq(|cs|, i requires 0 <= i < |cs| => Weight(cs[i]))
  }

  /** Upstream `x` holds exactly `ws[x]` slots of the schedule. */
  lemma {:induction false} ExpandCount(ws: seq<nat>, x: nat)
    ensures multiset(Expand(ws))[x] == if x < |ws| then ws[x] else 0
  {
    if |ws| > 0 {
      var n := |ws| - 1;
      var a := Expand(ws[..n]);
      ExpandCount(ws[..n], x);
      RepeatCount(n, ws[n], x);
      assert Expand(ws) == a + Repeat(n, ws[n]);
      assert multiset(Expand(ws)) == multiset(a) + multiset(Repeat(n, ws[n]));
      if x < n {
        assert ws[..n][x] == ws[x];
      }
    }
  }

  lemma {:induction false} RepeatCount(x: nat, n: nat, y: nat)
    ensures multiset(Repeat(x, n))[y] == if y == x then n else 0
  {
    if n > 0 {
      RepeatCount(x, n - 1, y);
      assert Repeat(x, n) == Repeat(x, n - 1) + [x];
    }
  }

  /** The schedule lists upstreams in configuration order. */
  lemma {:induction false} ExpandSorted(ws: seq<nat>)
    ensures forall p, q :: 0 <= p < q < |Expand(ws)| ==> Expand(ws)[p] <= Expand(ws)[q]
  {
    if |ws| > 0 {
      var n := |ws| - 1;
      ExpandSorted(ws[..n]);
      var a := Expand(ws[..n]);
      assert forall p :: 0 <= p < |a| ==> a[p] < n;
      assert Expand(ws) == a + Repeat(n, ws[n]);
    }
  }

  // ---- the whole snapshot ----

  /** The configurations before `k` carry pairwise different ids. */
  predicate DistinctIdsBelow(cs: seq<UpstreamConfig>, k: nat) {
    forall a, b :: 0 <= a < b < k && b < |cs| ==> cs[a].id != cs[b].id
  }

  predicate SeenId(cs: seq<UpstreamConfig>, k: nat, id: string) {
    exists j :: 0 <= j < k && j < |cs| && cs[j].id == id
  }

  /** The error the configuration at `k` stops the build with, when all before it were fine. */
  function ErrorAt(cs: seq<UpstreamConfig>, k: nat, parseUrl: string -> Option<ParsedUrl>,
                   keysOf: string -> seq<string>, headerOk: string -> bool): (e: SnapshotError)
    requires k < |cs|
  {
    if SeenId(cs, k, cs[k].id) then DuplicateId(cs[k].id)
    else match UpstreamOf(cs[k], parseUrl, keysOf, headerOk)
      case Err(e) => e
      case Ok(_) => NoUpstreams  // not reached when the build stops at `k`
  }

  /** Configurations `0..k` carry distinct ids and each becomes an upstream. */
  predicate GoodPrefix(cs: seq<UpstreamConfig>, k: nat, parseUrl: string -> Option<ParsedUrl>,
                       keysOf: string -> seq<string>, headerOk: string -> bool)
  {
    && k <= |cs|
    && DistinctIdsBelow(cs, k)
    && forall j :: 0 <= j < k ==> UpstreamOf(cs[j], parseUrl, keysOf, headerOk).Ok?
  }

  lemma GoodPrefixShorter(cs: seq<UpstreamConfig>, k: nat, n: nat, parseUrl: string -> Option<ParsedUrl>,
                          keysOf: string -> seq<string>, headerOk: string -> bool)
    requires k <= n && GoodPrefix(cs, n, parseUrl, keysOf, headerOk)
    ensures GoodPrefix(cs, k, parseUrl, keysOf, headerOk)
  {
  }

  /** The build stops at configuration `k` with error `e`. */
  predicate StopsAt(cs: seq<UpstreamConfig>, k: nat, e: SnapshotError, parseUrl: string -> Option<ParsedUrl>,
                    keysOf: string -> seq<string>, headerOk: string -> bool)
  {
    && k < |cs|
    && GoodPrefix(cs, k, parseUrl, keysOf, headerOk)
    && !GoodPrefix(cs, k + 1, parseUrl, keysOf, headerOk)
    && e == ErrorAt(cs, k, parseUrl, keysOf, headerOk)
  }

  predicate UpstreamsFrom(ups: seq<Upstream>, cs: seq<UpstreamConfig>, k: nat, parseUrl: string -> Option<ParsedUrl>,
                          keysOf: string -> seq<string>, headerOk: string -> bool)
    requires k <= |cs|
  {
    && |ups| == k
    && forall i :: 0 <= i < k ==> UpstreamOf(cs[i], parseUrl, keysOf, headerOk) == Ok(ups[i])
  }

  /** The index maps exactly the ids before `k`, each to its position. */
  ghost predicate IndexFrom(index: map<string, nat>, cs: seq<UpstreamConfig>, k: nat)
    requires k <= |cs|
  {
    && (forall id :: id in index <==> SeenId(cs, k, id))
    && (forall i :: 0 <= i < k ==> cs[i].id in index && index[cs[i].id] == i)
  }

  /** What a built snapshot holds: one upstream per configuration, the id index, and the expanded schedule. */
  ghost predicate BuiltFrom(s: RouterSnapshot, cs: seq<UpstreamConfig>, parseUrl: string -> Option<ParsedUrl>,
                      keysOf: string -> seq<string>, headerOk: string -> bool)
  {
    && UpstreamsFrom(s.upstreams, cs, |cs|, parseUrl, keysOf, headerOk)
    && IndexFrom(s.upstreamIndex, cs, |cs|)
    && s.schedule == Expand(Weights(cs))
  }

  /**
   * `build_snapshot_from_configs`: fails on an empty list; otherwise takes
   * the configurations in order and stops at the first one whose id was
   * already seen, whose URL does not parse, or whose keys do not load.
   */
  method BuildSnapshot(cs: seq<UpstreamConfig>, parseUrl: string -> Option<ParsedUrl>,
                       keysOf: string -> seq<string>, headerOk: string -> bool)
    returns (r: Result<RouterSnapshot, SnapshotError>)
    ensures |cs| == 0 ==> r == Err(NoUpstreams)
    ensures r.Ok? <==> |cs| > 0 && GoodPrefix(cs, |cs|, parseUrl, keysOf, headerOk)
    ensures r.Ok? ==> BuiltFrom(r.value, cs, parseUrl, keysOf, headerOk) && SnapshotOk(r.value)
    ensures r.Err? && |cs| > 0 ==> exists k :: StopsAt(cs, k, r.error, parseUrl, keysOf, headerOk)
  {
    if |cs| == 0 {
      return Err(NoUpstreams);
    }
    var ups, index, schedule, stop := AddAll(cs, parseUrl, keysOf, headerOk);
    if stop.Some? {
      return Err(stop.value);
    }
    r := Ok(RouterSnapshot(ups, index, schedule));
    BuiltIsOk(r.value, cs, parseUrl, keysOf, headerOk);
  }

  /** The loop of `build_snapshot_from_configs`: the parts built, or the error it stopped with. */
  method AddAll(cs: seq<UpstreamConfig>, parseUrl: string -> Option<ParsedUrl>,
                keysOf: string -> seq<string>, headerOk: string -> bool)
    returns (ups: seq<Upstream>, index: map<string, nat>, schedule: seq<nat>, stop: Option<SnapshotError>)
    ensures stop.None? <==> GoodPrefix(cs, |cs|, parseUrl, keysOf, headerOk)
    ensures stop.None? ==> BuiltFrom(RouterSnapshot(ups, index, schedule), cs, parseUrl, keysOf, headerOk)
    ensures stop.Some? ==> exists k :: StopsAt(cs, k, stop.value, parseUrl, keysOf, headerOk)
  {
    ups, index, schedule, stop := [], map[], [], None;
    var i := 0;
    while i < |cs|
      invariant 0 <= i <= |cs| && stop.None?
      invariant BuiltUpTo(cs, i, ups, index, schedule, parseUrl, keysOf, headerOk)
    {
      ups, index, schedule, stop := AddNext(cs, i, ups, index, schedule, parseUrl, keysOf, headerOk);
      if stop.Some? {
        assert StopsAt(cs, i, stop.value, parseUrl, keysOf, headerOk);
        return;
      }
      i := i + 1;
    }
    AllAdded(cs, ups, index, schedule, parseUrl, keysOf, headerOk);
  }

  /** The loop invariant: the first `k` configurations are all added. */
  ghost predicate BuiltUpTo(cs: seq<UpstreamConfig>, k: nat, ups: seq<Upstream>, index: map<string, nat>, schedule: seq<nat>,
                            parseUrl: string -> Option<ParsedUrl>, keysOf: string -> seq<string>, headerOk: string -> bool)
  {
    && k <= |cs|
    && GoodPrefix(cs, k, parseUrl, keysOf, headerOk)
    && UpstreamsFrom(ups, cs, k, parseUrl, keysOf, headerOk)
    && IndexFrom(index, cs, k)
    && schedule == Expand(Weights(cs)[..k])
  }

  lemma AllAdded(cs: seq<UpstreamConfig>, ups: seq<Upstream>, index: map<string, nat>, schedule: seq<nat>,
                 parseUrl: string -> Option<ParsedUrl>, keysOf: string -> seq<string>, headerOk: string -> bool)
    requires BuiltUpTo(cs, |cs|, ups, index, schedule, parseUrl, keysOf, headerOk)
    ensures GoodPrefix(cs, |cs|, parseUrl, keysOf, headerOk)
    ensures BuiltFrom(RouterSnapshot(ups, index, schedule), cs, parseUrl, keysOf, headerOk)
  {
    assert Weights(cs)[..|cs|] == Weights(cs);
  }

  /** One turn of the loop: configuration `i` is added, or the build stops at it. */
  method AddNext(cs: seq<UpstreamConfig>, i: nat, ups: seq<Upstream>, index: map<string, nat>, schedule: seq<nat>,
                 parseUrl: string -> Option<ParsedUrl>, keysOf: string -> seq<string>, headerOk: string -> bool)
    returns (ups': seq<Upstream>, index': map<string, nat>, schedule': seq<nat>, stop: Option<SnapshotError>)
    requires i < |cs| && BuiltUpTo(cs, i, ups, index, schedule, parseUrl, keysOf, headerOk)
    ensures stop.Some? ==> StopsAt(cs, i, stop.value, parseUrl, keysOf, headerOk) && !GoodPrefix(cs, |cs|, parseUrl, keysOf, headerOk)
    ensures stop.None? ==> BuiltUpTo(cs, i + 1, ups', index', schedule', parseUrl, keysOf, headerOk)
  {
    var c := cs[i];
    ups', index', schedule' := ups, index, schedule;
    if c.id in index {
      stop := Some(DuplicateId(c.id));
      StopAt(cs, i, stop.value, parseUrl, keysOf, headerOk);
      return;
    }
    var u := UpstreamOf(c, parseUrl, keysOf, headerOk);
    if u.Err? {
      stop := Some(u.error);
      StopAt(cs, i, stop.value, parseUrl, keysOf, headerOk);
      return;
    }
    AddStep(cs, i, ups, index, schedule, u.value, parseUrl, keysOf, headerOk);
    ups', index', schedule', stop := ups + [u.value], index[c.id := i], schedule + Repeat(i, Weight(c)), None;
  }

  /** When configuration `i` is refused, the build stops there with `ErrorAt(i)`. */
  lemma StopAt(cs: seq<UpstreamConfig>, i: nat, e: SnapshotError, parseUrl: string -> Option<ParsedUrl>,
               keysOf: string -> seq<string>, headerOk: string -> bool)
    requires i < |cs| && GoodPrefix(cs, i, parseUrl, keysOf, headerOk)
    requires (SeenId(cs, i, cs[i].id) && e == DuplicateId(cs[i].id)) ||
      (!SeenId(cs, i, cs[i].id) && UpstreamOf(cs[i], parseUrl, keysOf, headerOk) == Err(e))
    ensures StopsAt(cs, i, e, parseUrl, keysOf, headerOk) && !GoodPrefix(cs, |cs|, parseUrl, keysOf, headerOk)
  {
  }

  /** Adding configuration `i` keeps every loop invariant. */
  lemma AddStep(cs: seq<UpstreamConfig>, i: nat, ups: seq<Upstream>, index: map<string, nat>, schedule: seq<nat>,
                u: Upstream, parseUrl: string -> Option<ParsedUrl>, keysOf: string -> seq<string>,
                headerOk: string -> bool)
    requires i < |cs| && GoodPrefix(cs, i, parseUrl, keysOf, headerOk)
    requires UpstreamsFrom(ups, cs, i, parseUrl, keysOf, headerOk) && IndexFrom(index, cs, i)
    requires schedule == Expand(Weights(cs)[..i])
    requires cs[i].id !in index && UpstreamOf(cs[i], parseUrl, keysOf, headerOk) == Ok(u)
    ensures GoodPrefix(cs, i + 1, parseUrl, keysOf, headerOk)
    ensures UpstreamsFrom(ups + [u], cs, i + 1, parseUrl, keysOf, headerOk)
    ensures IndexFrom(index[cs[i].id := i], cs, i + 1)
    ensures schedule + Repeat(i, Weight(cs[i])) == Expand(Weights(cs)[..i + 1])
  {
    GoodStep(cs, i, parseUrl, keysOf, headerOk);
    IndexStep(index, cs, i);
    UpstreamsStep(ups, cs, i, u, parseUrl, keysOf, headerOk);
    ScheduleStep(cs, i);
  }

  lemma UpstreamsStep(ups: seq<Upstream>, cs: seq<UpstreamConfig>, i: nat, u: Upstream, parseUrl: string -> Option<ParsedUrl>,
                      keysOf: string -> seq<string>, headerOk: string -> bool)
    requires i < |cs| && UpstreamsFrom(ups, cs, i, parseUrl, keysOf, headerOk)
    requires UpstreamOf(cs[i], parseUrl, keysOf, headerOk) == Ok(u)
    ensures UpstreamsFrom(ups + [u], cs, i + 1, parseUrl, keysOf, headerOk)
  {
    var ups' := ups + [u];
    forall j | 0 <= j < i + 1 ensures UpstreamOf(cs[j], parseUrl, keysOf, headerOk) == Ok(ups'[j]) {
      if j < i {
        assert ups'[j] == ups[j];
      }
    }
  }

  lemma ScheduleStep(cs: seq<UpstreamConfig>, i: nat)
    requires i < |cs|
    ensures Expand(Weights(cs)[..i]) + Repeat(i, Weight(cs[i])) == Expand(Weights(cs)[..i + 1])
  {
    assert Weights(cs)[..i + 1][..i] == Weights(cs)[..i];
  }

  lemma GoodStep(cs: seq<UpstreamConfig>, i: nat, parseUrl: string -> Option<ParsedUrl>,
                 keysOf: string -> seq<string>, headerOk: string -> bool)
    requires i < |cs| && GoodPrefix(cs, i, parseUrl, keysOf, headerOk)
    requires !SeenId(cs, i, cs[i].id) && UpstreamOf(cs[i], parseUrl, keysOf, headerOk).Ok?
    ensures GoodPrefix(cs, i + 1, parseUrl, keysOf, headerOk)
  {
    forall a, b | 0 <= a < b < i + 1 && b < |cs| ensures cs[a].id != cs[b].id {
      if b == i {
        assert !(0 <= a < i && a < |cs| && cs[a].id == cs[i].id);
      }
    }
  }

  lemma IndexStep(index: map<string, nat>, cs: seq<UpstreamConfig>, i: nat)
    requires i < |cs| && IndexFrom(index, cs, i) && cs[i].id !in index
    ensures IndexFrom(index[cs[i].id := i], cs, i + 1)
  {
    var index' := index[cs[i].id := i];
    forall id ensures id in index' <==> SeenId(cs, i + 1, id) {
      if SeenId(cs, i + 1, id) {
        var j :| 0 <= j < i + 1 && j < |cs| && cs[j].id == id;
        if j < i {
          assert SeenId(cs, i, id);
        }
      }
      if id in index && id != cs[i].id {
        var j :| 0 <= j < i && j < |cs| && cs[j].id == id;
        assert SeenId(cs, i + 1, id);
      }
    }
  }

  lemma BuiltIsOk(s: RouterSnapshot, cs: seq<UpstreamConfig>, parseUrl: string -> Option<ParsedUrl>,
                  keysOf: string -> seq<string>, headerOk: string -> bool)
    requires BuiltFrom(s, cs, parseUrl, keysOf, headerOk)
    ensures SnapshotOk(s)
  {
    forall id | id in s.upstreamIndex
      ensures s.upstreamIndex[id] < |s.upstreams| && s.upstreams[s.upstreamIndex[id]].id == id
    {
      var j :| 0 <= j < |cs| && cs[j].id == id;
      assert UpstreamOf(cs[j], parseUrl, keysOf, headerOk).value.id == cs[j].id;
    }
  }

  /** In a built snapshot each upstream holds `weight` slots of the schedule, its weight clamped into [1, 100]. */
  lemma ScheduleWeights(s: RouterSnapshot, cs: seq<UpstreamConfig>, parseUrl: string -> Option<ParsedUrl>,
                        keysOf: string -> seq<string>, headerOk: string -> bool, x: nat)
    requires BuiltFrom(s, cs, parseUrl, keysOf, headerOk) && x < |cs|
    ensures multiset(s.schedule)[x] == Weight(cs[x]) == s.upstreams[x].weight
    ensures 1 <= s.upstreams[x].weight <= MAX_WEIGHT
    ensures forall p, q :: 0 <= p < q < |s.schedule| ==> s.schedule[p] <= s.schedule[q]
  {
    ExpandCount(Weights(cs), x);
    ExpandSorted(Weights(cs));
  }
}
