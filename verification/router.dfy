/**
 * The routing state of the proxy (`RouterSnapshot`, `Upstream`, `KeyState`)
 * and the decisions taken on it: key and upstream bans with capped
 * exponential backoff, round-robin key selection inside an upstream, the
 * weighted round-robin over upstreams, and the reaction to an upstream's
 * answer. Atomics are plain fields; the clock is the `now` parameter; the
 * statistics counters are left out.
 */
module Router {
  import opened Common
  import opened Config

  datatype KeyState = KeyState(key: string, cooldownUntilMs: u64, failStreak: u32)

  /** The parts of an upstream's `base_url` the proxy keeps; `path` has its trailing slashes removed. */
  datatype BaseUri = BaseUri(scheme: string, authority: string, path: string)

  datatype Upstream = Upstream(
    id: string,
    baseUrl: string,
    base: BaseUri,
    weight: nat,
    keys: seq<KeyState>,
    keyRr: u64,
    models: set<string>,
    cooldownUntilMs: u64,
    failStreak: u32)

  datatype RouterSnapshot = RouterSnapshot(
    upstreams: seq<Upstream>,
    upstreamIndex: map<string, nat>,
    schedule: seq<nat>)

  /** Every schedule slot and every index entry names an existing upstream, and the index agrees with the ids. */
  predicate SnapshotOk(snap: RouterSnapshot) {
    && (forall p :: 0 <= p < |snap.schedule| ==> snap.schedule[p] < |snap.upstreams|)
    && (forall id :: id in snap.upstreamIndex ==>
          snap.upstreamIndex[id] < |snap.upstreams| && snap.upstreams[snap.upstreamIndex[id]].id == id)
  }

  // ---- bans ----

  /** The exponent of a ban: the streak before it, capped by `max_backoff_pow` and by 30. */
  function BackoffPow(streak: u32, maxBackoffPow: u32): (p: nat)
    ensures p <= 30 && p <= maxBackoffPow && p <= streak
    ensures p == streak || p == maxBackoffPow || p == 30
  {
    Min(streak, Min(maxBackoffPow, 30))
  }

  lemma Pow2Below30(p: nat)
    requires p <= 30
    ensures Pow2(p) <= Pow2(30) < U64_MODULUS
  {
    assert Pow2(10) == 1024;
    assert Pow2(20) == 1024 * 1024;
    assert Pow2(30) == 0x4000_0000;
    Pow2Monotone(p, 30);
  }

  /** A ban's effect on a streak counter and a cooldown field. */
  datatype Ban = Ban(streak: u32, untilMs: u64)

  /**
   * `ban_key`/`ban_upstream`: the streak goes up by one (the atomic counter
   * wraps at 2^32) and the cooldown ends `base · 2^pow` after `now`,
   * saturating at `u64::MAX`.
   */
  function BanAfter(streak: u32, maxBackoffPow: u32, baseMs: u64, nowMs: u64): (b: Ban)
    ensures b.streak == (streak + 1) % U32_MODULUS
    ensures b.untilMs >= nowMs
    ensures b.untilMs == Min(nowMs + baseMs * Pow2(BackoffPow(streak, maxBackoffPow)), U64_MAX)
  {
    var pow := BackoffPow(streak, maxBackoffPow);
    Pow2Below30(pow);
    SaturatingDeadline(nowMs, baseMs, Pow2(pow));
    Ban(WrappingAddU32(streak, 1), SaturatingAddU64(nowMs, SaturatingMulU64(baseMs, Pow2(pow))))
  }

  /** Saturating the product and then the sum is saturating the exact `now + base · mult` once. */
  lemma SaturatingDeadline(nowMs: u64, baseMs: u64, mult: u64)
    ensures SaturatingAddU64(nowMs, SaturatingMulU64(baseMs, mult)) == Min(nowMs + baseMs * mult, U64_MAX)
  {
    var m := baseMs * mult;
    assert m >= 0;
    if m > U64_MAX {
      assert nowMs + m > U64_MAX;
    }
  }

  /** A longer streak never gives a shorter ban. */
  lemma BanMonotone(s1: u32, s2: u32, maxBackoffPow: u32, baseMs: u64, nowMs: u64)
    requires s1 <= s2
    ensures BanAfter(s1, maxBackoffPow, baseMs, nowMs).untilMs <= BanAfter(s2, maxBackoffPow, baseMs, nowMs).untilMs
  {
    Pow2Monotone(BackoffPow(s1, maxBackoffPow), BackoffPow(s2, maxBackoffPow));
    MulMonotoneLeft(baseMs, Pow2(BackoffPow(s1, maxBackoffPow)), Pow2(BackoffPow(s2, maxBackoffPow)));
  }

  /** No ban lasts longer than `base · 2^min(max_backoff_pow, 30)`. */
  lemma BanCapped(streak: u32, maxBackoffPow: u32, baseMs: u64, nowMs: u64)
    ensures BanAfter(streak, maxBackoffPow, baseMs, nowMs).untilMs <= nowMs + baseMs * Pow2(Min(maxBackoffPow, 30))
  {
    var p := BackoffPow(streak, maxBackoffPow);
    var q := Min(maxBackoffPow, 30);
    Pow2Monotone(p, q);
    CappedSum(nowMs, baseMs, Pow2(p), Pow2(q));
  }

  /** A larger multiplier never gives an earlier saturated deadline. */
  lemma CappedSum(nowMs: nat, baseMs: nat, m1: nat, m2: nat)
    requires m1 <= m2
    ensures Min(nowMs + baseMs * m1, U64_MAX) <= nowMs + baseMs * m2
  {
    MulMonotoneLeft(baseMs, m1, m2);
  }

  lemma MulMonotoneLeft(a: nat, x: nat, y: nat)
    requires x <= y
    ensures a * x <= a * y
  {
  }

  function BanKey(k: KeyState, maxBackoffPow: u32, baseMs: u64, nowMs: u64): (r: KeyState)
    ensures r.key == k.key
    ensures Ban(r.failStreak, r.cooldownUntilMs) == BanAfter(k.failStreak, maxBackoffPow, baseMs, nowMs)
  {
    var b := BanAfter(k.failStreak, maxBackoffPow, baseMs, nowMs);
    k.(failStreak := b.streak, cooldownUntilMs := b.untilMs)
  }

  function BanUpstream(u: Upstream, maxBackoffPow: u32, baseMs: u64, nowMs: u64): (r: Upstream)
    ensures r == u.(failStreak := r.failStreak, cooldownUntilMs := r.cooldownUntilMs)
    ensures Ban(r.failStreak, r.cooldownUntilMs) == BanAfter(u.failStreak, maxBackoffPow, baseMs, nowMs)
  {
    var b := BanAfter(u.failStreak, maxBackoffPow, baseMs, nowMs);
    u.(failStreak := b.streak, cooldownUntilMs := b.untilMs)
  }

  // ---- key selection ----

  predicate KeyReady(k: KeyState, nowMs: u64) {
    k.cooldownUntilMs <= nowMs
  }

  /** The position a scan of `n` slots reads at offset `i` from the counter value `start` (`(start + i) % n`, wrapping at 2^64). */
  function Slot(start: u64, i: nat, n: nat): (p: nat)
    requires n > 0
    ensures p < n
  {
    ((start + i) % U64_MODULUS) % n
  }

  /** Without a wrap of the counter, the slots of offsets `0..n` are all `n` positions. */
  lemma SlotsCover(start: u64, n: nat, p: nat)
    requires 0 <= p < n && start + n <= U64_MODULUS
    ensures RoundRobinOffset(start, n, p) < n && Slot(start, RoundRobinOffset(start, n, p), n) == p
  {
    RoundRobinHits(start, n, p);
  }

  /** The first offset from `i` on whose key is out of cooldown. */
  function ScanKeys(keys: seq<KeyState>, start: u64, i: nat, nowMs: u64): (r: Option<nat>)
    requires |keys| > 0 && i <= |keys|
    ensures r.Some? ==> i <= r.value < |keys| && KeyReady(keys[Slot(start, r.value, |keys|)], nowMs)
    ensures r.Some? ==> forall j :: i <= j < r.value ==> !KeyReady(keys[Slot(start, j, |keys|)], nowMs)
    ensures r.None? ==> forall j :: i <= j < |keys| ==> !KeyReady(keys[Slot(start, j, |keys|)], nowMs)
    decreases |keys| - i
  {
    if i == |keys| then None
    else if KeyReady(keys[Slot(start, i, |keys|)], nowMs) then Some(i)
    else ScanKeys(keys, start, i + 1, nowMs)
  }

  /**
   * `Upstream::select_key`: advances the key counter and returns the index of
   * the first key out of cooldown in rotation order from the old counter.
   */
  function SelectKey(u: Upstream, nowMs: u64): (r: (Upstream, Option<nat>))
    ensures |u.keys| == 0 ==> r == (u, None)
    ensures |u.keys| > 0 ==> r.0 == u.(keyRr := (u.keyRr + 1) % U64_MODULUS)
    ensures r.1.Some? ==> r.1.value < |u.keys| && KeyReady(u.keys[r.1.value], nowMs)
    ensures r.1.Some? ==> exists off :: (0 <= off < |u.keys| && r.1.value == Slot(u.keyRr, off, |u.keys|) &&
      forall j :: 0 <= j < off ==> !KeyReady(u.keys[Slot(u.keyRr, j, |u.keys|)], nowMs))
    ensures r.1.None? <==> (|u.keys| == 0 ||
      forall j :: 0 <= j < |u.keys| ==> !KeyReady(u.keys[Slot(u.keyRr, j, |u.keys|)], nowMs))
  {
    var n := |u.keys|;
    if n == 0 then (u, None)
    else
      var u' := u.(keyRr := WrappingAddU64(u.keyRr, 1));
      match ScanKeys(u.keys, u.keyRr, 0, nowMs)
      case None => (u', None)
      case Some(off) => (u', Some(Slot(u.keyRr, off, n)))
  }

  predicate HasReadyKey(u: Upstream, nowMs: u64) {
    exists k :: 0 <= k < |u.keys| && KeyReady(u.keys[k], nowMs)
  }

  /** Unless the key counter is about to wrap, `select_key` finds nothing exactly when every key is cooling down. */
  lemma SelectKeyComplete(u: Upstream, nowMs: u64)
    requires u.keyRr + |u.keys| <= U64_MODULUS
    ensures SelectKey(u, nowMs).1.None? <==> !HasReadyKey(u, nowMs)
  {
    if SelectKey(u, nowMs).1.None? && HasReadyKey(u, nowMs) {
      var k :| 0 <= k < |u.keys| && KeyReady(u.keys[k], nowMs);
      SlotsCover(u.keyRr, |u.keys|, k);
    }
  }

  // ---- upstream selection ----

  /** What `select_for_model` accepts in an upstream: the model (if one is asked for), no cooldown, a ready key. */
  predicate UpstreamReady(u: Upstream, nowMs: u64, model: Option<string>) {
    && (model.Some? ==> model.value in u.models)
    && u.cooldownUntilMs <= nowMs
    && HasReadyKey(u, nowMs)
  }

  datatype Selected = Selected(upstream: nat, key: nat)

  /** Two upstream lists that differ at most in the key counters. */
  predicate SameButCounters(a: seq<Upstream>, b: seq<Upstream>) {
    |a| == |b| && forall j :: 0 <= j < |a| ==> b[j] == a[j].(keyRr := b[j].keyRr)
  }

  /** Each counter has room for one full scan per schedule slot before it wraps. */
  predicate CountersFar(snap: RouterSnapshot, rr: u64) {
    && rr + |snap.schedule| <= U64_MODULUS
    && forall j :: 0 <= j < |snap.upstreams| ==>
         snap.upstreams[j].keyRr + |snap.upstreams[j].keys| + |snap.schedule| <= U64_MODULUS
  }

  /**
   * One schedule slot of `select_for_model`: an upstream that lacks the model
   * or is cooling down is skipped without touching it; otherwise
   * `select_key` runs on it.
   */
  function TryUpstream(u: Upstream, nowMs: u64, model: Option<string>): (r: (Upstream, Option<nat>))
    ensures r.0 == u.(keyRr := r.0.keyRr) && r.0.keyRr <= u.keyRr + 1
    ensures r.1.Some? ==> UpstreamReady(u, nowMs, model) && r.1.value < |u.keys| && KeyReady(u.keys[r.1.value], nowMs)
    ensures r.1.None? && u.keyRr + |u.keys| <= U64_MODULUS ==> !UpstreamReady(u, nowMs, model)
  {
    if (model.Some? && model.value !in u.models) || u.cooldownUntilMs > nowMs then (u, None)
    else
      SelectKeyComplete2(u, nowMs);
      SelectKey(u, nowMs)
  }

  lemma SelectKeyComplete2(u: Upstream, nowMs: u64)
    ensures u.keyRr + |u.keys| <= U64_MODULUS ==> (SelectKey(u, nowMs).1.None? <==> !HasReadyKey(u, nowMs))
  {
    if u.keyRr + |u.keys| <= U64_MODULUS {
      SelectKeyComplete(u, nowMs);
    }
  }

  /**
   * `select` (no model) and `select_for_model`: up to one pass over the
   * schedule from the shared counter `rr`, taking the first upstream that
   * serves the model, is out of cooldown and has a key out of cooldown. Every
   * schedule slot read advances `rr`; every `select_key` call advances that
   * upstream's key counter.
   */
  method SelectFor(snap: RouterSnapshot, rr: u64, nowMs: u64, model: Option<string>)
    returns (ups: seq<Upstream>, rr': u64, sel: Option<Selected>)
    requires SnapshotOk(snap)
    ensures SameButCounters(snap.upstreams, ups)
    ensures |snap.schedule| == 0 ==> sel.None? && rr' == rr && ups == snap.upstreams
    ensures sel.Some? ==> sel.value.upstream < |ups| && sel.value.upstream in snap.schedule
    ensures sel.Some? ==> UpstreamReady(snap.upstreams[sel.value.upstream], nowMs, model)
    ensures sel.Some? ==> (sel.value.key < |ups[sel.value.upstream].keys| &&
      KeyReady(ups[sel.value.upstream].keys[sel.value.key], nowMs))
    ensures sel.None? && CountersFar(snap, rr) ==>
      forall p :: 0 <= p < |snap.schedule| ==> !UpstreamReady(snap.upstreams[snap.schedule[p]], nowMs, model)
  {
    var n := |snap.schedule|;
    ups := snap.upstreams;
    rr' := rr;
    sel := None;
    if n == 0 {
      return;
    }
    ghost var far := CountersFar(snap, rr);
    var i := 0;
    while i < n
      invariant 0 <= i <= n
      invariant sel.None? && Scanned(snap, rr, nowMs, model, far, i, ups, rr')
    {
      ups, rr', sel := ScanNext(snap, rr, nowMs, model, far, i, ups, rr');
      if sel.Some? {
        return;
      }
      i := i + 1;
    }
    if far {
      forall p | 0 <= p < n ensures !UpstreamReady(snap.upstreams[snap.schedule[p]], nowMs, model) {
        SlotsCover(rr, n, p);
      }
    }
  }

  /** The state of the scan of `SelectFor` after `i` slots without a selection. */
  ghost predicate Scanned(snap: RouterSnapshot, rr: u64, nowMs: u64, model: Option<string>, far: bool,
                          i: nat, ups: seq<Upstream>, rr': u64)
    requires SnapshotOk(snap) && |snap.schedule| > 0 && i <= |snap.schedule|
  {
    var n := |snap.schedule|;
    && rr' == (rr + i) % U64_MODULUS
    && CountersWithin(snap.upstreams, ups, i)
    && (far ==> forall j :: 0 <= j < i ==> !UpstreamReady(snap.upstreams[snap.schedule[Slot(rr, j, n)]], nowMs, model))
  }

  /** One slot of the scan: try the upstream it names, and stop there if it yields a key. */
  method ScanNext(snap: RouterSnapshot, rr: u64, nowMs: u64, model: Option<string>, ghost far: bool,
                  i: nat, ups: seq<Upstream>, rr': u64)
    returns (ups2: seq<Upstream>, rr2: u64, sel: Option<Selected>)
    requires SnapshotOk(snap) && |snap.schedule| > 0 && i < |snap.schedule|
    requires far == CountersFar(snap, rr)
    requires Scanned(snap, rr, nowMs, model, far, i, ups, rr')
    ensures sel.None? ==> Scanned(snap, rr, nowMs, model, far, i + 1, ups2, rr2)
    ensures SameButCounters(snap.upstreams, ups2)
    ensures sel.Some? ==> sel.value.upstream < |ups2| && sel.value.upstream in snap.schedule
    ensures sel.Some? ==> UpstreamReady(snap.upstreams[sel.value.upstream], nowMs, model)
    ensures sel.Some? ==> (sel.value.key < |ups2[sel.value.upstream].keys| &&
      KeyReady(ups2[sel.value.upstream].keys[sel.value.key], nowMs))
  {
    var n := |snap.schedule|;
    ghost var slot := Slot(rr, i, n);
    assert rr' % n == slot;
    var uIdx := snap.schedule[rr' % n];
    WrapStep(rr, i);
    rr2 := WrappingAddU64(rr', 1);
    var (u', k) := TryUpstream(ups[uIdx], nowMs, model);
    ReadyIgnoresCounter(snap.upstreams[uIdx], ups[uIdx], nowMs, model);
    if far {
      FarScan(snap, rr, ups, i, uIdx);
      assert k.None? ==> !UpstreamReady(snap.upstreams[snap.schedule[slot]], nowMs, model);
    }
    CountersStep(snap.upstreams, ups, i, uIdx, u');
    ups2 := ups[uIdx := u'];
    sel := if k.Some? then Some(Selected(uIdx, k.value)) else None;
  }

  /** `ups` differs from `base` only in key counters, each advanced by at most `i`. */
  predicate CountersWithin(base: seq<Upstream>, ups: seq<Upstream>, i: nat) {
    && SameButCounters(base, ups)
    && forall j :: 0 <= j < |ups| ==> ups[j].keyRr <= base[j].keyRr + i
  }

  lemma CountersStep(base: seq<Upstream>, ups: seq<Upstream>, i: nat, x: nat, u': Upstream)
    requires CountersWithin(base, ups, i) && x < |ups|
    requires u' == ups[x].(keyRr := u'.keyRr) && u'.keyRr <= ups[x].keyRr + 1
    ensures CountersWithin(base, ups[x := u'], i + 1)
  {
  }

  lemma WrapStep(rr: u64, i: nat)
    ensures WrappingAddU64((rr + i) % U64_MODULUS, 1) == (rr + i + 1) % U64_MODULUS
  {
  }

  /** While the counters are far from wrapping, the upstream scanned at step `i < n` has room for a full key scan. */
  lemma FarScan(snap: RouterSnapshot, rr: u64, ups: seq<Upstream>, i: nat, x: nat)
    requires CountersFar(snap, rr) && CountersWithin(snap.upstreams, ups, i)
    requires i < |snap.schedule| && x < |snap.upstreams|
    ensures ups[x].keyRr + |ups[x].keys| <= U64_MODULUS
  {
    assert ups[x] == snap.upstreams[x].(keyRr := ups[x].keyRr);
  }

  lemma ReadyIgnoresCounter(a: Upstream, b: Upstream, nowMs: u64, model: Option<string>)
    requires b == a.(keyRr := b.keyRr)
    ensures UpstreamReady(a, nowMs, model) == UpstreamReady(b, nowMs, model)
  {
  }

  /** `select`: any upstream. */
  method Select(snap: RouterSnapshot, rr: u64, nowMs: u64) returns (ups: seq<Upstream>, rr': u64, sel: Option<Selected>)
    requires SnapshotOk(snap)
    ensures SameButCounters(snap.upstreams, ups)
    ensures |snap.schedule| == 0 ==> sel.None?
    ensures sel.Some? ==> (sel.value.upstream < |snap.upstreams| &&
      UpstreamReady(snap.upstreams[sel.value.upstream], nowMs, None))
    ensures sel.None? && CountersFar(snap, rr) ==>
      forall p :: 0 <= p < |snap.schedule| ==> !UpstreamReady(snap.upstreams[snap.schedule[p]], nowMs, None)
  {
    ups, rr', sel := SelectFor(snap, rr, nowMs, None);
  }

  /** `select_for_model`: only upstreams whose model set holds `model`. */
  method SelectForModel(snap: RouterSnapshot, model: string, rr: u64, nowMs: u64)
    returns (ups: seq<Upstream>, rr': u64, sel: Option<Selected>)
    requires SnapshotOk(snap)
    ensures SameButCounters(snap.upstreams, ups)
    ensures |snap.schedule| == 0 ==> sel.None?
    ensures sel.Some? ==> (sel.value.upstream < |snap.upstreams| &&
      model in snap.upstreams[sel.value.upstream].models &&
      UpstreamReady(snap.upstreams[sel.value.upstream], nowMs, Some(model)))
    ensures sel.Some? ==> (sel.value.upstream < |ups| && sel.value.key < |ups[sel.value.upstream].keys| &&
      KeyReady(ups[sel.value.upstream].keys[sel.value.key], nowMs))
    ensures sel.None? && CountersFar(snap, rr) ==>
      forall p :: 0 <= p < |snap.schedule| ==> !UpstreamReady(snap.upstreams[snap.schedule[p]], nowMs, Some(model))
  {
    ups, rr', sel := SelectFor(snap, rr, nowMs, Some(model));
  }

  /** `model_exists`: some upstream lists the model. */
  function ModelExists(snap: RouterSnapshot, model: string): (r: bool)
    ensures r <==> exists j :: 0 <= j < |snap.upstreams| && model in snap.upstreams[j].models
  {
    exists j :: 0 <= j < |snap.upstreams| && model in snap.upstreams[j].models
  }

  /**
   * The `model_not_found` check loses nothing: for a model no upstream
   * lists, no schedule slot is ready, so `select_for_model` could only
   * have found nothing.
   */
  lemma UnknownModelNeverReady(snap: RouterSnapshot, model: string, nowMs: u64)
    requires SnapshotOk(snap)
    ensures !ModelExists(snap, model) ==>
      forall p :: 0 <= p < |snap.schedule| ==> !UpstreamReady(snap.upstreams[snap.schedule[p]], nowMs, Some(model))
  {
  }

  // ---- reacting to the upstream ----

  predicate IsServerError(status: nat) {
    500 <= status <= 599
  }

  /**
   * `on_upstream_status`: any answer clears the upstream's streak and
   * cooldown; 429 bans the key for `rate_limit_ms`, 401/403 for
   * `auth_error_ms`; a 5xx bans the upstream for `server_error_ms`; any
   * other status resets the key's streak.
   */
  function OnUpstreamStatus(u: Upstream, key: nat, status: nat, ban: BanConfig, nowMs: u64): (r: Upstream)
    requires key < |u.keys|
    ensures |r.keys| == |u.keys| && r.id == u.id && r.models == u.models && r.keyRr == u.keyRr
    ensures forall j :: 0 <= j < |u.keys| && j != key ==> r.keys[j] == u.keys[j]
    ensures !IsServerError(status) ==> r.failStreak == 0 && r.cooldownUntilMs == 0
    ensures IsServerError(status) ==>
      Ban(r.failStreak, r.cooldownUntilMs) == BanAfter(0, ban.maxBackoffPow, ban.serverErrorMs, nowMs)
    ensures status == 429 ==> r.keys[key] == BanKey(u.keys[key], ban.maxBackoffPow, ban.rateLimitMs, nowMs)
    ensures status == 401 || status == 403 ==>
      r.keys[key] == BanKey(u.keys[key], ban.maxBackoffPow, ban.authErrorMs, nowMs)
    ensures IsServerError(status) ==> r.keys[key] == u.keys[key]
    ensures status != 429 && status != 401 && status != 403 && !IsServerError(status) ==>
      r.keys[key] == u.keys[key].(failStreak := 0)
  {
    var cleared := u.(failStreak := 0, cooldownUntilMs := 0);
    if status == 429 then
      cleared.(keys := u.keys[key := BanKey(u.keys[key], ban.maxBackoffPow, ban.rateLimitMs, nowMs)])
    else if status == 401 || status == 403 then
      cleared.(keys := u.keys[key := BanKey(u.keys[key], ban.maxBackoffPow, ban.authErrorMs, nowMs)])
    else if IsServerError(status) then
      BanUpstream(cleared, ban.maxBackoffPow, ban.serverErrorMs, nowMs)
    else
      cleared.(keys := u.keys[key := u.keys[key].(failStreak := 0)])
  }

  /** Because the streak is cleared first, consecutive 5xx answers always ban the upstream for exactly `server_error_ms`. */
  lemma ServerErrorBanDoesNotEscalate(u: Upstream, key: nat, status: nat, ban: BanConfig, nowMs: u64)
    requires key < |u.keys| && IsServerError(status)
    ensures var r := OnUpstreamStatus(u, key, status, ban, nowMs);
      r.failStreak == 1 && r.cooldownUntilMs == Min(nowMs + ban.serverErrorMs, U64_MAX)
  {
  }

  /** `on_timeout` and `on_network_error`: the upstream is banned for `network_error_ms`; keys are untouched. */
  function OnNetworkFailure(u: Upstream, ban: BanConfig, nowMs: u64): (r: Upstream)
    ensures r.keys == u.keys && r.cooldownUntilMs >= nowMs
    ensures Ban(r.failStreak, r.cooldownUntilMs) == BanAfter(u.failStreak, ban.maxBackoffPow, ban.networkErrorMs, nowMs)
  {
    BanUpstream(u, ban.maxBackoffPow, ban.networkErrorMs, nowMs)
  }
}
