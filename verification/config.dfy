/**
 * The proxy's configuration after TOML decoding (`Config`, `BanConfig`,
 * `UpstreamConfig`) and the two checks `Config::load` applies to it:
 * `normalize` (trim and drop blank tokens) and `validate`.
 */
module Config {
  import opened Common
  import opened Text

  datatype BanConfig = BanConfig(
    rateLimitMs: u64,
    serverErrorMs: u64,
    networkErrorMs: u64,
    authErrorMs: u64,
    maxBackoffPow: u32)

  datatype UpstreamConfig = UpstreamConfig(id: string, baseUrl: string, weight: Option<u64>)

  /** The fields the routing and billing logic reads; addresses and paths are left out. */
  datatype Config = Config(
    requestTimeoutMs: u64,
    proxyTokens: Option<seq<string>>,
    adminTokens: seq<string>,
    usageInjectUpstreams: Option<seq<string>>,
    ban: BanConfig,
    upstreams: seq<UpstreamConfig>)

  /** Every entry is trimmed and non-empty. */
  predicate CleanList(ts: seq<string>) {
    forall i :: 0 <= i < |ts| ==> Trimmed(ts[i]) && |ts[i]| > 0
  }

  /** Trims every entry, then keeps the non-empty ones in order (`iter_mut` + `retain`). */
  function TrimAndDropBlank(ts: seq<string>): (r: seq<string>)
    ensures CleanList(r)
    ensures |r| <= |ts|
  {
    if |ts| == 0 then []
    else
      var t := Trim(ts[0]);
      var rest := TrimAndDropBlank(ts[1..]);
      if |t| == 0 then rest else CleanCons(t, rest); [t] + rest
  }

  /** Entries drawn from a clean list make a clean list. */
  lemma CleanListSubset(r: seq<string>, t: seq<string>)
    requires CleanList(t) && forall x :: x in r ==> x in t
    ensures CleanList(r)
  {
    forall i | 0 <= i < |r| ensures Trimmed(r[i]) && |r[i]| > 0 {
      assert r[i] in t;
      var k :| 0 <= k < |t| && t[k] == r[i];
    }
  }

  lemma CleanCons(t: string, rest: seq<string>)
    requires Trimmed(t) && |t| > 0 && CleanList(rest)
    ensures CleanList([t] + rest)
  {
    var ts := [t] + rest;
    forall i | 0 <= i < |ts| ensures Trimmed(ts[i]) && |ts[i]| > 0 {
      if i > 0 {
        assert ts[i] == rest[i - 1];
      }
    }
  }

  /** Exactly the non-blank trimmed entries survive. */
  lemma {:induction false} TrimAndDropBlankMembers(ts: seq<string>, x: string)
    ensures x in TrimAndDropBlank(ts) <==> |x| > 0 && exists j :: 0 <= j < |ts| && x == Trim(ts[j])
  {
    if |ts| > 0 {
      var t := Trim(ts[0]);
      var tail := ts[1..];
      var rest := TrimAndDropBlank(tail);
      assert TrimAndDropBlank(ts) == if |t| == 0 then rest else [t] + rest;
      TrimAndDropBlankMembers(tail, x);
      if x in rest {
        var j :| 0 <= j < |tail| && x == Trim(tail[j]);
        assert ts[j + 1] == tail[j];
      }
      if |x| > 0 && exists j :: 0 <= j < |ts| && x == Trim(ts[j]) {
        var j :| 0 <= j < |ts| && x == Trim(ts[j]);
        if j > 0 {
          assert tail[j - 1] == ts[j];
        }
      }
    }
  }

  lemma {:induction false} TrimAndDropBlankOfClean(ts: seq<string>)
    requires CleanList(ts)
    ensures TrimAndDropBlank(ts) == ts
  {
    if |ts| > 0 {
      TrimOfTrimmed(ts[0]);
      TrimAndDropBlankOfClean(ts[1..]);
      assert ts == [ts[0]] + ts[1..];
    }
  }

  lemma TrimAndDropBlankIdempotent(ts: seq<string>)
    ensures TrimAndDropBlank(TrimAndDropBlank(ts)) == TrimAndDropBlank(ts)
  {
    TrimAndDropBlankOfClean(TrimAndDropBlank(ts));
  }

  /** The optional lists: cleaned, and `None` once nothing is left. */
  function NormalizeOptional(v: Option<seq<string>>): (r: Option<seq<string>>)
    ensures r.Some? ==> v.Some? && |r.value| > 0 && CleanList(r.value)
    ensures r.Some? ==> r.value == TrimAndDropBlank(v.value)
    ensures r.None? ==> v.None? || |TrimAndDropBlank(v.value)| == 0
  {
    match v
    case None => None
    case Some(ts) =>
      var c := TrimAndDropBlank(ts);
      if |c| == 0 then None else Some(c)
  }

  predicate IsNormalized(c: Config) {
    && (c.proxyTokens.Some? ==> |c.proxyTokens.value| > 0 && CleanList(c.proxyTokens.value))
    && CleanList(c.adminTokens)
    && (c.usageInjectUpstreams.Some? ==> |c.usageInjectUpstreams.value| > 0 && CleanList(c.usageInjectUpstreams.value))
  }

  /** `Config::normalize`: only the three token lists change. */
  function Normalize(c: Config): (r: Config)
    ensures IsNormalized(r)
    ensures r.adminTokens == TrimAndDropBlank(c.adminTokens)
    ensures r.proxyTokens == NormalizeOptional(c.proxyTokens)
    ensures r.usageInjectUpstreams == NormalizeOptional(c.usageInjectUpstreams)
    ensures r.requestTimeoutMs == c.requestTimeoutMs && r.ban == c.ban && r.upstreams == c.upstreams
  {
    c.(proxyTokens := NormalizeOptional(c.proxyTokens),
       adminTokens := TrimAndDropBlank(c.adminTokens),
       usageInjectUpstreams := NormalizeOptional(c.usageInjectUpstreams))
  }

  /** A normalized configuration is left as it is. */
  lemma NormalizeOfNormalized(c: Config)
    requires IsNormalized(c)
    ensures Normalize(c) == c
  {
    TrimAndDropBlankOfClean(c.adminTokens);
    NormalizeOptionalOfClean(c.proxyTokens);
    NormalizeOptionalOfClean(c.usageInjectUpstreams);
  }

  lemma NormalizeOptionalOfClean(v: Option<seq<string>>)
    requires v.Some? ==> |v.value| > 0 && CleanList(v.value)
    ensures NormalizeOptional(v) == v
  {
    if v.Some? {
      TrimAndDropBlankOfClean(v.value);
    }
  }

  lemma NormalizeIdempotent(c: Config)
    ensures Normalize(Normalize(c)) == Normalize(c)
  {
    NormalizeOfNormalized(Normalize(c));
  }

  datatype ConfigError =
    | AdminTokensEmpty
    | UpstreamsEmpty
    | UpstreamIdEmpty(index: nat)
    | UpstreamBaseUrlScheme(index: nat)

  predicate UpstreamIdOk(u: UpstreamConfig) {
    |Trim(u.id)| > 0
  }

  predicate BaseUrlOk(u: UpstreamConfig) {
    StartsWith(u.baseUrl, "http://") || StartsWith(u.baseUrl, "https://")
  }

  predicate UpstreamOk(u: UpstreamConfig) {
    UpstreamIdOk(u) && BaseUrlOk(u)
  }

  /**
   * `e` names upstream `e.index`, at or after `i`, as the first from `i` on
   * that fails a check: an empty id is reported before a bad scheme.
   */
  predicate FirstBadAt(ups: seq<UpstreamConfig>, i: nat, e: ConfigError) {
    && (e.UpstreamIdEmpty? || e.UpstreamBaseUrlScheme?)
    && i <= e.index < |ups|
    && (forall j :: i <= j < e.index ==> UpstreamOk(ups[j]))
    && (e.UpstreamIdEmpty? <==> !UpstreamIdOk(ups[e.index]))
    && (e.UpstreamBaseUrlScheme? ==> !BaseUrlOk(ups[e.index]))
  }

  /** The first upstream from position `i` on that fails a check, with the check it fails. */
  function FirstBadUpstream(ups: seq<UpstreamConfig>, i: nat): (r: Option<ConfigError>)
    requires i <= |ups|
    ensures r.None? <==> forall j :: i <= j < |ups| ==> UpstreamOk(ups[j])
    ensures r.Some? ==> FirstBadAt(ups, i, r.value)
    decreases |ups| - i
  {
    if i == |ups| then None
    else if !UpstreamIdOk(ups[i]) then Some(UpstreamIdEmpty(i))
    else if !BaseUrlOk(ups[i]) then Some(UpstreamBaseUrlScheme(i))
    else
      var r := FirstBadUpstream(ups, i + 1);
      assert r.Some? ==> FirstBadAt(ups, i, r.value);
      r
  }

  /** `Config::validate`: succeeds exactly when all four conditions hold; otherwise names the first failure. */
  function Validate(c: Config): (r: Result<(), ConfigError>)
    ensures r.Ok? <==>
      && |c.adminTokens| > 0
      && |c.upstreams| > 0
      && forall j :: 0 <= j < |c.upstreams| ==> UpstreamIdOk(c.upstreams[j]) && BaseUrlOk(c.upstreams[j])
    ensures r == Err(AdminTokensEmpty) <==> |c.adminTokens| == 0
    ensures r == Err(UpstreamsEmpty) <==> |c.adminTokens| > 0 && |c.upstreams| == 0
  {
    if |c.adminTokens| == 0 then Err(AdminTokensEmpty)
    else if |c.upstreams| == 0 then Err(UpstreamsEmpty)
    else
      match FirstBadUpstream(c.upstreams, 0)
      case Some(e) => Err(e)
      case None => Ok(())
  }
}
