/**
 * The request log kept for the admin API: a bounded list of recent entries
 * (`RequestsLog::record`/`recent`) and three series of time buckets
 * (`update_bucket`, `classify_status`, `RequestMetrics::update`), plus the
 * names of the three windows (`MetricsWindow`). Counters are unbounded here;
 * the source's `u64` counters would need 2^64 requests to wrap.
 */
module Metrics {
  import opened Common

  // ---- windows ----

  datatype MetricsWindow = Minute | Hour | Day

  /** `MetricsWindow::from_str`: unknown names mean the minute window. */
  function WindowFromStr(s: string): (w: MetricsWindow)
    ensures s != "hour" && s != "day" ==> w == Minute
  {
    if s == "hour" then Hour else if s == "day" then Day else Minute
  }

  /** `MetricsWindow::as_str`. */
  function WindowAsStr(w: MetricsWindow): (s: string)
    ensures s == "minute" || s == "hour" || s == "day"
  {
    match w
    case Minute => "minute"
    case Hour => "hour"
    case Day => "day"
  }

  /** Every window's name reads back as that window. */
  lemma WindowRoundTrip(w: MetricsWindow)
    ensures WindowFromStr(WindowAsStr(w)) == w
  {
  }

  /** A name is echoed back unchanged exactly when it is one of the three window names. */
  lemma WindowNameCanonical(s: string)
    ensures WindowAsStr(WindowFromStr(s)) == s <==> s == "minute" || s == "hour" || s == "day"
  {
  }

  // ---- the bounded log ----

  datatype RequestLogEntry = RequestLogEntry(
    tsMs: u64,
    clientIp: string,
    httpMethod: string,
    path: string,
    model: Option<string>,
    upstreamId: Option<string>,
    status: nat,
    latencyMs: u64,
    reqBytes: nat,
    respBytes: nat,
    promptTokens: Option<u64>,
    completionTokens: Option<u64>,
    totalTokens: Option<u64>)

  /** The entry pushed at the back, then the oldest ones dropped until at most `cap` remain. */
  method RecordEntry(entries: seq<RequestLogEntry>, cap: nat, entry: RequestLogEntry)
    returns (r: seq<RequestLogEntry>)
    ensures |r| == Min(cap, |entries| + 1)
    ensures r == (entries + [entry])[|entries| + 1 - |r|..]
    ensures cap > 0 ==> r[|r| - 1] == entry
  {
    r := entries + [entry];
    while |r| > cap
      invariant |r| >= Min(cap, |entries| + 1)
      invariant r == (entries + [entry])[|entries| + 1 - |r|..]
      decreases |r|
    {
      r := r[1..];
    }
  }

  /** `RequestsLog::recent`: newest first, at most `limit` entries. */
  function Recent(entries: seq<RequestLogEntry>, limit: nat): (r: seq<RequestLogEntry>)
    ensures |r| == Min(limit, |entries|)
    ensures forall i :: 0 <= i < |r| ==> r[i] == entries[|entries| - 1 - i]
  {
    if limit == 0 || |entries| == 0 then []
    else [entries[|entries| - 1]] + Recent(entries[..|entries| - 1], limit - 1)
  }

  // ---- time buckets ----

  datatype MetricsBucket = MetricsBucket(tsMs: u64, total: nat, success: nat, failure: nat, ignored: nat)

  /** `classify_status`: one of success (2xx), ignored (404) or failure (everything else). */
  function ClassifyStatus(status: nat): (r: (nat, nat, nat))
    ensures r.0 + r.1 + r.2 == 1
    ensures r.0 == 1 <==> 200 <= status < 300
    ensures r.2 == 1 <==> status == 404
    ensures r.1 == 1 <==> !(200 <= status < 300) && status != 404
  {
    if 200 <= status < 300 then (1, 0, 0)
    else if status == 404 then (0, 0, 1)
    else (0, 1, 0)
  }

  /** Bucket starts are multiples of the step and each follows the previous by exactly one step. */
  predicate Aligned(bs: seq<MetricsBucket>, step: nat) {
    && step > 0
    && (forall i :: 0 <= i < |bs| ==> bs[i].tsMs % step == 0)
    && (forall i :: 0 < i < |bs| ==> bs[i].tsMs == bs[i - 1].tsMs + step)
  }

  /** Every bucket's total is the sum of its three classes. */
  predicate Balanced(bs: seq<MetricsBucket>) {
    forall i :: 0 <= i < |bs| ==> bs[i].total == bs[i].success + bs[i].failure + bs[i].ignored
  }

  function Empty(ts: u64): MetricsBucket {
    MetricsBucket(ts, 0, 0, 0, 0)
  }

  /** Empty buckets at `to`, `to - step`, ... back to the first one not before `from`, oldest first. */
  function EmptyRun(from: int, to: int, step: nat): (r: seq<MetricsBucket>)
    decreases if to < from then 0 else to - from + 1
  {
    if to < from || to < 0 || to > U64_MAX || step == 0 then []
    else EmptyRun(from, to - step, step) + [Empty(to)]
  }

  function Bump(b: MetricsBucket, success: nat, failure: nat, ignored: nat): MetricsBucket {
    b.(total := b.total + 1, success := b.success + success,
       failure := b.failure + failure, ignored := b.ignored + ignored)
  }

  function BucketStart(ts: u64, step: nat): (s: u64)
    requires step > 0
    ensures s % step == 0 && s <= ts && ts - s < step
  {
    StartIsMultiple(ts, step);
    ts - ts % step
  }

  /**
   * What the bucket series holds after a request at `ts`, before old buckets
   * are dropped: the empty buckets that fill the gap since the newest one,
   * then the request counted in the newest bucket. A timestamp older than the
   * newest bucket is counted in the newest bucket.
   */
  ghost function Extended(bs: seq<MetricsBucket>, ts: u64, step: nat, s: nat, f: nat, ig: nat): seq<MetricsBucket>
    requires step > 0
  {
    var start := BucketStart(ts, step);
    if |bs| == 0 then [Bump(Empty(start), s, f, ig)]
    else
      var last := bs[|bs| - 1];
      if start > last.tsMs then
        bs + EmptyRun(last.tsMs + step, start - step, step) + [Bump(Empty(start), s, f, ig)]
      else bs[..|bs| - 1] + [Bump(last, s, f, ig)]
  }

  /** The gap-filling loop of `update_bucket`: empty buckets after the newest one, up to and including `start`. */
  method FillGap(bs: seq<MetricsBucket>, start: u64, step: u64) returns (r: seq<MetricsBucket>)
    requires step > 0 && U64_MAX % step != 0
    requires Aligned(bs, step) && |bs| > 0 && start % step == 0
    requires start > bs[|bs| - 1].tsMs
    ensures r == bs + EmptyRun(bs[|bs| - 1].tsMs + step, start, step)
  {
    var last := bs[|bs| - 1].tsMs;
    StepApart(last, start, step);
    r := bs;
    ghost var cur: int := last;
    var next := SaturatingAddU64(last, step);
    assert start != U64_MAX;
    while next <= start
      invariant last <= cur <= start && cur % step == 0
      invariant next == Min(cur + step, U64_MAX)
      invariant r == bs + EmptyRun(last + step, cur, step)
      decreases U64_MAX - next
    {
      AddStepMod(cur, step);
      r := r + [Empty(next)];
      cur := next;
      next := SaturatingAddU64(next, step);
    }
    if cur < start {
      StepApart(cur, start, step);
    }
  }

  // ---- multiples of the step ----

  lemma StartIsMultiple(ts: nat, step: nat)
    requires step > 0
    ensures ts - ts % step == (ts / step) * step
    ensures (ts - ts % step) % step == 0
  {
    MulModZero(ts / step, step);
  }

  lemma ModDiff(a: nat, b: nat, step: nat)
    requires step > 0 && a % step == 0 && b % step == 0 && a > b
    ensures (a - b) % step == 0 && (a - b) / step >= 1 && ((a - b) / step) * step == a - b
  {
    var qa := a / step;
    var qb := b / step;
    assert a == qa * step && b == qb * step;
    assert qa > qb by {
      if qa <= qb {
        assert qb * step == qa * step + (qb - qa) * step;
        MulNonneg(qb - qa, step);
      }
    }
    assert a - b == (qa - qb) * step;
    MulModZero(qa - qb, step);
  }

  /** Two different multiples of the step are at least one step apart. */
  lemma StepApart(a: nat, b: nat, step: nat)
    requires step > 0 && a % step == 0 && b % step == 0 && a < b
    ensures a + step <= b
  {
    ModDiff(b, a, step);
    MulAtLeast((b - a) / step, step);
  }

  lemma AddStepMod(a: nat, step: nat)
    requires step > 0 && a % step == 0
    ensures (a + step) % step == 0
  {
    assert a == (a / step) * step;
    assert a + step == (a / step + 1) * step;
    MulModZero(a / step + 1, step);
  }

  lemma MulNonneg(k: nat, step: nat)
    ensures k * step >= 0
  {
  }

  /** Dropping buckets from the front until at most `cap` remain. */
  method DropOldest(bs: seq<MetricsBucket>, cap: nat) returns (r: seq<MetricsBucket>)
    ensures r == bs[|bs| - Min(cap, |bs|)..]
  {
    r := bs;
    while |r| > cap
      invariant |r| >= Min(cap, |bs|)
      invariant r == bs[|bs| - |r|..]
      decreases |r|
    {
      r := r[1..];
    }
  }

  /**
   * `update_bucket`: one request at `ts` classified as (`s`, `f`, `ig`).
   * The steps the proxy uses (one minute, one hour, one day) do not divide
   * 2^64 - 1, which keeps the saturating gap loop finite.
   */
  method UpdateBucket(bs: seq<MetricsBucket>, ts: u64, step: u64, cap: nat, s: nat, f: nat, ig: nat)
    returns (r: seq<MetricsBucket>)
    requires step > 0 && U64_MAX % step != 0
    requires Aligned(bs, step)
    ensures r == AfterUpdate(bs, ts, step, cap, s, f, ig)
  {
    var start := BucketStart(ts, step);
    var ext: seq<MetricsBucket>;
    if |bs| == 0 {
      ext := [Empty(start)];
    } else if start > bs[|bs| - 1].tsMs {
      ext := FillGap(bs, start, step);
    } else {
      ext := bs;
    }
    ext := ext[..|ext| - 1] + [Bump(ext[|ext| - 1], s, f, ig)];
    ExtendedShape(bs, ts, step, s, f, ig, ext);
    r := DropOldest(ext, cap);
  }

  lemma ExtendedShape(bs: seq<MetricsBucket>, ts: u64, step: u64, s: nat, f: nat, ig: nat, ext: seq<MetricsBucket>)
    requires step > 0 && Aligned(bs, step)
    requires var start := BucketStart(ts, step);
      if |bs| == 0 then ext == [Bump(Empty(start), s, f, ig)]
      else if start > bs[|bs| - 1].tsMs then
        var run := bs + EmptyRun(bs[|bs| - 1].tsMs + step, start, step);
        ext == run[..|run| - 1] + [Bump(run[|run| - 1], s, f, ig)]
      else ext == bs[..|bs| - 1] + [Bump(bs[|bs| - 1], s, f, ig)]
    ensures ext == Extended(bs, ts, step, s, f, ig)
  {
    var start := BucketStart(ts, step);
    if |bs| > 0 && start > bs[|bs| - 1].tsMs {
      var last := bs[|bs| - 1].tsMs;
      StepApart(last, start, step);
      var gap := EmptyRun(last + step, start - step, step);
      assert EmptyRun(last + step, start, step) == gap + [Empty(start)];
      assert (bs + gap + [Empty(start)])[..|bs| + |gap|] == bs + gap;
    }
  }

  /** The series after `update_bucket`: the extended series with its oldest buckets dropped down to `cap`. */
  ghost function AfterUpdate(bs: seq<MetricsBucket>, ts: u64, step: nat, cap: nat, s: nat, f: nat, ig: nat): seq<MetricsBucket>
    requires step > 0
  {
    var full := Extended(bs, ts, step, s, f, ig);
    full[|full| - Min(cap, |full|)..]
  }

  lemma {:induction false} EmptyRunAligned(from: int, to: int, step: nat)
    requires step > 0 && 0 <= from && to <= U64_MAX && from % step == 0 && to % step == 0
    ensures var run := EmptyRun(from, to, step);
      (&& Aligned(run, step) && Balanced(run)
       && (|run| == 0 <==> to < from)
       && (|run| > 0 ==> run[0].tsMs == from && run[|run| - 1].tsMs == to))
    decreases if to < from then 0 else to - from + 1
  {
    var run := EmptyRun(from, to, step);
    if from <= to {
      var prev := EmptyRun(from, to - step, step);
      assert run == prev + [Empty(to)];
      if to - step < from {
        if from < to {
          StepApart(from, to, step);
        }
        assert prev == [];
      } else {
        SubStepMod(to, step);
        EmptyRunAligned(from, to - step, step);
        AlignedAppend(prev, [Empty(to)], step);
        BalancedAppend(prev, [Empty(to)]);
      }
    }
  }

  lemma SubStepMod(a: nat, step: nat)
    requires step > 0 && a >= step && a % step == 0
    ensures (a - step) % step == 0
  {
    MulModZero(1, step);
    if a > step {
      ModDiff(a, step, step);
    }
  }

  lemma AlignedAppend(a: seq<MetricsBucket>, b: seq<MetricsBucket>, step: nat)
    requires Aligned(a, step) && Aligned(b, step)
    requires |a| > 0 && |b| > 0 ==> b[0].tsMs == a[|a| - 1].tsMs + step
    ensures Aligned(a + b, step)
  {
    forall i | 0 < i < |a + b| ensures (a + b)[i].tsMs == (a + b)[i - 1].tsMs + step {
      if i > |a| {
        assert (a + b)[i] == b[i - |a|] && (a + b)[i - 1] == b[i - 1 - |a|];
      }
    }
  }

  /** The series stays aligned and bounded by `cap`; the request lands in the newest bucket. */
  lemma {:induction false} UpdateBucketAligned(bs: seq<MetricsBucket>, ts: u64, step: nat, cap: nat, s: nat, f: nat, ig: nat)
    requires Aligned(bs, step)
    ensures var r := AfterUpdate(bs, ts, step, cap, s, f, ig);
      && Aligned(r, step)
      && |r| <= cap
      && (cap > 0 ==>
            (|r| > 0 && r[|r| - 1].tsMs ==
              if |bs| > 0 && BucketStart(ts, step) <= bs[|bs| - 1].tsMs then bs[|bs| - 1].tsMs
              else BucketStart(ts, step)))
  {
    var full := Extended(bs, ts, step, s, f, ig);
    var start := BucketStart(ts, step);
    if |bs| > 0 && start > bs[|bs| - 1].tsMs {
      GapAligned(bs, start, step, Bump(Empty(start), s, f, ig));
    } else if |bs| > 0 {
      assert Aligned(bs[..|bs| - 1], step);
      AlignedAppend(bs[..|bs| - 1], [Bump(bs[|bs| - 1], s, f, ig)], step);
    }
    AlignedSuffix(full, |full| - Min(cap, |full|), step);
  }

  /** Filling the gap up to a newer bucket start keeps the series aligned. */
  lemma GapAligned(bs: seq<MetricsBucket>, start: u64, step: nat, x: MetricsBucket)
    requires Aligned(bs, step) && |bs| > 0 && start % step == 0 && start > bs[|bs| - 1].tsMs
    requires x.tsMs == start
    ensures Aligned(bs + EmptyRun(bs[|bs| - 1].tsMs + step, start - step, step) + [x], step)
  {
    var last := bs[|bs| - 1].tsMs;
    StepApart(last, start, step);
    AddStepMod(last, step);
    SubStepMod(start, step);
    var gap := EmptyRun(last + step, start - step, step);
    EmptyRunAligned(last + step, start - step, step);
    AlignedAppend(bs, gap, step);
    if |gap| == 0 && last + step < start {
      StepApart(last + step, start, step);
    }
    AlignedAppend(bs + gap, [x], step);
  }

  lemma AlignedSuffix(bs: seq<MetricsBucket>, k: nat, step: nat)
    requires Aligned(bs, step) && k <= |bs|
    ensures Aligned(bs[k..], step)
  {
    forall i | 0 < i < |bs| - k ensures bs[k..][i].tsMs == bs[k..][i - 1].tsMs + step {
      assert bs[k..][i] == bs[k + i] && bs[k..][i - 1] == bs[k + i - 1];
    }
  }

  /** A request counts once in its class: balanced buckets stay balanced, and the newest one grows by one. */
  lemma UpdateBucketCounts(bs: seq<MetricsBucket>, ts: u64, step: nat, cap: nat, status: nat)
    requires step > 0 && Balanced(bs)
    ensures var (s, f, ig) := ClassifyStatus(status);
      var r := AfterUpdate(bs, ts, step, cap, s, f, ig);
      && Balanced(r)
      && (cap > 0 ==>
            (|r| > 0 && r[|r| - 1].total ==
              if |bs| > 0 && BucketStart(ts, step) <= bs[|bs| - 1].tsMs then bs[|bs| - 1].total + 1 else 1))
  {
    var (s, f, ig) := ClassifyStatus(status);
    assert s + f + ig == 1;
    ExtendedBalanced(bs, ts, step, s, f, ig);
    var full := Extended(bs, ts, step, s, f, ig);
    BalancedSuffix(full, |full| - Min(cap, |full|));
  }

  /** The extended series is balanced when the added counts sum to one request. */
  lemma ExtendedBalanced(bs: seq<MetricsBucket>, ts: u64, step: nat, s: nat, f: nat, ig: nat)
    requires step > 0 && Balanced(bs) && s + f + ig == 1
    ensures Balanced(Extended(bs, ts, step, s, f, ig))
  {
    var full := Extended(bs, ts, step, s, f, ig);
    var start := BucketStart(ts, step);
    if |bs| > 0 && start > bs[|bs| - 1].tsMs {
      EmptyRunBalanced(bs[|bs| - 1].tsMs + step, start - step, step);
      var gap := EmptyRun(bs[|bs| - 1].tsMs + step, start - step, step);
      assert full == bs + gap + [Bump(Empty(start), s, f, ig)];
      BalancedAppend(bs, gap);
      BalancedAppend(bs + gap, [Bump(Empty(start), s, f, ig)]);
    } else if |bs| > 0 {
      BalancedAppend(bs[..|bs| - 1], [Bump(bs[|bs| - 1], s, f, ig)]);
    }
  }

  lemma BalancedSuffix(bs: seq<MetricsBucket>, k: nat)
    requires Balanced(bs) && k <= |bs|
    ensures Balanced(bs[k..])
  {
    forall i | 0 <= i < |bs| - k
      ensures bs[k..][i].total == bs[k..][i].success + bs[k..][i].failure + bs[k..][i].ignored
    {
      assert bs[k..][i] == bs[k + i];
    }
  }

  lemma {:induction false} EmptyRunBalanced(from: int, to: int, step: nat)
    ensures Balanced(EmptyRun(from, to, step))
    decreases if to < from then 0 else to - from + 1
  {
    if !(to < from || to < 0 || to > U64_MAX || step == 0) {
      EmptyRunBalanced(from, to - step, step);
      BalancedAppend(EmptyRun(from, to - step, step), [Empty(to)]);
    }
  }

  lemma BalancedAppend(a: seq<MetricsBucket>, b: seq<MetricsBucket>)
    requires Balanced(a) && Balanced(b)
    ensures Balanced(a + b)
  {
    forall i | 0 <= i < |a + b|
      ensures (a + b)[i].total == (a + b)[i].success + (a + b)[i].failure + (a + b)[i].ignored
    {
      if i >= |a| {
        assert (a + b)[i] == b[i - |a|];
      }
    }
  }

  // ---- the three series ----

  const MINUTE_MS: u64 := 60_000
  const HOUR_MS: u64 := 3_600_000
  const DAY_MS: u64 := 86_400_000

  datatype RequestMetrics = RequestMetrics(minute: seq<MetricsBucket>, hour: seq<MetricsBucket>, day: seq<MetricsBucket>)

  /** Each series is aligned to its own step and keeps its balance. */
  predicate MetricsOk(m: RequestMetrics) {
    && Aligned(m.minute, MINUTE_MS) && Aligned(m.hour, HOUR_MS) && Aligned(m.day, DAY_MS)
    && Balanced(m.minute) && Balanced(m.hour) && Balanced(m.day)
  }

  /** `RequestMetrics::update`: the minute, hour and day series with 60, 48 and 30 buckets. */
  method UpdateMetrics(m: RequestMetrics, ts: u64, status: nat) returns (r: RequestMetrics)
    requires MetricsOk(m)
    ensures var (s, f, ig) := ClassifyStatus(status);
      && r.minute == AfterUpdate(m.minute, ts, MINUTE_MS, 60, s, f, ig)
      && r.hour == AfterUpdate(m.hour, ts, HOUR_MS, 48, s, f, ig)
      && r.day == AfterUpdate(m.day, ts, DAY_MS, 30, s, f, ig)
  {
    var (s, f, ig) := ClassifyStatus(status);
    var minute := UpdateBucket(m.minute, ts, MINUTE_MS, 60, s, f, ig);
    var hour := UpdateBucket(m.hour, ts, HOUR_MS, 48, s, f, ig);
    var day := UpdateBucket(m.day, ts, DAY_MS, 30, s, f, ig);
    r := RequestMetrics(minute, hour, day);
  }

  /** Every update keeps the three series aligned and balanced, and within 60, 48 and 30 buckets. */
  lemma UpdateMetricsOk(m: RequestMetrics, ts: u64, status: nat)
    requires MetricsOk(m)
    ensures var (s, f, ig) := ClassifyStatus(status);
      var r := RequestMetrics(
        AfterUpdate(m.minute, ts, MINUTE_MS, 60, s, f, ig),
        AfterUpdate(m.hour, ts, HOUR_MS, 48, s, f, ig),
        AfterUpdate(m.day, ts, DAY_MS, 30, s, f, ig));
      MetricsOk(r) && |r.minute| <= 60 && |r.hour| <= 48 && |r.day| <= 30
  {
    var (s, f, ig) := ClassifyStatus(status);
    UpdateBucketAligned(m.minute, ts, MINUTE_MS, 60, s, f, ig);
    UpdateBucketAligned(m.hour, ts, HOUR_MS, 48, s, f, ig);
    UpdateBucketAligned(m.day, ts, DAY_MS, 30, s, f, ig);
    UpdateBucketCounts(m.minute, ts, MINUTE_MS, 60, status);
    UpdateBucketCounts(m.hour, ts, HOUR_MS, 48, status);
    UpdateBucketCounts(m.day, ts, DAY_MS, 30, status);
  }

  /** `MetricsSnapshot`: the series a window name selects. */
  function Snapshot(m: RequestMetrics, w: MetricsWindow): (r: seq<MetricsBucket>)
    ensures w == Minute ==> r == m.minute
    ensures w == Hour ==> r == m.hour
    ensures w == Day ==> r == m.day
  {
    match w
    case Minute => m.minute
    case Hour => m.hour
    case Day => m.day
  }

  datatype RequestsLog = RequestsLog(entries: seq<RequestLogEntry>, metrics: RequestMetrics, cap: nat)

  /** `RequestsLog::record`: the entry is kept in the bounded log and counted in the metrics. */
  method Record(log: RequestsLog, entry: RequestLogEntry) returns (r: RequestsLog)
    requires MetricsOk(log.metrics)
    ensures r.cap == log.cap
    ensures |r.entries| == Min(log.cap, |log.entries| + 1)
    ensures r.entries == (log.entries + [entry])[|log.entries| + 1 - |r.entries|..]
    ensures var (s, f, ig) := ClassifyStatus(entry.status);
      && r.metrics.minute == AfterUpdate(log.metrics.minute, entry.tsMs, MINUTE_MS, 60, s, f, ig)
      && r.metrics.hour == AfterUpdate(log.metrics.hour, entry.tsMs, HOUR_MS, 48, s, f, ig)
      && r.metrics.day == AfterUpdate(log.metrics.day, entry.tsMs, DAY_MS, 30, s, f, ig)
    ensures MetricsOk(r.metrics)
  {
    var entries := RecordEntry(log.entries, log.cap, entry);
    var metrics := UpdateMetrics(log.metrics, entry.tsMs, entry.status);
    UpdateMetricsOk(log.metrics, entry.tsMs, entry.status);
    r := RequestsLog(entries, metrics, log.cap);
  }
}
