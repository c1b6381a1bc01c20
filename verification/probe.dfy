/**
 * The availability probe: `test_model` sends one chat completion per model
 * to the proxy and retries a 429 or a failed request up to `max_retries`
 * times, and `main` sorts the results into available, unavailable and
 * error models.
 *
 * What each attempt brings back is a parameter (`outcome(j)` for attempt
 * `j`); the one-second pause before retrying after an exception is not
 * modelled.
 */
module Probe {
  /** What one `requests.post` produced: a response, or the exception it raised. */
  datatype Attempt =
    | Response(status: nat)
    | Timeout
    | ConnectionError
    | Other(message: string)

  /** The tuple `test_model` returns. */
  datatype ProbeResult = ProbeResult(model: string, success: bool, status: nat, error: string)

  /** A 429 and every exception lead to another attempt while attempts remain. */
  predicate Retryable(a: Attempt) {
    a == Response(429) || !a.Response?
  }

  /** The result an attempt gives when it is the last one. */
  function Final(model: string, a: Attempt): (r: ProbeResult)
    ensures r.model == model
    ensures r.success <==> a == Response(200)
    ensures a.Response? ==> r.error == "" && r.status == a.status
    ensures !a.Response? ==> r.status == 0 && (r.error == "" <==> a == Other(""))
  {
    match a
    case Response(s) => ProbeResult(model, s == 200, s, "")
    case Timeout => ProbeResult(model, false, 0, "TIMEOUT")
    case ConnectionError => ProbeResult(model, false, 0, "CONNECTION_ERROR")
    case Other(m) => ProbeResult(model, false, 0, m)
  }

  const EXHAUSTED: string := "MAX_RETRIES_EXCEEDED"

  /**
   * `test_model`: attempts `0, 1, ...` until one is not retryable or the
   * last allowed one is reached; that attempt decides the result. With no
   * attempts allowed the result is `MAX_RETRIES_EXCEEDED`. `used` is the
   * number of requests sent.
   */
  method TestModel(model: string, maxRetries: int, outcome: nat -> Attempt) returns (r: ProbeResult, used: nat)
    ensures maxRetries <= 0 ==> used == 0 && r == ProbeResult(model, false, 0, EXHAUSTED)
    ensures maxRetries > 0 ==> 1 <= used <= maxRetries && r == Final(model, outcome(used - 1))
    ensures forall j: nat :: j + 1 < used ==> Retryable(outcome(j))
    ensures used < maxRetries ==> used > 0 && !Retryable(outcome(used - 1))
  {
    var attempt: nat := 0;
    while attempt < maxRetries
      invariant attempt < maxRetries || attempt == 0
      invariant forall j: nat :: j < attempt ==> Retryable(outcome(j))
    {
      var a := outcome(attempt);
      if !Retryable(a) || attempt == maxRetries - 1 {
        return Final(model, a), attempt + 1;
      }
      attempt := attempt + 1;
    }
    r, used := ProbeResult(model, false, 0, EXHAUSTED), 0;
  }

  /** The same retry rule as a recursive definition, from attempt `j` on. */
  function ProbeFrom(model: string, maxRetries: int, outcome: nat -> Attempt, j: nat): (r: ProbeResult)
    requires j < maxRetries
    decreases maxRetries - j
  {
    var a := outcome(j);
    if !Retryable(a) || j == maxRetries - 1 then Final(model, a)
    else ProbeFrom(model, maxRetries, outcome, j + 1)
  }

  /** Every run that `TestModel` can take agrees with the recursive definition. */
  lemma {:induction false} ProbeFromFirstStop(model: string, maxRetries: int, outcome: nat -> Attempt, j: nat, stop: nat)
    requires j <= stop < maxRetries
    requires forall i: nat :: j <= i < stop ==> Retryable(outcome(i))
    requires stop == maxRetries - 1 || !Retryable(outcome(stop))
    ensures ProbeFrom(model, maxRetries, outcome, j) == Final(model, outcome(stop))
    decreases stop - j
  {
    if j < stop {
      assert Retryable(outcome(j));
      ProbeFromFirstStop(model, maxRetries, outcome, j + 1, stop);
    }
  }

  /** `TestModel` computes the recursive definition. */
  method TestModelIsProbeFrom(model: string, maxRetries: int, outcome: nat -> Attempt) returns (r: ProbeResult)
    requires maxRetries > 0
    ensures r == ProbeFrom(model, maxRetries, outcome, 0)
  {
    var used;
    r, used := TestModel(model, maxRetries, outcome);
    ProbeFromFirstStop(model, maxRetries, outcome, 0, used - 1);
  }

  // ---- main: the three lists ----

  datatype Bucket = Available | Unavailable | Errored

  /** `main`: a success is available; status 0 with a message is an error; anything else is unavailable. */
  function Classify(r: ProbeResult): (b: Bucket)
    ensures b == Available <==> r.success
    ensures b == Errored <==> !r.success && r.status == 0 && r.error != ""
  {
    if r.success then Available
    else if r.status == 0 && r.error != "" then Errored
    else Unavailable
  }

  /** What a bucket says about the request that decided it. */
  lemma ClassifyFinal(model: string, a: Attempt)
    ensures Classify(Final(model, a)) == Available <==> a == Response(200)
    ensures Classify(Final(model, a)) == Errored <==> !a.Response? && (a.Other? ==> a.message != "")
    ensures Classify(Final(model, a)) == Unavailable <==>
      (a.Response? && a.status != 200) || a == Other("")
  {
  }

  /** The three lists of `main`, in the order the results arrive. */
  datatype Report = Report(available: seq<string>, unavailable: seq<(string, nat)>, errors: seq<(string, string)>)

  function Size(p: Report): nat {
    |p.available| + |p.unavailable| + |p.errors|
  }

  /** Appending each result to the list its bucket names. */
  function Partition(rs: seq<ProbeResult>): (p: Report)
    ensures Size(p) == |rs|
  {
    if |rs| == 0 then Report([], [], [])
    else
      var p := Partition(rs[..|rs| - 1]);
      var r := rs[|rs| - 1];
      match Classify(r)
      case Available => p.(available := p.available + [r.model])
      case Errored => p.(errors := p.errors + [(r.model, r.error)])
      case Unavailable => p.(unavailable := p.unavailable + [(r.model, r.status)])
  }

  function Join(p: Report, q: Report): Report {
    Report(p.available + q.available, p.unavailable + q.unavailable, p.errors + q.errors)
  }

  /** The lists for two batches of results are the lists of each batch, joined. */
  lemma {:induction false} PartitionConcat(a: seq<ProbeResult>, b: seq<ProbeResult>)
    ensures Partition(a + b) == Join(Partition(a), Partition(b))
    decreases |b|
  {
    if |b| == 0 {
      assert a + b == a;
      var p := Partition(a);
      assert p.available + [] == p.available && p.unavailable + [] == p.unavailable && p.errors + [] == p.errors;
    } else {
      var b' := b[..|b| - 1];
      assert (a + b)[..|a + b| - 1] == a + b';
      assert (a + b)[|a + b| - 1] == b[|b| - 1];
      PartitionConcat(a, b');
      var p := Partition(a);
      var q := Partition(b');
      assert p.available + q.available + [b[|b| - 1].model] == p.available + (q.available + [b[|b| - 1].model]);
      assert p.unavailable + q.unavailable + [(b[|b| - 1].model, b[|b| - 1].status)] ==
        p.unavailable + (q.unavailable + [(b[|b| - 1].model, b[|b| - 1].status)]);
      assert p.errors + q.errors + [(b[|b| - 1].model, b[|b| - 1].error)] ==
        p.errors + (q.errors + [(b[|b| - 1].model, b[|b| - 1].error)]);
    }
  }

  /** How many results fall in a bucket. */
  function CountIn(rs: seq<ProbeResult>, b: Bucket): (n: nat)
    ensures n <= |rs|
  {
    if |rs| == 0 then 0
    else CountIn(rs[..|rs| - 1], b) + (if Classify(rs[|rs| - 1]) == b then 1 else 0)
  }

  /** Each list is exactly as long as the number of results in its bucket. */
  lemma {:induction false} PartitionCounts(rs: seq<ProbeResult>)
    ensures |Partition(rs).available| == CountIn(rs, Available)
    ensures |Partition(rs).unavailable| == CountIn(rs, Unavailable)
    ensures |Partition(rs).errors| == CountIn(rs, Errored)
    decreases |rs|
  {
    if |rs| > 0 {
      PartitionCounts(rs[..|rs| - 1]);
    }
  }

  /** A model is listed as available exactly when one of its results was a success. */
  lemma {:induction false} AvailableMembers(rs: seq<ProbeResult>, m: string)
    ensures m in Partition(rs).available <==> exists i :: 0 <= i < |rs| && rs[i].model == m && rs[i].success
    decreases |rs|
  {
    if |rs| > 0 {
      var init, r := rs[..|rs| - 1], rs[|rs| - 1];
      AvailableMembers(init, m);
      assert m in Partition(rs).available <==> m in Partition(init).available || (r.success && r.model == m);
      SnocWitness(rs, init, (x: ProbeResult) => x.model == m && x.success);
    }
  }

  /** A model is listed as an error exactly when one of its results had status 0 and a message. */
  lemma {:induction false} ErrorMembers(rs: seq<ProbeResult>, m: string, e: string)
    ensures (m, e) in Partition(rs).errors <==>
      exists i :: 0 <= i < |rs| && rs[i].model == m && rs[i].error == e && Classify(rs[i]) == Errored
    decreases |rs|
  {
    if |rs| > 0 {
      var init, r := rs[..|rs| - 1], rs[|rs| - 1];
      ErrorMembers(init, m, e);
      assert (m, e) in Partition(rs).errors <==>
        (m, e) in Partition(init).errors || (Classify(r) == Errored && r.model == m && r.error == e);
      SnocWitness(rs, init, (x: ProbeResult) => x.model == m && x.error == e && Classify(x) == Errored);
    }
  }

  /** A model is listed as unavailable with a status exactly when one of its results was neither a success nor an error. */
  lemma {:induction false} UnavailableMembers(rs: seq<ProbeResult>, m: string, status: nat)
    ensures (m, status) in Partition(rs).unavailable <==>
      exists i :: 0 <= i < |rs| && rs[i].model == m && rs[i].status == status && Classify(rs[i]) == Unavailable
    decreases |rs|
  {
    if |rs| > 0 {
      var init, r := rs[..|rs| - 1], rs[|rs| - 1];
      UnavailableMembers(init, m, status);
      assert (m, status) in Partition(rs).unavailable <==>
        (m, status) in Partition(init).unavailable || (Classify(r) == Unavailable && r.model == m && r.status == status);
      SnocWitness(rs, init, (x: ProbeResult) => x.model == m && x.status == status && Classify(x) == Unavailable);
    }
  }

  /** Some result satisfies `P` exactly when one before the last does, or the last one does. */
  lemma SnocWitness(rs: seq<ProbeResult>, init: seq<ProbeResult>, P: ProbeResult -> bool)
    requires |rs| > 0 && init == rs[..|rs| - 1]
    ensures (exists i :: 0 <= i < |rs| && P(rs[i])) <==>
      (exists i :: 0 <= i < |init| && P(init[i])) || P(rs[|rs| - 1])
  {
    if exists i :: 0 <= i < |init| && P(init[i]) {
      var i :| 0 <= i < |init| && P(init[i]);
      assert rs[i] == init[i];
    }
    if exists i :: 0 <= i < |rs| && P(rs[i]) {
      var i :| 0 <= i < |rs| && P(rs[i]);
      if i < |init| {
        assert init[i] == rs[i];
      }
    }
  }
}
