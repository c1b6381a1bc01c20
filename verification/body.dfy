/**
 * Reading a request body chunk by chunk under a size limit: the loop in
 * `forward` (16 MiB, answered with 413 or 502) and `read_body_limit` in the
 * admin API (256 KiB to 50 MiB, answered with 400). Both stop at the first
 * chunk that would take the total past the limit, and at the first read
 * error.
 */
module Body {
  import opened Common

  /** One item of the body stream: a chunk of bytes or a transport error. */
  datatype Chunk = Data(bytes: seq<byte>) | ReadFailure

  datatype BodyError = TooLarge | ReadFailed

  predicate AllData(cs: seq<Chunk>) {
    forall i :: 0 <= i < |cs| ==> cs[i].Data?
  }

  /** The bytes of the data chunks, in order. */
  function Concat(cs: seq<Chunk>): seq<byte> {
    if |cs| == 0 then []
    else Concat(cs[..|cs| - 1]) + (if cs[|cs| - 1].Data? then cs[|cs| - 1].bytes else [])
  }

  /** A longer prefix never has fewer bytes. */
  lemma {:induction false} ConcatPrefixLength(cs: seq<Chunk>, k: nat)
    requires k <= |cs|
    ensures |Concat(cs[..k])| <= |Concat(cs)|
    decreases |cs|
  {
    if k < |cs| {
      var n := |cs| - 1;
      assert cs[..n][..k] == cs[..k];
      ConcatPrefixLength(cs[..n], k);
      assert cs[..|cs|] == cs;
    } else {
      assert cs[..k] == cs;
    }
  }

  /** The read stops at chunk `k`: everything before it was data and fitted. */
  predicate FitsBefore(cs: seq<Chunk>, k: nat, limit: nat) {
    k < |cs| && AllData(cs[..k]) && |Concat(cs[..k])| <= limit
  }

  /**
   * Reads every chunk, failing with `ReadFailed` at a transport error and
   * with `TooLarge` as soon as the bytes so far plus the next chunk exceed
   * `limit`. (`forward` uses `saturating_add`, `read_body_limit` a plain
   * `+`; neither can overflow before the limit is reached, so both are the
   * exact sum here.)
   */
  method ReadBody(cs: seq<Chunk>, limit: nat) returns (r: Result<seq<byte>, BodyError>)
    ensures r.Ok? <==> AllData(cs) && |Concat(cs)| <= limit
    ensures r.Ok? ==> r.value == Concat(cs)
    ensures r == Err(ReadFailed) ==> exists k: nat :: FitsBefore(cs, k, limit) && cs[k].ReadFailure?
    ensures r == Err(TooLarge) ==> exists k: nat :: (FitsBefore(cs, k, limit) && cs[k].Data? &&
      |Concat(cs[..k + 1])| > limit)
  {
    var buf: seq<byte> := [];
    var i := 0;
    while i < |cs|
      invariant 0 <= i <= |cs|
      invariant AllData(cs[..i]) && buf == Concat(cs[..i]) && |buf| <= limit
    {
      assert cs[..i + 1][..i] == cs[..i];
      match cs[i]
      case ReadFailure =>
        assert FitsBefore(cs, i, limit);
        NotAllData(cs, i);
        return Err(ReadFailed);
      case Data(d) =>
        if |buf| + |d| > limit {
          assert FitsBefore(cs, i, limit);
          assert Concat(cs[..i + 1]) == buf + d;
          ConcatPrefixLength(cs, i + 1);
          return Err(TooLarge);
        }
        buf := buf + d;
        i := i + 1;
    }
    assert cs[..i] == cs;
    r := Ok(buf);
  }

  lemma NotAllData(cs: seq<Chunk>, i: nat)
    requires i < |cs| && cs[i].ReadFailure?
    ensures !AllData(cs)
  {
  }
}
