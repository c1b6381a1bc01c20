/**
 * Generic sequence vocabulary: element sets, distinctness, first-occurrence
 * de-duplication (what `HashSet::insert` returning `true` selects in a loop),
 * and filtering.
 */
module Seqs {

  function SetOf<T>(xs: seq<T>): set<T> {
    set x | x in xs
  }

  predicate Distinct<T(==)>(xs: seq<T>) {
    forall i, j :: 0 <= i < j < |xs| ==> xs[i] != xs[j]
  }

  /**
   * The elements of `xs` that are not in `seen` and not earlier in `xs`, in
   * the order of their first occurrence.
   */
  function FirstOccurrences<T(==,!new)>(seen: set<T>, xs: seq<T>): (r: seq<T>)
    ensures |r| <= |xs|
    decreases |xs|
  {
    if |xs| == 0 then []
    else if xs[0] in seen then FirstOccurrences(seen, xs[1..])
    else [xs[0]] + FirstOccurrences(seen + {xs[0]}, xs[1..])
  }

  /** No repeats, and exactly the elements of `xs` outside `seen`. */
  lemma {:induction false} FirstOccurrencesSpec<T(!new)>(seen: set<T>, xs: seq<T>)
    ensures Distinct(FirstOccurrences(seen, xs))
    ensures forall x :: x in FirstOccurrences(seen, xs) <==> x in xs && x !in seen
    decreases |xs|
  {
    if |xs| > 0 {
      FirstOccurrencesSpec(seen, xs[1..]);
      FirstOccurrencesSpec(seen + {xs[0]}, xs[1..]);
      assert xs == [xs[0]] + xs[1..];
    }
  }

  /** Appending one element to the input extends the first occurrences by at most that element. */
  lemma {:induction false} FirstOccurrencesSnoc<T(!new)>(seen: set<T>, xs: seq<T>, x: T)
    ensures FirstOccurrences(seen, xs + [x]) ==
      FirstOccurrences(seen, xs) + (if x in seen || x in xs then [] else [x])
    decreases |xs|
  {
    if |xs| == 0 {
      assert [x][1..] == [];
    } else {
      var ys := xs + [x];
      assert ys[0] == xs[0];
      assert ys[1..] == xs[1..] + [x];
      assert xs == [xs[0]] + xs[1..];
      assert (x in xs) == (x == xs[0] || x in xs[1..]);
      if xs[0] in seen {
        FirstOccurrencesSnoc(seen, xs[1..], x);
        assert FirstOccurrences(seen, ys) == FirstOccurrences(seen, ys[1..]);
        assert FirstOccurrences(seen, xs) == FirstOccurrences(seen, xs[1..]);
      } else {
        var seen' := seen + {xs[0]};
        FirstOccurrencesSnoc(seen', xs[1..], x);
        assert FirstOccurrences(seen, ys) == [xs[0]] + FirstOccurrences(seen', ys[1..]);
        assert FirstOccurrences(seen, xs) == [xs[0]] + FirstOccurrences(seen', xs[1..]);
        assert (x in seen') == (x in seen || x == xs[0]);
      }
    }
  }

  function Filter<T(!new)>(keep: T -> bool, xs: seq<T>): (r: seq<T>)
    ensures |r| <= |xs|
    ensures forall x :: x in r ==> x in xs && keep(x)
  {
    if |xs| == 0 then []
    else if keep(xs[0]) then [xs[0]] + Filter(keep, xs[1..])
    else Filter(keep, xs[1..])
  }

  lemma {:induction false} FilterAppend<T(!new)>(keep: T -> bool, xs: seq<T>, ys: seq<T>)
    ensures Filter(keep, xs + ys) == Filter(keep, xs) + Filter(keep, ys)
  {
    if |xs| == 0 {
      assert xs + ys == ys;
    } else {
      assert (xs + ys)[1..] == xs[1..] + ys;
      FilterAppend(keep, xs[1..], ys);
    }
  }

  /** The elements `Filter` drops, in order. */
  function Reject<T(!new)>(keep: T -> bool, xs: seq<T>): (r: seq<T>)
    ensures |r| <= |xs|
    ensures forall x :: x in r ==> x in xs && !keep(x)
  {
    if |xs| == 0 then []
    else if keep(xs[0]) then Reject(keep, xs[1..])
    else [xs[0]] + Reject(keep, xs[1..])
  }

  /** `Filter` and `Reject` split the input: together they hold every element exactly as often. */
  lemma {:induction false} FilterRejectPartition<T(!new)>(keep: T -> bool, xs: seq<T>)
    ensures multiset(Filter(keep, xs)) + multiset(Reject(keep, xs)) == multiset(xs)
  {
    if |xs| > 0 {
      FilterRejectPartition(keep, xs[1..]);
      assert xs == [xs[0]] + xs[1..];
    }
  }

  /** What `Filter` keeps depends only on the multiset of its input, not on the order. */
  lemma {:induction false} FilterCount<T(!new)>(keep: T -> bool, xs: seq<T>, x: T)
    ensures multiset(Filter(keep, xs))[x] == (if keep(x) then multiset(xs)[x] else 0)
  {
    if |xs| > 0 {
      FilterCount(keep, xs[1..], x);
      assert xs == [xs[0]] + xs[1..];
    }
  }
}
