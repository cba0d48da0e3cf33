/** Sequences of instants, and how many of them fall into an interval. */
module Timelines {

  ghost predicate Sorted(s: seq<int>) {
    forall i, j :: 0 <= i < j < |s| ==> s[i] <= s[j]
  }

  /** The instants of a history that fall into a closed interval. */
  ghost function CountIn(history: seq<int>, from: int, to: int): nat {
    if history == [] then 0
    else CountIn(history[..|history| - 1], from, to) + if from <= history[|history| - 1] <= to then 1 else 0
  }

  /** Fewer than `bound` steps lie between instants that are at most `width` apart. */
  ghost predicate Spaced(history: seq<int>, width: int, bound: int) {
    forall i, j :: 0 <= i <= j < |history| && history[j] - history[i] <= width ==> j - i < bound
  }

  /** A bound on close pairs is a bound on every interval. */
  lemma CountBounded(history: seq<int>, width: int, bound: int, from: int)
    requires Sorted(history) && Spaced(history, width, bound) && bound >= 0
    ensures CountIn(history, from, from + width) <= bound
  {
    var first := CountSpan(history, from, from + width);
    var n := CountIn(history, from, from + width);
    if n > 0 {
      assert history[first + n - 1] - history[first] <= width;
    }
  }

  /** In a sorted history the instants of an interval are consecutive. */
  lemma {:induction false} CountSpan(history: seq<int>, from: int, to: int) returns (first: nat)
    requires Sorted(history)
    ensures first + CountIn(history, from, to) <= |history|
    ensures forall i :: 0 <= i < |history| ==>
              (from <= history[i] <= to <==> first <= i < first + CountIn(history, from, to))
  {
    if history == [] {
      first := 0;
    } else {
      var shorter := history[..|history| - 1];
      first := CountSpan(shorter, from, to);
      var n := CountIn(shorter, from, to);
      if from <= history[|history| - 1] <= to {
        if n == 0 {
          first := |history| - 1;
        } else {
          assert from <= shorter[first] <= to;
          assert forall i :: first <= i < |shorter| ==> from <= shorter[i] <= to;
          assert first + n == |shorter|;
        }
      }
      assert forall i :: 0 <= i < |shorter| ==> shorter[i] == history[i];
    }
  }

  lemma {:induction false} CountAll(history: seq<int>, from: int, to: int)
    requires forall i :: 0 <= i < |history| ==> from <= history[i] <= to
    ensures CountIn(history, from, to) == |history|
  {
    if history != [] {
      CountAll(history[..|history| - 1], from, to);
    }
  }
}
