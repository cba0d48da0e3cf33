/** The stable sort that the language of the runtime offers on lists: the same elements, in order, with
    ties left in their original order. */
module Sorting {

  function Insert<T>(leq: (T, T) -> bool, x: T, s: seq<T>): seq<T> {
    if s == [] then [x]
    else if leq(x, s[0]) then [x] + s
    else [s[0]] + Insert(leq, x, s[1..])
  }

  function StableSort<T>(leq: (T, T) -> bool, s: seq<T>): seq<T> {
    if s == [] then [] else Insert(leq, s[0], StableSort(leq, s[1..]))
  }

  ghost predicate TotalPreorder<T(!new)>(leq: (T, T) -> bool) {
    && (forall a, b :: leq(a, b) || leq(b, a))
    && (forall a, b, c :: leq(a, b) && leq(b, c) ==> leq(a, c))
  }

  ghost predicate SortedBy<T(!new)>(leq: (T, T) -> bool, s: seq<T>) {
    s != [] ==> AllAbove(leq, s[0], s[1..]) && SortedBy(leq, s[1..])
  }

  ghost predicate AllAbove<T(!new)>(leq: (T, T) -> bool, x: T, s: seq<T>) {
    forall y :: y in s ==> leq(x, y)
  }

  /** Sortedness between any two positions. */
  lemma {:induction false} SortedPairs<T(!new)>(leq: (T, T) -> bool, s: seq<T>, i: nat, j: nat)
    requires SortedBy(leq, s) && i < j < |s|
    ensures leq(s[i], s[j])
  {
    assert s[j] == s[1..][j - 1];
    if i > 0 {
      SortedPairs(leq, s[1..], i - 1, j - 1);
    }
  }

  ghost function Tie<T>(leq: (T, T) -> bool, x: T, y: T): seq<T> {
    if leq(x, y) && leq(y, x) then [y] else []
  }

  ghost function Ties<T>(leq: (T, T) -> bool, x: T, s: seq<T>): seq<T> {
    if s == [] then [] else Tie(leq, x, s[0]) + Ties(leq, x, s[1..])
  }

  lemma Transitive<T(!new)>(leq: (T, T) -> bool, a: T, b: T, c: T)
    requires TotalPreorder(leq)
    ensures leq(a, b) && leq(b, c) ==> leq(a, c)
    ensures leq(a, b) || leq(b, a)
    ensures leq(a, a)
  {
  }

  lemma {:induction false} InsertSorts<T(!new)>(leq: (T, T) -> bool, x: T, s: seq<T>)
    requires TotalPreorder(leq) && SortedBy(leq, s)
    ensures SortedBy(leq, Insert(leq, x, s))
    ensures multiset(Insert(leq, x, s)) == multiset(s) + multiset{x}
  {
    hide TotalPreorder;
    if s == [] {
    } else if leq(x, s[0]) {
      assert s == [s[0]] + s[1..];
      assert ([x] + s)[1..] == s;
      forall y | y in s ensures leq(x, y) {
        Transitive(leq, x, s[0], y);
      }
    } else {
      Transitive(leq, s[0], x, x);
      var rest := Insert(leq, x, s[1..]);
      InsertSorts(leq, x, s[1..]);
      assert s == [s[0]] + s[1..];
      assert ([s[0]] + rest)[1..] == rest;
      forall y | y in rest ensures leq(s[0], y) {
        assert y in multiset(rest);
      }
    }
  }

  /** The result has the same elements and is sorted. */
  lemma {:induction false} StableSortSorts<T(!new)>(leq: (T, T) -> bool, s: seq<T>)
    requires TotalPreorder(leq)
    ensures SortedBy(leq, StableSort(leq, s)) && multiset(StableSort(leq, s)) == multiset(s)
    ensures |StableSort(leq, s)| == |s|
  {
    hide TotalPreorder, Insert;
    if s != [] {
      StableSortSorts(leq, s[1..]);
      InsertSorts(leq, s[0], StableSort(leq, s[1..]));
      hide SortedBy;
      assert s == [s[0]] + s[1..];
      assert multiset(s) == multiset(s[1..]) + multiset{s[0]};
    }
    assert |multiset(StableSort(leq, s))| == |multiset(s)|;
  }

  /** Elements that compare equal keep their order. */
  lemma {:induction false} StableSortKeepsTies<T(!new)>(leq: (T, T) -> bool, s: seq<T>, x: T)
    requires TotalPreorder(leq)
    ensures Ties(leq, x, StableSort(leq, s)) == Ties(leq, x, s)
  {
    hide TotalPreorder;
    if s != [] {
      StableSortKeepsTies(leq, s[1..], x);
      InsertKeepsTies(leq, s[0], StableSort(leq, s[1..]), x);
    }
  }

  lemma NoTieAcross<T(!new)>(leq: (T, T) -> bool, x: T, y: T, z: T)
    requires TotalPreorder(leq) && !leq(y, z)
    ensures Tie(leq, x, y) == [] || Tie(leq, x, z) == []
  {
    Transitive(leq, y, x, z);
  }

  lemma TiesCons<T>(leq: (T, T) -> bool, x: T, y: T, s: seq<T>)
    ensures Ties(leq, x, [y] + s) == Tie(leq, x, y) + Ties(leq, x, s)
  {
    assert ([y] + s)[1..] == s;
  }

  lemma {:induction false} InsertKeepsTies<T(!new)>(leq: (T, T) -> bool, y: T, s: seq<T>, x: T)
    requires TotalPreorder(leq)
    ensures Ties(leq, x, Insert(leq, y, s)) == Tie(leq, x, y) + Ties(leq, x, s)
  {
    TiesCons(leq, x, y, s);
    if s != [] && !leq(y, s[0]) {
      NoTieAcross(leq, x, y, s[0]);
      InsertKeepsTies(leq, y, s[1..], x);
      TiesCons(leq, x, s[0], Insert(leq, y, s[1..]));
      hide TotalPreorder, Tie;
    }
  }

  // ----- By positions

  /** Position k of the result came from position at[k] of the list: every position once, in order, and positions
      that compare equal in their original order. */
  ghost predicate Arranges<T(!new)>(leq: (T, T) -> bool, s: seq<T>, sorted: seq<T>, at: seq<nat>) {
    && |at| == |s| == |sorted|
    && (forall k :: 0 <= k < |at| ==> at[k] < |s| && sorted[k] == s[at[k]])
    && (forall i: nat :: i < |s| ==> i in at)
    && (forall k, l :: 0 <= k < l < |at| ==>
          leq(sorted[k], sorted[l]) && (leq(sorted[l], sorted[k]) ==> at[k] < at[l]))
  }

  lemma {:induction false} StableSortArranges<T(!new)>(leq: (T, T) -> bool, s: seq<T>) returns (at: seq<nat>)
    requires TotalPreorder(leq)
    ensures Arranges(leq, s, StableSort(leq, s), at)
  {
    if s == [] {
      at := [];
    } else {
      var earlier := StableSortArranges(leq, s[1..]);
      at := InsertArranges(leq, s[0], s[1..], StableSort(leq, s[1..]), earlier);
      hide Arranges, TotalPreorder;
      assert s == [s[0]] + s[1..];
    }
  }

  /** Where an element is inserted. */
  lemma {:induction false} InsertAt<T>(leq: (T, T) -> bool, x: T, t: seq<T>) returns (p: nat)
    ensures p <= |t| && Insert(leq, x, t) == t[..p] + [x] + t[p..]
    ensures forall k :: 0 <= k < p ==> !leq(x, t[k])
    ensures p < |t| ==> leq(x, t[p])
  {
    if t == [] || leq(x, t[0]) {
      p := 0;
    } else {
      var q := InsertAt(leq, x, t[1..]);
      p := q + 1;
      assert t == [t[0]] + t[1..];
    }
  }

  /** Everything moves up by one, and position 0 comes in at p. */
  ghost function Shifted(at: seq<nat>, p: nat): (r: seq<nat>)
    requires p <= |at|
    ensures |r| == |at| + 1 && r[p] == 0
    ensures forall k :: 0 <= k < |at| ==> r[if k < p then k else k + 1] == at[k] + 1
  {
    seq(|at| + 1, k requires 0 <= k < |at| + 1 => if k == p then 0 else if k < p then at[k] + 1 else at[k - 1] + 1)
  }

  lemma Spread<T>(t: seq<T>, x: T, p: nat)
    requires p <= |t|
    ensures var r := t[..p] + [x] + t[p..];
            |r| == |t| + 1 && forall k :: 0 <= k < |r| ==> r[k] == if k == p then x else t[if k < p then k else k - 1]
  {
  }

  lemma InsertArranges<T(!new)>(leq: (T, T) -> bool, x: T, s: seq<T>, t: seq<T>, at: seq<nat>) returns (r: seq<nat>)
    requires TotalPreorder(leq) && Arranges(leq, s, t, at)
    ensures Arranges(leq, [x] + s, Insert(leq, x, t), r)
  {
    hide TotalPreorder, Insert, Shifted;
    var p := InsertAt(leq, x, t);
    r := Shifted(at, p);
    forall i: nat | i < |[x] + s| ensures i in r {
      ShiftedCovers(at, p, i);
    }
    SpreadKeeps(x, s, t, at, p);
    forall k, l | 0 <= k < l < |r|
      ensures var sorted := t[..p] + [x] + t[p..];
              leq(sorted[k], sorted[l]) && (leq(sorted[l], sorted[k]) ==> r[k] < r[l])
    {
      SpreadOrders(leq, x, s, t, at, p, k, l);
    }
  }

  lemma SpreadKeeps<T>(x: T, s: seq<T>, t: seq<T>, at: seq<nat>, p: nat)
    requires |at| == |s| == |t| && p <= |at|
    requires forall k :: 0 <= k < |at| ==> at[k] < |s| && t[k] == s[at[k]]
    ensures var sorted, r := t[..p] + [x] + t[p..], Shifted(at, p);
            forall k :: 0 <= k < |r| ==> r[k] < |[x] + s| && sorted[k] == ([x] + s)[r[k]]
  {
    Spread(t, x, p);
  }

  lemma SpreadOrders<T(!new)>(leq: (T, T) -> bool, x: T, s: seq<T>, t: seq<T>, at: seq<nat>, p: nat, k: nat, l: nat)
    requires TotalPreorder(leq) && Arranges(leq, s, t, at) && p <= |t| && k < l <= |t|
    requires forall i :: 0 <= i < p ==> !leq(x, t[i])
    requires p < |t| ==> leq(x, t[p])
    ensures var sorted, r := t[..p] + [x] + t[p..], Shifted(at, p);
            leq(sorted[k], sorted[l]) && (leq(sorted[l], sorted[k]) ==> r[k] < r[l])
  {
    hide TotalPreorder;
    Spread(t, x, p);
    if k == p {
      Transitive(leq, x, t[p], t[l - 1]);
    } else if l == p {
      Transitive(leq, t[k], x, x);
    }
  }

  lemma ShiftedCovers(at: seq<nat>, p: nat, i: nat)
    requires p <= |at| && (i > 0 ==> i - 1 in at)
    ensures i in Shifted(at, p)
  {
    if i > 0 {
      var k :| 0 <= k < |at| && at[k] == i - 1;
      assert Shifted(at, p)[if k < p then k else k + 1] == i;
    } else {
      assert Shifted(at, p)[p] == 0;
    }
  }
}
