/** When the order of arrival matters to the scores of services/runtime/src/retrieval-fusion.ts: the cap is
    applied after every addition, so it forgets what a later negative contribution would need. */
module FusionOrders {
  import opened RetrievalFusions

  type Visited = (Candidate, Branch)

  /** What the positive contributions add up to. */
  ghost function SumPositive(xs: seq<real>): real {
    if xs == [] then 0.0
    else SumPositive(xs[..|xs| - 1]) + if xs[|xs| - 1] > 0.0 then xs[|xs| - 1] else 0.0
  }

  ghost predicate NoNegative(xs: seq<real>) {
    forall i :: 0 <= i < |xs| ==> xs[i] >= 0.0
  }

  ghost predicate AllNegative(xs: seq<real>) {
    forall i :: 0 <= i < |xs| ==> xs[i] < 0.0
  }

  /** Nothing is negative, or the cap is never reached. */
  ghost predicate OrderFree(xs: seq<real>) {
    NoNegative(xs) || SumPositive(xs) <= 1.0
  }

  /** The elements on one side of zero, in order. */
  ghost function Side(xs: seq<real>, negative: bool): seq<real> {
    if xs == [] then []
    else Side(xs[..|xs| - 1], negative) + if (xs[|xs| - 1] < 0.0) == negative then [xs[|xs| - 1]] else []
  }

  // ----- Lists of contributions

  lemma {:induction false} CappedBelow(xs: seq<real>)
    requires SumPositive(xs) <= 1.0
    ensures Capped(xs) == Sum(xs) && Sum(xs) <= SumPositive(xs)
  {
    if xs != [] {
      CappedBelow(xs[..|xs| - 1]);
    }
  }

  lemma {:induction false} CappedAtMostOne(xs: seq<real>)
    ensures Capped(xs) <= 1.0
  {
  }

  /** Negative contributions are added in full. */
  lemma {:induction false} CappedThenNegative(xs: seq<real>, ys: seq<real>)
    requires AllNegative(ys)
    ensures Capped(xs + ys) == Capped(xs) + Sum(ys) && Sum(ys) <= 0.0 && (ys != [] ==> Sum(ys) < 0.0)
    decreases |ys|
  {
    if ys == [] {
      CappedAtMostOne(xs);
      assert xs + ys == xs;
    } else {
      var n := |ys| - 1;
      CappedThenNegative(xs, ys[..n]);
      CappedAtMostOne(xs);
      assert (xs + ys)[..|xs + ys| - 1] == xs + ys[..n];
    }
  }

  /** After negative contributions the others are capped only once. */
  lemma {:induction false} NegativeThenCapped(xs: seq<real>, ys: seq<real>)
    requires AllNegative(xs) && NoNegative(ys)
    ensures Capped(xs + ys) == AtMostOne(Sum(xs) + Sum(ys))
    decreases |ys|
  {
    if ys == [] {
      CappedThenNegative([], xs);
      assert xs + ys == xs && [] + xs == xs;
    } else {
      var n := |ys| - 1;
      NegativeThenCapped(xs, ys[..n]);
      assert (xs + ys)[..|xs + ys| - 1] == xs + ys[..n];
    }
  }

  lemma {:induction false} SidesAreSigned(xs: seq<real>)
    ensures NoNegative(Side(xs, false)) && AllNegative(Side(xs, true))
    ensures Side(xs, true) == [] <==> NoNegative(xs)
  {
    if xs != [] {
      var before, last := xs[..|xs| - 1], xs[|xs| - 1];
      SidesAreSigned(before);
      SideAppend(before, last);
      SignsAppend(before, last);
      SignsAppend(Side(before, false), last);
      SignsAppend(Side(before, true), last);
      hide *;
      assert xs == before + [last];
      assert Side(before, true) + [last] != [];
    }
  }

  lemma {:induction false} SumOfUpperSide(xs: seq<real>)
    ensures Sum(Side(xs, false)) == SumPositive(xs)
  {
    if xs != [] {
      var before, last := xs[..|xs| - 1], xs[|xs| - 1];
      SumOfUpperSide(before);
      SumOne(Side(before, false), last);
      SideAppend(before, last);
      SumOfLast(xs);
      hide *;
      assert xs == before + [last];
    }
  }

  lemma SignsAppend(xs: seq<real>, x: real)
    ensures NoNegative(xs + [x]) <==> NoNegative(xs) && x >= 0.0
    ensures AllNegative(xs + [x]) <==> AllNegative(xs) && x < 0.0
    ensures xs + [] == xs
  {
    if NoNegative(xs + [x]) || AllNegative(xs + [x]) {
      assert (xs + [x])[|xs|] == x;
      assert forall i :: 0 <= i < |xs| ==> (xs + [x])[i] == xs[i];
    }
  }

  lemma SumOne(xs: seq<real>, x: real)
    ensures Sum(xs + [x]) == Sum(xs) + x && xs + [] == xs
  {
    assert (xs + [x])[..|xs|] == xs && xs + [] == xs;
  }

  /** The two sides together are the whole list. */
  lemma {:induction false} SidesArePermuted(xs: seq<real>)
    ensures multiset(Side(xs, false)) + multiset(Side(xs, true)) == multiset(xs)
  {
    if xs != [] {
      var before, last := xs[..|xs| - 1], xs[|xs| - 1];
      SidesArePermuted(before);
      SideAppend(before, last);
      assert xs == before + [last];
      hide Side;
      Distribute(Side(before, false), Side(before, true), before, last, last < 0.0);
    }
  }

  lemma Distribute<T>(a: seq<T>, b: seq<T>, s: seq<T>, x: T, second: bool)
    requires multiset(a) + multiset(b) == multiset(s)
    ensures multiset(a + if second then [] else [x]) + multiset(b + if second then [x] else []) == multiset(s + [x])
  {
  }

  /** Positive contributions first, or negative ones first: where the condition fails, this makes a difference. */
  lemma SidesDiffer(xs: seq<real>)
    requires !OrderFree(xs)
    ensures Capped(Side(xs, false) + Side(xs, true)) != Capped(Side(xs, true) + Side(xs, false))
  {
    SidesAreSigned(xs);
    SumOfUpperSide(xs);
    hide Side, SumPositive;
    var up, down := Side(xs, false), Side(xs, true);
    CappedThenNegative(up, down);
    CappedIsSum(up);
    NegativeThenCapped(down, up);
  }

  /** Where the condition holds, the capped sum is the same for every order. */
  lemma OrderFreeSum(xs: seq<real>)
    requires OrderFree(xs)
    ensures Capped(xs) == AtMostOne(Sum(xs))
  {
    if NoNegative(xs) {
      CappedIsSum(xs);
    } else {
      CappedBelow(xs);
    }
  }

  lemma {:induction false} OrderFreeByMultiset(xs: seq<real>, ys: seq<real>)
    requires multiset(xs) == multiset(ys)
    ensures Sum(xs) == Sum(ys) && SumPositive(xs) == SumPositive(ys) && (NoNegative(xs) <==> NoNegative(ys))
    decreases |xs|
  {
    if xs == [] {
      assert |multiset(ys)| == 0;
    } else {
      var n := |xs| - 1;
      var k := TakeOut(xs, ys);
      var rest := ys[..k] + ys[k + 1..];
      OrderFreeByMultiset(xs[..n], rest);
      assert ys == ys[..k] + [ys[k]] + ys[k + 1..];
      SumOfThree(ys[..k], ys[k], ys[k + 1..]);
      forall i | 0 <= i < |ys| ensures ys[i] in xs {
        assert ys[i] in multiset(xs);
      }
      forall i | 0 <= i < |xs| ensures xs[i] in ys {
        assert xs[i] in multiset(ys);
      }
      hide Sum, SumPositive;
      SumOfLast(xs);
    }
  }

  lemma SumOfLast(xs: seq<real>)
    requires xs != []
    ensures var n := |xs| - 1;
            && Sum(xs) == Sum(xs[..n]) + xs[n]
            && SumPositive(xs) == SumPositive(xs[..n]) + if xs[n] > 0.0 then xs[n] else 0.0
  {
  }

  lemma {:induction false} SumOfThree(a: seq<real>, x: real, b: seq<real>)
    ensures Sum(a + [x] + b) == Sum(a + b) + x
    ensures SumPositive(a + [x] + b) == SumPositive(a + b) + if x > 0.0 then x else 0.0
    decreases |b|
  {
    if b == [] {
      assert a + [x] + b == a + [x] && a + b == a && (a + [x])[..|a|] == a;
    } else {
      var n := |b| - 1;
      SumOfThree(a, x, b[..n]);
      assert (a + [x] + b)[..|a| + 1 + n] == a + [x] + b[..n];
      assert (a + b)[..|a| + n] == a + b[..n];
    }
  }

  /** Main result on contributions: every order gives the same capped sum exactly when nothing is negative or
      the positive contributions stay within the cap. */
  lemma CappedIsOrderFreeIff(xs: seq<real>)
    ensures (forall ys :: multiset(ys) == multiset(xs) ==> Capped(ys) == Capped(xs)) <==> OrderFree(xs)
  {
    if OrderFree(xs) {
      forall ys | multiset(ys) == multiset(xs) ensures Capped(ys) == Capped(xs) {
        OrderFreeByMultiset(xs, ys);
        OrderFreeSum(xs);
        OrderFreeSum(ys);
      }
    } else {
      SidesArePermuted(xs);
      SidesDiffer(xs);
      hide Capped, Side;
      var up, down := Side(xs, false), Side(xs, true);
      assert multiset(up + down) == multiset(xs) && multiset(down + up) == multiset(xs);
    }
  }

  // ----- The table

  /** The visits with a negative contribution to an identifier, or all others, in order. */
  ghost function SideOf(id: string, visits: seq<Visited>, negative: bool): seq<Visited> {
    if visits == [] then []
    else
      var last := visits[|visits| - 1];
      SideOf(id, visits[..|visits| - 1], negative) +
      if Below(id, last) == negative then [last] else []
  }

  lemma {:induction false} SidesOf(id: string, visits: seq<Visited>)
    ensures multiset(SideOf(id, visits, false)) + multiset(SideOf(id, visits, true)) == multiset(visits)
    ensures ContributionsTo(id, SideOf(id, visits, false)) == Side(ContributionsTo(id, visits), false)
    ensures ContributionsTo(id, SideOf(id, visits, true)) == Side(ContributionsTo(id, visits), true)
  {
    if visits == [] {
    } else {
      var before, last := visits[..|visits| - 1], visits[|visits| - 1];
      SidesOf(id, before);
      SideOfAppend(id, before, last);
      hide *;
      assert visits == before + [last];
      Distribute(SideOf(id, before, false), SideOf(id, before, true), before, last, Below(id, last));
      ContributionsSnoc(id, SideOf(id, before, false), last);
      ContributionsSnoc(id, SideOf(id, before, true), last);
      ContributionsSnoc(id, before, last);
      SideAppend(ContributionsTo(id, before), Contribution(last.0, last.1));
      BelowIs(id, last);
    }
  }

  ghost predicate Below(id: string, v: Visited) {
    v.0.id == id && Contribution(v.0, v.1) < 0.0
  }

  lemma BelowIs(id: string, v: Visited)
    ensures Below(id, v) <==> v.0.id == id && Contribution(v.0, v.1) < 0.0
  {
  }

  lemma SideOfAppend(id: string, visits: seq<Visited>, v: Visited)
    ensures SideOf(id, visits + [v], false) == SideOf(id, visits, false) + if Below(id, v) then [] else [v]
    ensures SideOf(id, visits + [v], true) == SideOf(id, visits, true) + if Below(id, v) then [v] else []
  {
    hide Below;
    assert (visits + [v])[..|visits|] == visits;
  }

  lemma ContributionsSnoc(id: string, visits: seq<Visited>, v: Visited)
    ensures ContributionsTo(id, visits + [v]) == ContributionsTo(id, visits) +
              if v.0.id == id then [Contribution(v.0, v.1)] else []
    ensures visits + [] == visits && ContributionsTo(id, visits) + [] == ContributionsTo(id, visits)
  {
    hide Contribution;
    assert (visits + [v])[..|visits|] == visits;
  }

  lemma SideAppend(xs: seq<real>, x: real)
    ensures Side(xs + [x], false) == Side(xs, false) + if x < 0.0 then [] else [x]
    ensures Side(xs + [x], true) == Side(xs, true) + if x < 0.0 then [x] else []
    ensures xs + [] == xs
  {
    assert (xs + [x])[..|xs|] == xs;
  }

  /** Both tables have the identifier, with the same score, or neither has it. */
  ghost predicate SameScore(visits: seq<Visited>, visits': seq<Visited>, id: string) {
    && (id in Merged(visits) <==> id in Merged(visits'))
    && (id in Merged(visits) ==> Merged(visits)[id].score == Merged(visits')[id].score)
  }

  lemma {:induction false} ContributionsByMultiset(id: string, visits: seq<Visited>, visits': seq<Visited>)
    requires multiset(visits) == multiset(visits')
    ensures multiset(ContributionsTo(id, visits)) == multiset(ContributionsTo(id, visits'))
    decreases |visits|
  {
    hide ContributionsTo;
    if visits == [] {
      assert |multiset(visits')| == 0;
    } else {
      var n := |visits| - 1;
      var k := TakeOut(visits, visits');
      ContributionsByMultiset(id, visits[..n], visits'[..k] + visits'[k + 1..]);
      var v := visits[n];
      RemoveContribution(id, visits'[..k], [v], visits'[k + 1..]);
      RemoveContribution(id, visits[..n], [v], []);
      assert visits' == visits'[..k] + [v] + visits'[k + 1..];
      assert visits == visits[..n] + [v] + [] && visits[..n] + [] == visits[..n];
    }
  }

  lemma RemoveContribution(id: string, a: seq<Visited>, v: seq<Visited>, b: seq<Visited>)
    ensures multiset(ContributionsTo(id, a + v + b)) ==
              multiset(ContributionsTo(id, a + b)) + multiset(ContributionsTo(id, v))
  {
    ContributionsAppend(id, a, v);
    ContributionsAppend(id, a + v, b);
    ContributionsAppend(id, a, b);
    hide ContributionsTo;
    ThreeParts(ContributionsTo(id, a), ContributionsTo(id, v), ContributionsTo(id, b));
  }

  lemma ScoresOf(id: string, visits: seq<Visited>, visits': seq<Visited>)
    requires |ContributionsTo(id, visits)| == |ContributionsTo(id, visits')|
    ensures SameScore(visits, visits', id) <==>
              (ContributionsTo(id, visits) != [] ==>
                Capped(ContributionsTo(id, visits)) == Capped(ContributionsTo(id, visits')))
  {
    MergedScores(visits, id);
    MergedScores(visits', id);
    hide Merged, ContributionsTo, Capped;
  }

  /** The same candidates in another order: where the condition holds the score is the same. */
  lemma OrderFreeScore(id: string, visits: seq<Visited>, visits': seq<Visited>)
    requires OrderFree(ContributionsTo(id, visits)) && multiset(visits) == multiset(visits')
    ensures SameScore(visits, visits', id)
  {
    ContributionsByMultiset(id, visits, visits');
    var xs, ys := ContributionsTo(id, visits), ContributionsTo(id, visits');
    assert |multiset(xs)| == |multiset(ys)|;
    ScoresOf(id, visits, visits');
    CappedIsOrderFreeIff(xs);
    hide SameScore, ContributionsTo, Capped, OrderFree;
  }

  /** Where it fails, two orders of the same candidates give two scores. */
  lemma OrderBoundScores(id: string, visits: seq<Visited>) returns (left: seq<Visited>, right: seq<Visited>)
    requires !OrderFree(ContributionsTo(id, visits))
    ensures multiset(left) == multiset(right) == multiset(visits)
    ensures !SameScore(left, right, id)
  {
    var up, down := SideOf(id, visits, false), SideOf(id, visits, true);
    left, right := up + down, down + up;
    SidesOf(id, visits);
    SidesDiffer(ContributionsTo(id, visits));
    ContributionsAppend(id, up, down);
    ContributionsAppend(id, down, up);
    ScoresOf(id, left, right);
    SomeContribution(ContributionsTo(id, left), ContributionsTo(id, right));
    hide SameScore, ContributionsTo, Capped, OrderFree, SideOf, Side;
  }

  lemma SomeContribution(xs: seq<real>, ys: seq<real>)
    requires |xs| == |ys|
    ensures Capped(xs) != Capped(ys) ==> xs != []
  {
  }

  // ----- Branches

  /** One branch result for each visit. */
  function Singletons(visits: seq<Visited>): seq<BranchResult> {
    seq(|visits|, i requires 0 <= i < |visits| => BranchResult(visits[i].1, [visits[i].0]))
  }

  lemma {:induction false} SingletonsVisit(visits: seq<Visited>)
    requires forall i :: 0 <= i < |visits| ==> !visits[i].0.inactive
    ensures Visits(Singletons(visits)) == visits
  {
    if visits == [] {
      NoVisits();
    } else {
      var n := |visits| - 1;
      SingletonsVisit(visits[..n]);
      assert Singletons(visits) == Singletons(visits[..n]) + [BranchResult(visits[n].1, [visits[n].0])];
      VisitsSnoc(Singletons(visits[..n]), BranchResult(visits[n].1, [visits[n].0]));
      hide Singletons, Visits;
      assert [visits[n].0][..0] == [];
      assert VisitsOf(visits[n].1, [visits[n].0]) == [visits[n]];
    }
  }

  lemma {:induction false} VisitsAreActive(branches: seq<BranchResult>)
    ensures forall i :: 0 <= i < |Visits(branches)| ==> !Visits(branches)[i].0.inactive
  {
    if branches != [] {
      VisitsAreActive(branches[..|branches| - 1]);
      BranchIsActive(branches[|branches| - 1].branch, branches[|branches| - 1].candidates);
    }
  }

  lemma {:induction false} BranchIsActive(branch: Branch, candidates: seq<Candidate>)
    ensures forall i :: 0 <= i < |VisitsOf(branch, candidates)| ==> !VisitsOf(branch, candidates)[i].0.inactive
  {
    if candidates != [] {
      BranchIsActive(branch, candidates[..|candidates| - 1]);
    }
  }

  lemma ActiveByMultiset(branches: seq<BranchResult>, visits: seq<Visited>)
    requires multiset(visits) == multiset(Visits(branches))
    ensures forall i :: 0 <= i < |visits| ==> !visits[i].0.inactive
  {
    VisitsAreActive(branches);
    hide Visits;
    forall i | 0 <= i < |visits| ensures !visits[i].0.inactive {
      assert visits[i] in multiset(visits);
      assert visits[i] in Visits(branches);
    }
  }

  /** Main result: branches that deliver the same candidates in any other order and grouping give an
      identifier the same score exactly when no contribution to it is negative or the positive ones stay
      within the cap. */
  lemma ScoreIsOrderFreeIff(branches: seq<BranchResult>, id: string)
    ensures (forall branches' :: multiset(Visits(branches')) == multiset(Visits(branches)) ==>
               SameScore(Visits(branches), Visits(branches'), id))
            <==> OrderFree(ContributionsTo(id, Visits(branches)))
  {
    hide Visits, SameScore, OrderFree, ContributionsTo;
    if OrderFree(ContributionsTo(id, Visits(branches))) {
      forall branches' | multiset(Visits(branches')) == multiset(Visits(branches))
        ensures SameScore(Visits(branches), Visits(branches'), id)
      {
        OrderFreeScore(id, Visits(branches), Visits(branches'));
      }
    } else {
      var left, right := OrderBoundScores(id, Visits(branches));
      ActiveByMultiset(branches, left);
      ActiveByMultiset(branches, right);
      SingletonsVisit(left);
      SingletonsVisit(right);
      assert Visits(Singletons(left)) == left && Visits(Singletons(right)) == right;
      if SameScore(Visits(branches), left, id) && SameScore(Visits(branches), right, id) {
        SameScoreJoins(Visits(branches), left, right, id);
      }
    }
  }

  lemma SameScoreJoins(visits: seq<Visited>, left: seq<Visited>, right: seq<Visited>, id: string)
    requires SameScore(visits, left, id) && SameScore(visits, right, id)
    ensures SameScore(left, right, id)
  {
    hide Merged;
  }

  /** For inputs in the unit interval the order of the branches is irrelevant to every score. */
  lemma BranchOrderIsIrrelevant(branches: seq<BranchResult>, branches': seq<BranchResult>, id: string)
    requires multiset(branches) == multiset(branches')
    requires forall i :: 0 <= i < |Visits(branches)| ==> UnitInputs(Visits(branches)[i].0)
    ensures id in Merged(Visits(branches)) <==> id in Merged(Visits(branches'))
    ensures id in Merged(Visits(branches)) ==>
              Merged(Visits(branches))[id].score == Merged(Visits(branches'))[id].score
                == AtMostOne(Sum(ContributionsTo(id, Visits(branches))))
  {
    VisitsByMultiset(branches, branches');
    hide Visits, Merged, ContributionsTo, UnitInputs;
    ScoresAreOrderIndependent(Visits(branches), Visits(branches'), id);
  }

  // ----- A failing input

  /** A candidate that only its importance speaks for. */
  function Plain(id: string, importance: real): Candidate {
    Candidate(id, 0.0, 0.0, 0.0, 0.0, 0.0, importance, 0.0, 0.0, 0.0, false, 0.0, false)
  }

  function One(id: string, importance: real): BranchResult {
    BranchResult(SemanticBranch, [Plain(id, importance)])
  }

  /** Three branches with contributions of 1, 1/2 and -1/2 to one identifier: with the negative one last the
      score is 1/2, with it in the middle the score is 1. */
  lemma NegativeContributionsDepend(id: string) returns (branches: seq<BranchResult>, branches': seq<BranchResult>)
    ensures branches == [One(id, 5.0), One(id, 2.5), One(id, -2.5)]
    ensures branches' == [One(id, 5.0), One(id, -2.5), One(id, 2.5)]
    ensures multiset(branches) == multiset(branches')
    ensures id in Merged(Visits(branches)) && Merged(Visits(branches))[id].score == 0.5
    ensures id in Merged(Visits(branches')) && Merged(Visits(branches'))[id].score == 1.0
  {
    branches := [One(id, 5.0), One(id, 2.5), One(id, -2.5)];
    branches' := [One(id, 5.0), One(id, -2.5), One(id, 2.5)];
    assert branches == [One(id, 5.0)] + [One(id, 2.5)] + [One(id, -2.5)];
    assert branches' == [One(id, 5.0)] + [One(id, -2.5)] + [One(id, 2.5)];
    ThreeContributions(id, 5.0, 2.5, -2.5);
    ThreeContributions(id, 5.0, -2.5, 2.5);
    hide ContributionsTo, Visits, Merged, One;
    MergedScores(Visits(branches), id);
    MergedScores(Visits(branches'), id);
    CappedOfThree(1.0, 0.5, -0.5);
    CappedOfThree(1.0, -0.5, 0.5);
  }

  lemma ThreeContributions(id: string, x: real, y: real, z: real)
    ensures ContributionsTo(id, Visits([One(id, x)] + [One(id, y)] + [One(id, z)])) ==
              [AtMostOne(x * 0.2)] + [AtMostOne(y * 0.2)] + [AtMostOne(z * 0.2)]
  {
    VisitsOfThree([One(id, x)], [One(id, y)], [One(id, z)]);
    hide Visits, ContributionsTo;
    ContributionsAppend(id, Visits([One(id, x)]), Visits([One(id, y)]));
    ContributionsAppend(id, Visits([One(id, x)]) + Visits([One(id, y)]), Visits([One(id, z)]));
    ContributionOfOne(id, x);
    ContributionOfOne(id, y);
    ContributionOfOne(id, z);
  }

  lemma ContributionOfOne(id: string, x: real)
    ensures ContributionsTo(id, Visits([One(id, x)])) == [AtMostOne(x * 0.2)]
  {
    var c := Plain(id, x);
    NoVisits();
    VisitsSnoc([], One(id, x));
    assert [] + [One(id, x)] == [One(id, x)];
    assert [c][..0] == [] && VisitsOf(SemanticBranch, [c]) == [(c, SemanticBranch)];
    hide Visits, VisitsOf;
    assert Contribution(c, SemanticBranch) == AtMostOne(x * 0.2);
    hide Contribution, AtMostOne;
    ContributionsSnoc(id, [], (c, SemanticBranch));
    assert [] + [(c, SemanticBranch)] == [(c, SemanticBranch)] && [] + [AtMostOne(x * 0.2)] == [AtMostOne(x * 0.2)];
    assert ContributionsTo(id, []) == [];
  }

  lemma CappedOfThree(x: real, y: real, z: real)
    ensures Capped([x] + [y] + [z]) == AtMostOne(AtMostOne(AtMostOne(x) + y) + z)
  {
    CappedAppend([], x);
    CappedAppend([x], y);
    CappedAppend([x] + [y], z);
    assert [] + [x] == [x];
  }
}
