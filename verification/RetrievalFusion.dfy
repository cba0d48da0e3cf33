/** Score fusion of services/runtime/src/retrieval-fusion.ts, over real numbers. */
module RetrievalFusions {
  import opened Graphs
  import opened Sorting

  datatype Branch = SemanticBranch | KeywordBranch | GraphBranch | TemporalBranch | EntityBranch

  datatype Candidate = Candidate(
    id: string, semanticScore: real, keywordScore: real, graphScore: real, temporalScore: real, entityScore: real,
    importance: real, recency: real, confidence: real, usageFrequency: real, pinned: bool, projectRelevance: real,
    inactive: bool)

  datatype BranchResult = BranchResult(branch: Branch, candidates: seq<Candidate>)

  datatype Ranked = Ranked(candidate: Candidate, score: real)

  function AtMostOne(x: real): real {
    if x < 1.0 then x else 1.0
  }

  function Weight(b: Branch): real {
    match b
    case SemanticBranch => 0.3
    case KeywordBranch => 0.25
    case GraphBranch => 0.2
    case TemporalBranch => 0.1
    case EntityBranch => 0.15
  }

  function BranchScore(c: Candidate, b: Branch): real {
    match b
    case SemanticBranch => c.semanticScore
    case KeywordBranch => c.keywordScore
    case GraphBranch => c.graphScore
    case TemporalBranch => c.temporalScore
    case EntityBranch => c.entityScore
  }

  function Contribution(c: Candidate, b: Branch): real {
    AtMostOne(BranchScore(c, b) * Weight(b) +
              c.importance * 0.2 + c.confidence * 0.15 + c.recency * 0.1 + c.projectRelevance * 0.1 +
              AtMostOne(c.usageFrequency) * 0.05 + (if c.pinned then 0.4 else 0.0))
  }

  /** All active candidates with their branches, in the order the loops visit them. */
  function Visits(branches: seq<BranchResult>): seq<(Candidate, Branch)> {
    if branches == [] then []
    else
      var last := branches[|branches| - 1];
      Visits(branches[..|branches| - 1]) + VisitsOf(last.branch, last.candidates)
  }

  function VisitsOf(branch: Branch, candidates: seq<Candidate>): seq<(Candidate, Branch)> {
    if candidates == [] then []
    else
      var last := candidates[|candidates| - 1];
      VisitsOf(branch, candidates[..|candidates| - 1]) + if last.inactive then [] else [(last, branch)]
  }

  /** The contributions to one identifier, in order. */
  function ContributionsTo(id: string, visits: seq<(Candidate, Branch)>): seq<real> {
    if visits == [] then []
    else
      var (c, b) := visits[|visits| - 1];
      ContributionsTo(id, visits[..|visits| - 1]) + if c.id == id then [Contribution(c, b)] else []
  }

  /** The score the loops accumulate: capped at one after every addition. */
  function Capped(contributions: seq<real>): real {
    if contributions == [] then 0.0
    else AtMostOne(Capped(contributions[..|contributions| - 1]) + contributions[|contributions| - 1])
  }

  function Sum(xs: seq<real>): real {
    if xs == [] then 0.0 else Sum(xs[..|xs| - 1]) + xs[|xs| - 1]
  }

  /** The merged table after some visits. */
  function Merged(visits: seq<(Candidate, Branch)>): map<string, Ranked> {
    if visits == [] then map[]
    else
      var before := Merged(visits[..|visits| - 1]);
      var (c, b) := visits[|visits| - 1];
      MergeOne(before, c, b)
  }

  /** A known identifier gains the contribution, up to one; a new one starts with it. */
  function MergeOne(merged: map<string, Ranked>, c: Candidate, b: Branch): map<string, Ranked> {
    merged[c.id := if c.id in merged then merged[c.id].(score := AtMostOne(merged[c.id].score + Contribution(c, b)))
                   else Ranked(c, AtMostOne(Contribution(c, b)))]
  }

  predicate RanksBefore(left: Ranked, right: Ranked) {
    left.score >= right.score
  }

  function Values(ids: seq<string>, merged: map<string, Ranked>): seq<Ranked>
    requires forall i :: 0 <= i < |ids| ==> ids[i] in merged
  {
    seq(|ids|, i requires 0 <= i < |ids| => merged[ids[i]])
  }

  /** The identifiers in the order of their first visit, which is the order a Map lists them in. */
  function Arrivals(visits: seq<(Candidate, Branch)>): seq<string> {
    if visits == [] then []
    else ArriveOne(Arrivals(visits[..|visits| - 1]), visits[|visits| - 1].0.id)
  }

  function ArriveOne(ids: seq<string>, id: string): seq<string> {
    if id in ids then ids else ids + [id]
  }

  ghost predicate Listed(ids: seq<string>, merged: map<string, Ranked>) {
    && (forall i :: 0 <= i < |ids| ==> ids[i] in merged)
    && Elements(ids) == merged.Keys && Distinct(ids)
  }

  /** The values of the table in the order of first arrival, sorted by falling score. */
  function Ranking(visits: seq<(Candidate, Branch)>): seq<Ranked> {
    ArrivalsAreListed(visits);
    StableSort(RanksBefore, Values(Arrivals(visits), Merged(visits)))
  }

  /** Visit k is the first of its identifier. */
  ghost predicate FirstVisit(visits: seq<(Candidate, Branch)>, k: int) {
    0 <= k < |visits| && forall l :: 0 <= l < k ==> visits[l].0.id != visits[k].0.id
  }

  /** Some candidate with identifier a was visited before any with identifier b. */
  ghost predicate ArrivesBefore(visits: seq<(Candidate, Branch)>, a: string, b: string) {
    exists k :: 0 <= k < |visits| && visits[k].0.id == a && forall l :: 0 <= l <= k ==> visits[l].0.id != b
  }

  /** Each identifier visited is ranked, as the candidate first visited with the capped sum of its contributions;
      better scores come first, and equal ones in the order of first arrival. */
  ghost predicate IsRanking(visits: seq<(Candidate, Branch)>, r: seq<Ranked>) {
    RanksAll(visits, r) && (forall i :: 0 <= i < |r| ==> IsMergedAs(visits, r[i])) && RanksInOrder(visits, r)
  }

  ghost predicate RanksAll(visits: seq<(Candidate, Branch)>, r: seq<Ranked>) {
    forall k :: 0 <= k < |visits| ==> IsRanked(r, visits[k].0.id)
  }

  ghost predicate IsRanked(r: seq<Ranked>, id: string) {
    exists i :: 0 <= i < |r| && r[i].candidate.id == id
  }

  ghost predicate RanksInOrder(visits: seq<(Candidate, Branch)>, r: seq<Ranked>) {
    forall i, j :: 0 <= i < j < |r| ==>
      || r[i].score > r[j].score
      || (r[i].score == r[j].score && ArrivesBefore(visits, r[i].candidate.id, r[j].candidate.id))
  }

  ghost predicate IsMergedAs(visits: seq<(Candidate, Branch)>, x: Ranked) {
    && (exists k :: FirstVisit(visits, k) && x.candidate == visits[k].0)
    && x.score == Capped(ContributionsTo(x.candidate.id, visits))
  }

  /** The merged candidates, best score first, ties by first arrival. */
  method Fuse(branches: seq<BranchResult>) returns (r: seq<Ranked>)
    ensures r == Ranking(Visits(branches)) && IsRanking(Visits(branches), r)
  {
    RankingHolds(Visits(branches));
    NothingArrived(branches);
    hide *;
    var merged: map<string, Ranked> := map[];
    var ids: seq<string> := [];
    for i := 0 to |branches|
      invariant Reached(Visits(branches[..i]), ids, merged)
    {
      var branch := branches[i];
      BranchVisits(branches, i);
      for j := 0 to |branch.candidates|
        invariant Reached(VisitedUpTo(branches, i, j), ids, merged)
      {
        var candidate := branch.candidates[j];
        OneMoreVisit(Visits(branches[..i]), branch.branch, branch.candidates, j);
        VisitedIs(branches, i, j);
        VisitedIs(branches, i, j + 1);
        if candidate.inactive {
          continue;
        }
        var contribution := Contribution(candidate, branch.branch);
        MergeStep(VisitedUpTo(branches, i, j), ids, merged, candidate, branch.branch);
        if candidate.id in merged {
          var current := merged[candidate.id];
          merged := merged[candidate.id := current.(score := AtMostOne(current.score + contribution))];
        } else {
          merged := merged[candidate.id := Ranked(candidate, AtMostOne(contribution))];
          ids := ids + [candidate.id];
        }
      }
    }
    assert branches[..|branches|] == branches;
    RankingIs(Visits(branches), ids, merged);
    r := StableSort(RanksBefore, Values(ids, merged));
  }

  /** What the loops hold after some visits: the table, and its identifiers as they arrived. */
  ghost predicate Reached(visits: seq<(Candidate, Branch)>, ids: seq<string>, merged: map<string, Ranked>) {
    merged == Merged(visits) && ids == Arrivals(visits)
  }

  lemma NothingArrived(branches: seq<BranchResult>)
    ensures Reached(Visits(branches[..0]), [], map[])
  {
  }

  lemma RankingIs(visits: seq<(Candidate, Branch)>, ids: seq<string>, merged: map<string, Ranked>)
    requires Reached(visits, ids, merged)
    ensures forall i :: 0 <= i < |ids| ==> ids[i] in merged
    ensures Ranking(visits) == StableSort(RanksBefore, Values(ids, merged))
  {
    ArrivalsAreListed(visits);
  }

  lemma VisitedIs(branches: seq<BranchResult>, i: nat, j: nat)
    requires i < |branches| && j <= |branches[i].candidates|
    ensures VisitedUpTo(branches, i, j) ==
              Visits(branches[..i]) + VisitsOf(branches[i].branch, branches[i].candidates[..j])
  {
  }

  lemma MergeStep(visits: seq<(Candidate, Branch)>, ids: seq<string>, merged: map<string, Ranked>, c: Candidate,
                  b: Branch)
    requires Reached(visits, ids, merged)
    ensures Reached(visits + [(c, b)],
                    if c.id in merged then ids else ids + [c.id],
                    if c.id in merged then merged[c.id :=
                      merged[c.id].(score := AtMostOne(merged[c.id].score + Contribution(c, b)))]
                    else merged[c.id := Ranked(c, AtMostOne(Contribution(c, b)))])
  {
    ArrivalsAreListed(visits);
    MergedAppend(visits, c, b);
    ArrivalsAppend(visits, c, b);
    hide Contribution, AtMostOne, Merged, Arrivals, Distinct;
    assert c.id in ids <==> c.id in Elements(ids);
  }

  lemma ArrivalsAppend(visits: seq<(Candidate, Branch)>, c: Candidate, b: Branch)
    ensures Arrivals(visits + [(c, b)]) == ArriveOne(Arrivals(visits), c.id)
  {
    assert (visits + [(c, b)])[..|visits|] == visits;
  }

  /** Each identifier of the table arrives once. */
  lemma {:induction false} ArrivalsAreListed(visits: seq<(Candidate, Branch)>)
    ensures Listed(Arrivals(visits), Merged(visits))
  {
    hide Distinct;
    if visits == [] {
      DistinctEmpty<string>();
    } else {
      var before, id := visits[..|visits| - 1], visits[|visits| - 1].0.id;
      ArrivalsAreListed(before);
      var ids := Arrivals(before);
      hide Contribution, AtMostOne;
      if id !in ids {
        ElementsAppend(ids, id);
        DistinctAppend(ids, id);
      }
    }
  }

  /** The visits made when j candidates of branch i are done. */
  ghost function VisitedUpTo(branches: seq<BranchResult>, i: nat, j: nat): seq<(Candidate, Branch)>
    requires i < |branches| && j <= |branches[i].candidates|
  {
    Visits(branches[..i]) + VisitsOf(branches[i].branch, branches[i].candidates[..j])
  }

  lemma BranchVisits(branches: seq<BranchResult>, i: nat)
    requires i < |branches|
    ensures VisitedUpTo(branches, i, 0) == Visits(branches[..i])
    ensures VisitedUpTo(branches, i, |branches[i].candidates|) == Visits(branches[..i + 1])
  {
    var candidates := branches[i].candidates;
    VisitsSnoc(branches[..i], branches[i]);
    assert VisitsOf(branches[i].branch, []) == [];
    hide Visits, VisitsOf;
    assert candidates[..0] == [] && candidates[..|candidates|] == candidates;
    assert branches[..i + 1] == branches[..i] + [branches[i]];
    assert Visits(branches[..i]) + [] == Visits(branches[..i]);
    assert VisitedUpTo(branches, i, 0) == Visits(branches[..i]) + VisitsOf(branches[i].branch, candidates[..0]);
    assert VisitedUpTo(branches, i, |candidates|) == Visits(branches[..i + 1]);
  }

  lemma OneMoreVisit(before: seq<(Candidate, Branch)>, branch: Branch, candidates: seq<Candidate>, j: nat)
    requires j < |candidates|
    ensures before + VisitsOf(branch, candidates[..j + 1]) ==
              if candidates[j].inactive then before + VisitsOf(branch, candidates[..j])
              else before + VisitsOf(branch, candidates[..j]) + [(candidates[j], branch)]
  {
    assert candidates[..j + 1][..j] == candidates[..j];
  }

  lemma MergedAppend(visits: seq<(Candidate, Branch)>, c: Candidate, b: Branch)
    ensures Merged(visits + [(c, b)]) == MergeOne(Merged(visits), c, b)
  {
    hide MergeOne;
    assert (visits + [(c, b)])[..|visits|] == visits;
  }

  /** The result is a permutation of the table by falling score. */
  lemma ResultIsSorted(visits: seq<(Candidate, Branch)>, i: nat, j: nat)
    requires i < j < |Ranking(visits)|
    ensures Ranking(visits)[i].score >= Ranking(visits)[j].score && |Ranking(visits)| == |Arrivals(visits)|
    ensures forall k :: 0 <= k < |Arrivals(visits)| ==> Arrivals(visits)[k] in Merged(visits)
    ensures multiset(Ranking(visits)) == multiset(Values(Arrivals(visits), Merged(visits)))
  {
    ArrivalsAreListed(visits);
    hide Merged, Arrivals, StableSort;
    StableSortSorts(RanksBefore, Values(Arrivals(visits), Merged(visits)));
    SortedPairs(RanksBefore, Ranking(visits), i, j);
  }

  /** Candidates with equal scores come in the order of their first arrival. */
  lemma TiesKeepArrival(visits: seq<(Candidate, Branch)>, x: Ranked)
    ensures forall k :: 0 <= k < |Arrivals(visits)| ==> Arrivals(visits)[k] in Merged(visits)
    ensures Ties(RanksBefore, x, Ranking(visits)) == Ties(RanksBefore, x, Values(Arrivals(visits), Merged(visits)))
  {
    ArrivalsAreListed(visits);
    hide Merged, Arrivals, StableSort;
    StableSortKeepsTies(RanksBefore, Values(Arrivals(visits), Merged(visits)), x);
  }

  lemma {:induction false} MergedIsFirst(visits: seq<(Candidate, Branch)>, id: string)
    requires id in Merged(visits)
    ensures Merged(visits)[id].candidate.id == id
    ensures exists k :: FirstVisit(visits, k) && Merged(visits)[id].candidate == visits[k].0
  {
    hide Contribution, AtMostOne;
    var before, last := visits[..|visits| - 1], visits[|visits| - 1];
    assert forall l :: 0 <= l < |before| ==> visits[l] == before[l];
    if id in Merged(before) {
      MergedIsFirst(before, id);
      var k :| FirstVisit(before, k) && Merged(before)[id].candidate == before[k].0;
      assert FirstVisit(visits, k);
    } else {
      forall l | 0 <= l < |before| ensures before[l].0.id != id {
        VisitedIsMerged(before, l);
      }
      assert FirstVisit(visits, |before|);
    }
  }

  lemma {:induction false} VisitedIsMerged(visits: seq<(Candidate, Branch)>, k: nat)
    requires k < |visits|
    ensures visits[k].0.id in Merged(visits)
  {
    hide Contribution, AtMostOne;
    if k < |visits| - 1 {
      VisitedIsMerged(visits[..|visits| - 1], k);
    }
  }

  lemma {:induction false} ArrivalIsVisited(visits: seq<(Candidate, Branch)>, id: string)
    ensures id in Arrivals(visits) <==> exists k :: 0 <= k < |visits| && visits[k].0.id == id
  {
    if visits != [] {
      var before := visits[..|visits| - 1];
      ArrivalIsVisited(before, id);
      assert forall l :: 0 <= l < |before| ==> visits[l] == before[l];
    }
  }

  lemma {:induction false} ArrivalsInOrder(visits: seq<(Candidate, Branch)>, i: nat, j: nat)
    requires i < j < |Arrivals(visits)|
    ensures ArrivesBefore(visits, Arrivals(visits)[i], Arrivals(visits)[j])
  {
    var before, ids := visits[..|visits| - 1], Arrivals(visits[..|visits| - 1]);
    assert forall l :: 0 <= l < |before| ==> visits[l] == before[l];
    var a, b := Arrivals(visits)[i], Arrivals(visits)[j];
    if j < |ids| {
      ArrivalsInOrder(before, i, j);
      var k :| 0 <= k < |before| && before[k].0.id == a && forall l :: 0 <= l <= k ==> before[l].0.id != b;
      assert visits[k].0.id == a;
    } else {
      ArrivalIsVisited(before, a);
      ArrivalIsVisited(before, b);
      var k :| 0 <= k < |before| && before[k].0.id == a;
      assert visits[k].0.id == a;
    }
  }

  lemma RankingHolds(visits: seq<(Candidate, Branch)>)
    ensures IsRanking(visits, Ranking(visits))
  {
    ArrivalsAreListed(visits);
    var ids, merged := Arrivals(visits), Merged(visits);
    var values := Values(ids, merged);
    var at := StableSortArranges(RanksBefore, values);
    hide Merged, Arrivals, StableSort, IsMergedAs, RanksAll, RanksInOrder, Distinct, Elements;
    RankingCovers(visits, ids, merged, values, Ranking(visits), at);
    RankingOrders(visits, ids, merged, values, Ranking(visits), at);
    hide Arranges, Values, RanksBefore;
  }

  lemma RankingCovers(visits: seq<(Candidate, Branch)>, ids: seq<string>, merged: map<string, Ranked>,
                      values: seq<Ranked>, r: seq<Ranked>, at: seq<nat>)
    requires ids == Arrivals(visits) && merged == Merged(visits) && forall i :: 0 <= i < |ids| ==> ids[i] in merged
    requires values == Values(ids, merged) && Arranges(RanksBefore, values, r, at)
    ensures RanksAll(visits, r) && forall i :: 0 <= i < |r| ==> IsMergedAs(visits, r[i])
  {
    hide Merged, Arrivals, IsMergedAs, RanksBefore;
    forall i | 0 <= i < |r| ensures r[i].candidate.id == ids[at[i]] && IsMergedAs(visits, r[i]) {
      ValueIsMerged(visits, ids[at[i]]);
    }
    forall k | 0 <= k < |visits| ensures IsRanked(r, visits[k].0.id) {
      ArrivalIsVisited(visits, visits[k].0.id);
      var m: nat :| m < |ids| && ids[m] == visits[k].0.id;
      assert m in at;
      var i :| 0 <= i < |at| && at[i] == m;
      assert r[i].candidate.id == visits[k].0.id;
    }
  }

  lemma RankingOrders(visits: seq<(Candidate, Branch)>, ids: seq<string>, merged: map<string, Ranked>,
                      values: seq<Ranked>, r: seq<Ranked>, at: seq<nat>)
    requires ids == Arrivals(visits) && merged == Merged(visits) && forall i :: 0 <= i < |ids| ==> ids[i] in merged
    requires values == Values(ids, merged) && Arranges(RanksBefore, values, r, at)
    ensures RanksInOrder(visits, r)
  {
    hide Merged, Arrivals, ArrivesBefore, IsMergedAs;
    forall i, j | 0 <= i < j < |r|
      ensures || r[i].score > r[j].score
              || (r[i].score == r[j].score && ArrivesBefore(visits, r[i].candidate.id, r[j].candidate.id))
    {
      ValueIsMerged(visits, ids[at[i]]);
      ValueIsMerged(visits, ids[at[j]]);
      if r[i].score == r[j].score {
        ArrivalsInOrder(visits, at[i], at[j]);
      }
    }
  }

  lemma ValueIsMerged(visits: seq<(Candidate, Branch)>, id: string)
    requires id in Merged(visits)
    ensures Merged(visits)[id].candidate.id == id && IsMergedAs(visits, Merged(visits)[id])
  {
    MergedIsFirst(visits, id);
    MergedScores(visits, id);
    hide Merged, FirstVisit, Capped, ContributionsTo;
  }

  /** What is visited: every active candidate of every branch. */
  lemma {:induction false} VisitsAre(branches: seq<BranchResult>, v: (Candidate, Branch))
    ensures v in Visits(branches) <==>
              exists i :: 0 <= i < |branches| && branches[i].branch == v.1 && v.0 in branches[i].candidates
                          && !v.0.inactive
  {
    if branches != [] {
      var before, last := branches[..|branches| - 1], branches[|branches| - 1];
      VisitsAre(before, v);
      VisitsOfAre(last.branch, last.candidates, v);
      hide VisitsOf;
      assert forall i :: 0 <= i < |before| ==> branches[i] == before[i];
    }
  }

  lemma {:induction false} VisitsOfAre(branch: Branch, candidates: seq<Candidate>, v: (Candidate, Branch))
    ensures v in VisitsOf(branch, candidates) <==> v.1 == branch && v.0 in candidates && !v.0.inactive
  {
    if candidates != [] {
      VisitsOfAre(branch, candidates[..|candidates| - 1], v);
      assert candidates == candidates[..|candidates| - 1] + [candidates[|candidates| - 1]];
    }
  }

  /** Branches are visited one after the other, and so are the candidates of a branch. */
  lemma VisitsInOrder(a: seq<BranchResult>, b: seq<BranchResult>, branch: Branch, cs: seq<Candidate>,
                      ds: seq<Candidate>, c: Candidate)
    ensures Visits(a + b) == Visits(a) + Visits(b)
    ensures Visits([BranchResult(branch, cs + ds)]) ==
              Visits([BranchResult(branch, cs)]) + Visits([BranchResult(branch, ds)])
    ensures Visits([BranchResult(branch, [c])]) == if c.inactive then [] else [(c, branch)]
  {
    VisitsAppend(a, b);
    VisitsOfAppend(branch, cs, ds);
    VisitsOfOne(branch, c);
    forall xs ensures Visits([BranchResult(branch, xs)]) == VisitsOf(branch, xs) {
      VisitsSnoc([], BranchResult(branch, xs));
      assert [] + [BranchResult(branch, xs)] == [BranchResult(branch, xs)];
    }
  }

  lemma VisitsOfOne(branch: Branch, c: Candidate)
    ensures VisitsOf(branch, [c]) == if c.inactive then [] else [(c, branch)]
  {
    assert [c][..0] == [];
    assert VisitsOf(branch, []) == [];
  }

  lemma {:induction false} VisitsOfAppend(branch: Branch, cs: seq<Candidate>, ds: seq<Candidate>)
    ensures VisitsOf(branch, cs + ds) == VisitsOf(branch, cs) + VisitsOf(branch, ds)
  {
    if ds == [] {
      assert cs + ds == cs;
    } else {
      VisitsOfAppend(branch, cs, ds[..|ds| - 1]);
      assert (cs + ds)[..|cs + ds| - 1] == cs + ds[..|ds| - 1];
      var last := if ds[|ds| - 1].inactive then [] else [(ds[|ds| - 1], branch)];
      assert VisitsOf(branch, cs) + (VisitsOf(branch, ds[..|ds| - 1]) + last) ==
             VisitsOf(branch, cs) + VisitsOf(branch, ds[..|ds| - 1]) + last;
    }
  }

  /** The weight of each feature in a contribution, which is capped at one. */
  lemma ContributionIs(c: Candidate, b: Branch)
    ensures var found := match b
                         case SemanticBranch => 0.3 * c.semanticScore
                         case KeywordBranch => 0.25 * c.keywordScore
                         case GraphBranch => 0.2 * c.graphScore
                         case TemporalBranch => 0.1 * c.temporalScore
                         case EntityBranch => 0.15 * c.entityScore;
            var usage := if c.usageFrequency > 1.0 then 1.0 else c.usageFrequency;
            var total := found + 0.2 * c.importance + 0.15 * c.confidence + 0.1 * (c.recency + c.projectRelevance)
                         + 0.05 * usage + if c.pinned then 0.4 else 0.0;
            Contribution(c, b) == if total > 1.0 then 1.0 else total
  {
  }

  /** The table holds exactly the active identifiers, each with the capped sum of its contributions. */
  lemma {:induction false} MergedScores(visits: seq<(Candidate, Branch)>, id: string)
    ensures id in Merged(visits) <==> ContributionsTo(id, visits) != []
    ensures id in Merged(visits) ==> Merged(visits)[id].score == Capped(ContributionsTo(id, visits))
  {
    hide Contribution, Capped, AtMostOne;
    if visits != [] {
      var before := visits[..|visits| - 1];
      var v := visits[|visits| - 1];
      MergedScores(before, id);
      var earlier := ContributionsTo(id, before);
      CappedAppend(earlier, Contribution(v.0, v.1));
      assert earlier + [] == earlier;
    }
  }

  lemma CappedAppend(xs: seq<real>, x: real)
    ensures Capped(xs + [x]) == AtMostOne(Capped(xs) + x)
    ensures xs == [] ==> Capped(xs + [x]) == AtMostOne(x)
  {
    assert (xs + [x])[..|xs|] == xs;
  }

  /** Without negative contributions the cap can be applied once, at the end. */
  lemma {:induction false} CappedIsSum(xs: seq<real>)
    requires forall i :: 0 <= i < |xs| ==> xs[i] >= 0.0
    ensures Capped(xs) == AtMostOne(Sum(xs)) && Sum(xs) >= 0.0
  {
    if xs != [] {
      CappedIsSum(xs[..|xs| - 1]);
    }
  }

  ghost predicate InUnit(x: real) {
    0.0 <= x <= 1.0
  }

  ghost predicate UnitInputs(c: Candidate) {
    && InUnit(c.semanticScore) && InUnit(c.keywordScore) && InUnit(c.graphScore) && InUnit(c.temporalScore)
         && InUnit(c.entityScore)
    && InUnit(c.importance) && InUnit(c.recency) && InUnit(c.confidence) && InUnit(c.projectRelevance)
         && c.usageFrequency >= 0.0
  }

  lemma UnitContribution(c: Candidate, b: Branch)
    requires UnitInputs(c)
    ensures InUnit(Contribution(c, b))
  {
  }

  lemma {:induction false} ContributionsAreUnit(id: string, visits: seq<(Candidate, Branch)>)
    requires forall i :: 0 <= i < |visits| ==> UnitInputs(visits[i].0)
    ensures forall i :: 0 <= i < |ContributionsTo(id, visits)| ==> InUnit(ContributionsTo(id, visits)[i])
  {
    if visits != [] {
      ContributionsAreUnit(id, visits[..|visits| - 1]);
      UnitContribution(visits[|visits| - 1].0, visits[|visits| - 1].1);
    }
  }

  /** Main result: for inputs in the unit interval each score is the capped sum of the contributions, so it
      does not depend on the order in which branches and candidates arrive. */
  lemma ScoresAreOrderIndependent(visits: seq<(Candidate, Branch)>, visits': seq<(Candidate, Branch)>, id: string)
    requires forall i :: 0 <= i < |visits| ==> UnitInputs(visits[i].0)
    requires multiset(visits) == multiset(visits')
    ensures id in Merged(visits) <==> id in Merged(visits')
    ensures id in Merged(visits) ==>
              Merged(visits)[id].score == Merged(visits')[id].score == AtMostOne(Sum(ContributionsTo(id, visits)))
  {
    forall i | 0 <= i < |visits'| ensures UnitInputs(visits'[i].0) {
      assert visits'[i] in multiset(visits');
      assert visits'[i] in visits;
    }
    MergedScores(visits, id);
    MergedScores(visits', id);
    ContributionsAreUnit(id, visits);
    ContributionsAreUnit(id, visits');
    SumByMultiset(id, visits, visits');
    hide UnitInputs, Merged;
    CappedIsSum(ContributionsTo(id, visits));
    CappedIsSum(ContributionsTo(id, visits'));
  }

  /** Sums and emptiness of the contributions are determined by the multiset of visits. */
  lemma {:induction false} SumByMultiset(id: string, visits: seq<(Candidate, Branch)>,
                                         visits': seq<(Candidate, Branch)>)
    requires multiset(visits) == multiset(visits')
    ensures Sum(ContributionsTo(id, visits)) == Sum(ContributionsTo(id, visits'))
    ensures |ContributionsTo(id, visits)| == |ContributionsTo(id, visits')|
    decreases |visits|
  {
    hide ContributionsTo, Sum;
    if visits == [] {
      assert |multiset(visits')| == 0;
    } else {
      var k := TakeOut(visits, visits');
      var n := |visits| - 1;
      SumByMultiset(id, visits[..n], visits'[..k] + visits'[k + 1..]);
      RemoveVisit(id, visits', k);
      RemoveVisit(id, visits, n);
      assert visits[..n] + visits[n + 1..] == visits[..n];
    }
  }

  /** Two lists with the same elements differ in where the last element of the first one stands. */
  lemma TakeOut<T>(s: seq<T>, s': seq<T>) returns (k: nat)
    requires multiset(s) == multiset(s') && s != []
    ensures k < |s'| && s'[k] == s[|s| - 1]
    ensures multiset(s[..|s| - 1]) == multiset(s'[..k] + s'[k + 1..])
  {
    var n := |s| - 1;
    assert s == s[..n] + [s[n]];
    assert s[n] in multiset(s');
    k :| 0 <= k < |s'| && s'[k] == s[n];
    assert s' == s'[..k] + [s[n]] + s'[k + 1..];
    assert multiset(s'[..k] + s'[k + 1..]) == multiset(s') - multiset{s[n]};
    assert multiset(s[..n]) == multiset(s) - multiset{s[n]};
  }

  lemma RemoveVisit(id: string, visits: seq<(Candidate, Branch)>, k: nat)
    requires k < |visits|
    ensures var rest := ContributionsTo(id, visits[..k] + visits[k + 1..]);
            var here := ContributionsTo(id, [visits[k]]);
            && Sum(ContributionsTo(id, visits)) == Sum(rest) + Sum(here)
            && |ContributionsTo(id, visits)| == |rest| + |here|
  {
    var a, v, b := visits[..k], [visits[k]], visits[k + 1..];
    assert visits == a + v + b;
    ContributionsAppend(id, a, v);
    ContributionsAppend(id, a + v, b);
    ContributionsAppend(id, a, b);
    SumAppend(ContributionsTo(id, a), ContributionsTo(id, v));
    SumAppend(ContributionsTo(id, a + v), ContributionsTo(id, b));
    SumAppend(ContributionsTo(id, a), ContributionsTo(id, b));
  }

  lemma {:induction false} ContributionsAppend(id: string, a: seq<(Candidate, Branch)>, b: seq<(Candidate, Branch)>)
    ensures ContributionsTo(id, a + b) == ContributionsTo(id, a) + ContributionsTo(id, b)
    decreases |b|
  {
    if b == [] {
      assert a + b == a;
    } else {
      ContributionsAppend(id, a, b[..|b| - 1]);
      assert (a + b)[..|a + b| - 1] == a + b[..|b| - 1];
    }
  }

  lemma {:induction false} SumAppend(a: seq<real>, b: seq<real>)
    ensures Sum(a + b) == Sum(a) + Sum(b)
    decreases |b|
  {
    if b == [] {
      assert a + b == a;
    } else {
      SumAppend(a, b[..|b| - 1]);
      assert (a + b)[..|a + b| - 1] == a + b[..|b| - 1];
    }
  }

  /** Branches in another order visit the same candidates. */
  lemma {:induction false} VisitsByMultiset(branches: seq<BranchResult>, branches': seq<BranchResult>)
    requires multiset(branches) == multiset(branches')
    ensures multiset(Visits(branches)) == multiset(Visits(branches'))
    decreases |branches|
  {
    hide Visits;
    if branches == [] {
      assert |multiset(branches')| == 0;
    } else {
      var n := |branches| - 1;
      var k := TakeOut(branches, branches');
      VisitsByMultiset(branches[..n], branches'[..k] + branches'[k + 1..]);
      var v := branches[n];
      RemoveBranch(branches'[..k], v, branches'[k + 1..]);
      RemoveBranch(branches[..n], v, []);
      assert branches' == branches'[..k] + [v] + branches'[k + 1..];
      assert branches == branches[..n] + [v] + [] && branches[..n] + [] == branches[..n];
    }
  }

  lemma RemoveBranch(a: seq<BranchResult>, v: BranchResult, b: seq<BranchResult>)
    ensures multiset(Visits(a + [v] + b)) == multiset(Visits(a + b)) + multiset(Visits([v]))
  {
    VisitsOfThree(a, [v], b);
    VisitsAppend(a, b);
    hide Visits;
    ThreeParts(Visits(a), Visits([v]), Visits(b));
  }

  lemma VisitsOfThree(a: seq<BranchResult>, v: seq<BranchResult>, b: seq<BranchResult>)
    ensures Visits(a + v + b) == Visits(a) + Visits(v) + Visits(b)
  {
    VisitsAppend(a, v);
    VisitsAppend(a + v, b);
  }

  lemma ThreeParts<T>(a: seq<T>, v: seq<T>, b: seq<T>)
    ensures multiset(a + v + b) == multiset(a + b) + multiset(v)
  {
  }

  lemma {:induction false} VisitsAppend(a: seq<BranchResult>, b: seq<BranchResult>)
    ensures Visits(a + b) == Visits(a) + Visits(b)
    decreases |b|
  {
    hide *;
    if b == [] {
      NoVisits();
      assert a + b == a && Visits(a) + [] == Visits(a);
    } else {
      var before, last := b[..|b| - 1], b[|b| - 1];
      VisitsAppend(a, before);
      VisitsSnoc(before, last);
      VisitsSnoc(a + before, last);
      Regroup(a, before, [last]);
      Regroup(Visits(a), Visits(before), VisitsOf(last.branch, last.candidates));
      assert b == before + [last];
    }
  }

  lemma NoVisits()
    ensures Visits([]) == []
  {
  }

  lemma Regroup<T>(a: seq<T>, b: seq<T>, c: seq<T>)
    ensures a + b + c == a + (b + c)
  {
  }

  lemma VisitsSnoc(a: seq<BranchResult>, last: BranchResult)
    ensures Visits(a + [last]) == Visits(a) + VisitsOf(last.branch, last.candidates)
  {
    assert (a + [last])[..|a|] == a;
  }
}
