/** The weighted comparison of proposals: criteria in order, scores, and the rounded weighted mean. */
module Comparison {
  import opened Options
  import opened Ordering
  import opened VotingMath

  type Id = nat

  datatype Criterion = Criterion(weight: nat, position: nat)

  type Criteria = map<Id, Criterion>

  type Scores = map<(Id, Id), nat>  // (proposal, criterion)

  ghost predicate DistinctPositions(criteria: Criteria) {
    forall a <- criteria, b <- criteria :: criteria[a].position == criteria[b].position ==> a == b
  }

  ghost predicate Distinct(list: seq<Id>) {
    forall i, j :: 0 <= i < j < |list| ==> list[i] != list[j]
  }

  // ---------------------------------------------------------------- order

  function Positions(criteria: Criteria): set<nat> {
    set c <- criteria :: criteria[c].position
  }

  /** `next_criterion_position`: one more than the largest position, 0 when there is none. */
  function NextPosition(criteria: Criteria): nat {
    if Positions(criteria) == {} then 0 else Greatest(Positions(criteria)) + 1
  }

  /** A new criterion's position is right behind the last one, and 0 if it is the first. */
  lemma NextPositionIsFree(criteria: Criteria)
    ensures forall c <- criteria :: criteria[c].position < NextPosition(criteria)
    ensures if criteria == map[] then NextPosition(criteria) == 0
            else exists c <- criteria :: NextPosition(criteria) == criteria[c].position + 1
  {
    if criteria != map[] {
      var some :| some in criteria;
      assert criteria[some].position in Positions(criteria);
    }
    forall c | c in criteria ensures criteria[c].position < NextPosition(criteria) {
      assert criteria[c].position in Positions(criteria);
    }
  }

  /** The position that the loop of `reorder_criteria` leaves: the last index of `c`. */
  function LastIndex(ids: seq<Id>, c: Id): (i: nat)
    requires c in ids
    ensures i < |ids| && ids[i] == c && forall j :: i < j < |ids| ==> ids[j] != c
  {
    if ids[|ids| - 1] == c then |ids| - 1 else LastIndex(ids[..|ids| - 1], c)
  }

  function Reordered(criteria: Criteria, ids: seq<Id>): Criteria {
    map c <- criteria :: if c in ids then criteria[c].(position := LastIndex(ids, c)) else criteria[c]
  }

  predicate NamesAll(criteria: Criteria, ids: seq<Id>) {
    (set c <- ids) == criteria.Keys
  }

  /** Reordering keeps positions distinct and weights as they were. */
  lemma ReorderedIsDistinct(criteria: Criteria, ids: seq<Id>)
    requires NamesAll(criteria, ids)
    ensures DistinctPositions(Reordered(criteria, ids))
    ensures forall c <- criteria :: Reordered(criteria, ids)[c].weight == criteria[c].weight
  {
    assert forall c <- criteria :: c in (set x <- ids);
  }

  /** Each criterion ends up where the request lists it exactly when the request repeats none, as its validator demands. */
  lemma ReorderFollowsRequest(criteria: Criteria, ids: seq<Id>)
    requires NamesAll(criteria, ids)
    ensures Distinct(ids) <==>
            (forall i :: 0 <= i < |ids| ==> ids[i] in criteria && Reordered(criteria, ids)[ids[i]].position == i)
  {
    assert forall i :: 0 <= i < |ids| ==> ids[i] in (set x <- ids);
    if i, j :| 0 <= i < j < |ids| && ids[i] == ids[j] {
      assert LastIndex(ids, ids[i]) != i;
    }
  }

  /** Then the positions are exactly 0 to n - 1. */
  lemma ReorderedPositions(criteria: Criteria, ids: seq<Id>, p: nat)
    requires NamesAll(criteria, ids) && Distinct(ids)
    ensures p in Positions(Reordered(criteria, ids)) <==> p < |criteria|
    ensures |ids| == |criteria|
  {
    ReorderFollowsRequest(criteria, ids);
    var after := Reordered(criteria, ids);
    DistinctSize(ids, criteria.Keys);
    if p < |ids| {
      assert after[ids[p]].position == p;
    }
    if p in Positions(after) {
      var c :| c in after && after[c].position == p;
      assert c in (set x <- ids);
    }
  }

  lemma {:induction false} DistinctSize(list: seq<Id>, elements: set<Id>)
    requires (set x <- list) == elements && Distinct(list)
    ensures |list| == |elements|
  {
    if list == [] {
      assert elements == {};
    } else {
      var rest := set x <- list[1..];
      forall x ensures x in rest <==> x in elements - {list[0]} {
        if x in rest {
          assert x in list[1..] && x in list;
        }
        if x in elements - {list[0]} {
          assert x in list;
          var i :| 0 <= i < |list| && list[i] == x;
          assert list[1..][i - 1] == x;
        }
      }
      assert list[0] in elements;
      DistinctSize(list[1..], elements - {list[0]});
    }
  }

  // ---------------------------------------------------------------- scores

  predicate IsComplete(criteria: Criteria, scores: Scores, p: Id) {
    criteria != map[] && forall c <- criteria :: (p, c) in scores
  }

  function TotalWeight(criteria: Criteria, list: seq<Id>): nat
    requires forall c <- list :: c in criteria
  {
    if list == [] then 0 else criteria[list[0]].weight + TotalWeight(criteria, list[1..])
  }

  function WeightedSum(criteria: Criteria, scores: Scores, p: Id, list: seq<Id>): nat
    requires forall c <- list :: c in criteria && (p, c) in scores
  {
    if list == [] then 0
    else scores[(p, list[0])] * criteria[list[0]].weight + WeightedSum(criteria, scores, p, list[1..])
  }

  /** The comparison's score, in hundredths; `list` is the order in which the criteria are read. */
  function WeightedScore(round: Rounding, criteria: Criteria, scores: Scores, p: Id, list: seq<Id>): Option<nat>
    requires Lists(list, criteria.Keys)
  {
    if IsComplete(criteria, scores, p) && TotalWeight(criteria, list) > 0
    then Some(round(100 * WeightedSum(criteria, scores, p, list), TotalWeight(criteria, list)))
    else None
  }

  ghost predicate ValidScores(criteria: Criteria, scores: Scores) {
    && (forall c <- criteria :: 1 <= criteria[c].weight <= 100)
    && (forall s <- scores :: 1 <= scores[s] <= 5)
  }

  // ---------------------------------------------------------------- bounds

  lemma {:induction false} SumBounds(criteria: Criteria, scores: Scores, p: Id, list: seq<Id>)
    requires ValidScores(criteria, scores) && forall c <- list :: c in criteria && (p, c) in scores
    ensures TotalWeight(criteria, list) <= WeightedSum(criteria, scores, p, list) <= 5 * TotalWeight(criteria, list)
    ensures list != [] ==> TotalWeight(criteria, list) >= 1
  {
    if list != [] {
      SumBounds(criteria, scores, p, list[1..]);
      MulMonotone(1, scores[(p, list[0])], criteria[list[0]].weight);
      MulMonotone(scores[(p, list[0])], 5, criteria[list[0]].weight);
    }
  }

  lemma RoundedBounds(r: nat, n: nat, d: nat)
    requires d >= 1 && d <= n <= 5 * d && Nearest(r, 100 * n, d)
    ensures 100 <= r <= 500
  {
    DropFactor(100, r, d);
    DropFactor(r, 500, d);
  }

  lemma {:induction false} SumIsMonotone(criteria: Criteria, scores: Scores, better: Scores, p: Id, list: seq<Id>)
    requires forall c <- list :: c in criteria && (p, c) in scores && (p, c) in better && scores[(p, c)] <= better[(p, c)]
    ensures WeightedSum(criteria, scores, p, list) <= WeightedSum(criteria, better, p, list)
  {
    if list != [] {
      SumIsMonotone(criteria, scores, better, p, list[1..]);
      MulMonotone(scores[(p, list[0])], better[(p, list[0])], criteria[list[0]].weight);
    }
  }

  /**
    A proposal has a weighted score exactly when there are criteria and it is scored on all of them; the score is nearest
    to the weighted mean and lies between 1.00 and 5.00.
   */
  lemma ScoreIsTheMean(round: Rounding, criteria: Criteria, scores: Scores, p: Id, list: seq<Id>)
    requires RoundsToNearest(round) && ValidScores(criteria, scores) && Lists(list, criteria.Keys)
    ensures WeightedScore(round, criteria, scores, p, list).Some? <==> IsComplete(criteria, scores, p)
    ensures IsComplete(criteria, scores, p) ==>
      var r := WeightedScore(round, criteria, scores, p, list).value;
      && Nearest(r, 100 * WeightedSum(criteria, scores, p, list), TotalWeight(criteria, list))
      && 100 <= r <= 500
  {
    if IsComplete(criteria, scores, p) {
      assert list != [] by {
        var c :| c in criteria.Keys;
        assert c in list;
      }
      SumBounds(criteria, scores, p, list);
      var n, d := WeightedSum(criteria, scores, p, list), TotalWeight(criteria, list);
      RoundedBounds(round(100 * n, d), n, d);
    }
  }

  /** Raising scores never lowers the weighted score. */
  lemma ScoreIsMonotone(round: Rounding, criteria: Criteria, scores: Scores, better: Scores, p: Id, list: seq<Id>)
    requires RoundsToNearest(round) && ValidScores(criteria, scores) && Lists(list, criteria.Keys)
    requires IsComplete(criteria, scores, p) && IsComplete(criteria, better, p)
    requires forall c <- criteria :: scores[(p, c)] <= better[(p, c)]
    requires TotalWeight(criteria, list) > 0
    ensures WeightedScore(round, criteria, scores, p, list).value <= WeightedScore(round, criteria, better, p, list).value
  {
    SumIsMonotone(criteria, scores, better, p, list);
    var n, m := 100 * WeightedSum(criteria, scores, p, list), 100 * WeightedSum(criteria, better, p, list);
    var d := TotalWeight(criteria, list);
    assert Nearest(round(n, d), n, d) && Nearest(round(m, d), m, d);
    if n < m {
      NearestKeepsOrder(round(n, d), round(m, d), n, m, d);
    }
  }

  // ---------------------------------------------------------------- what the mean is

  lemma Regroup(v: nat, w: nat, t: nat)
    ensures v * w + v * t == v * (w + t)
  {
  }

  lemma {:induction false} UniformSum(criteria: Criteria, scores: Scores, p: Id, list: seq<Id>, v: nat)
    requires forall c <- list :: c in criteria && (p, c) in scores && scores[(p, c)] == v
    ensures WeightedSum(criteria, scores, p, list) == v * TotalWeight(criteria, list)
  {
    if list != [] {
      UniformSum(criteria, scores, p, list[1..], v);
      Regroup(v, criteria[list[0]].weight, TotalWeight(criteria, list[1..]));
    }
  }

  lemma ExactMean(r: nat, v: nat, d: nat)
    requires d >= 1 && Nearest(r, 100 * (v * d), d)
    ensures r == 100 * v
  {
    assert 100 * (v * d) == (100 * v) * d;
    DropFactor(100 * v, r, d);
    DropFactor(r, 100 * v, d);
  }

  /** A proposal with the same score on every criterion has that score as its mean, whatever the weights. */
  lemma UniformScores(round: Rounding, criteria: Criteria, scores: Scores, p: Id, list: seq<Id>, v: nat)
    requires RoundsToNearest(round) && ValidScores(criteria, scores) && Lists(list, criteria.Keys) && criteria != map[]
    requires forall c <- criteria :: (p, c) in scores && scores[(p, c)] == v
    ensures WeightedScore(round, criteria, scores, p, list) == Some(100 * v)
  {
    ScoreIsTheMean(round, criteria, scores, p, list);
    UniformSum(criteria, scores, p, list, v);
    assert list != [] by {
      var c :| c in criteria.Keys;
      assert c in list;
    }
    SumBounds(criteria, scores, p, list);
    ExactMean(WeightedScore(round, criteria, scores, p, list).value, v, TotalWeight(criteria, list));
  }

  /** One point more on a criterion adds the weight of that criterion to the weighted sum. */
  lemma {:induction false} OnePointCounts(criteria: Criteria, scores: Scores, p: Id, list: seq<Id>, c: Id)
    requires Distinct(list) && (forall x <- list :: x in criteria && (p, x) in scores) && c in list
    ensures WeightedSum(criteria, scores[(p, c) := scores[(p, c)] + 1], p, list)
         == WeightedSum(criteria, scores, p, list) + criteria[c].weight
  {
    var more := scores[(p, c) := scores[(p, c)] + 1];
    var i :| 0 <= i < |list| && list[i] == c;
    SumsSplit(criteria, scores, p, list, i);
    SumsSplit(criteria, more, p, list, i);
    var rest := list[..i] + list[i + 1..];
    assert c !in rest;
    SameScores(criteria, scores, more, p, rest);
    OneMore(scores[(p, c)], criteria[c].weight);
  }

  lemma OneMore(v: nat, w: nat)
    ensures (v + 1) * w == v * w + w
  {
  }

  lemma {:induction false} SameScores(criteria: Criteria, scores: Scores, other: Scores, p: Id, list: seq<Id>)
    requires forall c <- list :: c in criteria && (p, c) in scores && (p, c) in other && other[(p, c)] == scores[(p, c)]
    ensures WeightedSum(criteria, scores, p, list) == WeightedSum(criteria, other, p, list)
  {
    if list != [] {
      SameScores(criteria, scores, other, p, list[1..]);
    }
  }

  // ---------------------------------------------------------------- the order of criteria does not matter

  lemma {:induction false} SumsSplit(criteria: Criteria, scores: Scores, p: Id, list: seq<Id>, i: nat)
    requires i < |list| && forall c <- list :: c in criteria && (p, c) in scores
    ensures var rest := list[..i] + list[i + 1..];
      && (forall c <- rest :: c in list)
      && TotalWeight(criteria, list) == criteria[list[i]].weight + TotalWeight(criteria, rest)
      && WeightedSum(criteria, scores, p, list) == scores[(p, list[i])] * criteria[list[i]].weight + WeightedSum(criteria, scores, p, rest)
  {
    var rest := list[..i] + list[i + 1..];
    if i == 0 {
      assert rest == list[1..];
    } else {
      SumsSplit(criteria, scores, p, list[1..], i - 1);
      assert rest[1..] == list[1..][..i - 1] + list[1..][i..];
      assert rest[0] == list[0];
    }
  }

  lemma ListWithout(list: seq<Id>, elements: set<Id>, i: nat)
    requires Lists(list, elements) && i < |list| && Distinct(list)
    ensures Lists(list[..i] + list[i + 1..], elements - {list[i]})
    ensures Distinct(list[..i] + list[i + 1..])
  {
    var rest := list[..i] + list[i + 1..];
    forall x ensures x in rest <==> x in elements - {list[i]} {
      if x in elements - {list[i]} {
        assert x in list;
        var j :| 0 <= j < |list| && list[j] == x;
        assert rest[if j < i then j else j - 1] == x;
      }
      if x in rest {
        var j :| 0 <= j < |rest| && rest[j] == x;
        assert rest[j] == list[if j < i then j else j + 1];
        assert x in list;
      }
    }
    assert list[i] in elements;
  }

  /** Two listings of the same criteria have the same sums. */
  lemma {:induction false} SumsAgree(criteria: Criteria, scores: Scores, p: Id, a: seq<Id>, b: seq<Id>, elements: set<Id>)
    requires Lists(a, elements) && Lists(b, elements) && forall c <- elements :: c in criteria && (p, c) in scores
    requires Distinct(a) && Distinct(b)
    ensures TotalWeight(criteria, a) == TotalWeight(criteria, b)
    ensures WeightedSum(criteria, scores, p, a) == WeightedSum(criteria, scores, p, b)
    decreases |a|
  {
    if a != [] {
      assert a[0] in b;
      var i :| 0 <= i < |b| && b[i] == a[0];
      ListWithout(a, elements, 0);
      assert a[..0] + a[1..] == a[1..];
      ListWithout(b, elements, i);
      SumsSplit(criteria, scores, p, b, i);
      SumsAgree(criteria, scores, p, a[1..], b[..i] + b[i + 1..], elements - {a[0]});
    } else {
      assert b == [];
    }
  }

  // ---------------------------------------------------------------- listing by position

  predicate IsFirst(criteria: Criteria, c: Id) {
    c in criteria && forall d <- criteria :: d == c || criteria[c].position < criteria[d].position
  }

  lemma FirstExists(criteria: Criteria)
    requires criteria != map[] && DistinctPositions(criteria)
    ensures exists c :: IsFirst(criteria, c)
  {
    var some :| some in criteria;
    assert criteria[some].position in Positions(criteria);
    var p := Least(Positions(criteria));
    var c :| c in criteria && criteria[c].position == p;
    assert forall d <- criteria :: criteria[d].position in Positions(criteria);
    assert IsFirst(criteria, c);
  }

  function First(criteria: Criteria): (c: Id)
    requires criteria != map[] && DistinctPositions(criteria)
    ensures c in criteria && IsFirst(criteria, c)
  {
    FirstExists(criteria);
    var c :| IsFirst(criteria, c);
    c
  }

  /** `list_criteria`: by position. */
  function ByPosition(criteria: Criteria): (list: seq<Id>)
    requires DistinctPositions(criteria)
    ensures Lists(list, criteria.Keys)
    decreases |criteria|
  {
    if criteria == map[] then []
    else
      var c := First(criteria);
      assert (criteria - {c}).Keys == criteria.Keys - {c};
      ConsLists(c, ByPosition(criteria - {c}), criteria.Keys);
      [c] + ByPosition(criteria - {c})
  }

  ghost predicate Ascends(criteria: Criteria, list: seq<Id>) {
    && (forall c <- list :: c in criteria)
    && forall i, j :: 0 <= i < j < |list| ==> criteria[list[i]].position < criteria[list[j]].position
  }

  lemma FirstAscends(criteria: Criteria, rest: seq<Id>, c: Id)
    requires IsFirst(criteria, c) && Ascends(criteria - {c}, rest)
    ensures Ascends(criteria, [c] + rest)
  {
    var list := [c] + rest;
    forall i, j | 0 <= i < j < |list| ensures list[j] in criteria && criteria[list[i]].position < criteria[list[j]].position {
      assert list[j] == rest[j - 1] && rest[j - 1] in criteria - {c};
      assert i > 0 ==> list[i] == rest[i - 1] && rest[i - 1] in criteria - {c};
    }
  }

  /** The list goes by strictly increasing position, so it repeats nothing. */
  lemma {:induction false} ByPositionAscends(criteria: Criteria)
    requires DistinctPositions(criteria)
    ensures Ascends(criteria, ByPosition(criteria)) && Distinct(ByPosition(criteria))
    decreases |criteria|
  {
    hide IsFirst, Ordering.Lists;
    if criteria != map[] {
      var c := First(criteria);
      assert (criteria - {c}).Keys == criteria.Keys - {c};
      ByPositionAscends(criteria - {c});
      FirstAscends(criteria, ByPosition(criteria - {c}), c);
    }
    AscendingIsDistinct(criteria, ByPosition(criteria));
  }

  lemma AscendingIsDistinct(criteria: Criteria, list: seq<Id>)
    requires Ascends(criteria, list)
    ensures Distinct(list)
  {
    forall i, j | 0 <= i < j < |list| ensures list[i] != list[j] {
      assert list[i] in list && list[j] in list;
    }
  }

  function Compared(round: Rounding, criteria: Criteria, scores: Scores, p: Id): Option<nat>
    requires DistinctPositions(criteria)
  {
    WeightedScore(round, criteria, scores, p, ByPosition(criteria))
  }

  lemma {:induction false} SameWeights(a: Criteria, b: Criteria, scores: Scores, p: Id, list: seq<Id>)
    requires forall c <- list :: c in a && c in b && a[c].weight == b[c].weight && (p, c) in scores
    ensures TotalWeight(a, list) == TotalWeight(b, list) && WeightedSum(a, scores, p, list) == WeightedSum(b, scores, p, list)
  {
    if list != [] {
      SameWeights(a, b, scores, p, list[1..]);
    }
  }

  lemma SameScore(round: Rounding, a: Criteria, b: Criteria, scores: Scores, p: Id, x: seq<Id>, y: seq<Id>)
    requires a.Keys == b.Keys && (forall c <- a :: a[c].weight == b[c].weight)
    requires Lists(x, a.Keys) && Lists(y, b.Keys) && Distinct(x) && Distinct(y)
    ensures WeightedScore(round, a, scores, p, x) == WeightedScore(round, b, scores, p, y)
  {
    assert IsComplete(a, scores, p) <==> IsComplete(b, scores, p) by {
      assert a == map[] <==> a.Keys == {};
      assert b == map[] <==> b.Keys == {};
    }
    if IsComplete(a, scores, p) {
      SumsAgree(a, scores, p, x, y, a.Keys);
      SameWeights(a, b, scores, p, y);
    }
  }

  /** Reordering the criteria changes no proposal's score. */
  lemma ReorderKeepsScores(round: Rounding, criteria: Criteria, scores: Scores, p: Id, ids: seq<Id>)
    requires DistinctPositions(criteria) && NamesAll(criteria, ids)
    ensures DistinctPositions(Reordered(criteria, ids))
    ensures Compared(round, Reordered(criteria, ids), scores, p) == Compared(round, criteria, scores, p)
  {
    hide DistinctPositions, Distinct, Ordering.Lists, NamesAll, WeightedScore, ByPosition;
    ReorderedIsDistinct(criteria, ids);
    var after := Reordered(criteria, ids);
    ByPositionAscends(criteria);
    ByPositionAscends(after);
    assert after.Keys == criteria.Keys;
    SameScore(round, after, criteria, scores, p, ByPosition(after), ByPosition(criteria));
  }
}
