/** The criteria, scores and comparison of one decision, changed in place by the proposal service. */
module CriteriaBoard {
  import opened Options
  import opened Ordering
  import opened VotingMath
  import opened Comparison

  datatype Error = CriterionNotFound | CriterionConflict | ProposalImmutable | Rejected

  type Outcome = Attempt<(), Error>

  class Board {
    var criteria: Criteria
    var scores: Scores
    var submitted: set<Id>

    /** Positions are distinct, weights and scores in range, and every score belongs to a criterion. */
    ghost predicate Valid()
      reads this
    {
      DistinctPositions(criteria) && ValidScores(criteria, scores) && forall s <- scores :: s.1 in criteria
    }

    constructor (submitted: set<Id>)
      ensures Valid() && criteria == map[] && scores == map[] && this.submitted == submitted
    {
      criteria, scores := map[], map[];
      this.submitted := submitted;
    }

    /** The new criterion goes behind all the others; a weight out of range breaks a CHECK. */
    method CreateCriterion(c: Id, weight: nat) returns (outcome: Outcome)
      requires Valid()
      modifies this`criteria
      ensures Valid()
      ensures outcome == if c !in old(criteria) && 1 <= weight <= 100 then Ok(()) else Refused(Rejected)
      ensures criteria == if outcome.Ok? then old(criteria)[c := Criterion(weight, NextPosition(old(criteria)))] else old(criteria)
      ensures outcome.Ok? ==> forall d <- old(criteria) :: criteria[d].position < criteria[c].position
    {
      if c in criteria || weight < 1 || weight > 100 { return Refused(Rejected); }
      NextPositionIsFree(criteria);
      criteria := criteria[c := Criterion(weight, NextPosition(criteria))];
      return Ok(());
    }

    method UpdateWeight(c: Id, weight: nat) returns (outcome: Outcome)
      requires Valid()
      modifies this`criteria
      ensures Valid()
      ensures outcome == if c !in old(criteria) then Refused(CriterionNotFound) else if 1 <= weight <= 100 then Ok(()) else Refused(Rejected)
      ensures criteria == if outcome.Ok? then old(criteria)[c := old(criteria)[c].(weight := weight)] else old(criteria)
    {
      if c !in criteria { return Refused(CriterionNotFound); }
      if weight < 1 || weight > 100 { return Refused(Rejected); }
      criteria := criteria[c := criteria[c].(weight := weight)];
      return Ok(());
    }

    /** Deleting a criterion deletes its scores. */
    method DeleteCriterion(c: Id) returns (outcome: Outcome)
      requires Valid()
      modifies this`criteria, this`scores
      ensures Valid()
      ensures outcome == if c in old(criteria) then Ok(()) else Refused(CriterionNotFound)
      ensures criteria == old(criteria) - {c}
      ensures scores == if outcome.Ok? then map s <- old(scores) | s.1 != c :: old(scores)[s] else old(scores)
    {
      if c !in criteria { return Refused(CriterionNotFound); }
      criteria := criteria - {c};
      scores := map s <- scores | s.1 != c :: scores[s];
      return Ok(());
    }

    /** Assigns each listed criterion its index; the request must name exactly the criteria there are. */
    method ReorderCriteria(ids: seq<Id>) returns (outcome: Outcome)
      requires Valid()
      modifies this`criteria
      ensures Valid()
      ensures outcome == if NamesAll(old(criteria), ids) then Ok(()) else Refused(CriterionConflict)
      ensures criteria == if outcome.Ok? then Reordered(old(criteria), ids) else old(criteria)
    {
      if (set c <- ids) != criteria.Keys { return Refused(CriterionConflict); }
      assert forall i :: 0 <= i < |ids| ==> ids[i] in (set c <- ids);
      for position := 0 to |ids|
        invariant criteria == Reordered(old(criteria), ids[..position])
      {
        assert ids[..position + 1][..position] == ids[..position];
        criteria := criteria[ids[position] := criteria[ids[position]].(position := position)];
      }
      assert ids[..|ids|] == ids;
      ReorderedIsDistinct(old(criteria), ids);
      return Ok(());
    }

    method UpsertScore(p: Id, c: Id, score: nat) returns (outcome: Outcome)
      requires Valid()
      modifies this`scores
      ensures Valid()
      ensures outcome ==
        if p !in submitted then Refused(ProposalImmutable)
        else if c !in criteria then Refused(CriterionNotFound)
        else if 1 <= score <= 5 then Ok(()) else Refused(Rejected)
      ensures scores == if outcome.Ok? then old(scores)[(p, c) := score] else old(scores)
    {
      if p !in submitted { return Refused(ProposalImmutable); }
      if c !in criteria { return Refused(CriterionNotFound); }
      if score < 1 || score > 5 { return Refused(Rejected); }
      scores := scores[(p, c) := score];
      return Ok(());
    }

    /** The accumulating loop of `compare`, in the order in which proposals are listed. */
    method Compare(round: Rounding, proposals: seq<Id>) returns (result: seq<Option<nat>>)
      requires Valid()
      ensures |result| == |proposals|
      ensures forall i :: 0 <= i < |proposals| ==> result[i] == Compared(round, criteria, scores, proposals[i])
    {
      hide Comparison.ByPosition, Comparison.WeightedScore, Ordering.Lists, Comparison.DistinctPositions,
           Comparison.ValidScores;
      var list := ByPosition(criteria);
      ListedAreCriteria(criteria, list);
      var total := SumWeights(list);
      result := [];
      for i := 0 to |proposals|
        invariant |result| == i
        invariant forall k :: 0 <= k < i ==> result[k] == Compared(round, criteria, scores, proposals[k])
      {
        var score := Score(round, proposals[i], list, total);
        result := result + [score];
      }
    }

    /** One proposal: count the criteria it is scored on, and take the mean when that is all of them. */
    method Score(round: Rounding, p: Id, list: seq<Id>, total: nat) returns (score: Option<nat>)
      requires Lists(list, criteria.Keys) && (forall c <- list :: c in criteria) && total == TotalWeight(criteria, list)
      ensures score == WeightedScore(round, criteria, scores, p, list)
    {
      var scored := 0;
      for k := 0 to |list|
        invariant 0 <= scored <= k
        invariant scored == k <==> forall j :: 0 <= j < k ==> (p, list[j]) in scores
      {
        if (p, list[k]) in scores { scored := scored + 1; }
      }
      CompleteByList(criteria, scores, p, list);
      var isComplete := list != [] && scored == |list|;
      if isComplete && total > 0 {
        var sum := SumScores(p, list);
        return Some(round(100 * sum, total));
      }
      return None;
    }

    method SumWeights(list: seq<Id>) returns (total: nat)
      requires forall c <- list :: c in criteria
      ensures total == TotalWeight(criteria, list)
    {
      total := 0;
      var k := |list|;
      while k > 0
        invariant 0 <= k <= |list| && total == TotalWeight(criteria, list[k..])
      {
        k := k - 1;
        assert list[k..][1..] == list[k + 1..];
        total := criteria[list[k]].weight + total;
      }
      assert list[0..] == list;
    }

    method SumScores(p: Id, list: seq<Id>) returns (sum: nat)
      requires forall c <- list :: c in criteria && (p, c) in scores
      ensures sum == WeightedSum(criteria, scores, p, list)
    {
      sum := 0;
      var k := |list|;
      while k > 0
        invariant 0 <= k <= |list| && sum == WeightedSum(criteria, scores, p, list[k..])
      {
        k := k - 1;
        assert list[k..][1..] == list[k + 1..];
        sum := scores[(p, list[k])] * criteria[list[k]].weight + sum;
      }
      assert list[0..] == list;
    }
  }

  lemma ListedAreCriteria(criteria: Criteria, list: seq<Id>)
    requires Lists(list, criteria.Keys)
    ensures forall c <- list :: c in criteria
  {
  }

  lemma CompleteByList(criteria: Criteria, scores: Scores, p: Id, list: seq<Id>)
    requires Lists(list, criteria.Keys)
    ensures IsComplete(criteria, scores, p) <==> list != [] && forall j :: 0 <= j < |list| ==> (p, list[j]) in scores
  {
    assert forall c :: c in list <==> c in criteria;
    if list != [] {
      assert list[0] in list;
    }
    assert criteria == map[] <==> criteria.Keys == {};
    assert forall j :: 0 <= j < |list| ==> list[j] in list;
  }
}
