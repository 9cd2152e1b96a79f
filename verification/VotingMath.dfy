/** Quorum, tallies, rounded shares and the winner of a closed voting session. */
module VotingMath {
  import opened Options

  /** One row of the tally query: a proposal of the session and its number of ballots. */
  datatype Count = Count(proposal: nat, votes: nat)

  datatype Tally = Tally(proposal: nat, votes: nat, hundredths: nat)

  datatype VotingResult = VotingResult(
    session: nat,
    eligibleVoters: nat,
    votesCast: nat,
    quorumPercentage: nat,
    requiredVotes: nat,
    quorumMet: bool,
    winner: Option<nat>,
    isTie: bool,
    tallies: seq<Tally>)

  /** A rule for rounding the fraction of two numbers to an integer. */
  type Rounding = (nat, nat) -> nat

  /** `r` is an integer nearest to n / d; either neighbour will do for a tie. */
  ghost predicate Nearest(r: nat, n: nat, d: nat) {
    2 * n - d <= 2 * (r * d) <= 2 * n + d
  }

  ghost predicate RoundsToNearest(round: Rounding) {
    forall n: nat, d: nat :: d > 0 ==> Nearest(round(n, d), n, d)
  }

  /** The ceiling of eligible * percentage / 100. */
  function RequiredVotes(eligible: nat, percentage: nat): nat {
    (eligible * percentage + 99) / 100
  }

  function TallyOf(round: Rounding, c: Count, cast: nat): Tally {
    Tally(c.proposal, c.votes, if cast > 0 then round(c.votes * 10000, cast) else 0)
  }

  function Tallies(round: Rounding, counts: seq<Count>, cast: nat): (tallies: seq<Tally>)
    ensures |tallies| == |counts|
    ensures forall i :: 0 <= i < |counts| ==> tallies[i] == TallyOf(round, counts[i], cast)
  {
    if counts == [] then [] else [TallyOf(round, counts[0], cast)] + Tallies(round, counts[1..], cast)
  }

  function Highest(tallies: seq<Tally>): nat
    requires tallies != []
  {
    if |tallies| == 1 || Highest(tallies[1..]) <= tallies[0].votes then tallies[0].votes else Highest(tallies[1..])
  }

  function Leaders(tallies: seq<Tally>, votes: nat): seq<nat> {
    if tallies == [] then []
    else (if tallies[0].votes == votes then [tallies[0].proposal] else []) + Leaders(tallies[1..], votes)
  }

  function Evaluate(round: Rounding, session: nat, eligible: nat, percentage: nat, counts: seq<Count>, cast: nat): VotingResult
  {
    var required := RequiredVotes(eligible, percentage);
    var tallies := Tallies(round, counts, cast);
    var decided := cast >= required && tallies != [];
    var leaders := if decided then Leaders(tallies, Highest(tallies)) else [];
    VotingResult(session, eligible, cast, percentage, required, cast >= required,
                 if decided && |leaders| == 1 then Some(leaders[0]) else None,
                 |leaders| > 1, tallies)
  }

  function SumVotes(counts: seq<Count>): nat {
    if counts == [] then 0 else counts[0].votes + SumVotes(counts[1..])
  }

  // ---------------------------------------------------------------- quorum

  /** The required number is the least one that meets the percentage, at least 1 and within reach. */
  lemma RequiredIsLeast(eligible: nat, percentage: nat)
    requires eligible >= 1 && 1 <= percentage <= 100
    ensures var required := RequiredVotes(eligible, percentage);
      && 1 <= required <= eligible
      && (forall v: nat :: required <= v <==> eligible * percentage <= 100 * v)
  {
    var product := eligible * percentage;
    assert product >= 1 by { assert eligible * percentage >= eligible * 1; }
    assert product <= eligible * 100;
  }

  // ---------------------------------------------------------------- winner

  lemma {:induction false} HighestIsMaximum(tallies: seq<Tally>)
    requires tallies != []
    ensures forall i :: 0 <= i < |tallies| ==> tallies[i].votes <= Highest(tallies)
    ensures exists i :: 0 <= i < |tallies| && tallies[i].votes == Highest(tallies)
  {
    if |tallies| == 1 {
      assert tallies[0].votes == Highest(tallies);
    } else {
      HighestIsMaximum(tallies[1..]);
      var i :| 0 <= i < |tallies[1..]| && tallies[1..][i].votes == Highest(tallies[1..]);
      assert tallies[if Highest(tallies[1..]) <= tallies[0].votes then 0 else i + 1].votes == Highest(tallies);
    }
  }

  lemma {:induction false} LeadersAreExact(tallies: seq<Tally>, votes: nat)
    ensures forall p :: p in Leaders(tallies, votes) <==> (exists t <- tallies :: t.proposal == p && t.votes == votes)
  {
    if tallies != [] {
      LeadersAreExact(tallies[1..], votes);
      assert forall t :: t in tallies <==> t == tallies[0] || t in tallies[1..];
    }
  }

  /** With two tallies of `votes` there are two leaders. */
  lemma {:induction false} LeaderCount(tallies: seq<Tally>, votes: nat, i: nat, j: nat)
    requires i < j < |tallies| && tallies[i].votes == votes && tallies[j].votes == votes
    ensures |Leaders(tallies, votes)| > 1
  {
    if i > 0 {
      LeaderCount(tallies[1..], votes, i - 1, j - 1);
    } else {
      LeadersAreExact(tallies[1..], votes);
      assert tallies[1..][j - 1] == tallies[j] && tallies[j] in tallies[1..];
      assert tallies[j].proposal in Leaders(tallies[1..], votes);
    }
  }

  lemma {:induction false} SumBound(counts: seq<Count>, top: nat)
    requires forall c <- counts :: c.votes <= top
    ensures top == 0 ==> SumVotes(counts) == 0
  {
    if counts != [] {
      SumBound(counts[1..], top);
    }
  }

  /** `p` leads: it has a ballot, and every other option has fewer. */
  ghost predicate StrictlyLeads(tallies: seq<Tally>, p: nat) {
    exists i :: 0 <= i < |tallies| && tallies[i].proposal == p && tallies[i].votes >= 1
             && forall j :: 0 <= j < |tallies| && j != i ==> tallies[j].votes < tallies[i].votes
  }

  /** Two options share the highest number of ballots. */
  ghost predicate SharesTheLead(tallies: seq<Tally>) {
    exists i, j :: 0 <= i < j < |tallies| && tallies[i].votes == tallies[j].votes
                && forall k :: 0 <= k < |tallies| ==> tallies[k].votes <= tallies[i].votes
  }

  /** The highest tally is positive once anybody voted. */
  lemma HighestIsPositive(round: Rounding, counts: seq<Count>, cast: nat)
    requires counts != [] && SumVotes(counts) > 0
    ensures Highest(Tallies(round, counts, cast)) >= 1
  {
    var tallies := Tallies(round, counts, cast);
    HighestIsMaximum(tallies);
    forall c | c in counts ensures c.votes <= Highest(tallies) {
      var i :| 0 <= i < |counts| && counts[i] == c;
      assert tallies[i].votes == c.votes;
    }
    SumBound(counts, Highest(tallies));
  }

  /** The leaders are one exactly when somebody leads strictly, and several exactly when the lead is shared. */
  lemma LeadersDecide(tallies: seq<Tally>)
    requires tallies != [] && Highest(tallies) >= 1
    ensures var leaders := Leaders(tallies, Highest(tallies));
      && (|leaders| > 1 <==> SharesTheLead(tallies))
      && (|leaders| == 1 <==> !SharesTheLead(tallies))
      && (|leaders| == 1 ==> forall p: nat :: p == leaders[0] <==> StrictlyLeads(tallies, p))
  {
    var top := Highest(tallies);
    HighestIsMaximum(tallies);
    var i :| 0 <= i < |tallies| && tallies[i].votes == top;
    if j :| 0 <= j < |tallies| && j != i && tallies[j].votes == top {
      var a, b := if i < j then i else j, if i < j then j else i;
      LeaderCount(tallies, top, a, b);
      assert tallies[a].votes == tallies[b].votes;
    } else {
      SingleLeader(tallies, top, i);
      assert StrictlyLeads(tallies, tallies[i].proposal);
    }
  }

  lemma NoStrictLeader(tallies: seq<Tally>, p: nat)
    requires SharesTheLead(tallies)
    ensures !StrictlyLeads(tallies, p)
  {
  }

  /**
    A session whose tallies add up falls under exactly one of: below quorum, tie, winner.
    The winner leads strictly, and a tie is a shared lead.
   */
  lemma ExactlyOneOutcome(round: Rounding, session: nat, eligible: nat, percentage: nat, counts: seq<Count>)
    requires eligible >= 1 && 1 <= percentage <= 100 && counts != []
    ensures var r := Evaluate(round, session, eligible, percentage, counts, SumVotes(counts));
      && (r.quorumMet <==> eligible * percentage <= 100 * SumVotes(counts))
      && (r.isTie <==> r.quorumMet && SharesTheLead(r.tallies))
      && (forall p: nat :: r.winner == Some(p) <==> r.quorumMet && StrictlyLeads(r.tallies, p))
      && (r.winner.Some? <==> r.quorumMet && !r.isTie)
  {
    var cast := SumVotes(counts);
    var r := Evaluate(round, session, eligible, percentage, counts, cast);
    RequiredIsLeast(eligible, percentage);
    if r.quorumMet {
      HighestIsPositive(round, counts, cast);
      LeadersDecide(r.tallies);
      if r.isTie {
        forall p: nat ensures !StrictlyLeads(r.tallies, p) { NoStrictLeader(r.tallies, p); }
      }
    }
  }

  lemma {:induction false} SingleLeader(tallies: seq<Tally>, votes: nat, i: nat)
    requires i < |tallies| && tallies[i].votes == votes
    requires forall j :: 0 <= j < |tallies| && j != i ==> tallies[j].votes != votes
    ensures Leaders(tallies, votes) == [tallies[i].proposal]
  {
    if i > 0 {
      SingleLeader(tallies[1..], votes, i - 1);
    } else {
      NoLeader(tallies[1..], votes);
    }
  }

  lemma {:induction false} NoLeader(tallies: seq<Tally>, votes: nat)
    requires forall j :: 0 <= j < |tallies| ==> tallies[j].votes != votes
    ensures Leaders(tallies, votes) == []
  {
    if tallies != [] {
      NoLeader(tallies[1..], votes);
    }
  }

  // ---------------------------------------------------------------- shares

  lemma MulMonotone(a: int, b: int, d: nat)
    requires a <= b
    ensures a * d <= b * d
  {
  }

  /** Dividing both sides by `d`. */
  lemma DropFactor(a: int, b: int, d: nat)
    requires d > 0 && a * d < b * d + d
    ensures a <= b
  {
    Distribute(b, 1, d);
    if a > b {
      MulMonotone(b + 1, a, d);
    }
  }

  lemma NearestKeepsOrder(r: nat, s: nat, n: nat, m: nat, d: nat)
    requires d > 0 && n < m && Nearest(r, n, d) && Nearest(s, m, d)
    ensures r <= s
  {
    DropFactor(r, s, d);
  }

  function SumHundredths(tallies: seq<Tally>): nat {
    if tallies == [] then 0 else tallies[0].hundredths + SumHundredths(tallies[1..])
  }

  /** In units of 1 / (2 * cast) of a hundredth, the sum is off by at most `cast` for each option. */
  lemma {:induction false} SumDrift(round: Rounding, counts: seq<Count>, cast: nat)
    requires RoundsToNearest(round) && cast > 0
    ensures var drift := 2 * (SumHundredths(Tallies(round, counts, cast)) * cast) - 20000 * SumVotes(counts);
      -(|counts| * cast) <= drift <= |counts| * cast
  {
    if counts != [] {
      SumDrift(round, counts[1..], cast);
      var first := TallyOf(round, counts[0], cast).hundredths;
      var rest := SumHundredths(Tallies(round, counts[1..], cast));
      assert Tallies(round, counts, cast)[1..] == Tallies(round, counts[1..], cast);
      assert Nearest(first, counts[0].votes * 10000, cast);
      Distribute(first, rest, cast);
      Distribute(1, |counts[1..]|, cast);
    }
  }

  lemma Distribute(a: int, b: int, d: int)
    ensures (a + b) * d == a * d + b * d
  {
  }

  /** Each share, in hundredths of a percent, is nearest to the exact one, and shares keep the order of the votes. */
  lemma SharesKeepOrder(round: Rounding, counts: seq<Count>, i: nat, j: nat)
    requires RoundsToNearest(round) && SumVotes(counts) > 0
    requires i < |counts| && j < |counts| && counts[i].votes <= counts[j].votes
    ensures var tallies := Tallies(round, counts, SumVotes(counts));
      && Nearest(tallies[i].hundredths, tallies[i].votes * 10000, SumVotes(counts))
      && tallies[i].hundredths <= tallies[j].hundredths
  {
    var cast := SumVotes(counts);
    var n, m := counts[i].votes * 10000, counts[j].votes * 10000;
    assert Nearest(round(n, cast), n, cast) && Nearest(round(m, cast), m, cast);
    if n < m {
      NearestKeepsOrder(round(n, cast), round(m, cast), n, m, cast);
    }
  }

  /** The shares of k options add up to 10000 hundredths of a percent, give or take k / 2. */
  lemma SharesAddUp(round: Rounding, counts: seq<Count>, cast: nat)
    requires RoundsToNearest(round) && cast == SumVotes(counts) > 0
    ensures 20000 - |counts| <= 2 * SumHundredths(Tallies(round, counts, cast)) <= 20000 + |counts|
  {
    SumDrift(round, counts, cast);
    Cancel(SumHundredths(Tallies(round, counts, cast)), |counts|, cast);
  }

  lemma Cancel(sum: nat, k: nat, d: nat)
    requires d > 0 && -(k * d) <= 2 * (sum * d) - 20000 * d <= k * d
    ensures 20000 - k <= 2 * sum <= 20000 + k
  {
    Distribute(sum, sum, d);
    Distribute(20000, k, d);
    Distribute(sum + sum, k, d);
    DropFactor(sum + sum, 20000 + k, d);
    DropFactor(20000, sum + sum + k, d);
  }
}
