/** Revision rows split into numbered linear chains, one for each root. */
module RevisionChains {
  import opened Options
  import opened Ordering
  import opened Governance
  import opened GovernanceInvariants
  import opened GovernanceSteps
  import opened GovernanceRuns
  import opened GovernanceHistory

  type Links = map<Id, Revision>

  // ---------------------------------------------------------------- the invariant

  ghost predicate UniqueLinks(revs: Links) {
    && (forall r <- revs, q <- revs :: revs[r].root == revs[q].root && revs[r].number == revs[q].number ==> r == q)
    && (forall r <- revs, q <- revs :: revs[r].predecessor == revs[q].predecessor ==> r == q)
    && (forall r <- revs, q <- revs :: revs[r].successor == revs[q].successor ==> r == q)
  }

  /** Row `q` comes right before row `r`. */
  predicate Follows(q: Revision, r: Revision) {
    q.root == r.root && q.number + 1 == r.number && q.successor == r.predecessor
  }

  ghost predicate HasNumber(revs: Links, root: Id, n: nat) {
    exists r <- revs :: revs[r].root == root && revs[r].number == n
  }

  ghost predicate HasPrevious(revs: Links, r: Revision) {
    exists q <- revs :: Follows(revs[q], r)
  }

  ghost predicate StartsAtRoot(r: Revision) {
    r.number >= 1 && (r.number == 1 <==> r.predecessor == r.root)
  }

  ghost predicate Chained(revs: Links) {
    && (forall r <- revs :: StartsAtRoot(revs[r]))
    && (forall r <- revs :: revs[r].number > 1 ==> HasPrevious(revs, revs[r]))
    && (forall r <- revs, q <- revs :: revs[r].root != revs[q].successor)
  }

  /** Every link rests on the lock of its predecessor and on a completed review of it. */
  ghost predicate Evidenced(db: Db) {
    forall r <- db.revisions :: Evidence(db, db.revisions[r])
  }

  ghost predicate Evidence(db: Db, r: Revision) {
    && r.sourceLock in db.locks && db.locks[r.sourceLock].decision == r.predecessor
    && r.review in db.reviews && db.reviews[r.review].decision == r.predecessor
    && db.reviews[r.review].status.Completed? && db.reviews[r.review].outcome == Some(r.outcome)
  }

  // ---------------------------------------------------------------- within one chain

  /** Below every number of a chain there is every smaller one. */
  lemma {:induction false} NumbersAreContiguous(revs: Links, r: Id, n: nat) returns (q: Id)
    requires Chained(revs) && r in revs && 1 <= n <= revs[r].number
    ensures q in revs && revs[q].root == revs[r].root && revs[q].number == n
    decreases revs[r].number
  {
    if n == revs[r].number {
      q := r;
    } else {
      var p :| p in revs && Follows(revs[p], revs[r]);
      q := NumbersAreContiguous(revs, p, n);
    }
  }

  /** The row after a row that is not the last of its chain starts where it ended. */
  lemma NextRowFollows(revs: Links, q: Id, r: Id)
    requires Chained(revs) && UniqueLinks(revs) && q in revs && r in revs
    requires revs[r].root == revs[q].root && revs[r].number == revs[q].number + 1
    ensures Follows(revs[q], revs[r])
  {
    var p :| p in revs && Follows(revs[p], revs[r]);
    assert p == q;
  }

  /** `get_revision_root` names the root from any member of a chain. */
  lemma RootOfSuccessor(revs: Links, r: Id)
    requires UniqueLinks(revs) && r in revs
    ensures RevisionRoot(revs, revs[r].successor) == revs[r].root
  {
    var d := revs[r].successor;
    var roots := set q <- revs | revs[q].successor == d :: revs[q].root;
    assert revs[r].root in roots;
  }

  lemma RootOfRoot(revs: Links, r: Id)
    requires Chained(revs) && r in revs
    ensures RevisionRoot(revs, revs[r].root) == revs[r].root
  {
    var d := revs[r].root;
    assert (set q <- revs | revs[q].successor == d :: revs[q].root) == {};
  }

  lemma RootOfPredecessor(revs: Links, r: Id)
    requires Chained(revs) && UniqueLinks(revs) && r in revs
    ensures RevisionRoot(revs, revs[r].predecessor) == revs[r].root
  {
    if revs[r].number == 1 {
      RootOfRoot(revs, r);
    } else {
      var q :| q in revs && Follows(revs[q], revs[r]);
      RootOfSuccessor(revs, q);
    }
  }

  lemma NumbersHold(revs: Links, root: Id, n: nat)
    ensures n in Numbers(revs, root) <==> HasNumber(revs, root, n)
  {
  }

  /** The next number is one more than a contiguous range from 1. */
  lemma NumbersAreOneToN(revs: Links, root: Id, n: nat)
    requires Chained(revs)
    ensures HasNumber(revs, root, n) <==> 1 <= n < NextNumber(revs, root)
  {
    var numbers := Numbers(revs, root);
    NumbersHold(revs, root, n);
    if numbers != {} {
      var top := Greatest(numbers);
      NumbersHold(revs, root, top);
      var r :| r in revs && revs[r].root == root && revs[r].number == top;
      if 1 <= n <= top {
        var q := NumbersAreContiguous(revs, r, n);
      }
    }
  }

  // ---------------------------------------------------------------- a link is added

  /** If `d` has no successor yet, it is the end of its chain. */
  lemma EndOfChain(revs: Links, d: Id, q: Id)
    requires Chained(revs) && UniqueLinks(revs) && q in revs && revs[q].successor == d
    requires forall r <- revs :: revs[r].predecessor != d
    ensures revs[q].root == RevisionRoot(revs, d) && revs[q].number + 1 == NextNumber(revs, revs[q].root)
  {
    RootOfSuccessor(revs, q);
    var root := revs[q].root;
    NumbersAreOneToN(revs, root, revs[q].number);
    NumbersAreOneToN(revs, root, revs[q].number + 1);
    assert HasNumber(revs, root, revs[q].number);
    if HasNumber(revs, root, revs[q].number + 1) {
      var r :| r in revs && revs[r].root == root && revs[r].number == revs[q].number + 1;
      NextRowFollows(revs, q, r);
    }
  }

  /** If `d` starts no chain and ends none, its chain is empty. */
  lemma FreshChain(revs: Links, d: Id)
    requires Chained(revs)
    requires forall r <- revs :: revs[r].predecessor != d && revs[r].successor != d
    ensures RevisionRoot(revs, d) == d && NextNumber(revs, d) == 1
  {
    assert (set q <- revs | revs[q].successor == d :: revs[q].root) == {};
    NumbersAreOneToN(revs, d, 1);
  }

  /** The row that `NewRevision` computes for a decision without a successor continues that decision's chain. */
  lemma NewRowContinues(revs: Links, id: Id, k: Revision)
    requires Chained(revs) && UniqueLinks(revs) && id !in revs
    requires forall r <- revs :: revs[r].predecessor != k.predecessor && revs[r].root != k.successor
    requires k.root == RevisionRoot(revs, k.predecessor) && k.number == NextNumber(revs, k.root)
    requires k.successor != k.predecessor
    ensures k.root != k.successor && (forall r <- revs :: k.root != revs[r].successor)
    ensures StartsAtRoot(k) && (k.number > 1 ==> HasPrevious(revs, k))
  {
    if q :| q in revs && revs[q].successor == k.predecessor {
      EndOfChain(revs, k.predecessor, q);
      assert Follows(revs[q], k);
    } else {
      FreshChain(revs, k.predecessor);
    }
  }

  lemma PreviousStays(revs: Links, id: Id, k: Revision, r: Revision)
    requires HasPrevious(revs, r) && id !in revs
    ensures HasPrevious(revs[id := k], r)
  {
    var q :| q in revs && Follows(revs[q], r);
    assert revs[id := k][q] == revs[q];
  }

  lemma LinkKeepsChained(revs: Links, id: Id, k: Revision)
    requires Chained(revs) && UniqueLinks(revs) && id !in revs
    requires forall r <- revs :: revs[r].predecessor != k.predecessor && revs[r].root != k.successor
    requires k.root == RevisionRoot(revs, k.predecessor) && k.number == NextNumber(revs, k.root)
    requires k.successor != k.predecessor
    ensures Chained(revs[id := k])
  {
    hide Governance.RevisionRoot, Governance.NextNumber, HasPrevious, StartsAtRoot, UniqueLinks;
    NewRowContinues(revs, id, k);
    var next := revs[id := k];
    forall r | r in next && next[r].number > 1 ensures HasPrevious(next, next[r]) {
      PreviousStays(revs, id, k, next[r]);
    }
  }

  // ---------------------------------------------------------------- every call

  ghost predicate ChainInv(db: Db) {
    Chained(db.revisions) && Evidenced(db)
  }

  lemma KeysAreUnique(db: Db)
    requires RevisionKeys(db.reviews, db.revisions)
    ensures UniqueLinks(db.revisions)
  {
  }

  lemma NewLinkKeepsChained(db: Db, next: Db, ids: NewIds)
    requires Chained(db.revisions) && UniqueLinks(db.revisions) && UniqueLinks(next.revisions)
    requires forall r <- db.revisions :: RevisionReferences(db, db.revisions[r])
    requires NewLink(db, next, ids)
    ensures Chained(next.revisions)
  {
    hide Governance.RevisionRoot, Governance.NextNumber, Governance.LockOf;
    var k := next.revisions[ids.revision];
    forall r | r in db.revisions ensures db.revisions[r].predecessor != k.predecessor && db.revisions[r].root != k.successor {
      assert next.revisions[r] == db.revisions[r];
    }
    LinkKeepsChained(db.revisions, ids.revision, k);
  }

  lemma EvidenceStays(db: Db, next: Db, r: Revision)
    requires Evidence(db, r) && KeepsDecisions(db, next)
    ensures Evidence(next, r)
  {
  }

  lemma NewLinkIsEvidenced(db: Db, next: Db, ids: NewIds)
    requires Evidenced(db) && KeepsDecisions(db, next) && NewLink(db, next, ids)
    ensures Evidenced(next)
  {
    hide Governance.RevisionRoot, Governance.NextNumber, Governance.LockOf;
    forall r | r in next.revisions ensures Evidence(next, next.revisions[r]) {
      if r in db.revisions {
        EvidenceStays(db, next, next.revisions[r]);
      }
    }
  }

  lemma FitsKeepsChains(cfg: Config, db: Db, next: Db, shape: Shape)
    requires ChainInv(db) && KeepsDecisions(db, next) && Fits(cfg, db, next, shape)
    requires UniqueLinks(db.revisions) && UniqueLinks(next.revisions)
    requires forall r <- db.revisions :: RevisionReferences(db, db.revisions[r])
    ensures ChainInv(next)
  {
    hide Chained, UniqueLinks, Evidence, GovernanceHistory.KeepsDecisions, GovernanceSteps.Justified,
         GovernanceSteps.NewLink;
    match shape
    case OfRevision(ids) =>
      NewLinkKeepsChained(db, next, ids);
      NewLinkIsEvidenced(db, next, ids);
    case _ =>
      assert next.revisions == db.revisions;
      forall r | r in next.revisions ensures Evidence(next, next.revisions[r]) {
        EvidenceStays(db, next, next.revisions[r]);
      }
  }

  lemma RevisionConstraints(cfg: Config, db: Db)
    requires Good(cfg, db)
    ensures UniqueLinks(db.revisions) && forall r <- db.revisions :: RevisionReferences(db, db.revisions[r])
  {
    hide GovernanceInvariants.Inv;
  }

  lemma StepKeepsChains(cfg: Config, db: Db, c: Call)
    requires Good(cfg, db) && ChainInv(db)
    ensures ChainInv(Next(cfg, db, c))
  {
    hide GovernanceRuns.Apply, GovernanceRuns.Fits, GovernanceRuns.Good, GovernanceRuns.Grounds, ChainInv,
         GovernanceHistory.KeepsDecisions, GovernanceHistory.KeepsSessions, UniqueLinks;
    if Apply(cfg, db, c).Ok? {
      var next := Next(cfg, db, c);
      GoodGrounds(cfg, db);
      CallFits(cfg, db, c, next);
      StepSettles(cfg, db, c);
      StepIsGood(cfg, db, c);
      RevisionConstraints(cfg, db);
      RevisionConstraints(cfg, next);
      FitsKeepsChains(cfg, db, next, ShapeOf(c.request));
    }
  }

  lemma {:induction false} RunKeepsChains(cfg: Config, db: Db, calls: seq<Call>)
    requires Good(cfg, db) && ChainInv(db)
    ensures ChainInv(RunFrom(cfg, db, calls))
    decreases |calls|
  {
    hide GovernanceRuns.Good, GovernanceRuns.Next, ChainInv;
    if calls != [] {
      StepIsGood(cfg, db, calls[0]);
      StepKeepsChains(cfg, db, calls[0]);
      RunKeepsChains(cfg, Next(cfg, db, calls[0]), calls[1..]);
    }
  }

  lemma EmptyIsChained()
    ensures ChainInv(EMPTY)
  {
  }

  /** In every reachable state the revisions are chained, linked one to one, and rest on locks and completed reviews. */
  lemma ReachableIsChained(cfg: Config, calls: seq<Call>)
    ensures ChainInv(Run(cfg, calls)) && UniqueLinks(Run(cfg, calls).revisions)
  {
    hide GovernanceRuns.RunFrom, GovernanceRuns.Good, ChainInv, UniqueLinks;
    ReachableIsGood(cfg, []);
    EmptyRun(cfg);
    EmptyIsChained();
    RunKeepsChains(cfg, EMPTY, calls);
    ReachableIsGood(cfg, calls);
    RevisionConstraints(cfg, Run(cfg, calls));
  }

  // ---------------------------------------------------------------- histories

  function RowsNumbered(revs: Links, root: Id, n: nat): set<Id> {
    set r <- revs | revs[r].root == root && revs[r].number == n
  }

  function Listed(revs: Links, root: Id, numbers: seq<nat>): (rows: seq<Id>)
  {
    if numbers == [] then []
    else
      var found := RowsNumbered(revs, root, numbers[0]);
      (if found == {} then [] else [Least(found)]) + Listed(revs, root, numbers[1..])
  }

  /** `list_revisions`: the rows of a decision's root by number. */
  function ListRevisions(revs: Links, d: Id): seq<Id> {
    var root := RevisionRoot(revs, d);
    Listed(revs, root, Ascending(Numbers(revs, root)))
  }

  /** `d` belongs to the chain of `root`. */
  predicate IsMember(revs: Links, root: Id, d: Id) {
    exists r <- revs :: revs[r].root == root && d in {root, revs[r].predecessor, revs[r].successor}
  }

  lemma {:induction false} OneToN(list: seq<nat>, from: nat, n: nat)
    requires from <= n && forall i, j :: 0 <= i < j < |list| ==> list[i] < list[j]
    requires forall k: nat :: k in list <==> from < k <= n
    ensures |list| == n - from && forall i :: 0 <= i < |list| ==> list[i] == from + 1 + i
    decreases |list|
  {
    if list == [] {
      assert from < n ==> n in list;
    } else {
      assert list[0] in list;
      assert from + 1 in list;
      var i :| 0 <= i < |list| && list[i] == from + 1;
      assert i == 0;
      forall k: nat ensures k in list[1..] <==> from + 1 < k <= n {
        if k in list[1..] {
          var j :| 1 <= j < |list| && list[j] == k;
          assert k in list;
        }
        if from + 1 < k <= n {
          assert k in list;
        }
      }
      OneToN(list[1..], from + 1, n);
    }
  }

  lemma {:induction false} ListedRows(revs: Links, root: Id, numbers: seq<nat>)
    requires forall n <- numbers :: HasNumber(revs, root, n)
    ensures var rows := Listed(revs, root, numbers);
      && |rows| == |numbers|
      && forall i :: 0 <= i < |rows| ==> rows[i] in revs && revs[rows[i]].root == root && revs[rows[i]].number == numbers[i]
  {
    if numbers != [] {
      var found := RowsNumbered(revs, root, numbers[0]);
      assert HasNumber(revs, root, numbers[0]);
      var r :| r in revs && revs[r].root == root && revs[r].number == numbers[0];
      assert r in found;
      ListedRows(revs, root, numbers[1..]);
    }
  }

  /**
    From any member of a chain, the root is the same and the history is the whole chain: rows numbered 1, 2, ..., n,
    the first starting at the root and each later one where the one before it ended.
   */
  lemma HistoryIsTheChain(revs: Links, root: Id, d: Id)
    requires Chained(revs) && UniqueLinks(revs) && IsMember(revs, root, d)
    ensures RevisionRoot(revs, d) == root
    ensures var rows := ListRevisions(revs, d);
      && (forall r :: r in rows <==> r in revs && revs[r].root == root)
      && |rows| == NextNumber(revs, root) - 1 >= 1
      && (forall i :: 0 <= i < |rows| ==> rows[i] in revs && revs[rows[i]].number == i + 1)
      && revs[rows[0]].predecessor == root
      && (forall i :: 0 < i < |rows| ==> revs[rows[i]].predecessor == revs[rows[i - 1]].successor)
  {
    hide Governance.RevisionRoot, Governance.NextNumber, Governance.Numbers;
    MembersShareRoot(revs, root, d);
    HistoryOfRoot(revs, root);
    var rows := ListRevisions(revs, d);
    var m :| m in revs && revs[m].root == root;
    forall r | r in revs && revs[r].root == root ensures r in rows {
      NumbersAreOneToN(revs, root, revs[r].number);
      assert HasNumber(revs, root, revs[r].number);
      assert rows[revs[r].number - 1] == r;
    }
    assert m in rows;
    forall i | 0 < i < |rows| ensures revs[rows[i]].predecessor == revs[rows[i - 1]].successor {
      NextRowFollows(revs, rows[i - 1], rows[i]);
    }
    assert StartsAtRoot(revs[rows[0]]);
  }

  lemma MembersShareRoot(revs: Links, root: Id, d: Id)
    requires Chained(revs) && UniqueLinks(revs) && IsMember(revs, root, d)
    ensures RevisionRoot(revs, d) == root
  {
    hide Governance.RevisionRoot;
    var r :| r in revs && revs[r].root == root && d in {root, revs[r].predecessor, revs[r].successor};
    RootOfRoot(revs, r);
    RootOfPredecessor(revs, r);
    RootOfSuccessor(revs, r);
  }

  lemma RootHasNext(revs: Links, root: Id)
    ensures NextNumber(revs, root) >= 1
  {
  }

  lemma HistoryOfRoot(revs: Links, root: Id)
    requires Chained(revs)
    ensures var rows := Listed(revs, root, Ascending(Numbers(revs, root)));
      && |rows| == NextNumber(revs, root) - 1
      && forall i :: 0 <= i < |rows| ==> rows[i] in revs && revs[rows[i]].root == root && revs[rows[i]].number == i + 1
  {
    hide Governance.NextNumber, Governance.Numbers, HasNumber, Chained, Listed;
    var numbers := Ascending(Numbers(revs, root));
    RootHasNext(revs, root);
    forall n: nat ensures n in numbers <==> 0 < n <= NextNumber(revs, root) - 1 {
      NumbersHold(revs, root, n);
      NumbersAreOneToN(revs, root, n);
    }
    OneToN(numbers, 0, NextNumber(revs, root) - 1);
    forall n | n in numbers ensures HasNumber(revs, root, n) {
      NumbersHold(revs, root, n);
    }
    ListedRows(revs, root, numbers);
  }

  // ---------------------------------------------------------------- walking back

  /** The decision that `d` revised, if it is a revision. */
  function PredecessorOf(revs: Links, d: Id): Option<Id> {
    var found := set r <- revs | revs[r].successor == d;
    if found == {} then None else Some(revs[Least(found)].predecessor)
  }

  /** The decision reached from `d` by `n` steps to the predecessor. */
  function WalkBack(revs: Links, d: Id, n: nat): Option<Id>
    decreases n
  {
    if n == 0 then Some(d)
    else match PredecessorOf(revs, d)
      case None => None
      case Some(p) => WalkBack(revs, p, n - 1)
  }

  lemma PredecessorIsLinked(revs: Links, r: Id)
    requires UniqueLinks(revs) && r in revs
    ensures PredecessorOf(revs, revs[r].successor) == Some(revs[r].predecessor)
  {
    var found := set q <- revs | revs[q].successor == revs[r].successor;
    assert r in found;
    assert Least(found) == r;
  }

  /** Walking back from revision k reaches the root in exactly k steps, and nothing before it is the root. */
  lemma {:induction false} WalkReachesRoot(revs: Links, r: Id, n: nat)
    requires Chained(revs) && UniqueLinks(revs) && r in revs && n <= revs[r].number
    ensures WalkBack(revs, revs[r].successor, n).Some?
    ensures WalkBack(revs, revs[r].successor, n) == Some(revs[r].root) <==> n == revs[r].number
    decreases n
  {
    hide PredecessorOf, Chained, UniqueLinks;
    PredecessorIsLinked(revs, r);
    var q := PreviousRow(revs, r);
    if n > 0 && revs[r].number > 1 {
      WalkReachesRoot(revs, q, n - 1);
    }
  }

  /** The row before `r`, or `r` itself when it is the first. */
  lemma PreviousRow(revs: Links, r: Id) returns (q: Id)
    requires Chained(revs) && r in revs
    ensures q in revs && revs[r].number >= 1 && revs[r].root != revs[r].successor
    ensures if revs[r].number == 1 then revs[r].predecessor == revs[r].root else Follows(revs[q], revs[r])
  {
    assert StartsAtRoot(revs[r]);
    q := r;
    if revs[r].number > 1 {
      var p :| p in revs && Follows(revs[p], revs[r]);
      q := p;
    }
  }

  // ---------------------------------------------------------------- main results

  /**
    In every reachable state: from any member of any chain `get_revision_root` names its root, and `list_revisions`
    lists the chain from the root, numbered 1 to n, without gap or branch; each link rests on the lock of its
    predecessor and on a completed review of it.
   */
  lemma RevisionsAreChains(cfg: Config, calls: seq<Call>, root: Id, d: Id)
    requires IsMember(Run(cfg, calls).revisions, root, d)
    ensures var revs := Run(cfg, calls).revisions;
      && RevisionRoot(revs, d) == root
      && (var rows := ListRevisions(revs, d);
          && (forall r :: r in rows <==> r in revs && revs[r].root == root)
          && |rows| >= 1
          && (forall i :: 0 <= i < |rows| ==> rows[i] in revs && revs[rows[i]].number == i + 1)
          && revs[rows[0]].predecessor == root
          && (forall i :: 0 < i < |rows| ==> revs[rows[i]].predecessor == revs[rows[i - 1]].successor)
          && (forall i :: 0 <= i < |rows| ==> Evidence(Run(cfg, calls), revs[rows[i]])))
  {
    hide GovernanceRuns.Run, Chained, UniqueLinks, Evidence, IsMember, ListRevisions, Governance.RevisionRoot,
         Governance.NextNumber;
    ReachableIsChained(cfg, calls);
    HistoryIsTheChain(Run(cfg, calls).revisions, root, d);
  }

  /** Walking predecessors from the successor of revision k reaches the root in exactly k steps. */
  lemma RevisionsWalkToTheRoot(cfg: Config, calls: seq<Call>, r: Id, n: nat)
    requires r in Run(cfg, calls).revisions && n <= Run(cfg, calls).revisions[r].number
    ensures var revs := Run(cfg, calls).revisions;
      && WalkBack(revs, revs[r].successor, n).Some?
      && (WalkBack(revs, revs[r].successor, n) == Some(revs[r].root) <==> n == revs[r].number)
  {
    hide GovernanceRuns.Run, Chained, UniqueLinks, Evidenced, WalkBack;
    ReachableIsChained(cfg, calls);
    WalkReachesRoot(Run(cfg, calls).revisions, r, n);
  }
}
