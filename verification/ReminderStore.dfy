/** The notification repository and the discovery service, changing the table in place. */
module ReminderStore {
  import opened Options
  import opened Reminders

  /** Creating candidates one after the other; `ids` supplies a new identifier for each. */
  function Discovered(notes: Notes, candidates: seq<Candidate>, ids: seq<Id>, max: nat, now: Time): (r: (Notes, seq<Id>))
    requires |ids| == |candidates|
    decreases |candidates|
  {
    if candidates == [] then (notes, [])
    else
      var front := Discovered(notes, candidates[..|candidates| - 1], ids[..|candidates| - 1], max, now);
      var c, id := candidates[|candidates| - 1], ids[|candidates| - 1];
      if Creates(front.0, c, id, max) then (front.0[id := NewNote(c, max, now)], front.1 + [id]) else front
  }

  class Store {
    var notes: Notes
    var published: seq<Id>  // what was handed to the broker

    constructor ()
      ensures notes == map[] && published == []
    {
      notes, published := map[], [];
    }

    /** The commit of a changed row, or the integrity error of a CHECK. */
    method Commit(id: Id, row: Note) returns (committed: bool)
      modifies this`notes
      ensures committed == Checks(row) && notes == Save(old(notes), id, row)
    {
      if Checks(row) {
        notes := notes[id := row];
        return true;
      }
      return false;
    }

    method CreateCandidate(c: Candidate, id: Id, max: nat, now: Time) returns (created: bool)
      modifies this`notes
      ensures created == Creates(old(notes), c, id, max)
      ensures notes == if created then old(notes)[id := NewNote(c, max, now)] else old(notes)
      ensures created <==> id !in old(notes) && max >= 1 && forall i <- old(notes) :: old(notes)[i].key != c.key
      ensures created ==> id in notes && notes[id] == Note(c.key, c.recipient, Pending, 0, max, now, None, None, None)
    {
      if (exists i <- notes :: notes[i].key == c.key) || id in notes || max < 1 { return false; }
      notes := notes[id := Note(c.key, c.recipient, Pending, 0, max, now, None, None, None)];
      return true;
    }

    method ClaimForDelivery(id: Id, now: Time) returns (claimed: bool)
      requires id in notes ==> Checks(notes[id])
      modifies this`notes
      ensures claimed <==> id in old(notes) && IsReady(old(notes)[id], now)
      ensures notes == if claimed then old(notes)[id := Claimed(old(notes)[id], now)] else old(notes)
      ensures claimed <==> && id in old(notes) && old(notes)[id].status in {Pending, RetryScheduled}
                           && old(notes)[id].availableAt <= now && old(notes)[id].attempts < old(notes)[id].max
      ensures claimed ==> && id in notes && notes[id].status.Delivering? && notes[id].startedAt == Some(now)
                          && notes[id].attempts == old(notes)[id].attempts + 1 && SameReminder(old(notes)[id], notes[id])
    {
      if id !in notes { return false; }
      var row := notes[id];
      if !(row.status.Pending? || row.status.RetryScheduled?) || row.availableAt > now || row.attempts >= row.max { return false; }
      row := row.(status := Delivering);
      row := row.(attempts := row.attempts + 1);
      row := row.(startedAt := Some(now));
      claimed := Commit(id, row);
    }

    method MarkDelivered(id: Id, now: Time) returns (committed: bool)
      requires id in notes
      modifies this`notes
      ensures committed == Checks(Reminders.MarkedDelivered(old(notes)[id], now))
      ensures notes == Save(old(notes), id, Reminders.MarkedDelivered(old(notes)[id], now))
      ensures committed ==> && notes[id].status.Delivered? && notes[id].deliveredAt == Some(now) && notes[id].startedAt.None?
                            && notes[id].attempts == old(notes)[id].attempts && SameReminder(old(notes)[id], notes[id])
    {
      var row := notes[id].(status := Delivered);
      row := row.(deliveredAt := Some(now), startedAt := None);
      committed := Commit(id, row);
    }

    method MarkFailed(id: Id, now: Time) returns (committed: bool)
      requires id in notes
      modifies this`notes
      ensures committed == Checks(MarkedFailed(old(notes)[id], now))
      ensures notes == Save(old(notes), id, MarkedFailed(old(notes)[id], now))
      ensures committed ==> && notes[id].status.Failed? && notes[id].failedAt == Some(now) && notes[id].startedAt.None?
                            && notes[id].attempts == old(notes)[id].attempts && SameReminder(old(notes)[id], notes[id])
    {
      var row := notes[id].(status := Failed);
      row := row.(failedAt := Some(now), startedAt := None);
      committed := Commit(id, row);
    }

    method ScheduleRetry(id: Id, availableAt: Time) returns (committed: bool)
      requires id in notes
      modifies this`notes
      ensures committed == Checks(Rescheduled(old(notes)[id], availableAt))
      ensures notes == Save(old(notes), id, Rescheduled(old(notes)[id], availableAt))
      ensures committed ==> && notes[id].status.RetryScheduled? && notes[id].startedAt.None?
                            && notes[id].attempts == old(notes)[id].attempts
                            && notes[id].availableAt == availableAt
                            && notes[id].key == old(notes)[id].key && notes[id].recipient == old(notes)[id].recipient
    {
      var row := notes[id].(status := RetryScheduled);
      row := row.(availableAt := availableAt, startedAt := None);
      committed := Commit(id, row);
    }

    /** `_record_retry`: says whether the worker should try again, or that the commit was rejected. */
    method RecordRetry(id: Id, availableAt: Time, now: Time) returns (retry: Attempt<bool, ()>)
      modifies this`notes
      ensures notes == if id in old(notes) then Save(old(notes), id, Retried(old(notes)[id], availableAt, now)) else old(notes)
      ensures retry ==
        if id !in old(notes) then Ok(false)
        else if Checks(Retried(old(notes)[id], availableAt, now)) then Ok(old(notes)[id].attempts < old(notes)[id].max)
        else Refused(())
    {
      if id !in notes { return Ok(false); }
      var spent := notes[id].attempts >= notes[id].max;
      var committed;
      if spent {
        committed := MarkFailed(id, now);
      } else {
        committed := ScheduleRetry(id, availableAt);
      }
      return if committed then Ok(!spent) else Refused(());
    }

    /** `recover_stale_deliveries`: gives every expired lease with attempts left back and returns which rows they were. */
    method RecoverLeases(staleBefore: Time, availableAt: Time) returns (stale: set<Id>)
      modifies this`notes
      ensures notes == Recovered(old(notes), staleBefore, availableAt) && stale == StaleNotes(old(notes), staleBefore)
      ensures forall i :: i in stale <==>
                && i in old(notes) && old(notes)[i].status.Delivering? && old(notes)[i].attempts < old(notes)[i].max
                && old(notes)[i].startedAt.Some? && old(notes)[i].startedAt.value < staleBefore
      ensures forall i <- notes :: notes[i] ==
                if i in stale then old(notes)[i].(status := RetryScheduled, availableAt := availableAt, startedAt := None)
                else old(notes)[i]
    {
      stale := StaleNotes(notes, staleBefore);
      notes := map i <- notes :: if i in stale then notes[i].(status := RetryScheduled, availableAt := availableAt, startedAt := None)
                                 else notes[i];
    }

    /** Recovers every expired lease and publishes it again. */
    method RecoverStale(staleBefore: Time, availableAt: Time) returns (count: nat)
      modifies this
      ensures notes == Recovered(old(notes), staleBefore, availableAt)
      ensures count == |StaleNotes(old(notes), staleBefore)|
      ensures |published| == |old(published)| + count && old(published) <= published
      ensures ListsOnce(published[|old(published)|..], StaleNotes(old(notes), staleBefore))
    {
      hide Reminders.Recovered, StaleNotes;
      var stale := RecoverLeases(staleBefore, availableAt);
      var left := stale;
      var recovered: seq<Id> := [];
      while left != {}
        invariant left <= stale && notes == Recovered(old(notes), staleBefore, availableAt)
        invariant published == old(published) + recovered && |recovered| + |left| == |stale|
        invariant ListsOnce(recovered, stale - left)
        decreases left
      {
        var id :| id in left;
        ListsOneMore(recovered, stale - left, id);
        assert stale - (left - {id}) == (stale - left) + {id};
        recovered := recovered + [id];
        published := published + [id];
        left := left - {id};
      }
      assert stale - left == stale;
      assert published[|old(published)|..] == recovered;
      return |stale|;
    }

    /** The inner loop of `discover`: the candidates of one loader. */
    method Scan(candidates: seq<Candidate>, ids: seq<Id>, max: nat, now: Time) returns (created: nat)
      requires |ids| == |candidates|
      modifies this
      ensures var r := Discovered(old(notes), candidates, ids, max, now);
        notes == r.0 && published == old(published) + r.1 && created == |r.1|
    {
      created := 0;
      var k := 0;
      while k < |candidates|
        invariant 0 <= k <= |candidates|
        invariant var r := Discovered(old(notes), candidates[..k], ids[..k], max, now);
          notes == r.0 && published == old(published) + r.1 && created == |r.1|
      {
        assert candidates[..k + 1][..k] == candidates[..k] && ids[..k + 1][..k] == ids[..k];
        var isNew := CreateCandidate(candidates[k], ids[k], max, now);
        if isNew {
          published := published + [ids[k]];
          created := created + 1;
        }
        k := k + 1;
      }
      assert candidates[..k] == candidates && ids[..k] == ids;
    }

    /** The nested loops of `discover`: every loader in turn, every candidate that it returned. */
    method Discover(loads: seq<seq<Candidate>>, ids: seq<seq<Id>>, max: nat, now: Time) returns (created: nat)
      requires |ids| == |loads| && forall l :: 0 <= l < |loads| ==> |ids[l]| == |loads[l]|
      modifies this
      ensures SameSizes(loads, ids)
      ensures var r := Discovered(old(notes), Flat(loads), Flat(ids), max, now);
        notes == r.0 && published == old(published) + r.1 && created == |r.1|
    {
      created := 0;
      var l := 0;
      while l < |loads|
        invariant 0 <= l <= |loads| && SameSizes(loads[..l], ids[..l])
        invariant var r := Discovered(old(notes), Flat(loads[..l]), Flat(ids[..l]), max, now);
          notes == r.0 && published == old(published) + r.1 && created == |r.1|
      {
        ghost var a, b := Flat(loads[..l]), Flat(ids[..l]);
        DiscoveredAppends(old(notes), a, loads[l], b, ids[l], max, now);
        FlatNext(loads, l);
        FlatNext(ids, l);
        var more := Scan(loads[l], ids[l], max, now);
        created := created + more;
        l := l + 1;
      }
      assert loads[..l] == loads && ids[..l] == ids;
    }
  }

  /** The same reminder, whatever became of its delivery. */
  predicate SameReminder(a: Note, b: Note) {
    b.key == a.key && b.recipient == a.recipient && b.max == a.max && b.availableAt == a.availableAt
  }

  ghost predicate SameSizes(loads: seq<seq<Candidate>>, ids: seq<seq<Id>>) {
    |Flat(loads)| == |Flat(ids)|
  }

  /** Scanning one list and then another is scanning both. */
  lemma {:induction false} DiscoveredAppends(notes: Notes, a: seq<Candidate>, b: seq<Candidate>, i: seq<Id>, j: seq<Id>, max: nat, now: Time)
    requires |i| == |a| && |j| == |b|
    ensures var first := Discovered(notes, a, i, max, now); var second := Discovered(first.0, b, j, max, now);
      Discovered(notes, a + b, i + j, max, now) == (second.0, first.1 + second.1)
    decreases |b|
  {
    var first := Discovered(notes, a, i, max, now);
    if b == [] {
      assert a + b == a && i + j == i && first.1 + [] == first.1;
    } else {
      hide Discovered, Reminders.Creates;
      var k, n := |b| - 1, |a + b| - 1;
      DiscoveredAppends(notes, a, b[..k], i, j[..k], max, now);
      var rest := Discovered(first.0, b[..k], j[..k], max, now);
      assert (a + b)[..n] == a + b[..k] && (i + j)[..n] == i + j[..k];
      assert (a + b)[n] == b[k] && (i + j)[n] == j[k];
      assert (first.1 + rest.1) + [j[k]] == first.1 + (rest.1 + [j[k]]);
      LastDiscovered(first.0, b, j, max, now);
      LastDiscovered(notes, a + b, i + j, max, now);
    }
  }

  lemma LastDiscovered(notes: Notes, candidates: seq<Candidate>, ids: seq<Id>, max: nat, now: Time)
    requires |ids| == |candidates| > 0
    ensures var k := |candidates| - 1; var front := Discovered(notes, candidates[..k], ids[..k], max, now);
      Discovered(notes, candidates, ids, max, now) ==
        if Creates(front.0, candidates[k], ids[k], max)
        then (front.0[ids[k] := NewNote(candidates[k], max, now)], front.1 + [ids[k]]) else front
  {
  }

  /** The list names exactly the set, each element once. */
  ghost predicate ListsOnce(list: seq<Id>, elements: set<Id>) {
    (forall x :: x in list <==> x in elements) && forall i, j :: 0 <= i < j < |list| ==> list[i] != list[j]
  }

  lemma ListsOneMore(list: seq<Id>, elements: set<Id>, x: Id)
    requires ListsOnce(list, elements) && x !in elements
    ensures ListsOnce(list + [x], elements + {x})
  {
    assert forall i :: 0 <= i < |list| ==> list[i] in list;
  }

  function StaleNotes(notes: Notes, staleBefore: Time): set<Id> {
    set i <- notes | IsStale(notes[i], staleBefore)
  }

  function Flat<T>(lists: seq<seq<T>>): seq<T>
    decreases |lists|
  {
    if lists == [] then [] else Flat(lists[..|lists| - 1]) + lists[|lists| - 1]
  }

  lemma FlatNext<T>(lists: seq<seq<T>>, l: nat)
    requires l < |lists|
    ensures Flat(lists[..l + 1]) == Flat(lists[..l]) + lists[l]
  {
    assert lists[..l + 1][..l] == lists[..l];
  }

  // ---------------------------------------------------------------- repeated scans

  lemma {:induction false} DiscoveryHoldsKeys(notes: Notes, candidates: seq<Candidate>, ids: seq<Id>, max: nat, now: Time)
    requires |ids| == |candidates| && UniqueKeys(notes)
    ensures var r := Discovered(notes, candidates, ids, max, now);
      && UniqueKeys(r.0) && (forall i <- notes :: i in r.0 && r.0[i] == notes[i])
      && (forall i <- r.1 :: i in r.0 && i !in notes)
      && (forall i, j :: 0 <= i < j < |r.1| ==> r.1[i] != r.1[j])
    decreases |candidates|
  {
    if candidates != [] {
      DiscoveryHoldsKeys(notes, candidates[..|candidates| - 1], ids[..|candidates| - 1], max, now);
    }
  }

  lemma {:induction false} ScannedKeysExist(notes: Notes, candidates: seq<Candidate>, ids: seq<Id>, max: nat, now: Time)
    requires |ids| == |candidates| && UniqueKeys(notes) && max >= 1 && Fits(notes, ids)
    ensures forall c <- candidates :: HasKey(Discovered(notes, candidates, ids, max, now).0, c.key)
    decreases |candidates|
  {
    if candidates != [] {
      var k := |candidates| - 1;
      DiscoveryHoldsKeys(notes, candidates[..k], ids[..k], max, now);
      ScannedKeysExist(notes, candidates[..k], ids[..k], max, now);
      var front := Discovered(notes, candidates[..k], ids[..k], max, now).0;
      var last := Discovered(notes, candidates, ids, max, now).0;
      NewIdsAreFree(notes, candidates, ids, max, now, k);
      forall c | c in candidates ensures HasKey(last, c.key) {
        var j :| 0 <= j < |candidates| && candidates[j] == c;
        if j < k {
          assert candidates[..k][j] == c;
        }
        if HasKey(front, c.key) {
          var i :| i in front && front[i].key == c.key;
          assert i in last && last[i] == front[i];
        } else {
          assert last[ids[k]].key == c.key;
        }
      }
    }
  }

  /** Which candidate row `id` was created for, in a scan that published it. */
  lemma {:induction false} ScannedRows(notes: Notes, candidates: seq<Candidate>, ids: seq<Id>, max: nat, now: Time, id: Id)
    returns (k: nat)
    requires |ids| == |candidates| && id in Discovered(notes, candidates, ids, max, now).1
    ensures k < |candidates| && ids[k] == id && id !in notes && id in Discovered(notes, candidates, ids, max, now).0
    ensures Discovered(notes, candidates, ids, max, now).0[id]
         == Note(candidates[k].key, candidates[k].recipient, Pending, 0, max, now, None, None, None)
    decreases |candidates|
  {
    var n := |candidates| - 1;
    var front := Discovered(notes, candidates[..n], ids[..n], max, now);
    if id in front.1 {
      k := ScannedRows(notes, candidates[..n], ids[..n], max, now, id);
    } else {
      k := n;
      RowsAreKept(notes, candidates[..n], ids[..n], max, now);
    }
  }

  lemma {:induction false} RowsAreKept(notes: Notes, candidates: seq<Candidate>, ids: seq<Id>, max: nat, now: Time)
    requires |ids| == |candidates|
    ensures forall i <- notes :: i in Discovered(notes, candidates, ids, max, now).0
    decreases |candidates|
  {
    if candidates != [] {
      RowsAreKept(notes, candidates[..|candidates| - 1], ids[..|candidates| - 1], max, now);
    }
  }

  /** New identifiers clash neither with rows nor with each other. */
  ghost predicate Fits(notes: Notes, ids: seq<Id>) {
    (forall i <- ids :: i !in notes) && forall i, j :: 0 <= i < j < |ids| ==> ids[i] != ids[j]
  }

  lemma {:induction false} NewIdsAreFree(notes: Notes, candidates: seq<Candidate>, ids: seq<Id>, max: nat, now: Time, k: nat)
    requires |ids| == |candidates| && k < |ids| && Fits(notes, ids)
    ensures ids[k] !in Discovered(notes, candidates[..k], ids[..k], max, now).0
  {
    OnlyNewIds(notes, candidates[..k], ids[..k], max, now);
    assert ids[k] !in ids[..k];
    assert ids[k] in ids;
  }

  lemma {:induction false} OnlyNewIds(notes: Notes, candidates: seq<Candidate>, ids: seq<Id>, max: nat, now: Time)
    requires |ids| == |candidates|
    ensures forall i <- Discovered(notes, candidates, ids, max, now).0 :: i in notes || i in ids
    decreases |candidates|
  {
    if candidates != [] {
      OnlyNewIds(notes, candidates[..|candidates| - 1], ids[..|candidates| - 1], max, now);
    }
  }

  lemma {:induction false} KnownKeysAddNothing(notes: Notes, candidates: seq<Candidate>, ids: seq<Id>, max: nat, now: Time)
    requires |ids| == |candidates| && forall c <- candidates :: HasKey(notes, c.key)
    ensures Discovered(notes, candidates, ids, max, now) == (notes, [])
    decreases |candidates|
  {
    if candidates != [] {
      var k := |candidates| - 1;
      assert forall c <- candidates[..k] :: c in candidates;
      KnownKeysAddNothing(notes, candidates[..k], ids[..k], max, now);
      assert candidates[k] in candidates;
    }
  }

  /** Scanning the same candidates a second time, with other identifiers and at another time, adds and publishes nothing. */
  lemma SecondScanAddsNothing(notes: Notes, candidates: seq<Candidate>, ids: seq<Id>, again: seq<Id>, max: nat, now: Time, later: Time)
    requires |ids| == |again| == |candidates| && UniqueKeys(notes) && max >= 1 && Fits(notes, ids)
    ensures var first := Discovered(notes, candidates, ids, max, now).0;
      Discovered(first, candidates, again, max, later) == (first, [])
  {
    ScannedKeysExist(notes, candidates, ids, max, now);
    KnownKeysAddNothing(Discovered(notes, candidates, ids, max, now).0, candidates, again, max, later);
  }
}
