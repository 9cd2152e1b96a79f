/** `ORDER BY created_at DESC, id DESC` and `ORDER BY id`, as functions of a set of rows. */
module Ordering {

  /** The sort key of a row. */
  datatype Stamp = Stamp(at: nat, id: nat)

  /** `a` sorts after `b` when newest rows come first. */
  predicate Older(a: Stamp, b: Stamp) {
    a.at < b.at || (a.at == b.at && a.id < b.id)
  }

  ghost predicate StrictlyDescending(list: seq<Stamp>) {
    forall i, j :: 0 <= i < j < |list| ==> Older(list[j], list[i])
  }

  ghost predicate Lists<T(!new)>(list: seq<T>, rows: set<T>) {
    && (forall x :: x in list <==> x in rows)
    && |list| == |rows|
  }

  predicate IsNewest(x: Stamp, rows: set<Stamp>) {
    x in rows && forall y <- rows :: y == x || Older(y, x)
  }

  lemma {:induction false} NewestExists(rows: set<Stamp>)
    requires rows != {}
    ensures exists x :: IsNewest(x, rows)
  {
    var first :| first in rows;
    var others := rows - {first};
    assert rows == others + {first};
    if others == {} {
      assert IsNewest(first, rows);
    } else {
      NewestExists(others);
      var best :| IsNewest(best, others);
      assert IsNewest(if Older(best, first) then first else best, rows);
    }
  }

  function Newest(rows: set<Stamp>): (x: Stamp)
    requires rows != {}
    ensures IsNewest(x, rows)
  {
    NewestExists(rows);
    var x :| IsNewest(x, rows);
    x
  }

  /** Putting `x` in front of a list of the other rows lists them all. */
  lemma ConsLists<T(!new)>(x: T, rest: seq<T>, rows: set<T>)
    requires x in rows && Lists(rest, rows - {x})
    ensures Lists([x] + rest, rows)
  {
    forall y ensures y in [x] + rest <==> y in rows {
      if y != x {
        assert y in rest <==> y in rows - {x};
      }
    }
  }

  /** The rows, newest first. */
  function Descending(rows: set<Stamp>): (list: seq<Stamp>)
    ensures Lists(list, rows)
    ensures StrictlyDescending(list)
  {
    if rows == {} then []
    else
      var x := Newest(rows);
      var rest := Descending(rows - {x});
      ConsLists(x, rest, rows);
      [x] + rest
  }

  /** The head of a strictly descending list is the newest row, and the tail lists the others. */
  lemma HeadIsNewest(list: seq<Stamp>, rows: set<Stamp>)
    requires Lists(list, rows) && StrictlyDescending(list) && rows != {}
    ensures list != [] && list[0] == Newest(rows)
    ensures Lists(list[1..], rows - {list[0]}) && StrictlyDescending(list[1..])
  {
    var x := Newest(rows);
    assert list[0] in list && x in list;
    var i :| 0 <= i < |list| && list[i] == x;
    assert i > 0 ==> Older(list[i], list[0]);
    forall y ensures y in list[1..] <==> y in rows - {list[0]} {
      if y in list[1..] {
        var k :| 1 <= k < |list| && list[k] == y;
        assert Older(list[k], list[0]) && y in list;
      }
      if y in rows - {list[0]} {
        assert y in list;
      }
    }
  }

  /** A strictly descending list of a set is the only one there is. */
  lemma {:induction false} DescendingIsUnique(list: seq<Stamp>, rows: set<Stamp>)
    requires Lists(list, rows) && StrictlyDescending(list)
    ensures list == Descending(rows)
    decreases |list|
  {
    if rows == {} {
      assert list == [];
    } else {
      HeadIsNewest(list, rows);
      DescendingIsUnique(list[1..], rows - {list[0]});
      assert list == [list[0]] + list[1..];
    }
  }

  predicate IsLeast(x: nat, ids: set<nat>) {
    x in ids && forall y <- ids :: x <= y
  }

  lemma {:induction false} LeastExists(ids: set<nat>)
    requires ids != {}
    ensures exists x :: IsLeast(x, ids)
  {
    var first :| first in ids;
    var others := ids - {first};
    assert ids == others + {first};
    if others == {} {
      assert IsLeast(first, ids);
    } else {
      LeastExists(others);
      var best :| IsLeast(best, others);
      assert IsLeast(if first < best then first else best, ids);
    }
  }

  function Least(ids: set<nat>): (x: nat)
    requires ids != {}
    ensures IsLeast(x, ids)
  {
    LeastExists(ids);
    var x :| IsLeast(x, ids);
    x
  }

  predicate IsGreatest(x: nat, ids: set<nat>) {
    x in ids && forall y <- ids :: y <= x
  }

  lemma {:induction false} GreatestExists(ids: set<nat>)
    requires ids != {}
    ensures exists x :: IsGreatest(x, ids)
  {
    var first :| first in ids;
    var others := ids - {first};
    assert ids == others + {first};
    if others == {} {
      assert IsGreatest(first, ids);
    } else {
      GreatestExists(others);
      var best :| IsGreatest(best, others);
      assert IsGreatest(if best < first then first else best, ids);
    }
  }

  function Greatest(ids: set<nat>): (x: nat)
    requires ids != {}
    ensures IsGreatest(x, ids)
  {
    GreatestExists(ids);
    var x :| IsGreatest(x, ids);
    x
  }

  /** The identifiers in increasing order. */
  function Ascending(ids: set<nat>): (list: seq<nat>)
    ensures Lists(list, ids)
    ensures forall i, j :: 0 <= i < j < |list| ==> list[i] < list[j]
  {
    if ids == {} then []
    else
      var x := Least(ids);
      var rest := Ascending(ids - {x});
      ConsLists(x, rest, ids);
      [x] + rest
  }
}
