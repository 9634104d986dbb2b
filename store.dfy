/**
 * A table of the database as the repositories see it: rows by primary key.
 * `findAll` has no ORDER BY in the source; the model fixes the order the
 * database returns rows in as ascending primary key.
 */
module Store {
  import opened Maybe

  /** Some element of a non-empty set. */
  lemma Element<T>(s: set<T>) returns (x: T)
    requires s != {}
    ensures x in s
  {
    if forall y :: y !in s {
      assert false;
    }
    x :| x in s;
  }

  /** A non-empty set has an element. */
  lemma ElementExists<T>(s: set<T>)
    requires s != {}
    ensures exists x :: x in s
  {
    var x := Element(s);
  }

  /** The element a specification picks from a non-empty set. */
  ghost function Pick<T>(s: set<T>): (x: T)
    requires s != {}
    ensures x in s
  {
    ElementExists(s);
    var x :| x in s;
    x
  }

  /** Every finite non-empty set of keys has a least element. */
  lemma {:induction false} LeastExists(ids: set<int>)
    requires ids != {}
    ensures exists m :: m in ids && forall k :: k in ids ==> m <= k
    decreases ids
  {
    var x := Element(ids);
    var rest := ids - {x};
    if rest != {} {
      LeastExists(rest);
      var m :| m in rest && forall k :: k in rest ==> m <= k;
      var least := if x < m then x else m;
      forall k | k in ids
        ensures least <= k
      {
        if k != x {
          assert k in rest;
        }
      }
      assert least in ids;
    } else {
      assert ids == {x};
    }
  }

  /** The least key. */
  function Least(ids: set<int>): (m: int)
    requires ids != {}
    ensures m in ids && forall k :: k in ids ==> m <= k
  {
    LeastExists(ids);
    var m :| m in ids && forall k :: k in ids ==> m <= k;
    m
  }

  /** Strictly increasing. */
  predicate Ascending(r: seq<int>)
  {
    forall i, j :: 0 <= i < j < |r| ==> r[i] < r[j]
  }

  /** A key below every key of an ascending list may go in front of it. */
  lemma AscendingCons(m: int, tail: seq<int>, rest: set<int>)
    requires Ascending(tail) && forall i :: 0 <= i < |tail| ==> tail[i] in rest
    requires forall k :: k in rest ==> m < k
    ensures Ascending([m] + tail)
  {
    var r := [m] + tail;
    forall i, j | 0 <= i < j < |r|
      ensures r[i] < r[j]
    {
      assert r[j] == tail[j - 1];
      if i > 0 {
        assert r[i] == tail[i - 1];
      }
    }
  }

  /** The keys in ascending order. */
  function SortedIds(ids: set<int>): (r: seq<int>)
    ensures forall i :: 0 <= i < |r| ==> r[i] in ids
    ensures forall k :: k in ids ==> k in r
    ensures Ascending(r)
    decreases ids
  {
    if ids == {} then []
    else
      var m := Least(ids);
      var rest := ids - {m};
      var tail := SortedIds(rest);
      assert forall k :: k in ids ==> k == m || k in rest;
      AscendingCons(m, tail, rest);
      [m] + tail
  }

  /** One position per key. */
  lemma {:induction false} SortedIdsLength(ids: set<int>)
    ensures |SortedIds(ids)| == |ids|
    decreases ids
  {
    if ids != {} {
      var m := Least(ids);
      SortedIdsLength(ids - {m});
      assert ids == (ids - {m}) + {m};
    }
  }

  /** The rows under `ids`, in that order. */
  function Rows<T>(table: map<int, T>, ids: seq<int>): (rows: seq<T>)
    requires forall i :: 0 <= i < |ids| ==> ids[i] in table
    ensures |rows| == |ids|
    ensures forall i :: 0 <= i < |ids| ==> rows[i] == table[ids[i]]
  {
    if ids == [] then [] else [table[ids[0]]] + Rows(table, ids[1..])
  }

  /** A single key sorts to itself. */
  lemma SortedSingle(b: int)
    ensures SortedIds({b}) == [b]
  {
    assert Least({b}) == b;
    assert {b} - {b} == {};
  }

  /** Two keys sort smaller first. */
  lemma SortedPair(a: int, b: int)
    requires a < b
    ensures SortedIds({a, b}) == [a, b]
  {
    assert Least({a, b}) == a;
    assert {a, b} - {a} == {b};
    SortedSingle(b);
  }

  /** `findAll()`: every row, in primary-key order. */
  function FindAll<T(==)>(table: map<int, T>): (rows: seq<T>)
    ensures |rows| == |table|
    ensures forall i :: 0 <= i < |rows| ==> rows[i] in table.Values
    ensures forall id :: id in table ==> table[id] in rows
  {
    var ids := SortedIds(table.Keys);
    SortedIdsLength(table.Keys);
    assert |table.Keys| == |table|;
    var rows := Rows(table, ids);
    assert forall id :: id in table ==> table[id] in rows by {
      forall id | id in table
        ensures table[id] in rows
      {
        var i :| 0 <= i < |ids| && ids[i] == id;
        assert rows[i] == table[id];
      }
    }
    assert forall i :: 0 <= i < |rows| ==> rows[i] in table.Values by {
      forall i | 0 <= i < |rows|
        ensures rows[i] in table.Values
      {
        assert ids[i] in table && rows[i] == table[ids[i]];
      }
    }
    rows
  }

  /** `findById(id)`. */
  function FindById<T>(table: map<int, T>, id: int): (r: Option<T>)
    ensures r.Some? <==> id in table
    ensures r.Some? ==> r.value == table[id]
  {
    if id in table then Some(table[id]) else None
  }

  /** A set with one element holds nothing else. */
  lemma SingletonMember<T>(s: set<T>, a: T, b: T)
    requires |s| == 1 && a in s && b in s
    ensures a == b
  {
    if a != b {
      assert {a, b} <= s;
      assert |{a, b}| == 2;
      SubsetCard({a, b}, s);
    }
  }

  lemma {:induction false} SubsetCard<T>(a: set<T>, b: set<T>)
    requires a <= b
    ensures |a| <= |b|
    decreases a
  {
    if a != {} {
      var x := Element(a);
      SubsetCard(a - {x}, b - {x});
    }
  }
}
