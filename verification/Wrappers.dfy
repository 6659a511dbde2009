// Failure and absence values, and the choice of a least id that every
// "ORDER BY id LIMIT 1" query of the services makes.
module Wrappers {

  datatype Option<+T> = None | Some(value: T)

  datatype Result<+T, +E> = Ok(value: T) | Err(error: E)

  lemma {:induction false} LeastExists(s: set<nat>)
    requires s != {}
    ensures exists m :: m in s && forall x :: x in s ==> m <= x
  {
    var y :| y in s;
    if s != {y} {
      LeastExists(s - {y});
      var m :| m in s - {y} && forall x :: x in s - {y} ==> m <= x;
      var least := if y < m then y else m;
      assert least in s && forall x :: x in s ==> least <= x by {
        forall x | x in s ensures least <= x { assert x == y || x in s - {y}; }
      }
    }
  }

  /** The row a First() query returns: the one with the least primary key. */
  function First(s: set<nat>): (r: Option<nat>)
    ensures r.None? <==> s == {}
    ensures r.Some? ==> r.value in s && forall x :: x in s ==> r.value <= x
  {
    if s == {} then None
    else
      LeastExists(s);
      var m :| m in s && forall x :: x in s ==> m <= x;
      Some(m)
  }

  lemma {:induction false} GreatestExists(s: set<nat>)
    requires s != {}
    ensures exists m :: m in s && forall x :: x in s ==> x <= m
  {
    var y :| y in s;
    if s != {y} {
      GreatestExists(s - {y});
      var m :| m in s - {y} && forall x :: x in s - {y} ==> x <= m;
      var greatest := if y < m then m else y;
      assert greatest in s && forall x :: x in s ==> x <= greatest by {
        forall x | x in s ensures x <= greatest { assert x == y || x in s - {y}; }
      }
    }
  }

  /** The row a query ordered newest first begins with. */
  function Last(s: set<nat>): (r: Option<nat>)
    ensures r.None? <==> s == {}
    ensures r.Some? ==> r.value in s && forall x :: x in s ==> x <= r.value
  {
    if s == {} then None
    else
      GreatestExists(s);
      var m :| m in s && forall x :: x in s ==> x <= m;
      Some(m)
  }

  /** A singleton query has only one answer. */
  lemma FirstOfSingleton(s: set<nat>, x: nat)
    requires s == {x}
    ensures First(s) == Some(x)
  {
  }

  /** r holds between any two elements in their order. */
  ghost predicate Pairwise<T(!new)>(s: seq<T>, r: (T, T) -> bool) {
    forall i, j :: 0 <= i < j < |s| ==> r(s[i], s[j])
  }

  lemma PairwiseFirst<T(!new)>(x: T, rest: seq<T>, r: (T, T) -> bool)
    ensures Pairwise([x] + rest, r) <==> Pairwise(rest, r) && forall y :: y in rest ==> r(x, y)
  {
    var s := [x] + rest;
    if Pairwise(s, r) {
      forall i, j | 0 <= i < j < |rest| ensures r(rest[i], rest[j]) {
        assert s[i + 1] == rest[i] && s[j + 1] == rest[j];
      }
      forall y | y in rest ensures r(x, y) {
        var k :| 0 <= k < |rest| && rest[k] == y;
        assert s[0] == x && s[k + 1] == y;
      }
    }
  }

  /** rows lists exactly the elements of s, each once. */
  ghost predicate Lists<T(!new)>(rows: seq<T>, s: set<T>) {
    && (forall x :: x in s <==> x in rows)
    && (forall i, j :: 0 <= i < j < |rows| ==> rows[i] != rows[j])
  }
}
