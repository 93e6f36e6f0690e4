/**
 * Ordered views of finite integer-keyed records. A JavaScript `for...in` or
 * `Object.entries` over a record with integer keys visits them in ascending
 * numeric order; `SortedKeys` is that order.
 */
module Keys {

  predicate Increasing(s: seq<int>) {
    forall i, j :: 0 <= i < j < |s| ==> s[i] < s[j]
  }

  predicate NoDups<T(==)>(s: seq<T>) {
    forall i, j :: 0 <= i < j < |s| ==> s[i] != s[j]
  }

  lemma NonEmptyHasElement<T>(s: set<T>)
    requires s != {}
    ensures exists x :: x in s
  {
    if forall z :: z !in s {
      assert false;
    }
  }

  /** Some element of a non-empty set. */
  ghost function Pick<T>(s: set<T>): (x: T)
    requires s != {}
    ensures x in s
  {
    NonEmptyHasElement(s);
    var x :| x in s; x
  }

  lemma {:induction false} MinExists(s: set<int>)
    requires s != {}
    ensures exists m :: m in s && forall y :: y in s ==> m <= y
    decreases |s|
  {
    var x := Pick(s);
    if s != {x} {
      MinExists(s - {x});
      var m :| m in s - {x} && forall y :: y in s - {x} ==> m <= y;
      var least := if x < m then x else m;
      forall y | y in s
        ensures least <= y
      {
        if y != x {
          assert y in s - {x};
        }
      }
    } else {
      assert forall y :: y in s ==> x <= y;
    }
  }

  /** The least element of a non-empty set. */
  function MinOf(s: set<int>): (m: int)
    requires s != {}
    ensures m in s && forall y :: y in s ==> m <= y
  {
    MinExists(s);
    var m :| m in s && forall y :: y in s ==> m <= y; m
  }

  /** The elements of `s` in ascending order. */
  function SortedKeys(s: set<int>): (r: seq<int>)
    ensures |r| == |s|
    ensures forall x :: x in r <==> x in s
    decreases |s|
  {
    if s == {} then []
    else
      var m := MinOf(s);
      [m] + SortedKeys(s - {m})
  }

  /** The order is ascending (kept apart from the function so unfolding it stays cheap). */
  lemma {:induction false} SortedKeysIncreasing(s: set<int>)
    ensures Increasing(SortedKeys(s))
    decreases |s|
  {
    if s != {} {
      var m := MinOf(s);
      var rest := SortedKeys(s - {m});
      SortedKeysIncreasing(s - {m});
      assert forall i :: 0 <= i < |rest| ==> m < rest[i];
      assert SortedKeys(s) == [m] + rest;
    }
  }

  lemma IncreasingNoDups(s: seq<int>)
    requires Increasing(s)
    ensures NoDups(s)
  {
  }

  lemma SortedSingleton(k: int)
    ensures SortedKeys({k}) == [k]
  {
    var r := SortedKeys({k});
    assert |r| == 1 && r[0] in {k};
  }
}
