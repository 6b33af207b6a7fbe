/** Sizes of sets and maps, and the latest elements of a set. */
module Sets {

  lemma SubsetSize<T>(a: set<T>, b: set<T>)
    requires a <= b
    ensures |a| <= |b| && (a != b ==> |a| < |b|)
  {
    assert b == a + (b - a);
    if a != b {
      assert b - a != {};
    }
  }

  lemma MapSize<K, V, W>(a: map<K, V>, b: map<K, W>)
    requires a.Keys <= b.Keys
    ensures |a| <= |b| && (a.Keys != b.Keys ==> |a| < |b|)
  {
    SubsetSize(a.Keys, b.Keys);
    assert |a.Keys| == |a| && |b.Keys| == |b|;
  }

  lemma Smallest<T>(ids: set<T>, key: T -> int) returns (x: T)
    requires ids != {}
    ensures x in ids && forall k <- ids :: key(x) <= key(k)
  {
    var first :| first in ids;
    x := first;
    if ids != {first} {
      var y := Smallest(ids - {first}, key);
      x := if key(first) <= key(y) then first else y;
      forall k <- ids ensures key(x) <= key(k) {
        assert k == first || k in ids - {first};
      }
    }
  }

  /** Keeping the latest. */

  function Min(a: nat, b: nat): nat { if a <= b then a else b }

  function Later<T>(ids: set<T>, age: T -> int, x: T): set<T> {
    set k | k in ids && age(k) > age(x)
  }

  // In descending order of age, the first `n`.
  function Latest<T>(ids: set<T>, age: T -> int, n: nat): set<T> {
    set x | x in ids && |Later(ids, age, x)| < n
  }

  ghost predicate Apart<T>(ids: set<T>, age: T -> int) {
    forall a, b | a in ids && b in ids && age(a) == age(b) :: a == b
  }

  // None of the others is later than one of them.
  lemma LatestAbove<T>(ids: set<T>, age: T -> int, n: nat)
    requires Apart(ids, age)
    ensures Latest(ids, age, n) <= ids
    ensures forall a, b | a in Latest(ids, age, n) && b in ids - Latest(ids, age, n) :: age(b) < age(a)
  {
    forall a, b | a in Latest(ids, age, n) && b in ids - Latest(ids, age, n) ensures age(b) < age(a) {
      if age(a) <= age(b) { SubsetSize(Later(ids, age, b), Later(ids, age, a)); }
    }
  }

  // They are as many as asked for, or all.
  lemma {:induction false} LatestCount<T>(ids: set<T>, age: T -> int, n: nat)
    requires Apart(ids, age)
    ensures |Latest(ids, age, n)| == Min(n, |ids|)
    decreases |ids|
  {
    if ids == {} {
      assert Latest(ids, age, n) == {};
    } else {
      var oldest := Smallest(ids, age);
      var rest := ids - {oldest};
      LatestCount(rest, age, n);
      LatestWithout(ids, age, n, oldest);
      hide Latest;
      assert |rest| == |ids| - 1;
      if |rest| < n { LatestAll(rest, age, n); }
    }
  }

  lemma LatestWithout<T>(ids: set<T>, age: T -> int, n: nat, oldest: T)
    requires Apart(ids, age) && oldest in ids && forall k <- ids :: age(oldest) <= age(k)
    ensures Latest(ids, age, n) == Latest(ids - {oldest}, age, n) + if |ids - {oldest}| < n then {oldest} else {}
  {
    var rest := ids - {oldest};
    assert Later(ids, age, oldest) == rest;
    forall x <- rest ensures Later(ids, age, x) == Later(rest, age, x) {
      assert oldest !in Later(ids, age, x);
    }
  }

  lemma LatestAll<T>(ids: set<T>, age: T -> int, n: nat)
    requires |ids| < n
    ensures Latest(ids, age, n) == ids
  {
    forall x <- ids ensures |Later(ids, age, x)| <= |ids| {
      SubsetSize(Later(ids, age, x), ids);
    }
  }
}
