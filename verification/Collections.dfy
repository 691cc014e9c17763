/** Lists without repetition and the sizes of sets. */
module Collections {
  ghost predicate Distinct<T(!new)>(s: seq<T>) { forall i, j | 0 <= i < j < |s| :: s[i] != s[j] }

  function Elements<T(==)>(s: seq<T>): set<T> { set x | x in s }

  lemma Regroup<T>(a: seq<T>, b: seq<T>, c: seq<T>)
    ensures a + (b + c) == (a + b) + c
  {
  }

  lemma {:induction false} DistinctSize<T(!new)>(s: seq<T>)
    ensures |Elements(s)| <= |s|
    ensures Distinct(s) <==> |Elements(s)| == |s|
  {
    if s != [] {
      var n := |s| - 1;
      DistinctSize(s[..n]);
      var before := Elements(s[..n]);
      assert s == s[..n] + [s[n]];
      assert Elements(s) == before + {s[n]};
      if s[n] in s[..n] {
        var i :| 0 <= i < n && s[i] == s[n];
        assert Elements(s) == before;
      } else {
        assert Distinct(s) <==> Distinct(s[..n]);
      }
    }
  }

  lemma {:induction false} SubsetSize<T>(a: set<T>, b: set<T>)
    requires a <= b
    ensures |a| <= |b|
  {
    if a != {} {
      var x :| x in a;
      SubsetSize(a - {x}, b - {x});
    }
  }

  /** `out` is what stands in `from` at the places `at`, in order. */
  ghost predicate Picks<T>(from: seq<T>, at: seq<nat>, out: seq<T>) {
    && |at| == |out| && (forall j | 0 <= j < |at| :: at[j] < |from| && from[at[j]] == out[j])
    && forall j, k | 0 <= j < k < |at| :: at[j] < at[k]
  }

  /** Picking from a list with one more element at its end. */
  lemma PicksSnoc<T>(from: seq<T>, last: T, at: seq<nat>, out: seq<T>, taken: bool)
    requires Picks(from, at, out)
    ensures var more := at + if taken then [|from|] else [];
      && Picks(from + [last], more, out + if taken then [last] else [])
      && (|from| in more <==> taken) && forall i: nat | i != |from| :: i in more <==> i in at
  {
    assert forall k | 0 <= k < |at| :: at[k] != |from|;
  }

  /** Picking from a list with one more element in front. */
  lemma LaterBy<T>(first: T, from: seq<T>, at: seq<nat>, moved: seq<nat>, out: seq<T>, taken: bool)
    requires Picks(from, at, out)
    requires |moved| == |at| && forall j | 0 <= j < |at| :: moved[j] == at[j] + 1
    ensures Picks([first] + from, (if taken then [0] else []) + moved, (if taken then [first] else []) + out)
  {
  }

  lemma LaterMembers(at: seq<nat>, moved: seq<nat>, all: seq<nat>, taken: bool)
    requires |moved| == |at| && forall j | 0 <= j < |at| :: moved[j] == at[j] + 1
    requires all == (if taken then [0] else []) + moved
    ensures 0 in all <==> taken
    ensures forall k: nat | k > 0 :: k in all <==> k - 1 in at
  {
    forall k: nat | k > 0 && k - 1 in at ensures k in all {
      var j :| 0 <= j < |at| && at[j] == k - 1;
      assert moved[j] == k;
    }
  }

  ghost predicate Increasing(at: seq<nat>) { forall j, k | 0 <= j < k < |at| :: at[j] < at[k] }

  /** Two increasing lists of the same numbers are the same. */
  lemma {:induction false} SameIncreasing(a: seq<nat>, b: seq<nat>)
    requires Increasing(a) && Increasing(b) && forall k: nat :: k in a <==> k in b
    ensures a == b
    decreases |a|
  {
    assert a != [] ==> a[0] in b;
    assert b != [] ==> b[0] in a;
    if a != [] && b != [] {
      var x, y := a[|a| - 1], b[|b| - 1];
      assert x in a && x in b && y in a && y in b;
      assert x == y;
      var c, d := a[..|a| - 1], b[..|b| - 1];
      forall k: nat ensures k in c <==> k in d {
        AllButLast(a, k);
        AllButLast(b, k);
      }
      SameIncreasing(c, d);
      assert a == a[..|a| - 1] + [x] && b == b[..|b| - 1] + [y];
    }
  }

  lemma AllButLast(a: seq<nat>, k: nat)
    requires Increasing(a) && a != []
    ensures k in a[..|a| - 1] <==> k in a && k != a[|a| - 1]
  {
    assert a == a[..|a| - 1] + [a[|a| - 1]];
  }
}
