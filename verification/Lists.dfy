/** Lists without repetitions, and the order-preserving removal of repetitions. */
module Lists {

  ghost predicate Distinct<T>(xs: seq<T>) {
    forall i, j :: 0 <= i < j < |xs| ==> Differ(xs, i, j)
  }

  ghost predicate Differ<T>(xs: seq<T>, i: nat, j: nat)
    requires i < j < |xs|
  {
    xs[i] != xs[j]
  }

  /** x is one of the first n elements. */
  predicate Among<T(==)>(xs: seq<T>, x: T, n: nat)
    requires n <= |xs|
  {
    exists i :: 0 <= i < n && xs[i] == x
  }

  lemma DifferentPlaces<T>(xs: seq<T>, i: nat, j: nat)
    requires Distinct(xs) && i < |xs| && j < |xs| && i != j
    ensures xs[i] != xs[j]
  {
    if i < j {
      assert Differ(xs, i, j);
    } else {
      assert Differ(xs, j, i);
    }
  }

  /** The first occurrences among the first n elements. */
  function Deduped<T(==)>(xs: seq<T>, n: nat): seq<T>
    requires n <= |xs|
  {
    if n == 0 then []
    else
      var earlier := Deduped(xs, n - 1);
      if xs[n - 1] in earlier then earlier else earlier + [xs[n - 1]]
  }

  method Dedupe<T(==)>(xs: seq<T>) returns (out: seq<T>)
    ensures out == Deduped(xs, |xs|)
  {
    out := [];
    for n := 0 to |xs|
      invariant out == Deduped(xs, n)
    {
      if xs[n] !in out {
        out := out + [xs[n]];
      }
    }
  }

  lemma {:induction false} DedupedMembers<T(!new)>(xs: seq<T>, n: nat, x: T)
    requires n <= |xs|
    ensures x in Deduped(xs, n) <==> Among(xs, x, n)
  {
    if n > 0 {
      DedupedMembers(xs, n - 1, x);
    }
  }

  lemma {:induction false} DedupedDistinct<T(!new)>(xs: seq<T>, n: nat)
    requires n <= |xs|
    ensures Distinct(Deduped(xs, n))
  {
    if n > 0 {
      DedupedDistinct(xs, n - 1);
      var earlier := Deduped(xs, n - 1);
      if xs[n - 1] !in earlier {
        DistinctAppend(earlier, xs[n - 1]);
      }
    }
  }

  lemma DistinctAppend<T>(xs: seq<T>, x: T)
    requires Distinct(xs) && x !in xs
    ensures Distinct(xs + [x])
  {
    var all := xs + [x];
    forall i, j | 0 <= i < j < |all|
      ensures Differ(all, i, j)
    {
      assert j < |xs| ==> Differ(xs, i, j);
    }
  }

  lemma {:induction false} DistinctConcat<T(!new)>(a: seq<T>, b: seq<T>)
    requires Distinct(a) && Distinct(b) && forall x :: x in a ==> x !in b
    ensures Distinct(a + b)
  {
    var all := a + b;
    forall i, j | 0 <= i < j < |all|
      ensures Differ(all, i, j)
    {
      assert j < |a| ==> Differ(a, i, j);
      assert i >= |a| ==> Differ(b, i - |a|, j - |a|);
      assert i < |a| ==> a[i] in a;
      assert j >= |a| ==> b[j - |a|] in b;
    }
  }

  /** A list without repetitions is kept as it is. */
  lemma {:induction false} DedupedKeepsDistinct<T(!new)>(xs: seq<T>, n: nat)
    requires n <= |xs| && Distinct(xs)
    ensures Deduped(xs, n) == xs[..n]
  {
    if n > 0 {
      DedupedKeepsDistinct(xs, n - 1);
      forall i | 0 <= i < n - 1
        ensures xs[i] != xs[n - 1]
      {
        assert Differ(xs, i, n - 1);
      }
    }
  }

  /** The k-th element of `kept` stands first at `at[k]`, and these places increase and lie below n. */
  ghost predicate StandFirst<T>(xs: seq<T>, kept: seq<T>, at: seq<nat>, n: nat) {
    |at| == |kept| && Increasing(at) && forall k :: 0 <= k < |at| ==> FirstAt(xs, kept[k], at[k]) && at[k] < n
  }

  /** The kept elements stand at their first positions, and those positions increase. */
  lemma {:induction false} DedupedPositions<T(!new)>(xs: seq<T>, n: nat) returns (at: seq<nat>)
    requires n <= |xs|
    ensures StandFirst(xs, Deduped(xs, n), at, n)
  {
    if n == 0 {
      at := [];
    } else {
      at := DedupedPositions(xs, n - 1);
      var earlier := Deduped(xs, n - 1);
      StandLonger(xs, earlier, at, n - 1);
      if xs[n - 1] !in earlier {
        NewIsFirst(xs, n - 1);
        OneMoreStands(xs, earlier, at, n - 1);
        at := at + [n - 1];
      }
    }
  }

  lemma StandLonger<T>(xs: seq<T>, kept: seq<T>, at: seq<nat>, n: nat)
    requires StandFirst(xs, kept, at, n)
    ensures StandFirst(xs, kept, at, n + 1)
  {
  }

  lemma OneMoreStands<T>(xs: seq<T>, kept: seq<T>, at: seq<nat>, n: nat)
    requires StandFirst(xs, kept, at, n) && n < |xs| && FirstAt(xs, xs[n], n)
    ensures StandFirst(xs, kept + [xs[n]], at + [n], n + 1)
  {
    IncreasingAppend(at, n);
  }

  lemma {:induction false} NewIsFirst<T(!new)>(xs: seq<T>, n: nat)
    requires n < |xs| && xs[n] !in Deduped(xs, n)
    ensures FirstAt(xs, xs[n], n)
  {
    DedupedMembers(xs, n, xs[n]);
  }

  lemma IncreasingAppend(at: seq<nat>, n: nat)
    requires Increasing(at) && forall k :: 0 <= k < |at| ==> at[k] < n
    ensures Increasing(at + [n])
  {
  }

  ghost predicate FirstAt<T>(xs: seq<T>, x: T, at: nat) {
    at < |xs| && xs[at] == x && forall i :: 0 <= i < at ==> xs[i] != x
  }

  ghost predicate Increasing(at: seq<nat>) {
    forall i, j :: 0 <= i < j < |at| ==> at[i] < at[j]
  }
}
