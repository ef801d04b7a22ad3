/** Lists that keep the first occurrence of each value, in order. */
module FirstSeen {
  predicate NoDuplicates<T(==)>(xs: seq<T>) {
    forall i, j :: 0 <= i < j < |xs| ==> xs[i] != xs[j]
  }

  /** Append every value of `more` that is not there yet. */
  function AppendNew<T(==)>(xs: seq<T>, more: seq<T>): seq<T>
    decreases |more|
  {
    if more == [] then xs
    else AppendNew(if more[0] in xs then xs else xs + [more[0]], more[1..])
  }

  function Dedupe<T(==)>(values: seq<T>): seq<T> { AppendNew([], values) }

  lemma {:induction false} AppendNewMeaning<T>(xs: seq<T>, more: seq<T>)
    requires NoDuplicates(xs)
    ensures NoDuplicates(AppendNew(xs, more))
    ensures xs <= AppendNew(xs, more)
    ensures forall x :: x in AppendNew(xs, more) <==> x in xs || x in more
    decreases |more|
  {
    if more != [] {
      AppendNewMeaning(if more[0] in xs then xs else xs + [more[0]], more[1..]);
      assert more == [more[0]] + more[1..];
    }
  }

  lemma {:induction false} AppendNewConcat<T>(xs: seq<T>, a: seq<T>, b: seq<T>)
    ensures AppendNew(xs, a + b) == AppendNew(AppendNew(xs, a), b)
    decreases |a|
  {
    if a == [] {
      assert a + b == b;
    } else {
      assert (a + b)[1..] == a[1..] + b;
      AppendNewConcat(if a[0] in xs then xs else xs + [a[0]], a[1..], b);
    }
  }

  lemma {:induction false} DedupeIsIdentity<T>(xs: seq<T>, more: seq<T>)
    requires NoDuplicates(xs + more)
    ensures AppendNew(xs, more) == xs + more
    decreases |more|
  {
    if more == [] {
      assert xs + more == xs;
    } else {
      var all := xs + more;
      assert more[0] == all[|xs|];
      assert forall i :: 0 <= i < |xs| ==> all[i] == xs[i];
      assert more[0] !in xs;
      assert xs + [more[0]] + more[1..] == all;
      DedupeIsIdentity(xs + [more[0]], more[1..]);
    }
  }

  /** Wherever a value ends up, everything before it was first seen earlier in the input. */
  lemma {:induction false} FirstSeenOrder<T>(xs: seq<T>, more: seq<T>, k: nat)
    requires NoDuplicates(xs) && k <= |more|
    ensures AppendNew(xs, more[..k]) <= AppendNew(xs, more)
  {
    assert more == more[..k] + more[k..];
    AppendNewConcat(xs, more[..k], more[k..]);
    AppendNewMeaning(xs, more[..k]);
    AppendNewMeaning(AppendNew(xs, more[..k]), more[k..]);
  }

  // ------------------------------------------------------------- distinct values

  function Elements<T(==)>(xs: seq<T>): set<T> { set x | x in xs }

  lemma DistinctSnoc<T>(xs: seq<T>, last: T)
    ensures NoDuplicates(xs + [last]) <==> NoDuplicates(xs) && last !in xs
  {
    var all := xs + [last];
    assert all[|xs|] == last && forall i :: 0 <= i < |xs| ==> all[i] == xs[i];
  }

  /** A list has as many distinct values as places exactly when it repeats none. */
  lemma {:induction false} DistinctValues<T>(xs: seq<T>)
    ensures |Elements(xs)| <= |xs| && (|Elements(xs)| == |xs| <==> NoDuplicates(xs))
  {
    if xs != [] {
      var front, last := xs[..|xs| - 1], xs[|xs| - 1];
      DistinctValues(front);
      assert xs == front + [last];
      assert Elements(xs) == Elements(front) + {last};
      DistinctSnoc(front, last);
    }
  }
}
