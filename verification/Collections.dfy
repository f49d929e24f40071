/** Sequence helpers in the shape of the source's `for ... range` loops: each grows with the last element. */
module Collections {
  datatype Option<+T> = None | Some(value: T)

  function Max(a: int, b: int): int {
    if a < b then b else a
  }

  function Map<T, U>(f: T -> U, xs: seq<T>): (ys: seq<U>)
    ensures |ys| == |xs|
    ensures forall i :: 0 <= i < |xs| ==> ys[i] == f(xs[i])
  {
    seq(|xs|, i requires 0 <= i < |xs| => f(xs[i]))
  }

  function Filter<T>(keep: T -> bool, xs: seq<T>): seq<T> {
    if xs == [] then []
    else
      var rest, last := Filter(keep, xs[..|xs| - 1]), xs[|xs| - 1];
      if keep(last) then rest + [last] else rest
  }

  function FlatMap<T, U>(f: T -> seq<U>, xs: seq<T>): seq<U> {
    if xs == [] then [] else FlatMap(f, xs[..|xs| - 1]) + f(xs[|xs| - 1])
  }

  lemma {:induction false} FilterMember<T(!new)>(keep: T -> bool, xs: seq<T>)
    ensures forall y :: y in Filter(keep, xs) <==> y in xs && keep(y)
  {
    if xs != [] {
      assert xs == xs[..|xs| - 1] + [xs[|xs| - 1]];
      FilterMember(keep, xs[..|xs| - 1]);
    }
  }

  lemma {:induction false} FlatMapMember<T(!new), U(!new)>(f: T -> seq<U>, xs: seq<T>)
    ensures forall y :: y in FlatMap(f, xs) <==> exists x :: x in xs && y in f(x)
  {
    if xs != [] {
      assert xs == xs[..|xs| - 1] + [xs[|xs| - 1]];
      FlatMapMember(f, xs[..|xs| - 1]);
    }
  }

  lemma {:induction false} MapMember<T(!new), U(!new)>(f: T -> U, xs: seq<T>)
    ensures forall y :: y in Map(f, xs) <==> exists x :: x in xs && y == f(x)
  {
    forall x | x in xs ensures f(x) in Map(f, xs) {
      var i :| 0 <= i < |xs| && xs[i] == x;
      assert Map(f, xs)[i] == f(x);
    }
  }

  lemma {:induction false} FilterConcat<T(!new)>(keep: T -> bool, xs: seq<T>, ys: seq<T>)
    ensures Filter(keep, xs + ys) == Filter(keep, xs) + Filter(keep, ys)
  {
    if ys == [] {
      assert xs + ys == xs;
    } else {
      assert (xs + ys)[..|xs + ys| - 1] == xs + ys[..|ys| - 1];
      FilterConcat(keep, xs, ys[..|ys| - 1]);
    }
  }

  lemma {:induction false} MapNext<T, U>(f: T -> U, xs: seq<T>, i: nat)
    requires i < |xs|
    ensures Map(f, xs[..i + 1]) == Map(f, xs[..i]) + [f(xs[i])]
    ensures Map(f, xs[..|xs|]) == Map(f, xs)
  {
    assert xs[..|xs|] == xs;
  }

  lemma {:induction false} MapFilterNext<T, U>(f: T -> U, keep: T -> bool, xs: seq<T>, i: nat)
    ensures Map(f, Filter(keep, xs[..0])) == []
    ensures xs[..|xs|] == xs
    ensures i < |xs| ==>
              Map(f, Filter(keep, xs[..i + 1]))
              == Map(f, Filter(keep, xs[..i])) + (if keep(xs[i]) then [f(xs[i])] else [])
  {
    if i < |xs| {
      TakeNext(xs, i);
    }
  }

  /** A loop that has handled xs[..i] handles xs[i] next. */
  lemma {:induction false} TakeNext<T>(xs: seq<T>, i: nat)
    requires i < |xs|
    ensures xs[..i + 1] == xs[..i] + [xs[i]]
    ensures xs[..i + 1][..i] == xs[..i]
  {
  }

  /** Two texts split at their first separator agree part by part. */
  lemma {:induction false} SplitAtFirst<T>(sep: T, a: seq<T>, b: seq<T>, c: seq<T>, d: seq<T>)
    requires sep !in a && sep !in c
    requires a + [sep] + b == c + [sep] + d
    ensures a == c && b == d
  {
    var s := a + [sep] + b;
    assert s[|a|] == sep && s[|c|] == sep;
    assert forall i :: 0 <= i < |a| ==> s[i] == a[i];
    assert forall i :: 0 <= i < |c| ==> s[i] == c[i];
    assert |a| == |c|;
    assert s[..|a|] == a && s[..|c|] == c;
    assert s[|a| + 1..] == b && s[|c| + 1..] == d;
  }
}
