/** Dependency walks, and the risk a component should have: the worst base risk at the end of any
    dependency walk from it, decayed once per hop. The definition needs no algorithm and no acyclicity. */
module Walks {
  import opened Components

  ghost predicate Linked(edges: seq<Edge>, a: string, b: string) {
    exists e :: e in edges && e.from == a && e.to == b
  }

  /** A non-empty sequence of ids, each depending on the next. */
  ghost predicate IsWalk(edges: seq<Edge>, w: seq<string>) {
    && |w| > 0
    && forall i :: 0 <= i < |w| - 1 ==> Linked(edges, w[i], w[i + 1])
  }

  ghost predicate WalkFrom(edges: seq<Edge>, w: seq<string>, a: string) {
    IsWalk(edges, w) && w[0] == a
  }

  /** `a` depends on `b` by one or more edges. */
  ghost predicate Reaches(edges: seq<Edge>, a: string, b: string) {
    exists w :: WalkFrom(edges, w, a) && |w| > 1 && w[|w| - 1] == b
  }

  /** No component depends on itself, directly or through others. */
  ghost predicate Acyclic(edges: seq<Edge>) {
    forall w :: IsWalk(edges, w) && |w| > 1 ==> w[0] != w[|w| - 1]
  }

  /** One hop keeps three fifths, rounded down. */
  function Decay(x: nat): nat {
    3 * x / 5
  }

  function DecayBy(x: nat, hops: nat): nat {
    if hops == 0 then x else Decay(DecayBy(x, hops - 1))
  }

  lemma {:induction false} DecayByMonotone(x: nat, y: nat, hops: nat)
    requires x <= y
    ensures DecayBy(x, hops) <= DecayBy(y, hops)
  {
    if hops > 0 {
      DecayByMonotone(x, y, hops - 1);
    }
  }

  /** A map read as Go reads it: a missing key is zero. */
  function At(base: map<string, nat>, id: string): nat {
    if id in base then base[id] else 0
  }

  /** What a walk passes on to its first component. */
  ghost function Inherited(base: map<string, nat>, w: seq<string>): nat
    requires |w| > 0
  {
    DecayBy(At(base, w[|w| - 1]), |w| - 1)
  }

  ghost predicate Realised(base: map<string, nat>, edges: seq<Edge>, id: string, r: nat) {
    exists w :: WalkFrom(edges, w, id) && Inherited(base, w) == r
  }

  ghost predicate Bounds(base: map<string, nat>, edges: seq<Edge>, id: string, r: nat) {
    forall w :: WalkFrom(edges, w, id) ==> Inherited(base, w) <= r
  }

  /** r is the maximum of the decayed base risks over all walks from id. */
  ghost predicate IsWorst(base: map<string, nat>, edges: seq<Edge>, id: string, r: nat) {
    Realised(base, edges, id, r) && Bounds(base, edges, id, r)
  }

  lemma {:induction false} WorstIsUnique(base: map<string, nat>, edges: seq<Edge>, id: string, r: nat, s: nat)
    requires IsWorst(base, edges, id, r) && IsWorst(base, edges, id, s)
    ensures r == s
  {
  }

  lemma {:induction false} SelfWalk(base: map<string, nat>, edges: seq<Edge>, id: string)
    ensures WalkFrom(edges, [id], id) && Inherited(base, [id]) == At(base, id)
    ensures Realised(base, edges, id, At(base, id))
  {
    assert WalkFrom(edges, [id], id) && Inherited(base, [id]) == At(base, id);
  }

  lemma {:induction false} Prepend(base: map<string, nat>, edges: seq<Edge>, a: string, w: seq<string>)
    requires IsWalk(edges, w) && Linked(edges, a, w[0])
    ensures WalkFrom(edges, [a] + w, a)
    ensures Inherited(base, [a] + w) == Decay(Inherited(base, w))
  {
    var v := [a] + w;
    forall i | 0 <= i < |v| - 1 ensures Linked(edges, v[i], v[i + 1]) {
      if i > 0 { assert Linked(edges, w[i - 1], w[i]); }
    }
  }

  lemma {:induction false} Tail(base: map<string, nat>, edges: seq<Edge>, w: seq<string>)
    requires IsWalk(edges, w) && |w| > 1
    ensures Linked(edges, w[0], w[1])
    ensures WalkFrom(edges, w[1..], w[1])
    ensures Inherited(base, w) == Decay(Inherited(base, w[1..]))
  {
    var v := w[1..];
    forall i | 0 <= i < |v| - 1 ensures Linked(edges, v[i], v[i + 1]) {
      assert Linked(edges, w[i + 1], w[i + 2]);
    }
  }

  /** A dependency's realised risk, decayed, is realised by its dependent. */
  lemma {:induction false} RealisedByDependent(base: map<string, nat>, edges: seq<Edge>, id: string, d: string, r: nat)
    requires Linked(edges, id, d) && Realised(base, edges, d, r)
    ensures Realised(base, edges, id, Decay(r))
  {
    var w :| WalkFrom(edges, w, d) && Inherited(base, w) == r;
    Prepend(base, edges, id, w);
  }

  /** The worst risk solves the propagation equation: the larger of the base risk and the decayed risks
      of the direct dependencies. */
  lemma {:induction false} BoundsFromDependencies(base: map<string, nat>, edges: seq<Edge>, id: string, r: nat)
    requires At(base, id) <= r
    requires forall d :: Linked(edges, id, d) ==> exists s :: Bounds(base, edges, d, s) && Decay(s) <= r
    ensures Bounds(base, edges, id, r)
  {
    forall w | WalkFrom(edges, w, id) ensures Inherited(base, w) <= r {
      if |w| > 1 {
        Tail(base, edges, w);
        var s :| Bounds(base, edges, w[1], s) && Decay(s) <= r;
        assert Inherited(base, w[1..]) <= s;
      } else {
        assert w == [id];
      }
    }
  }

  /** On any graph, cyclic ones included, worst risks solve the propagation equation: the base risk or the
      decayed risk of a direct dependency, whichever is largest. */
  lemma {:induction false} WorstSolvesEquation(base: map<string, nat>, edges: seq<Edge>, id: string,
                                               risk: map<string, nat>)
    requires id in risk && IsWorst(base, edges, id, risk[id])
    requires forall d :: Linked(edges, id, d) ==> d in risk && IsWorst(base, edges, d, risk[d])
    ensures risk[id] >= At(base, id)
    ensures forall d :: Linked(edges, id, d) ==> risk[id] >= Decay(risk[d])
    ensures risk[id] == At(base, id) || exists d :: Linked(edges, id, d) && risk[id] == Decay(risk[d])
  {
    SelfWalk(base, edges, id);
    forall d | Linked(edges, id, d) ensures risk[id] >= Decay(risk[d]) {
      RealisedByDependent(base, edges, id, d, risk[d]);
    }
    var w :| WalkFrom(edges, w, id) && Inherited(base, w) == risk[id];
    if |w| > 1 {
      Tail(base, edges, w);
      assert Inherited(base, w[1..]) <= risk[w[1]];
    } else {
      assert w == [id];
    }
  }

  /** Only which components are linked and their base risks matter: not the order of the edges, their
      types or their repetitions. The risk grows with the base risks and with the edges. */
  lemma {:induction false} WorstIsMonotone(base: map<string, nat>, edges: seq<Edge>, base': map<string, nat>,
                                           edges': seq<Edge>,
                        id: string, r: nat, r': nat)
    requires forall a, b :: Linked(edges, a, b) ==> Linked(edges', a, b)
    requires forall a :: At(base, a) <= At(base', a)
    requires IsWorst(base, edges, id, r) && IsWorst(base', edges', id, r')
    ensures r <= r'
  {
    var w :| WalkFrom(edges, w, id) && Inherited(base, w) == r;
    assert forall i :: 0 <= i < |w| - 1 ==> Linked(edges, w[i], w[i + 1]);
    assert WalkFrom(edges', w, id);
    DecayByMonotone(At(base, w[|w| - 1]), At(base', w[|w| - 1]), |w| - 1);
  }
}
