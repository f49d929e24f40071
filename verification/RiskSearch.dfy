/** The memoised depth-first search with its cycle guard, on values: what it computes on any graph, and
    that it is the worst decayed base risk over all dependency walks when the graph has no cycle. */
module RiskSearch {
  import opened Collections
  import opened Components
  import opened Walks

  /** The dependencies of id in edge order. */
  function Targets(edges: seq<Edge>, id: string): seq<string> {
    if edges == [] then []
    else
      var last := edges[|edges| - 1];
      Targets(edges[..|edges| - 1], id) + (if last.from == id then [last.to] else [])
  }

  lemma {:induction false} TargetsAreLinked(edges: seq<Edge>, id: string)
    ensures forall d :: d in Targets(edges, id) <==> Linked(edges, id, d)
  {
    if edges != [] {
      var rest, last := edges[..|edges| - 1], edges[|edges| - 1];
      assert edges == rest + [last];
      TargetsAreLinked(rest, id);
      forall d ensures Linked(edges, id, d) <==> Linked(rest, id, d) || (last.from == id && last.to == d) {
        if Linked(rest, id, d) {
          var e :| e in rest && e.from == id && e.to == d;
          assert e in edges;
        }
      }
    }
  }

  /** A risk, the memo it leaves behind, and whether the cycle guard has answered on the way. */
  datatype Outcome = Outcome(eff: map<string, nat>, risk: nat, guarded: bool)

  /** Ends that a search can visit. */
  ghost predicate Holds(ids: set<string>, edges: seq<Edge>) {
    forall e :: e in edges ==> e.to in ids
  }

  lemma {:induction false} TargetsAreIds(edges: seq<Edge>, id: string, ids: set<string>)
    requires Holds(ids, edges)
    ensures forall d :: d in Targets(edges, id) ==> d in ids
  {
    TargetsAreLinked(edges, id);
  }

  /** One call of the search, for any graph. Each call that goes deeper visits one more id that is neither
      memoised nor being visited, so it ends. */
  ghost function Visit(base: map<string, nat>, edges: seq<Edge>, ids: set<string>, eff: map<string, nat>,
                       visiting: set<string>,
                       id: string): (o: Outcome)
    requires id in ids && Holds(ids, edges)
    ensures eff.Keys <= o.eff.Keys
    decreases ids - eff.Keys - visiting, 0, 0
  {
    if id in eff then Outcome(eff, eff[id], false)
    else if id in visiting then Outcome(eff, At(base, id), true)
    else
      TargetsAreIds(edges, id, ids);
      var o := Explore(base, edges, ids, eff, visiting + {id}, Targets(edges, id), At(base, id));
      o.(eff := o.eff[id := o.risk])
  }

  /** The larger of best and what the dependencies ds, searched in order, pass on. */
  ghost function Explore(base: map<string, nat>, edges: seq<Edge>, ids: set<string>, eff: map<string, nat>,
                         visiting: set<string>,
                         ds: seq<string>, best: nat): (o: Outcome)
    requires (forall d :: d in ds ==> d in ids) && Holds(ids, edges)
    ensures eff.Keys <= o.eff.Keys
    decreases ids - eff.Keys - visiting, 1, |ds|
  {
    if ds == [] then Outcome(eff, best, false)
    else
      var o := Visit(base, edges, ids, eff, visiting, ds[0]);
      var rest := Explore(base, edges, ids, o.eff, visiting, ds[1..], Max(best, Decay(o.risk)));
      rest.(guarded := o.guarded || rest.guarded)
  }

  lemma {:induction false} VisitStops(base: map<string, nat>, edges: seq<Edge>, ids: set<string>,
                                      eff: map<string, nat>, visiting: set<string>, id: string)
    requires id in ids && Holds(ids, edges)
    ensures id in eff ==> Visit(base, edges, ids, eff, visiting, id) == Outcome(eff, eff[id], false)
    ensures id !in eff && id in visiting ==>
              Visit(base, edges, ids, eff, visiting, id) == Outcome(eff, At(base, id), true)
  {
  }

  lemma {:induction false} VisitGoesOn(base: map<string, nat>, edges: seq<Edge>, ids: set<string>,
                                       eff: map<string, nat>, visiting: set<string>, id: string)
    requires id in ids && Holds(ids, edges)
    requires id !in eff && id !in visiting && forall d :: d in Targets(edges, id) ==> d in ids
    ensures var o := Explore(base, edges, ids, eff, visiting + {id}, Targets(edges, id), At(base, id));
            Visit(base, edges, ids, eff, visiting, id) == o.(eff := o.eff[id := o.risk])
  {
  }

  lemma {:induction false} ExploreNext(base: map<string, nat>, edges: seq<Edge>, ids: set<string>,
                                       eff: map<string, nat>, visiting: set<string>,
                                       ds: seq<string>, i: nat, best: nat)
    requires i < |ds| && (forall d :: d in ds ==> d in ids) && Holds(ids, edges)
    ensures var o := Visit(base, edges, ids, eff, visiting, ds[i]);
            var rest := Explore(base, edges, ids, o.eff, visiting, ds[i + 1..], Max(best, Decay(o.risk)));
            Explore(base, edges, ids, eff, visiting, ds[i..], best) == rest.(guarded := o.guarded || rest.guarded)
  {
    assert ds[i..][1..] == ds[i + 1..];
  }

  lemma {:induction false} ExploreDone(base: map<string, nat>, edges: seq<Edge>, ids: set<string>,
                                       eff: map<string, nat>, visiting: set<string>, best: nat)
    requires Holds(ids, edges)
    ensures Explore(base, edges, ids, eff, visiting, [], best) == Outcome(eff, best, false)
  {
  }

  // ----- What the search promises -----

  /** No walk from id meets a component twice. */
  ghost predicate Loopless(edges: seq<Edge>, id: string) {
    forall w :: WalkFrom(edges, w, id) ==> forall i, j :: 0 <= i < j < |w| ==> w[i] != w[j]
  }

  lemma {:induction false} AcyclicIsLoopless(edges: seq<Edge>, id: string)
    requires Acyclic(edges)
    ensures Loopless(edges, id)
  {
    forall w, i, j | WalkFrom(edges, w, id) && 0 <= i < j < |w| ensures w[i] != w[j] {
      Part(edges, w, i, j);
    }
  }

  lemma {:induction false} Part(edges: seq<Edge>, w: seq<string>, i: nat, j: nat)
    requires IsWalk(edges, w) && i <= j < |w|
    ensures WalkFrom(edges, w[i..j + 1], w[i]) && w[i..j + 1][j - i] == w[j]
  {
    var v := w[i..j + 1];
    forall k | 0 <= k < |v| - 1 ensures Linked(edges, v[k], v[k + 1]) {
      assert Linked(edges, w[i + k], w[i + k + 1]);
    }
  }

  lemma {:induction false} LooplessNext(edges: seq<Edge>, id: string, d: string)
    requires Loopless(edges, id) && Linked(edges, id, d)
    ensures Loopless(edges, d)
  {
    forall w, i, j | WalkFrom(edges, w, d) && 0 <= i < j < |w| ensures w[i] != w[j] {
      Prepend(map[], edges, id, w);
      assert ([id] + w)[i + 1] != ([id] + w)[j + 1];
    }
  }

  /** What the search promises of a component's risk: on any graph it lies between the base risk and 90
      and is passed on by an actual walk; where no walk from the component loops, it is the worst of them,
      whatever cycles there are elsewhere. */
  ghost predicate IsRisk(base: map<string, nat>, edges: seq<Edge>, id: string, r: nat) {
    && At(base, id) <= r <= 90
    && Realised(base, edges, id, r)
    && (Loopless(edges, id) ==> Bounds(base, edges, id, r))
  }

  /** Base risks arrive over one hop, on any graph. */
  ghost predicate Hears(base: map<string, nat>, edges: seq<Edge>, id: string, r: nat) {
    forall d :: Linked(edges, id, d) ==> Decay(At(base, d)) <= r
  }

  /** The ids on a search path: a walk that ends at the id being computed, all others being visited. */
  ghost predicate OnPath(edges: seq<Edge>, visiting: set<string>, path: seq<string>, id: string) {
    && IsWalk(edges, path)
    && path[|path| - 1] == id
    && forall v :: v in visiting <==> v in path[..|path| - 1]
  }

  ghost predicate MemoIsRisk(base: map<string, nat>, edges: seq<Edge>, eff: map<string, nat>) {
    && (forall id :: At(base, id) <= 90)
    && forall id :: id in eff ==> IsRisk(base, edges, id, eff[id]) && Hears(base, edges, id, eff[id])
  }

  /** The outcome of a call for id or of its loop over dependencies: nothing memoised changes, what is
      memoised is right, and the guard answers only if some walk from id loops. */
  ghost predicate IsSound(base: map<string, nat>, edges: seq<Edge>, eff: map<string, nat>, id: string, o: Outcome) {
    && (forall k :: k in eff ==> k in o.eff && o.eff[k] == eff[k])
    && MemoIsRisk(base, edges, o.eff)
    && (Loopless(edges, id) ==> !o.guarded)
  }

  /** Every call of the search returns the risk of its id, and unless the guard answers it has heard of the
      base risks one hop away. */
  lemma {:induction false} VisitIsRisk(base: map<string, nat>, edges: seq<Edge>, ids: set<string>,
                                       eff: map<string, nat>, visiting: set<string>, id: string, path: seq<string>)
    requires id in ids && Holds(ids, edges) && MemoIsRisk(base, edges, eff) && OnPath(edges, visiting, path, id)
    ensures var o := Visit(base, edges, ids, eff, visiting, id);
            && IsSound(base, edges, eff, id, o) && IsRisk(base, edges, id, o.risk)
            && (id !in visiting ==> Hears(base, edges, id, o.risk))
    decreases ids - eff.Keys - visiting, 0, 0
  {
    hide IsRisk, Hears, OnPath, SoFar, Loopless, Linked, Targets, Visit, Explore;
    VisitStops(base, edges, ids, eff, visiting, id);
    if id in eff {
    } else if id in visiting {
      GuardAnswers(base, edges, visiting, path, id);
    } else {
      TargetsAreIds(edges, id, ids);
      TargetsAreLinked(edges, id);
      VisitGoesOn(base, edges, ids, eff, visiting, id);
      NothingInherited(base, edges, id);
      var ds, best := Targets(edges, id), At(base, id);
      assert [] + ds == ds;
      ExploreIsRisk(base, edges, ids, eff, visiting, id, path, [], ds, best);
      AllInherited(base, edges, id, Explore(base, edges, ids, eff, visiting + {id}, ds, best).risk);
    }
  }

  lemma {:induction false} ExploreIsRisk(base: map<string, nat>, edges: seq<Edge>, ids: set<string>,
                                         eff: map<string, nat>, visiting: set<string>, id: string, path: seq<string>,
                                         done: seq<string>, ds: seq<string>, best: nat)
    requires id in ids && id !in visiting && Holds(ids, edges) && MemoIsRisk(base, edges, eff)
    requires OnPath(edges, visiting, path, id) && SoFar(base, edges, id, done, best)
    requires forall d :: d in ds ==> d in ids && Linked(edges, id, d)
    ensures var o := Explore(base, edges, ids, eff, visiting + {id}, ds, best);
            IsSound(base, edges, eff, id, o) && SoFar(base, edges, id, done + ds, o.risk)
    decreases ids - eff.Keys - (visiting + {id}), 1, |ds|
  {
    hide IsRisk, Hears, OnPath, SoFar, Loopless, Linked, Targets, Visit, Explore;
    if ds == [] {
      ExploreDone(base, edges, ids, eff, visiting + {id}, best);
      assert done + ds == done;
    } else {
      var d := ds[0];
      OnPathNext(edges, visiting, path, id, d);
      VisitIsRisk(base, edges, ids, eff, visiting + {id}, d, path + [d]);
      var o := Visit(base, edges, ids, eff, visiting + {id}, d);
      Inherits(base, edges, id, done, d, best, o.risk);
      if Loopless(edges, id) {
        LooplessNext(edges, id, d);
      }
      assert ds[0..] == ds && done + ds == done + [d] + ds[1..];
      ExploreNext(base, edges, ids, eff, visiting + {id}, ds, 0, best);
      ExploreIsRisk(base, edges, ids, o.eff, visiting, id, path, done + [d], ds[1..], Max(best, Decay(o.risk)));
    }
  }

  /** best is the risk of id as far as the dependencies ds have been looked at. */
  ghost predicate SoFar(base: map<string, nat>, edges: seq<Edge>, id: string, ds: seq<string>, best: nat) {
    && At(base, id) <= best <= 90
    && Realised(base, edges, id, best)
    && (forall d :: d in ds ==> Decay(At(base, d)) <= best)
    && (Loopless(edges, id) ==> Covers(base, edges, ds, best))
  }

  /** best is at least what each of the dependencies ds passes on. */
  ghost predicate Covers(base: map<string, nat>, edges: seq<Edge>, ds: seq<string>, best: nat) {
    forall d :: d in ds ==> exists s :: Bounds(base, edges, d, s) && Decay(s) <= best
  }

  lemma {:induction false} GuardAnswers(base: map<string, nat>, edges: seq<Edge>, visiting: set<string>,
                                        path: seq<string>, id: string)
    requires OnPath(edges, visiting, path, id) && id in visiting && At(base, id) <= 90
    ensures !Loopless(edges, id) && IsRisk(base, edges, id, At(base, id))
  {
    PathLoops(edges, path);
    SelfWalk(base, edges, id);
  }

  lemma {:induction false} NothingInherited(base: map<string, nat>, edges: seq<Edge>, id: string)
    requires At(base, id) <= 90
    ensures SoFar(base, edges, id, [], At(base, id))
  {
    SelfWalk(base, edges, id);
  }

  lemma {:induction false} OnPathNext(edges: seq<Edge>, visiting: set<string>, path: seq<string>, id: string, d: string)
    requires OnPath(edges, visiting, path, id) && Linked(edges, id, d)
    ensures OnPath(edges, visiting + {id}, path + [d], d)
  {
    Extend(edges, path, d);
  }

  lemma {:induction false} Inherits(base: map<string, nat>, edges: seq<Edge>, id: string, done: seq<string>, d: string,
                                    best: nat, risk: nat)
    requires Linked(edges, id, d) && SoFar(base, edges, id, done, best) && IsRisk(base, edges, d, risk)
    ensures SoFar(base, edges, id, done + [d], Max(best, Decay(risk)))
  {
    RealisedByDependent(base, edges, id, d, risk);
    if Loopless(edges, id) {
      LooplessNext(edges, id, d);
    }
    hide Loopless, Realised, Bounds, Linked;
  }

  lemma {:induction false} AllInherited(base: map<string, nat>, edges: seq<Edge>, id: string, best: nat)
    requires SoFar(base, edges, id, Targets(edges, id), best)
    ensures IsRisk(base, edges, id, best) && Hears(base, edges, id, best)
  {
    TargetsAreLinked(edges, id);
    hide Targets, Loopless, Realised, Linked;
    if Loopless(edges, id) {
      BoundsFromDependencies(base, edges, id, best);
    }
  }

  /** A path that comes back to an id shows a walk from that id which loops. */
  lemma {:induction false} PathLoops(edges: seq<Edge>, path: seq<string>)
    requires IsWalk(edges, path) && path[|path| - 1] in path[..|path| - 1]
    ensures !Loopless(edges, path[|path| - 1])
  {
    var i :| 0 <= i < |path| - 1 && path[i] == path[|path| - 1];
    Part(edges, path, i, |path| - 1);
    var w := path[i..|path|];
    assert w[0] == w[|w| - 1];
  }

  lemma {:induction false} Extend(edges: seq<Edge>, path: seq<string>, d: string)
    requires IsWalk(edges, path) && Linked(edges, path[|path| - 1], d)
    ensures IsWalk(edges, path + [d])
    ensures (path + [d])[..|path + [d]| - 1] == path[..|path| - 1] + [path[|path| - 1]]
  {
    var w := path + [d];
    forall i | 0 <= i < |w| - 1 ensures Linked(edges, w[i], w[i + 1]) {
      if i < |path| - 1 { assert Linked(edges, path[i], path[i + 1]); }
    }
  }

  lemma {:induction false} OnPathAlone(edges: seq<Edge>, id: string)
    ensures OnPath(edges, {}, [id], id)
  {
  }
}
