/** Scoring a graph with cycles, which the builder never makes: the memo can keep an answer that the guard cut
    short. Where it still is the worst risk, and how that can be seen. */
module Cycles {
  import opened Components
  import opened Walks
  import opened RiskSearch
  import opened RiskEngine

  /** Whatever cycles the graph has, a component from which no walk loops carries its worst risk. */
  lemma {:induction false} LooplessIsWorst(nodes: seq<Component>, edges: seq<Edge>,
                                           addonStatus: map<string, AddonStatus>)
    ensures forall n :: n in Scored(nodes, edges, addonStatus) && Loopless(edges, n.id) ==>
              IsWorst(BaseMap(nodes, addonStatus), edges, n.id, n.risk)
  {
    hide Scored, Loopless, Bounds, Realised, Hears, BaseMap;
    ScoredIsRight(nodes, edges, addonStatus);
  }

  /** No component passes more on to a direct dependent than the dependent carries. */
  ghost predicate IsSettled(nodes: seq<Component>, edges: seq<Edge>) {
    forall e, a, b :: e in edges && a in nodes && b in nodes && a.id == e.from && b.id == e.to ==>
                        Decay(b.risk) <= a.risk
  }

  /** On any graph whose edges end at components the scores are all worst risks exactly when one pass over the edges
      finds them settled. */
  lemma {:induction false} WorstIffSettled(nodes: seq<Component>, edges: seq<Edge>,
                                           addonStatus: map<string, AddonStatus>)
    requires forall e :: e in edges ==> e.to in Ids(nodes)
    ensures var scored, base := Scored(nodes, edges, addonStatus), BaseMap(nodes, addonStatus);
            (forall n :: n in scored ==> IsWorst(base, edges, n.id, n.risk)) <==> IsSettled(scored, edges)
  {
    hide Scored, BaseMap, Loopless, Hears, Realised, Bounds, Ids;
    var scored, base := Scored(nodes, edges, addonStatus), BaseMap(nodes, addonStatus);
    ScoredIsRight(nodes, edges, addonStatus);
    ScoredIds(nodes, edges, addonStatus);
    if forall n :: n in scored ==> IsWorst(base, edges, n.id, n.risk) {
      forall e, a, b | e in edges && a in scored && b in scored && a.id == e.from && b.id == e.to
        ensures Decay(b.risk) <= a.risk {
        assert Linked(edges, a.id, b.id);
        WorstHears(base, edges, a.id, a.risk, b.id, b.risk);
      }
    }
    if IsSettled(scored, edges) {
      forall n | n in scored ensures IsWorst(base, edges, n.id, n.risk) {
        SettledIsBound(base, edges, scored, n);
      }
    }
  }

  lemma {:induction false} ScoredIds(nodes: seq<Component>, edges: seq<Edge>, addonStatus: map<string, AddonStatus>)
    ensures forall id :: id in Ids(nodes) ==> exists n :: n in Scored(nodes, edges, addonStatus) && n.id == id
  {
    hide Scores;
    IdsMember(nodes);
    var scored := Scored(nodes, edges, addonStatus);
    forall id | id in Ids(nodes) ensures exists n :: n in scored && n.id == id {
      var c :| c in nodes && c.id == id;
      var i :| 0 <= i < |nodes| && nodes[i] == c;
      assert scored[i].id == id && scored[i] in scored;
    }
  }

  lemma {:induction false} WorstHears(base: map<string, nat>, edges: seq<Edge>, id: string, r: nat, d: string, s: nat)
    requires IsWorst(base, edges, id, r) && Linked(edges, id, d) && Realised(base, edges, d, s)
    ensures Decay(s) <= r
  {
    RealisedByDependent(base, edges, id, d, s);
  }

  lemma {:induction false} SettledIsBound(base: map<string, nat>, edges: seq<Edge>, nodes: seq<Component>, n: Component)
    requires IsSettled(nodes, edges) && n in nodes
    requires forall m :: m in nodes ==> At(base, m.id) <= m.risk
    requires forall e :: e in edges ==> exists m :: m in nodes && m.id == e.to
    ensures Bounds(base, edges, n.id, n.risk)
  {
    forall w | WalkFrom(edges, w, n.id) ensures Inherited(base, w) <= n.risk {
      SettledWalk(base, edges, nodes, n, w);
    }
  }

  lemma {:induction false} SettledWalk(base: map<string, nat>, edges: seq<Edge>, nodes: seq<Component>, n: Component,
                                       w: seq<string>)
    requires IsSettled(nodes, edges) && n in nodes && WalkFrom(edges, w, n.id)
    requires forall m :: m in nodes ==> At(base, m.id) <= m.risk
    requires forall e :: e in edges ==> exists m :: m in nodes && m.id == e.to
    ensures Inherited(base, w) <= n.risk
    decreases |w|
  {
    if |w| > 1 {
      Tail(base, edges, w);
      var e :| e in edges && e.from == w[0] && e.to == w[1];
      var m :| m in nodes && m.id == w[1];
      SettledWalk(base, edges, nodes, m, w[1..]);
    } else {
      assert w == [n.id];
    }
  }

  const A := Component("A", "Service", "A", "", TypeNetwork, "", "", 0)
  const B := Component("B", "Service", "B", "", TypeNetwork, "", "", 0)
  const LOST := Component("C", "PersistentVolumeClaim", "C", "", TypeStorage, "", "Lost", 0)
  const NODES := [A, B, LOST]
  const EDGES := [Edge("A", "B", DependsOn), Edge("A", "C", DependsOn), Edge("B", "A", DependsOn)]

  lemma {:induction false} LostIsWorst()
    ensures forall id :: At(BaseMap(NODES, map[]), id) == if id == "C" then 90 else 0
  {
    assert NODES[..2] == [A, B] && [A, B][..1] == [A] && [A][..0] == [];
    assert BaseMap([A], map[]) == map["A" := 0];
    assert BaseMap([A, B], map[]) == map["A" := 0, "B" := 0];
    assert BaseMap(NODES, map[]) == map["A" := 0, "B" := 0, "C" := 90];
  }

  lemma {:induction false} TargetsHere()
    ensures Targets(EDGES, "A") == ["B", "C"] && Targets(EDGES, "B") == ["A"] && Targets(EDGES, "C") == []
  {
    assert EDGES[..2] == [EDGES[0], EDGES[1]] && EDGES[..2][..1] == [EDGES[0]] && [EDGES[0]][..0] == [];
    forall id ensures Targets(EDGES, id) == if id == "A" then ["B", "C"] else if id == "B" then ["A"] else [] {
      assert Targets([EDGES[0]], id) == if id == "A" then ["B"] else [];
      assert Targets(EDGES[..2], id) == if id == "A" then ["B", "C"] else [];
    }
  }

  /** Every further hop loses. */
  lemma {:induction false} DecayByFalls(x: nat, hops: nat, more: nat)
    requires hops <= more
    ensures DecayBy(x, more) <= DecayBy(x, hops)
  {
    if hops < more {
      DecayByFalls(x, hops, more - 1);
    }
  }

  /** B depends on A and A on the lost claim, two hops away, so the worst walk from B is worth 32. */
  lemma {:induction false} WorstOfB()
    ensures IsWorst(BaseMap(NODES, map[]), EDGES, "B", 32)
  {
    var base := BaseMap(NODES, map[]);
    LostIsWorst();
    var w := ["B", "A", "C"];
    assert EDGES[2] == Edge("B", "A", DependsOn) && EDGES[1] == Edge("A", "C", DependsOn);
    assert Linked(EDGES, "B", "A") && Linked(EDGES, "A", "C");
    assert WalkFrom(EDGES, w, "B");
    TwoHops();
    assert Inherited(base, w) == 32;
    forall v | WalkFrom(EDGES, v, "B") ensures Inherited(base, v) <= 32 {
      if v[|v| - 1] == "C" {
        assert |v| == 2 ==> Linked(EDGES, v[0], v[1]);
        DecayByFalls(90, 2, |v| - 1);
      } else {
        DecayByFalls(0, 0, |v| - 1);
      }
    }
  }

  lemma {:induction false} TwoHops()
    ensures DecayBy(90, 2) == 32
  {
    assert DecayBy(90, 1) == 54;
  }

  ghost predicate IsHere(base: map<string, nat>, ids: set<string>) {
    && (forall id :: At(base, id) == if id == "C" then 90 else 0)
    && "A" in ids && "B" in ids && "C" in ids && Holds(ids, EDGES)
  }

  /** B asks A, which is still open: the guard answers 0. */
  lemma {:induction false} VisitOfB(base: map<string, nat>, ids: set<string>)
    requires IsHere(base, ids)
    ensures Visit(base, EDGES, ids, map[], {"A"}, "B") == Outcome(map["B" := 0], 0, true)
  {
    hide Visit, Explore, Targets;
    TargetsHere();
    VisitStops(base, EDGES, ids, map[], {"A"} + {"B"}, "A");
    ExploreNext(base, EDGES, ids, map[], {"A"} + {"B"}, ["A"], 0, 0);
    ExploreDone(base, EDGES, ids, map[], {"A"} + {"B"}, 0);
    assert ["A"][0..] == ["A"] && ["A"][1..] == [];
    VisitGoesOn(base, EDGES, ids, map[], {"A"}, "B");
  }

  lemma {:induction false} VisitOfC(base: map<string, nat>, ids: set<string>)
    requires IsHere(base, ids)
    ensures Visit(base, EDGES, ids, map["B" := 0], {"A"}, "C") == Outcome(map["B" := 0, "C" := 90], 90, false)
  {
    hide Visit, Explore, Targets;
    TargetsHere();
    ExploreDone(base, EDGES, ids, map["B" := 0], {"A"} + {"C"}, 90);
    VisitGoesOn(base, EDGES, ids, map["B" := 0], {"A"}, "C");
  }

  lemma {:induction false} VisitOfA(base: map<string, nat>, ids: set<string>)
    requires IsHere(base, ids)
    ensures Visit(base, EDGES, ids, map[], {}, "A") == Outcome(map["B" := 0, "C" := 90, "A" := 54], 54, true)
  {
    hide Visit, Explore, Targets;
    TargetsHere();
    VisitOfB(base, ids);
    VisitOfC(base, ids);
    var ds, memo := ["B", "C"], map["B" := 0, "C" := 90];
    assert ds[0..] == ds && ds[2..] == [] && {} + {"A"} == {"A"};
    ExploreNext(base, EDGES, ids, map[], {"A"}, ds, 0, 0);
    ExploreNext(base, EDGES, ids, map["B" := 0], {"A"}, ds, 1, 0);
    ExploreDone(base, EDGES, ids, memo, {"A"}, 54);
    VisitGoesOn(base, EDGES, ids, map[], {}, "A");
  }

  lemma {:induction false} RisksHere(base: map<string, nat>, ids: set<string>)
    requires IsHere(base, ids)
    ensures (forall c :: c in NODES ==> c.id in ids) && Risks(base, EDGES, ids, map[], NODES) == [54, 0, 90]
  {
    VisitOfA(base, ids);
    var memo := map["B" := 0, "C" := 90, "A" := 54];
    VisitStops(base, EDGES, ids, memo, {}, "B");
    VisitStops(base, EDGES, ids, memo, {}, "C");
    hide Visit, Explore, Targets, IsHere;
    RisksNext(base, EDGES, ids, map[], NODES, 0);
    RisksNext(base, EDGES, ids, memo, NODES, 1);
    RisksNext(base, EDGES, ids, memo, NODES, 2);
    assert NODES[3..] == [] && NODES[0..] == NODES;
  }

  /** Scoring starts at A, and B is memoised from A's base risk alone, 0, which it keeps although A then
      turns out to be worth 54. */
  lemma {:induction false} CycleIsUnderrated()
    ensures Scores(NODES, EDGES, map[]) == [54, 0, 90]
    ensures IsWorst(BaseMap(NODES, map[]), EDGES, "B", 32)
  {
    WorstOfB();
    LostIsWorst();
    AreSearched(NODES, EDGES);
    assert A in NODES && B in NODES && LOST in NODES;
    hide BaseMap, Searched, Risks, IsWorst;
    RisksHere(BaseMap(NODES, map[]), Searched(NODES, EDGES));
  }
}
