/** Base risk, its propagation along the dependency edges, and the write-back onto the nodes. */
module RiskEngine {
  import opened Collections
  import opened Components
  import opened Walks
  import opened RiskSearch
  import opened NamespaceRisks
  import Doubles

  /** A component's intrinsic risk. An add-on without a status has none. */
  function BaseRisk(c: Component, addonStatus: map<string, AddonStatus>): (r: nat)
    ensures r in {0, 10, 40, 50, 60, 70, 90}
  {
    match c.ctype
    case TypeAddon =>
      if c.name !in addonStatus then 0
      else (match addonStatus[c.name]
            case Incompatible => 90
            case Unknown => 40
            case Compatible => 0)
    case TypeWorkload =>
      if c.status == "Down" || c.status == "Failed" then 70
      else if "Degraded" <= c.status then 40
      else if c.status == "Scaled to zero" then 10
      else 0
    case TypeInfra => if c.status == "NotReady" then 60 else 0
    case TypeStorage => if c.status == "Lost" then 90 else if c.status == "Pending" then 50 else 0
    case TypeNetwork => 0
    case TypeConfig => 0
  }

  /** The base risks by id; a repeated id keeps the last one. */
  function BaseMap(nodes: seq<Component>, addonStatus: map<string, AddonStatus>): map<string, nat> {
    if nodes == [] then map[]
    else
      var last := nodes[|nodes| - 1];
      BaseMap(nodes[..|nodes| - 1], addonStatus)[last.id := BaseRisk(last, addonStatus)]
  }

  lemma {:induction false} BaseMapValues(nodes: seq<Component>, addonStatus: map<string, AddonStatus>)
    ensures forall id :: At(BaseMap(nodes, addonStatus), id) in {0, 10, 40, 50, 60, 70, 90}
  {
    if nodes != [] {
      var rest, last := nodes[..|nodes| - 1], nodes[|nodes| - 1];
      BaseMapValues(rest, addonStatus);
      forall id ensures At(BaseMap(nodes, addonStatus), id)
                     == if id == last.id then BaseRisk(last, addonStatus) else At(BaseMap(rest, addonStatus), id) {
      }
    }
  }

  /** With unique ids every component finds its own base risk, and any other id finds none. */
  lemma {:induction false} BaseMapAt(nodes: seq<Component>, addonStatus: map<string, AddonStatus>)
    requires UniqueIds(nodes)
    ensures forall c :: c in nodes ==> At(BaseMap(nodes, addonStatus), c.id) == BaseRisk(c, addonStatus)
    ensures forall id :: id !in Ids(nodes) ==> At(BaseMap(nodes, addonStatus), id) == 0
  {
    if nodes != [] {
      var rest, last := nodes[..|nodes| - 1], nodes[|nodes| - 1];
      assert nodes == rest + [last];
      BaseMapAt(rest, addonStatus);
    }
  }

  /** The list a map holds under a key; a missing key reads as the empty list. */
  function ListAt(lists: map<string, seq<string>>, id: string): seq<string> {
    if id in lists then lists[id] else []
  }

  /** From depends on To. */
  method Adjacency(edges: seq<Edge>) returns (deps: map<string, seq<string>>)
    ensures forall id :: ListAt(deps, id) == Targets(edges, id)
  {
    deps := map[];
    for i := 0 to |edges|
      invariant forall id :: ListAt(deps, id) == Targets(edges[..i], id)
    {
      var e := edges[i];
      assert edges[..i + 1][..i] == edges[..i];
      deps := deps[e.from := ListAt(deps, e.from) + [e.to]];
    }
    assert edges[..|edges|] == edges;
  }

  /** The memo and the ids being visited, as one scoring shares them between its searches. */
  class Search {
    const base: map<string, nat>
    const deps: map<string, seq<string>>
    var eff: map<string, nat>
    var visiting: set<string>
    ghost const edges: seq<Edge>
    ghost const ids: set<string>

    /** deps lists what edges say, and no risk is above 90. */
    ghost predicate Valid()
      reads this
    {
      && (forall id :: ListAt(deps, id) == Targets(edges, id))
      && Holds(ids, edges)
      && (forall id :: At(base, id) <= 90)
      && (forall id :: id in eff ==> eff[id] <= 90)
    }

    constructor (base: map<string, nat>, deps: map<string, seq<string>>, ghost edges: seq<Edge>, ghost ids: set<string>)
      requires forall id :: ListAt(deps, id) == Targets(edges, id)
      requires Holds(ids, edges)
      requires forall id :: At(base, id) <= 90
      ensures Valid() && eff == map[] && visiting == {}
      ensures this.base == base && this.edges == edges && this.ids == ids
    {
      this.base, this.deps, this.edges, this.ids := base, deps, edges, ids;
      eff, visiting := map[], {};
    }

    /** One call of the search: it terminates on every graph and leaves the visited ids as it found them. */
    method Compute(id: string) returns (r: nat)
      requires Valid() && id in ids
      modifies this`eff, this`visiting
      ensures Valid() && visiting == old(visiting) && r <= 90
      ensures var o := Visit(base, edges, ids, old(eff), visiting, id); eff == o.eff && r == o.risk
      decreases ids - eff.Keys - visiting
    {
      hide Targets, Visit, Explore;
      VisitStops(base, edges, ids, eff, visiting, id);
      if id in eff {
        return eff[id];
      }
      if id in visiting {
        return At(base, id);
      }
      TargetsAreIds(edges, id, ids);
      VisitGoesOn(base, edges, ids, eff, visiting, id);
      visiting := visiting + {id};
      var best := At(base, id);
      var ds := ListAt(deps, id);
      ghost var found := Explore(base, edges, ids, eff, visiting, ds, best);
      for i := 0 to |ds|
        invariant Valid() && visiting == old(visiting) + {id} && best <= 90
        invariant old(eff).Keys <= eff.Keys
        invariant var rest := Explore(base, edges, ids, eff, visiting, ds[i..], best);
                  found.eff == rest.eff && found.risk == rest.risk
      {
        ExploreNext(base, edges, ids, eff, visiting, ds, i, best);
        var risk := Compute(ds[i]);
        Doubles.SixTenthsIsExact(risk);
        var inherited := Doubles.TruncatedProduct(risk, Doubles.SIX_TENTHS);
        if inherited > best {
          best := inherited;
        }
      }
      ExploreDone(base, edges, ids, eff, visiting, best);
      visiting := visiting - {id};
      eff := eff[id := best];
      return best;
    }
  }

  /** The same components in the same order, whatever their risks. */
  ghost predicate SameComponents(nodes: seq<Component>, nodes': seq<Component>) {
    && |nodes| == |nodes'|
    && forall i :: 0 <= i < |nodes| ==> nodes[i].(risk := 0) == nodes'[i].(risk := 0)
  }

  method BaseRisks(nodes: seq<Component>, addonStatus: map<string, AddonStatus>) returns (base: map<string, nat>)
    ensures base == BaseMap(nodes, addonStatus)
  {
    hide BaseRisk;
    base := map[];
    BaseMapNext(nodes, 0, addonStatus);
    for i := 0 to |nodes|
      invariant base == BaseMap(nodes[..i], addonStatus)
    {
      BaseMapNext(nodes, i, addonStatus);
      base := base[nodes[i].id := BaseRisk(nodes[i], addonStatus)];
    }
  }

  /** The ids a search can visit. */
  ghost function Searched(nodes: seq<Component>, edges: seq<Edge>): set<string> {
    Ids(nodes) + set e | e in edges :: e.to
  }

  /** The risks of the nodes in order, the memo carried from each to the next. */
  ghost function Risks(base: map<string, nat>, edges: seq<Edge>, ids: set<string>, eff: map<string, nat>,
                       nodes: seq<Component>): (risks: seq<nat>)
    requires (forall c :: c in nodes ==> c.id in ids) && Holds(ids, edges)
    ensures |risks| == |nodes|
    decreases |nodes|
  {
    if nodes == [] then []
    else
      var o := Visit(base, edges, ids, eff, {}, nodes[0].id);
      [o.risk] + Risks(base, edges, ids, o.eff, nodes[1..])
  }

  /** The risks that scoring gives the nodes of any graph. */
  ghost function Scores(nodes: seq<Component>, edges: seq<Edge>,
                        addonStatus: map<string, AddonStatus>): (risks: seq<nat>)
    ensures |risks| == |nodes|
  {
    AreSearched(nodes, edges);
    Risks(BaseMap(nodes, addonStatus), edges, Searched(nodes, edges), map[], nodes)
  }

  /** The nodes of any graph, scored. */
  ghost function Scored(nodes: seq<Component>, edges: seq<Edge>,
                        addonStatus: map<string, AddonStatus>): (scored: seq<Component>)
    ensures SameComponents(scored, nodes)
  {
    var risks := Scores(nodes, edges, addonStatus);
    seq(|nodes|, i requires 0 <= i < |nodes| => nodes[i].(risk := risks[i]))
  }

  lemma {:induction false} AreSearched(nodes: seq<Component>, edges: seq<Edge>)
    ensures forall c :: c in nodes ==> c.id in Searched(nodes, edges)
    ensures Holds(Searched(nodes, edges), edges)
  {
    IdsMember(nodes);
  }

  lemma {:induction false} RisksNext(base: map<string, nat>, edges: seq<Edge>, ids: set<string>,
                                     eff: map<string, nat>, nodes: seq<Component>, i: nat)
    requires i < |nodes| && (forall c :: c in nodes ==> c.id in ids) && Holds(ids, edges)
    ensures var o := Visit(base, edges, ids, eff, {}, nodes[i].id);
            Risks(base, edges, ids, eff, nodes[i..]) == [o.risk] + Risks(base, edges, ids, o.eff, nodes[i + 1..])
  {
    assert nodes[i..][1..] == nodes[i + 1..];
  }

  lemma {:induction false} RisksAreRight(base: map<string, nat>, edges: seq<Edge>, ids: set<string>,
                                         eff: map<string, nat>, nodes: seq<Component>)
    requires (forall c :: c in nodes ==> c.id in ids) && Holds(ids, edges) && MemoIsRisk(base, edges, eff)
    ensures var risks := Risks(base, edges, ids, eff, nodes);
            forall i :: 0 <= i < |nodes| ==>
              IsRisk(base, edges, nodes[i].id, risks[i]) && Hears(base, edges, nodes[i].id, risks[i])
    decreases |nodes|
  {
    hide Visit, IsRisk, Hears;
    if nodes != [] {
      OnPathAlone(edges, nodes[0].id);
      VisitIsRisk(base, edges, ids, eff, {}, nodes[0].id, [nodes[0].id]);
      RisksAreRight(base, edges, ids, Visit(base, edges, ids, eff, {}, nodes[0].id).eff, nodes[1..]);
    }
  }

  /** Every node of every graph gets a risk between its base risk and 90 that some walk passes on and that
      is no less than the base risks one hop away pass on; where no walk from it loops, the worst of them. */
  lemma {:induction false} ScoredIsRight(nodes: seq<Component>, edges: seq<Edge>, addonStatus: map<string, AddonStatus>)
    ensures var base := BaseMap(nodes, addonStatus);
            forall n :: n in Scored(nodes, edges, addonStatus) ==>
              IsRisk(base, edges, n.id, n.risk) && Hears(base, edges, n.id, n.risk)
  {
    hide IsRisk, Hears, BaseMap, Searched, Risks;
    AreSearched(nodes, edges);
    BaseMapValues(nodes, addonStatus);
    RisksAreRight(BaseMap(nodes, addonStatus), edges, Searched(nodes, edges), map[], nodes);
  }

  /** Scores every node and returns the per-namespace summaries. */
  method ApplyRisk(g: Graph, addonStatus: map<string, AddonStatus>) returns (summaries: seq<NamespaceRisk>)
    modifies g`nodes
    ensures g.nodes == Scored(old(g.nodes), g.edges, addonStatus)
    ensures summaries == Summaries(g.nodes)
  {
    hide Targets, BaseMap, Ids, Searched, Summaries, Visit, Risks;
    var base := BaseRisks(g.nodes, addonStatus);
    BaseMapValues(g.nodes, addonStatus);
    var deps := Adjacency(g.edges);
    ghost var before, ids := g.nodes, Searched(g.nodes, g.edges);
    AreSearched(before, g.edges);
    ghost var scores := Scores(before, g.edges, addonStatus);
    var search := new Search(base, deps, g.edges, ids);
    assert before[0..] == before;
    for i := 0 to |g.nodes|
      invariant search.Valid() && search.visiting == {}
      invariant search.base == base && search.edges == g.edges && search.ids == ids
      invariant |g.nodes| == |before|
      invariant forall k :: 0 <= k < i ==> g.nodes[k] == before[k].(risk := scores[k])
      invariant forall k :: i <= k < |before| ==> g.nodes[k] == before[k]
      invariant scores[i..] == Risks(base, g.edges, ids, search.eff, before[i..])
    {
      RisksNext(base, g.edges, ids, search.eff, before, i);
      var r := search.Compute(g.nodes[i].id);
      g.nodes := g.nodes[i := g.nodes[i].(risk := r)];
    }
    summaries := AggregateByNamespace(g.nodes);
  }

  lemma {:induction false} BaseMapNext(nodes: seq<Component>, i: nat, addonStatus: map<string, AddonStatus>)
    ensures BaseMap(nodes[..0], addonStatus) == map[]
    ensures nodes[..|nodes|] == nodes
    ensures i < |nodes| ==>
              BaseMap(nodes[..i + 1], addonStatus)
              == BaseMap(nodes[..i], addonStatus)[nodes[i].id := BaseRisk(nodes[i], addonStatus)]
  {
    if i < |nodes| {
      TakeNext(nodes, i);
    }
  }
}
