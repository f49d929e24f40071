/** Components at risk, where their risk comes from, and what depends on them. */
module AtRiskReport {
  import opened Collections
  import opened Components
  import opened NamespaceRisks
  import opened Ordering
  import opened RiskSearch
  import opened RiskEngine
  import opened Walks

  datatype AtRiskComponent = AtRiskComponent(
    id: string, kind: string, name: string, namespace: string, status: string, risk: nat,
    inheritedFrom: string, dependents: seq<string>)

  /** What directly depends on id, in edge order. */
  function Sources(edges: seq<Edge>, id: string): seq<string> {
    if edges == [] then []
    else
      var last := edges[|edges| - 1];
      Sources(edges[..|edges| - 1], id) + (if last.to == id then [last.from] else [])
  }

  lemma {:induction false} SourcesAreLinked(edges: seq<Edge>, id: string)
    ensures forall d :: d in Sources(edges, id) <==> Linked(edges, d, id)
  {
    if edges != [] {
      var rest, last := edges[..|edges| - 1], edges[|edges| - 1];
      assert edges == rest + [last];
      SourcesAreLinked(rest, id);
      forall d ensures Linked(edges, d, id) <==> Linked(rest, d, id) || (last.to == id && last.from == d) {
        if Linked(rest, d, id) {
          var e :| e in rest && e.from == d && e.to == id;
          assert e in edges;
        }
      }
    }
  }

  method ReverseEdges(edges: seq<Edge>) returns (rdeps: map<string, seq<string>>)
    ensures forall id :: ListAt(rdeps, id) == Sources(edges, id)
  {
    rdeps := map[];
    for i := 0 to |edges|
      invariant forall id :: ListAt(rdeps, id) == Sources(edges[..i], id)
    {
      var e := edges[i];
      assert edges[..i + 1][..i] == edges[..i];
      rdeps := rdeps[e.to := ListAt(rdeps, e.to) + [e.from]];
    }
    assert edges[..|edges|] == edges;
  }

  /** Nothing outside s depends directly on a member of s. */
  ghost predicate Closed(edges: seq<Edge>, s: set<string>) {
    forall a, b :: Linked(edges, a, b) && b in s ==> a in s
  }

  lemma {:induction false} ClosedHoldsWalks(edges: seq<Edge>, s: set<string>, w: seq<string>)
    requires Closed(edges, s) && IsWalk(edges, w) && w[|w| - 1] in s
    ensures w[0] in s
  {
    if |w| > 1 {
      Tail(map[], edges, w);
      ClosedHoldsWalks(edges, s, w[1..]);
    }
  }

  lemma {:induction false} ClosedHoldsAll(edges: seq<Edge>, s: set<string>, id: string)
    requires Closed(edges, s) && id in s
    ensures forall d :: Reaches(edges, d, id) ==> d in s
  {
    forall d | Reaches(edges, d, id) ensures d in s {
      var w :| WalkFrom(edges, w, d) && |w| > 1 && w[|w| - 1] == id;
      ClosedHoldsWalks(edges, s, w);
    }
  }

  /** One more hop before a component that is id or reaches it. */
  lemma {:induction false} ReachesNext(edges: seq<Edge>, d: string, cur: string, id: string)
    requires Linked(edges, d, cur) && (cur == id || Reaches(edges, cur, id))
    ensures Reaches(edges, d, id)
  {
    var w: seq<string>;
    if cur == id {
      w := [id];
    } else {
      w :| WalkFrom(edges, w, cur) && |w| > 1 && w[|w| - 1] == id;
    }
    Prepend(map[], edges, d, w);
  }

  /** The state of the breadth-first walk: what is out has been found and reaches id, and a component
      whose dependents may still be missing is waiting in the queue or being expanded. */
  ghost predicate Exploring(edges: seq<Edge>, id: string, seen: set<string>, queue: seq<string>, open: set<string>,
                            out: seq<string>) {
    && id in seen && id !in out
    && (forall d :: d in seen <==> d == id || d in out)
    && Distinct(out)
    && (forall d :: d in out ==> Reaches(edges, d, id))
    && (forall d :: d in queue ==> d in seen)
    && (forall a, b :: Linked(edges, a, b) && b in seen && b !in queue && b !in open ==> a in seen)
  }

  /** Everything that depends on id, directly or transitively, on any graph: cycles are cut by the
      seen set, and id itself is never listed. */
  method DependentsOf(rdeps: map<string, seq<string>>, id: string, ghost edges: seq<Edge>) returns (out: seq<string>)
    requires forall k :: ListAt(rdeps, k) == Sources(edges, k)
    ensures StrictlySorted(out)
    ensures forall d :: d in out <==> d != id && Reaches(edges, d, id)
  {
    hide Linked, Reaches, Sources, Distinct;
    var seen := {id};
    var queue := [id];
    out := [];
    ghost var universe := {id} + set e | e in edges :: e.from;
    NothingFound(edges, id);
    while |queue| > 0
      invariant Exploring(edges, id, seen, queue, {}, out)
      invariant seen <= universe
      decreases universe - seen, |queue|
    {
      var cur := queue[0];
      assert queue == [cur] + queue[1..];
      queue := queue[1..];
      var ds := ListAt(rdeps, cur);
      SourcesAreLinked(edges, cur);
      ghost var before := |queue|;
      ghost var known := seen;
      for i := 0 to |ds|
        invariant Exploring(edges, id, seen, queue, {cur}, out) && cur in seen
        invariant known <= seen <= universe
        invariant seen == known ==> |queue| == before
        invariant forall j :: 0 <= j < i ==> ds[j] in seen
      {
        var d := ds[i];
        if d !in seen {
          LinkedFrom(edges, d, cur);
          Found(edges, id, seen, queue, cur, out, d);
          seen := seen + {d};
          out := out + [d];
          queue := queue + [d];
        }
      }
      assert forall a :: Linked(edges, a, cur) ==> a in seen;
    }
    assert Closed(edges, seen);
    ClosedHoldsAll(edges, seen, id);
    SortStringsSorts(out);
    SameMembers(SortStrings(out), out);
    out := SortStrings(out);
  }

  lemma {:induction false} NothingFound(edges: seq<Edge>, id: string)
    ensures Exploring(edges, id, {id}, [id], {}, [])
  {
  }

  lemma {:induction false} LinkedFrom(edges: seq<Edge>, d: string, cur: string)
    requires Linked(edges, d, cur)
    ensures exists e :: e in edges && e.from == d
  {
  }

  lemma {:induction false} Found(edges: seq<Edge>, id: string, seen: set<string>, queue: seq<string>, cur: string,
                                 out: seq<string>, d: string)
    requires Exploring(edges, id, seen, queue, {cur}, out)
    requires cur in seen && d !in seen && Linked(edges, d, cur)
    ensures Exploring(edges, id, seen + {d}, queue + [d], {cur}, out + [d])
  {
    hide Linked, Reaches;
    ReachesNext(edges, d, cur, id);
  }

  /** Which of ids has the highest risk; of those with the same risk, the first in string order. */
  ghost predicate IsRiskiest(ids: seq<string>, risk: map<string, nat>, best: string) {
    best in ids
    && forall d :: d in ids ==> At(risk, d) < At(risk, best) || (At(risk, d) == At(risk, best) && AtMost(best, d))
  }

  /** The empty string stands for "none yet", so it must not be an id. */
  method Riskiest(ids: seq<string>, risk: map<string, nat>) returns (best: string)
    ensures ids == [] ==> best == ""
    ensures ids != [] && "" !in ids ==> IsRiskiest(ids, risk, best)
  {
    best := "";
    for i := 0 to |ids|
      invariant i == 0 ==> best == ""
      invariant i > 0 && "" !in ids ==> IsRiskiest(ids[..i], risk, best)
    {
      var id := ids[i];
      TakeNext(ids, i);
      if i > 0 && "" !in ids {
        RiskiestNext(ids[..i], risk, best, id);
      }
      if best == "" || At(risk, id) > At(risk, best) || (At(risk, id) == At(risk, best) && Below(id, best)) {
        best := id;
      }
    }
    assert ids[..|ids|] == ids;
  }

  lemma {:induction false} RiskiestNext(ids: seq<string>, risk: map<string, nat>, best: string, id: string)
    requires IsRiskiest(ids, risk, best)
    ensures IsRiskiest(ids + [id], risk,
                       if At(risk, id) > At(risk, best) || (At(risk, id) == At(risk, best) && Below(id, best))
                       then id else best)
  {
    AtMostIsOrder();
  }

  /** The scored risks by id; a repeated id keeps the last one. */
  function RiskMap(nodes: seq<Component>): map<string, nat> {
    if nodes == [] then map[]
    else RiskMap(nodes[..|nodes| - 1])[nodes[|nodes| - 1].id := nodes[|nodes| - 1].risk]
  }

  /** What the report says of an at-risk node: its dependents, and the direct dependency its risk comes
      from when its own base risk is lower. */
  ghost predicate Reports(nodes: seq<Component>, edges: seq<Edge>, addonStatus: map<string, AddonStatus>,
                          c: AtRiskComponent, n: Component) {
    && c.id == n.id && c.kind == n.kind && c.name == n.name && c.namespace == n.namespace
    && c.status == n.status && c.risk == n.risk
    && StrictlySorted(c.dependents)
    && (forall d :: d in c.dependents <==> d != n.id && Reaches(edges, d, n.id))
    && (if BaseRisk(n, addonStatus) >= n.risk || Targets(edges, n.id) == []
        then c.inheritedFrom == ""
        else "" !in Targets(edges, n.id) ==> IsRiskiest(Targets(edges, n.id), RiskMap(nodes), c.inheritedFrom))
  }

  /** Highest risk first, then by id. */
  predicate Earlier(a: AtRiskComponent, b: AtRiskComponent) {
    a.risk > b.risk || (a.risk == b.risk && AtMost(a.id, b.id))
  }

  /** One entry per at-risk node, whatever the order of the entries. */
  ghost predicate Lists(nodes: seq<Component>, edges: seq<Edge>, addonStatus: map<string, AddonStatus>,
                        entries: seq<AtRiskComponent>, atRisk: seq<Component>) {
    && |entries| == |atRisk|
    && forall i :: 0 <= i < |entries| ==> Reports(nodes, edges, addonStatus, entries[i], atRisk[i])
  }

  ghost predicate IsAtRiskList(nodes: seq<Component>, edges: seq<Edge>, addonStatus: map<string, AddonStatus>,
                               out: seq<AtRiskComponent>) {
    && SortedBy(Earlier, out)
    && exists entries :: Lists(nodes, edges, addonStatus, entries, AtRiskNodes(nodes))
                         && multiset(out) == multiset(entries)
  }

  lemma {:induction false} EarlierIsOrder()
    ensures TotalPreorder(Earlier)
  {
    AtMostIsOrder();
  }

  method AtRisk(g: Graph, addonStatus: map<string, AddonStatus>) returns (out: seq<AtRiskComponent>)
    ensures IsAtRiskList(g.nodes, g.edges, addonStatus, out)
    ensures |out| == |AtRiskNodes(g.nodes)|
  {
    hide Reports, Linked, Reaches, Sources, Targets;
    var risk: map<string, nat> := map[];
    for i := 0 to |g.nodes|
      invariant risk == RiskMap(g.nodes[..i])
    {
      assert g.nodes[..i + 1][..i] == g.nodes[..i];
      risk := risk[g.nodes[i].id := g.nodes[i].risk];
    }
    assert g.nodes[..|g.nodes|] == g.nodes;
    var deps := Adjacency(g.edges);
    var rdeps := ReverseEdges(g.edges);
    var entries: seq<AtRiskComponent> := [];
    for i := 0 to |g.nodes|
      invariant Lists(g.nodes, g.edges, addonStatus, entries, AtRiskNodes(g.nodes[..i]))
    {
      var n := g.nodes[i];
      TakeNext(g.nodes, i);
      if n.risk < AT_RISK_THRESHOLD {
        continue;
      }
      var dependents := DependentsOf(rdeps, n.id, g.edges);
      var inherited := "";
      if BaseRisk(n, addonStatus) < n.risk {
        inherited := Riskiest(ListAt(deps, n.id), risk);
      }
      var c := AtRiskComponent(n.id, n.kind, n.name, n.namespace, n.status, n.risk, inherited, dependents);
      assert Reports(g.nodes, g.edges, addonStatus, c, n) by {
        ReportsIs(g.nodes, g.edges, addonStatus, c, n);
      }
      entries := entries + [c];
    }
    EarlierIsOrder();
    SortKeeps(Earlier, entries);
    SortSorts(Earlier, entries);
    out := SortBy(Earlier, entries);
    SameMembers(out, entries);
  }

  lemma {:induction false} ReportsIs(nodes: seq<Component>, edges: seq<Edge>, addonStatus: map<string, AddonStatus>,
                  c: AtRiskComponent, n: Component)
    requires c == AtRiskComponent(n.id, n.kind, n.name, n.namespace, n.status, n.risk, c.inheritedFrom, c.dependents)
    requires StrictlySorted(c.dependents)
    requires forall d :: d in c.dependents <==> d != n.id && Reaches(edges, d, n.id)
    requires BaseRisk(n, addonStatus) >= n.risk || Targets(edges, n.id) == [] ==> c.inheritedFrom == ""
    requires !(BaseRisk(n, addonStatus) >= n.risk || Targets(edges, n.id) == []) && "" !in Targets(edges, n.id) ==>
               IsRiskiest(Targets(edges, n.id), RiskMap(nodes), c.inheritedFrom)
    ensures Reports(nodes, edges, addonStatus, c, n)
  {
  }

  /** The list has an entry for every node at 50 or above and for no other, the highest risk first and then the
      smallest id. */
  lemma {:induction false} ListMembers(nodes: seq<Component>, edges: seq<Edge>, addonStatus: map<string, AddonStatus>,
                                       out: seq<AtRiskComponent>)
    requires IsAtRiskList(nodes, edges, addonStatus, out)
    ensures forall n :: n in nodes && n.risk >= 50 ==> exists c :: c in out && Reports(nodes, edges, addonStatus, c, n)
    ensures forall c :: c in out ==> exists n :: n in nodes && n.risk >= 50 && Reports(nodes, edges, addonStatus, c, n)
    ensures forall i, j :: 0 <= i < j < |out| ==>
              out[i].risk > out[j].risk || (out[i].risk == out[j].risk && AtMost(out[i].id, out[j].id))
  {
    hide Reports;
    FilterMember(IsAtRisk, nodes);
    var atRisk := AtRiskNodes(nodes);
    var entries :| Lists(nodes, edges, addonStatus, entries, atRisk) && multiset(out) == multiset(entries);
    SameMembers(out, entries);
    forall n | n in nodes && n.risk >= 50 ensures exists c :: c in out && Reports(nodes, edges, addonStatus, c, n) {
      assert n in atRisk;
      var i :| 0 <= i < |atRisk| && atRisk[i] == n;
      assert entries[i] in out;
    }
    forall c | c in out ensures exists n :: n in nodes && n.risk >= 50 && Reports(nodes, edges, addonStatus, c, n) {
      var i :| 0 <= i < |entries| && entries[i] == c;
      assert atRisk[i] in nodes;
    }
  }
}
