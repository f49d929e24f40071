/** Component risk aggregated by namespace. */
module NamespaceRisks {
  import opened Collections
  import opened Components

  const AT_RISK_THRESHOLD: nat := 50

  datatype NamespaceRisk = NamespaceRisk(namespace: string, risk: nat, components: nat, atRisk: nat)

  /** Cluster nodes sit above namespaces; an unset namespace is the default one. */
  function NamespaceBucket(c: Component): string {
    if c.ctype == TypeInfra then "cluster-scoped"
    else if c.namespace == "" then "default"
    else c.namespace
  }

  predicate IsAtRisk(c: Component) {
    c.risk >= AT_RISK_THRESHOLD
  }

  /** The components that aggregate into a bucket. */
  function InBucket(nodes: seq<Component>, ns: string): seq<Component> {
    Filter((c: Component) => NamespaceBucket(c) == ns, nodes)
  }

  function AtRiskNodes(nodes: seq<Component>): seq<Component> {
    Filter(IsAtRisk, nodes)
  }

  /** The highest risk, or 0 when none is positive. */
  function MaxRisk(nodes: seq<Component>): nat {
    if nodes == [] then 0 else Max(MaxRisk(nodes[..|nodes| - 1]), nodes[|nodes| - 1].risk)
  }

  /** The buckets in the order of their first component. */
  function Buckets(nodes: seq<Component>): seq<string> {
    if nodes == [] then []
    else
      var rest, ns := Buckets(nodes[..|nodes| - 1]), NamespaceBucket(nodes[|nodes| - 1]);
      if ns in rest then rest else rest + [ns]
  }

  function Summary(nodes: seq<Component>, ns: string): NamespaceRisk {
    var members := InBucket(nodes, ns);
    NamespaceRisk(ns, MaxRisk(members), |members|, |AtRiskNodes(members)|)
  }

  function Summaries(nodes: seq<Component>): seq<NamespaceRisk> {
    Map((ns: string) => Summary(nodes, ns), Buckets(nodes))
  }

  /** A bucket's running totals. */
  class Totals {
    var risk: nat
    var count: nat
    var atRisk: nat

    constructor ()
      ensures risk == 0 && count == 0 && atRisk == 0
    {
      risk, count, atRisk := 0, 0, 0;
    }
  }

  ghost predicate Tracks(a: Totals, s: NamespaceRisk)
    reads a
  {
    a.risk == s.risk && a.count == s.components && a.atRisk == s.atRisk
  }

  /** Each bucket has totals of its own, and they are right for the components seen so far. */
  ghost predicate AllTracked(byNS: map<string, Totals>, nodes: seq<Component>)
    reads byNS.Values
  {
    && (forall ns :: ns in byNS <==> ns in Buckets(nodes))
    && (forall ns :: ns in byNS ==> Tracks(byNS[ns], Summary(nodes, ns)))
    && (forall ns, ns' :: ns in byNS && ns' in byNS && ns != ns' ==> byNS[ns] != byNS[ns'])
  }

  /** Counts one component into its bucket. */
  method CountInto(a: Totals, n: Component, ghost s: NamespaceRisk)
    requires Tracks(a, s)
    modifies a
    ensures Tracks(a, Counted(s, n))
  {
    a.count := a.count + 1;
    if n.risk > a.risk {
      a.risk := n.risk;
    }
    if n.risk >= AT_RISK_THRESHOLD {
      a.atRisk := a.atRisk + 1;
    }
  }

  method AggregateByNamespace(nodes: seq<Component>) returns (out: seq<NamespaceRisk>)
    ensures out == Summaries(nodes)
  {
    hide Buckets, Summary, Counted;
    var byNS: map<string, Totals> := map[];
    var order: seq<string> := [];
    NoBuckets(nodes);
    for i := 0 to |nodes|
      invariant order == Buckets(nodes[..i])
      invariant AllTracked(byNS, nodes[..i])
      invariant forall ns :: ns in byNS ==> fresh(byNS[ns])
    {
      var ns := NamespaceBucket(nodes[i]);
      SummaryNext(nodes, i);
      if ns !in byNS {
        EmptySummary(nodes[..i], ns);
        var a := new Totals();
        byNS := byNS[ns := a];
        order := order + [ns];
      }
      CountInto(byNS[ns], nodes[i], Summary(nodes[..i], ns));
    }
    assert nodes[..|nodes|] == nodes;
    out := ListTotals(byNS, order, nodes);
  }

  method ListTotals(byNS: map<string, Totals>, order: seq<string>, ghost nodes: seq<Component>)
    returns (out: seq<NamespaceRisk>)
    requires AllTracked(byNS, nodes) && order == Buckets(nodes)
    ensures out == Summaries(nodes)
  {
    hide Buckets, Summary;
    out := [];
    ghost var summarise := (ns: string) => Summary(nodes, ns);
    for i := 0 to |order|
      invariant out == Map(summarise, order[..i])
    {
      MapNext(summarise, order, i);
      assert order[i] in byNS;
      SummaryNames(nodes, order[i]);
      var a := byNS[order[i]];
      out := out + [NamespaceRisk(order[i], a.risk, a.count, a.atRisk)];
    }
    assert order[..|order|] == order;
  }

  lemma {:induction false} SummaryNames(nodes: seq<Component>, ns: string)
    ensures Summary(nodes, ns).namespace == ns
  {
  }

  lemma {:induction false} NoBuckets(nodes: seq<Component>)
    ensures Buckets(nodes[..0]) == []
  {
  }

  function Counted(s: NamespaceRisk, c: Component): NamespaceRisk {
    NamespaceRisk(s.namespace, Max(s.risk, c.risk), s.components + 1, s.atRisk + if IsAtRisk(c) then 1 else 0)
  }

  lemma {:induction false} SummaryNext(nodes: seq<Component>, i: nat)
    requires i < |nodes|
    ensures forall ns :: Summary(nodes[..i + 1], ns)
                      == if NamespaceBucket(nodes[i]) == ns
                         then Counted(Summary(nodes[..i], ns), nodes[i])
                         else Summary(nodes[..i], ns)
    ensures Buckets(nodes[..i + 1])
         == if NamespaceBucket(nodes[i]) in Buckets(nodes[..i])
            then Buckets(nodes[..i])
            else Buckets(nodes[..i]) + [NamespaceBucket(nodes[i])]
  {
    TakeNext(nodes, i);
    forall ns
      ensures Summary(nodes[..i + 1], ns)
           == if NamespaceBucket(nodes[i]) == ns
              then Counted(Summary(nodes[..i], ns), nodes[i])
              else Summary(nodes[..i], ns)
    {
      var m := InBucket(nodes[..i], ns);
      if NamespaceBucket(nodes[i]) == ns {
        assert InBucket(nodes[..i + 1], ns) == m + [nodes[i]];
        assert (m + [nodes[i]])[..|m + [nodes[i]]| - 1] == m;
      }
    }
  }

  /** A component is in a bucket that is listed. */
  lemma {:induction false} EmptySummary(nodes: seq<Component>, ns: string)
    requires ns !in Buckets(nodes)
    ensures Summary(nodes, ns) == NamespaceRisk(ns, 0, 0, 0)
  {
    if nodes != [] {
      var rest, last := nodes[..|nodes| - 1], nodes[|nodes| - 1];
      EmptySummary(rest, ns);
    }
  }
}
