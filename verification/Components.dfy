/** The generic component graph: components, directed dependency edges, and component ids. */
module Components {
  import opened Collections

  datatype ComponentType = TypeWorkload | TypeNetwork | TypeAddon | TypeConfig | TypeStorage | TypeInfra

  datatype Component = Component(
    id: string, kind: string, name: string, namespace: string,
    ctype: ComponentType, version: string, status: string, risk: nat)

  /** What the compatibility evaluation says of an add-on. */
  datatype AddonStatus = Compatible | Incompatible | Unknown

  datatype EdgeType = RoutesTo | Selects | UsesConfig | UsesStorage | RunsOn | DependsOn

  /** The component `from` depends on the component `to`. */
  datatype Edge = Edge(from: string, to: string, etype: EdgeType)

  /** The mirror: scoring it updates the risk of its nodes in place. */
  class Graph {
    var nodes: seq<Component>
    var edges: seq<Edge>

    constructor (nodes: seq<Component>, edges: seq<Edge>)
      ensures this.nodes == nodes && this.edges == edges
    {
      this.nodes, this.edges := nodes, edges;
    }
  }

  function Id(kind: string, namespace: string, name: string): string {
    if namespace == "" then kind + "/" + name else kind + "/" + namespace + "/" + name
  }

  /** Kind, namespace and name with slashes between them, the namespace left out when empty. */
  lemma {:induction false} IdText(kind: string, namespace: string, name: string)
    ensures namespace == "" ==> Id(kind, namespace, name) == kind + "/" + name
    ensures namespace != "" ==> Id(kind, namespace, name) == kind + "/" + namespace + "/" + name
    ensures AddonId(name) == "Addon" + "/" + name
  {
  }

  function AddonId(name: string): string {
    Id("Addon", "", name)
  }

  function Ids(nodes: seq<Component>): set<string> {
    if nodes == [] then {} else Ids(nodes[..|nodes| - 1]) + {nodes[|nodes| - 1].id}
  }

  lemma {:induction false} IdsMember(nodes: seq<Component>)
    ensures forall id :: id in Ids(nodes) <==> exists c :: c in nodes && c.id == id
  {
    if nodes != [] {
      var rest, last := nodes[..|nodes| - 1], nodes[|nodes| - 1];
      assert nodes == rest + [last];
      IdsMember(rest);
    }
  }

  ghost predicate UniqueIds(nodes: seq<Component>) {
    forall i, j :: 0 <= i < j < |nodes| ==> nodes[i].id != nodes[j].id
  }

  predicate SlashFree(s: string) {
    '/' !in s
  }

  /** The part of an id before its first slash. */
  function KindPart(id: string): string {
    if id == "" || id[0] == '/' then "" else [id[0]] + KindPart(id[1..])
  }

  lemma {:induction false} KindPartStops(kind: string, rest: string)
    requires SlashFree(kind)
    ensures KindPart(kind + "/" + rest) == kind
  {
    if kind != "" {
      assert (kind + "/" + rest)[1..] == kind[1..] + "/" + rest;
      KindPartStops(kind[1..], rest);
    } else {
      assert (kind + "/" + rest)[0] == '/';
    }
  }

  /** Whatever the namespace and the name hold, an id starts with its kind. */
  lemma {:induction false} IdStartsWithKind(kind: string, namespace: string, name: string)
    requires SlashFree(kind)
    ensures KindPart(Id(kind, namespace, name)) == kind
  {
    if namespace == "" {
      KindPartStops(kind, name);
    } else {
      assert Id(kind, namespace, name) == kind + "/" + (namespace + "/" + name);
      KindPartStops(kind, namespace + "/" + name);
    }
  }

  /** Ids identify components: a slash in no part makes `Id` injective, an empty namespace included. */
  lemma {:induction false} IdInjective(kind: string, namespace: string, name: string, kind': string,
                                       namespace': string, name': string)
    requires SlashFree(kind) && SlashFree(namespace) && SlashFree(name)
    requires SlashFree(kind') && SlashFree(namespace') && SlashFree(name')
    requires Id(kind, namespace, name) == Id(kind', namespace', name')
    ensures kind == kind' && namespace == namespace' && name == name'
  {
    var rest := if namespace == "" then name else namespace + "/" + name;
    var rest' := if namespace' == "" then name' else namespace' + "/" + name';
    assert Id(kind, namespace, name) == kind + "/" + rest;
    assert Id(kind', namespace', name') == kind' + "/" + rest';
    assert namespace != "" ==> rest[|namespace|] == '/';
    assert namespace' != "" ==> rest'[|namespace'|] == '/';
    SplitAtFirst('/', kind, rest, kind', rest');
    if namespace != "" && namespace' != "" {
      SplitAtFirst('/', namespace, name, namespace', name');
    }
  }

  /** Without that condition it is not: a namespaced name and a cluster-scoped one can share an id. */
  lemma {:induction false} SlashesCollide()
    ensures Id("Service", "a", "b") == Id("Service", "", "a/b")
  {
    assert Id("Service", "a", "b") == "Service" + "/" + ("a" + "/" + "b");
  }
}
