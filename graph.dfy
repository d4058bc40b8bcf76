/**
 * The abstract graph the diagram code builds and restyles: a stand-in for the
 * rendering backend's graph object, reduced to the operations the core uses
 * (add node / subgraph / edge, edge lookup, attribute updates, iteration).
 */
module AbstractGraph {
  import opened Styles

  /** An edge is identified by its (source node, destination node) pair. */
  type Edge = (string, string)

  /** The attributes bound to `k` in `m`, or none when `k` is absent. */
  function OwnAttrs<K>(m: map<K, Attrs>, k: K): Attrs {
    if k in m then m[k] else map[]
  }

  /** `m` with `k` added, bound to `v`, unless `k` is already there. */
  function WithKey<K, V>(m: map<K, V>, k: K, v: V): (r: map<K, V>)
    ensures r.Keys == m.Keys + {k}
    ensures forall j :: j in m ==> r[j] == m[j]
    ensures k !in m ==> r[k] == v
  {
    if k in m then m else m[k := v]
  }

  /** The path of the cluster that holds the cluster at `p`. */
  function Parent(p: seq<string>): seq<string> {
    if p == [] then [] else p[..|p| - 1]
  }

  /** Every cluster path is non-empty and its parent path is a cluster too, up to the top. */
  ghost predicate Nested(clusters: map<seq<string>, Attrs>) {
    && [] !in clusters
    && (forall p {:trigger Parent(p)} :: p in clusters && |p| > 1 ==> Parent(p) in clusters)
  }

  /** In nested clusters, every non-empty prefix of a cluster's path is a cluster. */
  lemma {:induction false} AncestorsPresent(clusters: map<seq<string>, Attrs>, p: seq<string>, i: nat)
    requires Nested(clusters) && p in clusters && 1 <= i <= |p|
    ensures p[..i] in clusters
    decreases |p| - i
  {
    if i < |p| {
      AncestorsPresent(clusters, p, i + 1);
      assert Parent(p[..i + 1]) == p[..i];
    } else {
      assert p[..i] == p;
    }
  }

  class Graph {
    /** Graph-wide node attributes (`node_attr`), read for any key a node does not set. */
    const nodeDefaults: Attrs
    /** Every node of the graph, in whatever cluster it sits, with its own attributes. */
    var nodes: map<string, Attrs>
    /** The cluster a node was added to, as the path of cluster names from the root. */
    var placement: map<string, seq<string>>
    /** Every (nested) cluster subgraph, keyed by its path of cluster names. */
    var clusters: map<seq<string>, Attrs>
    var edges: map<Edge, Attrs>

    /**
     * Every node has a place, both ends of every edge are nodes, and every
     * cluster sits inside the graph or inside another cluster.
     */
    ghost predicate Valid()
      reads this
    {
      && placement.Keys == nodes.Keys
      && (forall e :: e in edges ==> e.0 in nodes && e.1 in nodes)
      && Nested(clusters)
    }

    /** A new graph whose node defaults are the default node style. */
    constructor ()
      ensures Valid()
      ensures nodeDefaults == NodeStyle(Default)
      ensures nodes == map[] && clusters == map[] && edges == map[]
    {
      nodeDefaults := NodeStyle(Default);
      nodes, placement, clusters, edges := map[], map[], map[], map[];
    }

    /** What reading `node.attr[key]` sees: the node's own value, else the default. */
    function NodeAttrs(n: string): (a: Attrs)
      reads this
      requires n in nodes
      ensures a.Keys == nodeDefaults.Keys + nodes[n].Keys
    {
      nodeDefaults + nodes[n]
    }

    /** `add_node(n, **attrs)` into the cluster at `path`; an existing node only gets its attributes updated. */
    method AddNode(n: string, attrs: Attrs, path: seq<string>)
      requires Valid()
      modifies this
      ensures Valid()
      ensures nodes == old(nodes)[n := Update(OwnAttrs(old(nodes), n), attrs)]
      ensures placement == if n in old(nodes) then old(placement) else old(placement)[n := path]
      ensures clusters == old(clusters) && edges == old(edges)
    {
      if n !in nodes {
        placement := placement[n := path];
      }
      nodes := nodes[n := Update(OwnAttrs(nodes, n), attrs)];
    }

    /** `container.add_subgraph(name=id, **attrs)` under the cluster at `parent`. */
    method AddSubgraph(parent: seq<string>, id: string, attrs: Attrs)
      requires Valid()
      requires parent == [] || parent in clusters
      modifies this
      ensures Valid()
      ensures clusters == old(clusters)[parent + [id] := Update(OwnAttrs(old(clusters), parent + [id]), attrs)]
      ensures nodes == old(nodes) && placement == old(placement) && edges == old(edges)
    {
      assert Parent(parent + [id]) == parent;
      clusters := clusters[parent + [id] := Update(OwnAttrs(clusters, parent + [id]), attrs)];
    }

    /**
     * `add_edge(u, v, **attrs)`: endpoints that are not nodes yet are created
     * at the top level with no attributes. The core only adds an edge after
     * finding that none joins the pair.
     */
    method AddEdge(u: string, v: string, attrs: Attrs)
      requires Valid()
      requires (u, v) !in edges
      modifies this
      ensures Valid()
      ensures edges == old(edges)[(u, v) := attrs]
      ensures nodes == WithKey(WithKey(old(nodes), u, map[]), v, map[])
      ensures placement == WithKey(WithKey(old(placement), u, []), v, [])
      ensures clusters == old(clusters)
    {
      nodes := WithKey(WithKey(nodes, u, map[]), v, map[]);
      placement := WithKey(WithKey(placement, u, []), v, []);
      edges := edges[(u, v) := attrs];
    }

    /** `node.attr.update(style)` */
    method UpdateNode(n: string, style: Attrs)
      requires Valid()
      requires n in nodes
      modifies this
      ensures Valid()
      ensures nodes == old(nodes)[n := Update(old(nodes)[n], style)]
      ensures placement == old(placement) && clusters == old(clusters) && edges == old(edges)
    {
      nodes := nodes[n := Update(nodes[n], style)];
    }

    /** `edge.attr.update(style)` */
    method UpdateEdge(e: Edge, style: Attrs)
      requires Valid()
      requires e in edges
      modifies this
      ensures Valid()
      ensures edges == old(edges)[e := Update(old(edges)[e], style)]
      ensures nodes == old(nodes) && placement == old(placement) && clusters == old(clusters)
    {
      edges := edges[e := Update(edges[e], style)];
    }

    /** `edge.attr[k] = v` */
    method SetEdgeAttr(e: Edge, k: string, v: string)
      requires Valid()
      requires e in edges
      modifies this
      ensures Valid()
      ensures edges == old(edges)[e := old(edges)[e][k := v]]
      ensures nodes == old(nodes) && placement == old(placement) && clusters == old(clusters)
    {
      edges := edges[e := edges[e][k := v]];
    }

    /** `subgraph.graph_attr.update(style)` */
    method UpdateCluster(p: seq<string>, style: Attrs)
      requires Valid()
      requires p in clusters
      modifies this
      ensures Valid()
      ensures clusters == old(clusters)[p := Update(old(clusters)[p], style)]
      ensures nodes == old(nodes) && placement == old(placement) && edges == old(edges)
    {
      clusters := clusters[p := Update(clusters[p], style)];
    }
  }
}
