/**
 * The value view of a graph under construction: the builder's `seen` list
 * together with the graph's nodes, node placement, clusters and edges. The
 * builder's methods are specified by the functions of this module and of
 * the edge module, which compute the same contents on values.
 */
module Sketches {
  import opened Styles
  import opened AbstractGraph

  datatype Sketch = Sketch(
    seen: seq<string>,
    nodes: map<string, Attrs>,
    placement: map<string, seq<string>>,
    clusters: map<seq<string>, Attrs>,
    edges: map<Edge, Attrs>)

  const Blank := Sketch([], map[], map[], map[], map[])

  /** The contents of graph `g` built so far, with the builder's `seen` list. */
  function View(seen: seq<string>, g: Graph): Sketch
    reads g
  {
    Sketch(seen, g.nodes, g.placement, g.clusters, g.edges)
  }

  predicate NoDup(s: seq<string>) {
    forall i, j :: 0 <= i < j < |s| ==> s[i] != s[j]
  }

  function SeenSet(sk: Sketch): set<string> {
    set x | x in sk.seen
  }
}
