/**
 * The diagram builder object: it walks the machine's states into nodes and
 * clusters, keeping the names it has handled in `seen`, and then draws
 * the edges of every event into the same graph, updating it in place.
 */
module GraphBuilder {
  import opened Strings
  import opened Styles
  import opened HostMachine
  import opened AbstractGraph
  import opened Sketches
  import opened NodeWalk
  import opened Labels
  import opened EdgeSpec

  /** Follow the first child until a leaf is reached. */
  method DescendToLeaf(s: State) returns (leaf: State)
    ensures leaf == FirstLeaf(s)
  {
    leaf := s;
    while |leaf.children| > 0
      invariant FirstLeaf(leaf) == FirstLeaf(s)
      decreases Rank(leaf)
    {
      assert RankAll(leaf.children) == Rank(leaf.children[0]) + RankAll(leaf.children[1..]);
      leaf := leaf.children[0];
    }
  }

  class AGraph {
    const definition: Definition
    const config: Config
    /** Names of the states already drawn. */
    var seen: seq<string>

    constructor (d: Definition, cfg: Config)
      ensures definition == d && config == cfg && seen == []
    {
      definition, config := d, cfg;
      seen := [];
    }

    /** `_add_nodes(states, container)`, with `container` the cluster at `path` of `g`. */
    method AddNodes(states: seq<State>, g: Graph, path: seq<string>)
      requires g.Valid() && (path == [] || path in g.clusters)
      modifies this, g
      ensures g.Valid() && old(g.clusters).Keys <= g.clusters.Keys
      ensures View(seen, g) == Walk(states, path, old(View(seen, g)))
      decreases RankAll(states), 1
    {
      var i := 0;
      while i < |states|
        invariant 0 <= i <= |states|
        invariant g.Valid() && (path == [] || path in g.clusters)
        invariant old(g.clusters).Keys <= g.clusters.Keys
        invariant Walk(states[i..], path, View(seen, g)) == Walk(states, path, old(View(seen, g)))
      {
        assert states[i..][1..] == states[i + 1..];
        RankOfMember(states, i);
        AddState(states[i], g, path);
        i := i + 1;
      }
    }

    /** The body of the loop of `_add_nodes` for one state. */
    method AddState(s: State, g: Graph, path: seq<string>)
      requires g.Valid() && (path == [] || path in g.clusters)
      modifies this, g
      ensures g.Valid() && old(g.clusters).Keys <= g.clusters.Keys
      ensures View(seen, g) == Visit(s, path, old(View(seen, g)))
      decreases Rank(s), 0
    {
      if s.name in seen {
      } else if |s.children| > 0 {
        seen := seen + [s.name];
        g.AddSubgraph(path, ClusterId(s), ClusterAttrs(s));
        AddNodes(s.children, g, path + [ClusterId(s)]);
      } else {
        seen := seen + [s.name];
        g.AddNode(s.name, LeafAttrs(), path);
      }
    }

    /**
     * `_add_edges(events, container)`. It fails, as the state lookup does,
     * on a source or destination name that is not a state.
     */
    method AddEdges(g: Graph) returns (ok: bool)
      requires g.Valid()
      modifies g
      ensures g.Valid()
      ensures ok <==> ProcessEvents(definition, config, definition.events, old(View(seen, g))).Ok?
      ensures ok ==> View(seen, g) == ProcessEvents(definition, config, definition.events, old(View(seen, g))).value
    {
      var es := definition.events;
      ghost var target := ProcessEvents(definition, config, es, View(seen, g));
      var i := 0;
      while i < |es|
        invariant 0 <= i <= |es|
        invariant g.Valid()
        invariant ProcessEvents(definition, config, es[i..], View(seen, g)) == target
      {
        var event := es[i];
        assert es[i..][1..] == es[i + 1..];
        if !config.showAutoTransitions && StartsWith(event.name, "to_")
           && |event.transitions| == |definition.states| {
          i := i + 1;
          continue;
        }
        ok := DrawGroups(g, event.name, event.transitions);
        if !ok {
          return;
        }
        i := i + 1;
      }
      ok := true;
    }

    /** The loop of `_add_edges` over the source entries of one event. */
    method DrawGroups(g: Graph, eventLabel: string, gs: seq<(string, seq<Transition>)>) returns (ok: bool)
      requires g.Valid()
      modifies g
      ensures g.Valid()
      ensures ok <==> ProcessGroups(definition, config, eventLabel, gs, old(View(seen, g))).Ok?
      ensures ok ==> View(seen, g) == ProcessGroups(definition, config, eventLabel, gs, old(View(seen, g))).value
    {
      ghost var target := ProcessGroups(definition, config, eventLabel, gs, View(seen, g));
      var j := 0;
      while j < |gs|
        invariant 0 <= j <= |gs|
        invariant g.Valid()
        invariant ProcessGroups(definition, config, eventLabel, gs[j..], View(seen, g)) == target
      {
        assert gs[j..][1..] == gs[j + 1..];
        var srcName := gs[j].0;
        var found := GetState(definition.states, srcName);
        if found.None? {
          return false;
        }
        ok := DrawTransitions(g, eventLabel, srcName, found.value, gs[j].1);
        if !ok {
          return;
        }
        j := j + 1;
      }
      ok := true;
    }

    /** The loop of `_add_edges` over the transitions listed under one source name. */
    method DrawTransitions(g: Graph, eventLabel: string, srcName: string, src: State, ts: seq<Transition>)
      returns (ok: bool)
      requires g.Valid()
      modifies g
      ensures g.Valid()
      ensures ok <==> ProcessTransitions(definition, config, eventLabel, srcName, src, ts, old(View(seen, g))).Ok?
      ensures ok ==> View(seen, g) == ProcessTransitions(definition, config, eventLabel, srcName, src, ts, old(View(seen, g))).value
    {
      ghost var target := ProcessTransitions(definition, config, eventLabel, srcName, src, ts, View(seen, g));
      var ltail := "";
      if |src.children| > 0 {
        ltail := ClusterId(src);
      }
      var tail := DescendToLeaf(src);
      var k := 0;
      while k < |ts|
        invariant 0 <= k <= |ts|
        invariant g.Valid()
        invariant ProcessTransitions(definition, config, eventLabel, srcName, src, ts[k..], View(seen, g)) == target
      {
        assert ts[k..][1..] == ts[k + 1..];
        ok := DrawTransition(g, eventLabel, srcName, src, tail, ltail, ts[k]);
        if !ok {
          return;
        }
        k := k + 1;
      }
      ok := true;
    }

    /** The body of the transition loop of `_add_edges`, for the source `src` already resolved to `tail`. */
    method DrawTransition(g: Graph, eventLabel: string, srcName: string, src: State, tail: State, ltail: string,
                          t: Transition) returns (ok: bool)
      requires g.Valid()
      requires tail == FirstLeaf(src) && ltail == Boundary(src)
      modifies g
      ensures g.Valid()
      ensures var r := TransitionRequest(definition, config, eventLabel, srcName, src, t);
        && (ok <==> r.Ok?)
        && (ok ==> View(seen, g) == Apply(old(View(seen, g)), r.value))
    {
      var foundDst := GetState(definition.states, t.dest);
      if foundDst.None? {
        return false;
      }
      var dst := foundDst.value;
      var text := TransitionLabel(eventLabel, t, config.showConditions);
      var lhead := "";
      if |dst.children| > 0 {
        lhead := "cluster_" + dst.name;
      }
      var head := DescendToLeaf(dst);
      if head.name == tail.name && srcName != t.dest {
      } else {
        DrawEdge(g, tail.name, head.name, text, ltail, lhead);
      }
      ok := true;
    }

    /** One edge of `_add_edges`: extend the label of the existing edge, or add the edge. */
    method DrawEdge(g: Graph, src: string, dst: string, text: string, ltail: string, lhead: string)
      requires g.Valid()
      modifies g
      ensures g.Valid()
      ensures View(seen, g) == AddOrMerge(old(View(seen, g)), EdgeRequest(src, dst, text, ltail, lhead))
    {
      if (src, dst) in g.edges {
        var e := (src, dst);
        g.SetEdgeAttr(e, "label", Get(g.edges[e], "label") + " | " + text);
      } else {
        g.AddEdge(src, dst, map["label" := text, "ltail" := ltail, "lhead" := lhead]);
      }
    }

    /**
     * `get_graph()`: a new graph whose node defaults are the default node
     * style, with the states drawn and then the events.
     */
    method GetGraph() returns (g: Graph, ok: bool)
      modifies this
      ensures fresh(g) && g.Valid() && g.nodeDefaults == NodeStyle(Default)
      ensures var r := ProcessEvents(definition, config, definition.events,
                                     Walk(definition.states, [], Blank.(seen := old(seen))));
        && (ok <==> r.Ok?)
        && (ok ==> View(seen, g) == r.value)
    {
      g := new Graph();
      AddNodes(definition.states, g, []);
      ok := AddEdges(g);
    }
  }

  /** A fresh builder draws exactly the diagram `Build` describes. */
  method Draw(d: Definition, cfg: Config) returns (g: Graph, ok: bool)
    ensures fresh(g) && g.Valid() && g.nodeDefaults == NodeStyle(Default)
    ensures ok <==> Build(d, cfg).Ok?
    ensures ok ==> Sketch([], g.nodes, g.placement, g.clusters, g.edges) == Build(d, cfg).value.(seen := [])
  {
    var builder := new AGraph(d, cfg);
    g, ok := builder.GetGraph();
    assert Blank.(seen := []) == Blank;
  }
}
