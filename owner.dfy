/**
 * The machine side of the diagrams: every model keeps its own graph, drawn
 * on first request (or when a redraw is forced) with the model's current
 * state marked active, and redrawn for every model whenever states or
 * transitions are added. A transition restyles the model's graph and then
 * moves the model to the destination state.
 */
module DiagramOwner {
  import opened Styles
  import opened HostMachine
  import opened AbstractGraph
  import opened Sketches
  import opened EdgeSpec
  import opened GraphBuilder
  import opened LiveState
  import opened RegionOfInterest

  /** The scene of a drawn diagram. */
  function Picture(sk: Sketch): Scene {
    Scene(sk.nodes, sk.placement, sk.clusters, sk.edges)
  }

  /** The diagram of a machine before any state is marked, when it can be drawn. */
  function Diagram(d: Definition, cfg: Config): (r: Option<Scene>)
    ensures r.Some? <==> Build(d, cfg).Ok?
  {
    if Build(d, cfg).Ok? then Some(Picture(Build(d, cfg).value)) else None
  }

  /** A diagram with the node or cluster of `state` marked active, when there is one to mark. */
  function MarkedIn(diagram: Option<Scene>, state: string, sep: char): (r: Option<Scene>)
    ensures r.Some? ==> diagram.Some?
  {
    match diagram
    case None => None
    case Some(sc) => MarkNode(sc, state, Active, sep)
  }

  /** A graph drawn afresh that shows `expected`. */
  ghost predicate Shows(g: Graph?, expected: Option<Scene>)
    reads g
  {
    && g != null && g.nodeDefaults == NodeStyle(Default)
    && expected.Some? && SceneOf(g) == expected.value
  }

  /** A model of the machine: its current state and, once drawn, its graph. */
  class Model {
    var state: string
    var graph: Graph?

    constructor (initial: string)
      ensures state == initial && graph == null
    {
      state := initial;
      graph := null;
    }

    ghost predicate Valid()
      reads this`graph, graph
    {
      graph != null ==> graph.Valid()
    }
  }

  class GraphMachine {
    /** The states and events the diagrams are drawn from. */
    var definition: Definition
    const config: Config
    var models: seq<Model>

    constructor (d: Definition, cfg: Config, ms: seq<Model>)
      ensures definition == d && config == cfg && models == ms
    {
      definition := d;
      config := cfg;
      models := ms;
    }

    /**
     * `_get_graph(model, title, force_new, show_roi)`. A model without a
     * graph, or any model when a redraw is forced, gets a freshly drawn
     * graph with its state marked active; a drawing that fails leaves the
     * model's graph as it was, while a marking that fails still leaves the
     * new graph in place. The graph returned is the model's own, or with
     * `showRoi` a new graph of the region around the model's state.
     */
    method GetGraph(model: Model, forceNew: bool, showRoi: bool) returns (ok: bool, shown: Graph?)
      requires model.Valid()
      modifies model
      ensures model.Valid() && model.state == old(model.state)
      ensures var rebuild := old(model.graph) == null || forceNew;
        && (!rebuild ==> model.graph == old(model.graph))
        && (rebuild && Diagram(definition, config).None? ==> !ok && model.graph == old(model.graph))
        && (rebuild && Diagram(definition, config).Some? ==>
              && model.graph != null && fresh(model.graph) && model.graph.nodeDefaults == NodeStyle(Default)
              && var marked := MarkNode(Diagram(definition, config).value, model.state, Active, config.separator);
                 && (marked.Some? ==> SceneOf(model.graph) == marked.value)
                 && (marked.None? ==> SceneOf(model.graph) == Diagram(definition, config).value && !ok))
      ensures ok ==> model.graph != null && shown != null
      ensures ok && !showRoi ==> shown == model.graph
      ensures ok && showRoi ==>
        && Roi(model.graph.nodeDefaults, SceneOf(model.graph), model.state).Some?
        && fresh(shown) && shown.Valid()
        && SceneOf(shown) == Roi(model.graph.nodeDefaults, SceneOf(model.graph), model.state).value
      ensures showRoi && model.graph != null && Roi(model.graph.nodeDefaults, SceneOf(model.graph), model.state).None? ==> !ok
      ensures !showRoi ==>
        (ok <==> (old(model.graph) != null && !forceNew)
                 || MarkedIn(Diagram(definition, config), model.state, config.separator).Some?)
      ensures showRoi ==>
        (ok <==> && ((old(model.graph) != null && !forceNew)
                     || MarkedIn(Diagram(definition, config), model.state, config.separator).Some?)
                 && model.graph != null
                 && model.state in SceneOf(model.graph).nodes)
      ensures forceNew && !showRoi ==>
        && (ok <==> MarkedIn(Diagram(definition, config), model.state, config.separator).Some?)
        && (ok ==> Shows(model.graph, MarkedIn(Diagram(definition, config), model.state, config.separator)))
    {
      if model.graph == null || forceNew {
        var g, built := Draw(definition, config);
        if !built {
          return false, null;
        }
        assert SceneOf(g) == Diagram(definition, config).value;
        model.graph := g;
        var marked := SetNodeState(g, model.state, Active, config.separator);
        if !marked {
          return false, null;
        }
      }
      if !showRoi {
        return true, model.graph;
      }
      var f;
      ok, f := GraphRoi(model.graph, model.state);
      shown := f;
    }

    /**
     * `TransitionGraphSupport._change_state(event_data)` followed by the
     * state change itself: the model's graph is restyled and, when that
     * succeeds, the model moves to the destination.
     */
    method Transit(model: Model, source: Option<string>, dest: string) returns (ok: bool)
      requires model.Valid() && model.graph != null
      modifies model, model.graph
      ensures model.Valid() && model.graph == old(model.graph)
      ensures Moved(definition, config, old(SceneOf(model.graph)), source, dest, ok, SceneOf(model.graph))
      ensures model.state == if ok then dest else old(model.state)
    {
      ok := ChangeState(definition, config, model.graph, source, dest);
      assert model.Valid();
      ghost var after := SceneOf(model.graph);
      if ok {
        model.state := dest;
      }
      assert SceneOf(model.graph) == after;
    }

    /** `model.get_graph(force_new=True)`, as the redraw after a structural change issues it. */
    method Redraw(model: Model, ghost expected: Option<Scene>) returns (ok: bool)
      requires model.Valid() && expected == MarkedIn(Diagram(definition, config), model.state, config.separator)
      modifies model
      ensures model.Valid() && model.state == old(model.state)
      ensures ok <==> expected.Some?
      ensures ok ==> Shows(model.graph, expected)
    {
      var shown;
      ok, shown := GetGraph(model, true, false);
    }

    /** One pass of the redraw loop: the model at `i` is redrawn, and the models before it keep their graphs. */
    method RedrawAt(i: nat, ghost dg: Option<Scene>, ghost want: seq<Option<Scene>>) returns (ok: bool)
      requires i < |models| == |want| && dg == Diagram(definition, config)
      requires want[i] == MarkedIn(dg, models[i].state, config.separator)
      requires forall j :: 0 <= j < |models| && models[j] == models[i] ==> want[j] == want[i]
      requires forall j :: 0 <= j < |models| ==> models[j].Valid()
      requires forall j :: 0 <= j < i ==> Shows(models[j].graph, want[j])
      modifies models[i]
      ensures forall j :: 0 <= j < |models| ==> models[j].Valid() && models[j].state == old(models[j].state)
      ensures ok <==> want[i].Some?
      ensures ok ==> forall j :: 0 <= j < i + 1 ==> Shows(models[j].graph, want[j])
    {
      var ms := models;
      var m := ms[i];
      ok := Redraw(m, want[i]);
      assert models == ms;
      forall j | 0 <= j < |ms|
        ensures ms[j].Valid() && ms[j].state == old(ms[j].state)
      {
        if ms[j] != m {
          assert ms[j].graph == old(ms[j].graph);
        }
      }
      if ok {
        forall j | 0 <= j < i + 1
          ensures Shows(ms[j].graph, want[j])
        {
          if ms[j] != m {
            assert ms[j].graph == old(ms[j].graph);
          }
        }
      }
    }

    /**
     * `add_states(...)` / `add_transition(...)`: the host machine's states
     * and events become `d`, and every model's graph is redrawn, in order,
     * stopping at the first model whose redraw fails.
     */
    method Restructure(d: Definition) returns (ok: bool)
      requires forall i :: 0 <= i < |models| ==> models[i].Valid()
      modifies this, set i | 0 <= i < |models| :: models[i]
      ensures definition == d && models == old(models)
      ensures forall i :: 0 <= i < |models| ==> models[i].state == old(models[i].state)
      ensures ok <==> forall i :: 0 <= i < |models| ==> MarkedIn(Diagram(d, config), models[i].state, config.separator).Some?
      ensures ok ==> forall i :: 0 <= i < |models| ==>
        Shows(models[i].graph, MarkedIn(Diagram(d, config), models[i].state, config.separator))
    {
      definition := d;
      ghost var dg := Diagram(d, config);
      var ms := models;
      ghost var want := seq(|ms|, j reads ms requires 0 <= j < |ms| => MarkedIn(dg, ms[j].state, config.separator));
      var i := 0;
      while i < |ms|
        invariant 0 <= i <= |ms| && definition == d && models == ms
        invariant forall j :: 0 <= j < |ms| ==> ms[j].Valid() && ms[j].state == old(ms[j].state)
        invariant forall j :: 0 <= j < i ==> Shows(ms[j].graph, want[j])
      {
        var done := RedrawAt(i, dg, want);
        if !done {
          return false;
        }
        i := i + 1;
      }
      ok := true;
    }
  }
}
