/**
 * The edge pass of the builder, on values. Each transition of each event is
 * resolved to an edge request: the first-leaf endpoints, the label text,
 * and the cluster markers of composite endpoints. Blanket auto-transition
 * events and the degenerate parent-to-first-child edge are dropped. The
 * requests are then folded into the sketch: a request for a pair that
 * already has an edge extends that edge's label with " | " and the new text.
 */
module EdgeSpec {
  import opened Strings
  import opened Styles
  import opened HostMachine
  import opened AbstractGraph
  import opened Sketches
  import opened NodeWalk
  import opened Labels

  /** `get_state` fails for a name the machine does not know. */
  datatype BuildError = UnknownState(name: string)

  datatype Result<T> = Ok(value: T) | Err(error: BuildError)

  /** One edge the builder asks for: leaf endpoints, label text and cluster markers. */
  datatype EdgeRequest = EdgeRequest(src: string, dst: string, text: string, ltail: string, lhead: string)

  function Key(q: EdgeRequest): Edge {
    (q.src, q.dst)
  }

  /** The attributes a new edge is created with. */
  function EdgeAttrs(q: EdgeRequest): Attrs {
    map["label" := q.text, "ltail" := q.ltail, "lhead" := q.lhead]
  }

  /**
   * With auto-transitions hidden, an event named `to_...` with one source
   * entry per state of the machine is the generated "go to" event and is
   * not drawn.
   */
  predicate Suppressed(d: Definition, cfg: Config, e: Event) {
    !cfg.showAutoTransitions && StartsWith(e.name, "to_") && |e.transitions| == |d.states|
  }

  /** The cluster marker of an edge end: none for a leaf, the name of its cluster for a composite. */
  function Boundary(s: State): (marker: string)
    ensures marker != "" <==> !s.IsLeaf()
  {
    if s.IsLeaf() then "" else ClusterId(s)
  }

  /**
   * The head marker as the builder writes it: from the qualified state name,
   * where the tail marker and the cluster names use the state's own name.
   */
  function HeadBoundaryAsWritten(s: State): (marker: string)
    ensures marker != "" <==> !s.IsLeaf()
  {
    if s.IsLeaf() then "" else "cluster_" + s.name
  }

  /** The head marker as written agrees with the cluster marker exactly for leaves and unnested states. */
  lemma HeadMarkersAgree(s: State)
    ensures HeadBoundaryAsWritten(s) == Boundary(s) <==> s.IsLeaf() || s.name == s.local
  {
    if !s.IsLeaf() && HeadBoundaryAsWritten(s) == Boundary(s) {
      assert "cluster_" + s.name == "cluster_" + s.local;
      assert s.name == ("cluster_" + s.name)[8..];
    }
  }

  /**
   * The request for transition `t` of event `eventName`, listed under the
   * source name `srcName`, which names the state `src`.
   */
  function TransitionRequest(d: Definition, cfg: Config, eventName: string, srcName: string,
                             src: State, t: Transition): (r: Result<Option<EdgeRequest>>)
    ensures r.Err? <==> GetState(d.states, t.dest).None?
    ensures r.Err? ==> r.error == UnknownState(t.dest)
    ensures r.Ok? && r.value.Some? ==>
      var q, dst := r.value.value, GetState(d.states, t.dest).value;
      && q.src == FirstLeaf(src).name && q.dst == FirstLeaf(dst).name
      && q.text == TransitionLabel(eventName, t, cfg.showConditions)
      && q.ltail == Boundary(src) && q.lhead == HeadBoundaryAsWritten(dst)
      && (q.ltail != "" <==> !src.IsLeaf()) && (q.lhead != "" <==> !dst.IsLeaf())
      && (q.src == q.dst ==> srcName == t.dest)
    ensures r == Ok(None) <==>
      GetState(d.states, t.dest).Some? &&
      FirstLeaf(GetState(d.states, t.dest).value).name == FirstLeaf(src).name && srcName != t.dest
  {
    match GetState(d.states, t.dest)
    case None => Err(UnknownState(t.dest))
    case Some(dst) =>
      var tail, head := FirstLeaf(src), FirstLeaf(dst);
      if head.name == tail.name && srcName != t.dest then Ok(None)
      else Ok(Some(EdgeRequest(tail.name, head.name, TransitionLabel(eventName, t, cfg.showConditions),
                               Boundary(src), HeadBoundaryAsWritten(dst))))
  }

  /** One request applied to the sketch: a new edge, or the label of the existing one extended. */
  function AddOrMerge(sk: Sketch, q: EdgeRequest): (sk2: Sketch)
    ensures Key(q) in sk2.edges
    ensures Key(q) in sk.edges ==> sk2.edges.Keys == sk.edges.Keys && sk2.nodes == sk.nodes
    ensures Key(q) in sk.edges ==>
      sk2.edges[Key(q)] == sk.edges[Key(q)]["label" := Get(sk.edges[Key(q)], "label") + " | " + q.text]
    ensures Key(q) !in sk.edges ==> sk2.edges[Key(q)] == EdgeAttrs(q)
    ensures Key(q) !in sk.edges ==> sk2.edges.Keys == sk.edges.Keys + {Key(q)}
    ensures forall e :: e in sk.edges && e != Key(q) ==> sk2.edges[e] == sk.edges[e]
    ensures sk2.seen == sk.seen && sk2.clusters == sk.clusters
  {
    var e := Key(q);
    if e in sk.edges then
      sk.(edges := sk.edges[e := sk.edges[e]["label" := Get(sk.edges[e], "label") + " | " + q.text]])
    else
      sk.(nodes := WithKey(WithKey(sk.nodes, q.src, map[]), q.dst, map[]),
          placement := WithKey(WithKey(sk.placement, q.src, []), q.dst, []),
          edges := sk.edges[e := EdgeAttrs(q)])
  }

  /** A resolved transition applied: nothing for a dropped one. */
  function Apply(sk: Sketch, o: Option<EdgeRequest>): Sketch {
    if o.Some? then AddOrMerge(sk, o.value) else sk
  }

  /** The requests applied in order. */
  function Fold(sk: Sketch, qs: seq<EdgeRequest>): Sketch
    decreases qs
  {
    if qs == [] then sk else Fold(AddOrMerge(sk, qs[0]), qs[1..])
  }

  lemma {:induction false} FoldAppend(sk: Sketch, a: seq<EdgeRequest>, b: seq<EdgeRequest>)
    ensures Fold(sk, a + b) == Fold(Fold(sk, a), b)
    decreases a
  {
    if a != [] {
      assert (a + b)[1..] == a[1..] + b;
      FoldAppend(AddOrMerge(sk, a[0]), a[1..], b);
    } else {
      assert a + b == b;
    }
  }

  // ---------------------------------------------------------------------
  // The edge pass as the builder's loops run it.

  function ProcessTransitions(d: Definition, cfg: Config, eventName: string, srcName: string,
                              src: State, ts: seq<Transition>, sk: Sketch): (r: Result<Sketch>)
    ensures r.Err? ==> Unknown(d, r.error)
    ensures r.Ok? ==> r.value.seen == sk.seen && r.value.clusters == sk.clusters
  {
    if ts == [] then Ok(sk)
    else match TransitionRequest(d, cfg, eventName, srcName, src, ts[0])
      case Err(e) => Err(e)
      case Ok(o) => ProcessTransitions(d, cfg, eventName, srcName, src, ts[1..], Apply(sk, o))
  }

  function ProcessGroup(d: Definition, cfg: Config, eventName: string,
                        grp: (string, seq<Transition>), sk: Sketch): (r: Result<Sketch>)
    ensures r.Err? ==> Unknown(d, r.error)
    ensures r.Ok? ==> r.value.seen == sk.seen && r.value.clusters == sk.clusters
  {
    match GetState(d.states, grp.0)
    case None => Err(UnknownState(grp.0))
    case Some(src) => ProcessTransitions(d, cfg, eventName, grp.0, src, grp.1, sk)
  }

  function ProcessGroups(d: Definition, cfg: Config, eventName: string,
                         gs: seq<(string, seq<Transition>)>, sk: Sketch): (r: Result<Sketch>)
    ensures r.Err? ==> Unknown(d, r.error)
    ensures r.Ok? ==> r.value.seen == sk.seen && r.value.clusters == sk.clusters
  {
    if gs == [] then Ok(sk)
    else match ProcessGroup(d, cfg, eventName, gs[0], sk)
      case Err(e) => Err(e)
      case Ok(sk1) => ProcessGroups(d, cfg, eventName, gs[1..], sk1)
  }

  function ProcessEvents(d: Definition, cfg: Config, es: seq<Event>, sk: Sketch): (r: Result<Sketch>)
    ensures r.Err? ==> Unknown(d, r.error)
    ensures r.Ok? ==> r.value.seen == sk.seen && r.value.clusters == sk.clusters
    ensures (forall e :: e in es ==> Suppressed(d, cfg, e)) ==> r == Ok(sk)
  {
    if es == [] then Ok(sk)
    else if Suppressed(d, cfg, es[0]) then ProcessEvents(d, cfg, es[1..], sk)
    else match ProcessGroups(d, cfg, es[0].name, es[0].transitions, sk)
      case Err(e) => Err(e)
      case Ok(sk1) => ProcessEvents(d, cfg, es[1..], sk1)
  }

  /** Continue with the remaining groups of an event after a partial result. */
  function ThenGroups(d: Definition, cfg: Config, eventName: string, r: Result<Sketch>,
                      gs: seq<(string, seq<Transition>)>): Result<Sketch>
  {
    match r
    case Err(e) => Err(e)
    case Ok(sk) => ProcessGroups(d, cfg, eventName, gs, sk)
  }

  /** Continue with the remaining events after a partial result. */
  function ThenEvents(d: Definition, cfg: Config, r: Result<Sketch>, es: seq<Event>): Result<Sketch>
  {
    match r
    case Err(e) => Err(e)
    case Ok(sk) => ProcessEvents(d, cfg, es, sk)
  }

  /** The whole diagram: the node walk over the state dictionary, then the edge pass. */
  function Build(d: Definition, cfg: Config): (r: Result<Sketch>)
    ensures r.Err? ==> Unknown(d, r.error)
    ensures r.Ok? ==> r.value.clusters == Walk(d.states, [], Blank).clusters
  {
    ProcessEvents(d, cfg, d.events, Walk(d.states, [], Blank))
  }

  // ---------------------------------------------------------------------
  // The same pass as a list of requests, which does not depend on the sketch.

  function OptionSeq(o: Option<EdgeRequest>): seq<EdgeRequest> {
    if o.Some? then [o.value] else []
  }

  /** Both ends of every request are leaf states of the machine. */
  ghost predicate OnLeaves(d: Definition, qs: seq<EdgeRequest>) {
    forall q :: q in qs ==> q.src in LeafNames(All(d.states)) && q.dst in LeafNames(All(d.states))
  }

  /** A failure names a state the machine does not have. */
  predicate Unknown(d: Definition, e: BuildError) {
    GetState(d.states, e.name).None?
  }

  /** The first-leaf chain of any state of the dictionary ends at a leaf state of the machine. */
  lemma FirstLeavesInMachine(d: Definition)
    ensures forall s :: s in d.states ==> FirstLeaf(s).name in LeafNames(All(d.states))
  {
    forall s | s in d.states
      ensures FirstLeaf(s).name in LeafNames(All(d.states))
    {
      SubforestInAll(d.states, s);
    }
  }

  function TransitionsRequests(d: Definition, cfg: Config, eventName: string, srcName: string,
                               src: State, ts: seq<Transition>): (r: Result<seq<EdgeRequest>>)
    requires src in d.states
    ensures r.Err? ==> Unknown(d, r.error)
    ensures r.Ok? ==> OnLeaves(d, r.value)
  {
    if ts == [] then Ok([])
    else match TransitionRequest(d, cfg, eventName, srcName, src, ts[0])
      case Err(e) => Err(e)
      case Ok(o) =>
        match TransitionsRequests(d, cfg, eventName, srcName, src, ts[1..])
        case Err(e) => Err(e)
        case Ok(rest) =>
          FirstLeavesInMachine(d);
          Ok(OptionSeq(o) + rest)
  }

  function GroupRequests(d: Definition, cfg: Config, eventName: string,
                         grp: (string, seq<Transition>)): (r: Result<seq<EdgeRequest>>)
    ensures r.Err? ==> Unknown(d, r.error)
    ensures r.Ok? ==> OnLeaves(d, r.value)
  {
    match GetState(d.states, grp.0)
    case None => Err(UnknownState(grp.0))
    case Some(src) => TransitionsRequests(d, cfg, eventName, grp.0, src, grp.1)
  }

  function GroupsRequests(d: Definition, cfg: Config, eventName: string,
                          gs: seq<(string, seq<Transition>)>): (r: Result<seq<EdgeRequest>>)
    ensures r.Err? ==> Unknown(d, r.error)
    ensures r.Ok? ==> OnLeaves(d, r.value)
  {
    if gs == [] then Ok([])
    else match GroupRequests(d, cfg, eventName, gs[0])
      case Err(e) => Err(e)
      case Ok(a) =>
        match GroupsRequests(d, cfg, eventName, gs[1..])
        case Err(e) => Err(e)
        case Ok(b) => Ok(a + b)
  }

  function EventsRequests(d: Definition, cfg: Config, es: seq<Event>): (r: Result<seq<EdgeRequest>>)
    ensures r.Err? ==> Unknown(d, r.error)
    ensures r.Ok? ==> OnLeaves(d, r.value)
    ensures (forall e :: e in es ==> Suppressed(d, cfg, e)) ==> r == Ok([])
  {
    if es == [] then Ok([])
    else if Suppressed(d, cfg, es[0]) then EventsRequests(d, cfg, es[1..])
    else match GroupsRequests(d, cfg, es[0].name, es[0].transitions)
      case Err(e) => Err(e)
      case Ok(a) =>
        match EventsRequests(d, cfg, es[1..])
        case Err(e) => Err(e)
        case Ok(b) => Ok(a + b)
  }

  /** A request list run over a sketch; a failure passes through. */
  function Run(r: Result<seq<EdgeRequest>>, sk: Sketch): Result<Sketch> {
    match r
    case Err(e) => Err(e)
    case Ok(qs) => Ok(Fold(sk, qs))
  }

  /** Applying one resolved transition, then a list of requests, is folding both. */
  lemma ApplyThenFold(sk: Sketch, o: Option<EdgeRequest>, rest: seq<EdgeRequest>)
    ensures Fold(Apply(sk, o), rest) == Fold(sk, OptionSeq(o) + rest)
  {
    FoldAppend(sk, OptionSeq(o), rest);
    if o.Some? {
      assert Fold(sk, [o.value]) == AddOrMerge(sk, o.value);
    }
  }

  lemma {:induction false} TransitionsAsRequests(d: Definition, cfg: Config, eventName: string, srcName: string,
                                                 src: State, ts: seq<Transition>, sk: Sketch)
    requires src in d.states
    ensures ProcessTransitions(d, cfg, eventName, srcName, src, ts, sk)
         == Run(TransitionsRequests(d, cfg, eventName, srcName, src, ts), sk)
  {
    if ts != [] {
      match TransitionRequest(d, cfg, eventName, srcName, src, ts[0])
      case Err(e) =>
      case Ok(o) =>
        TransitionsAsRequests(d, cfg, eventName, srcName, src, ts[1..], Apply(sk, o));
        match TransitionsRequests(d, cfg, eventName, srcName, src, ts[1..])
        case Err(e) =>
        case Ok(rest) => ApplyThenFold(sk, o, rest);
    }
  }

  lemma {:induction false} GroupsAsRequests(d: Definition, cfg: Config, eventName: string,
                                            gs: seq<(string, seq<Transition>)>, sk: Sketch)
    ensures ProcessGroups(d, cfg, eventName, gs, sk) == Run(GroupsRequests(d, cfg, eventName, gs), sk)
  {
    if gs != [] {
      match GetState(d.states, gs[0].0)
      case None =>
      case Some(src) =>
        TransitionsAsRequests(d, cfg, eventName, gs[0].0, src, gs[0].1, sk);
        match GroupRequests(d, cfg, eventName, gs[0])
        case Err(e) =>
        case Ok(a) =>
          GroupsAsRequests(d, cfg, eventName, gs[1..], Fold(sk, a));
          match GroupsRequests(d, cfg, eventName, gs[1..])
          case Err(e) =>
          case Ok(b) => FoldAppend(sk, a, b);
    }
  }

  /** The edge pass applies, in definition order, the requests of every drawn event. */
  lemma {:induction false} EventsAsRequests(d: Definition, cfg: Config, es: seq<Event>, sk: Sketch)
    ensures ProcessEvents(d, cfg, es, sk) == Run(EventsRequests(d, cfg, es), sk)
  {
    if es != [] {
      if Suppressed(d, cfg, es[0]) {
        EventsAsRequests(d, cfg, es[1..], sk);
      } else {
        GroupsAsRequests(d, cfg, es[0].name, es[0].transitions, sk);
        match GroupsRequests(d, cfg, es[0].name, es[0].transitions)
        case Err(e) =>
        case Ok(a) =>
          EventsAsRequests(d, cfg, es[1..], Fold(sk, a));
          match EventsRequests(d, cfg, es[1..])
          case Err(e) =>
          case Ok(b) => FoldAppend(sk, a, b);
      }
    }
  }

  // ---------------------------------------------------------------------
  // Auto-transition suppression.

  function ShownEvents(d: Definition, cfg: Config, es: seq<Event>): (kept: seq<Event>)
    ensures forall e :: e in kept ==> e in es && !Suppressed(d, cfg, e)
    ensures forall e :: e in es && !Suppressed(d, cfg, e) ==> e in kept
  {
    if es == [] then []
    else if Suppressed(d, cfg, es[0]) then ShownEvents(d, cfg, es[1..])
    else [es[0]] + ShownEvents(d, cfg, es[1..])
  }

  /** Hidden auto-transition events add nothing: dropping them beforehand gives the same diagram. */
  lemma {:induction false} SuppressedEventsIgnored(d: Definition, cfg: Config, es: seq<Event>, sk: Sketch)
    ensures ProcessEvents(d, cfg, es, sk) == ProcessEvents(d, cfg, ShownEvents(d, cfg, es), sk)
  {
    if es != [] {
      if Suppressed(d, cfg, es[0]) {
        SuppressedEventsIgnored(d, cfg, es[1..], sk);
      } else {
        var kept := ShownEvents(d, cfg, es);
        assert kept[0] == es[0] && kept[1..] == ShownEvents(d, cfg, es[1..]);
        match ProcessGroups(d, cfg, es[0].name, es[0].transitions, sk)
        case Err(e) =>
        case Ok(sk1) => SuppressedEventsIgnored(d, cfg, es[1..], sk1);
      }
    }
  }

  // ---------------------------------------------------------------------
  // Merging: what the fold leaves on each edge.

  function Keys(qs: seq<EdgeRequest>): set<Edge> {
    set i | 0 <= i < |qs| :: Key(qs[i])
  }

  /** The label texts of the requests for edge `k`, in order. */
  function TextsFor(qs: seq<EdgeRequest>, k: Edge): (texts: seq<string>)
    ensures texts == [] <==> k !in Keys(qs)
  {
    if qs == [] then []
    else
      var last := qs[|qs| - 1];
      var init := qs[..|qs| - 1];
      assert Keys(qs) == Keys(init) + {Key(last)} by {
        assert forall i :: 0 <= i < |init| ==> init[i] == qs[i];
      }
      TextsFor(init, k) + (if Key(last) == k then [last.text] else [])
  }

  /** The position of the first request for edge `k`. */
  function FirstIndex(qs: seq<EdgeRequest>, k: Edge): (i: nat)
    requires k in Keys(qs)
    ensures i < |qs| && Key(qs[i]) == k
    ensures forall j :: 0 <= j < i ==> Key(qs[j]) != k
  {
    var last := qs[|qs| - 1];
    var init := qs[..|qs| - 1];
    assert Keys(qs) == Keys(init) + {Key(last)} by {
      assert forall i :: 0 <= i < |init| ==> init[i] == qs[i];
    }
    if k in Keys(init) then FirstIndex(init, k)
    else
      assert forall j :: 0 <= j < |init| ==> Key(qs[j]) != k by {
        forall j | 0 <= j < |init| ensures Key(qs[j]) != k {
          assert qs[j] == init[j];
        }
      }
      |qs| - 1
  }

  /** An edge after all its requests: the joined texts, the markers of the first request. */
  function Merged(qs: seq<EdgeRequest>, k: Edge): Attrs
    requires k in Keys(qs)
  {
    var first := qs[FirstIndex(qs, k)];
    map["label" := Join(TextsFor(qs, k), " | "), "ltail" := first.ltail, "lhead" := first.lhead]
  }

  /** Appending a request keeps every earlier position and adds one edge pair. */
  lemma SnocKeys(init: seq<EdgeRequest>, last: EdgeRequest)
    ensures (init + [last])[..|init|] == init && (init + [last])[|init|] == last
    ensures Keys(init + [last]) == Keys(init) + {Key(last)}
  {
    var qs := init + [last];
    assert qs[..|qs| - 1] == init;
  }

  /** An edge the new request does not touch keeps its summary. */
  lemma MergeOther(init: seq<EdgeRequest>, last: EdgeRequest, k: Edge)
    requires k in Keys(init) && k != Key(last)
    ensures k in Keys(init + [last]) && Merged(init + [last], k) == Merged(init, k)
  {
    SnocKeys(init, last);
    var qs := init + [last];
    assert TextsFor(qs, k) == TextsFor(init, k);
    assert FirstIndex(qs, k) == FirstIndex(init, k);
  }

  /** A request for an edge already asked for appends its text to that edge's label. */
  lemma MergeAgain(init: seq<EdgeRequest>, last: EdgeRequest)
    requires Key(last) in Keys(init)
    ensures Key(last) in Keys(init + [last])
    ensures var old_ := Merged(init, Key(last));
      Merged(init + [last], Key(last)) == old_["label" := old_["label"] + " | " + last.text]
  {
    SnocKeys(init, last);
    var qs, k := init + [last], Key(last);
    var texts := TextsFor(init, k);
    assert TextsFor(qs, k) == texts + [last.text];
    JoinSnoc(texts, last.text, " | ");
    assert FirstIndex(qs, k) == FirstIndex(init, k);
  }

  /** The first request for an edge gives the edge its attributes. */
  lemma MergeNew(init: seq<EdgeRequest>, last: EdgeRequest)
    requires Key(last) !in Keys(init)
    ensures Key(last) in Keys(init + [last])
    ensures Merged(init + [last], Key(last)) == EdgeAttrs(last)
  {
    SnocKeys(init, last);
    var qs, k := init + [last], Key(last);
    assert TextsFor(qs, k) == TextsFor(init, k) + [last.text];
    assert TextsFor(qs, k) == [last.text];
  }

  /** One more request keeps the edge `k` of the fold equal to its merged summary. */
  lemma MergeStepAt(before: Sketch, init: seq<EdgeRequest>, last: EdgeRequest, k: Edge)
    requires before.edges.Keys == Keys(init)
    requires forall k :: k in Keys(init) ==> before.edges[k] == Merged(init, k)
    requires k in Keys(init + [last])
    ensures AddOrMerge(before, last).edges[k] == Merged(init + [last], k)
  {
    SnocKeys(init, last);
    if k != Key(last) {
      MergeOther(init, last, k);
    } else if k in Keys(init) {
      MergeAgain(init, last);
    } else {
      MergeNew(init, last);
    }
  }

  /** One more request keeps the fold's edges equal to the merged summaries. */
  lemma MergeStep(before: Sketch, init: seq<EdgeRequest>, last: EdgeRequest)
    requires before.edges.Keys == Keys(init)
    requires forall k :: k in Keys(init) ==> before.edges[k] == Merged(init, k)
    ensures AddOrMerge(before, last).edges.Keys == Keys(init + [last])
    ensures forall k :: k in Keys(init + [last]) ==> AddOrMerge(before, last).edges[k] == Merged(init + [last], k)
  {
    SnocKeys(init, last);
    forall k | k in Keys(init + [last])
      ensures AddOrMerge(before, last).edges[k] == Merged(init + [last], k)
    {
      MergeStepAt(before, init, last, k);
    }
  }

  /**
   * Starting from a sketch without edges, the fold makes one edge per
   * distinct (source, destination) pair of the requests. The edge's label
   * is the texts of all requests for that pair joined by " | " in request
   * order, and its markers are those of the first request.
   */
  lemma {:induction false} FoldMerges(sk: Sketch, qs: seq<EdgeRequest>)
    requires sk.edges == map[]
    ensures Fold(sk, qs).edges.Keys == Keys(qs)
    ensures forall k :: k in Keys(qs) ==> Fold(sk, qs).edges[k] == Merged(qs, k)
    decreases |qs|
  {
    if qs != [] {
      var last := qs[|qs| - 1];
      var init := qs[..|qs| - 1];
      assert qs == init + [last];
      FoldMerges(sk, init);
      FoldAppend(sk, init, [last]);
      assert Fold(sk, qs) == AddOrMerge(Fold(sk, init), last);
      MergeStep(Fold(sk, init), init, last);
    }
  }

  /** A fold whose requests join existing nodes adds no node and moves none. */
  lemma {:induction false} FoldKeepsNodes(sk: Sketch, qs: seq<EdgeRequest>)
    requires sk.placement.Keys == sk.nodes.Keys
    requires forall q :: q in qs ==> q.src in sk.nodes && q.dst in sk.nodes
    ensures Fold(sk, qs).nodes == sk.nodes && Fold(sk, qs).placement == sk.placement
    ensures Fold(sk, qs).seen == sk.seen && Fold(sk, qs).clusters == sk.clusters
    decreases qs
  {
    if qs != [] {
      var sk1 := AddOrMerge(sk, qs[0]);
      assert sk1.nodes == sk.nodes && sk1.placement == sk.placement;
      assert forall q :: q in qs[1..] ==> q in qs;
      FoldKeepsNodes(sk1, qs[1..]);
    }
  }

  // ---------------------------------------------------------------------
  // The whole diagram.

  /**
   * For a machine whose state names are unambiguous, the diagram either
   * fails on a name that is not a state, or has one node per leaf state,
   * every edge joining two of them, one edge per distinct resolved pair,
   * and merged labels in definition order.
   */
  lemma BuildShape(d: Definition, cfg: Config)
    requires Coherent(All(d.states))
    ensures Build(d, cfg).Err? ==> Unknown(d, Build(d, cfg).error)
    ensures Build(d, cfg).Ok? <==> EventsRequests(d, cfg, d.events).Ok?
    ensures Build(d, cfg).Ok? ==>
      var sk, qs := Build(d, cfg).value, EventsRequests(d, cfg, d.events).value;
      && sk.nodes.Keys == LeafNames(All(d.states))
      && SeenSet(sk) == Names(All(d.states))
      && sk.edges.Keys == Keys(qs)
      && (forall k :: k in sk.edges ==> k.0 in sk.nodes && k.1 in sk.nodes)
      && (forall k :: k in sk.edges ==> sk.edges[k] == Merged(qs, k))
  {
    var sk0 := Walk(d.states, [], Blank);
    WalkDrawsEveryState(d.states);
    EventsAsRequests(d, cfg, d.events, sk0);
    match EventsRequests(d, cfg, d.events)
    case Err(e) =>
    case Ok(qs) =>
      FoldKeepsNodes(sk0, qs);
      FoldMerges(sk0, qs);
      var sk := Fold(sk0, qs);
      forall k | k in sk.edges
        ensures k.0 in sk.nodes && k.1 in sk.nodes
      {
        var i :| 0 <= i < |qs| && Key(qs[i]) == k;
        assert qs[i] in qs;
      }
  }

  // ---------------------------------------------------------------------
  // The head marker.

  /** A composite end is marked with the name of the cluster the node walk draws for it. */
  lemma BoundaryNamesItsCluster(states: seq<State>, s: State)
    requires Coherent(All(states)) && s in All(states) && !s.IsLeaf()
    ensures exists p :: p in Walk(states, [], Blank).clusters && |p| > 0 && p[|p| - 1] == Boundary(s)
  {
    WalkDrawsEveryState(states);
  }

  /**
   * The head marker as written names no cluster for a nested composite
   * destination: in a machine A > B > C the state "A_B" is drawn as the
   * cluster "cluster_B", while the marker names "cluster_A_B".
   */
  lemma HeadMarkerMissesNestedCluster()
    ensures
      var c := State("A_B_C", "C", []);
      var b := State("A_B", "B", [c]);
      var a := State("A", "A", [b]);
      var sk := Walk([a, b, c], [], Blank);
      && HeadBoundaryAsWritten(b) == "cluster_A_B"
      && Boundary(b) == "cluster_B"
      && (forall p :: p in sk.clusters && |p| > 0 ==> p[|p| - 1] != HeadBoundaryAsWritten(b))
      && (exists p :: p in sk.clusters && |p| > 0 && p[|p| - 1] == Boundary(b))
  {
    var c := State("A_B_C", "C", []);
    var b := State("A_B", "B", [c]);
    var a := State("A", "A", [b]);
    NestedWalkClusters(a, b, c);
    assert "cluster_A_B" != "cluster_A";
    assert "cluster_A_B" != "cluster_B";
  }

  /** The node walk over the machine A > B > C draws the clusters A and A > B, named after A and B. */
  lemma NestedWalkClusters(a: State, b: State, c: State)
    requires c == State("A_B_C", "C", []) && b == State("A_B", "B", [c]) && a == State("A", "A", [b])
    ensures Walk([a, b, c], [], Blank).clusters.Keys == {["cluster_A"], ["cluster_A", "cluster_B"]}
  {
    assert ClusterId(a) == "cluster_A" && ClusterId(b) == "cluster_B";
    assert [] + ["cluster_A"] == ["cluster_A"];
    assert ["cluster_A"] + ["cluster_B"] == ["cluster_A", "cluster_B"];
    var sk1 := OpenCluster(a, [], Blank);
    var sk2 := OpenCluster(b, ["cluster_A"], sk1);
    var sk3 := DrawLeaf(c, ["cluster_A", "cluster_B"], sk2);
    assert Walk([c], ["cluster_A", "cluster_B"], sk2) == sk3;
    assert Visit(b, ["cluster_A"], sk1) == sk3;
    assert Walk([b], ["cluster_A"], sk1) == sk3;
    assert Visit(a, [], Blank) == sk3;
    assert sk3.seen == ["A", "A_B", "A_B_C"];
    assert Walk([a, b, c], [], Blank) == Walk([b, c], [], sk3);
    assert Walk([b, c], [], sk3) == Walk([c], [], sk3);
    assert Walk([a, b, c], [], Blank) == sk3;
  }
}
