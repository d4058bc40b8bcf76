# Diagrams of a state machine, modelled in Dafny

This project models the diagram extension of the `transitions` state-machine
library (`transitions/extensions/diagrams.py`). It covers five parts:

- **Drawing** (`AGraph.get_graph`). Every leaf state becomes a node. Every
  composite state becomes a nested `cluster_<local name>` subgraph. Every
  transition becomes an edge between the first leaves of its ends, labelled
  with the event name and, optionally, its guards. Edges for the same pair
  are merged into one with labels joined by `" | "`. Blanket `to_…`
  auto-transition events and the "parent to first child" self edge are
  dropped.
- **Styling** (`set_node_style`, `set_edge_style`, `set_graph_style`,
  `reset_nodes`, `set_node_state`, `set_edge_state`). The fixed style table
  has the roles `default`, `active` and `previous`.
- **The transition hook** (`TransitionGraphSupport._change_state`). It resets
  the nodes, marks the source `previous` and the fired edge `previous`, and
  marks the destination `active`.
- **The region of interest** (`_graph_roi`). This is a new graph that holds
  the active node and its relevant neighbours.
- **The machine side** (`GraphMachine._get_graph`, `add_states`,
  `add_transition`). Each model has its own graph, which is drawn lazily and
  redrawn when the structure of the machine changes.

The graph library is replaced by a small class, `AbstractGraph.Graph`. It
holds nodes with their own attributes, the cluster each node was added to,
nested clusters keyed by their path of cluster names, and edges keyed by
their (source, destination) pair, together with the node defaults of the
graph. The drawing code is imperative and is modelled as methods on
`GraphBuilder.AGraph` and on `Graph`. These methods are proved equal to
pure specification functions: `NodeWalk.Walk`, `EdgeSpec.ProcessEvents`,
`LiveState.Change` and `RegionOfInterest.Roi`. The properties of the diagram
are lemmas about those functions.

Modules, in dependency order:

| module | file | contents |
|---|---|---|
| `Strings` | strings.dfy | join, split and their round trips |
| `Styles` | styles.dfy | the style table, `attr.update`, role exclusivity |
| `HostMachine` | hostmachine.dfy | the host machine as data: state tree, transitions, events, `get_state`, first leaf |
| `AbstractGraph` | graph.dfy | the graph class |
| `Sketches` | sketch.dfy | a value view of a graph under construction |
| `NodeWalk` | nodewalk.dfy | `_add_nodes` as a function, and what it draws |
| `Labels` | labels.dfy | `_transition_label` |
| `EdgeSpec` | edges.dfy | `_add_edges` as a function, its requests, merging, and the whole diagram |
| `GraphBuilder` | builder.dfy | the `AGraph` class, with loops, proved against the above |
| `LiveState` | livestate.dfy | the style applicators, reset, node/edge marking, `_change_state` |
| `RegionOfInterest` | roi.dfy | `_graph_roi` |
| `DiagramOwner` | owner.dfy | models, `_get_graph`, the redraw after `add_states`/`add_transition` |

## Model

| member | source | states |
|---|---|---|
| Styles.NodeStyle | transitions/extensions/diagrams.py:37-54 | every node role sets both `color` and `fillcolor` |
| Styles.EdgeStyle | transitions/extensions/diagrams.py:55-64 | every edge role sets `color` |
| Styles.Update | transitions/extensions/diagrams.py:271-285 | `attr.update(style)`: the keys are the union; the style's values win; the other keys are kept |
| Styles.NodeRolesExclusive | transitions/extensions/diagrams.py:37-54 | an element can bear at most one node role, because the roles differ in `color` |
| Styles.EdgeRolesExclusive | transitions/extensions/diagrams.py:55-64 | an element can bear at most one edge role |
| Styles.ResetClearsRoles | transitions/extensions/diagrams.py:236-238 | after a node is reset to `default`, it bears no other role, whatever it bore before |
| Strings.Join | transitions/extensions/diagrams.py:127-130 | joining one part gives that part; a join starts with its first part |
| Strings.JoinSnoc | transitions/extensions/diagrams.py:127-130 | appending a part appends the separator and that part |
| Strings.Split | transitions/extensions/diagrams.py:246 | `str.split(sep)` yields at least one part, and no part holds the separator |
| Strings.SplitJoin | transitions/extensions/diagrams.py:246 | splitting a join of separator-free parts gives the parts back |
| Strings.JoinSplit | transitions/extensions/diagrams.py:246 | joining the parts of a split gives the string back |
| HostMachine.GetState | transitions/extensions/diagrams.py:94 | `get_state(name)` finds a state with that name, and fails exactly when no state has it |
| HostMachine.FirstLeaf | transitions/extensions/diagrams.py:98-100 | descending through first children ends at a leaf inside the state; a leaf is its own first leaf |
| HostMachine.NotOwnDescendant | transitions/extensions/diagrams.py:71-84 | the state tree is well founded: no state is among its own descendants |
| HostMachine.SubforestInAll | transitions/extensions/diagrams.py:80 | the children of any state in the machine are states of the machine too |
| GraphBuilder.DescendToLeaf | transitions/extensions/diagrams.py:98-100 | the `while len(src.children) > 0` loop reaches the first leaf |
| NodeWalk.Walk | transitions/extensions/diagrams.py:71-84 | the node pass never touches edges and only appends to the seen list |
| NodeWalk.Visit | transitions/extensions/diagrams.py:74-84 | one state's handling never touches edges, only appends to the seen list, and leaves the state's name seen |
| NodeWalk.WalkGrows | transitions/extensions/diagrams.py:71-84 | `_add_nodes` only adds: every node, cluster and seen name it adds belongs to a state it was given, and nothing earlier changes |
| NodeWalk.VisitGrows | transitions/extensions/diagrams.py:74-84 | the same for one state and its subtree |
| NodeWalk.VisitDraws | transitions/extensions/diagrams.py:75-84 | after one state is handled, that state and every state below it are drawn: a node for a leaf, a cluster for a composite |
| NodeWalk.WalkDraws | transitions/extensions/diagrams.py:71-84 | after the loop, every state given and every state below them are drawn and seen |
| NodeWalk.WalkDrawsEveryState | transitions/extensions/diagrams.py:71-84 | from an empty graph, every state name is handled exactly once; the nodes are exactly the leaf names; every composite has a cluster; there are no edges |
| NodeWalk.WalkWithin | transitions/extensions/diagrams.py:71-84 | a walk into a cluster keeps every placed node where it was, and places every new node and cluster inside that cluster |
| NodeWalk.VisitWithin | transitions/extensions/diagrams.py:77-84 | the same for one state; a composite not seen before draws everything inside its own cluster |
| NodeWalk.CompositeHoldsItsLeaves | transitions/extensions/diagrams.py:77-80 | a composite not seen before opens its cluster under the current one; every node its visit adds is a leaf below it and sits inside that cluster, and so does every cluster it adds |
| Labels.ConditionText | transitions/extensions/diagrams.py:128 | a guard's text ends with the callback name, and starts with `!` exactly for a guard that must fail (for a name not starting with `!`) |
| Labels.ConditionRoundTrip | transitions/extensions/diagrams.py:128 | a guard's text (`func` or `!func`) gives back the guard |
| Labels.ConditionTexts | transitions/extensions/diagrams.py:127-130 | one text per guard, in order |
| Labels.TransitionLabel | transitions/extensions/diagrams.py:123-132 | the label starts with the event name, and is exactly the event name unless guards are shown and present |
| Labels.LabelBrackets | transitions/extensions/diagrams.py:124-131 | with guards shown, the label is the event name, ` [`, the guard texts joined by ` & `, and `]` |
| EdgeSpec.Boundary | transitions/extensions/diagrams.py:96-97 | the tail marker: an edge end has a cluster marker exactly when it is composite, and it is the name of that state's cluster |
| EdgeSpec.HeadBoundaryAsWritten | transitions/extensions/diagrams.py:104-107 | the head marker as written: non-empty exactly for a composite destination, built from its qualified name |
| EdgeSpec.HeadMarkersAgree | transitions/extensions/diagrams.py:107 | the head marker as written equals the cluster marker exactly when the destination is a leaf or is not nested (its qualified name is its own name) |
| EdgeSpec.TransitionRequest | transitions/extensions/diagrams.py:101-121 | an unknown destination fails. Otherwise, the edge joins the first leaves of both ends, carries the label, has the tail marker `Boundary(src)` and the head marker as written, `HeadBoundaryAsWritten(dst)`, non-empty exactly for composite ends. It is dropped exactly when both ends share their first leaf and the transition is not a self loop |
| EdgeSpec.ProcessTransitions | transitions/extensions/diagrams.py:101-121 | the transition loop fails only on a state the machine does not know; it keeps the seen list and the clusters |
| EdgeSpec.ProcessGroup | transitions/extensions/diagrams.py:93-121 | one source group: fails only on an unknown state; keeps the seen list and the clusters |
| EdgeSpec.ProcessGroups | transitions/extensions/diagrams.py:93-121 | the loop over source groups: likewise |
| EdgeSpec.ProcessEvents | transitions/extensions/diagrams.py:86-121 | the event loop: likewise, and with every event suppressed it leaves the graph unchanged |
| EdgeSpec.Build | transitions/extensions/diagrams.py:134-156 | the whole diagram fails only on an unknown state; its clusters are exactly those of the node walk |
| EdgeSpec.AddOrMerge | transitions/extensions/diagrams.py:115-121 | an existing edge for the pair gets a vertical-bar separator and the new text appended to its label. Otherwise a new edge is added with label, `ltail` and `lhead`. No other edge changes |
| EdgeSpec.FoldAppend | transitions/extensions/diagrams.py:86-121 | applying requests in two batches is the same as applying them in one |
| EdgeSpec.TransitionsAsRequests | transitions/extensions/diagrams.py:101-121 | the inner loop is the fold of the requests it resolves, or fails on the first unknown destination |
| EdgeSpec.GroupsAsRequests | transitions/extensions/diagrams.py:93-121 | the loop over source groups is likewise a fold of the requests, in order |
| EdgeSpec.EventsAsRequests | transitions/extensions/diagrams.py:87-121 | the loop over events is likewise a fold of the requests, in order |
| EdgeSpec.ShownEvents | transitions/extensions/diagrams.py:89-91 | exactly the events that are not suppressed auto-transition events are kept |
| EdgeSpec.SuppressedEventsIgnored | transitions/extensions/diagrams.py:89-91 | dropping the suppressed events beforehand gives the same diagram |
| EdgeSpec.FoldMerges | transitions/extensions/diagrams.py:115-121 | from no edges: one edge per distinct pair; its label is all texts for that pair joined by vertical-bar separators in order; its markers come from the first request |
| EdgeSpec.FoldKeepsNodes | transitions/extensions/diagrams.py:120-121 | edges between drawn nodes add no node and move none |
| EdgeSpec.BuildShape | transitions/extensions/diagrams.py:134-156 | the diagram either fails on a name that is not a state, or has one node per leaf state, every edge joining two nodes, one edge per distinct pair, and labels merged in definition order |
| EdgeSpec.BoundaryNamesItsCluster | transitions/extensions/diagrams.py:79 | a composite end's marker is the last name of a cluster the node walk draws |
| EdgeSpec.HeadMarkerMissesNestedCluster | transitions/extensions/diagrams.py:107 | in the machine A > B > C, the head marker as written for A_B is `cluster_A_B`, which ends no drawn cluster; the corrected marker `cluster_B` does |
| GraphBuilder.AGraph.constructor | transitions/extensions/diagrams.py:67-68 | a builder starts with no state seen |
| GraphBuilder.AGraph.AddNodes | transitions/extensions/diagrams.py:71-84 | the graph and seen list afterwards are `Walk` of the states from those before |
| GraphBuilder.AGraph.AddState | transitions/extensions/diagrams.py:75-84 | one pass of the node loop is `Visit` of that state |
| GraphBuilder.AGraph.AddEdges | transitions/extensions/diagrams.py:86-91 | the edge pass succeeds exactly when `ProcessEvents` does, and leaves its result |
| GraphBuilder.AGraph.DrawGroups | transitions/extensions/diagrams.py:93-100 | the loop over source groups matches `ProcessGroups`, failing on an unknown source |
| GraphBuilder.AGraph.DrawTransitions | transitions/extensions/diagrams.py:101-121 | the loop over transitions matches `ProcessTransitions` |
| GraphBuilder.AGraph.DrawTransition | transitions/extensions/diagrams.py:102-121 | one transition matches `TransitionRequest` followed by `AddOrMerge`, including the head marker built from the qualified name |
| GraphBuilder.AGraph.DrawEdge | transitions/extensions/diagrams.py:115-121 | adding or merging one edge is `AddOrMerge` |
| GraphBuilder.AGraph.GetGraph | transitions/extensions/diagrams.py:134-156 | a fresh graph with the default node style as node defaults, holding the node walk followed by the edge pass |
| GraphBuilder.Draw | transitions/extensions/diagrams.py:134-156 | a fresh builder draws exactly `Build` of the machine, and fails exactly when it does |
| AbstractGraph.Graph.constructor | transitions/extensions/diagrams.py:146-147 | a new graph is empty, and its node defaults are the default node style |
| AbstractGraph.Graph.AddNode | transitions/extensions/diagrams.py:84 | `add_node` adds or updates the node; the node keeps its first placement |
| AbstractGraph.Graph.AddSubgraph | transitions/extensions/diagrams.py:79 | `add_subgraph` creates or updates the nested cluster at `parent + [id]` |
| AbstractGraph.Graph.AddEdge | transitions/extensions/diagrams.py:121 | `add_edge` adds the edge and creates missing ends as bare top-level nodes |
| AbstractGraph.Graph.SetEdgeAttr | transitions/extensions/diagrams.py:118-119 | `edge.attr[k] = v` changes that one attribute of that one edge |
| AbstractGraph.Graph.UpdateNode | transitions/extensions/diagrams.py:274 | `node.attr.update(style)` on one node, and nothing else |
| AbstractGraph.Graph.UpdateEdge | transitions/extensions/diagrams.py:280 | `edge.attr.update(style)` on one edge, and nothing else |
| AbstractGraph.Graph.UpdateCluster | transitions/extensions/diagrams.py:285 | `graph_attr.update(style)` on one cluster, and nothing else |
| AbstractGraph.AncestorsPresent | transitions/extensions/diagrams.py:245-248 | every non-empty prefix of a cluster's path is a cluster, so the path lookup stops only at a missing cluster |
| LiveState.SetNodeStyle | transitions/extensions/diagrams.py:271-275 | only that node changes, updated with the role's node style |
| LiveState.SetEdgeStyle | transitions/extensions/diagrams.py:277-280 | only that edge changes, updated with the role's edge style |
| LiveState.SetGraphStyle | transitions/extensions/diagrams.py:282-285 | only that cluster changes, updated with the role's node style |
| LiveState.ResetNodes | transitions/extensions/diagrams.py:236-238 | every node is updated with the default style; clusters and edges are unchanged |
| LiveState.ResetShows | transitions/extensions/diagrams.py:236-238 | after the reset, every node shows the default style |
| LiveState.ClusterPath | transitions/extensions/diagrams.py:246-248 | the lookup of a name that is not a node descends through one cluster per part of the name: at least one, each named `cluster_` followed by a part free of the separator; a name without the separator leads to its own cluster alone |
| LiveState.ClusterPathOfNestedName | transitions/extensions/diagrams.py:245-248 | a name built from local names is looked up by the cluster names of those local names |
| LiveState.MarkNode | transitions/extensions/diagrams.py:240-250 | succeeds exactly when the name is a node or its cluster path is a cluster. A node is styled with the role and nothing else changes; otherwise the cluster at the name's path is styled and every node is unchanged |
| LiveState.SetNodeState | transitions/extensions/diagrams.py:240-250 | the method, with its path loop, does what `MarkNode` says; a failed lookup changes nothing |
| LiveState.MarkEdge | transitions/extensions/diagrams.py:215-224 | succeeds exactly when auto-transitions are hidden or the edge exists; the edges afterwards are the old ones plus that edge; clusters are unchanged |
| LiveState.ResetEdges | transitions/extensions/diagrams.py:221-223 | every edge is kept and afterwards bears the default edge style |
| LiveState.MarkEdgeEnds | transitions/extensions/diagrams.py:217-219 | on a graph whose edges join nodes, both ends of a marked edge are nodes afterwards |
| LiveState.MarkEdgeRoles | transitions/extensions/diagrams.py:221-224 | afterwards that edge alone bears the role and every other edge bears the default; no edge loses a key the edge styles do not set |
| LiveState.MarkEdgeNodes | transitions/extensions/diagrams.py:217-218 | marking an edge keeps every node; a node it creates has no attributes of its own |
| LiveState.SetEdgeState | transitions/extensions/diagrams.py:215-224 | the method, with its reset loop, does what `MarkEdge` says; a failed lookup changes nothing |
| LiveState.Change | transitions/extensions/diagrams.py:292-316 | the hook on values succeeds only when the destination, and the source if any, are states of the machine |
| LiveState.Fire | transitions/extensions/diagrams.py:303-316 | the source part of the hook, when it gets through, leaves the edge between the first leaves of source and destination in the graph |
| LiveState.FireTarget | transitions/extensions/diagrams.py:309-316 | on a graph whose edges join nodes, the destination's first leaf is a node after the source part of the hook |
| LiveState.FireNodes | transitions/extensions/diagrams.py:303-316 | after the source part of the hook: the destination's first leaf shows `active`, the source's node (if it is a node) shows `previous`, and every other node shows `default` |
| LiveState.FireEdges | transitions/extensions/diagrams.py:309-314 | the fired edge exists and is the only edge showing `previous` |
| LiveState.OneActive | transitions/extensions/diagrams.py:316 | when every node shows its last role, at most one node shows `active`, and only the target; exactly one when the target is a node |
| LiveState.ChangeNodeRoles | transitions/extensions/diagrams.py:292-316 | after the hook, every node shows the role it was last given |
| LiveState.ChangeRoles | transitions/extensions/diagrams.py:292-316 | after the hook, a node shows `active` exactly when it is the target. The target is a node, so exactly one node is active, when there is a source (on a graph whose edges join nodes) or when the destination is drawn as a node; a composite destination without a source marks its cluster, and no node is active. With a source, the edge between the first leaves of both ends is the only edge showing `previous` |
| LiveState.ChangeState | transitions/extensions/diagrams.py:292-316 | the hook on the graph leaves what `Change` computes, and fails exactly when `Change` does |
| RegionOfInterest.Roi | transitions/extensions/diagrams.py:252-269 | the region exists exactly when the active state is a node |
| RegionOfInterest.RoiNeighbourhood | transitions/extensions/diagrams.py:256-269 | the region holds the active node, every edge leaving it, and exactly those entering edges whose source is filled `previous`, and no other edge. It holds only nodes joined to the active node by a kept edge. Attributes are copied unchanged, and everything sits at the top level |
| RegionOfInterest.RoiEdge | transitions/extensions/diagrams.py:258-269 | one pass of the loop copies a kept edge and its other end with their attributes, and skips any other edge |
| RegionOfInterest.CopyIncident | transitions/extensions/diagrams.py:258-269 | after the loop, the new graph is the region drawn from every edge at the active node |
| RegionOfInterest.GraphRoi | transitions/extensions/diagrams.py:252-269 | a fresh graph with default node defaults, holding `Roi`. It fails exactly when the active state is not a node. With equal node defaults, every copied node shows what it showed in the source graph |
| DiagramOwner.Diagram | transitions/extensions/diagrams.py:205 | the unmarked diagram exists exactly when drawing succeeds |
| DiagramOwner.Model.constructor | transitions/extensions/diagrams.py:204 | a model starts in its initial state, with no graph |
| DiagramOwner.GraphMachine.constructor | transitions/extensions/diagrams.py:171-186 | the machine holds its definition, its configuration (`show_conditions`, `show_auto_transitions`, the separator) and its models; no model has been drawn yet, the first drawing is left to `GetGraph` |
| DiagramOwner.GraphMachine.GetGraph | transitions/extensions/diagrams.py:201-208 | a model without a graph, or any model when a redraw is forced, gets a fresh drawing with its state marked `active`; otherwise its graph is kept. Without `show_roi` the call succeeds exactly when a graph is kept or the fresh drawing and its marking succeed; with `show_roi` it succeeds exactly when, in addition, the model's state is a node of its graph, and the result is the region graph |
| DiagramOwner.GraphMachine.Transit | transitions/extensions/diagrams.py:292-317 | the model's graph is restyled as `Change` says; the model moves to the destination exactly when the hook gets through |
| DiagramOwner.GraphMachine.Redraw | transitions/extensions/diagrams.py:228-229 | `get_graph(force_new=True)` leaves the freshly drawn diagram with the model's state marked, when there is one |
| DiagramOwner.GraphMachine.RedrawAt | transitions/extensions/diagrams.py:228-229 | one pass redraws one model and keeps the graphs already redrawn |
| DiagramOwner.GraphMachine.Restructure | transitions/extensions/diagrams.py:226-234 | after `add_states`/`add_transition`, every model shows the new diagram with its own state marked, or the redraw stops at the first model whose drawing fails |

## Left out

- Rendering and the graph library are not modelled. The graph library is
  stood in for by `AbstractGraph.Graph`; missing attributes read as `""`.
- The graph title, `machine_attributes` and `compound` are not modelled,
  because they do not affect the structure or the styles of the diagram.
- The host machine is not part of this model. This covers its `get_state`,
  `add_states`, `add_transition` and the state change itself.
  - States, events and the separator are given as data (`HostMachine`).
  - Adding states or transitions is modelled as the machine receiving a new
    `Definition`.
  - The state change is modelled as `model.state := dest`.
- Pickling, `__init__` with its monkey-patching of `get_graph` onto models,
  `get_combined_graph` and the abstract `Diagram` base are not modelled.
  They are plumbing around the core. The first drawing that `__init__` does
  for every model (lines 188-194) is left to the first `GetGraph` call,
  which draws a model that has no graph yet.
- Exceptions are not modelled as exceptions. A failed lookup is a `false`
  result or an `Err`/`None` value. Where the source would stop half way,
  the model also stops, except in these cases:
  - `LiveState.SetNodeState` and `LiveState.SetEdgeState` look up first and
    change nothing on failure.
  - `LiveState.ChangeState` guarantees nothing about a graph after a failed
    hook.
- Edge keys are not modelled. `set_edge_state` passes the event name as the
  third argument of `add_edge`, which is the edge key, not a label. The
  created edge therefore has no attributes. Parallel edges between one pair
  do not arise in the core.
- Iteration order of nodes and edges is not modelled: the reset loops and
  the region loop take them in an unspecified order, which the result does
  not depend on. Events, source groups and transitions are handled in
  definition order (merged labels depend on it), and models in the order of
  the machine's model list.
- The state separator is a single character (`Config.separator`); the host's
  `NestedState.separator` is a string, and splitting on a separator of
  several characters is not modelled.
- Guard conditions are their callback names as strings with a `target`
  flag; callables and how a callable object would be rendered in a label
  are not modelled.
- NodeWalk.WalkDrawsEveryState: states only that every composite has a
  cluster named after it, not that composites and clusters correspond one to
  one. That depends on the order of the state dictionary: a nested state
  listed before its parent is drawn at the top level, where its cluster path
  can coincide with that of another composite with the same own name.
  `NodeWalk.CompositeHoldsItsLeaves` states what holds in any order.
- `reset_nodes` resets nodes only. A cluster marked `active` or `previous`
  keeps that style until it is marked again; the model does the same.

## Findings

| source | as written | input that shows it | evidently intended | confidence | as-written member | corrected member |
|---|---|---|---|---|---|---|
| transitions/extensions/diagrams.py:107 | `lhead = 'cluster_' + dst.name` uses the qualified name, while clusters are named `'cluster_' + state._name` (line 79) and `ltail` uses `src._name` (line 97) | the machine A > B > C with a transition to `A_B`: the head marker is `cluster_A_B`, but the cluster drawn for `A_B` is `cluster_B` | `'cluster_' + dst._name`, so the marker names the destination's cluster | medium, not executed | EdgeSpec.HeadMarkerMissesNestedCluster | EdgeSpec.BoundaryNamesItsCluster |

The diagram the model builds uses the head marker as written
(`EdgeSpec.HeadBoundaryAsWritten`); `EdgeSpec.Boundary` is the corrected
marker, the one the tail already uses.

Where the described behaviour and the code differ, the model follows the
code:

- `set_edge_state` creates a missing edge with the event name as its key,
  not as its label.
- Without a source, `_change_state` does not descend the destination to a
  leaf, so a composite destination marks its cluster.
- The source is marked `previous` before it is descended, so a composite
  source marks its cluster rather than its first leaf.
