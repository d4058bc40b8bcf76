/**
 * The depth-first walk that turns the state tree into nodes and clusters:
 * a leaf state becomes one node, a composite state one cluster holding the
 * walk of its children, and a name already in `seen` is skipped.
 */
module NodeWalk {
  import opened Styles
  import opened HostMachine
  import opened AbstractGraph
  import opened Sketches

  /** A leaf is added with the default node shape as its only own attribute. */
  function LeafAttrs(): Attrs {
    map["shape" := NodeStyle(Default)["shape"]]
  }

  /** A cluster is labelled with the qualified state name and ranked `same`. */
  function ClusterAttrs(s: State): Attrs {
    map["label" := s.name, "rank" := "same"]
  }

  /** Clusters are named after the state's own (unqualified) name. */
  function ClusterId(s: State): string {
    "cluster_" + s.local
  }

  function DrawLeaf(s: State, path: seq<string>, sk: Sketch): Sketch {
    sk.(seen := sk.seen + [s.name],
        nodes := sk.nodes[s.name := Update(OwnAttrs(sk.nodes, s.name), LeafAttrs())],
        placement := if s.name in sk.nodes then sk.placement else sk.placement[s.name := path])
  }

  function OpenCluster(s: State, path: seq<string>, sk: Sketch): Sketch {
    var p := path + [ClusterId(s)];
    sk.(seen := sk.seen + [s.name],
        clusters := sk.clusters[p := Update(OwnAttrs(sk.clusters, p), ClusterAttrs(s))])
  }

  /** The walk over `states`, drawing into the cluster at `path`. */
  function Walk(states: seq<State>, path: seq<string>, sk: Sketch): (r: Sketch)
    ensures r.edges == sk.edges
    ensures sk.seen <= r.seen
    decreases RankAll(states), 1
  {
    if states == [] then sk else Walk(states[1..], path, Visit(states[0], path, sk))
  }

  function Visit(s: State, path: seq<string>, sk: Sketch): (r: Sketch)
    ensures r.edges == sk.edges
    ensures sk.seen <= r.seen
    ensures s.name in r.seen
    decreases Rank(s), 0
  {
    if s.name in sk.seen then sk
    else if s.IsLeaf() then DrawLeaf(s, path, sk)
    else
      var sk0 := OpenCluster(s, path, sk);
      var r := Walk(s.children, path + [ClusterId(s)], sk0);
      assert r.seen[|sk.seen|] == sk0.seen[|sk.seen|];
      r
  }

  /**
   * How a walk over the states `u` may change a sketch: `seen` only grows at
   * its end, by names of states in `u` not seen before; nodes are added only
   * for leaves of `u`; clusters are only added; edges are untouched.
   */
  ghost predicate Grows(sk: Sketch, sk2: Sketch, u: set<State>) {
    && |sk.seen| <= |sk2.seen| && sk2.seen[..|sk.seen|] == sk.seen
    && (NoDup(sk.seen) ==> NoDup(sk2.seen))
    && SeenSet(sk2) - SeenSet(sk) <= Names(u)
    && sk.nodes.Keys <= sk2.nodes.Keys && sk2.nodes.Keys - sk.nodes.Keys <= LeafNames(u)
    && sk.clusters.Keys <= sk2.clusters.Keys
    && sk2.edges == sk.edges
    && (sk.placement.Keys == sk.nodes.Keys ==> sk2.placement.Keys == sk2.nodes.Keys)
  }

  lemma GrowsTrans(a: Sketch, b: Sketch, c: Sketch, u: set<State>, u2: set<State>)
    requires Grows(a, b, u) && Grows(b, c, u2)
    ensures Grows(a, c, u + u2)
  {
    assert c.seen[..|a.seen|] == c.seen[..|b.seen|][..|a.seen|];
    assert Names(u) + Names(u2) == Names(u + u2);
    assert LeafNames(u) + LeafNames(u2) == LeafNames(u + u2);
    assert SeenSet(c) - SeenSet(a) <= (SeenSet(c) - SeenSet(b)) + (SeenSet(b) - SeenSet(a));
  }

  lemma OneState(s: State)
    ensures All([s]) == {s} + All(s.children)
  {
    assert [s][1..] == [];
  }

  lemma {:induction false} WalkGrows(states: seq<State>, path: seq<string>, sk: Sketch)
    ensures Grows(sk, Walk(states, path, sk), All(states))
    decreases RankAll(states), 1
  {
    if states != [] {
      var sk1 := Visit(states[0], path, sk);
      VisitGrows(states[0], path, sk);
      WalkGrows(states[1..], path, sk1);
      GrowsTrans(sk, sk1, Walk(states, path, sk), All([states[0]]), All(states[1..]));
      OneState(states[0]);
    }
  }

  lemma {:induction false} VisitGrows(s: State, path: seq<string>, sk: Sketch)
    ensures Grows(sk, Visit(s, path, sk), All([s]))
    decreases Rank(s), 0
  {
    OneState(s);
    if s.name in sk.seen {
    } else if s.IsLeaf() {
      var sk1 := DrawLeaf(s, path, sk);
      assert sk1.seen[..|sk.seen|] == sk.seen;
      assert SeenSet(sk1) == SeenSet(sk) + {s.name};
    } else {
      var sk0 := OpenCluster(s, path, sk);
      assert sk0.seen[..|sk.seen|] == sk.seen;
      assert SeenSet(sk0) == SeenSet(sk) + {s.name};
      assert Grows(sk, sk0, {s});
      WalkGrows(s.children, path + [ClusterId(s)], sk0);
      GrowsTrans(sk, sk0, Visit(s, path, sk), {s}, All(s.children));
    }
  }

  /** There is a cluster named after `s`. */
  ghost predicate HasCluster(sk: Sketch, s: State) {
    exists p :: p in sk.clusters && |p| > 0 && p[|p| - 1] == ClusterId(s)
  }

  /** `x` is drawn: as a node if a leaf, as a cluster if composite, with all its children seen. */
  ghost predicate Drawn(sk: Sketch, x: State) {
    && (x.IsLeaf() ==> x.name in sk.nodes)
    && (!x.IsLeaf() ==> HasCluster(sk, x))
    && (forall c :: c in x.children ==> c.name in sk.seen)
  }

  /** Every state of `u` whose name has been seen is drawn. */
  ghost predicate Good(sk: Sketch, u: set<State>) {
    forall x :: x in u && x.name in sk.seen ==> Drawn(sk, x)
  }

  lemma DrawnMono(sk: Sketch, sk2: Sketch, u: set<State>, x: State)
    requires Grows(sk, sk2, u) && Drawn(sk, x)
    ensures Drawn(sk2, x)
  {
    if !x.IsLeaf() {
      var p :| p in sk.clusters && |p| > 0 && p[|p| - 1] == ClusterId(x);
      assert p in sk2.clusters;
    }
    forall c | c in x.children
      ensures c.name in sk2.seen
    {
      assert c.name in sk2.seen[..|sk.seen|];
    }
  }

  /**
   * Whatever a walk newly marks seen comes from the states walked, so with
   * coherent names it is drawn when the walked part is.
   */
  lemma CarryGood(sk: Sketch, sk1: Sketch, part: set<State>, whole: set<State>, u: set<State>)
    requires Coherent(u) && whole <= u && part <= u
    requires Good(sk, whole) && Grows(sk, sk1, part) && Good(sk1, part)
    ensures Good(sk1, whole)
  {
    forall x | x in whole && x.name in sk1.seen
      ensures Drawn(sk1, x)
    {
      if x.name in sk.seen {
        DrawnMono(sk, sk1, part, x);
      } else {
        assert x.name in SeenSet(sk1) - SeenSet(sk);
        var y :| y in part && y.name == x.name;
        assert x == y;
      }
    }
  }

  lemma {:induction false} WalkDraws(states: seq<State>, path: seq<string>, sk: Sketch, u: set<State>)
    requires Coherent(u) && All(states) <= u
    requires Good(sk, All(states))
    ensures Good(Walk(states, path, sk), All(states))
    ensures forall x :: x in states ==> x.name in Walk(states, path, sk).seen
    decreases RankAll(states), 1
  {
    if states != [] {
      var s0, rest := states[0], states[1..];
      OneState(s0);
      var sk1 := Visit(s0, path, sk);
      var sk2 := Walk(rest, path, sk1);
      VisitDraws(s0, path, sk, u);
      VisitGrows(s0, path, sk);
      CarryGood(sk, sk1, All([s0]), All(rest), u);
      WalkDraws(rest, path, sk1, u);
      WalkGrows(rest, path, sk1);
      CarryGood(sk1, sk2, All(rest), All([s0]), u);
      assert All(states) == All([s0]) + All(rest);
      assert s0.name in sk2.seen[..|sk1.seen|];
      forall x | x in states
        ensures x.name in sk2.seen
      {
        if x != s0 {
          assert x in rest;
        }
      }
    }
  }

  lemma {:induction false} VisitDraws(s: State, path: seq<string>, sk: Sketch, u: set<State>)
    requires Coherent(u) && All([s]) <= u
    requires Good(sk, All([s]))
    ensures Good(Visit(s, path, sk), All([s]))
    ensures s.name in Visit(s, path, sk).seen
    decreases Rank(s), 0
  {
    OneState(s);
    if s.name in sk.seen {
    } else if s.IsLeaf() {
      assert All(s.children) == {};
    } else {
      var p := path + [ClusterId(s)];
      var sk0 := OpenCluster(s, path, sk);
      var sk2 := Walk(s.children, p, sk0);
      OpenedGood(s, path, sk, u);
      WalkDraws(s.children, p, sk0, u);
      WalkGrows(s.children, p, sk0);
      assert p in sk2.clusters;
      assert Drawn(sk2, s);
      assert s.name in sk2.seen[..|sk0.seen|];
    }
  }

  /** Opening the cluster of a state not seen before leaves its descendants' drawings intact. */
  lemma OpenedGood(s: State, path: seq<string>, sk: Sketch, u: set<State>)
    requires Coherent(u) && All([s]) <= u && Good(sk, All([s]))
    requires s.name !in sk.seen && !s.IsLeaf()
    ensures Grows(sk, OpenCluster(s, path, sk), {s})
    ensures Good(OpenCluster(s, path, sk), All(s.children))
  {
    OneState(s);
    var sk0 := OpenCluster(s, path, sk);
    assert sk0.seen[..|sk.seen|] == sk.seen;
    assert SeenSet(sk0) == SeenSet(sk) + {s.name};
    assert Grows(sk, sk0, {s});
    NotOwnDescendant(s);
    forall x | x in All(s.children) && x.name in sk0.seen
      ensures Drawn(sk0, x)
    {
      if x.name == s.name {
        assert false;
      }
      assert x.name in sk.seen;
      DrawnMono(sk, sk0, {s}, x);
    }
  }

  /** Seen names of a forest whose seen states are drawn reach all the way down. */
  lemma {:induction false} GoodCovers(ss: seq<State>, sk: Sketch)
    requires Good(sk, All(ss))
    requires forall x :: x in ss ==> x.name in sk.seen
    ensures forall x :: x in All(ss) ==> x.name in sk.seen
  {
    if ss != [] {
      OneState(ss[0]);
      assert All(ss) == {ss[0]} + All(ss[0].children) + All(ss[1..]);
      assert Drawn(sk, ss[0]);
      GoodCovers(ss[0].children, sk);
      GoodCovers(ss[1..], sk);
    }
  }

  /**
   * Walking the machine's states from an empty graph handles every state
   * name exactly once and draws one node per leaf state and a cluster for
   * every composite state.
   */
  lemma WalkDrawsEveryState(states: seq<State>)
    requires Coherent(All(states))
    ensures var sk := Walk(states, [], Blank);
      && NoDup(sk.seen)
      && SeenSet(sk) == Names(All(states))
      && sk.nodes.Keys == LeafNames(All(states))
      && sk.edges == map[]
      && sk.placement.Keys == sk.nodes.Keys
      && (forall x :: x in All(states) && !x.IsLeaf() ==> HasCluster(sk, x))
  {
    var sk := Walk(states, [], Blank);
    WalkGrows(states, [], Blank);
    WalkDraws(states, [], Blank, All(states));
    GoodCovers(states, sk);
    forall x | x in All(states) && x.IsLeaf()
      ensures x.name in sk.nodes
    {
      assert Drawn(sk, x);
    }
    assert SeenSet(Blank) == {};
  }

  // ---------------------------------------------------------------------
  // Containment: what a composite's visit draws sits inside its cluster.

  /**
   * What a walk adds lies inside the cluster at `prefix`: nodes already
   * placed keep their place, every new node is placed at or below `prefix`,
   * and every new cluster path extends `prefix`.
   */
  ghost predicate Within(sk: Sketch, sk2: Sketch, prefix: seq<string>) {
    && (forall n :: n in sk.placement ==> n in sk2.placement && sk2.placement[n] == sk.placement[n])
    && (forall n :: n in sk2.placement && n !in sk.placement ==> prefix <= sk2.placement[n])
    && (forall p :: p in sk2.clusters && p !in sk.clusters ==> prefix <= p)
  }

  lemma WithinTrans(a: Sketch, b: Sketch, c: Sketch, prefix: seq<string>)
    requires Within(a, b, prefix) && Within(b, c, prefix)
    ensures Within(a, c, prefix)
  {
  }

  lemma WithinWiden(a: Sketch, b: Sketch, prefix: seq<string>, id: string)
    requires Within(a, b, prefix + [id])
    ensures Within(a, b, prefix)
  {
    forall n | n in b.placement && n !in a.placement
      ensures prefix <= b.placement[n]
    {
      assert b.placement[n][..|prefix|] == (prefix + [id])[..|prefix|];
    }
    forall q | q in b.clusters && q !in a.clusters
      ensures prefix <= q
    {
      assert q[..|prefix|] == (prefix + [id])[..|prefix|];
    }
  }

  lemma {:induction false} WalkWithin(states: seq<State>, path: seq<string>, sk: Sketch)
    requires sk.placement.Keys == sk.nodes.Keys
    ensures Within(sk, Walk(states, path, sk), path)
    decreases RankAll(states), 1
  {
    if states != [] {
      var sk1 := Visit(states[0], path, sk);
      VisitWithin(states[0], path, sk);
      VisitGrows(states[0], path, sk);
      WalkWithin(states[1..], path, sk1);
      WithinTrans(sk, sk1, Walk(states, path, sk), path);
    }
  }

  /**
   * A visit draws inside the cluster at `path`; the visit of a composite
   * not seen before draws inside the composite's own cluster.
   */
  lemma {:induction false} VisitWithin(s: State, path: seq<string>, sk: Sketch)
    requires sk.placement.Keys == sk.nodes.Keys
    ensures Within(sk, Visit(s, path, sk), path)
    ensures s.name !in sk.seen && !s.IsLeaf() ==> Within(sk, Visit(s, path, sk), path + [ClusterId(s)])
    decreases Rank(s), 0
  {
    if s.name in sk.seen {
    } else if s.IsLeaf() {
    } else {
      var p := path + [ClusterId(s)];
      var sk0 := OpenCluster(s, path, sk);
      assert Within(sk, sk0, p);
      WalkWithin(s.children, p, sk0);
      WithinTrans(sk, sk0, Visit(s, path, sk), p);
      WithinWiden(sk, Visit(s, path, sk), path, ClusterId(s));
    }
  }

  /**
   * The visit of a composite not seen before opens its cluster, named after
   * the state, under the cluster at `path`; every node it adds is a leaf
   * below the composite and sits inside that cluster, and so does every
   * cluster it adds.
   */
  lemma CompositeHoldsItsLeaves(s: State, path: seq<string>, sk: Sketch)
    requires sk.placement.Keys == sk.nodes.Keys
    requires s.name !in sk.seen && !s.IsLeaf()
    ensures var sk2, p := Visit(s, path, sk), path + [ClusterId(s)];
      && p in sk2.clusters
      && (forall n :: n in sk2.nodes && n !in sk.nodes ==> n in LeafNames(All(s.children)) && n in sk2.placement && p <= sk2.placement[n])
      && (forall q :: q in sk2.clusters && q !in sk.clusters ==> p <= q)
  {
    var sk2, p := Visit(s, path, sk), path + [ClusterId(s)];
    VisitWithin(s, path, sk);
    VisitGrows(s, path, sk);
    var sk0 := OpenCluster(s, path, sk);
    WalkGrows(s.children, p, sk0);
    OneState(s);
    assert LeafNames(All([s])) == LeafNames(All(s.children));
  }
}
