/**
 * What the diagram code reads from the hierarchical state machine it draws:
 * the state tree, the events with their transitions, the two display flags
 * and the nesting separator, and the state lookup by name.
 */
module HostMachine {

  datatype Option<T> = None | Some(value: T)

  /**
   * A state: `name` is the qualified name (parent names joined by the
   * separator), `local` the state's own name (`_name`), `children` the
   * ordered substates (empty for a leaf).
   */
  datatype State = State(name: string, local: string, children: seq<State>) {
    predicate IsLeaf() {
      children == []
    }
  }

  /** A guard: the callback name and whether it must hold (`target`) or fail. */
  datatype Condition = Condition(func: string, target: bool)

  datatype Transition = Transition(source: string, dest: string, conditions: seq<Condition>)

  /** An event: its name and, in definition order, source name -> transitions from it. */
  datatype Event = Event(name: string, transitions: seq<(string, seq<Transition>)>)

  /**
   * The machine definition: `states` is the machine's state dictionary in
   * order; nested states appear in it too, besides being children of their
   * parent.
   */
  datatype Definition = Definition(states: seq<State>, events: seq<Event>)

  /** `show_conditions`, `show_auto_transitions`, and `NestedState.separator`. */
  datatype Config = Config(showConditions: bool, showAutoTransitions: bool, separator: char)

  /** The size of a state tree, to argue that a state is not among its own descendants. */
  function Rank(s: State): nat
  {
    1 + RankAll(s.children)
  }

  function RankAll(ss: seq<State>): nat
  {
    if ss == [] then 0 else Rank(ss[0]) + RankAll(ss[1..])
  }

  /** The states of a forest and all their descendants. */
  function All(ss: seq<State>): set<State>
  {
    if ss == [] then {} else {ss[0]} + All(ss[0].children) + All(ss[1..])
  }

  function Names(u: set<State>): set<string> {
    set s | s in u :: s.name
  }

  function LeafNames(u: set<State>): set<string> {
    set s | s in u && s.IsLeaf() :: s.name
  }

  /** A name identifies one state: the host hands out each state object once. */
  predicate Coherent(u: set<State>) {
    forall a, b :: a in u && b in u && a.name == b.name ==> a == b
  }

  /** `machine.get_state(name)`: the state registered under `name`, if any. */
  function GetState(states: seq<State>, name: string): (r: Option<State>)
    ensures r.Some? ==> r.value in states && r.value.name == name
    ensures r.None? <==> forall s :: s in states ==> s.name != name
  {
    if states == [] then None
    else if states[0].name == name then Some(states[0])
    else GetState(states[1..], name)
  }

  /** The first-child chain: follow `children[0]` until a leaf is reached. */
  function FirstLeaf(s: State): (leaf: State)
    ensures leaf.IsLeaf()
    ensures s.IsLeaf() ==> leaf == s
    ensures leaf in All([s])
    ensures !s.IsLeaf() ==> leaf in All(s.children)
  {
    if s.IsLeaf() then s
    else
      var leaf := FirstLeaf(s.children[0]);
      assert All(s.children) == {s.children[0]} + All(s.children[0].children) + All(s.children[1..]);
      assert All([s]) == {s} + All(s.children) + All([]);
      leaf
  }

  lemma {:induction false} AllMember(ss: seq<State>, x: State)
    requires x in ss
    ensures x in All(ss)
  {
    if ss[0] != x {
      AllMember(ss[1..], x);
    }
  }

  /** Every state of the forest is at most as large as the whole forest. */
  lemma {:induction false} RankBound(ss: seq<State>, x: State)
    requires x in All(ss)
    ensures Rank(x) <= RankAll(ss)
  {
    if x != ss[0] {
      if x in All(ss[0].children) {
        RankBound(ss[0].children, x);
      } else {
        RankBound(ss[1..], x);
      }
    }
  }

  /** A state of a sequence is at most as large as the whole sequence. */
  lemma RankOfMember(ss: seq<State>, i: int)
    requires 0 <= i < |ss|
    ensures Rank(ss[i]) <= RankAll(ss)
  {
    AllMember(ss, ss[i]);
    RankBound(ss, ss[i]);
  }

  /** A state is not one of its own descendants. */
  lemma NotOwnDescendant(s: State)
    ensures s !in All(s.children)
  {
    if s in All(s.children) {
      RankBound(s.children, s);
    }
  }

  /** The forest is closed under taking children. */
  lemma {:induction false} ChildrenInAll(ss: seq<State>, x: State, c: State)
    requires x in All(ss) && c in x.children
    ensures c in All(ss) && All(x.children) <= All(ss)
  {
    if x == ss[0] {
      AllMember(x.children, c);
    } else if x in All(ss[0].children) {
      ChildrenInAll(ss[0].children, x, c);
    } else {
      ChildrenInAll(ss[1..], x, c);
    }
  }

  /** The forest of a member's children lies within the forest. */
  lemma {:induction false} SubforestInAll(ss: seq<State>, x: State)
    requires x in ss
    ensures All(x.children) <= All(ss) && x in All(ss)
  {
    if ss[0] != x {
      SubforestInAll(ss[1..], x);
    }
  }
}
