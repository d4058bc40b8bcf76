/**
 * Edge label text of one transition: the event name, followed, when guard
 * conditions are shown and the transition has any, by the conditions in
 * brackets joined by " & ", each negated one prefixed with "!".
 */
module Labels {
  import opened Strings
  import opened HostMachine

  /** A guard as displayed: its callback name, with "!" in front when it must fail. */
  function ConditionText(c: Condition): (text: string)
    ensures |text| >= |c.func| && text[|text| - |c.func|..] == c.func
    ensures !StartsWith(c.func, "!") ==> (StartsWith(text, "!") <==> !c.target)
  {
    if c.target then c.func else "!" + c.func
  }

  /** Reads a displayed guard back. */
  function ParseCondition(text: string): Condition {
    if |text| > 0 && text[0] == '!' then Condition(text[1..], false) else Condition(text, true)
  }

  /**
   * The display of a guard loses nothing, unless the callback name itself
   * starts with "!": a leading "!" marks exactly the guards that must fail.
   */
  lemma ConditionRoundTrip(c: Condition)
    requires !StartsWith(c.func, "!")
    ensures ParseCondition(ConditionText(c)) == c
  {
    if !c.target {
      assert ("!" + c.func)[1..] == c.func;
    }
  }

  function ConditionTexts(cs: seq<Condition>): (texts: seq<string>)
    ensures |texts| == |cs|
    ensures forall i :: 0 <= i < |cs| ==> texts[i] == ConditionText(cs[i])
  {
    if cs == [] then [] else [ConditionText(cs[0])] + ConditionTexts(cs[1..])
  }

  /** `_transition_label(edge_label, tran)` */
  function TransitionLabel(eventLabel: string, t: Transition, showConditions: bool): (text: string)
    ensures StartsWith(text, eventLabel)
    ensures text == eventLabel <==> !(showConditions && t.conditions != [])
  {
    if showConditions && t.conditions != [] then
      eventLabel + " [" + Join(ConditionTexts(t.conditions), " & ") + "]"
    else
      eventLabel
  }

  /**
   * With guards shown, the label reads: the event name, " [", the guard
   * texts in order joined by " & ", and a closing "]".
   */
  lemma LabelBrackets(eventLabel: string, t: Transition)
    requires t.conditions != []
    ensures var text := TransitionLabel(eventLabel, t, true);
      && |text| >= |eventLabel| + 3
      && text[..|eventLabel| + 2] == eventLabel + " ["
      && text[|text| - 1] == ']'
      && text[|eventLabel| + 2..|text| - 1] == Join(ConditionTexts(t.conditions), " & ")
  {
    var inner := Join(ConditionTexts(t.conditions), " & ");
    var text := TransitionLabel(eventLabel, t, true);
    assert text == (eventLabel + " [") + inner + "]";
  }
}
