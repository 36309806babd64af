/**
 * Transitions as django-fsm declares them and hands them to the admin add-on.
 * django-fsm expands a transition declared with several sources into one
 * record per source, so each record has a single `source`: a state value or
 * the wildcard "*".
 */
module Transitions {
  import opened Wrappers

  const Wildcard: string := "*"

  /**
   * A condition of a transition, already evaluated on the object at hand, and
   * its `hint` attribute ("" when the condition has none).
   */
  datatype Condition = Condition(holds: bool, hint: string)

  /**
   * The two entries of a transition's `custom` dict that the add-on reads:
   * `admin` and `button_name`; `None` when the entry is absent.
   */
  datatype Custom = Custom(admin: Option<bool>, buttonName: Option<string>)

  datatype Transition = Transition(
    name: string,
    source: string,
    target: string,
    conditions: seq<Condition>,
    custom: Custom)

  /** `[t.name for t in ts]`. */
  function Names(ts: seq<Transition>): (names: seq<string>)
    ensures |names| == |ts|
    ensures forall i :: 0 <= i < |ts| ==> names[i] == ts[i].name
  {
    if ts == [] then [] else [ts[0].name] + Names(ts[1..])
  }

  /** Whether a transition may be taken from the state value `value`: its source is that value or the wildcard. */
  predicate LeavesFrom(t: Transition, value: string) {
    t.source == value || t.source == Wildcard
  }
}
