/**
 * The admin transition engine of `FSMTransitionMixin`: which transitions the
 * admin offers, which transition a submitted form requests, performing it and
 * recording the outcome, the message shown afterwards, and the hints that
 * explain why other transitions are not on offer.
 */
module AdminMixin {
  import opened Wrappers
  import opened Strings
  import opened Dicts
  import opened Transitions

  /** Every transition button is a POST key `_fsmtransition-<field>-<transition>`. */
  const InputPrefix: string := "_fsmtransition"

  /** `fsm_field`: one field name, or a list (or tuple) of them. */
  datatype FieldSetting = OneField(name: string) | FieldList(names: seq<string>)

  /** An admin's configuration: its `fsm_field` and the `FSM_ADMIN_FORCE_PERMIT` setting (false when unset). */
  datatype Config = Config(fsmField: FieldSetting, forcePermit: bool) {

    /** `default_disallow_transition`: the value an absent `admin` entry stands for. */
    predicate DefaultDisallow() {
      !forcePermit
    }
  }

  /** `_get_fsm_field_list`: a single field name becomes a one-element list, a list is kept as it is. */
  function FieldNames(cfg: Config): (fields: seq<string>)
    ensures cfg.fsmField.OneField? ==> fields == [cfg.fsmField.name]
    ensures cfg.fsmField.FieldList? ==> fields == cfg.fsmField.names
  {
    match cfg.fsmField
    case OneField(name) => [name]
    case FieldList(names) => names
  }

  /** `transition.custom.get('admin', self.default_disallow_transition)`. */
  predicate AdminFlag(cfg: Config, t: Transition) {
    t.custom.admin.GetOr(cfg.DefaultDisallow())
  }

  /** `_filter_admin_transitions`: the transitions whose defaulted `admin` flag is true. */
  function FilterAdmin(cfg: Config, ts: seq<Transition>): (kept: seq<Transition>)
    ensures forall t :: t in kept <==> t in ts && AdminFlag(cfg, t)
    ensures |kept| <= |ts|
  {
    if ts == [] then []
    else (if AdminFlag(cfg, ts[0]) then [ts[0]] else []) + FilterAdmin(cfg, ts[1..])
  }

  /** Filtering keeps the input order: it distributes over concatenation. */
  lemma {:induction false} FilterAdminConcat(cfg: Config, a: seq<Transition>, b: seq<Transition>)
    ensures FilterAdmin(cfg, a + b) == FilterAdmin(cfg, a) + FilterAdmin(cfg, b)
  {
    if a != [] {
      assert (a + b)[0] == a[0] && (a + b)[1..] == a[1..] + b;
      FilterAdminConcat(cfg, a[1..], b);
      calc {
        FilterAdmin(cfg, a + b);
        (if AdminFlag(cfg, a[0]) then [a[0]] else []) + FilterAdmin(cfg, a[1..] + b);
        (if AdminFlag(cfg, a[0]) then [a[0]] else []) + (FilterAdmin(cfg, a[1..]) + FilterAdmin(cfg, b));
      }
    } else {
      assert a + b == b;
    }
  }

  /**
   * What the model class declares about one field: its `choices` (value to
   * label) and, for an FSM field, `get_all_transitions`; any other field
   * carries no transitions.
   */
  datatype FieldMeta = FieldMeta(choices: map<string, string>, transitions: seq<Transition>)

  /** The model class: its `verbose_name` and every field `_meta.get_field` finds. */
  datatype ModelMeta = ModelMeta(verboseName: string, fields: map<string, FieldMeta>)

  /**
   * `display_fsm_field`: the choice label of the field's value (`get_FOO_display`,
   * which falls back to the value itself) when the field has choices, the bare
   * value otherwise.
   */
  function Display(meta: ModelMeta, values: map<string, string>, field: string): (shown: string)
    requires field in meta.fields && field in values
    ensures var choices := meta.fields[field].choices;
            shown == if values[field] in choices then choices[values[field]] else values[field]
  {
    var choices := meta.fields[field].choices;
    if choices != map[] then
      if values[field] in choices then choices[values[field]] else values[field]
    else
      values[field]
  }

  /** The transitions of `ts` that may be taken from the state value `value`. */
  function FromState(ts: seq<Transition>, value: string): (selected: seq<Transition>) {
    if ts == [] then []
    else (if LeavesFrom(ts[0], value) then [ts[0]] else []) + FromState(ts[1..], value)
  }

  /** Selection keeps exactly the transitions that leave `value`. */
  lemma {:induction false} FromStateMembers(ts: seq<Transition>, value: string)
    ensures forall t :: t in FromState(ts, value) <==> t in ts && LeavesFrom(t, value)
  {
    if ts != [] {
      FromStateMembers(ts[1..], value);
      assert forall t :: t in ts <==> t == ts[0] || t in ts[1..];
    }
  }

  /** Every listed field is a field of the model and has a current value. */
  predicate Configured(fields: seq<string>, meta: ModelMeta, values: map<string, string>) {
    forall f :: f in fields ==> f in meta.fields && f in values
  }

  /**
   * `_get_possible_transitions`: for each field in turn, the declared transitions
   * whose source is the field's current value or the wildcard. Conditions are
   * not consulted.
   */
  function Possible(fields: seq<string>, meta: ModelMeta, values: map<string, string>): (r: seq<Transition>)
    requires Configured(fields, meta, values)
    ensures forall t :: t in r <==>
              exists i :: 0 <= i < |fields| && t in meta.fields[fields[i]].transitions && LeavesFrom(t, values[fields[i]])
  {
    if fields == [] then []
    else
      var here := FromState(meta.fields[fields[0]].transitions, values[fields[0]]);
      var rest := Possible(fields[1..], meta, values);
      FromStateMembers(meta.fields[fields[0]].transitions, values[fields[0]]);
      assert forall t :: t in rest <==>
        exists i :: 1 <= i < |fields| && t in meta.fields[fields[i]].transitions && LeavesFrom(t, values[fields[i]]);
      here + rest
  }

  /** The possible transitions come field by field, in field-list order. */
  lemma {:induction false} PossibleConcat(a: seq<string>, b: seq<string>, meta: ModelMeta, values: map<string, string>)
    requires Configured(a + b, meta, values)
    ensures Configured(a, meta, values) && Configured(b, meta, values)
    ensures Possible(a + b, meta, values) == Possible(a, meta, values) + Possible(b, meta, values)
  {
    assert forall f :: f in a || f in b ==> f in a + b;
    if a != [] {
      assert (a + b)[0] == a[0] && (a + b)[1..] == a[1..] + b;
      PossibleConcat(a[1..], b, meta, values);
      var here := FromState(meta.fields[a[0]].transitions, values[a[0]]);
      calc {
        Possible(a + b, meta, values);
        here + Possible(a[1..] + b, meta, values);
        here + (Possible(a[1..], meta, values) + Possible(b, meta, values));
      }
    } else {
      assert a + b == b;
    }
  }

  /** What `_get_requested_transition` makes of the POST data. */
  datatype Requested =
    | NoRequest                                     // `(None, None)`: no key has the prefix
    | Request(field: string, transition: string)    // the key's second and third `-`-separated pieces
    | MalformedKey                                  // the key has fewer than three pieces: `IndexError`

  /** `key.split('-')`, then pieces 1 and 2. */
  function ParseKey(key: string): (r: Requested)
    ensures r != NoRequest
    ensures r.Request? <==> |Split(key, '-')| >= 3
  {
    var pieces := Split(key, '-');
    if |pieces| < 3 then MalformedKey else Request(pieces[1], pieces[2])
  }

  /** A key built as `<prefix>-<field>-<name>[-<more>...]` from dash-free pieces parses back to `(field, name)`. */
  lemma {:induction false} ParseKeyRoundTrip(prefix: string, field: string, name: string, more: seq<string>)
    requires '-' !in prefix && '-' !in field && '-' !in name
    requires forall i :: 0 <= i < |more| ==> '-' !in more[i]
    ensures ParseKey(Join([prefix, field, name] + more, '-')) == Request(field, name)
  {
    var parts := [prefix, field, name] + more;
    var key := Join(parts, '-');
    SplitJoin(parts, '-');
    assert Split(key, '-') == parts;
    assert parts[1] == field && parts[2] == name;
  }

  /** The request named by the first POST key that starts with the prefix. */
  function RequestIn(keys: seq<string>): Requested {
    if keys == [] then NoRequest
    else if StartsWith(keys[0], InputPrefix) then ParseKey(keys[0])
    else RequestIn(keys[1..])
  }

  /** `RequestIn` reads exactly the first prefixed key, and finds none only when there is none. */
  lemma {:induction false} RequestInFirstMatch(keys: seq<string>, i: nat)
    requires i < |keys| && StartsWith(keys[i], InputPrefix)
    requires forall j :: 0 <= j < i ==> !StartsWith(keys[j], InputPrefix)
    ensures RequestIn(keys) == ParseKey(keys[i])
  {
    if i > 0 {
      RequestInFirstMatch(keys[1..], i - 1);
    }
  }

  lemma {:induction false} RequestInNone(keys: seq<string>)
    ensures RequestIn(keys) == NoRequest <==> forall j :: 0 <= j < |keys| ==> !StartsWith(keys[j], InputPrefix)
  {
    if keys != [] {
      RequestInNone(keys[1..]);
      assert forall j :: 1 <= j < |keys| ==> keys[j] == keys[1..][j - 1];
    }
  }

  /** `_get_requested_transition`: search the POST keys in order for the first one with the prefix. */
  method GetRequestedTransition(postKeys: seq<string>) returns (r: Requested)
    ensures r == RequestIn(postKeys)
  {
    var i := 0;
    while i < |postKeys|
      invariant 0 <= i <= |postKeys|
      invariant RequestIn(postKeys) == RequestIn(postKeys[i..])
    {
      assert postKeys[i..][1..] == postKeys[i + 1..];
      if StartsWith(postKeys[i], InputPrefix) {
        return ParseKey(postKeys[i]);
      }
      i := i + 1;
    }
    return NoRequest;
  }

  /** The transitions the admin offers on `field` when the user may take `available(field)`. */
  function Offered(cfg: Config, available: string -> seq<Transition>, field: string): seq<Transition> {
    FilterAdmin(cfg, available(field))
  }

  /**
   * The dict `_fsm_get_transitions` returns: each configured field, in
   * first-occurrence order, with the admin transitions django-fsm reports as
   * available to the user on it (`get_available_user_<field>_transitions`, the
   * parameter `available`); every list is empty when there is no object.
   */
  function AdminTransitions(cfg: Config, hasObject: bool, available: string -> seq<Transition>)
    : (d: seq<(string, seq<Transition>)>)
    ensures Keys(d) == Dedup(FieldNames(cfg))
    ensures forall e :: e in d ==> e.1 == if hasObject then Offered(cfg, available, e.0) else []
  {
    var fields := Dedup(FieldNames(cfg));
    seq(|fields|, i requires 0 <= i < |fields| =>
          (fields[i], if hasObject then Offered(cfg, available, fields[i]) else []))
  }

  /** `_fsm_get_transitions`: the loop assigns `transitions[field]` for each configured field in turn. */
  method FsmGetTransitions(cfg: Config, obj: AdminObject?, available: string -> seq<Transition>)
    returns (d: seq<(string, seq<Transition>)>)
    ensures d == AdminTransitions(cfg, obj != null, available)
  {
    var fields := FieldNames(cfg);
    d := [];
    for i := 0 to |fields|
      invariant Keys(d) == Dedup(fields[..i])
      invariant forall e :: e in d ==> e.1 == if obj == null then [] else Offered(cfg, available, e.0)
    {
      var field := fields[i];
      var generated := if obj != null then available(field) else [];
      DedupStep(fields, i);
      PutEntries(d, field, FilterAdmin(cfg, generated));
      PutKeys(d, field, FilterAdmin(cfg, generated));
      d := Put(d, field, FilterAdmin(cfg, generated));
    }
    assert fields[..|fields|] == fields;
    ghost var expected := AdminTransitions(cfg, obj != null, available);
    assert |d| == |Keys(d)| == |Keys(expected)| == |expected|;
    forall i | 0 <= i < |d|
      ensures d[i] == expected[i]
    {
      assert Keys(d)[i] == Keys(expected)[i];
      assert d[i] in d && expected[i] in expected;
    }
  }

  /** Whether some configured field offers a transition called `transition`; the field itself is not compared. */
  predicate OfferedByName(cfg: Config, available: string -> seq<Transition>, transition: string) {
    exists f :: f in FieldNames(cfg) && transition in Names(Offered(cfg, available, f))
  }

  /** `_is_transition_available`: collect the names offered on every field and look `transition` up. */
  method IsTransitionAvailable(cfg: Config, obj: AdminObject?, transition: string, available: string -> seq<Transition>)
    returns (b: bool)
    ensures b <==> obj != null && OfferedByName(cfg, available, transition)
  {
    var d := FsmGetTransitions(cfg, obj, available);
    var names: seq<string> := [];
    for i := 0 to |d|
      invariant names == NamesBefore(d, i)
    {
      assert NamesBefore(d, i + 1) == NamesBefore(d, i) + Names(d[i].1);
      names := names + Names(d[i].1);
    }
    NamesBeforeMembers(d, |d|, transition);
    b := transition in names;
    NamedInTransitions(cfg, obj, available, d, transition);
  }

  /** The names of the first `i` entries of the dict, concatenated in dict order. */
  function NamesBefore(d: seq<(string, seq<Transition>)>, i: nat): seq<string>
    requires i <= |d|
  {
    if i == 0 then [] else NamesBefore(d, i - 1) + Names(d[i - 1].1)
  }

  /** A name is among the first `i` entries' names iff one of those entries offers it. */
  lemma {:induction false} NamesBeforeMembers(d: seq<(string, seq<Transition>)>, i: nat, n: string)
    requires i <= |d|
    ensures n in NamesBefore(d, i) <==> exists j :: 0 <= j < i && n in Names(d[j].1)
  {
    if i > 0 {
      NamesBeforeMembers(d, i - 1, n);
      if n in Names(d[i - 1].1) {
        assert 0 <= i - 1 < i;
      }
    }
  }

  /** A name occurs in the dict `_fsm_get_transitions` returns exactly when some configured field offers it. */
  lemma NamedInTransitions(cfg: Config, obj: AdminObject?, available: string -> seq<Transition>,
                           d: seq<(string, seq<Transition>)>, transition: string)
    requires Keys(d) == Dedup(FieldNames(cfg))
    requires forall e :: e in d ==> e.1 == if obj == null then [] else Offered(cfg, available, e.0)
    ensures (exists j :: 0 <= j < |d| && transition in Names(d[j].1)) <==> obj != null && OfferedByName(cfg, available, transition)
  {
    if j :| 0 <= j < |d| && transition in Names(d[j].1) {
      NamedEntryIsOffered(cfg, obj, available, d, transition, j);
    }
    if obj != null && OfferedByName(cfg, available, transition) {
      OfferedIsNamed(cfg, obj, available, d, transition);
    }
  }

  /** A name in some entry of the dict is offered on that entry's field, which is configured. */
  lemma NamedEntryIsOffered(cfg: Config, obj: AdminObject?, available: string -> seq<Transition>,
                            d: seq<(string, seq<Transition>)>, transition: string, j: nat)
    requires Keys(d) == Dedup(FieldNames(cfg))
    requires forall e :: e in d ==> e.1 == if obj == null then [] else Offered(cfg, available, e.0)
    requires j < |d| && transition in Names(d[j].1)
    ensures obj != null && OfferedByName(cfg, available, transition)
  {
    assert d[j] in d;
    assert Keys(d)[j] == d[j].0;
    assert d[j].0 in FieldNames(cfg);
  }

  /** A name offered on a configured field appears in that field's entry of the dict. */
  lemma OfferedIsNamed(cfg: Config, obj: AdminObject?, available: string -> seq<Transition>,
                       d: seq<(string, seq<Transition>)>, transition: string)
    requires Keys(d) == Dedup(FieldNames(cfg))
    requires forall e :: e in d ==> e.1 == if obj == null then [] else Offered(cfg, available, e.0)
    requires obj != null && OfferedByName(cfg, available, transition)
    ensures exists j :: 0 <= j < |d| && transition in Names(d[j].1)
  {
    var f :| f in FieldNames(cfg) && transition in Names(Offered(cfg, available, f));
    assert f in Keys(d);
    var k :| 0 <= k < |d| && Keys(d)[k] == f;
    assert d[k] in d;
    assert transition in Names(d[k].1);
  }

  /** The effect of calling a transition method: django-fsm sets `field` to `target`. */
  datatype TransitionMethod = TransitionMethod(field: string, target: string)

  /** What happens to an object, in order: transition methods called, and saves. */
  datatype Event = Called(name: string) | Saved

  /** The message levels `messages.SUCCESS` and `messages.ERROR`. */
  datatype Level = Success | Error

  /** `obj._fsmtransition_results`; `new_state` is there only after a transition was performed. */
  datatype Results = Results(
    obj: string,
    transition: string,
    originalState: string,
    newState: Option<string>,
    status: Level)

  /** A model instance as the admin sees it. */
  class AdminObject {
    /** The model class. */
    const meta: ModelMeta
    /** `force_text(obj)`. */
    const text: string
    /** The transition methods `getattr(obj, name, None)` finds, by name. */
    const methods: map<string, TransitionMethod>
    /** The current value of each FSM field. */
    var values: map<string, string>
    var history: seq<Event>
    /** `_fsmtransition_results`, once set. */
    var results: Option<Results>

    ghost predicate Valid()
      reads this
    {
      && values.Keys == meta.fields.Keys
      && forall n :: n in methods ==> methods[n].field in meta.fields
    }

    constructor (meta: ModelMeta, text: string, methods: map<string, TransitionMethod>, values: map<string, string>)
      requires values.Keys == meta.fields.Keys
      requires forall n :: n in methods ==> methods[n].field in meta.fields
      ensures Valid()
      ensures this.meta == meta && this.text == text && this.methods == methods && this.values == values
      ensures history == [] && results == None
    {
      this.meta := meta;
      this.text := text;
      this.methods := methods;
      this.values := values;
      history := [];
      results := None;
    }
  }

  /** The submitted change form. */
  class ChangeForm {
    var changedData: seq<string>

    constructor (changedData: seq<string>)
      ensures this.changedData == changedData
    {
      this.changedData := changedData;
    }
  }

  /**
   * `_do_transition`: read the field's original display value; if the transition
   * is offered and the object has a method of that name, call it once, read the
   * new display value, mark the field changed and record success; otherwise
   * record an error and change nothing else. Either way the results go on the object.
   */
  method DoTransition(cfg: Config, transition: string, obj: AdminObject, form: ChangeForm,
                      fieldName: string, available: string -> seq<Transition>)
    requires obj.Valid() && fieldName in obj.meta.fields
    modifies obj`values, obj`history, obj`results, form
    ensures obj.Valid()
    ensures var original := Display(obj.meta, old(obj.values), fieldName);
            if OfferedByName(cfg, available, transition) && transition in obj.methods then
              var m := obj.methods[transition];
              && obj.values == old(obj.values)[m.field := m.target]
              && obj.history == old(obj.history) + [Called(transition)]
              && form.changedData == old(form.changedData) + [fieldName]
              && obj.results == Some(Results(obj.text, transition, original,
                                             Some(Display(obj.meta, obj.values, fieldName)), Success))
            else
              && obj.values == old(obj.values)
              && obj.history == old(obj.history)
              && form.changedData == old(form.changedData)
              && obj.results == Some(Results(obj.text, transition, original, None, Error))
  {
    var original := Display(obj.meta, obj.values, fieldName);
    var available := IsTransitionAvailable(cfg, obj, transition, available);
    if available && transition in obj.methods {
      var m := obj.methods[transition];
      obj.values := obj.values[m.field := m.target];
      obj.history := obj.history + [Called(transition)];
      var newState := Display(obj.meta, obj.values, fieldName);
      form.changedData := form.changedData + [fieldName];
      obj.results := Some(Results(obj.text, transition, original, Some(newState), Success));
    } else {
      obj.results := Some(Results(obj.text, transition, original, None, Error));
    }
  }

  /** The exceptions `save_model` lets through. */
  datatype Exception = IndexError | FieldDoesNotExist(field: string)

  datatype Outcome = Done | Raised(exception: Exception)

  /**
   * `save_model`: perform the requested transition, if a non-empty one is
   * requested, before the object is saved. A malformed key raises before
   * anything happens, and so does a field the model does not have.
   */
  method SaveModel(cfg: Config, obj: AdminObject, form: ChangeForm, postKeys: seq<string>,
                   available: string -> seq<Transition>)
    returns (outcome: Outcome)
    requires obj.Valid()
    modifies obj`values, obj`history, obj`results, form
    ensures obj.Valid()
    ensures match RequestIn(postKeys)
      case NoRequest =>
        outcome == Done && obj.history == old(obj.history) + [Saved] && unchanged(form)
        && obj.values == old(obj.values) && obj.results == old(obj.results)
      case MalformedKey =>
        outcome == Raised(IndexError) && unchanged(obj, form)
      case Request(field, transition) =>
        if transition == "" then
          outcome == Done && obj.history == old(obj.history) + [Saved] && unchanged(form)
          && obj.values == old(obj.values) && obj.results == old(obj.results)
        else if field !in obj.meta.fields then
          outcome == Raised(FieldDoesNotExist(field)) && unchanged(obj, form)
        else
          var original := Display(obj.meta, old(obj.values), field);
          && outcome == Done
          && if OfferedByName(cfg, available, transition) && transition in obj.methods then
               var m := obj.methods[transition];
               && obj.values == old(obj.values)[m.field := m.target]
               && obj.history == old(obj.history) + [Called(transition), Saved]
               && form.changedData == old(form.changedData) + [field]
               && obj.results == Some(Results(obj.text, transition, original,
                                              Some(Display(obj.meta, obj.values, field)), Success))
             else
               && obj.values == old(obj.values)
               && obj.history == old(obj.history) + [Saved]
               && form.changedData == old(form.changedData)
               && obj.results == Some(Results(obj.text, transition, original, None, Error))
  {
    var request := GetRequestedTransition(postKeys);
    match request
    case NoRequest =>
      obj.history := obj.history + [Saved];
      outcome := Done;
    case MalformedKey =>
      outcome := Raised(IndexError);
    case Request(field, transition) =>
      if transition == "" {
        obj.history := obj.history + [Saved];
        outcome := Done;
      } else if field !in obj.meta.fields {
        outcome := Raised(FieldDoesNotExist(field));
      } else {
        DoTransition(cfg, transition, obj, form, field, available);
        obj.history := obj.history + [Saved];
        outcome := Done;
      }
  }

  /** What `response_change` does: defer to the base class, or show a message at the result's level. */
  datatype Response = DeferToBase | Message(text: string, level: Level)

  /**
   * The message choice of `response_change`: no results defers to the base
   * class; otherwise the success message (naming the new state) exactly when
   * the status is SUCCESS, and the error message (naming the transition) otherwise.
   */
  function ResponseChange(results: Option<Results>): (r: Response)
    requires results.Some? && results.value.status == Success ==> results.value.newState.Some?
    ensures r.DeferToBase? <==> results.None?
    ensures r.Message? ==> r.level == results.value.status
    ensures r.Message? && r.level == Success ==>
              r.text == results.value.obj + " successfully set to " + results.value.newState.value
    ensures r.Message? && r.level == Error ==>
              r.text == "Error! " + results.value.obj + " failed to " + results.value.transition
  {
    match results
    case None => DeferToBase
    case Some(res) =>
      if res.status == Success then
        Message(res.obj + " successfully set to " + res.newState.value, Success)
      else
        Message("Error! " + res.obj + " failed to " + res.transition, Error)
  }

  /** The key a hint is filed under: a non-empty `custom['button_name']`, otherwise the title-cased name. */
  function HintKey(t: Transition): (key: string) {
    match t.custom.buttonName
    case Some(name) => if name != "" then name else Title(t.name)
    case None => Title(t.name)
  }

  /**
   * Whether `get_transition_hints` reports condition `c` of `t`: the condition
   * fails, the defaulted `admin` flag is false, and the condition has a hint.
   */
  predicate Reported(cfg: Config, t: Transition, c: Condition) {
    !c.holds && !AdminFlag(cfg, t) && c.hint != ""
  }

  /** The (key, hint) pairs contributed by the conditions `cs` of `t`, in condition order. */
  function ConditionHints(cfg: Config, t: Transition, cs: seq<Condition>): (pairs: seq<(string, string)>) {
    if cs == [] then []
    else
      var c := cs[|cs| - 1];
      ConditionHints(cfg, t, cs[..|cs| - 1]) + if Reported(cfg, t, c) then [(HintKey(t), c.hint)] else []
  }

  /** The (key, hint) pairs contributed by the transitions `ts`, in transition order. */
  function HintPairs(cfg: Config, ts: seq<Transition>): (pairs: seq<(string, string)>) {
    if ts == [] then []
    else
      var t := ts[|ts| - 1];
      HintPairs(cfg, ts[..|ts| - 1]) + ConditionHints(cfg, t, t.conditions)
  }

  lemma {:induction false} ConditionHintsSpec(cfg: Config, t: Transition, cs: seq<Condition>)
    ensures forall p :: p in ConditionHints(cfg, t, cs) <==>
              exists c :: c in cs && Reported(cfg, t, c) && p == (HintKey(t), c.hint)
  {
    if cs != [] {
      var init := cs[..|cs| - 1];
      assert cs == init + [cs[|cs| - 1]];
      ConditionHintsSpec(cfg, t, init);
    }
  }

  /** A pair is a hint exactly when some possible transition has a reported condition with that key and hint. */
  lemma {:induction false} HintPairsSpec(cfg: Config, ts: seq<Transition>)
    ensures forall p :: p in HintPairs(cfg, ts) <==>
              exists t, c :: t in ts && c in t.conditions && Reported(cfg, t, c) && p == (HintKey(t), c.hint)
  {
    if ts != [] {
      var init, last := ts[..|ts| - 1], ts[|ts| - 1];
      assert ts == init + [last];
      HintPairsSpec(cfg, init);
      ConditionHintsSpec(cfg, last, last.conditions);
    }
  }

  /**
   * `get_transition_hints`: walk the possible transitions and their conditions
   * in order, appending each reported hint to the list under its key.
   */
  method GetTransitionHints(cfg: Config, obj: AdminObject) returns (hints: seq<(string, seq<string>)>)
    requires Configured(FieldNames(cfg), obj.meta, obj.values)
    ensures hints == Group(HintPairs(cfg, Possible(FieldNames(cfg), obj.meta, obj.values)))
  {
    var transitions := Possible(FieldNames(cfg), obj.meta, obj.values);
    hints := [];
    for i := 0 to |transitions|
      invariant hints == Group(HintPairs(cfg, transitions[..i]))
    {
      hints := AddConditionHints(cfg, transitions[i], hints, HintPairs(cfg, transitions[..i]));
      HintPairsStep(cfg, transitions, i);
    }
    assert transitions[..|transitions|] == transitions;
  }

  /**
   * The inner loop of `get_transition_hints`: for each condition of `t` in
   * turn, append its hint under the transition's key when it is reported.
   */
  method AddConditionHints(cfg: Config, t: Transition, hints: seq<(string, seq<string>)>,
                           ghost done: seq<(string, string)>)
    returns (hints': seq<(string, seq<string>)>)
    requires hints == Group(done)
    ensures hints' == Group(done + ConditionHints(cfg, t, t.conditions))
  {
    hints' := hints;
    assert t.conditions[..0] == [];
    assert done + ConditionHints(cfg, t, t.conditions[..0]) == done;
    for j := 0 to |t.conditions|
      invariant hints' == Group(done + ConditionHints(cfg, t, t.conditions[..j]))
    {
      var c := t.conditions[j];
      ghost var before := done + ConditionHints(cfg, t, t.conditions[..j]);
      ConditionHintsStep(cfg, t, t.conditions, j);
      if !c.holds && !AdminFlag(cfg, t) && c.hint != "" {
        GroupSnoc(before, (HintKey(t), c.hint));
        hints' := Append(hints', HintKey(t), c.hint);
        assert done + ConditionHints(cfg, t, t.conditions[..j + 1]) == before + [(HintKey(t), c.hint)];
      } else {
        assert done + ConditionHints(cfg, t, t.conditions[..j + 1]) == before;
      }
    }
    assert t.conditions[..|t.conditions|] == t.conditions;
  }

  lemma ConditionHintsStep(cfg: Config, t: Transition, cs: seq<Condition>, j: nat)
    requires j < |cs|
    ensures ConditionHints(cfg, t, cs[..j + 1])
         == ConditionHints(cfg, t, cs[..j]) + if Reported(cfg, t, cs[j]) then [(HintKey(t), cs[j].hint)] else []
  {
    assert cs[..j + 1][..j] == cs[..j];
  }

  lemma HintPairsStep(cfg: Config, ts: seq<Transition>, i: nat)
    requires i < |ts|
    ensures HintPairs(cfg, ts[..i + 1]) == HintPairs(cfg, ts[..i]) + ConditionHints(cfg, ts[i], ts[i].conditions)
  {
    assert ts[..i + 1][..i] == ts[..i];
  }

  /**
   * The hint dictionary has distinct keys, no empty list, and under key `k`
   * exactly the hints of the reported conditions of the possible transitions
   * filed under `k`, in order.
   */
  lemma TransitionHintsSpec(cfg: Config, ts: seq<Transition>, k: string, h: string)
    ensures var hints := Group(HintPairs(cfg, ts));
            && Distinct(Keys(hints))
            && (forall e :: e in hints ==> e.1 != [])
            && ((exists e :: e in hints && e.0 == k && h in e.1) <==>
                exists t, c :: t in ts && c in t.conditions && Reported(cfg, t, c) && k == HintKey(t) && h == c.hint)
  {
    var pairs := HintPairs(cfg, ts);
    GroupEntries(pairs);
    HintPairsSpec(cfg, ts);
    ValuesOfMember(pairs, k, h);
    GroupFind(pairs, k);
    var hints := Group(pairs);
    if (k, h) in pairs {
      ValuesOfEmpty(pairs, k);
      var found := Find(hints, k).value;
      assert (k, found) in hints;
    }
  }
}
