/**
 * The example post model seen through the admin engine: its transitions as
 * django-fsm records them, the field-list default `['state']`, and what the
 * admin offers and hints for a post in each state.
 */
module PublishableAdmin {
  import opened Wrappers
  import opened Strings
  import opened Dicts
  import opened Transitions
  import opened AdminMixin
  import opened Publication

  /** The `hint` of `has_display_dates`. */
  const DisplayDatesHint: string := "Display dates are required to expire a page."
  /** The `hint` of `can_display`. */
  const AdjustDatesHint: string := "The display dates may need to be adjusted."

  /**
   * The conditions attached to each transition, evaluated on a post:
   * `canDisplay` is `can_display()` and `hasDates` is `has_display_dates()`.
   */
  function Conditions(a: Action, canDisplay: bool, hasDates: bool): seq<Condition> {
    match a
    case Publish => [Condition(canDisplay, AdjustDatesHint)]
    case Expire => [Condition(hasDates, DisplayDatesHint)]
    case _ => []
  }

  /** The record django-fsm keeps for transition `a` leaving `s`; none of them sets `custom`. */
  function Record(a: Action, s: State, canDisplay: bool, hasDates: bool): Transition {
    Transition(ActionName(a), Value(s), Value(Target(a)), Conditions(a, canDisplay, hasDates), Custom(None, None))
  }

  /**
   * The records of the `state` field, one per transition and source, grouped
   * by transition. django-fsm collects the methods sorted by name (approve,
   * expire, publish, reactivate, unpublish); in every state the records that
   * leave it come in the same relative order under either listing, so the
   * admin offers the same sequence.
   */
  function DeclaredTransitions(canDisplay: bool, hasDates: bool): seq<Transition> {
    [ Record(Action.Publish, Approved, canDisplay, hasDates),
      Record(Action.Publish, Expired, canDisplay, hasDates),
      Record(Action.Expire, Published, canDisplay, hasDates),
      Record(Action.Unpublish, Published, canDisplay, hasDates),
      Record(Action.Approve, Draft, canDisplay, hasDates),
      Record(Action.Reactivate, Expired, canDisplay, hasDates) ]
  }

  /**
   * The conditions recorded for a transition, evaluated on post `m` at time
   * `now`, all hold exactly when the post's own guard for that transition holds.
   */
  lemma ConditionsMatchGuard(m: PublishableModel, a: Action, now: int)
    ensures (forall c :: c in Conditions(a, m.CanDisplay(now), m.HasDisplayDates()) ==> c.holds)
        <==> m.ConditionsMet(a, now)
  {
    var cs := Conditions(a, m.CanDisplay(now), m.HasDisplayDates());
    if a.Publish? || a.Expire? {
      assert cs[0] in cs;
    }
  }

  /** The records are exactly the transition table: one per transition and source. */
  lemma DeclaredMatchesTable(canDisplay: bool, hasDates: bool)
    ensures forall t :: t in DeclaredTransitions(canDisplay, hasDates) ==>
              exists a, s :: s in Sources(a) && t == Record(a, s, canDisplay, hasDates)
    ensures forall a, s :: s in Sources(a) ==> Record(a, s, canDisplay, hasDates) in DeclaredTransitions(canDisplay, hasDates)
  {
    var ts := DeclaredTransitions(canDisplay, hasDates);
    forall t | t in ts
      ensures exists a, s :: s in Sources(a) && t == Record(a, s, canDisplay, hasDates)
    {
      if t == ts[0] { assert Approved in Sources(Action.Publish); }
      else if t == ts[1] { assert Expired in Sources(Action.Publish); }
      else if t == ts[2] { assert Published in Sources(Action.Expire); }
      else if t == ts[3] { assert Published in Sources(Action.Unpublish); }
      else if t == ts[4] { assert Draft in Sources(Action.Approve); }
      else { assert t == ts[5] && Expired in Sources(Action.Reactivate); }
    }
    forall a, s | s in Sources(a)
      ensures Record(a, s, canDisplay, hasDates) in ts
    {
      match a
      case Publish => if s == Approved { assert ts[0] in ts; } else { assert ts[1] in ts; }
      case Expire => assert ts[2] in ts;
      case Unpublish => assert ts[3] in ts;
      case Approve => assert ts[4] in ts;
      case Reactivate => assert ts[5] in ts;
    }
  }

  /**
   * The post model: verbose name "Post", the FSM field `state` with its choices
   * and transitions, and the plain fields `name`, `display_from` and
   * `display_until`, which have neither, as has the primary key `id` that
   * Django adds because the model declares none.
   */
  function PostMeta(canDisplay: bool, hasDates: bool): ModelMeta {
    var plain := FieldMeta(map[], []);
    ModelMeta("Post", map["id" := plain, "name" := plain, "state" := FieldMeta(Choices, DeclaredTransitions(canDisplay, hasDates)),
                          "display_from" := plain, "display_until" := plain])
  }

  /**
   * `_meta.get_field` finds the post's plain fields too: they carry no
   * transitions and `display_fsm_field` shows their raw value.
   */
  lemma PlainFieldsDisplayRaw(canDisplay: bool, hasDates: bool, values: map<string, string>, f: string)
    requires f in {"id", "name", "display_from", "display_until"} && f in values
    ensures f in PostMeta(canDisplay, hasDates).fields
    ensures PostMeta(canDisplay, hasDates).fields[f].transitions == []
    ensures Display(PostMeta(canDisplay, hasDates), values, f) == values[f]
  {
  }

  /** The post admin: the default `fsm_field = ['state']`. */
  function PostAdmin(forcePermit: bool): Config {
    Config(FieldList(["state"]), forcePermit)
  }

  /** The transitions the admin considers possible for a post in state `s`. */
  function PossibleFor(s: State, canDisplay: bool, hasDates: bool): seq<Transition> {
    Possible(["state"], PostMeta(canDisplay, hasDates), map["state" := Value(s)])
  }

  /** With one field, the possible transitions are those leaving its current value. */
  lemma PossibleOne(meta: ModelMeta, values: map<string, string>, f: string)
    requires f in meta.fields && f in values
    ensures Possible([f], meta, values) == FromState(meta.fields[f].transitions, values[f])
  {
    assert [f][1..] == [];
  }

  /** A stored state string is never the wildcard, and it names one state. */
  lemma LeavesFromState(a: Action, from: State, s: State, canDisplay: bool, hasDates: bool)
    ensures LeavesFrom(Record(a, from, canDisplay, hasDates), Value(s)) <==> from == s
  {
    ValueRoundTrip(from, Value(s));
    ValueRoundTrip(s, Value(s));
  }

  /**
   * The admin considers possible, for a post in state `s`, exactly the
   * transitions of the table that leave `s`.
   */
  lemma PossibleFollowsTable(s: State, canDisplay: bool, hasDates: bool)
    ensures forall t :: t in PossibleFor(s, canDisplay, hasDates) <==>
              exists a :: s in Sources(a) && t == Record(a, s, canDisplay, hasDates)
  {
    var ts := DeclaredTransitions(canDisplay, hasDates);
    var meta := PostMeta(canDisplay, hasDates);
    var values := map["state" := Value(s)];
    var fields := ["state"];
    assert meta.fields[fields[0]].transitions == ts && values[fields[0]] == Value(s);
    DeclaredMatchesTable(canDisplay, hasDates);
    forall t
      ensures t in PossibleFor(s, canDisplay, hasDates) <==>
              exists a :: s in Sources(a) && t == Record(a, s, canDisplay, hasDates)
    {
      if t in PossibleFor(s, canDisplay, hasDates) {
        assert t in ts && LeavesFrom(t, Value(s));
        var a, from :| from in Sources(a) && t == Record(a, from, canDisplay, hasDates);
        LeavesFromState(a, from, s, canDisplay, hasDates);
      }
      if exists a :: s in Sources(a) && t == Record(a, s, canDisplay, hasDates) {
        var a :| s in Sources(a) && t == Record(a, s, canDisplay, hasDates);
        assert t in ts && LeavesFrom(t, Value(s));
      }
    }
  }

  /**
   * With the default setting (`FSM_ADMIN_FORCE_PERMIT` unset) a transition
   * without a `custom['admin']` entry passes the admin filter and has none of
   * its conditions reported, so no hint is ever shown for it.
   */
  lemma {:induction false} DefaultSettingShowsNoHints(ts: seq<Transition>)
    requires forall t :: t in ts ==> t.custom.admin.None?
    ensures FilterAdmin(PostAdmin(false), ts) == ts
    ensures HintPairs(PostAdmin(false), ts) == []
  {
    DefaultSettingKeepsAll(ts);
    var cfg := PostAdmin(false);
    if ts != [] {
      var init, last := ts[..|ts| - 1], ts[|ts| - 1];
      assert last in ts;
      DefaultSettingShowsNoHints(init);
      NoConditionReported(cfg, last, last.conditions);
    }
  }

  /** With the default setting the admin filter keeps every transition without a `custom['admin']` entry. */
  lemma {:induction false} DefaultSettingKeepsAll(ts: seq<Transition>)
    requires forall t :: t in ts ==> t.custom.admin.None?
    ensures FilterAdmin(PostAdmin(false), ts) == ts
  {
    if ts != [] {
      assert ts[0] in ts;
      DefaultSettingKeepsAll(ts[1..]);
      assert [ts[0]] + ts[1..] == ts;
    }
  }

  /** A transition the admin filter keeps has none of its conditions reported. */
  lemma {:induction false} NoConditionReported(cfg: Config, t: Transition, cs: seq<Condition>)
    requires AdminFlag(cfg, t)
    ensures ConditionHints(cfg, t, cs) == []
  {
    if cs != [] {
      NoConditionReported(cfg, t, cs[..|cs| - 1]);
    }
  }

  /**
   * Under the default setting the admin filter hides none of the post's
   * transitions (whether one gets a button still depends on django-fsm
   * offering it), and no post, in any state, gets a hint.
   */
  lemma PostDefaultSetting(s: State, canDisplay: bool, hasDates: bool)
    ensures FilterAdmin(PostAdmin(false), DeclaredTransitions(canDisplay, hasDates)) == DeclaredTransitions(canDisplay, hasDates)
    ensures Group(HintPairs(PostAdmin(false), PossibleFor(s, canDisplay, hasDates))) == []
  {
    DeclaredMatchesTable(canDisplay, hasDates);
    PossibleFollowsTable(s, canDisplay, hasDates);
    DefaultSettingShowsNoHints(DeclaredTransitions(canDisplay, hasDates));
    DefaultSettingShowsNoHints(PossibleFor(s, canDisplay, hasDates));
  }

  /** Selecting by source distributes over concatenation. */
  lemma {:induction false} FromStateConcat(a: seq<Transition>, b: seq<Transition>, v: string)
    ensures FromState(a + b, v) == FromState(a, v) + FromState(b, v)
  {
    if a == [] {
      assert a + b == b;
    } else {
      var head := if LeavesFrom(a[0], v) then [a[0]] else [];
      assert (a + b)[0] == a[0] && (a + b)[1..] == a[1..] + b;
      assert FromState(a + b, v) == head + FromState(a[1..] + b, v);
      FromStateConcat(a[1..], b, v);
      assert FromState(a, v) == head + FromState(a[1..], v);
    }
  }

  /** Selecting by source from two records. */
  lemma FromStatePair(r0: Transition, r1: Transition, v: string)
    ensures FromState([r0, r1], v) == (if LeavesFrom(r0, v) then [r0] else []) + (if LeavesFrom(r1, v) then [r1] else [])
  {
    var last := if LeavesFrom(r1, v) then [r1] else [];
    assert [r0, r1][1..] == [r1] && [r1][1..] == [];
    assert FromState([r1], v) == last by { assert last + [] == last; }
  }

  /** Selecting by source from six records of which only the third and fourth leave `v`. */
  lemma FromStateMiddleTwo(r0: Transition, r1: Transition, r2: Transition, r3: Transition, r4: Transition, r5: Transition, v: string)
    requires !LeavesFrom(r0, v) && !LeavesFrom(r1, v) && LeavesFrom(r2, v) && LeavesFrom(r3, v)
    requires !LeavesFrom(r4, v) && !LeavesFrom(r5, v)
    ensures FromState([r0, r1, r2, r3, r4, r5], v) == [r2, r3]
  {
    FromStatePair(r0, r1, v);
    FromStatePair(r2, r3, v);
    FromStatePair(r4, r5, v);
    FromStateConcat([r0, r1], [r2, r3], v);
    FromStateConcat([r0, r1] + [r2, r3], [r4, r5], v);
    assert [r0, r1] + [r2, r3] + [r4, r5] == [r0, r1, r2, r3, r4, r5];
  }

  /** The transitions possible for a published post: expire, then unpublish. */
  lemma PublishedPossible(canDisplay: bool, hasDates: bool)
    ensures PossibleFor(Published, canDisplay, hasDates)
         == [Record(Action.Expire, Published, canDisplay, hasDates), Record(Action.Unpublish, Published, canDisplay, hasDates)]
  {
    LeavesFromState(Action.Publish, Approved, Published, canDisplay, hasDates);
    LeavesFromState(Action.Publish, Expired, Published, canDisplay, hasDates);
    LeavesFromState(Action.Expire, Published, Published, canDisplay, hasDates);
    LeavesFromState(Action.Unpublish, Published, Published, canDisplay, hasDates);
    LeavesFromState(Action.Approve, Draft, Published, canDisplay, hasDates);
    LeavesFromState(Action.Reactivate, Expired, Published, canDisplay, hasDates);
    PossibleOne(PostMeta(canDisplay, hasDates), map["state" := Value(Published)], "state");
    FromStateMiddleTwo(
      Record(Action.Publish, Approved, canDisplay, hasDates), Record(Action.Publish, Expired, canDisplay, hasDates),
      Record(Action.Expire, Published, canDisplay, hasDates), Record(Action.Unpublish, Published, canDisplay, hasDates),
      Record(Action.Approve, Draft, canDisplay, hasDates), Record(Action.Reactivate, Expired, canDisplay, hasDates),
      Value(Published));
  }

  lemma TitleExpire()
    ensures Title("expire") == "Expire"
  {
    var r := Title("expire");
    assert |r| == 6;
    assert r[0] == 'E' && r[1] == 'x' && r[2] == 'p' && r[3] == 'i' && r[4] == 'r' && r[5] == 'e';
  }

  /**
   * With `FSM_ADMIN_FORCE_PERMIT = True` a transition without a
   * `custom['admin']` entry is dropped by the admin filter.
   */
  lemma {:induction false} ForcePermitHidesButtons(ts: seq<Transition>)
    requires forall t :: t in ts ==> t.custom.admin.None?
    ensures FilterAdmin(PostAdmin(true), ts) == []
  {
    if ts != [] {
      ForcePermitHidesButtons(ts[1..]);
    }
  }

  /** The hint pairs of two transitions: those of the first, then those of the second. */
  lemma HintPairsOfTwo(cfg: Config, a: Transition, b: Transition)
    ensures HintPairs(cfg, [a, b]) == ConditionHints(cfg, a, a.conditions) + ConditionHints(cfg, b, b.conditions)
  {
    var ha := ConditionHints(cfg, a, a.conditions);
    assert [a, b][..1] == [a];
    assert HintPairs(cfg, [a]) == ha by {
      assert [a][..0] == [];
      assert [] + ha == ha;
    }
  }

  /** Without display dates, expiring reports its one condition under "Expire". */
  lemma ExpireHint(canDisplay: bool)
    ensures var expire := Record(Action.Expire, Published, canDisplay, false);
            ConditionHints(PostAdmin(true), expire, expire.conditions) == [("Expire", DisplayDatesHint)]
  {
    var expire := Record(Action.Expire, Published, canDisplay, false);
    TitleExpire();
    assert HintKey(expire) == "Expire";
    assert expire.conditions[..0] == [];
  }

  /** The hint pairs of expire-then-unpublish for a post without display dates, under `FSM_ADMIN_FORCE_PERMIT = True`. */
  lemma ExpireUnpublishHints(canDisplay: bool)
    ensures HintPairs(PostAdmin(true), [Record(Action.Expire, Published, canDisplay, false), Record(Action.Unpublish, Published, canDisplay, false)])
         == [("Expire", DisplayDatesHint)]
  {
    var expire := Record(Action.Expire, Published, canDisplay, false);
    var unpublish := Record(Action.Unpublish, Published, canDisplay, false);
    assert unpublish.conditions == [];
    HintPairsOfTwo(PostAdmin(true), expire, unpublish);
    ExpireHint(canDisplay);
  }

  /** The hint pairs of a published post without display dates, under `FSM_ADMIN_FORCE_PERMIT = True`. */
  lemma PublishedHintPairs(canDisplay: bool)
    ensures HintPairs(PostAdmin(true), PossibleFor(Published, canDisplay, false)) == [("Expire", DisplayDatesHint)]
  {
    PublishedPossible(canDisplay, false);
    ExpireUnpublishHints(canDisplay);
  }

  /**
   * With `FSM_ADMIN_FORCE_PERMIT = True` the post's transitions get no button,
   * and a published post without display dates gets exactly one hint, filed
   * under "Expire".
   */
  lemma ForcePermitHintsExpire(canDisplay: bool)
    ensures FilterAdmin(PostAdmin(true), DeclaredTransitions(canDisplay, false)) == []
    ensures Group(HintPairs(PostAdmin(true), PossibleFor(Published, canDisplay, false)))
         == [("Expire", [DisplayDatesHint])]
  {
    DeclaredMatchesTable(canDisplay, false);
    ForcePermitHidesButtons(DeclaredTransitions(canDisplay, false));
    PublishedHintPairs(canDisplay);
    GroupSingle("Expire", DisplayDatesHint);
  }

  /** Grouping a single pair gives one key holding one value. */
  lemma GroupSingle(k: string, h: string)
    ensures Group([(k, h)]) == [(k, [h])]
  {
    var none: seq<(string, seq<string>)> := [];
    assert [(k, h)][..0] == [] && Group<string>([]) == none;
    assert Find(none, k) == None;
    assert Find(none, k).GetOr([]) + [h] == [h];
  }
}
