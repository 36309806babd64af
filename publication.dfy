/**
 * The example application's `PublishableModel`: a post with a name, a
 * publication state and an optional display window, and the five guarded
 * transitions between its states. Times are integers; the current time
 * (`timezone.now()`) is passed in as `now`.
 */
module Publication {
  import opened Wrappers

  /** The `State` constants. */
  datatype State = Draft | Approved | Published | Expired | Deleted

  /** The string stored in the `state` field for each state. */
  function Value(s: State): string {
    match s
    case Draft => "draft"
    case Approved => "approved"
    case Published => "published"
    case Expired => "expired"
    case Deleted => "deleted"
  }

  /** The state a stored string stands for, if any. */
  function Parse(v: string): Option<State> {
    if v == "draft" then Some(Draft)
    else if v == "approved" then Some(Approved)
    else if v == "published" then Some(Published)
    else if v == "expired" then Some(Expired)
    else if v == "deleted" then Some(Deleted)
    else None
  }

  /** The stored strings name the five states one-to-one. */
  lemma ValueRoundTrip(s: State, v: string)
    ensures Parse(Value(s)) == Some(s)
    ensures Parse(v) == Some(s) ==> Value(s) == v
  {
  }

  /** `State.CHOICES`: every state's value, labelled with itself. */
  const Choices: map<string, string> :=
    map["draft" := "draft", "approved" := "approved", "published" := "published",
        "expired" := "expired", "deleted" := "deleted"]

  /** A new post starts as a draft (the field's default). */
  const Initial: State := Draft

  /** The transition methods. */
  datatype Action = Publish | Expire | Unpublish | Approve | Reactivate

  function ActionName(a: Action): string {
    match a
    case Publish => "publish"
    case Expire => "expire"
    case Unpublish => "unpublish"
    case Approve => "approve"
    case Reactivate => "reactivate"
  }

  /** The `source` of each transition. */
  function Sources(a: Action): set<State> {
    match a
    case Publish => {Approved, Expired}
    case Expire => {Published}
    case Unpublish => {Published}
    case Approve => {Draft}
    case Reactivate => {Expired}
  }

  /** The `target` of each transition. */
  function Target(a: Action): State {
    match a
    case Publish => Published
    case Expire => Expired
    case Unpublish => Approved
    case Approve => Approved
    case Reactivate => Draft
  }

  /** The state a transition leads to from `s`, when `s` is one of its sources (guards aside). */
  function Step(s: State, a: Action): (next: Option<State>) {
    if s in Sources(a) then Some(Target(a)) else None
  }

  /** The state reached by taking the transitions of `path` in turn from `s`. */
  function Run(s: State, path: seq<Action>): (reached: Option<State>)
    decreases |path|
  {
    if path == [] then Some(s)
    else match Step(s, path[0])
      case None => None
      case Some(s') => Run(s', path[1..])
  }

  /** No transition leaves or enters `Deleted`. */
  lemma DeletedUntouched(a: Action)
    ensures Deleted !in Sources(a) && Target(a) != Deleted
    ensures Step(Deleted, a) == None
  {
  }

  /** From any other state, no sequence of transitions reaches `Deleted`. */
  lemma {:induction false} DeletedUnreachable(s: State, path: seq<Action>)
    requires s != Deleted
    ensures Run(s, path) != Some(Deleted)
    decreases |path|
  {
    if path != [] {
      match Step(s, path[0])
      case None =>
      case Some(s') =>
        DeletedUntouched(path[0]);
        DeletedUnreachable(s', path[1..]);
    }
  }

  /** A path from a new draft to `t`, for every state but `Deleted`. */
  function PathFromDraft(t: State): seq<Action> {
    match t
    case Draft => []
    case Approved => [Approve]
    case Published => [Approve, Publish]
    case Expired => [Approve, Publish, Expire]
    case Deleted => []
  }

  /**
   * Following the transition table with the guards ignored, exactly the states
   * other than `Deleted` are reachable from a new draft.
   */
  lemma ReachableFromDraft(t: State)
    ensures (exists path :: Run(Initial, path) == Some(t)) <==> t != Deleted
  {
    if t == Deleted {
      forall path ensures Run(Initial, path) != Some(t) {
        DeletedUnreachable(Initial, path);
      }
    } else {
      var path := PathFromDraft(t);
      assert Run(Expired, []) == Some(Expired);
      assert Run(Published, [Expire]) == Some(Expired) by {
        assert [Expire][1..] == [];
      }
      assert Run(Published, []) == Some(Published);
      assert Run(Approved, [Publish]) == Some(Published) by {
        assert [Publish][1..] == [];
      }
      assert Run(Approved, [Publish, Expire]) == Some(Expired) by {
        assert [Publish, Expire][1..] == [Expire];
      }
      assert Run(Approved, []) == Some(Approved);
      assert [Approve][1..] == [];
      assert [Approve, Publish][1..] == [Publish];
      assert [Approve, Publish, Expire][1..] == [Publish, Expire];
      assert Run(Initial, path) == Some(t);
    }
  }

  /** A post as stored: `name`, `state` and the optional display window. */
  class PublishableModel {
    var name: string
    var state: State
    var displayFrom: Option<int>
    var displayUntil: Option<int>

    constructor (name: string, displayFrom: Option<int>, displayUntil: Option<int>)
      ensures this.name == name && state == Initial
      ensures this.displayFrom == displayFrom && this.displayUntil == displayUntil
    {
      this.name := name;
      state := Initial;
      this.displayFrom := displayFrom;
      this.displayUntil := displayUntil;
    }

    /** `has_display_dates`: both ends of the window are set. */
    predicate HasDisplayDates()
      reads this
    {
      displayFrom.Some? && displayUntil.Some?
    }

    /**
     * `is_expired`. Nothing calls it: `check_displayable` tests the method
     * object itself (always truthy) instead of its result, so the model uses
     * it nowhere either.
     */
    predicate IsExpired()
      reads this
    {
      state == Expired
    }

    /**
     * `check_displayable` as written: displayable when either end of the window
     * is unset, otherwise when `date` lies strictly inside the window. Its
     * auto-expire branch never runs (it tests the method `is_expired` itself,
     * which is always truthy, instead of calling it), so it changes nothing.
     */
    predicate CheckDisplayable(date: int)
      reads this
    {
      if !HasDisplayDates() then true
      else displayFrom.value < date && displayUntil.value > date
    }

    /** `can_display`: the window admits the current time. */
    predicate CanDisplay(now: int)
      reads this
    {
      CheckDisplayable(now)
    }

    /** The conditions of transition `a`, evaluated at time `now`. */
    predicate ConditionsMet(a: Action, now: int)
      reads this
    {
      match a
      case Publish => CanDisplay(now)
      case Expire => HasDisplayDates()
      case _ => true
    }

    /** django-fsm's check before a transition: the state is a source and every condition holds. */
    predicate CanProceed(a: Action, now: int)
      reads this
    {
      state in Sources(a) && ConditionsMet(a, now)
    }

    /**
     * `publish`: from approved or expired, when the window admits `now`;
     * otherwise django-fsm raises `TransitionNotAllowed` (`ok` is false) and
     * the post is unchanged.
     */
    method Publish(now: int) returns (ok: bool)
      modifies this`state
      ensures ok <==> old(CanProceed(Action.Publish, now))
      ensures if ok then Step(old(state), Action.Publish) == Some(state) && state == Published
              else state == old(state)
    {
      ok := CanProceed(Action.Publish, now);
      if ok {
        state := Target(Action.Publish);
      }
    }

    /**
     * `expire`: from published, when both dates are set; the window then ends
     * at `now`. Otherwise `TransitionNotAllowed` and nothing changes.
     */
    method Expire(now: int) returns (ok: bool)
      modifies this`state, this`displayUntil
      ensures ok <==> old(CanProceed(Action.Expire, now))
      ensures if ok then Step(old(state), Action.Expire) == Some(state) && state == Expired && displayUntil == Some(now)
              else state == old(state) && displayUntil == old(displayUntil)
    {
      ok := CanProceed(Action.Expire, now);
      if ok {
        displayUntil := Some(now);
        state := Target(Action.Expire);
      }
    }

    /** `unpublish`: from published back to approved; otherwise `TransitionNotAllowed`. */
    method Unpublish() returns (ok: bool)
      modifies this`state
      ensures ok <==> old(state) in Sources(Action.Unpublish)
      ensures if ok then Step(old(state), Action.Unpublish) == Some(state) && state == Approved
              else state == old(state)
    {
      ok := state in Sources(Action.Unpublish);
      if ok {
        state := Target(Action.Unpublish);
      }
    }

    /** `approve`: from draft to approved; otherwise `TransitionNotAllowed`. */
    method Approve() returns (ok: bool)
      modifies this`state
      ensures ok <==> old(state) in Sources(Action.Approve)
      ensures if ok then Step(old(state), Action.Approve) == Some(state) && state == Approved
              else state == old(state)
    {
      ok := state in Sources(Action.Approve);
      if ok {
        state := Target(Action.Approve);
      }
    }

    /** `reactivate`: from expired back to draft; otherwise `TransitionNotAllowed`. */
    method Reactivate() returns (ok: bool)
      modifies this`state
      ensures ok <==> old(state) in Sources(Action.Reactivate)
      ensures if ok then Step(old(state), Action.Reactivate) == Some(state) && state == Draft
              else state == old(state)
    {
      ok := state in Sources(Action.Reactivate);
      if ok {
        state := Target(Action.Reactivate);
      }
    }
  }

  /**
   * The display window on plain values: with both ends set, `date` must lie
   * strictly between them; with either end unset every date is displayable.
   */
  lemma DisplayWindow(m: PublishableModel, date: int)
    ensures m.displayFrom.None? || m.displayUntil.None? ==> m.CheckDisplayable(date)
    ensures m.HasDisplayDates() ==>
              (m.CheckDisplayable(date) <==> m.displayFrom.value < date < m.displayUntil.value)
    ensures m.HasDisplayDates() && (date == m.displayFrom.value || date == m.displayUntil.value) ==>
              !m.CheckDisplayable(date)
  {
  }
}
