/**
 * The template tags: the transition buttons of the submit row (their labels,
 * grouped by field and ordered by label, descending) and the hints block.
 */
module SubmitRow {
  import opened Wrappers
  import opened Strings
  import opened Dicts
  import opened Transitions
  import opened AdminMixin

  /** A submit-row entry `(fsm_field_name, button_value, transition_name)`. */
  type Button = (string, string, string)

  /** The context of one rendered button. */
  datatype ButtonContext = ButtonContext(buttonValue: string, fsmFieldName: string, transitionName: string)

  /** `fsm_submit_button`: the entry's three parts, each under its own name and unchanged. */
  function FsmSubmitButton(b: Button): (ctx: ButtonContext)
    ensures (ctx.fsmFieldName, ctx.buttonValue, ctx.transitionName) == b
  {
    ButtonContext(b.1, b.0, b.2)
  }

  /**
   * `model_name` in `fsm_submit_row`: the verbose name of the object's model
   * (for a deferred instance, that of the model it defers), '' without an object.
   */
  function ModelName(original: AdminObject?): (name: string)
    ensures original == null ==> name == ""
    ensures original != null ==> name == original.meta.verboseName
  {
    if original == null then "" else original.meta.verboseName
  }

  /**
   * `button_name`: `custom['button_name']` as it is whenever that entry exists
   * (even when empty), otherwise the transition name with underscores as
   * spaces, a space and the model name, title-cased.
   */
  function ButtonName(t: Transition, modelName: string): (caption: string)
    ensures t.custom.buttonName.Some? ==> caption == t.custom.buttonName.value
    ensures t.custom.buttonName.None? ==> caption == Title(ReplaceChar(t.name, '_', ' ') + " " + modelName)
  {
    match t.custom.buttonName
    case Some(name) => name
    case None => Title(ReplaceChar(t.name, '_', ' ') + " " + modelName)
  }

  /**
   * The default label spells the transition name and then the model name,
   * separated by a space: underscores read as spaces, every letter keeps its
   * identity with only its case changed, each word starts with a capital,
   * and the label is already in title case.
   */
  lemma DefaultButtonLabel(t: Transition, modelName: string)
    requires t.custom.buttonName.None?
    ensures var caption := ButtonName(t, modelName);
            && |caption| == |t.name| + 1 + |modelName|
            && caption[|t.name|] == ' '
            && (forall i :: 0 <= i < |t.name| && t.name[i] == '_' ==> caption[i] == ' ')
            && (forall i :: 0 <= i < |t.name| && IsCased(t.name[i]) ==> Lower(caption[i]) == Lower(t.name[i]))
            && (forall i :: 0 <= i < |modelName| && IsCased(modelName[i]) ==>
                  Lower(caption[|t.name| + 1 + i]) == Lower(modelName[i]))
            && (|t.name| > 0 && IsCased(t.name[0]) ==> IsUpper(caption[0]))
            && Title(caption) == caption
  {
    var text := ReplaceChar(t.name, '_', ' ') + " " + modelName;
    var caption := Title(text);
    assert caption == TitleFrom(text, false);
    TitleShape(text);
    TitleIdempotent(text);
    forall i | 0 <= i < |text| && IsCased(text[i])
      ensures Lower(caption[i]) == Lower(text[i])
    {
      var before := if i == 0 then false else IsCased(text[i - 1]);
      assert caption[i] == if before then Lower(text[i]) else Upper(text[i]);
    }
    forall i | 0 <= i < |t.name| && IsCased(t.name[i])
      ensures Lower(caption[i]) == Lower(t.name[i])
    {
      assert text[i] == t.name[i];
    }
    forall i | 0 <= i < |modelName| && IsCased(modelName[i])
      ensures Lower(caption[|t.name| + 1 + i]) == Lower(modelName[i])
    {
      assert text[|t.name| + 1 + i] == modelName[i];
    }
  }

  /** Insert `b` before the first entry whose label is not greater than its own. */
  function Insert(b: Button, sorted: seq<Button>): (r: seq<Button>)
    ensures multiset(r) == multiset(sorted) + multiset{b}
  {
    if sorted == [] then [b]
    else if LessOrEqual(sorted[0].1, b.1) then [b] + sorted
    else
      assert sorted == [sorted[0]] + sorted[1..];
      [sorted[0]] + Insert(b, sorted[1..])
  }

  /** `sorted(bs, key=lambda e: e[1], reverse=True)`. */
  function SortByLabelDescending(bs: seq<Button>): (r: seq<Button>)
    ensures multiset(r) == multiset(bs)
  {
    if bs == [] then []
    else
      assert bs == [bs[0]] + bs[1..];
      Insert(bs[0], SortByLabelDescending(bs[1..]))
  }

  /** Labels never increase along the sequence. */
  predicate Descending(bs: seq<Button>) {
    forall i, j :: 0 <= i < j < |bs| ==> LessOrEqual(bs[j].1, bs[i].1)
  }

  /** The entries of `bs` that carry label `l`, in order. */
  function WithLabel(bs: seq<Button>, l: string): seq<Button> {
    if bs == [] then [] else (if bs[0].1 == l then [bs[0]] else []) + WithLabel(bs[1..], l)
  }

  lemma LessOrEqualTransitive(a: string, b: string, c: string)
    requires LessOrEqual(a, b) && LessOrEqual(b, c)
    ensures LessOrEqual(a, c)
  {
    if a != b && b != c {
      LessTransitive(a, b, c);
    }
  }

  lemma {:induction false} InsertDescending(b: Button, sorted: seq<Button>)
    requires Descending(sorted)
    ensures Descending(Insert(b, sorted))
  {
    if sorted != [] {
      if LessOrEqual(sorted[0].1, b.1) {
        forall j | 0 <= j < |sorted|
          ensures LessOrEqual(sorted[j].1, b.1)
        {
          if j > 0 {
            LessOrEqualTransitive(sorted[j].1, sorted[0].1, b.1);
          }
        }
      } else {
        InsertDescending(b, sorted[1..]);
        var rest := Insert(b, sorted[1..]);
        LessTotal(sorted[0].1, b.1);
        forall e | e in rest
          ensures LessOrEqual(e.1, sorted[0].1)
        {
          assert e in multiset(rest);
          if e != b {
            assert e in sorted[1..];
          }
        }
        var r := [sorted[0]] + rest;
        forall i, j | 0 <= i < j < |r|
          ensures LessOrEqual(r[j].1, r[i].1)
        {
          if i == 0 {
            assert r[j] in rest;
          }
        }
      }
    }
  }

  /** Insertion puts `b` before every entry with the same label, keeping their order. */
  lemma {:induction false} InsertWithLabel(b: Button, sorted: seq<Button>, l: string)
    ensures WithLabel(Insert(b, sorted), l) == (if b.1 == l then [b] else []) + WithLabel(sorted, l)
  {
    if sorted != [] && !LessOrEqual(sorted[0].1, b.1) {
      InsertWithLabel(b, sorted[1..], l);
      var r := Insert(b, sorted);
      assert r == [sorted[0]] + Insert(b, sorted[1..]);
      assert r[1..] == Insert(b, sorted[1..]);
    }
  }

  /**
   * Sorting orders the entries by label, descending, keeps exactly the same
   * entries, and is stable: entries with equal labels keep their relative order.
   */
  lemma {:induction false} SortSpec(bs: seq<Button>, l: string)
    ensures Descending(SortByLabelDescending(bs))
    ensures multiset(SortByLabelDescending(bs)) == multiset(bs)
    ensures WithLabel(SortByLabelDescending(bs), l) == WithLabel(bs, l)
  {
    if bs != [] {
      SortSpec(bs[1..], l);
      InsertDescending(bs[0], SortByLabelDescending(bs[1..]));
      InsertWithLabel(bs[0], SortByLabelDescending(bs[1..]), l);
    }
  }

  /** `[(field, button_name(t), t.name) for t in field_transitions]`. */
  function Entries(field: string, ts: seq<Transition>, modelName: string): (r: seq<Button>)
    ensures |r| == |ts|
    ensures forall i :: 0 <= i < |ts| ==> r[i] == (field, ButtonName(ts[i], modelName), ts[i].name)
  {
    if ts == [] then [] else [(field, ButtonName(ts[0], modelName), ts[0].name)] + Entries(field, ts[1..], modelName)
  }

  /** One field's block of the submit row: its entries sorted by label, descending. */
  function Block(field: string, ts: seq<Transition>, modelName: string): seq<Button> {
    SortByLabelDescending(Entries(field, ts, modelName))
  }

  /** The pieces `f(e)` of the elements `e` of `d`, concatenated in order. */
  function FlatMap<T, U>(d: seq<T>, f: T -> seq<U>): seq<U> {
    if d == [] then []
    else FlatMap(d[..|d| - 1], f) + f(d[|d| - 1])
  }

  /** Concatenating the pieces distributes over concatenation of the elements. */
  lemma {:induction false} FlatMapConcat<T, U>(a: seq<T>, b: seq<T>, f: T -> seq<U>)
    ensures FlatMap(a + b, f) == FlatMap(a, f) + FlatMap(b, f)
    decreases |b|
  {
    if b == [] {
      assert a + b == a;
    } else {
      var init, last := b[..|b| - 1], b[|b| - 1];
      assert (a + b)[..|a + b| - 1] == a + init;
      assert (a + b)[|a + b| - 1] == last;
      FlatMapConcat(a, init, f);
    }
  }

  /** The whole submit row: the blocks of the fields of `d`, in the dict's order. */
  function Rows(d: seq<(string, seq<Transition>)>, modelName: string): seq<Button> {
    FlatMap(d, (e: (string, seq<Transition>)) => Block(e.0, e.1, modelName))
  }

  /**
   * The submit row is laid out field by field: the entries of field `d[i]` form
   * one contiguous block, after those of the fields before it and before those
   * of the fields after it; the block holds one entry per offered transition,
   * all tagged with that field, ordered by label (descending) and stable.
   */
  lemma RowsLayout(d: seq<(string, seq<Transition>)>, modelName: string, i: nat, l: string)
    requires i < |d|
    ensures Rows(d, modelName)
         == Rows(d[..i], modelName) + Block(d[i].0, d[i].1, modelName) + Rows(d[i + 1..], modelName)
    ensures var block := Block(d[i].0, d[i].1, modelName);
            && multiset(block) == multiset(Entries(d[i].0, d[i].1, modelName))
            && (forall b :: b in block ==> b.0 == d[i].0)
            && Descending(block)
            && WithLabel(block, l) == WithLabel(Entries(d[i].0, d[i].1, modelName), l)
  {
    assert d == d[..i] + [d[i]] + d[i + 1..];
    var f := (e: (string, seq<Transition>)) => Block(e.0, e.1, modelName);
    FlatMapConcat(d[..i] + [d[i]], d[i + 1..], f);
    FlatMapConcat(d[..i], [d[i]], f);
    assert [d[i]][..0] == [];
    assert FlatMap([d[i]], f) == Block(d[i].0, d[i].1, modelName);
    var entries := Entries(d[i].0, d[i].1, modelName);
    SortSpec(entries, l);
    forall b | b in Block(d[i].0, d[i].1, modelName)
      ensures b.0 == d[i].0
    {
      assert b in multiset(entries);
    }
  }

  /**
   * `fsm_submit_row`: the entries of the submit row, one per transition the
   * admin offers, grouped by field in field order, each group ordered by label.
   */
  method FsmSubmitRow(cfg: Config, original: AdminObject?, available: string -> seq<Transition>)
    returns (rows: seq<Button>)
    ensures rows == Rows(AdminTransitions(cfg, original != null, available), ModelName(original))
  {
    var modelName := ModelName(original);
    var transitions := FsmGetTransitions(cfg, original, available);
    rows := [];
    for i := 0 to |transitions|
      invariant rows == Rows(transitions[..i], modelName)
    {
      var field := transitions[i].0;
      assert transitions[..i + 1][..i] == transitions[..i];
      rows := rows + SortByLabelDescending(Entries(field, transitions[i].1, modelName));
    }
    assert transitions[..|transitions|] == transitions;
  }

  /** The context of the hints block: empty without an object. */
  datatype HintsContext = NoHints | TransitionHints(hints: seq<(string, seq<string>)>)

  /** `fsm_transition_hints`: nothing without an object, otherwise exactly its transition hints. */
  method FsmTransitionHints(cfg: Config, original: AdminObject?) returns (ctx: HintsContext)
    requires original != null ==> Configured(FieldNames(cfg), original.meta, original.values)
    ensures ctx.NoHints? <==> original == null
    ensures original != null ==>
              ctx.hints == Group(HintPairs(cfg, Possible(FieldNames(cfg), original.meta, original.values)))
  {
    if original == null {
      return NoHints;
    }
    var hints := GetTransitionHints(cfg, original);
    return TransitionHints(hints);
  }
}
