# django-fsm-admin, modelled in Dafny

django-fsm-admin adds workflow buttons to the Django admin change form of a
model whose state is held in a django-fsm `FSMField`. It has three parts:

- **The admin mixin** (`FSMTransitionMixin`):
  - collects, per state field, the transitions the user may take and keeps those whose `custom['admin']` flag allows them;
  - recognises the clicked button from the POST key `_fsmtransition-<field>-<transition>`;
  - calls the transition method, records the outcome on the object and turns it into a success or error message;
  - gathers hints for transitions whose conditions fail.
- **The template tags**, which lay out the submit row:
  - one entry per offered transition;
  - grouped by field;
  - within a field, ordered by label, descending;
  - labelled by `custom['button_name']` or a title-cased default.

  They also render the hints block.
- **The example model**, a publishable post with five states and five transitions. Two of the transitions are guarded by conditions on the post's display window.

The Dafny project:

| file | module | what it holds |
|---|---|---|
| `wrappers.dfy` | `Wrappers` | `Option` |
| `strings.dfy` | `Strings` | the Python string operations the code relies on: `str.title` on ASCII, `replace`, `split`/`join`, and code-point order |
| `dicts.dfy` | `Dicts` | insertion-ordered dicts as association lists: lookup, update, and the `defaultdict(list)` grouping |
| `transitions.dfy` | `Transitions` | django-fsm's transition record (name, source, target, conditions evaluated on the object, `custom`) |
| `admin_mixin.dfy` | `AdminMixin` | the mixin; the object and the change form are classes updated in place |
| `submit_row.dfy` | `SubmitRow` | the template tags |
| `publication.dfy` | `Publication` | the example post: its states, its transition table and the `PublishableModel` class |
| `publishable_admin.dfy` | `PublishableAdmin` | the example post seen through the admin: its transition records, the admin's choice of possible transitions, and the hints it shows under each setting |

Things the code reaches outside itself for become parameters:

- **django-fsm's per-user transition list** (`get_available_user_<field>_transitions`) is a function `available` from field name to transitions.
- **The setting `FSM_ADMIN_FORCE_PERMIT`** is a boolean in `Config`.
- **The current time** is an integer `now`.
- **A condition's result** is the boolean it returns for the object.

## Model

| member | source | states |
|---|---|---|
| AdminMixin.FieldNames | fsm_admin/mixins.py:234-244 | a single field name becomes a one-element list; a list of names is returned as it is |
| AdminMixin.FilterAdmin | fsm_admin/mixins.py:121-138 | a transition is kept iff its `custom['admin']`, defaulting to `not FSM_ADMIN_FORCE_PERMIT`, is true; nothing is added |
| AdminMixin.FilterAdminConcat | fsm_admin/mixins.py:136-138 | filtering keeps the input order: it distributes over concatenation |
| AdminMixin.Display | fsm_admin/mixins.py:80-88 | a field with choices shows the label of its value (the value itself when it has none); a field without choices shows the raw value |
| AdminMixin.FromStateMembers | fsm_admin/mixins.py:230-232 | a declared transition is kept iff its source is the field's value or `*` |
| AdminMixin.Possible | fsm_admin/mixins.py:222-232 | a transition is possible iff some listed field declares it and its source is that field's current value or `*` |
| AdminMixin.PossibleConcat | fsm_admin/mixins.py:226-232 | possible transitions come field by field, in field-list order |
| AdminMixin.ParseKey | fsm_admin/mixins.py:146-147 | a prefixed key with at least three `-`-separated pieces names a request; with fewer pieces it is an `IndexError` |
| AdminMixin.ParseKeyRoundTrip | fsm_admin/mixins.py:41-44 | the key `prefix-field-transition[-…]` built from dash-free parts parses back to that field and transition |
| AdminMixin.RequestInFirstMatch | fsm_admin/mixins.py:144-147 | only the first key carrying the prefix is parsed; later keys are ignored |
| AdminMixin.RequestInNone | fsm_admin/mixins.py:148 | there is no request iff no key carries the prefix |
| AdminMixin.GetRequestedTransition | fsm_admin/mixins.py:140-148 | the loop returns what the first prefixed key names, and `(None, None)` when there is none |
| AdminMixin.AdminTransitions | fsm_admin/mixins.py:50-65 | the keys are the configured fields without repeats, in first-occurrence order; each holds the admin-filtered transitions django-fsm offers the user on it, or nothing when there is no object |
| AdminMixin.FsmGetTransitions | fsm_admin/mixins.py:50-65 | the loop, which assigns `transitions[field]` once per configured field (a repeated field overwrites its entry in place), builds exactly that dict |
| AdminMixin.IsTransitionAvailable | fsm_admin/mixins.py:112-119 | true iff there is an object and some configured field offers a transition of that name |
| AdminMixin.NamedInTransitions | fsm_admin/mixins.py:116-119 | a name occurs in the per-field dict iff some configured field offers it |
| AdminMixin.DoTransition | fsm_admin/mixins.py:150-183 | an available transition with a method runs once: the field takes the target value and the form marks the field changed. The results record success, the object, the transition, and the displayed state before and after. Otherwise nothing changes and the results record an error with the original state. |
| AdminMixin.SaveModel | fsm_admin/mixins.py:185-189 | with no prefixed key, or an empty transition name, only the save happens. A key with fewer than three pieces raises `IndexError`, and an unknown field raises `FieldDoesNotExist`; in both cases nothing is saved. Otherwise `_do_transition` runs on the requested field, with exactly its effect on the value, the form and the recorded results, and then the object is saved. |
| AdminMixin.ResponseChange | fsm_admin/mixins.py:90-103 | no results defers to the base admin; success says `<obj> successfully set to <new_state>`; an error says `Error! <obj> failed to <transition>`; the message level is the recorded status |
| AdminMixin.ConditionHintsSpec | fsm_admin/mixins.py:202-218 | a condition yields a hint iff it fails, its transition's defaulted `admin` flag is false, and its hint is non-empty. The hint is filed under the non-empty `button_name`, else under the title-cased name. |
| AdminMixin.HintPairsSpec | fsm_admin/mixins.py:201-218 | the hint pairs are exactly the reported conditions of the given transitions |
| AdminMixin.GetTransitionHints | fsm_admin/mixins.py:191-220 | the loops build the `defaultdict(list)` of the reported hints of the possible transitions, in order |
| AdminMixin.AddConditionHints | fsm_admin/mixins.py:202-218 | the inner loop appends, in condition order, exactly the reported hints of one transition to the grouped dict |
| AdminMixin.TransitionHintsSpec | fsm_admin/mixins.py:195-220 | the hints dict built from transitions `ts` has distinct keys and no empty list; key `k` lists hint `h` iff some transition of `ts` filed under `k` has a reported condition with hint `h` |
| Publication.ValueRoundTrip | example/fsm_example/models.py:7-23 | the five stored strings name the five states one-to-one |
| Publication.DeletedUntouched | example/fsm_example/models.py:86-119 | no transition leaves or enters `deleted` |
| Publication.DeletedUnreachable | example/fsm_example/models.py:86-119 | from any other state, no sequence of transitions reaches `deleted` |
| Publication.ReachableFromDraft | example/fsm_example/models.py:31-36 | following the transition table with the guards ignored, a state is reachable from the default `draft` iff it is not `deleted` |
| Publication.PublishableModel.constructor | example/fsm_example/models.py:28-40 | a new post is a draft with the given name and display window |
| Publication.PublishableModel.Publish | example/fsm_example/models.py:86-92 | from approved or expired, with `can_display`, the post becomes published; otherwise it raises `TransitionNotAllowed` and is unchanged |
| Publication.PublishableModel.Expire | example/fsm_example/models.py:94-101 | from published, with display dates set, the post becomes expired and its window ends now; otherwise it raises `TransitionNotAllowed` and is unchanged |
| Publication.PublishableModel.Unpublish | example/fsm_example/models.py:103-107 | from published the post becomes approved; otherwise `TransitionNotAllowed` |
| Publication.PublishableModel.Approve | example/fsm_example/models.py:109-113 | from draft the post becomes approved; otherwise `TransitionNotAllowed` |
| Publication.PublishableModel.Reactivate | example/fsm_example/models.py:115-119 | from expired the post becomes a draft; otherwise `TransitionNotAllowed` |
| Publication.DisplayWindow | example/fsm_example/models.py:54-81 | without both dates every date is displayable; with both, a date is displayable iff it lies strictly inside the window, so neither end is |
| PublishableAdmin.ConditionsMatchGuard | example/fsm_example/models.py:54-63 | the conditions recorded for a transition all hold iff the post's own guard for it holds |
| PublishableAdmin.PlainFieldsDisplayRaw | fsm_admin/mixins.py:78-88 | the post's plain fields `name`, `display_from`, `display_until` and the implicit primary key `id` are fields of the model, carry no transitions, and display their raw value |
| PublishableAdmin.DeclaredMatchesTable | example/fsm_example/models.py:86-119 | django-fsm's records for the `state` field are exactly one per transition and source, with that transition's target |
| PublishableAdmin.PossibleFollowsTable | fsm_admin/mixins.py:222-232 | for a post in state `s`, the admin's possible transitions are exactly the table's transitions that leave `s` |
| PublishableAdmin.PublishedPossible | fsm_admin/mixins.py:222-232 | a published post can expire or be unpublished, in that order |
| PublishableAdmin.DefaultSettingShowsNoHints | fsm_admin/mixins.py:201-210 | with `FSM_ADMIN_FORCE_PERMIT` unset, a transition without `custom['admin']` passes the filter and none of its conditions is ever hinted |
| PublishableAdmin.PostDefaultSetting | fsm_admin/mixins.py:195-220 | under the default setting the admin filter hides no post transition (a button still needs django-fsm to offer it), and no post, in any state, gets a hint |
| PublishableAdmin.ForcePermitHidesButtons | fsm_admin/mixins.py:132-138 | with `FSM_ADMIN_FORCE_PERMIT = True`, a transition without `custom['admin']` gets no button |
| PublishableAdmin.ForcePermitHintsExpire | fsm_admin/mixins.py:195-220 | with `FSM_ADMIN_FORCE_PERMIT = True`, no post transition gets a button; a published post without display dates gets exactly the hint `{"Expire": ["Display dates are required to expire a page."]}` |
| SubmitRow.FsmSubmitButton | fsm_admin/templatetags/fsm_admin.py:28-39 | the button context holds the entry's field, value and transition name, unchanged |
| SubmitRow.ModelName | fsm_admin/templatetags/fsm_admin.py:48-56 | the model's verbose name, and `''` without an object |
| SubmitRow.ButtonName | fsm_admin/templatetags/fsm_admin.py:58-63 | a present `button_name` is the label as it is, even when empty; otherwise the label is the title-cased `name` with underscores as spaces, then a space, then the model name |
| SubmitRow.DefaultButtonLabel | fsm_admin/templatetags/fsm_admin.py:62-63 | the default label has the name's length plus one plus the model name's length, with a space at the join and underscores read as spaces. Letters change only in case, the first cased letter is capitalised, and the label is already title-cased. |
| SubmitRow.SortSpec | fsm_admin/templatetags/fsm_admin.py:74-77 | `sorted(key=label, reverse=True)`: labels descend; the block is a permutation; entries with equal labels keep their order |
| SubmitRow.RowsLayout | fsm_admin/templatetags/fsm_admin.py:72-77 | the row is field after field in dict order. Each field's entries form one contiguous block: one per offered transition, all tagged with that field, sorted by label descending and stable. |
| SubmitRow.FsmSubmitRow | fsm_admin/templatetags/fsm_admin.py:42-80 | the loop builds exactly that layout from `_fsm_get_transitions` and the model name |
| SubmitRow.FsmTransitionHints | fsm_admin/templatetags/fsm_admin.py:83-96 | there is no hints entry iff there is no object; otherwise it holds the object's transition hints |
| Strings.TitleFrom | fsm_admin/mixins.py:218 | `str.title`: a cased letter is upper-case after an uncased character and lower-case after a cased one; every other character is kept |
| Strings.TitleIdempotent | fsm_admin/templatetags/fsm_admin.py:63 | title-casing a title-cased string changes nothing |
| Strings.Split | fsm_admin/mixins.py:146 | `key.split('-')` gives at least one dash-free piece, and joining the pieces with `-` gives the key back |
| Strings.SplitJoin | fsm_admin/mixins.py:146 | splitting the `-`-join of one or more dash-free pieces gives those pieces back |
| Strings.LessTotal | fsm_admin/templatetags/fsm_admin.py:74-77 | string order, by code point, is total and strict (with `LessIrreflexive`, `LessTransitive` and `LessAsymmetric`) |
| Dicts.GroupKeys | fsm_admin/mixins.py:195-220 | a grouped dict's keys are the pairs' keys in first-occurrence order |
| Dicts.GroupFind | fsm_admin/mixins.py:195-220 | each grouped key holds exactly its values, in order; a missing key has none |
| Dicts.GroupEntries | fsm_admin/mixins.py:195-220 | a grouped dict has distinct keys, no empty list, and each key holds its own values |
| Dicts.PutFind | fsm_admin/mixins.py:64 | after `d[k] = v`, `k` finds `v` and every other key finds what it found before |
| Dicts.PutKeys | fsm_admin/mixins.py:64 | `d[k] = v` keeps the key order, appending `k` only when it is new |

## Left out

- **HTTP and Django plumbing.** Requests, redirects, preserved filters, `message_user`, `submit_row`'s own context, the `perms` entry and the template choices for grappelli, suit and wpadmin are not part of this model. Neither is the `get_redirect_url` hook, which only returns `request.path`.
- **Permissions and `available`.** django-fsm's own evaluation is not modelled: which transitions a user may take (permissions, conditions) is the parameter `available`, and django-fsm's `get_all_transitions` is the `transitions` list of a field's metadata.
- **Condition functions** are given by their result on the object, not run.
- **The calling convention of transition methods.** The retry chain `trans_func(request=…, by=…)`, then `trans_func(by=…)`, then `trans_func()` on `TypeError` is not modelled.
- **The effect of an admin transition call.** In `AdminMixin.DoTransition` the call is modelled as django-fsm's state change alone, setting the field to the target. Other side effects of the method body are not modelled, nor is a `TransitionNotAllowed` raised inside it; the example post's bodies are modelled separately in `Publication`.
- **`super().save_model`** is modelled as a `Saved` event in the object's history, not as a database write.
- **`force_text(obj)`** is the object's fixed text; **`_()`** translation is left out.
- **`getattr(obj, transition)`** finds only the object's transition methods (`methods`). Another attribute of that name, which would be called, is not modelled.
- **`Strings.Title`** handles ASCII letters only. The model does not capture Python's Unicode case mapping and categories.
- **`Transitions.Custom`** models only the `admin` and `button_name` keys. A non-boolean `admin` value is not modelled.
- **`Publication.PublishableModel`** leaves out `name`'s length limit and the database `save()`. `timezone.now()` is the parameter `now` and dates are integers.
- **`Publication.PublishableModel.CheckDisplayable`** models `check_displayable` as written, and its auto-expire branch is dead (see below).
- **`AdminMixin.Possible`, `AdminMixin.GetTransitionHints` and `SubmitRow.FsmTransitionHints`** assume a correctly configured `fsm_field`, as their `Configured` precondition states. A misconfigured admin raises in the source: `FieldDoesNotExist` when a configured name is not a field of the model, and `AttributeError` from `get_all_transitions` when it names a field that is not an FSM field. Neither error is modelled: the precondition excludes a name that is not a field, and a plain field simply has no transitions in the model.
- **`AdminMixin.FsmGetTransitions`, and through it `AdminMixin.IsTransitionAvailable`, `AdminMixin.DoTransition`, `AdminMixin.SaveModel` and `SubmitRow.FsmSubmitRow`,** do not model the `AttributeError` that `getattr(obj, 'get_available_user_<field>_transitions')` raises at fsm_admin/mixins.py:62-63 when a configured name is not an FSM field. django-fsm defines that method only on FSM fields. In the source the error escapes `_do_transition`, so `save_model` raises and nothing is saved. In the model, `available` is defined for every name and stands for django-fsm's method only where such a method exists: for any other name the model returns an entry, `SaveModel` ends in `Done` and a save is recorded.
- **Dict iteration order** is modelled as insertion order (`Dicts`), which CPython guarantees from Python 3.7 on. setup.py lists Python 2.7 and 3.4, where `transitions.items()` (fsm_admin/templatetags/fsm_admin.py:73, fsm_admin/mixins.py:117) and `dict(hints)` (fsm_admin/mixins.py:220) iterate in hash order. There, the order of the field blocks in the submit row and of the hint keys is unspecified; the order `AdminMixin.AdminTransitions`, `SubmitRow.RowsLayout`, `SubmitRow.FsmSubmitRow` and `Dicts.GroupKeys` state holds only under Python 3.7 and later. The sets of entries and each entry's contents do not depend on the version.
- **The rest of the repository.** `example/fsm_example/utils`, `admin.py`, `urls.py` and `setup.py` are not part of this model.

## Where the code and its comments differ

- **The auto-expire branch is dead.** At example/fsm_example/models.py:78, `not self.is_expired` tests the bound method, which is always truthy, instead of calling it. The branch that would expire and save a post never runs, so `check_displayable` only computes. The model follows the code.
- **The hint comment contradicts the code.** The comment at fsm_admin/mixins.py:208 says hints are skipped for hidden transitions. The code skips the transitions whose defaulted `admin` flag is true, which are the ones the filter *shows*. Hints therefore appear only for transitions that get no button: `PublishableAdmin.PostDefaultSetting` and `PublishableAdmin.ForcePermitHintsExpire` state the consequence for the example post. The model follows the code.
- **The filter docstring is garbled.** The docstring at fsm_admin/mixins.py:132-134 says that without `FSM_ADMIN_FORCE_PERMIT` only transitions with `admin=False` are allowed. The code allows every transition except those with `admin=False` (`AdminMixin.FilterAdmin`).
