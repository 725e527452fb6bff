# Offer configurator: a Dafny model of the offer bank

The repository is a single-page tool for composing restaurant promotions
("offers"). The user edits a draft configuration, commits it into an
ordered, locally persisted list called the offer bank, and then moves each
banked offer between two states. An offer is pending (shown on the 'bank'
tab) until it is rolled out or toggled. Then it is active (shown on the
'active' tab). An offer can also be deleted.

This project models that core. The model has these parts:

- the records and enumerations of `types.ts`, in module `Types`. The
  template enumeration keeps its string values, because an offer's name and
  description embed them;
- the three draft-editing handlers of `components/OfferForm.tsx`, in module
  `OfferForm`. They are pure functions from the old draft to the new one.
  The symmetric-difference list update is modelled over sequences;
- the commit of `App.tsx`, in module `Commit`. It runs four checks in a
  fixed order, each with its exact error text. It derives the offer's name
  and description and builds the inactive offer from the draft;
- the whole-array transformations of `App.tsx`, in module `Bank`. These are
  rollout, toggle, delete, and the split into the pending and active views;
- the component state of `App.tsx`, in module `App`. The class `OfferApp`
  has the fields `bank`, `config`, `error`, `activeTab` and `persisted`,
  the value last written to storage. Each handler is a method whose
  `ensures` gives the new state in terms of the functions above;
- the two JavaScript built-ins the commit relies on, in module `JsString`
  (`String.prototype.trim` and `Array.prototype.join`). The date parsing
  of `new Date("YYYY-MM-DD")` is in module `Dates`;
- concrete drafts and a scripted session, in module `Scenarios`.

Injected values replace the clock, randomness and storage:

- The new offer's id (`Date.now()` plus a random suffix) is a parameter of
  `AddToBankManually`. The code does not check that the id is unused. So
  the method has no such precondition. It promises unique ids afterwards
  only when the bank had unique ids and the id was fresh.
- The stored bank is an abstract `Option<seq<Offer>>` handed to the
  constructor. None stands for "storage holds nothing".
- The effect that writes the bank after every change is the field
  `persisted`. The class invariant `Valid()` keeps it equal to the bank.
- The deferred tab switches of `handleToggleActive` (`setTimeout(..., 0)`)
  run after the update. The model applies their net effect at the end of
  `ToggleActive`: the last matching offer's new state decides the tab, and
  with no match the tab is unchanged.

Behaviour of the code worth stating outright:

- Start-up load: corrupt stored data is not recovered from. `JSON.parse`
  throws on it, so only an absent or empty stored value gives the empty
  bank, and that is all the model claims.
- Date order: the check compares `new Date(...)` values. A half that does
  not parse is the invalid date, and `<` against it is false, so such a
  draft passes the order check (`Commit.UnparseableDatePassesOrder`).
- Ids: the generator only makes collisions unlikely; nothing checks them.
  Uniqueness is therefore a proved conditional property, not an invariant.
- Rollout of an active offer sets the flag to true again, which is
  idempotent (`Bank.RolloutIdempotent`).
- Deletion removes every offer with the id. That is exactly one offer only
  when ids are unique (`Bank.DeleteUniqueShrinksByOne`).
- Selection lists (segments, products, timing) are arrays in click order,
  not sets. A value toggled off and on again moves to the end
  (`OfferForm.TogglePresentTwice`).

## Model

| member | source | states |
|---|---|---|
| `Types.TemplateText` | types.ts:6-13 | every template has a non-empty string value |
| `Types.TemplateTextInjective` | types.ts:6-13 | distinct templates have distinct string values |
| `JsString.TrimStart` | App.tsx:44 | the result is the suffix of the input after its longest whitespace prefix |
| `JsString.TrimEnd` | App.tsx:44 | the result is the prefix of the input before its longest whitespace suffix |
| `JsString.Trim` | App.tsx:44 | `trim()` gives a slice of the input with no whitespace at either end; it is empty exactly when every character is JavaScript whitespace |
| `JsString.JoinSnoc` | App.tsx:51 | joining one more product appends ", " and that product, so the description lists the products in order |
| `JsString.Join` | App.tsx:51 | `join` of no elements is empty, of one element is that element, and otherwise is every element once plus one separator between each neighbouring pair |
| `Dates.Parse` | App.tsx:36 | `new Date(s)` on a date input's text yields a real calendar date or the invalid date |
| `Dates.ParseFormat` | types.ts:28-31 | parsing the `YYYY-MM-DD` text of a valid date gives that date back |
| `Dates.FormatParse` | types.ts:28-31 | a string parses only when it is the one `YYYY-MM-DD` text of its date |
| `Dates.EmptyIsInvalid` | App.tsx:32-36 | an unset date half, the empty string, is the invalid date |
| `OfferForm.InputChange` | components/OfferForm.tsx:16-21 | only the named scalar field (type, cycles, template or discount depth) takes the value; duration and the three lists are unchanged |
| `OfferForm.DateChange` | components/OfferForm.tsx:23-26 | only the named half of the duration changes; every other field is kept and nothing is checked against the other half |
| `OfferForm.Remove` | components/OfferForm.tsx:31 | the filter removes every occurrence of the value and keeps every other element as often as it occurred |
| `OfferForm.RemoveAppend` | components/OfferForm.tsx:31 | the filter distributes over concatenation, so the remaining elements keep their order |
| `OfferForm.RemoveAbsent` | components/OfferForm.tsx:31 | filtering out an absent value returns the list unchanged |
| `OfferForm.Toggle` | components/OfferForm.tsx:30-32 | after a toggle the value is in the list exactly when it was not before; a present value is filtered out, losing every occurrence while the rest keep their counts; an absent value is appended after the unchanged earlier elements |
| `OfferForm.ToggleOrEmpty` | components/OfferForm.tsx:29-32 | an undefined list field is read as empty, so toggling it gives the one-element list |
| `OfferForm.ToggleAbsentTwice` | components/OfferForm.tsx:30-32 | toggling an absent value twice restores the original list |
| `OfferForm.TogglePresentTwice` | components/OfferForm.tsx:30-32 | toggling a present value twice drops all its occurrences and puts it once at the end |
| `OfferForm.ToggleKeepsDistinct` | components/OfferForm.tsx:30-32 | a list without repeats stays without repeats |
| `OfferForm.MultiSelectChange` | components/OfferForm.tsx:28-34 | only the chosen list (segments, products or timing) is toggled; every other field is unchanged |
| `Bank.Count` | App.tsx:93 | the number of offers with an id is zero exactly when no offer has it |
| `Bank.CountUnique` | App.tsx:93 | with unique ids at most one offer carries a given id |
| `Bank.Rollout` | App.tsx:73 | same length and order; every offer with the id becomes active and every other offer is unchanged |
| `Bank.RolloutIdempotent` | App.tsx:73 | rolling out the same id twice equals rolling it out once |
| `Bank.Toggle` | App.tsx:78-89 | same length and order; offers with the id have their flag negated and every other offer is unchanged |
| `Bank.ToggleInvolution` | App.tsx:78-89 | toggling the same id twice restores the bank exactly |
| `Bank.ToggleHint` | App.tsx:80-85 | a tab switch is scheduled exactly when some offer has the id |
| `Bank.ToggleHintFollowsOffer` | App.tsx:78-89 | with unique ids the tab left in place is the one the toggled offer's new state belongs to |
| `Bank.ToggleHintIsLastMatch` | App.tsx:78-89 | the tab left in place is the one the new state of the last offer carrying the id belongs to, whether or not ids are unique |
| `Bank.Delete` | App.tsx:93 | the survivors are exactly the offers whose id differs, and the length drops by the number of offers with the id |
| `Bank.DeleteAppend` | App.tsx:93 | deletion distributes over concatenation, so the survivors keep their relative order |
| `Bank.DeleteAbsent` | App.tsx:93 | deleting an id that no offer has leaves the bank unchanged |
| `Bank.DeleteUniqueShrinksByOne` | App.tsx:93 | with unique ids, deleting a present id shortens the bank by exactly one |
| `Bank.MapsKeepUniqueIds` | App.tsx:73-89 | rollout and toggle keep the ids unique |
| `Bank.DeleteKeepsUniqueIds` | App.tsx:93 | deletion keeps the ids unique |
| `Bank.Select` | App.tsx:97-98 | the filter keeps only offers with the given flag and never lengthens the bank |
| `Bank.SelectMembers` | App.tsx:97-98 | a view holds exactly the offers of the bank with the given flag |
| `Bank.SelectAppend` | App.tsx:97-98 | each view distributes over concatenation, so it keeps the bank's order |
| `Bank.SelectSplits` | App.tsx:96-99 | the two views together hold every offer of the bank exactly as often as the bank does |
| `Bank.FilteredOffers` | App.tsx:96-99 | 'bank' holds exactly the inactive offers and 'active' the active ones; together they are a permutation of the bank and their lengths add up to its length |
| `Bank.ViewsDisjointIds` | App.tsx:96-99 | with unique ids no id appears in both views |
| `Bank.RolloutMovesToActive` | App.tsx:72-99 | rolling out an offer puts it in the active view and leaves no offer with its id in the 'bank' view, even when ids repeat |
| `Commit.InitialConfig` | App.tsx:8-17 | the reset draft is a mass offer with the single-item template, timed 'Anytime', with empty dates, cycles, segments, products and discount depth |
| `Commit.Message` | App.tsx:33-45 | every refusal shows a non-empty sentence ending in a full stop |
| `Commit.MessagesDistinct` | App.tsx:33-45 | distinct refusals show distinct texts |
| `Commit.DatesSet` | App.tsx:32 | when a date half is unset the order check cannot fail as well |
| `Commit.ToEarlierThanFrom` | App.tsx:36 | the order check fails only when both halves parse as dates and the two texts differ |
| `Commit.HasDiscountDepth` | App.tsx:44 | the depth check passes exactly when the depth has a character that is not JavaScript whitespace |
| `Commit.Validate` | App.tsx:31-47 | a commit passes exactly when both dates are set, the end is not before the start, some product is selected and the depth is not all whitespace; otherwise the error is the first failing check in the order dates set, date order, products, discount depth |
| `Commit.BlankDiscountDepthRefused` | App.tsx:44-47 | an all-whitespace discount depth is refused once the earlier checks pass |
| `Commit.SameDayAccepted` | App.tsx:36-39 | equal start and end dates pass the order check |
| `Commit.UnparseableDatePassesOrder` | App.tsx:36 | an end date that does not parse never fails the order check |
| `Commit.InitialConfigRefused` | App.tsx:8-35 | the reset draft is refused with the missing-dates error |
| `Commit.BuildOffer` | App.tsx:50-66 | the new offer has the injected id, is inactive, carries the derived name and description, keeps the draft's segments as a defined list, and its configuration fields equal the draft's |
| `Commit.MakeName` | App.tsx:50 | the name opens with the template text and " for "; with no product it is that plus "selected items"; with several products it ends in " & more" |
| `Commit.MakeDescription` | App.tsx:51 | the description opens with "Manually configured ", the template and " for ", ends with the validity period, and holds the products' join in between |
| `Commit.NameShape` | App.tsx:50 | the name is the template text, " for ", the first product, then " & more" exactly when there is more than one product |
| `Commit.DescriptionListsProducts` | App.tsx:51 | adding a product appends ", " and its name to the listed products, between the unchanged opening and validity period |
| `Bank.PrependFreshKeepsUnique` | App.tsx:54-67 | prepending an offer with a fresh id keeps the bank's ids unique |
| `App.Load` | App.tsx:20-23 | with nothing stored the bank starts empty; otherwise it is the stored bank |
| `App.OfferApp.constructor` | App.tsx:19-25 | the start state is the loaded bank, the initial draft, no error, the 'bank' tab, and storage holding the bank |
| `App.OfferApp.AddToBankManually` | App.tsx:31-70 | a refused commit sets only the first check's error text; an accepted one prepends the built offer to the unchanged old bank, resets the draft, clears the error and selects 'bank'; fresh ids keep ids unique |
| `App.OfferApp.Prepend` | App.tsx:49-69 | the accepting step: the offer goes in front of the unchanged bank, the draft is reset, the error cleared and 'bank' selected |
| `App.OfferApp.RolloutOffer` | App.tsx:72-75 | the bank becomes its rollout, the tab 'active', draft and error unchanged |
| `App.OfferApp.ToggleActive` | App.tsx:77-90 | the bank becomes its toggle; the tab follows the last toggled offer's new state, or is unchanged when none matches |
| `App.OfferApp.DeleteOffer` | App.tsx:92-94 | the bank becomes its deletion; everything else unchanged |
| `App.OfferApp.InputChange` | components/OfferForm.tsx:16-21 | the draft becomes the form's scalar update of it |
| `App.OfferApp.DateChange` | components/OfferForm.tsx:23-26 | the draft becomes the form's date update of it |
| `App.OfferApp.MultiSelectChange` | components/OfferForm.tsx:28-34 | the draft becomes the form's list toggle of it |
| `Scenarios.ToBeforeFromExample` | App.tsx:36-39 | a draft from 2025-05-10 to 2025-05-01 is refused with the date-order error |
| `Scenarios.InvertedDatesReachable` | components/OfferForm.tsx:23-26 | two date edits can leave the draft's end date before its start date |
| `Scenarios.AcceptedExample` | App.tsx:31-49 | a draft from 2025-05-01 to 2025-05-10 with "Classic Burger" and "50% off" is accepted |
| `Scenarios.NoProductRefused` | App.tsx:40-43 | a draft with no product is refused with the products error |
| `Scenarios.SpaceDepthRefused` | App.tsx:44-47 | a draft whose depth is one space is refused with the depth error |
| `Scenarios.UnsetEndDateRefused` | App.tsx:32-35 | a draft with an unset end date is refused with the missing-dates error |
| `Scenarios.BogoName` | App.tsx:50 | the Buy One Get One Free draft over fries and soda is named "Buy One Get One Free for Fries (Large) & more" |
| `Scenarios.FormStepsBuildBogoDraft` | components/OfferForm.tsx:16-34 | choosing the template, both dates, two products in click order and the depth builds the Buy One Get One Free draft, products in that order |
| `Scenarios.FillDraft` | components/OfferForm.tsx:16-34 | the same edits made through the application's handlers leave the bank empty and the draft equal to that draft |
| `Scenarios.CommitDraft` | App.tsx:31-69 | committing that draft banks exactly one inactive offer built from it and resets the draft and the tab |
| `Scenarios.CommitResetDraft` | App.tsx:32-34 | committing the reset draft sets the missing-dates text and leaves the bank unchanged |

## Left out

- Rendering: the JSX of `App.tsx` (the modal, the tab buttons and their click handlers, the lists) and of `components/OfferForm.tsx`, and the components `OfferCard`, `OfferList`, `LoadingSpinner` and `Modal`. They only present the state.
- Storage and JSON: `localStorage` and `JSON.stringify`/`JSON.parse` are the abstract stored value `Option<seq<Offer>>`. Parse failures of corrupt storage, which throw, are not modelled.
- Id generation: `Date.now()` and `Math.random()` are replaced by the injected `freshId`.
- The `min` attribute of the date inputs (today's date from the clock) only constrains the browser's date picker. It is not part of any check.
- `Dates.Parse` accepts only the `YYYY-MM-DD` shape a date input produces, with real calendar dates in years 0 to 9999. Other strings that a JavaScript engine would parse, and out-of-range days that some engines roll over (such as 2025-02-31), are treated as the invalid date. The comparison of two parsed dates by time value is modelled as calendar order.
- `ToggleActive`: the deferred `setTimeout` tab switches are collapsed into the method's final state. The interleaving with other events before they fire is not modelled.
- The static catalogue of `constants.ts` is not modelled. Its product and template names appear only as concrete values in `Scenarios`.
- React's re-running of state updaters (development mode) is not modelled; every handler is one atomic update.
