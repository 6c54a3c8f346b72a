# kitshn view-state model

A Dafny model of the view-state bookkeeping of three screens of kitshn, an
Android client for the Tandoor recipe server:

- **Keyword multi-select dialog** (`SelectMultipleKeywordsDialog.kt`). The
  dialog's state holder keeps an ordered selection. Toggling a keyword on
  inserts it at the front and does not look for an existing entry. Toggling
  it off removes every entry with its id. The panel removes one entry.
  Submit hides the dialog and hands the selection over.
  The embedded search bar has five parts:
  - a typed query, published as the search term after a quiet period or at
    once on the keyboard's search action;
  - an id mirror of the selection that decides which rows are checked;
  - a first-page request that replaces the results;
  - a guarded "reached bottom" step that raises the page counter before it
    requests the next page, and appends that page;
  - a "create keyword" item, offered for queries longer than two characters
    that do not match the first result ignoring case.
- **Servings selector** (`ServingsSelector.kt`). The minus and plus buttons
  pass through a guard that drops values below 1. The change dialog's value
  skips that guard. The unit text falls back to a plural resource when the
  label is blank.
- **Recipe-book dialog** (`RecipeBookCreationAndEditDialog.kt`). It has a
  creation holder and an edit holder. A rule decides whether the dialog is
  shown, which defaults it starts from and whether it edits. The name field
  has a 128-character check. Submit behaves differently in create and edit
  mode.

Every state is an immutable datatype and every event a pure function.
Network calls are split into two parts: the moment a call is issued, which
is recorded in the bar's `issued` log, and a later response or failure
event. The 250 ms quiet period is a `QuietPeriod` event. A change of the
lazy list's `reachedBottom` flag is a `BottomChanged` event. `KeywordSession.Step`
drives the dialog and its bar together; `KeywordSession.Run` applies an
event sequence.

Behaviours of the code that the model keeps as they are:

- A new search term sets the page counter back to 1. It does not clear the
  results and does not reset `nextPageExists`.
- Responses carry no term. Restarting the search effect cancels the
  previous first-page coroutine, so the model has one first-page slot. The
  extend coroutine is not keyed on the term: a next-page response for an
  old term is appended to the new term's results
  (`KeywordSearchFacts.OldExtendAppendsToNewTerm`).
- The page counter is raised before the next-page request and is not rolled
  back on failure. The next "reached bottom" asks for the following page
  (`KeywordSearchFacts.FailedExtendSkipsPage`).
- A second change of `reachedBottom` while a next page is still on its way
  restarts the effect and cancels that call: the page is never appended and
  the raised counter stays. If the cancelled request still reads as loading,
  no further page is ever requested; otherwise the page after the cancelled
  one is requested (`KeywordSearchFacts.SecondFlipCancelsPage`).
- The create item is hidden when the term changes. It is recomputed only
  when the result list changes by value. A first page equal to the previous
  results leaves it hidden (`KeywordSearchFacts.EqualResultsKeepCreationHidden`).
- A row click reads the id mirror, which catches up with the selection one
  effect later. Two clicks before it catches up insert the keyword twice
  (`KeywordSession.DoubleClickBeforeSyncDuplicates`). Creating a keyword
  whose id is already selected does the same
  (`KeywordSession.CreatedKeywordGoesFirst`), and a page of an old term can
  bring an id the results already hold
  (`KeywordSearchFacts.OldExtendAppendsToNewTerm`). Both lists use the ids
  as keys of their lazy columns (`SelectMultipleKeywordsDialog.kt` lines
  159 and 362), and Compose rejects duplicate keys. So the program fails to
  render the list in these states, which the model does not cover.
- The create item's length rule counts UTF-16 code units, as Kotlin's
  `length` does. A character outside the Basic Multilingual Plane counts
  twice, and so does it for the 128-unit limit on recipe-book names.
- Kotlin's `Int` wraps around. Plus at `Int.MAX_VALUE` emits nothing.
  Minus at `Int.MIN_VALUE` emits `Int.MAX_VALUE`.
- When both recipe-book holders are shown, the creation defaults are shown
  in edit mode. An edit submit closes only the edit holder, so the dialog
  stays and its title switches to create. The form and its submit action
  were built once for the first view, so they stay in edit mode. Every
  later submit updates the edit holder's book again with the creation
  defaults and never creates a book
  (`RecipeBook.RememberedFormKeepsEditing`).

## Model

Source paths are relative to the repository root.

| member | source | states |
|---|---|---|
| KeywordDialog.Open | app/src/main/java/de/kitshn/android/ui/dialog/select/SelectMultipleKeywordsDialog.kt:72-77 | after opening, the selection is the caller's list, element by element in the same order, and the dialog is shown |
| KeywordDialog.Dismiss | app/src/main/java/de/kitshn/android/ui/dialog/select/SelectMultipleKeywordsDialog.kt:79-81 | dismiss hides the dialog and leaves the selection as it was |
| KeywordDialog.ApplyToggle | app/src/main/java/de/kitshn/android/ui/dialog/select/SelectMultipleKeywordsDialog.kt:134-140 | toggle-on puts the keyword at index 0 with the old selection behind it; toggle-off is exactly the `removeIf` by the passed id: no entry with the id remains and every other entry stays, in order |
| Keywords.InsertFront | app/src/main/java/de/kitshn/android/ui/dialog/select/SelectMultipleKeywordsDialog.kt:135-136 | insertion at index 0 adds exactly one copy to the multiset and one more entry with the id, even if the id was already selected |
| Keywords.RemoveId | app/src/main/java/de/kitshn/android/ui/dialog/select/SelectMultipleKeywordsDialog.kt:137-138 | `removeIf` by id: no entry with the id remains, every entry with another id survives, the length drops by the number of entries with the id, and the survivors keep their order |
| Keywords.Toggle | app/src/main/java/de/kitshn/android/ui/dialog/select/SelectMultipleKeywordsDialog.kt:134-140 | the callback's two branches: `value` true inserts at the front with the old list behind; false is exactly removal by the passed id, so the list shrinks by the entries carrying it and the rest keep their order |
| Keywords.RemoveFirst | app/src/main/java/de/kitshn/android/ui/dialog/select/SelectMultipleKeywordsDialog.kt:166 | `remove(keyword)` takes out the first equal entry and nothing else (the list before it, then the list after it), so one copy leaves the multiset; an absent keyword changes nothing |
| Keywords.FirstIndex | app/src/main/java/de/kitshn/android/ui/dialog/select/SelectMultipleKeywordsDialog.kt:166 | the index `remove` looks up holds the keyword and no earlier entry equals it |
| Keywords.RemoveAt | app/src/main/java/de/kitshn/android/ui/dialog/select/SelectMultipleKeywordsDialog.kt:166 | removing the entry at an index keeps everything before and after it, in order, and drops exactly that entry from the multiset |
| Keywords.RemoveFirstTakesFirstOccurrence | app/src/main/java/de/kitshn/android/ui/dialog/select/SelectMultipleKeywordsDialog.kt:166 | for every list holding the keyword, the removed entry is an equal one with no equal entry before it, and only it goes |
| KeywordDialog.RemoveFromPanel | app/src/main/java/de/kitshn/android/ui/dialog/select/SelectMultipleKeywordsDialog.kt:162-167 | a panel click removes the first entry equal to that keyword and only it, and leaves the shown flag alone |
| KeywordDialog.Submit | app/src/main/java/de/kitshn/android/ui/dialog/select/SelectMultipleKeywordsDialog.kt:176-180 | submit hides the dialog and hands over exactly the current selection |
| KeywordDialog.OpenThenSubmit | app/src/main/java/de/kitshn/android/ui/dialog/select/SelectMultipleKeywordsDialog.kt:72-77 | whatever was selected before, submitting right after opening hands back the opening list |
| KeywordDialog.ReopenForgetsSelection | app/src/main/java/de/kitshn/android/ui/dialog/select/SelectMultipleKeywordsDialog.kt:72-74 | opening clears the selection first, so toggles of an earlier session do not survive a reopen |
| Keywords.RemoveAbsentId | app/src/main/java/de/kitshn/android/ui/dialog/select/SelectMultipleKeywordsDialog.kt:138 | removing an id no entry carries leaves the list exactly unchanged |
| Keywords.RemoveIdKeepsDistinct | app/src/main/java/de/kitshn/android/ui/dialog/select/SelectMultipleKeywordsDialog.kt:138 | removal by id keeps a list free of duplicate ids free of them |
| Keywords.InsertFrontKeepsDistinct | app/src/main/java/de/kitshn/android/ui/dialog/select/SelectMultipleKeywordsDialog.kt:136 | inserting a keyword whose id is not yet selected keeps the ids distinct |
| Keywords.IdSetRemoveId | app/src/main/java/de/kitshn/android/ui/dialog/select/SelectMultipleKeywordsDialog.kt:138 | after removal by id, the selected id set is the old one minus that id |
| Keywords.IdSetInsertFront | app/src/main/java/de/kitshn/android/ui/dialog/select/SelectMultipleKeywordsDialog.kt:136 | after insertion, the selected id set is the old one plus the inserted id |
| Keywords.ToggleTwiceRestoresIds | app/src/main/java/de/kitshn/android/ui/dialog/select/SelectMultipleKeywordsDialog.kt:365-371 | toggling a keyword twice against the current ids restores the id set, and restores the very list when the id was unselected |
| KeywordSearch.Init | app/src/main/java/de/kitshn/android/ui/dialog/select/SelectMultipleKeywordsDialog.kt:230-251 | the bar starts with empty query, term and results, a quiet-period timer for "", the mirror copying the selection, a first-page request for "" in flight, page 1, no next page, no create item, and no next-page or create call |
| KeywordSearch.Lower | app/src/main/java/de/kitshn/android/ui/dialog/select/SelectMultipleKeywordsDialog.kt:294 | lower-casing keeps the length and maps each character on its own |
| KeywordSearch.CreationCandidate | app/src/main/java/de/kitshn/android/ui/dialog/select/SelectMultipleKeywordsDialog.kt:290-299 | the create item is offered iff the query is longer than 2 UTF-16 code units and the results are empty or their first name differs from the query ignoring case |
| KeywordSearch.CreationAfterResults | app/src/main/java/de/kitshn/android/ui/dialog/select/SelectMultipleKeywordsDialog.kt:289-300 | the flag is recomputed from the query and the new results iff the result list changed by value, otherwise it keeps its value |
| KeywordSearch.SetSearch | app/src/main/java/de/kitshn/android/ui/dialog/select/SelectMultipleKeywordsDialog.kt:251-254 | a changed term resets the page counter to 1, requests the term's first page and hides the create item; results and `nextPageExists` are untouched; an unchanged term changes nothing |
| KeywordSearch.QueryChanged | app/src/main/java/de/kitshn/android/ui/dialog/select/SelectMultipleKeywordsDialog.kt:233-236 | typing a different text writes only the query and restarts the quiet-period timer with it: term, requests, results, create flag and every other field stay; the same text changes nothing |
| KeywordSearch.QuietPeriodElapsed | app/src/main/java/de/kitshn/android/ui/dialog/select/SelectMultipleKeywordsDialog.kt:233-236 | when the quiet period ends the timer's text becomes the term and the timer is gone; a changed term also resets the page to 1, requests its first page and hides the create item, and nothing else changes; with no timer nothing happens |
| KeywordSearch.SearchAction | app/src/main/java/de/kitshn/android/ui/dialog/select/SelectMultipleKeywordsDialog.kt:326-329 | the search action makes the current query the term at once, leaving the running timer alone; a changed term resets the page to 1, requests its first page and hides the create item, nothing else changes; an unchanged term changes nothing |
| KeywordSearch.FirstPageSucceeded | app/src/main/java/de/kitshn/android/ui/dialog/select/SelectMultipleKeywordsDialog.kt:254-264 | a first page replaces the results, sets `nextPageExists` from its `next` link and recomputes the create flag if the results changed by value, keeping it otherwise; nothing else changes, the counter included; with no request in flight nothing happens |
| KeywordSearch.FirstPageFailed | app/src/main/java/de/kitshn/android/ui/dialog/select/SelectMultipleKeywordsDialog.kt:254-259 | a failed first page only marks its request as failed; results, `nextPageExists`, counter, create flag and a running next-page call are untouched |
| KeywordSearch.BottomReached | app/src/main/java/de/kitshn/android/ui/dialog/select/SelectMultipleKeywordsDialog.kt:270-281 | a waiting next-page call is cancelled first; then, unless the first search succeeded, no extend is loading and a next page exists, nothing more happens; otherwise the counter goes up by one first, that page of the current term is requested, and the guard then blocks a second request; only the counter, the next-page request and the request log change |
| KeywordSearch.CancelExtend | app/src/main/java/de/kitshn/android/ui/dialog/select/SelectMultipleKeywordsDialog.kt:270-285 | restarting the effect leaves no next-page coroutine waiting, with the request holder in the state it shows; with none waiting nothing changes |
| KeywordSearch.CanExtend | app/src/main/java/de/kitshn/android/ui/dialog/select/SelectMultipleKeywordsDialog.kt:271-273 | the effect's guard: it is shut while a next-page call is loading, and open only once the first page has arrived with a `next` link |
| KeywordSearch.ExtendSucceeded | app/src/main/java/de/kitshn/android/ui/dialog/select/SelectMultipleKeywordsDialog.kt:276-289 | a next page that is still awaited is appended (results become old ++ page), sets `nextPageExists` and recomputes the create flag if the results changed; the counter, term and log stay; a cancelled or absent call has no effect |
| KeywordSearch.ExtendFailed | app/src/main/java/de/kitshn/android/ui/dialog/select/SelectMultipleKeywordsDialog.kt:276-282 | a failed next page only marks its request as failed: nothing is appended, the raised counter stays and no other field changes; a cancelled or absent call has no effect |
| KeywordSearch.MirrorSync | app/src/main/java/de/kitshn/android/ui/dialog/select/SelectMultipleKeywordsDialog.kt:239-242 | after the sync an id is in the mirror iff some selected keyword carries it; nothing else changes |
| KeywordSearch.RowClickValue | app/src/main/java/de/kitshn/android/ui/dialog/select/SelectMultipleKeywordsDialog.kt:365-371 | a row click passes `true` iff the row's id is not in the mirror |
| KeywordSearch.CreationItemVisible | app/src/main/java/de/kitshn/android/ui/dialog/select/SelectMultipleKeywordsDialog.kt:342 | the create item is on screen iff the flag is set and `hideKeywordCreation` is false |
| KeywordSearch.CreateRequested | app/src/main/java/de/kitshn/android/ui/dialog/select/SelectMultipleKeywordsDialog.kt:308-313 | the create call uses the query as both name and label, adds one call in flight, and changes nothing else, the create item included |
| KeywordSearch.CreateFinished | app/src/main/java/de/kitshn/android/ui/dialog/select/SelectMultipleKeywordsDialog.kt:308-313 | a finished create call leaves one fewer in flight and changes no other field of the bar |
| KeywordSearchFacts.InitKeepsInv | app/src/main/java/de/kitshn/android/ui/dialog/select/SelectMultipleKeywordsDialog.kt:230-253 | the freshly composed bar satisfies the bar invariant |
| KeywordSearchFacts.DebounceKeepsInv | app/src/main/java/de/kitshn/android/ui/dialog/select/SelectMultipleKeywordsDialog.kt:233-236 | typing, the quiet period and the search action keep the invariant: a pending timer holds the current query, and without one the term is the query |
| KeywordSearchFacts.BottomKeepsInv | app/src/main/java/de/kitshn/android/ui/dialog/select/SelectMultipleKeywordsDialog.kt:270-281 | "reached bottom" keeps the invariant that the pages requested since the last term change are exactly 2 .. `currentPage` of that term |
| KeywordSearchFacts.ResponsesKeepInv | app/src/main/java/de/kitshn/android/ui/dialog/select/SelectMultipleKeywordsDialog.kt:254-285 | responses, failures, mirror syncs and create calls keep the bar invariant |
| KeywordSearchFacts.TypeAllSearchesNothing | app/src/main/java/de/kitshn/android/ui/dialog/select/SelectMultipleKeywordsDialog.kt:233-236 | a burst of typing changes neither term, requests nor results, and leaves the last text as the query |
| KeywordSearchFacts.BurstPublishesLastValue | app/src/main/java/de/kitshn/android/ui/dialog/select/SelectMultipleKeywordsDialog.kt:233-236 | after a burst and one quiet period the term is the burst's last text |
| KeywordSearchFacts.SecondFlipCancelsPage | app/src/main/java/de/kitshn/android/ui/dialog/select/SelectMultipleKeywordsDialog.kt:270-285 | a second "reached bottom" change while a page is on its way never appends it and keeps the raised counter; if the cancelled request reads as loading no response applies and no later change requests anything, otherwise the page after the cancelled one is requested |
| KeywordSearchFacts.NewTermBlocksExtend | app/src/main/java/de/kitshn/android/ui/dialog/select/SelectMultipleKeywordsDialog.kt:243-281 | a new term shuts the pagination guard until its first page arrives: reaching the bottom in between requests nothing and leaves the counter at 1 |
| KeywordSearchFacts.SecondPageAppends | app/src/main/java/de/kitshn/android/ui/dialog/select/SelectMultipleKeywordsDialog.kt:259-285 | page 1 with a next link, then "reached bottom": page 2 of the same term is requested and the results become page 1 followed by page 2 |
| KeywordSearchFacts.FailedExtendSkipsPage | app/src/main/java/de/kitshn/android/ui/dialog/select/SelectMultipleKeywordsDialog.kt:275-285 | after a failed extend the results are unchanged and the next "reached bottom" requests the page after the failed one |
| KeywordSearchFacts.OldExtendAppendsToNewTerm | app/src/main/java/de/kitshn/android/ui/dialog/select/SelectMultipleKeywordsDialog.kt:251-285 | a new term keeps the old results, and an extend still in flight from the old term is appended after the new term's first page |
| KeywordSearchFacts.EqualResultsKeepCreationHidden | app/src/main/java/de/kitshn/android/ui/dialog/select/SelectMultipleKeywordsDialog.kt:288-305 | after a term change, a first page equal to the old results leaves the create item hidden |
| KeywordSearchFacts.EqualResultsExample | app/src/main/java/de/kitshn/android/ui/dialog/select/SelectMultipleKeywordsDialog.kt:288-305 | a four-letter query with no match stays without create item when the empty result list comes back empty |
| KeywordSearchFacts.CreationExamples | app/src/main/java/de/kitshn/android/ui/dialog/select/SelectMultipleKeywordsDialog.kt:290-299 | "ap" is too short, "apple" matches "Apple", "applesauce" and "app" with no results are offered, and so are two emoji, which Kotlin counts as four units |
| KeywordSearchFacts.CreationCandidateIgnoresCase | app/src/main/java/de/kitshn/android/ui/dialog/select/SelectMultipleKeywordsDialog.kt:290-299 | for every query and result list: queries equal ignoring case get the same answer, only the first result's name matters, and a first result matching the query ignoring case always withholds the item |
| KeywordSession.ClickResult | app/src/main/java/de/kitshn/android/ui/dialog/select/SelectMultipleKeywordsDialog.kt:365-371 | a row click inserts the row's keyword in front when its id is not in the mirror, otherwise removes every entry with that id; the search bar, the dialog's visibility and everything else stay as they were |
| KeywordSession.Step | app/src/main/java/de/kitshn/android/ui/dialog/select/SelectMultipleKeywordsDialog.kt:92 | while the dialog is hidden every event except opening leaves the session unchanged |
| KeywordSession.StartKeepsInv | app/src/main/java/de/kitshn/android/ui/dialog/select/SelectMultipleKeywordsDialog.kt:67-69 | a session that was never opened satisfies the session invariant |
| KeywordSession.ShownStepKeepsInv | app/src/main/java/de/kitshn/android/ui/dialog/select/SelectMultipleKeywordsDialog.kt:233-286 | every event other than opening that reaches a shown dialog keeps its bar's invariant |
| KeywordSession.CreationFlagRules | app/src/main/java/de/kitshn/android/ui/dialog/select/SelectMultipleKeywordsDialog.kt:288-305 | for every event on a shown dialog: a new term hides the create item and keeps the results; same term and same results keep the flag; changed results (same term) recompute it from the query |
| KeywordSession.StepKeepsInv | app/src/main/java/de/kitshn/android/ui/dialog/select/SelectMultipleKeywordsDialog.kt:233-286 | every event keeps the invariant of a shown dialog's bar |
| KeywordSession.RunKeepsInv | app/src/main/java/de/kitshn/android/ui/dialog/select/SelectMultipleKeywordsDialog.kt:233-286 | every event sequence keeps it, so the page counter always equals one plus the pages requested since the term changed |
| KeywordSession.ClickKeepsIdsDistinct | app/src/main/java/de/kitshn/android/ui/dialog/select/SelectMultipleKeywordsDialog.kt:365-371 | with the mirror caught up, a row click never introduces a duplicate id |
| KeywordSession.ClickTwiceRestoresIds | app/src/main/java/de/kitshn/android/ui/dialog/select/SelectMultipleKeywordsDialog.kt:365-371 | click, mirror sync, click on the same row restores the selected id set, and the exact list when the row was unchecked |
| KeywordSession.DoubleClickBeforeSyncDuplicates | app/src/main/java/de/kitshn/android/ui/dialog/select/SelectMultipleKeywordsDialog.kt:238-242 | two clicks on an unchecked row before the mirror syncs leave two more entries with that id |
| KeywordSession.CreatedKeywordGoesFirst | app/src/main/java/de/kitshn/android/ui/dialog/select/SelectMultipleKeywordsDialog.kt:308-313 | a created keyword goes to index 0 of the selection with the old selection behind it |
| KeywordSession.CreateUsesQuery | app/src/main/java/de/kitshn/android/ui/dialog/select/SelectMultipleKeywordsDialog.kt:342-351 | a click on a visible create item requests a keyword named after the query; with the item hidden nothing happens |
| KeywordSession.SubmitHandsOverSelection | app/src/main/java/de/kitshn/android/ui/dialog/select/SelectMultipleKeywordsDialog.kt:176-180 | submit hands over the selection and hides the dialog, after which bar events are ignored |
| KeywordSession.ReopenStartsFresh | app/src/main/java/de/kitshn/android/ui/dialog/select/SelectMultipleKeywordsDialog.kt:227-251 | opening a hidden dialog shows the given selection over a freshly composed bar whose mirror matches it |
| Servings.ValueChange | app/src/main/java/de/kitshn/android/ui/component/model/servings/ServingsSelector.kt:37-43 | a value is forwarded iff it is at least 1, and forwarded unchanged |
| Servings.MinusClicked | app/src/main/java/de/kitshn/android/ui/component/model/servings/ServingsSelector.kt:67 | minus emits nothing at 1 or below and exactly `value - 1` from 2 up; at `Int.MIN_VALUE` it wraps and emits `Int.MAX_VALUE` |
| Servings.PlusClicked | app/src/main/java/de/kitshn/android/ui/component/model/servings/ServingsSelector.kt:96 | plus emits `value + 1` iff that is at least 1; at `Int.MAX_VALUE` it wraps and emits nothing |
| Servings.DialogChosen | app/src/main/java/de/kitshn/android/ui/component/model/servings/ServingsSelector.kt:50-55 | the dialog's value is always forwarded, unchanged |
| Servings.ChipClicked | app/src/main/java/de/kitshn/android/ui/component/model/servings/ServingsSelector.kt:76-78 | the chip opens the change dialog seeded with the current value |
| Servings.ChipThenConfirmKeepsValue | app/src/main/java/de/kitshn/android/ui/component/model/servings/ServingsSelector.kt:50-55 | confirming the dialog with the seed the chip put there hands back the value on display, even one the buttons' guard would drop |
| Servings.Wrap | app/src/main/java/de/kitshn/android/ui/component/model/servings/ServingsSelector.kt:67-96 | `value - 1` and `value + 1` are Kotlin `Int` arithmetic: exact inside the `Int` range, otherwise congruent to the exact result modulo 2^32 |
| Servings.ButtonsEmitAtLeastOne | app/src/main/java/de/kitshn/android/ui/component/model/servings/ServingsSelector.kt:62-99 | for every `Int` value, anything either button emits is at least 1 |
| Servings.DialogBypassesGuard | app/src/main/java/de/kitshn/android/ui/component/model/servings/ServingsSelector.kt:37-55 | the dialog forwards everything the guard forwards, and also values below 1 that the guard drops |
| Servings.PressMinus | app/src/main/java/de/kitshn/android/ui/component/model/servings/ServingsSelector.kt:62-70 | n minus presses with each emitted value fed back end at `value - n`, never below 1, from a value of at least 1; from a value below 1 that the dialog let through every press is dropped, except at `Int.MIN_VALUE`, where the first press wraps to `Int.MAX_VALUE` and the rest count down from there |
| Servings.PressPlus | app/src/main/java/de/kitshn/android/ui/component/model/servings/ServingsSelector.kt:91-99 | n plus presses with each emitted value fed back end at `value + n`, stopped at `Int.MAX_VALUE` by the wrap and the guard, from a value of at least 0; from a negative value every press is dropped |
| Servings.PortionText | app/src/main/java/de/kitshn/android/ui/component/model/servings/ServingsSelector.kt:45-47 | the unit text is the label unless the label is blank, then the plural resource for the value |
| Servings.PortionTextDependsOnCaption | app/src/main/java/de/kitshn/android/ui/component/model/servings/ServingsSelector.kt:45-47 | for every caption: a non-blank one is the text whatever the value and resource; every blank one gives the resource's text for the value |
| Servings.PortionTextFallback | app/src/main/java/de/kitshn/android/ui/component/model/servings/ServingsSelector.kt:45-47 | empty and all-space labels fall back to the plural resource; a label with a visible character is kept |
| RecipeBook.EditOpen | app/src/main/java/de/kitshn/android/ui/dialog/recipeBook/RecipeBookCreationAndEditDialog.kt:55-64 | edit open stores the book, takes its name and description as defaults and shows the holder |
| RecipeBook.EditDismiss | app/src/main/java/de/kitshn/android/ui/dialog/recipeBook/RecipeBookCreationAndEditDialog.kt:66-68 | edit dismiss only clears `shown` |
| RecipeBook.CreationOpen | app/src/main/java/de/kitshn/android/ui/dialog/recipeBook/RecipeBookCreationAndEditDialog.kt:89-92 | creation open stores the given defaults and shows the holder |
| RecipeBook.CreationOpenEmpty | app/src/main/java/de/kitshn/android/ui/dialog/recipeBook/RecipeBookCreationAndEditDialog.kt:31-34 | creation open without argument starts from empty name and description |
| RecipeBook.CreationDismiss | app/src/main/java/de/kitshn/android/ui/dialog/recipeBook/RecipeBookCreationAndEditDialog.kt:94-96 | creation dismiss only clears `shown` |
| RecipeBook.DialogView | app/src/main/java/de/kitshn/android/ui/dialog/recipeBook/RecipeBookCreationAndEditDialog.kt:106-115 | the dialog exists iff one holder is shown; its defaults come from the creation holder if shown, else from the edit holder; it is in edit mode iff the edit holder is shown |
| RecipeBook.NothingShownAtStart | app/src/main/java/de/kitshn/android/ui/dialog/recipeBook/RecipeBookCreationAndEditDialog.kt:46-106 | freshly remembered holders start hidden with empty defaults, so there is no dialog, and neither is there without holders |
| RecipeBook.BothShownMixesModes | app/src/main/java/de/kitshn/android/ui/dialog/recipeBook/RecipeBookCreationAndEditDialog.kt:111-115 | with both holders shown the creation defaults are paired with edit mode |
| RecipeBook.OpenShowsDefaults | app/src/main/java/de/kitshn/android/ui/dialog/recipeBook/RecipeBookCreationAndEditDialog.kt:106-115 | opening one holder alone shows exactly its defaults in its own mode; with both dismissed there is no dialog |
| RecipeBook.StartForm | app/src/main/java/de/kitshn/android/ui/dialog/recipeBook/RecipeBookCreationAndEditDialog.kt:117-119 | the form fields start from the shown defaults and keep the mode |
| KotlinStrings.Utf16Length | app/src/main/java/de/kitshn/android/ui/dialog/select/SelectMultipleKeywordsDialog.kt:290 | Kotlin's `length` counts each character once, or twice when it lies outside the Basic Multilingual Plane, so it lies between the character count and twice that |
| KotlinStrings.Utf16LengthOfBmp | app/src/main/java/de/kitshn/android/ui/dialog/select/SelectMultipleKeywordsDialog.kt:290 | for every string, the UTF-16 length equals the character count iff no character lies outside the Basic Multilingual Plane |
| KotlinStrings.Utf16LengthAppend | app/src/main/java/de/kitshn/android/ui/dialog/select/SelectMultipleKeywordsDialog.kt:290 | the UTF-16 length of a concatenation is the sum of the lengths |
| RecipeBook.NameCheck | app/src/main/java/de/kitshn/android/ui/dialog/recipeBook/RecipeBookCreationAndEditDialog.kt:144-150 | the name check reports the error message iff the name is longer than 128 UTF-16 code units |
| RecipeBook.DescriptionCheck | app/src/main/java/de/kitshn/android/ui/dialog/recipeBook/RecipeBookCreationAndEditDialog.kt:172 | the description check never reports an error |
| RecipeBook.Submit | app/src/main/java/de/kitshn/android/ui/dialog/recipeBook/RecipeBookCreationAndEditDialog.kt:188-214 | edit submit updates the remembered book if any, then refreshes and dismisses the edit holder; create submit issues the create call and refreshes and dismisses the creation holder iff a book came back |
| RecipeBook.EditIgnoresOutcome | app/src/main/java/de/kitshn/android/ui/dialog/recipeBook/RecipeBookCreationAndEditDialog.kt:190-199 | in edit mode the result of the request makes no difference to the submit |
| RecipeBook.SubmitClosesDialog | app/src/main/java/de/kitshn/android/ui/dialog/recipeBook/RecipeBookCreationAndEditDialog.kt:188-214 | with one holder shown, submit closes the dialog iff it is an edit or the create returned a book |
| RecipeBook.EditSubmitLeavesCreationOpen | app/src/main/java/de/kitshn/android/ui/dialog/recipeBook/RecipeBookCreationAndEditDialog.kt:188-226 | with both holders shown, an edit submit closes only the edit holder, so the dialog stays on screen with the creation defaults and its view (the title) in create mode |
| RecipeBook.RememberedFormKeepsEditing | app/src/main/java/de/kitshn/android/ui/dialog/recipeBook/RecipeBookCreationAndEditDialog.kt:115-199 | with both holders shown, the form built once in edit mode keeps submitting `partialUpdate` of the edit book with the creation defaults, twice in a row, and the dialog stays open |
| RecipeBook.SeededFormChecks | app/src/main/java/de/kitshn/android/ui/dialog/recipeBook/RecipeBookCreationAndEditDialog.kt:117-172 | a freshly seeded form has a name error iff the shown name is longer than 128 code units and never a description error; the edit dialog for a book starts error-free iff its name fits; the empty creation dialog always does |
| RecipeBook.DismissBoth | app/src/main/java/de/kitshn/android/ui/dialog/recipeBook/RecipeBookCreationAndEditDialog.kt:219-222 | the dialog's own dismiss hides both holders, so the dialog is gone |

## Left out

- RecipeBook.Submit: the request and its answer are one step. A second click while a create call is in flight (two create calls) and the dialog's scope being cancelled before the answer arrives are not modelled (RecipeBookCreationAndEditDialog.kt lines 188-214), because they depend on coroutine scheduling, which the model leaves out.
- Compose rendering and layout (dialogs, lists, icons, strings, keyboard hiding): no state behaviour. This includes the failure on duplicate lazy-column keys, which the duplicate-id states above would trigger.
- The HTTP client and JSON parsing (`keyword.list`, `keyword.create`, `recipeBook.create`, `partialUpdate`): calls are recorded as issued and answered by response events. `TandoorRecipeFromSourceRoute.kt` is a single request wrapper and is not part of this model.
- `OnboardingSignIn.kt` and `Mealplan.kt`: screen glue around network calls and date offsets.
- The request-state holder behind `wrapRequest` is not part of this model. It is taken to go to loading when a call starts, to success or error when it ends, and to return null on failure. The state a cancelled next-page request is left in is the `seen` parameter of `KeywordSearch.BottomReached`.
- Coroutine timing: the 250 ms delay is an event, and `reachedBottom` itself (the list position with a buffer of 3) is an event. A cancelled next-page call is modelled as never answered.
- `currentPage` overflow of Kotlin's `Int`: reaching it would take two billion pages.
- `KitshnForm` is not part of this model, so whether a failing check or `optional = false` blocks submit is not modelled: submit takes the form values as they are.
- The live list handed to `onSubmit` is the dialog's own mutable list; the model hands over a value, so later changes do not show in it.
- `pluralStringResource` is a function parameter of `Servings.PortionText`, and the name-check message is a parameter of `RecipeBook.NameCheck`.
- `TandoorKeyword` is not part of this model. `Keywords.Keyword` assumes it compares by value over id, name and label, like a data class. `selectedKeywords.toList()`, `searchResults.toList()` and `remove(keyword)` rely on that equality. With reference equality, `KeywordSearchFacts.EqualResultsKeepCreationHidden` would hold only for the very same objects.
- KeywordSearch.CreationCandidate: compares names with ASCII-only lower-casing, while Kotlin's `lowercase()` folds all of Unicode.
- KeywordSearch.Lower: lower-cases ASCII letters only, for the same reason.
- Servings.PortionText: `IsBlank` uses a fixed list of whitespace characters matching the JVM's `Char.isWhitespace`.
