# CRUD item list: verified model of the browser client

The application is a single-entity CRUD front end. It shows a searchable list
of items, each with a title and a description, and lets the user create, edit
and delete them. This project models the client's logic in Dafny and proves
properties of it. The model covers two files:

- `client/src/App.jsx`. This is the list controller. It holds `items`,
  `loading`, `isModalOpen`, `currentItem` and `searchQuery`. It provides the
  search filter `filteredItems` and the handlers `fetchItems`, `handleCreate`,
  `handleEdit`, `handleSave` and `handleDelete`. It also picks which panel to
  show: spinner, "no items", "no match" or the list.
- `client/src/components/ItemForm.jsx`. This is the modal form. Its fields
  start from the edited item, or blank when creating. It has a busy flag
  around the awaited save, and its heading and button label differ between
  edit and new mode.

Each handler is one atomic transition. What the network returns is an input
to that transition: a fetch delivers a list or fails, and a save or delete
succeeds or fails. Every transition also reports the API calls it made, in
order. `window.confirm` is a boolean input.

Modules:

- `Wrappers`: `Option`, which stands for a value that may be `null` or
  `undefined`. `GetOr` plays the part of `??`. `Settlement` records whether
  an awaited promise resolved or rejected.
- `Text`: ASCII `trim`, `toLowerCase` and `includes`. It proves that
  `includes` is exactly substring occurrence, and that trimming commutes with
  lower-casing.
- `Items`: the `Item` record and the `{title, description}` payload.
- `Sequences`: `Array.prototype.filter` over any callback. It proves that the
  result is the input restricted to exactly the accepted positions, in order,
  without duplicating any element. It also gives a loop version.
- `Search`: the search callback and `filteredItems`. It proves the blank-query,
  substring, case and white-space properties.
- `Controller`: the state, the handlers and the view choice.
- `ItemForm`: the form state, submit, the busy flag, and the mode labels.
- `Session`: runs of events from the initial state. It proves that the list
  held is always the latest list the server delivered. It also proves results
  about handlers in sequence and about the form and controller together.

## Model

| member | source | states |
|---|---|---|
| Text.LowerChar | client/src/App.jsx:37 | The result is never an upper-case ASCII letter. Other characters are unchanged, and being white space is preserved. |
| Text.Lower | client/src/App.jsx:37 | `toLowerCase` keeps the length and maps each character independently. The result has no upper-case letter. |
| Text.TrimStart | client/src/App.jsx:37 | The result is a suffix of the input. Everything dropped is white space, and the result does not start with white space. |
| Text.TrimEnd | client/src/App.jsx:37 | The result is a prefix of the input. Everything dropped is white space, and the result does not end with white space. |
| Text.Trim | client/src/App.jsx:37 | The trimmed query is a contiguous slice `s[a..b]` of the typed query with only white space before `a` and after `b`. The slice itself neither starts nor ends with white space. It is empty exactly when the query is all white space, which is the blank-query test at line 38. |
| Text.TrimmedSlice | client/src/App.jsx:37 | Cutting leading white space and then trailing white space leaves the slice of the input between two white-space margins. It is empty exactly when the input is all white space. |
| Text.KeptEmptyIffAllSpace | client/src/App.jsx:37-38 | Between white-space margins, with no white space at its start, the kept part is empty exactly when the whole string is white space. |
| Text.SpaceAfterSlice | client/src/App.jsx:37 | Trailing white space of a suffix of `s` is white space of `s` at the shifted positions. |
| Text.SliceOfSuffix | client/src/App.jsx:37 | Taking a prefix of a suffix is the same as taking the middle slice. |
| Text.OccursIncludes | client/src/App.jsx:41 | An occurrence of the query at any position makes `includes` true. |
| Text.IncludesOccurs | client/src/App.jsx:41 | When `includes` is true, there is a position where the query occurs. |
| Text.IncludesIffOccurs | client/src/App.jsx:41 | `includes` holds if and only if the pattern occurs as a contiguous substring. |
| Text.IncludesEmpty | client/src/App.jsx:38 | Every string, including `''`, includes the empty query. |
| Text.LowerIdempotent | client/src/App.jsx:37 | Lower-casing twice gives the same result as lower-casing once. |
| Text.TrimStartLower | client/src/App.jsx:37 | Trimming the start commutes with lower-casing. |
| Text.TrimEndLower | client/src/App.jsx:37 | Trimming the end commutes with lower-casing. |
| Text.TrimLower | client/src/App.jsx:37 | `trim().toLowerCase()` gives the same result as `toLowerCase().trim()`. |
| Text.TrimStartPadded | client/src/App.jsx:37 | Leading white space added to a string does not change its start-trim. |
| Text.TrimEndPadded | client/src/App.jsx:37 | Trailing white space added to a string does not change its end-trim. |
| Text.TrimStartAppend | client/src/App.jsx:37 | Text after the first non-space character survives start-trimming unchanged. |
| Text.TrimPadded | client/src/App.jsx:37 | White space added on either side does not change the trimmed query. |
| Text.TrimIdempotent | client/src/App.jsx:37 | Trimming an already trimmed query changes nothing. |
| Sequences.Filter | client/src/App.jsx:36 | `items.filter` returns no more elements than it was given, and every element it returns is accepted by the callback. |
| Sequences.FilterMembers | client/src/App.jsx:36 | An element is in the result if and only if it is in the input and the callback accepts it. |
| Sequences.FilterKeepsAll | client/src/App.jsx:36 | A callback that accepts every element returns the input unchanged, in the same order. |
| Sequences.FilterSameVerdicts | client/src/App.jsx:36 | Two callbacks that agree on every element give the same result. |
| Sequences.FilterAppend | client/src/App.jsx:36 | Filtering `a + b` gives filter of `a` followed by filter of `b`, so relative order is kept. |
| Sequences.FilterCount | client/src/App.jsx:36 | Each accepted element appears exactly as often as in the input, and each rejected element does not appear. Nothing is duplicated. |
| Sequences.FilterIdempotent | client/src/App.jsx:36 | Filtering the result again with the same callback changes nothing. |
| Sequences.SelectionIndices | client/src/App.jsx:36 | Induction step for `KeptPositions`: each result element is the input element at its listed position. |
| Sequences.SelectionIncreasing | client/src/App.jsx:36 | Induction step for `KeptPositions`: the listed positions are strictly increasing. |
| Sequences.SelectionComplete | client/src/App.jsx:36 | Induction step for `KeptPositions`: a position is listed exactly when the callback accepts its element. |
| Sequences.KeptPositions | client/src/App.jsx:36 | There is a strictly increasing list of input positions with two properties. The result is the input at those positions. A position is listed exactly when its element is accepted. So the result is an order-preserving selection. |
| Sequences.FilterLoop | client/src/App.jsx:36 | A single left-to-right pass that appends accepted elements computes the same sequence as `Filter`. |
| Search.NormalizeQuery | client/src/App.jsx:37 | The normalised query is the lower-cased slice `query[a..b]` of the typed query, with only white space outside that slice. The slice neither starts nor ends with white space, so the query is fully trimmed. It has no upper-case letters, is no longer than the typed query, and is empty exactly when the typed query is blank. |
| Search.Filtered | client/src/App.jsx:36-42 | An item is in `filteredItems` if and only if it is in `items` and visible for the query. The result is never longer than `items`. |
| Search.FilterItems | client/src/App.jsx:36-42 | The one-pass filter returns exactly `Filtered(items, query)`, so `Search.ShownInOrder` and `Search.FilteredCount` apply to it: the visible items in list order, each as often as in `items`. With a blank query it returns `items` itself. |
| Search.BlankGuardIsShortcut | client/src/App.jsx:38-41 | The `if (!q) return true` guard gives the same verdict as the `includes` test alone, because every string includes `''`. |
| Search.VisibleIffSubstring | client/src/App.jsx:37-41 | An item is shown if and only if one of these holds: the normalised query is empty, or it occurs in the lower-cased title, or it occurs in the lower-cased description. A missing field counts as `''`. |
| Search.BlankQueryKeepsAll | client/src/App.jsx:37-38 | An empty or all-white-space query shows every item, in the original order. |
| Search.ShownInOrder | client/src/App.jsx:36 | `filteredItems` is `items` restricted to exactly the visible positions, in increasing order. |
| Search.FilteredAppend | client/src/App.jsx:36 | Filtering a concatenation is the concatenation of the filtered parts. |
| Search.FilteredCount | client/src/App.jsx:36 | A shown item appears as often as in `items`, and a hidden item does not appear. |
| Search.FilteredIdempotent | client/src/App.jsx:36-42 | Searching again within the results changes nothing. |
| Search.CaseInsensitive | client/src/App.jsx:37 | Two queries that differ only in letter case show the same items. |
| Search.PaddingInsensitive | client/src/App.jsx:37 | White space before or after the query does not change which items are shown. |
| Search.NormalizeStable | client/src/App.jsx:37 | Searching for the normalised query shows the same items as searching for the typed query. |
| Search.NormalizeIdempotent | client/src/App.jsx:37 | Trimming and lower-casing an already normalised query changes nothing. |
| Search.NormalizedVisible | client/src/App.jsx:36-42 | An item is shown for the normalised query exactly when it is shown for the typed query. |
| Search.FieldCaseInsensitive | client/src/App.jsx:39-41 | Two items whose titles and descriptions agree up to letter case are shown or hidden together. |
| Search.MissingFieldIsEmpty | client/src/App.jsx:39-40 | A missing title or description is matched exactly like an empty one. |
| Controller.Initial | client/src/App.jsx:8-12 | At start the spinner is on, the list is empty, the modal is closed, no item is being edited, and the query is empty. |
| Controller.FetchItems | client/src/App.jsx:15-24 | One list request is made. On success `items` becomes the delivered list, and on failure it is unchanged because the `catch` only logs. Either way `loading` ends false, the returned promise resolves, and nothing else changes. |
| Controller.HandleCreate | client/src/App.jsx:46-49 | The modal opens with `currentItem` null. No other field changes, including `items`. |
| Controller.HandleEdit | client/src/App.jsx:51-54 | The modal opens with `currentItem` set to the item. No other field changes, including `items`. |
| Controller.HandleSave | client/src/App.jsx:56-68 | The first call is an update of `currentItem.id` when editing and a create otherwise. On success the modal closes and a refetch follows. On failure the state is unchanged and nothing else is called. On both paths the promise `handleSave` returns resolves, because the `try` at lines 56-67 catches the rejected call. |
| Controller.HandleDelete | client/src/App.jsx:70-79 | Nothing happens without confirmation. With confirmation the delete is sent. A refetch happens if and only if the delete was confirmed and succeeded. The list changes only through that refetch. A confirmed delete that fails sends nothing else and leaves the state unchanged, because the `catch` at lines 75-77 only logs. The returned promise always resolves. |
| Controller.SetSearchQuery | client/src/App.jsx:109-110 | Typing a query changes only `searchQuery`. `items` are never mutated by search. |
| Controller.CloseModal | client/src/App.jsx:150 | Closing the form changes only `isModalOpen`. |
| Controller.CurrentView | client/src/App.jsx:119-133 | Exactly one panel is shown, chosen in priority order. The spinner shows if and only if loading. "No items" shows if and only if loaded and the list is empty. "No match" shows if and only if loaded, the list is non-empty and nothing matches. Otherwise the list shows `filteredItems`, which is non-empty. |
| Controller.CardShownIff | client/src/App.jsx:119-143 | A card is on screen if and only if loading is over, the item is in `items`, and it matches the search. |
| Controller.BlankSearchShowsAll | client/src/App.jsx:119-135 | With a blank search and a loaded, non-empty list, the whole list is shown in order. |
| ItemForm.Mount | client/src/components/ItemForm.jsx:5-6 | With no item the fields start empty. With an item they start from its title and description, and a missing field starts as `''`. The form is not busy. |
| ItemForm.TypeTitle | client/src/components/ItemForm.jsx:31 | Typing in the title input replaces the title and nothing else. |
| ItemForm.TypeDescription | client/src/components/ItemForm.jsx:42 | Typing in the description textarea replaces the description and nothing else. |
| ItemForm.Submit | client/src/components/ItemForm.jsx:9-12 | A submit goes through if and only if the button is enabled and the required title is non-empty. When it does, `onSave` receives exactly `{title, description}` and the form becomes busy with its fields unchanged. |
| ItemForm.Settle | client/src/components/ItemForm.jsx:12-13 | When `onSave` resolves the busy flag is cleared. When it rejects, the line that clears it is never reached and the form is unchanged. |
| ItemForm.EditHeadingIffItem | client/src/components/ItemForm.jsx:20 | The heading is the edit heading if and only if an item was passed, and the new heading otherwise. |
| ItemForm.ModeDependsOnlyOnItem | client/src/components/ItemForm.jsx:20-51 | For idle forms, two forms have the same heading and button label if and only if both have an item or both do not. |
| ItemForm.SpinnerIffDisabled | client/src/components/ItemForm.jsx:50-51 | The submit button shows the spinner exactly while it is disabled, which is exactly while busy. |
| ItemForm.MountSubmitRoundTrip | client/src/components/ItemForm.jsx:5-12 | Opening the form on an item and submitting it untouched sends that item's own title and description. |
| ItemForm.TypedValuesAreSaved | client/src/components/ItemForm.jsx:9-14 | After typing a title and a description, the submit sends exactly those two values. |
| ItemForm.BusyBracketsSave | client/src/components/ItemForm.jsx:11-13 | While the save is pending the button is disabled and a second submit is blocked. When it resolves the form is exactly as before the submit. When it rejects the form stays busy. |
| Session.ItemsAreLastDelivered | client/src/App.jsx:15-24 | After any run of events, `items` is the latest list a successful fetch delivered, or empty if none has. There is no local patching. |
| Session.LoadingUntilFirstFetch | client/src/App.jsx:11-24 | `loading` stays true exactly until the first fetch settles, whether that fetch succeeds or fails. |
| Session.ApplyLoading | client/src/App.jsx:15-24 | A single event turns the spinner off exactly when it triggers a fetch, and never turns it on. |
| Session.FetchIssuedIffRefetch | client/src/App.jsx:56-79 | The run's call log contains a list request if and only if some event triggered a fetch: the mount, a successful save, or a confirmed and successful delete. |
| Session.EditThenSave | client/src/App.jsx:51-68 | Edit followed by a successful save makes two calls: an update of that item's id with the data, then a refetch. The modal ends closed. |
| Session.CreateThenSave | client/src/App.jsx:46-68 | Create followed by a successful save makes two calls: a create, then a refetch. No update is sent, even if an item was being edited before. |
| Session.SubmitReachesSave | client/src/components/ItemForm.jsx:9-14 | A form submitted from the open modal reaches `handleSave` as a create or update of exactly the typed fields. Settling the form with the settlement `Controller.HandleSave` itself reports, for a successful or a failed save, clears the busy flag and returns the form to its state before the submit. |
| Session.NeverRejects | client/src/App.jsx:56-79 | After any run of events, the last handler's promise has resolved: no handler of the component ever rejects. |
| Session.EditUntouchedWritesBack | client/src/App.jsx:51-64 | Edit, submit untouched, save: the item's own fields are written back under its id, with missing fields sent as `''`. |

## Left out

- Text.Trim: removes only ASCII white space (space, tab, LF, VT, FF, CR). JavaScript's `trim` also removes non-ASCII white space and line terminators such as U+00A0, U+2028 and U+FEFF.
- Text.Lower: lower-cases only ASCII letters. Full Unicode `toLowerCase` is not modelled, including characters whose lower case has a different length.
- `server/config/firebase.js` and the server routes are not part of this model. They are initialisation glue over the database SDK, environment variables and `JSON.parse`, with no client logic. The repository-level create, update and delete rules (a 400 on an empty title, a 404 on an unknown id) belong to the server and are not modelled.
- The API module `./services/api` and `ItemCard` are not part of this model. Each API call is an abstract success or failure outcome, and `res.data` is taken to be a list of items.
- Theme toggling and `document.body.dataset` (App.jsx:30-34, 100) are left out because they are DOM side effects. JSX layout, styling and icons are left out because they are presentation only.
- `console.error` logging is left out. A logged error is treated as "nothing else happens".
- Async interleavings are not modelled. Each handler runs atomically, and the refetch that `handleSave` and `handleDelete` start without awaiting is treated as completing within the same step. Duplicate-submit races between in-flight requests are left out. The mount-time fetch is a `Mounted` event that may come after other events, because the user can act before it settles.
- The form's lifecycle under React is not modelled. The form is mounted when the modal opens, so it is re-seeded each time the modal opens. `setLoading(false)` can run after a successful save has already unmounted it. The model keeps the form and the controller as separate values and links them in `Session.SubmitReachesSave` and `Session.EditUntouchedWritesBack`.
- The browser's form validation is modelled only as "an empty title blocks submit", and the disabled button is modelled only as "a busy form blocks submit". A whitespace-only title passes `required`, and the model lets it through as well.

## Behaviour taken from the code

- After a confirmed delete, the list is refetched only when the delete succeeded. A failed delete is logged and not followed by a refetch. A looser reading, where every confirmed delete is followed by a refetch, is not what `handleDelete` does.
- `handleSave` never clears `currentItem` after a successful save, so it stays at the last edited item until the next `handleCreate` or `handleEdit`. The model keeps it; see `Session.CreateThenSave`.
- A refetch after a mutation does not turn the spinner back on, because `loading` is only ever set to false after the initial state.
