# Employee roster core, modelled in Dafny

This project models the core of a small web application for managing an
employee roster. The application keeps one **store** that holds:

- the employee list;
- the selected employee;
- the list filters;
- the pagination state (`currentPage`, `itemsPerPage`, `totalItems`);
- the view mode (list or table);
- the open/closed flags of the modal dialogs;
- the language.

Every store mutation replaces a slice of that state. It then hands the new
state to every subscribed listener in insertion order, and saves it to a
storage slot. The UI components around the store are:

- a **translation service** that resolves dotted keys and fills `{name}` placeholders;
- a **form validator** for required fields and for the email and phone formats;
- the **employee list page**, which slices out the current page and picks the empty state, the list layout or the table layout;
- the **pagination bar**;
- the **add/edit form dialog**;
- the **delete confirmation dialog**;
- a **text input** that only accepts whitelisted HTML input types.

The model also covers the development server configuration: the build mode
taken from the environment, and the middleware that rewrites extension-less
routes to `/index.html`.

## Layout

| file | module | models |
|---|---|---|
| `values.dfy` | `Values` | JavaScript values of record properties (`Str`, `null`, `undefined`), truthiness, `?.` lookups |
| `strings.dfy` | `Strings` | `split` on one character, `join`, `indexOf`, `replace` with a string pattern, `trim`, `startsWith` |
| `page_math.dfy` | `PageMath` | `Math.ceil(n / d)`, `… \|\| 1`, `Array.prototype.slice` |
| `listeners.dfy` | `Listeners` | a `Set` of listeners as an insertion-ordered duplicate-free sequence |
| `store_state.dfy` | `StoreState` | the store's state record and each mutation as a function of the old state |
| `store.dfy` | `Store` | the store object: state, listeners, delivered notifications and storage slot |
| `validators.dfy` | `Validators` | `validateEmployeeForm` and its two regular expressions |
| `i18n.dfy` | `I18n` | the translation service: `t`, `tFormat`, language switching and its listeners |
| `employee_list.dfy` | `EmployeeList` | the page slice and the render choice of the list page |
| `pagination.dfy` | `PaginationBar` | the pagination bar: page count, disabled buttons, navigation |
| `employee_form.dfy` | `EmployeeForm` | the add/edit dialog: form data, submitted record, submit and cancel |
| `employee_delete.dfy` | `EmployeeDelete` | the delete dialog: the confirmation text, delete and cancel |
| `text_input.dfy` | `TextInput` | the text input: the `type` whitelist, input events, rendered attributes |
| `dev_server.dfy` | `DevServer` | the development server configuration |

Components are classes whose fields are the properties the source assigns.

- Each one holds the id of its store subscription.
- Its `OnStoreState` method is the callback it subscribes.
- Its `Disconnect` method removes the subscription.

Store methods are proved equal to the pure transition functions of
`StoreState`. The invariants those transitions keep are proved as lemmas
there. The most important invariant is `Consistent`: `totalItems` counts the
list, and the current page is a valid page.

Inputs the source takes from the environment become parameters:

- the id and the `createdAt` time of a new employee;
- the ISO conversion of a form date;
- the resolved validation messages;
- `document.documentElement.lang`;
- the decoded storage snapshot;
- the `MODE` environment variable.

Two behaviours of the code a reader might not expect:

- `validateEmployeeForm({})` returns no errors, because only properties
  present on the object are checked (`Validators.AllFalsyRequired`). The form
  always submits all eight properties, so an empty form still gets a
  "required" error on every field (`EmployeeForm.EmptyFormRejected`).
- `updateEmployee` and `closeModal` with an unknown id or dialog are silent
  no-ops on the roster, and they still notify.

## Model

| member | source | states |
|---|---|---|
| Values.TextOr | src/components/employee-form/index.js:72 | `v \|\| ''` on a property: the string itself when it is a string, `''` for `null`/`undefined` |
| Strings.Split | src/services/i18n/index.js:54 | `split` on one character gives at least one piece, no piece holds the separator, and a string without the separator is its only piece |
| Strings.JoinSplit | src/services/i18n/index.js:54 | joining the pieces of a split with the separator gives back the original string |
| Strings.SplitAtSeparator | src/services/i18n/index.js:54 | splitting `p + sep + q` gives the pieces of `p` followed by the pieces of `q` |
| Strings.FirstIndexOf | src/components/employee-form/index.js:75 | the position of the first occurrence of a character, or the length when it is absent |
| Strings.SplitHead | src/components/employee-form/index.js:75 | `s.split(sep)[0]` is the prefix of `s` before its first `sep`, and holds no `sep` |
| Strings.IndexOf | src/services/i18n/index.js:73 | the first position where the pattern occurs; no occurrence starts earlier; `None` only when it occurs nowhere |
| Strings.ReplaceFirst | src/services/i18n/index.js:73 | `replace` with a string pattern replaces only the first occurrence, and leaves the text unchanged when there is none |
| Strings.SkipWhitespace | src/components/employee-form/index.js:139 | the first non-white-space position at or after `i`: every character skipped is white space |
| Strings.SkipWhitespaceBack | src/components/employee-form/index.js:139 | the end of the text once trailing white space is dropped: every character dropped is white space, and the one before the end is not |
| Strings.Trim | src/components/employee-form/index.js:139 | `trim` yields a string that neither starts nor ends with white space |
| Strings.TrimDropsOnlyWhitespace | src/components/employee-form/index.js:139 | `trim` keeps one contiguous run of the input, and everything it drops before and after is white space |
| Strings.TrimUnchanged | src/components/employee-form/index.js:139 | a string with no white space at either end is returned as it is |
| Strings.TrimIdempotent | src/components/employee-form/index.js:139 | trimming twice is trimming once |
| PageMath.CeilDiv | src/services/store/index.js:69-70 | `Math.ceil(n / d)` for `d > 0`: the least `q` with `n <= q * d` |
| PageMath.PagesOrOne | src/services/store/index.js:69-70 | the page count is at least 1, and is 1 exactly when the list fits on one page |
| PageMath.Slice | src/components/employee-list/index.js:68 | `slice(start, end)` never fails: the result is exactly the run of the list between the two clamped bounds (a negative bound counts from the end), and is empty when they cross |
| Listeners.Added | src/services/store/index.js:36 | `Set.add`: appends a listener that is new, keeps insertion order and never creates a duplicate |
| Listeners.Removed | src/services/store/index.js:37 | `Set.delete`: the listener is gone, every other member stays, and deleting a non-member changes nothing |
| Listeners.RemovedTwice | src/services/store/index.js:37 | calling an unsubscribe function a second time changes nothing |
| Listeners.AddedTwice | src/services/store/index.js:36 | subscribing the same listener twice registers it once |
| Listeners.RemovedAfterAdded | src/services/store/index.js:35-38 | subscribing a new listener and then unsubscribing it restores the listener set |
| StoreState.Initial | src/services/store/index.js:9-26 | the default state: empty roster, page 1 of size 10, all dialogs closed, language from the document or `en`, and the pagination invariant holds |
| StoreState.Loaded | src/services/store/index.js:145-157 | a stored snapshot replaces the state but every dialog is reset to closed; no snapshot keeps the default |
| StoreState.SnapshotRoundTrip | src/services/store/index.js:145-165 | saving and loading back reproduces every slice but the dialog flags, and the whole state exactly when the flags were the default |
| StoreState.Stamped | src/services/store/index.js:61-65 | the stored record has the caller's fields plus a store-assigned `id` and `createdAt`, which override supplied ones |
| StoreState.AddEmployee | src/services/store/index.js:60-79 | appends the stamped record and keeps the old list as a prefix; `totalItems` counts the list; the current page becomes the last page; nothing else changes |
| StoreState.WithoutId | src/services/store/index.js:89 | after the filter no record has the id, and the list does not grow |
| StoreState.WithoutIdCounts | src/services/store/index.js:89 | the filter drops every record with the id and keeps every other record as many times as before |
| StoreState.WithoutIdUnknown | src/services/store/index.js:89 | deleting an id no record has leaves the list unchanged |
| StoreState.WithoutIdAppend | src/services/store/index.js:89 | the filter keeps relative order: it distributes over concatenation |
| StoreState.DeleteEmployee | src/services/store/index.js:88-104 | removes the id's records, recounts, and clamps the current page down to the new last page without ever raising it; the pagination invariant is restored |
| StoreState.MergedById | src/services/store/index.js:82-84 | same length; records with another id are untouched; each matching record gets the union of keys, with the updates winning |
| StoreState.UpdateEmployee | src/services/store/index.js:81-86 | only the list changes, by the merge; an unknown id leaves the whole state unchanged |
| StoreState.OpenModal | src/services/store/index.js:106-113 | selects the employee; `kind` is open exactly when an employee was given; every other dialog is closed, so at most one is open |
| StoreState.CloseModal | src/services/store/index.js:115-122 | clears the selection and closes `kind`; the other dialogs keep their flags; at most one stays open |
| StoreState.UpdateFilters | src/services/store/index.js:124-127 | shallow merge: the keys are the union, the patch wins, the other filters keep their values |
| StoreState.Patched | src/services/store/index.js:130 | each pagination field comes from the patch when it is present, and from the old object otherwise |
| StoreState.UpdatePagination | src/services/store/index.js:129-132 | only the pagination changes, by the unclamped merge |
| StoreState.SetView | src/services/store/index.js:134-137 | only the view changes |
| StoreState.SetLanguage | src/services/store/index.js:139-142 | only the language changes, supported or not |
| StoreState.Apply | src/services/store/index.js:60-142 | only `updatePagination` changes the page size, and add and delete keep `totalItems` equal to the list length |
| StoreState.ApplyKeepsConsistent | src/services/store/index.js:60-142 | every mutation except `updatePagination` preserves the pagination invariant |
| StoreState.ApplyKeepsOneModal | src/services/store/index.js:106-122 | no mutation can leave two dialogs open |
| StoreState.OpenTwice | src/services/store/index.js:106-113 | opening a second dialog closes the first, and the later employee is selected |
| StoreState.Replay | src/services/store/index.js:60-104 | any sequence of adds and deletes keeps the page size, and keeps the pagination invariant |
| StoreState.ReplaySnoc | src/services/store/index.js:60-104 | replaying one more call applies it to the state the earlier calls left |
| StoreState.ReplayAddsCount | src/services/store/index.js:60-79 | `k` adds lengthen the list by exactly `k` |
| StoreState.DeleteAllScenario | src/services/store/index.js:60-104 | three adds on a fresh store stay on page 1; deleting all three leaves an empty list, `totalItems` 0 and page 1 |
| Store.Deliveries | src/services/store/index.js:42 | one delivery of the state per listener, in insertion order |
| Store.EmployeeStore.constructor | src/services/store/index.js:9-32 | the store starts from the loaded state, with no listeners and no notifications |
| Store.EmployeeStore.LoadFromStorage | src/services/store/index.js:145-157 | a present snapshot replaces the state with every dialog closed; otherwise the state is kept |
| Store.EmployeeStore.Subscribe | src/services/store/index.js:35-38 | adds the listener at most once; the handle unsubscribes that listener |
| Store.EmployeeStore.Unsubscribe | src/services/store/index.js:37 | removes the listener and reports whether it was subscribed |
| Store.EmployeeStore.Notify | src/services/store/index.js:41-44 | every listener receives the current state in insertion order, then the state is saved |
| Store.EmployeeStore.GetState | src/services/store/index.js:47-49 | returns the current state as a value later mutations cannot change |
| Store.EmployeeStore.GetEmployees | src/services/store/index.js:51-53 | returns the current list |
| Store.EmployeeStore.GetCurrentEmployee | src/services/store/index.js:55-57 | returns the selection, or nothing |
| Store.EmployeeStore.AddEmployee | src/services/store/index.js:60-79 | the new state is `StoreState.AddEmployee` of the old; returns the stamped record; publishes once |
| Store.EmployeeStore.UpdateEmployee | src/services/store/index.js:81-86 | the new state is `StoreState.UpdateEmployee` of the old; publishes once, even for an unknown id |
| Store.EmployeeStore.DeleteEmployee | src/services/store/index.js:88-104 | the new state is `StoreState.DeleteEmployee` of the old; publishes once |
| Store.EmployeeStore.OpenModal | src/services/store/index.js:106-113 | the new state is `StoreState.OpenModal` of the old; publishes once |
| Store.EmployeeStore.CloseModal | src/services/store/index.js:115-122 | the new state is `StoreState.CloseModal` of the old; publishes once |
| Store.EmployeeStore.UpdateFilters | src/services/store/index.js:124-127 | the new state is `StoreState.UpdateFilters` of the old; publishes once |
| Store.EmployeeStore.UpdatePagination | src/services/store/index.js:129-132 | the new state is `StoreState.UpdatePagination` of the old; publishes once |
| Store.EmployeeStore.SetView | src/services/store/index.js:134-137 | the new state is `StoreState.SetView` of the old; publishes once |
| Store.EmployeeStore.SetLanguage | src/services/store/index.js:139-142 | the new state is `StoreState.SetLanguage` of the old; publishes once |
| Validators.EmailRegexShape | src/utils/validators.js:3 | the email pattern accepts exactly the strings with no white space, one `@` that is not first, and a later `.` that has characters on both sides and is not last |
| Validators.EmailPartsOf | src/utils/validators.js:3 | the three runs of a string that passes those checks each match `[^\s@]+` |
| Validators.EmailChecksOf | src/utils/validators.js:3 | three `[^\s@]+` runs joined by `@` and `.` pass those checks |
| Validators.ExpectedErrorsShape | src/utils/validators.js:6-24 | only the record's own properties get errors; falsy ones get "required"; a present malformed email or phone gets its format error instead; the map is empty exactly when every property is accepted |
| Validators.ValidateEmployeeForm | src/utils/validators.js:6-24 | the loop builds exactly the expected error map |
| Validators.AllFalsyRequired | src/utils/validators.js:9-13 | an object with no properties passes; one whose every property is falsy gets "required" on each |
| Validators.BadEmail | src/utils/validators.js:15-17 | a non-empty malformed email gets the email error, not the required one |
| I18n.WalkAppend | src/services/i18n/index.js:57-64 | walking a concatenated path is walking its first part, then its second part from the node reached |
| I18n.WalkFails | src/services/i18n/index.js:57-64 | the walk fails exactly when some segment names nothing truthy under the node the earlier segments reached |
| I18n.TranslatedDotted | src/services/i18n/index.js:53-67 | `p.q` resolves `q` inside the sub-table `p` leads to, and gives back the whole key on a miss |
| I18n.TranslatedMiss | src/services/i18n/index.js:55-63 | a miss at any segment, or a language without a table, gives back the key |
| I18n.SubstitutedFirst | src/services/i18n/index.js:72-74 | variables are substituted in entry order, the first one into the untouched text |
| I18n.Formatted | src/services/i18n/index.js:70-76 | without variables the translation is returned as it is; with variables a sub-table throws, and a string gets its placeholders substituted |
| I18n.FirstOccurrenceOnly | src/services/i18n/index.js:73 | only the first occurrence of a placeholder is replaced |
| I18n.Announcements | src/services/i18n/index.js:42 | one delivery of the language per listener, in insertion order |
| I18n.I18nService.constructor | src/services/i18n/index.js:16-34 | starts in English, takes the store's language when it is non-empty, and subscribes to the store |
| I18n.I18nService.Subscribe | src/services/i18n/index.js:36-39 | adds the listener at most once |
| I18n.I18nService.Unsubscribe | src/services/i18n/index.js:38 | removes the listener and reports whether it was subscribed |
| I18n.I18nService.Notify | src/services/i18n/index.js:41-43 | every listener receives the current language in insertion order |
| I18n.I18nService.SetLanguage | src/services/i18n/index.js:45-51 | switches and notifies exactly when a table exists for the language; otherwise nothing changes |
| I18n.I18nService.OnStoreState | src/services/i18n/index.js:29-33 | after a store change the service speaks the store's language exactly when it is supported or already current, and it notifies its own listeners exactly when it switched |
| I18n.I18nService.T | src/services/i18n/index.js:53-67 | the loop returns the node the dotted key leads to, or the key itself |
| I18n.I18nService.TFormat | src/services/i18n/index.js:70-76 | the loop substitutes each variable's first placeholder in entry order |
| I18n.SampleFullPath | src/services/i18n/index.js:53-67 | a full path in a table yields its string |
| I18n.SamplePrefix | src/services/i18n/index.js:66 | a prefix of a path yields the whole sub-table, not the key |
| I18n.SampleEmptyEntry | src/services/i18n/index.js:58 | an empty-string entry is treated as missing and yields the key |
| I18n.SampleUnknownLanguage | src/services/i18n/index.js:55-62 | a language without a table yields the key |
| EmployeeList.PageOf | src/components/employee-list/index.js:61-69 | a missing list or pagination gives an empty page |
| EmployeeList.PageIsRun | src/components/employee-list/index.js:64-68 | a page is the run of at most `itemsPerPage` records starting at `(currentPage - 1) * itemsPerPage`, and is empty past the end |
| EmployeeList.RecordOnItsPage | src/components/employee-list/index.js:61-69 | every record is shown on a page number the store accepts, at its offset within that page |
| EmployeeList.RecordOnOnePage | src/components/employee-list/index.js:64-66 | no record is on two pages |
| EmployeeList.AddedIsOnCurrentPage | src/services/store/index.js:67-75 | after an add, the page shown is non-empty and ends with the new record |
| EmployeeList.AddedOpensPage | src/services/store/index.js:67-75 | when the list filled `m` whole pages, the added record opens page `m + 1` alone |
| EmployeeList.ElevenAdds | src/services/store/index.js:69-74 | eleven adds on a fresh store (ten per page) show page 2, holding only the eleventh record |
| EmployeeList.ShownExclusive | src/components/employee-list/index.js:77-83 | at most one body is rendered; the empty state exactly for a missing or empty list; a layout only for the list or table view |
| EmployeeList.EmployeeListView.constructor | src/components/employee-list/index.js:29-52 | copies the list, pagination and view from the store, and subscribes |
| EmployeeList.EmployeeListView.OnStoreState | src/components/employee-list/index.js:38-51 | takes over the list, language, pagination and view |
| EmployeeList.EmployeeListView.Disconnect | src/components/employee-list/index.js:54-59 | the subscription is removed from the store |
| EmployeeList.EmployeeListView.EmployeesToBeListed | src/components/employee-list/index.js:61-69 | returns the current page's slice |
| EmployeeList.EmployeeListView.Render | src/components/employee-list/index.js:71-89 | the body is the empty state exactly when the list is missing or empty; the rows are the current page |
| PaginationBar.PagesCount | src/components/shared/pagination.js:110-112 | `ceil(totalItems / itemsPerPage)`, which is 0 exactly when there are no items |
| PaginationBar.PageButtonsShape | src/components/shared/pagination.js:121-132 | buttons are numbered `1..pagesCount` in order; only the current page's button is active; one is active exactly when the page is in range |
| PaginationBar.MovedTo | src/components/shared/pagination.js:88-107 | each action's object is the current pagination with only `currentPage` replaced |
| PaginationBar.NavigationStaysInRange | src/components/shared/pagination.js:88-136 | every enabled action keeps an in-range page in range and leaves the size and count alone |
| PaginationBar.NextEnabledWithoutItems | src/components/shared/pagination.js:110-136 | with no items there are no buttons, yet next stays enabled on page 1 and moves to page 2 |
| PaginationBar.PaginationView.constructor | src/components/shared/pagination.js:60-79 | copies the store's pagination and subscribes |
| PaginationBar.PaginationView.OnStoreState | src/components/shared/pagination.js:67-78 | takes over the language and pagination |
| PaginationBar.PaginationView.Disconnect | src/components/shared/pagination.js:81-86 | the subscription is removed from the store |
| PaginationBar.PaginationView.GoToPreviousPage | src/components/shared/pagination.js:88-93 | the store moves to the previous page, with the size and count unchanged, and publishes |
| PaginationBar.PaginationView.GoToNextPage | src/components/shared/pagination.js:95-100 | the store moves to the next page, with the size and count unchanged, and publishes |
| PaginationBar.PaginationView.GoToPageNumber | src/components/shared/pagination.js:102-107 | the store moves to the given page, with the size and count unchanged, and publishes |
| PaginationBar.PaginationView.Render | src/components/shared/pagination.js:109-141 | the page count, the two disabled flags and one button per page |
| EmployeeForm.DatePartIsSplitHead | src/components/employee-form/index.js:74-79 | the form's date is the text before the first `T` of the stored timestamp, or `''` when none is stored |
| EmployeeForm.FormValueShape | src/components/employee-form/index.js:70-85 | every form field is a string: `''` without a selection, otherwise the stored text or its date part |
| EmployeeForm.SubmittedValueShape | src/components/employee-form/index.js:138-151 | text fields are trimmed (`undefined` when missing); dates become ISO strings or `null` exactly when empty; choices pass unchanged |
| EmployeeForm.EditUnchanged | src/components/employee-form/index.js:70-151 | submitting the unedited form of an employee gives back every stored value that is already in submitted form |
| EmployeeForm.EmptyFormRejected | src/components/employee-form/index.js:138-157 | an empty form is rejected with "required" on every field |
| EmployeeForm.SubmittedState | src/components/employee-form/index.js:159-163 | an edit merges the record into the selected id; an add appends the stamped record |
| EmployeeForm.EmployeeFormModal.constructor | src/components/employee-form/index.js:87-106 | no errors, no selection, the empty form data, and a store subscription |
| EmployeeForm.EmployeeFormModal.SetFormData | src/components/employee-form/index.js:70-85 | the form data for the given selection |
| EmployeeForm.EmployeeFormModal.OnStoreState | src/components/employee-form/index.js:92-119 | takes over the selection and language, and rebuilds the form data exactly when the selection changed |
| EmployeeForm.EmployeeFormModal.Disconnect | src/components/employee-form/index.js:108-113 | the subscription is removed from the store |
| EmployeeForm.EmployeeFormModal.HandleInputChange | src/components/employee-form/index.js:126-133 | only the named field takes the typed value |
| EmployeeForm.EmployeeFormModal.CloseModal | src/components/employee-form/index.js:121-124 | the store closes the dialog and publishes; the form is reset |
| EmployeeForm.EmployeeFormModal.HandleCancel | src/components/employee-form/index.js:168-170 | closes the dialog without touching the roster or the pagination |
| EmployeeForm.EmployeeFormModal.Save | src/components/employee-form/index.js:159-165 | exactly one store write (an update or an add), then the dialog closes |
| EmployeeForm.EmployeeFormModal.HandleSubmit | src/components/employee-form/index.js:135-166 | an invalid record shows its errors and leaves the store untouched; a valid one is saved and the dialog closes |
| EmployeeDelete.FullNameParts | src/components/employee-delete/index.js:96-97 | the full name always holds the separating space, is `" "` without a selection, and splits back into its two parts |
| EmployeeDelete.DeleteConfirmed | src/components/employee-delete/index.js:86-89 | after a confirmed delete no record has the id, the other records keep their counts, pagination is consistent, and the selection and dialog are cleared |
| EmployeeDelete.EmployeeDeleteModal.constructor | src/components/employee-delete/index.js:57-77 | copies the selection and subscribes |
| EmployeeDelete.EmployeeDeleteModal.OnStoreState | src/components/employee-delete/index.js:64-76 | takes over the selection, language and dialog flags |
| EmployeeDelete.EmployeeDeleteModal.Disconnect | src/components/employee-delete/index.js:79-84 | the subscription is removed from the store |
| EmployeeDelete.EmployeeDeleteModal.HandleDelete | src/components/employee-delete/index.js:86-89 | without a selection it throws before touching the store; otherwise it deletes the selected id, then closes the dialog, publishing twice |
| EmployeeDelete.EmployeeDeleteModal.HandleCancel | src/components/employee-delete/index.js:91-93 | closes the dialog without touching the roster or the pagination |
| EmployeeDelete.EmployeeDeleteModal.ConfirmationText | src/components/employee-delete/index.js:95-99 | the delete message with the full name substituted |
| TextInput.Normalized | src/components/shared/text-input.js:34-58 | the stored type is always whitelisted: the value itself when it is on the list, `text` otherwise |
| TextInput.NormalizedIdempotent | src/components/shared/text-input.js:34-58 | setting a type that was read back changes nothing |
| TextInput.TypeOf | src/components/shared/text-input.js:60-62 | `text` until a type is set, otherwise the stored type |
| TextInput.TypeAfterSet | src/components/shared/text-input.js:34-62 | the getter always returns a whitelisted type, and gives back a whitelisted type that was set |
| TextInput.TextInputView.constructor | src/components/shared/text-input.js:64-80 | not required, with no type and no value, and subscribed |
| TextInput.TextInputView.SetType | src/components/shared/text-input.js:34-58 | stores the normalized type, which keeps the whitelist invariant |
| TextInput.TextInputView.GetType | src/components/shared/text-input.js:60-62 | returns a whitelisted type |
| TextInput.TextInputView.OnStoreState | src/components/shared/text-input.js:69-79 | takes over the language |
| TextInput.TextInputView.Disconnect | src/components/shared/text-input.js:82-87 | the subscription is removed from the store |
| TextInput.TextInputView.HandleInput | src/components/shared/text-input.js:89-102 | keeps the typed value, and dispatches exactly one event carrying the value and the input's name |
| TextInput.TextInputView.Render | src/components/shared/text-input.js:104-115 | id and name are the input's name, and the type is whitelisted |
| DevServer.ModeOf | web-dev-server.config.js:11-14 | an unset or empty `MODE` means dev; only `dev` and `prod` are accepted; anything else fails with the source's message |
| DevServer.ModeNameRoundTrip | web-dev-server.config.js:11-14 | each mode's own name is accepted as that mode |
| DevServer.ConfigFor | web-dev-server.config.js:16-37 | the `development` export condition exactly in dev mode, and the quoted mode name as `NODE_ENV` |
| DevServer.Rewritten | web-dev-server.config.js:22-24 | a URL changes exactly when it has no `.` and does not start with `/__`, and then becomes `/index.html` |
| DevServer.RewrittenIdempotent | web-dev-server.config.js:21-26 | rewriting twice is rewriting once; file requests and `/__` routes pass through |
| DevServer.RewriteIndex | web-dev-server.config.js:21-26 | the context's URL is rewritten, and `next` sees the rewritten URL |

## Left out

- **Storage.** `localStorage`, `JSON.stringify`/`JSON.parse` and their errors are not modelled. The storage slot holds the last saved state as a value. A snapshot is passed in already decoded: `None` stands for an empty slot or one that fails to parse. A stored snapshot is assumed to hold every slice of the state.
- **Clock.** `Date.now()` and `new Date().toISOString()` in `addEmployee` are the `id` and `createdAt` parameters.
- **Date conversion.** `new Date(value).toISOString()` in the form is the `isoDate` parameter. The `RangeError` it throws for an invalid date is not modelled.
- **DOM writes.** The `document.documentElement.lang` write in `setLanguage` is not modelled.
- **Logging.** `console.warn` and `console.error` calls are not modelled.
- **Listeners.** Listeners are opaque ids, and a notification records the delivery. What each component does with a delivery is its `OnStoreState` method. Re-entrant notifications from inside a listener are not modelled.
- **Comparison.** `!==` in the components' listeners compares object identity; the model compares values. For the list, pagination, delete and text-input components this only skips redundant assignments. For the form it changes behaviour, as the next line says.
- EmployeeForm.EmployeeFormModal.OnStoreState: the store's `openModal` always selects a fresh copy of the employee. In the source, re-opening the employee already selected is an identity change, so `updated` rebuilds the form and discards typed edits. The model compares by value: a copy equal to the current selection does not rebuild the form, and the edits are kept.
- StoreState.AddEmployee: requires `itemsPerPage > 0`, because `Math.ceil` of a division by zero or a negative size is not modelled. The same holds for StoreState.DeleteEmployee, Store.EmployeeStore.AddEmployee, Store.EmployeeStore.DeleteEmployee and the page lemmas. EmployeeForm.SubmittedState, EmployeeForm.EmployeeFormModal.Save and EmployeeDelete.EmployeeDeleteModal.HandleDelete require it only on the path that adds or deletes.
- EmployeeForm.EmployeeFormModal.HandleSubmit: requires `itemsPerPage > 0` whenever nothing is selected, including when validation rejects the record and the store is never called.
- PaginationBar.PagesCount: requires a non-negative `totalItems` and a positive `itemsPerPage`. `updatePagination` can store any values.
- I18n.I18nService.T: a string reached before the end of a path is an object with no further entries. JavaScript would index into the string's characters or its `length` instead.
- Strings.ReplaceFirst: the special `$` patterns of `String.prototype.replace` in the replacement text are not interpreted.
- **Text input type.** A non-string value assigned to the `type` setter is not modelled. `requestUpdate` and the `inputName` property are Lit machinery: the name is a constructor parameter.
- **Rendering.** Lit templates, CSS, icons, events other than `value-changed`, and `src/utils/formatters.js` are not modelled. The model keeps what each `render` computes: the page rows, the body choice, the buttons, the confirmation text and the input attributes.
- **Server.** The dev-server plugins (legacy polyfills, rollup replace) are modelled only through the settings they receive. `next()` is the URL it sees.
