# Todo list controller, modelled in Dafny

This project models `AppComponent`, the controller of a small single-page todo
application. The controller holds an ordered list of todo records
(`id`, `taskName`, `taskDate`), the search term, the draft of a new todo and an
optional edit target. It offers a filtered view of the list, loading, adding
(behind a three-step validation), editing and deleting. The last four go through
a REST API.

Each network call is one sequential step here. The reply the server would send
is a parameter of the step: `Reply<T> = Success(payload) | Failure`. The requests
the step issues come back as `sent: seq<Request>`, so "no request sent" reads
`sent == []`. Popups are the `Popup` values, and `DialogOf` gives their exact
icon, title and text. Lower-casing is ASCII only. Dates are opaque values, and
"now" is a parameter.

Files:
- `wrappers.dfy`: `Option`.
- `text.dfy`: lower-casing, and substring search proved against an explicit
  definition of an occurrence.
- `seqs.dfy`: order-preserving `Filter` and `Any`, with the facts about them
  that the list uses: subsequence, concatenation, idempotence, commutation and
  preserved pairwise relations.
- `todos.dfy`: the `Todo` record, the validation pipeline, removal by id, the
  search view, and the "well formed list" invariant that validation aims at.
- `http.dfy`: replies and requests.
- `app_component.dfy`: the `AppComponent` class, whose methods update its fields.
- `scenarios.dfy`: client methods that replay the application's workflows
  against the class contracts.

Two behaviours of the code worth noting:
- `closeModal` clears only the edit target. The success message is left alone
  (app.component.ts:104-106).
- An update never patches the local list. Only a truthy reply triggers a full
  reload.

## Model

| member | source | states |
|---|---|---|
| Text.LowerChar | src/app/app.component.ts:34 | upper-case ASCII letters map to their lower-case letter; every other character is kept; the result is never an upper-case letter |
| Text.Lower | src/app/app.component.ts:34 | lower-casing keeps the length and lower-cases every position |
| Text.LowerIdempotent | src/app/app.component.ts:34-36 | lower-casing an already lower-cased string changes nothing |
| Text.Includes | src/app/app.component.ts:36 | `includes(s, t)` holds exactly when `t` occurs in `s` at some position; in particular the empty string is contained in every string, and a contained string is no longer than the one containing it |
| Seqs.Filter | src/app/app.component.ts:35-37 | filtering keeps exactly the elements that pass, each as many times as it occurs in the input, as a subsequence in the original order |
| Seqs.Any | src/app/app.component.ts:66 | `some` holds exactly when some element passes the test |
| Seqs.SubseqRefl | src/app/app.component.ts:31 | a list is an order-preserving subsequence of itself |
| Seqs.SubseqMembers | src/app/app.component.ts:163 | a subsequence holds only elements of the list it was taken from |
| Seqs.SubseqPairwise | src/app/app.component.ts:163 | dropping elements keeps every relation that held between each two elements |
| Seqs.FilterAppend | src/app/app.component.ts:87 | filtering a concatenation is the concatenation of the filtered parts |
| Seqs.FilterKeepsAll | src/app/app.component.ts:163 | a filter returns its input unchanged exactly when every element passes |
| Seqs.FilterIdempotent | src/app/app.component.ts:35-37 | filtering twice with the same test equals filtering once |
| Seqs.FilterCommute | src/app/app.component.ts:35-37 | two filters give the same result in either order |
| Todos.DialogOf | src/app/app.component.ts:58-150 | every popup except "no message" has a dialog; only "Successfully Updated" has the success icon; every dialog has a non-empty title and text (the exact strings are the function's cases) |
| Todos.Draft | src/app/app.component.ts:90 | the reset draft has an empty name, the current date and the placeholder id 1 |
| Todos.NameTaken | src/app/app.component.ts:66 | a name is taken exactly when some todo has that name (case-sensitive) |
| Todos.Validate | src/app/app.component.ts:57-82 | the validation runs in a fixed order: an empty name gives "Task Name Required" whatever else holds; otherwise a taken name gives "Duplicate Task Name"; otherwise a missing date gives "Task Date Required"; otherwise the draft passes |
| Todos.RemoveById | src/app/app.component.ts:163 | after a delete no entry has the id, every other entry stays with all its copies, the order is kept, and the list is unchanged when no entry had the id |
| Todos.Matches | src/app/app.component.ts:34-36 | a todo matches exactly when the lower-cased term occurs in its lower-cased name |
| Todos.FilteredTodos | src/app/app.component.ts:29-38 | an empty term returns the whole list unchanged; otherwise the view is the order-preserving subsequence of exactly the todos whose lower-cased name contains the lower-cased term, each with all its copies |
| Todos.MatchIgnoresTermCase | src/app/app.component.ts:34-37 | a term and its lower-cased form match the same todos |
| Todos.FilteredIdempotent | src/app/app.component.ts:29-38 | searching the view again with the same term changes nothing |
| Todos.FilteredAfterAppend | src/app/app.component.ts:87 | after a todo is appended, the view gains it at the end exactly when it matches the term |
| Todos.FilteredAfterRemove | src/app/app.component.ts:163 | the view of the list after a delete is the old view with that id removed |
| Todos.AddKeepsWellFormed | src/app/app.component.ts:57-87 | appending a record that passed validation and carries the submitted name and date keeps all names non-empty and distinct and all dates present |
| Todos.RemoveKeepsWellFormed | src/app/app.component.ts:163 | deleting by id keeps the list well formed |
| App.AppComponent.constructor | src/app/app.component.ts:17-21 | a new component has an empty list, an empty draft dated now with id 1, no edit target, no success message and an empty search term |
| App.AppComponent.FilteredTodos | src/app/app.component.ts:29-38 | the getter reads the state and changes none of it; it returns the whole list for an empty term, otherwise the matching todos, with all their copies, in list order |
| App.AppComponent.LoadTodos | src/app/app.component.ts:43-52 | one GET is issued; a success replaces the list wholesale with the reply; a failure leaves it unchanged |
| App.AppComponent.AddTodo | src/app/app.component.ts:55-102 | a failed validation yields its popup, sends nothing and changes nothing; otherwise exactly one POST of the draft's name and date is sent; on success the reply is appended at the end, earlier entries stay and the draft is reset; on failure the state is unchanged and the popup is "Error Adding Todo"; a well-formed list stays well formed when the server echoes the draft |
| App.AppComponent.CloseModal | src/app/app.component.ts:104-106 | the edit target is cleared and nothing else changes |
| App.AppComponent.EditTodo | src/app/app.component.ts:109-111 | the given todo becomes the edit target and nothing else changes |
| App.AppComponent.OpenEditPopup | src/app/app.component.ts:113-115 | a value equal to the given todo becomes the edit target; the list is untouched |
| App.AppComponent.ClosePopup | src/app/app.component.ts:117-120 | the edit target and the success message are cleared and nothing else changes, so a second call changes nothing |
| App.AppComponent.UpdateTodo | src/app/app.component.ts:122-156 | without a target nothing is sent and nothing changes; otherwise a PUT of the target under its id is sent; on success the target is cleared, the popup is "Successfully Updated", and a GET reload is issued (and its reply applied) only when the reply is truthy; on failure the target and the list are unchanged and the popup is "Update Failed" |
| App.AppComponent.DeleteTodo | src/app/app.component.ts:160-169 | one DELETE is sent; on success the list is filtered by id as `RemoveById` states; on failure it is unchanged; a well-formed list stays well formed |
| Scenarios.SearchIgnoresCase | src/app/app.component.ts:34-37 | the term "Buy" finds the todo named "buy milk" |

## Left out

- `src/app/todo.service.ts` is not part of this model beyond the `Request` values. They record the method, the id and the body each call would send. The POST body is the name and date only, as at todo.service.ts:19. The fixed URL and `HttpClient` are not modelled.
- Asynchrony: each reply is delivered at once, in program order. Races between overlapping requests are not modelled. This includes a slow `loadTodos` overwriting a newer one, and a delete finishing after a reload.
- App.AppComponent.UpdateTodo: the reply to the PUT is reduced to its JavaScript truthiness, a `bool`. The reload's reply is applied at once, by calling `LoadTodos`.
- App.AppComponent.UpdateTodo: the `editingTodo.id !== undefined` half of the guard at app.component.ts:124 is not modelled separately. A `Todo` here always has an integer `id`, so only the null check can fail.
- Text.LowerChar: lower-casing covers ASCII letters only. Full Unicode `toLowerCase` is not modelled.
- `Swal.fire` and `console.log`/`console.error` calls are represented only by the returned `Popup` value. The console output is dropped.
- `new Date()`: the current date is the `now` parameter. Dates are opaque values. Their truthiness is `Some`/`None`, where `None` is a cleared date field.
- App.AppComponent.EditTodo and App.AppComponent.OpenEditPopup: the source makes a different aliasing choice in each. With value-typed records the two have the same effect.
- Aliasing of the array that the `filteredTodos` getter returns for an empty term, and the in-place `push`: the list is a value here.
- `ngOnInit`, the Angular decorators, the `title` field and the HTML template (including its two-way binding of `newTodo` and `searchTerm`, which the scenarios do by assigning the fields directly).
- App.AppComponent.LoadTodos: a reload can bring back a list that is not well formed. The server guarantees nothing, so only `AddTodo` and `DeleteTodo` state that they preserve well-formedness.
