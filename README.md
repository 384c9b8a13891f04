# Todo list state transitions

A model of the todo-list widget in `src/App.tsx`. The component holds one
state cell, `todoList`, an ordered array of `Todo` records (`id`, `name`,
`completed`). Three event handlers compute a new array from the current one
and store it with `setTodoList`:

- `addTodo` appends `{ id: length + 1, name, completed: false }`;
- `toggleCompeted(id)` maps over the array, flipping `completed` on every
  record whose id equals `id`;
- `deleteItem(id)` filters out every record whose id equals `id`.

Layout:

- `todos.dfy`, module `Todos`: the `Todo` datatype, the list as
  `seq<Todo>`, the three transformations `Add`, `Toggle` and `Delete` as
  pure functions, and lemmas about them. `Toggle` and `Delete` are defined
  recursively, as a map and as a filter, and their contracts characterise
  the result at each index or by membership.
- `history.dfy`, module `History`: a user action (`Submit`, `Check`,
  `Remove`) applied by the matching handler, and replays of action logs. The
  scenario lemmas live here, including the id collision.
- `app.dfy`, module `TodoApp`: class `App`, whose `todoList` field plays
  the role of the component's state cell. Each handler method assigns the
  function result, as each handler calls `setTodoList`.

Ids are assigned from the current length, not from a counter. The model
keeps that rule, so it does not assume ids are unique. `UniqueIds` is stated
as a predicate but is never assumed by the operations. `DuplicateIds` shows
that add, add, delete 1, add leaves two records with id 2. Toggling 2 then
flips both records and deleting 2 removes both. Lemmas that need unique ids
(`DeleteUniqueRemovesOne`) say so in their `requires`.

## Model

| member | source | states |
|---|---|---|
| Todos.Add | src/App.tsx:28-29 | the result is the old list with one record appended: length grows by one, the old records stay at their indices, and the new record has id `length + 1`, the submitted name exactly, and `completed` false |
| Todos.AddUniqueIff | src/App.tsx:29 | on a list with unique ids, adding keeps ids unique exactly when no existing record already has id `length + 1` |
| Todos.Toggle | src/App.tsx:42-47 | length is preserved; at every index the id and name are kept, and `completed` is negated exactly where the id matches and kept elsewhere |
| Todos.ToggleUnchangedIff | src/App.tsx:43-46 | toggle returns its input unchanged if and only if no record has the id |
| Todos.ToggleInvolution | src/App.tsx:42-47 | toggling the same id twice gives back the original list |
| Todos.ToggleCommutes | src/App.tsx:42-47 | toggles of two ids give the same list in either order |
| Todos.ToggleConcat | src/App.tsx:42 | the record-by-record map distributes over concatenation of lists |
| Todos.ToggleKeepsCount | src/App.tsx:44 | toggling never changes how many records carry any given id |
| Todos.Count | src/App.tsx:43 | the number of records carrying an id is at most the length, and is zero exactly when no record carries the id |
| Todos.Delete | src/App.tsx:58 | the result is no longer than the input, contains no record with the id, contains a record if and only if the input does and its id differs, and equals the input when nothing matches |
| Todos.DeleteIsSubsequence | src/App.tsx:58 | the survivors of a delete are a subsequence of the input, in their original relative order |
| Todos.DeleteConcat | src/App.tsx:58 | the filter distributes over concatenation of lists |
| Todos.DeleteLength | src/App.tsx:58 | delete removes exactly as many records as carry the id |
| Todos.DeleteUnchangedIff | src/App.tsx:58 | delete returns its input unchanged if and only if no record has the id |
| Todos.DeleteUniqueRemovesOne | src/App.tsx:58 | when ids are unique and the id is present, delete removes exactly one record |
| Todos.UniqueCountAtMostOne | src/App.tsx:5-9 | under unique ids, at most one record carries any id |
| Todos.DeleteIdempotent | src/App.tsx:58 | deleting the same id twice equals deleting it once |
| Todos.DeleteCommutes | src/App.tsx:58 | deletes of two ids give the same list in either order |
| Todos.DeleteAfterToggle | src/App.tsx:42-47 | toggling an id and then deleting it equals deleting it: no trace of the toggle remains |
| Todos.DeleteKeepsAbsent | src/App.tsx:58 | an id no record carries is still absent after any delete |
| Todos.DeleteKeepsUnique | src/App.tsx:58 | deleting keeps ids unique |
| History.Apply | src/App.tsx:23-59 | a submission lengthens the list by one, a checkbox change keeps its length, a delete never lengthens it |
| History.Submissions | src/App.tsx:23-29 | one form submission per name, in order |
| History.RunConcat | src/App.tsx:29 | replaying two action logs in turn equals replaying their concatenation |
| History.SubmissionsAppend | src/App.tsx:29 | a run of submissions appends one incomplete record per name, in submission order, with ids numbered on from the current length, and leaves the old records in place |
| History.SubmissionsFromEmpty | src/App.tsx:13-15 | from the initial empty list, n submissions give n records with ids 1 to n in submission order, so ids are unique |
| History.FirstSubmission | src/App.tsx:29 | one submission on the empty list gives the single record with id 1, that name, not completed |
| History.IdReusedAfterDelete | src/App.tsx:29 | add, delete 1, add gives the second record id 1 again, because ids come from the length |
| History.DuplicateIds | src/App.tsx:29 | add, add, delete 1, add leaves two records with id 2; toggling 2 flips both of them and deleting 2 removes both |
| TodoApp.App.constructor | src/App.tsx:13-15 | the state cell starts as the empty list |
| TodoApp.App.AddTodo | src/App.tsx:23-31 | the state cell becomes `Add` of its old value, one longer, ending in the new record |
| TodoApp.App.ToggleCompleted | src/App.tsx:40-49 | the state cell becomes `Toggle` of its old value, and is unchanged when no record matches |
| TodoApp.App.DeleteItem | src/App.tsx:57-59 | the state cell becomes `Delete` of its old value and holds no record with the id |

## Left out

- JSX rendering, the checkbox, span and button markup, and the static links (src/App.tsx:61-97): presentation with no logic.
- Form-event handling in `addTodo`: `preventDefault`, reading the text field and clearing it afterwards (src/App.tsx:24-28, 30). These are DOM side effects; the model takes the submitted text as the `name` argument.
- React's `useState` and re-render scheduling (src/App.tsx:13, 41, 58). The state is a plain field, and the handlers read it at the moment they run. Stale-closure effects of batched updates are not modelled.
- `./App.css` (src/App.tsx:2): styling only.
- JavaScript `number` semantics: ids are unbounded `int`. The code only produces small naturals via `length + 1`.
- Sequences of user events: the source has no code that replays them. The replay `History.Run` is a helper through which the scenario lemmas state a sequence of handler calls.
