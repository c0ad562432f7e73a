# To-do list client item store, in Dafny

A model of the browser-side item store of a small to-do list web application.
`TodoListCard` keeps one state cell, `items`, that is `null` while the initial
`GET /items` is in flight and afterwards holds the ordered list of to-do items
(`{id, name, completed}`). Four callbacks replace that list as a whole: append
a newly created item, replace an item by the server's updated copy, remove an
item, and clear the list when `DELETE /items` answers `{success: true}`. Around
them sit the PUT request bodies built by the toggle and save-edit actions, the
test that disables the add button, and the shape of the server's delete-all
response that the client consumes.

Modules, one per concern:

- `JsArray` (js_array.dfy): `Array.prototype.slice` with JavaScript's treatment of negative and out-of-range indices.
- `TodoItems` (todo_items.dfy): the `Item` record, `findIndex` by id (`FirstIndex`) and the three list rules, with lemmas about them.
- `Payloads` (payloads.dfy): the PUT bodies, the add-button test, and how their answers reconcile with the list.
- `Json` (json.dfy): the values `JSON.parse` can give a response field, and JavaScript truthiness.
- `DeleteAllRoute` (route.dfy): the status and body of the delete-all route's response.
- `TodoStore` (store.dfy): the `TodoListCard` class with its `items` field and one method per callback, the delete-all reconciliation and the loading / empty view test.
- `Options` (options.dfy): `Option`, standing for a value that may be `null`.

The list rules are pure functions, since the source builds each new list with
spread, `slice` and `findIndex` and never mutates the old one. The store is a
class whose methods reassign its `items` field, as each callback calls `setItems`.

### The missing-id case

`findIndex` answers -1 when no item carries the id. The model keeps JavaScript's
`slice` semantics instead of forbidding that input: `slice(0, -1)` drops the
last item and `slice(0)` copies the list. For an absent id, an update therefore yields
`items[..n-1] + [item] + items` and a removal `items[..n-1] + items`
(`UpdateAbsent`, `RemoveAbsent`). So a missing id is neither a no-op nor a reported error; the model follows the code. A removal of an absent id from a list of two
or more items then shows the first item twice (`RemoveAbsentBreaksUnique`). `onItemRemoval` is always
called with an item taken from the list (app.js:165-168). `onItemUpdate` is
called with the parsed PUT answer (app.js:161-162, 184-186), whose id is that
of the displayed item only if the server keeps the id, as `ApplyPut` assumes.
So the code relies on the id being present; every property about the present case is stated under
that hypothesis.

## Model

| member | source | states |
|---|---|---|
| JsArray.RelativeIndex | src/static/js/app.js:34-36 | a relative slice index is taken as is within [0, n], counted back from the end when negative, and clamped to [0, n] otherwise |
| JsArray.Slice | src/static/js/app.js:34 | `slice(start, end)` with both ends in range is the subsequence between them, and never longer than the list; an empty resolved range gives the empty list |
| JsArray.SliceFrom | src/static/js/app.js:36 | `slice(start)` with start in range is the suffix from start; past the end it is empty; `slice(0)` is the whole list |
| JsArray.SliceDropsLast | src/static/js/app.js:34 | `slice(0, -1)` is every element but the last, and empty for an empty list |
| TodoItems.FirstIndex | src/static/js/app.js:32 | `findIndex` by id gives -1 exactly when no item has the id; otherwise the item at the index has the id and no earlier one has it |
| TodoItems.FirstIndexAt | src/static/js/app.js:44 | an index holding the id with no earlier match is the one `findIndex` returns |
| TodoItems.FirstIndexOfUnique | src/static/js/app.js:44 | with unique ids, `findIndex` on an item's id finds that item's own position |
| TodoItems.Append | src/static/js/app.js:23-28 | the new list is one longer, has the old list as its prefix and the new item last |
| TodoItems.UpdateById | src/static/js/app.js:30-40 | when the id is present at first index k, the length is kept, the new item is at k and every other position is unchanged |
| TodoItems.RemoveById | src/static/js/app.js:42-48 | when the id is present at first index k, the list is one shorter and equals `items[..k] + items[k+1..]`, keeping the others' order |
| TodoItems.UpdateAbsent | src/static/js/app.js:32-37 | with the id absent, the update yields every item but the last, then the new item, then the whole old list |
| TodoItems.RemoveAbsent | src/static/js/app.js:44-45 | with the id absent, the removal yields every item but the last followed by the whole old list |
| TodoItems.RemoveAbsentBreaksUnique | src/static/js/app.js:44-45 | with the id absent and two or more items, the removal's result has a duplicated id |
| TodoItems.LaterPositionsUntouched | src/static/js/app.js:32-45 | update and removal act at the first match only: every later position, including a later item with the same id, is kept (shifted down by one after a removal) |
| TodoItems.UpdateKeepsFirstIndex | src/static/js/app.js:30-40 | after an update the new item is still the first with its id |
| TodoItems.UpdateIdempotent | src/static/js/app.js:30-40 | applying the same update twice equals applying it once, for a present or an absent id |
| TodoItems.RemoveAfterUpdate | src/static/js/app.js:30-48 | removing an item right after updating it gives the same list as removing it without the update, for a present or an absent id |
| TodoItems.RemoveUndoesAppend | src/static/js/app.js:23-48 | removing an appended item whose id was new gives the list before the append |
| TodoItems.UpdateAfterAppend | src/static/js/app.js:23-40 | updating a just-appended item whose id was new equals appending the updated item |
| TodoItems.AppendKeepsUnique | src/static/js/app.js:23-28 | appending to a list with unique ids keeps them unique exactly when the new id is not yet present |
| TodoItems.UpdateKeepsUnique | src/static/js/app.js:30-40 | updating a present id keeps ids unique |
| TodoItems.RemoveKeepsUnique | src/static/js/app.js:42-48 | removing a present id keeps ids unique |
| Payloads.ToggleBody | src/static/js/app.js:155-158 | the toggle body keeps the item's name and negates its completion flag |
| Payloads.SaveEditBody | src/static/js/app.js:178-181 | the save-edit body carries the edited name and keeps the completion flag |
| Payloads.ApplyPut | src/static/js/app.js:161-162 | the item answered to a PUT keeps the id and takes both fields from the body (assumed server behaviour) |
| Payloads.AddDisabled | src/static/js/app.js:136 | the add button is disabled exactly when the draft name is the empty string |
| Payloads.ToggleTwice | src/static/js/app.js:152-163 | toggling an item twice, each time through the server's answer, gives the item back |
| Payloads.SaveUnchangedName | src/static/js/app.js:175-189 | saving an edit that kept the name leaves the item unchanged |
| Payloads.ToggleInList | src/static/js/app.js:152-163 | reconciling the list with a toggle's answer flips the flag of that item only |
| Payloads.SaveEditInList | src/static/js/app.js:175-189 | reconciling the list with a saved edit's answer renames that item only, keeping its flag |
| DeleteAllRoute.HandleDeleteAll | src/routes/deleteAllItems.js:3-10 | status 200 with `{success: true}` exactly when the delete resolved; 500 with `{error: 'Internal Server Error'}` and no truthy `success` when it threw |
| Json.Truthy | src/static/js/app.js:56 | a value passes `if (...)` exactly when it is not undefined, null, false, 0 or the empty string; arrays and objects are always truthy |
| TodoStore.ClearsList | src/static/js/app.js:54-56 | only a received body can clear the list, and a received body clears it exactly when its `success` field is truthy |
| TodoStore.EmptyContainerSuccessClears | src/static/js/app.js:56-57 | a body whose `success` is an empty array or an empty object still clears the list |
| TodoStore.ReconcileDeleteAll | src/static/js/app.js:50-65 | a body with truthy `success` sets the list to empty; any other body and a rejected request leave the state unchanged |
| TodoStore.DeleteAllIdempotent | src/static/js/app.js:55-58 | after a clearing response, a second delete-all, whatever its outcome, still leaves the empty list |
| TodoStore.DeleteAllThroughRoute | src/routes/deleteAllItems.js:4-9 | through the route, the client list is cleared exactly when the delete resolved; the 500 body leaves it unchanged |
| TodoStore.ClearedViewShowsEmptyMessage | src/static/js/app.js:77-79 | after a clearing response the card shows the "No Tasks yet" line and no rows |
| TodoStore.ViewOf | src/static/js/app.js:67-87 | the loading text shows exactly while the state is null; once loaded the rows are the list and the "No Tasks yet" line shows exactly when it is empty |
| TodoStore.TodoListCard.constructor | src/static/js/app.js:15 | the store starts as null (loading), with no fetch result set yet; the invariant "loaded only after the initial fetch's result was set" holds |
| TodoStore.TodoListCard.View | src/static/js/app.js:67 | the card shows the loading text exactly while not loaded |
| TodoStore.TodoListCard.ReceiveInitialItems | src/static/js/app.js:17-21 | called once on a still-loading card, the initial fetch's list becomes the state, which is then loaded and marked as fetched |
| TodoStore.TodoListCard.OnNewItem | src/static/js/app.js:23-28 | the state becomes the old list with the new item appended, and stays loaded; the invariant is kept |
| TodoStore.TodoListCard.OnItemUpdate | src/static/js/app.js:30-40 | the state becomes the old list with the item replaced by id, and stays loaded; the invariant is kept |
| TodoStore.TodoListCard.OnItemRemoval | src/static/js/app.js:42-48 | the state becomes the old list with the item removed by id, and stays loaded; the invariant is kept |
| TodoStore.TodoListCard.OnDeleteAllItems | src/static/js/app.js:50-65 | from a loaded state, the list becomes the delete-all reconciliation of the old list with the outcome; it stays loaded and the invariant is kept |

`DeleteAllScenario` and `AddToggleRemoveScenario` in store.dfy are client runs
whose assertions the verifier checks from the method contracts alone. The first
loads one item, gets `{success: false}` and then a resolved route's answer. The
second adds an item, toggles it and removes it.

## Left out

- Rendering (JSX, class names, the Bootstrap components, `ReactDOM.render`) is presentation only. Only the loading / empty-message test and the order of the rows are kept, in `ViewOf`.
- `fetch`, `.json()` and promise chaining are network I/O. Their outcomes are inputs to the methods: the fetched list, the item a POST or PUT answers with, and a `DeleteAllOutcome`.
- A response whose JSON is not an object is not modelled separately. `null` makes `data.success` throw into the `.catch` branch, which is `Rejected`; numbers and strings read `success` as undefined.
- React hooks (`useState`, `useEffect`, `useCallback` dependencies) and the `submitting` / `editing` / `editedName` / draft state are asynchronous UI sequencing, not data logic. Clearing the draft after an add is among them.
- Stale closures under overlapping requests are not modelled. In the source each callback is a `useCallback` closure over the `items` of the render in which its request started (app.js:27, 39, 47). Overlapping requests can therefore act on a stale list, for example a late removal can bring back items that a delete-all has cleared. The model applies each callback to the current state.
- The `disabled` markup on the toggle, edit, save and remove buttons is not modelled. Their handlers are modelled as if they could run.
- Payloads.ApplyPut: the persistence layer is not part of this model. The PUT answer is taken to be the stored item with both supplied fields overwritten and the id kept.
- Json.Truthy: the rounding of JSON number text to a double is not modelled. `Number(n)` stands for the parsed double, and nothing stops the model from holding a real that is not one. Text such as `1e-400` parses to 0 and is falsy in the browser, but `Number(1e-400)` is truthy here. The delete-all route never sends such a body.
- JSON objects are field lists in order. Duplicate keys, which `JSON.parse` resolves to the last one, are not modelled.
- DeleteAllRoute.HandleDeleteAll: the durable effect of `deleteAllItems()` and its atomicity belong to the persistence layer, which is not part of this model. Only the response is modelled.
- TodoStore.TodoListCard.ReceiveInitialItems: requires that no fetch result has been set yet. The effect has no dependencies (app.js:17-21), so the `GET /items` answer is set once, while `items` is still null.
- TodoStore.TodoListCard.OnNewItem: requires a loaded state. With `items` null the spread throws. The add form is rendered only in the loaded view.
- TodoStore.TodoListCard.OnItemUpdate: requires a loaded state. With `items` null `findIndex` throws. Items are rendered only in the loaded view.
- TodoStore.TodoListCard.OnItemRemoval: requires a loaded state, for the same reason as OnItemUpdate.
- TodoStore.TodoListCard.OnDeleteAllItems: requires a loaded state. The handler does not read `items`, but the Delete All button is rendered only in the loaded view (app.js:67, 88), and nothing sets `items` back to null.
- `console.error` diagnostics on a failed delete-all are not modelled. They leave the state unchanged, which the model does state.
