# To-do list: reducer and item workflows in Dafny

This project models the logic of a browser to-do list written in React. The model has three parts:

- **The reducer** (`todoReducer`, src/App.jsx) maps the current list of items `{id, text, completed}` and an action to the new list. The four action types are ADD_TODO, UPDATE_TODO, TOGGLE_COMPLETE and DELETE_TODO. Any other type leaves the list as it is. Four dispatch wrappers (`addTodo`, `updateTodo`, `toggleComplete`, `deleteTodo`) each build one action.
- **The item component** (`TodoItem`) has four state fields: `isEditing`, `editText`, `isModalOpen` and `mode`. Its handlers open an edit or a delete confirmation modal, and call `updateTodo` or `deleteTodo` only when the user confirms. The checkbox calls `toggleComplete` at once.
- **The input component** (`TodoInput`) holds one `input` buffer. On the button or the Enter key, if the buffer is not blank it calls `addTodo` with it and clears it; otherwise nothing happens.

Files:

- `app.dfy` (module `App`): the `Todo` and `Action` datatypes, `Reduce`, the four wrappers, and the properties of each branch. These are: length and frame conditions, no-op on a missing id, double toggle, order kept by delete, distinct ids preserved, and replaying a series of dispatches.
- `js_array.dfy` (module `JsArray`): `Array.prototype.map` and `filter` on sequences, which the reducer is built from.
- `text.dfy` (module `Text`): `String.prototype.trim`, and the fact that the trimmed string is empty exactly when the string is blank.
- `keyboard.dfy` (module `Keyboard`): the `keyCode` and `key` of a keydown event, the IME composition code 229 and the Enter key.
- `todo_item.dfy` (module `TodoItemView`) and `todo_input.dfy` (module `TodoInputView`):
  - each handler is a pure step function giving the new state and the actions dispatched;
  - a class with the component's fields has one method per handler, proved to change exactly what the step function says;
  - a ghost field `dispatched` logs the actions built by the wrappers the component called.

Two behaviours the model follows as the code has them:

- The edit confirmation message (src/component/TodoItem.jsx:119) says that the item's date changes too, and the item shows a `todo.time` field (src/component/TodoItem.jsx:88). But the reducer stores no date: ADD_TODO writes `id`, `text` and `completed` (src/App.jsx:17), UPDATE_TODO writes only `text` (src/App.jsx:21), and no branch sets a time.
- Cancelling an edit confirmation does not return to edit mode. `handleEdit` opens the modal and then negates `isEditing` in the same call (src/component/TodoItem.jsx:30-32), so the item has already left edit mode. Cancel lands in viewing mode, with the buffer reset to the item's text.

`Date.now()` is read inside the reducer, not by `addTodo`, whose payload is the text alone. So the clock reading is the parameter `now` of `Reduce`, not part of the ADD action.

## Model

| member | source | states |
|---|---|---|
| `App.Reduce` | src/App.jsx:13-32 | no action brings in an id other than the clock reading `now` used by ADD_TODO |
| `App.AddTodo` | src/App.jsx:48 | `addTodo(text)` builds one ADD_TODO action whose payload is the text |
| `App.UpdateTodo` | src/App.jsx:49 | `updateTodo(id, text)` builds one UPDATE_TODO action with payload `{id, text}` |
| `App.ToggleComplete` | src/App.jsx:50 | `toggleComplete(id)` builds one TOGGLE_COMPLETE action whose payload is the id |
| `App.DeleteTodo` | src/App.jsx:51 | `deleteTodo(id)` builds one DELETE_TODO action whose payload is the id |
| `App.AddAppends` | src/App.jsx:16-17 | ADD_TODO keeps all prior items in order and appends exactly one item `{id: now, text, completed: false}` |
| `App.UpdateRetexts` | src/App.jsx:19-22 | UPDATE_TODO keeps the length, every id and every `completed`; matching items get the new text; other items are identical |
| `App.UpdateMissingIsNoOp` | src/App.jsx:19-22 | UPDATE_TODO with an id not in the list returns the list unchanged |
| `App.ToggleFlips` | src/App.jsx:23-26 | TOGGLE_COMPLETE keeps the length, ids and texts, and negates `completed` exactly on the matching items |
| `App.ToggleTwiceIsIdentity` | src/App.jsx:23-26 | toggling the same id twice gives back the original list |
| `App.ToggleMissingIsNoOp` | src/App.jsx:23-26 | TOGGLE_COMPLETE with an id not in the list returns the list unchanged |
| `App.DeleteRemoves` | src/App.jsx:27-28 | DELETE_TODO keeps exactly the items whose id differs, and afterwards no item carries the id |
| `App.DeleteKeepsOrder` | src/App.jsx:27-28 | DELETE_TODO distributes over concatenation, so the surviving items keep their order |
| `App.DeleteLength` | src/App.jsx:27-28 | the new length is the old length minus the number of items carrying the id |
| `App.DeleteMissingIsNoOp` | src/App.jsx:27-28 | DELETE_TODO with an id not in the list returns the list unchanged |
| `App.TypeNameSelectsCase` | src/App.jsx:14-30 | each of the four `type` strings is carried by exactly one kind of action, so `switch (action.type)` picks one branch per action |
| `App.OtherIsNoOp` | src/App.jsx:29-30 | an action of any other type returns the state unchanged |
| `App.FilterKeepsDistinct` | src/App.jsx:28 | the filter DELETE_TODO applies keeps pairwise-distinct ids distinct |
| `App.ReducePreservesDistinctIds` | src/App.jsx:16-30 | UPDATE, TOGGLE, DELETE and unknown actions keep ids distinct; ADD does too when `now` is not already an id |
| `App.AddsKeepIdsDistinct` | src/App.jsx:16-17 | a run of ADD_TODO dispatches with distinct, unused clock readings adds one item per dispatch and keeps ids distinct |
| `App.DeleteAll` | src/App.jsx:51 | the `deleteTodo` actions for a list of ids, one per id, in order |
| `App.DeletingEveryIdEmpties` | src/App.jsx:27-28 | deleting, one after another, every id in the list leaves it empty |
| `App.ShoppingSession` | src/App.jsx:13-32 | add "buy milk" and "walk dog", toggle milk, reword dog, delete milk: only the reworded dog item remains |
| `JsArray.Map` | src/App.jsx:20-26 | `map` keeps the length and applies the callback to the element at each index |
| `JsArray.Filter` | src/App.jsx:28 | `filter` returns elements of the input that pass the predicate, and every element that passes |
| `JsArray.FilterAppend` | src/App.jsx:28 | `filter` distributes over concatenation, so it keeps the original order |
| `JsArray.FilterKeepsAll` | src/App.jsx:28 | when every element passes, `filter` returns the input unchanged |
| `Text.TrimStart` | src/component/TodoInput.jsx:13 | the leading-whitespace part of `trim`: the suffix from the first non-whitespace character |
| `Text.TrimEnd` | src/component/TodoInput.jsx:13 | the trailing-whitespace part of `trim`: the prefix up to the last non-whitespace character |
| `Text.Trim` | src/component/TodoItem.jsx:22 | `s.trim()` is empty exactly when `s` is blank; otherwise it starts and ends with a non-whitespace character |
| `TodoInputView.AddStep` | src/component/TodoInput.jsx:12-17 | a non-blank buffer is dispatched untrimmed as exactly one `addTodo` and cleared; a blank one dispatches nothing and is kept |
| `TodoInputView.KeyDownStep` | src/component/TodoInput.jsx:19-24 | keyCode 229 has no effect; Enter behaves as `handleAdd`; any other key has no effect |
| `TodoInputView.AddTwiceDispatchesOnce` | src/component/TodoInput.jsx:12-17 | a second `handleAdd` right after a successful one dispatches nothing |
| `TodoInputView.SubmitAppendsItem` | src/component/TodoInput.jsx:12-17 | a non-blank submit, once reduced, appends one uncompleted item with the untrimmed text; a blank one dispatches nothing |
| `TodoInputView.TodoInput.constructor` | src/component/TodoInput.jsx:8-9 | the buffer starts empty and nothing has been dispatched |
| `TodoInputView.TodoInput.HandleAdd` | src/component/TodoInput.jsx:12-17 | the buffer and the log change exactly as `AddStep` says; the button's `onClick` is this method |
| `TodoInputView.TodoInput.HandleKeyDown` | src/component/TodoInput.jsx:19-24 | the buffer and the log change exactly as `KeyDownStep` says |
| `TodoInputView.ChangeStep` | src/component/TodoInput.jsx:31 | the buffer becomes the field's value and nothing is dispatched |
| `TodoInputView.TodoInput.OnChange` | src/component/TodoInput.jsx:31 | the buffer and the log change exactly as `ChangeStep` says |
| `TodoInputView.BlankSubmitDispatchesNothing` | src/component/TodoInput.jsx:12-24 | typing blank text and pressing Enter dispatches nothing |
| `TodoInputView.EnterTwiceAddsOnce` | src/component/TodoInput.jsx:12-24 | typing text and pressing Enter twice dispatches it once and empties the buffer |
| `TodoItemView.ShowModalStep` | src/component/TodoItem.jsx:51-54 | `showModal(m)` sets `mode = m` and opens the modal, leaving `isEditing` and `editText` untouched |
| `TodoItemView.EditStep` | src/component/TodoItem.jsx:21-34 | `handleEdit` always negates `isEditing`. It opens the modal in edit mode iff it was editing with a non-blank buffer; otherwise the modal and mode are unchanged. It never dispatches |
| `TodoItemView.KeyDownStep` | src/component/TodoItem.jsx:36-41 | keyCode 229 does nothing; Enter behaves as `handleEdit`; any other key does nothing |
| `TodoItemView.OkStep` | src/component/TodoItem.jsx:55-62 | `handleOk` closes the modal. It dispatches exactly `deleteTodo(todo.id)` in delete mode, exactly `updateTodo(todo.id, editText)` in edit mode, and nothing otherwise |
| `TodoItemView.CancelStep` | src/component/TodoItem.jsx:63-66 | `handleCancel` closes the modal and never dispatches; it resets the buffer to the item's text only in edit mode |
| `TodoItemView.TextChangeStep` | src/component/TodoItem.jsx:81 | the buffer becomes the field's value; the edit flag, the modal and the mode stay |
| `TodoItemView.CheckboxStep` | src/component/TodoItem.jsx:73 | calls `toggleComplete(todo.id)` once and changes no field |
| `TodoItemView.Handle` | src/component/TodoItem.jsx:73-114 | each event runs the handler the rendered element binds to it; only OK and the checkbox dispatch, at most one action, never ADD_TODO or an unknown type; Delete opens the modal in delete mode; OK and Cancel close it |
| `TodoItemView.EnabledEventsRespectPage` | src/component/TodoItem.jsx:77-83 | with the edit field shown only in edit mode and the modal (lines 110-114) blocking the page: while the modal is open, the event that gets through closes it and keeps the edit flag and mode; out of edit mode only Cancel changes the buffer |
| `TodoItemView.HandlePreservesConsistent` | src/component/TodoItem.jsx:21-123 | every event the page lets through keeps an open modal in a known mode, and keeps a pending edit out of edit mode with a non-blank buffer |
| `TodoItemView.RunDispatchesNoBlankUpdate` | src/component/TodoItem.jsx:21-123 | along any series of enabled events, every UPDATE_TODO the item dispatches has non-blank text, and no ADD_TODO or unknown action is dispatched |
| `TodoItemView.UnshieldedModalDispatchesBlankUpdate` | src/component/TodoItem.jsx:21-66 | that guarantee relies on the open modal blocking the edit button: clicking it again allows a blank text to be confirmed |
| `TodoItemView.ConfirmedEditRetextsItem` | src/component/TodoItem.jsx:58-59 | the action a confirmed edit dispatches, once reduced, gives the buffer's text to every item carrying the rendered item's id, and leaves items with other ids identical |
| `TodoItemView.TodoItem.constructor` | src/component/TodoItem.jsx:15-17 | a mounted item is viewing, with the item's text in the buffer, the modal closed and mode `''` |
| `TodoItemView.TodoItem.ShowModal` | src/component/TodoItem.jsx:51-54 | the fields change exactly as `ShowModalStep` says; nothing is dispatched |
| `TodoItemView.TodoItem.HandleEdit` | src/component/TodoItem.jsx:21-34 | the fields change exactly as `EditStep` says; nothing is dispatched; the edit button's `onClick` is this method |
| `TodoItemView.TodoItem.HandleKeyDown` | src/component/TodoItem.jsx:36-41 | the fields change exactly as `KeyDownStep` says; nothing is dispatched |
| `TodoItemView.TodoItem.HandleOk` | src/component/TodoItem.jsx:55-62 | the fields and the log change exactly as `OkStep` says |
| `TodoItemView.TodoItem.HandleCancel` | src/component/TodoItem.jsx:63-66 | the fields change exactly as `CancelStep` says; nothing is dispatched |
| `TodoItemView.TodoItem.OnCheckboxChange` | src/component/TodoItem.jsx:71-74 | the fields and the log change exactly as `CheckboxStep` says: `toggleComplete(todo.id)` is logged at once and the four fields stay |
| `TodoItemView.TodoItem.OnDeleteClick` | src/component/TodoItem.jsx:105 | the delete button is `showModal('delete')` |
| `TodoItemView.TodoItem.OnTextChange` | src/component/TodoItem.jsx:81 | the fields change exactly as `TextChangeStep` says; nothing is dispatched |

## Left out

- Loading the list from `localStorage` and saving it after every change (src/App.jsx:37-45) is browser I/O. The model takes any list as the starting state.
- `Date.now()` (src/App.jsx:17) is the wall clock, so it is the parameter `now`. The model does not claim clock readings are unique: the id results assume distinct, unused readings.
- React machinery is not modelled: `useReducer`, `useEffect`, `useCallback` memoisation and callback identity, and the batching of `useState` setters. Each handler is one atomic update; `Replay` stands for successive dispatches.
- Rendering is not modelled: JSX, CSS modules, the antd `Modal`, `Checkbox` and icons, `setTwoToneColor`, and the modal's message strings. `Enabled` keeps only what the rendering decides about which controls exist: the edit field exists only while editing, and OK and Cancel exist only while the modal is open. It also assumes that an open modal blocks every other control.
- `todo.time` (src/component/TodoItem.jsx:88) is displayed but never set by the reducer, so there is no timestamp behaviour to model.
- `TodoList` is not part of this model. `App` hands it the list and the three callbacks (src/App.jsx:57-62), and each `TodoItem` receives `{todo, updateTodo, toggleComplete, deleteTodo}` (src/component/TodoItem.jsx:14). Here the item is a parameter of the handlers that read it, and the callbacks are the wrappers of `App`.
- JavaScript's dynamic action objects are narrowed to a closed datatype. An action whose payload has the wrong shape for its type cannot be expressed. `Other(kind)` stands for a type string none of the four branches matches: `kind` has the type `UnknownKind`, which excludes the four known strings.
- A keydown event is reduced to its `keyCode` and `key`.
- Text.Trim: its contract does not say that the result is the middle slice of the input. `TrimStart` and `TrimEnd`, which it is built from, state their slices.
