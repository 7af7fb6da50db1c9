# Todo store model

A Dafny model of the todo store of a React/Redux to-do list app. The store keeps an
ordered list of records `{id, text, checked, createdAt}` and has four reducers:

- `addTodo` appends a new unchecked record.
- `editTodo` replaces the text of the first record with a given id.
- `toggleTodo` flips the `checked` flag of the first record with a given id.
- `deleteTodo` filters out every record with a given id.

Every reducer writes the whole resulting list to the `"todos"` storage slot. At start-up
the store reads that slot back, and an absent slot gives the empty list.

Everything is in `todo_slice.dfy`, in one module, `TodoSlice`:

- `Todo` is the record type. `Option` models the storage slot, which is absent or holds a list.
- Each reducer has a pure function that specifies it: `Appended`, `Edited`, `Toggled` and
  `Removed`. `FindIndex` specifies `Array.prototype.find` and `Load` specifies `loadTodo`.
- Lemmas relate these functions to each other: toggle twice, add then delete, order kept
  by the filter, and unique ids preserved.
- `Store` is a class with the list (`items`) and the slot (`stored`). Its methods change the
  state the way the reducers do: `AddTodo`, `EditTodo`, `ToggleTodo`, `DeleteTodo` and `Save`.
  Each method is proved equal to its specifying function. Each one also leaves the slot
  holding exactly the new list (`Saved()`), including when edit or toggle finds no match.
  The constructor and every method also keep `Persisted()`: loading the slot would give
  back the current list, which holds even right after start-up from an absent slot.
- `FindFirst` is the front-to-back scan that `find` performs, written as a loop.

The clock reading `Date.now()` and the display stamp `new Date().toLocaleString()` are
parameters of `AddTodo` (`now` and `stamp`).

The model keeps two asymmetries of the code:

- Edit and toggle touch only the FIRST match. Delete removes EVERY match.
- `addTodo` does not check that the new id is fresh, because two `Date.now()` readings can
  be equal. So id uniqueness is not an invariant of `Store`. Instead, freshness is a
  hypothesis of `AddThenDelete`, `AppendedKeepsUnique` and `AppendedAllKeepsUnique`.
  `AddTodo` preserves `UniqueIds` only when the new id is fresh. Edit, toggle and delete
  preserve it always.

Two more facts about the code shape the model:

- `deleteTodo` removes every record with the id. With unique ids that is at most one record
  (`UniqueCountAtMostOne`).
- A slot that does not parse makes `JSON.parse` throw (see "Left out").

## Model

| member | source | states |
|---|---|---|
| TodoSlice.FindIndex | src/features/todo/todoSlice.js:29-30 | the result is None exactly when no record has the id; otherwise it is the position of the first record with that id |
| TodoSlice.FindFirst | src/features/todo/todoSlice.js:42-43 | the front-to-back scan that `find` performs returns the first matching position, or None when nothing matches |
| TodoSlice.Appended | src/features/todo/todoSlice.js:16-22 | add gives a list one longer: earlier records unchanged and in order, then a last record with the given clock reading as id, the payload text, checked false and the given creation stamp |
| TodoSlice.Edited | src/features/todo/todoSlice.js:26-32 | edit keeps every id in place; the first record with the id gets the new text with its id, checked and createdAt kept; every other position is unchanged; a missing id leaves the list equal |
| TodoSlice.Toggled | src/features/todo/todoSlice.js:41-45 | toggle keeps every id in place; the first record with the id has checked flipped with its id, text and createdAt kept; every other position is unchanged; a missing id leaves the list equal |
| TodoSlice.Removed | src/features/todo/todoSlice.js:36-39 | delete shortens the list by exactly the number of records with the id, leaves no record with that id, and leaves the list equal when the id is missing |
| TodoSlice.RemovedMembers | src/features/todo/todoSlice.js:37 | a record survives delete exactly when it was in the list and its id differs from the payload |
| TodoSlice.RemovedAppend | src/features/todo/todoSlice.js:37 | delete keeps the relative order: filtering a concatenation is the concatenation of the filtered parts |
| TodoSlice.Load | src/features/todo/todoSlice.js:3-6 | an absent slot loads as the empty list; a present slot loads as the list it holds |
| TodoSlice.AppendedAll | src/features/todo/todoSlice.js:16-22 | a series of adds lengthens the list by one record per add |
| TodoSlice.ToggledTwice | src/features/todo/todoSlice.js:41-45 | toggling the same id twice gives back the original list |
| TodoSlice.EditedTwice | src/features/todo/todoSlice.js:26-32 | editing the same id twice with the same text is the same as editing once |
| TodoSlice.AddThenDelete | src/features/todo/todoSlice.js:16-39 | if the added id was not already in the list, deleting it right after the add gives back the list from before the add |
| TodoSlice.UniqueCountAtMostOne | src/features/todo/todoSlice.js:36-39 | with unique ids, exactly one record matches an id that is present and none match one that is absent, so delete removes at most one record |
| TodoSlice.AppendedKeepsUnique | src/features/todo/todoSlice.js:16-22 | adding a record with a fresh id keeps ids unique |
| TodoSlice.SameIdsKeepUnique | src/features/todo/todoSlice.js:26-47 | an operation that keeps every id in place, as edit and toggle do, keeps ids unique |
| TodoSlice.RemovedKeepsUnique | src/features/todo/todoSlice.js:36-39 | delete keeps ids unique |
| TodoSlice.AppendedAllKeepsUnique | src/features/todo/todoSlice.js:16-22 | a series of adds with fresh, pairwise distinct ids keeps ids unique |
| TodoSlice.Store.constructor | src/features/todo/todoSlice.js:14 | the initial list is what the slot holds, or empty when the slot is absent; start-up does not write the slot, and loading the slot again would give the same list |
| TodoSlice.Store.Save | src/features/todo/todoSlice.js:8-10 | after a save the slot holds exactly the current list, so loading it gives that list back |
| TodoSlice.Store.AddTodo | src/features/todo/todoSlice.js:16-25 | the new list is `Appended` of the old one, the slot holds it, and unique ids stay unique when the new id is fresh |
| TodoSlice.Store.EditTodo | src/features/todo/todoSlice.js:26-34 | the new list is `Edited` of the old one, the slot holds it even when the id is missing, and unique ids stay unique |
| TodoSlice.Store.DeleteTodo | src/features/todo/todoSlice.js:36-40 | the new list is `Removed` of the old one, the slot holds it, and unique ids stay unique |
| TodoSlice.Store.ToggleTodo | src/features/todo/todoSlice.js:41-47 | the new list is `Toggled` of the old one, the slot holds it even when the id is missing, and unique ids stay unique |
| TodoSlice.Reload | src/features/todo/todoSlice.js:3-14 | at any moment, including right after start-up from an absent slot, a store started from another store's slot holds that store's list |
| TodoSlice.BuyMilk | src/features/todo/todoSlice.js:16-47 | starting empty, adding "buy milk" gives one unchecked record; toggling it makes it checked; deleting it gives the empty list |

## Left out

- `Date.now()` and `new Date().toLocaleString()` read the clock. They are the parameters `now` and `stamp` of `AddTodo`.
- `localStorage` with `JSON.stringify` / `JSON.parse` is a browser API. The slot holds the list itself, not its JSON text. This leaves out two cases: a present but empty-string slot, which the code loads as the empty list, and a slot that does not parse, where `JSON.parse` throws. A failed storage write is left out too.
- The Redux Toolkit machinery is a library wrapper: `createSlice`, action creators, Immer drafts and `current`. Each reducer is a direct state transition on `Store`.
- The view (`src/components/Todo.jsx`) is not part of this model. This covers rendering, the theme flag, the alert timer, and the guards the view applies before dispatching. Those guards are: add text whose trimmed form is empty is rejected (lines 49-53), and an empty edit text is rejected (line 60). The store does not demand either one, so neither is a precondition here.
- `src/App.jsx` only mounts a notification container and is not part of this model.
- JavaScript numbers are doubles. Ids are modelled as unbounded integers, and `===` on ids as integer equality.
