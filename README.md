# Todo-list state: reducer and controller

This project models the client-side state of a small todo list, taken from
`useTodos.ts`. It has two parts.

- **The reducer** (`todosReducer`) maps the current list and an action to
  the next list. There are four action types.
  - `addTodo` scans the list for the largest id and appends a new item.
  - `toggleTodo` flips the completion flag of matching items.
  - `deleteTodo` drops matching items.
  - `setTodos` replaces the whole list.
  - Any other type tag falls through to a branch that returns the list
    unchanged.
- **The controller** (`useTodos`) owns the list and an `isLoading` flag.
  - `loadFromApi` raises the flag.
  - `addTodo`, `deleteTodo` and `toggleTodo` dispatch to the reducer.
  - When a fetch finishes, the remote records are projected onto the local
    item shape (their `userId` is dropped), dispatched with `setTodos`, and
    the flag is lowered.

Files and modules:

- `todo.dfy`, module `Todos`: the item `Todo(id, title, completed)` and the
  shared predicates. `IdsBelow` says every id is below a bound.
  `DistinctIds` says no two items share an id. `HasId` says some item has a
  given id. `IsSubsequence` holds when one list is another with some items
  left out and the rest kept in order.
- `reducer.dfy`, module `Reducer`: the closed `Action` datatype and `Next`,
  the reducer written as a function. `Reduce` is the reducer as a method. It
  computes the new id with the loop `NewId`, as the source does, and is proved
  equal to `Next`. The pure branches are the recursive functions `Toggle` and
  `Delete`. `NextId` is the recursive definition the loop is proved against.
- `controller.dfy`, module `Controller`: `ApiTodo`, the projection
  `Project`, and the class `TodoStore`. Its fields are `todos` and
  `isLoading`, and each method changes them as the hook does.

Ids are mathematical integers. The source only ever computes `id + 1` and
`Math.max` on them.

When several items share an id, `toggleTodo` flips all of them and
`deleteTodo` drops all of them; `Toggle` and `Delete` do the same.

## Model

| member | source | states |
|---|---|---|
| Reducer.NewId | react_todolist/react_todolist/src/useTodos.ts:19-22 | The id scan returns the recursively defined `NextId` of the list. The result is at least 1 and above every id in the list. |
| Reducer.NextIdIsLeastFreshId | react_todolist/react_todolist/src/useTodos.ts:19-22 | The new id is at least 1 and above every existing id. It is 1 for an empty list. It is the least value with both properties. |
| Reducer.Reduce | react_todolist/react_todolist/src/useTodos.ts:16-37 | The reducer, with its id loop, yields exactly `Next(todos, action)` for every list and action. |
| Reducer.AddAppendsFreshTodo | react_todolist/react_todolist/src/useTodos.ts:19-23 | Add gives a list one longer. The old list is an unchanged prefix. The last item has the given title, is not completed, and has an id that is at least 1, above every old id, and 1 when the list was empty. |
| Reducer.AddKeepsIdsDistinct | react_todolist/react_todolist/src/useTodos.ts:19-23 | If ids were pairwise distinct before an add, they are distinct after it. |
| Reducer.Toggle | react_todolist/react_todolist/src/useTodos.ts:25-29 | Length and order are kept. Every item with the given id has only its `completed` negated. Every other item is unchanged. With no match the result is the input. |
| Reducer.ToggleTwice | react_todolist/react_todolist/src/useTodos.ts:25-29 | Toggling the same id twice returns the original list. |
| Reducer.ToggleKeepsIdsDistinct | react_todolist/react_todolist/src/useTodos.ts:25-29 | Toggling keeps ids pairwise distinct. |
| Reducer.Delete | react_todolist/react_todolist/src/useTodos.ts:31 | No remaining item has the id. The result is a subsequence of the input, so relative order is kept. Every item with another id survives with its multiplicity. With no match the result is the input. |
| Reducer.DeleteKeepsIdsDistinct | react_todolist/react_todolist/src/useTodos.ts:31 | Deleting keeps ids pairwise distinct. |
| Reducer.DeleteIdempotent | react_todolist/react_todolist/src/useTodos.ts:31 | Deleting the same id a second time changes nothing. |
| Reducer.SetTodosReplaces | react_todolist/react_todolist/src/useTodos.ts:32-33 | `setTodos(items)` yields exactly `items`, whatever the list held before. |
| Reducer.OtherLeavesUnchanged | react_todolist/react_todolist/src/useTodos.ts:34-35 | An action whose type tag is none of `addTodo`, `toggleTodo`, `deleteTodo`, `setTodos` returns the list unchanged. |
| Reducer.AddToggleDeleteScenario | react_todolist/react_todolist/src/useTodos.ts:16-37 | Starting from `[1 "a"]`: adding "b" gives `[1 "a", 2 "b"]`, toggling 2 then marks "b" done, and deleting 1 leaves `[2 "b" done]`. |
| Controller.Project | react_todolist/react_todolist/src/useTodos.ts:54-58 | The projection keeps the length and, at every position, the record's `id`, `title` and `completed`. |
| Controller.ProjectIgnoresUserId | react_todolist/react_todolist/src/useTodos.ts:54-58 | Two collections that differ only in `userId` project to the same list. |
| Controller.TodoStore.constructor | react_todolist/react_todolist/src/useTodos.ts:47-48 | The list starts empty and the flag starts false. |
| Controller.TodoStore.LoadFromApi | react_todolist/react_todolist/src/useTodos.ts:68 | Sets `isLoading` to true and leaves `todos` as it was. |
| Controller.TodoStore.AddTodo | react_todolist/react_todolist/src/useTodos.ts:69-70 | `todos` becomes the reducer's add result: the old list plus one fresh, not completed item with the title. Distinct ids stay distinct. `isLoading` is unchanged. |
| Controller.TodoStore.DeleteTodo | react_todolist/react_todolist/src/useTodos.ts:71-72 | `todos` becomes the reducer's delete result and no longer has that id. Distinct ids stay distinct. `isLoading` is unchanged. |
| Controller.TodoStore.ToggleTodo | react_todolist/react_todolist/src/useTodos.ts:73-74 | `todos` becomes the reducer's toggle result. Distinct ids stay distinct. `isLoading` is unchanged. |
| Controller.TodoStore.CompleteLoad | react_todolist/react_todolist/src/useTodos.ts:53-60 | `todos` becomes the projection of the fetched records, replacing any local edits, and `isLoading` becomes false. |

`Controller.LoadScenario` is a client of `TodoStore`. A load on an empty list
whose fetch returns `{id: 5, userId: 9, title: "x", completed: true}` ends
with `todos == [Todo(5, "x", true)]` and the flag down.

## Left out

- The `fetch` call and its JSON decode (useTodos.ts:51-53) are network I/O.
  Only their successful result is modelled, as the argument of
  `CompleteLoad`.
- React's runtime is not modelled: `useReducer`, `useState`, `useEffect` and
  the re-run of the effect when its dependency changes. So the model does
  not say that a fetch starts at most once per raising of the flag, and
  `CompleteLoad` may be called in any state.
- A failed fetch is not modelled. The source has no code for it, so the flag
  simply stays true.
- The untyped `payload?: any` is not modelled. Actions form a closed
  datatype. An unknown type tag is the explicit `Other` variant, whose tag
  (`UnknownTag`) is any string except the four known ones.
- JavaScript `number` semantics are left out: ids are unbounded integers, so
  there is no floating-point rounding and no `NaN`.
- The `./Todo` module is not part of this model. Its shape
  `{id, title, completed}` is inferred from useTodos.ts:23 and :27.
