/** The controller: the todo list and the loading flag, updated only through
    the reducer, and the projection of records fetched from the remote
    collection onto the local item shape. */
module Controller {
  import opened Todos
  import Reducer

  /** A record of the remote collection; `userId` is not kept locally. */
  datatype ApiTodo = ApiTodo(id: int, userId: int, title: string, completed: bool)

  /** The local item of one remote record. */
  function ToTodo(a: ApiTodo): (t: Todo)
  {
    Todo(a.id, a.title, a.completed)
  }

  /** The local items of a fetched collection, one per record, in order. */
  function Project(apiTodos: seq<ApiTodo>): (r: seq<Todo>)
    ensures |r| == |apiTodos|
    ensures forall i :: 0 <= i < |apiTodos| ==>
              r[i].id == apiTodos[i].id
              && r[i].title == apiTodos[i].title
              && r[i].completed == apiTodos[i].completed
  {
    if apiTodos == [] then [] else [ToTodo(apiTodos[0])] + Project(apiTodos[1..])
  }

  /** The projection depends on nothing but the kept fields: two collections
      that differ only in their `userId`s project to the same list. */
  lemma ProjectIgnoresUserId(a: seq<ApiTodo>, b: seq<ApiTodo>)
    requires |a| == |b|
    requires forall i :: 0 <= i < |a| ==>
               a[i].id == b[i].id && a[i].title == b[i].title && a[i].completed == b[i].completed
    ensures Project(a) == Project(b)
  {
  }

  /** The state the controller owns and the operations it offers. */
  class TodoStore {
    var todos: seq<Todo>
    var isLoading: bool

    /** The list starts empty and nothing is loading. */
    constructor ()
      ensures todos == [] && !isLoading
    {
      todos := [];
      isLoading := false;
    }

    /** Requests a load: raises the flag and leaves the list alone. */
    method LoadFromApi()
      modifies this
      ensures isLoading
      ensures todos == old(todos)
    {
      isLoading := true;
    }

    /** Dispatches `addTodo`. */
    method AddTodo(title: string)
      modifies this
      ensures todos == Reducer.Next(old(todos), Reducer.AddTodo(title))
      ensures |todos| == |old(todos)| + 1 && todos[..|old(todos)|] == old(todos)
      ensures todos[|old(todos)|].title == title && !todos[|old(todos)|].completed
      ensures todos[|old(todos)|].id >= 1 && IdsBelow(old(todos), todos[|old(todos)|].id)
      ensures DistinctIds(old(todos)) ==> DistinctIds(todos)
      ensures isLoading == old(isLoading)
    {
      Reducer.AddAppendsFreshTodo(todos, title);
      if DistinctIds(todos) {
        Reducer.AddKeepsIdsDistinct(todos, title);
      }
      todos := Reducer.Reduce(todos, Reducer.AddTodo(title));
    }

    /** Dispatches `deleteTodo`. */
    method DeleteTodo(id: int)
      modifies this
      ensures todos == Reducer.Delete(old(todos), id)
      ensures !HasId(todos, id)
      ensures DistinctIds(old(todos)) ==> DistinctIds(todos)
      ensures isLoading == old(isLoading)
    {
      if DistinctIds(todos) {
        Reducer.DeleteKeepsIdsDistinct(todos, id);
      }
      todos := Reducer.Reduce(todos, Reducer.DeleteTodo(id));
    }

    /** Dispatches `toggleTodo`. */
    method ToggleTodo(id: int)
      modifies this
      ensures todos == Reducer.Toggle(old(todos), id)
      ensures DistinctIds(old(todos)) ==> DistinctIds(todos)
      ensures isLoading == old(isLoading)
    {
      if DistinctIds(todos) {
        Reducer.ToggleKeepsIdsDistinct(todos, id);
      }
      todos := Reducer.Reduce(todos, Reducer.ToggleTodo(id));
    }

    /** The end of a successful fetch: dispatches `setTodos` with the projected
        records, replacing whatever the list held, then lowers the flag. */
    method CompleteLoad(apiTodos: seq<ApiTodo>)
      modifies this
      ensures todos == Project(apiTodos)
      ensures !isLoading
    {
      todos := Reducer.Reduce(todos, Reducer.SetTodos(Project(apiTodos)));
      isLoading := false;
    }
  }

  /** A worked example: a load on an empty list whose fetch returns one record
      ends with that record's local item and the flag down. */
  method LoadScenario()
  {
    var store := new TodoStore();
    store.LoadFromApi();
    assert store.isLoading && store.todos == [];
    store.CompleteLoad([ApiTodo(5, 9, "x", true)]);
    assert store.todos == [Todo(5, "x", true)];
    assert !store.isLoading;
  }
}
