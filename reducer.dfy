/** The todo-list reducer: a total map from (current list, action) to the
    next list. `Next` is its specification; `Reduce` is the reducer itself,
    which computes the identifier of a new item with a loop, as the source
    does. */
module Reducer {
  import opened Todos

  /** A type tag that is none of the four the reducer knows. */
  type UnknownTag = k: string | k !in {"addTodo", "toggleTodo", "deleteTodo", "setTodos"} witness ""

  /** The actions the reducer understands. `Other` stands for an action whose
      type tag is none of the four known ones; the source's untyped `type`
      field admits it, and the reducer's fallback branch returns the list
      unchanged for it. */
  datatype Action =
    | AddTodo(title: string)
    | ToggleTodo(id: int)
    | DeleteTodo(id: int)
    | SetTodos(items: seq<Todo>)
    | Other(kind: UnknownTag)

  function Max(a: int, b: int): (r: int)
  {
    if a < b then b else a
  }

  /** The identifier a new item receives: starting from 1, each item in turn
      raises the candidate to its own id plus one when that is larger. */
  function NextId(todos: seq<Todo>): (r: int)
  {
    if todos == [] then 1
    else Max(todos[|todos| - 1].id + 1, NextId(todos[..|todos| - 1]))
  }

  /** The next list, as the reducer defines it for each action. */
  function Next(todos: seq<Todo>, action: Action): (r: seq<Todo>)
  {
    match action
    case AddTodo(title) => todos + [Todo(NextId(todos), title, false)]
    case ToggleTodo(id) => Toggle(todos, id)
    case DeleteTodo(id) => Delete(todos, id)
    case SetTodos(items) => items
    case Other(_) => todos
  }

  /** The list with the completion flag of every item whose id is `id`
      flipped; everything else passes through as it was. */
  function Toggle(todos: seq<Todo>, id: int): (r: seq<Todo>)
    ensures |r| == |todos|
    ensures forall i :: 0 <= i < |todos| && todos[i].id == id ==>
              r[i] == todos[i].(completed := !todos[i].completed)
    ensures forall i :: 0 <= i < |todos| && todos[i].id != id ==> r[i] == todos[i]
    ensures !HasId(todos, id) ==> r == todos
  {
    if todos == [] then []
    else
      var t := todos[0];
      [if t.id == id then t.(completed := !t.completed) else t] + Toggle(todos[1..], id)
  }

  /** The list without the items whose id is `id`. */
  function Delete(todos: seq<Todo>, id: int): (r: seq<Todo>)
    ensures forall i :: 0 <= i < |r| ==> r[i].id != id
    ensures forall t :: multiset(r)[t] == if t.id == id then 0 else multiset(todos)[t]
    ensures IsSubsequence(r, todos)
    ensures !HasId(todos, id) ==> r == todos
  {
    if todos == [] then []
    else
      assert todos == [todos[0]] + todos[1..];
      if todos[0].id == id then Delete(todos[1..], id)
      else [todos[0]] + Delete(todos[1..], id)
  }

  /** The identifier scan of the add branch: a loop that keeps in `newId` the
      larger of itself and the current item's id plus one. */
  method NewId(todos: seq<Todo>) returns (newId: int)
    ensures newId == NextId(todos)
    ensures newId >= 1 && IdsBelow(todos, newId)
  {
    newId := 1;
    for i := 0 to |todos|
      invariant newId == NextId(todos[..i])
      invariant newId >= 1
      invariant IdsBelow(todos[..i], newId)
    {
      assert todos[..i + 1][..i] == todos[..i];
      newId := Max(todos[i].id + 1, newId);
    }
    assert todos[..|todos|] == todos;
  }

  /** The reducer. */
  method Reduce(todos: seq<Todo>, action: Action) returns (next: seq<Todo>)
    ensures next == Next(todos, action)
  {
    match action
    case AddTodo(title) =>
      var newId := NewId(todos);
      next := todos + [Todo(newId, title, false)];
    case ToggleTodo(id) =>
      next := Toggle(todos, id);
    case DeleteTodo(id) =>
      next := Delete(todos, id);
    case SetTodos(items) =>
      next := items;
    case Other(_) =>
      next := todos;
  }

  /** The new identifier is at least 1, above every id in the list, 1 for an
      empty list, and the least value with these properties. */
  lemma {:induction false} NextIdIsLeastFreshId(todos: seq<Todo>)
    ensures NextId(todos) >= 1
    ensures IdsBelow(todos, NextId(todos))
    ensures todos == [] ==> NextId(todos) == 1
    ensures forall m :: m >= 1 && IdsBelow(todos, m) ==> NextId(todos) <= m
  {
    if todos != [] {
      var init := todos[..|todos| - 1];
      NextIdIsLeastFreshId(init);
      forall m | m >= 1 && IdsBelow(todos, m)
        ensures NextId(todos) <= m
      {
        assert IdsBelow(init, m) by {
          forall i | 0 <= i < |init| ensures init[i].id < m {
            assert init[i] == todos[i];
          }
        }
        assert todos[|todos| - 1].id < m;
      }
    }
  }

  /** Adding appends exactly one item after an unchanged list: it carries the
      given title, is not completed, and has a fresh identifier. */
  lemma AddAppendsFreshTodo(todos: seq<Todo>, title: string)
    ensures var r := Next(todos, AddTodo(title));
      && |r| == |todos| + 1
      && r[..|todos|] == todos
      && r[|todos|].title == title
      && !r[|todos|].completed
      && r[|todos|].id >= 1
      && IdsBelow(todos, r[|todos|].id)
      && (todos == [] ==> r[|todos|].id == 1)
  {
    NextIdIsLeastFreshId(todos);
    var r := Next(todos, AddTodo(title));
    assert r[..|todos|] == todos;
  }

  /** Adding keeps identifiers pairwise distinct. */
  lemma AddKeepsIdsDistinct(todos: seq<Todo>, title: string)
    requires DistinctIds(todos)
    ensures DistinctIds(Next(todos, AddTodo(title)))
  {
    NextIdIsLeastFreshId(todos);
  }

  /** Toggling the same id twice gives back the original list. */
  lemma ToggleTwice(todos: seq<Todo>, id: int)
    ensures Toggle(Toggle(todos, id), id) == todos
  {
  }

  /** Toggling keeps identifiers pairwise distinct. */
  lemma ToggleKeepsIdsDistinct(todos: seq<Todo>, id: int)
    requires DistinctIds(todos)
    ensures DistinctIds(Toggle(todos, id))
  {
  }

  /** A delete introduces no identifier that the input lacks. */
  lemma DeleteAddsNoId(todos: seq<Todo>, id: int, x: int)
    requires !HasId(todos, x)
    ensures !HasId(Delete(todos, id), x)
  {
  }

  /** A list without its first item keeps distinct identifiers. */
  lemma DistinctIdsOfTail(todos: seq<Todo>)
    requires todos != [] && DistinctIds(todos)
    ensures DistinctIds(todos[1..])
  {
  }

  /** Deleting keeps identifiers pairwise distinct. */
  lemma {:induction false} DeleteKeepsIdsDistinct(todos: seq<Todo>, id: int)
    requires DistinctIds(todos)
    ensures DistinctIds(Delete(todos, id))
  {
    if todos != [] {
      var rest := todos[1..];
      DistinctIdsOfTail(todos);
      DeleteKeepsIdsDistinct(rest, id);
      var d := Delete(rest, id);
      if todos[0].id != id {
        assert !HasId(rest, todos[0].id) by {
          forall j | 0 <= j < |rest| ensures rest[j].id != todos[0].id {
            assert rest[j] == todos[j + 1];
          }
        }
        DeleteAddsNoId(rest, id, todos[0].id);
        var r := [todos[0]] + d;
        assert Delete(todos, id) == r;
        forall i, j | 0 <= i < j < |r| ensures r[i].id != r[j].id {
          assert r[j] == d[j - 1];
          if i > 0 {
            assert r[i] == d[i - 1];
          }
        }
      } else {
        assert Delete(todos, id) == d;
      }
    }
  }

  /** Deleting twice is the same as deleting once. */
  lemma DeleteIdempotent(todos: seq<Todo>, id: int)
    ensures Delete(Delete(todos, id), id) == Delete(todos, id)
  {
  }

  /** `setTodos` yields its payload whatever the list held before. */
  lemma SetTodosReplaces(todos: seq<Todo>, items: seq<Todo>)
    ensures Next(todos, SetTodos(items)) == items
  {
  }

  /** An action of an unknown type leaves the list as it was. */
  lemma OtherLeavesUnchanged(todos: seq<Todo>, kind: UnknownTag)
    ensures Next(todos, Other(kind)) == todos
  {
  }

  /** A worked example: add "b" to [1 "a"], toggle it, then delete item 1. */
  lemma AddToggleDeleteScenario()
    ensures var s0 := [Todo(1, "a", false)];
      var s1 := Next(s0, AddTodo("b"));
      var s2 := Next(s1, ToggleTodo(2));
      var s3 := Next(s2, DeleteTodo(1));
      && s1 == [Todo(1, "a", false), Todo(2, "b", false)]
      && s2 == [Todo(1, "a", false), Todo(2, "b", true)]
      && s3 == [Todo(2, "b", true)]
  {
  }
}
