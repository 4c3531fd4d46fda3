/** The todo item held in local state, and the predicates about identifiers
    that the reducer and the controller share. */
module Todos {

  /** A todo item: an identifier, a title and a completion flag. */
  datatype Todo = Todo(id: int, title: string, completed: bool)

  /** Every identifier in `todos` is strictly below `bound`. */
  predicate IdsBelow(todos: seq<Todo>, bound: int)
  {
    forall i :: 0 <= i < |todos| ==> todos[i].id < bound
  }

  /** No two items of `todos` share an identifier. */
  predicate DistinctIds(todos: seq<Todo>)
  {
    forall i, j :: 0 <= i < j < |todos| ==> todos[i].id != todos[j].id
  }

  /** Some item of `todos` carries identifier `id`. */
  predicate HasId(todos: seq<Todo>, id: int)
  {
    exists i :: 0 <= i < |todos| && todos[i].id == id
  }

  /** `a` is `b` with some elements left out, the rest kept in their order
      (a greedy left-to-right match). */
  predicate IsSubsequence<T(==)>(a: seq<T>, b: seq<T>)
    decreases |b|
  {
    if a == [] then true
    else if b == [] then false
    else if a[0] == b[0] then IsSubsequence(a[1..], b[1..])
    else IsSubsequence(a, b[1..])
  }
}
