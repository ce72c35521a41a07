/** The todo store: a list of todos kept by a state container, and the three
    actions that build a new list from the old one. Ids are passed in (the
    store takes them from the clock) and are not assumed distinct. */
module TodoStore {

  datatype Todo = Todo(id: int, text: string, completed: bool)

  /** The store starts with no todos. */
  const InitialTodos: seq<Todo> := []

  /** `addTodo`: a new, not yet completed todo at the end. */
  function AddTodo(todos: seq<Todo>, id: int, text: string): (r: seq<Todo>)
    ensures |r| == |todos| + 1
    ensures r[..|todos|] == todos
    ensures r[|todos|] == Todo(id, text, false)
  {
    todos + [Todo(id, text, false)]
  }

  /** The todo with its `completed` flag flipped when it carries `id`. */
  function Toggled(t: Todo, id: int): Todo {
    if t.id == id then t.(completed := !t.completed) else t
  }

  /** `toggleTodo`: every todo whose id is `id` flips its `completed` flag;
      the length, the order, every id and every text stay as they were. */
  function ToggleTodo(todos: seq<Todo>, id: int): (r: seq<Todo>)
    ensures |r| == |todos|
    ensures forall i :: 0 <= i < |r| ==>
      r[i].id == todos[i].id && r[i].text == todos[i].text
      && r[i].completed == (if todos[i].id == id then !todos[i].completed else todos[i].completed)
  {
    if todos == [] then [] else [Toggled(todos[0], id)] + ToggleTodo(todos[1..], id)
  }

  predicate HasId(todos: seq<Todo>, id: int) {
    exists i :: 0 <= i < |todos| && todos[i].id == id
  }

  /** `a` is `b` with some entries left out and the rest in their order. */
  predicate IsSubsequence(a: seq<Todo>, b: seq<Todo>) {
    if a == [] then true
    else if b == [] then false
    else if a[0] == b[0] then IsSubsequence(a[1..], b[1..])
    else IsSubsequence(a, b[1..])
  }

  /** `removeTodo`: no todo with `id` is left, every other todo is kept as
      often as it occurs, and the kept ones stay in their relative order. */
  function RemoveTodo(todos: seq<Todo>, id: int): (r: seq<Todo>)
    ensures !HasId(r, id)
    ensures IsSubsequence(r, todos)
    ensures forall t: Todo :: t.id != id ==> multiset(r)[t] == multiset(todos)[t]
  {
    if todos == [] then []
    else
      assert todos == [todos[0]] + todos[1..];
      var rest := RemoveTodo(todos[1..], id);
      if todos[0].id == id then rest else [todos[0]] + rest
  }

  /** Toggling the same id twice gives back the list. */
  lemma {:induction false} ToggleTwice(todos: seq<Todo>, id: int)
    ensures ToggleTodo(ToggleTodo(todos, id), id) == todos
  {
    if todos != [] {
      ToggleTwice(todos[1..], id);
      assert ToggleTodo(todos, id)[1..] == ToggleTodo(todos[1..], id);
    }
  }

  /** Toggling an id that no todo carries changes nothing. */
  lemma {:induction false} ToggleAbsent(todos: seq<Todo>, id: int)
    requires !HasId(todos, id)
    ensures ToggleTodo(todos, id) == todos
  {
    if todos != [] {
      assert !HasId(todos[1..], id) by {
        forall i | 0 <= i < |todos[1..]| ensures todos[1..][i].id != id {
          assert todos[1..][i] == todos[i + 1];
        }
      }
      ToggleAbsent(todos[1..], id);
    }
  }

  /** Toggles of two ids can be done in either order. */
  lemma {:induction false} TogglesCommute(todos: seq<Todo>, a: int, b: int)
    ensures ToggleTodo(ToggleTodo(todos, a), b) == ToggleTodo(ToggleTodo(todos, b), a)
  {
    if todos != [] {
      TogglesCommute(todos[1..], a, b);
      assert ToggleTodo(todos, a)[1..] == ToggleTodo(todos[1..], a);
      assert ToggleTodo(todos, b)[1..] == ToggleTodo(todos[1..], b);
    }
  }

  /** Removing an id that no todo carries changes nothing. */
  lemma {:induction false} RemoveAbsent(todos: seq<Todo>, id: int)
    requires !HasId(todos, id)
    ensures RemoveTodo(todos, id) == todos
  {
    if todos != [] {
      assert todos[0].id != id;
      assert !HasId(todos[1..], id) by {
        forall i | 0 <= i < |todos[1..]| ensures todos[1..][i].id != id {
          assert todos[1..][i] == todos[i + 1];
        }
      }
      RemoveAbsent(todos[1..], id);
    }
  }

  /** Removing twice is removing once. */
  lemma RemoveIdempotent(todos: seq<Todo>, id: int)
    ensures RemoveTodo(RemoveTodo(todos, id), id) == RemoveTodo(todos, id)
  {
    RemoveAbsent(RemoveTodo(todos, id), id);
  }

  /** Adding a todo under a fresh id and removing that id restores the list. */
  lemma RemoveUndoesAdd(todos: seq<Todo>, id: int, text: string)
    requires !HasId(todos, id)
    ensures RemoveTodo(AddTodo(todos, id, text), id) == todos
  {
    RemoveAppended(todos, Todo(id, text, false));
    RemoveAbsent(todos, id);
  }

  lemma {:induction false} RemoveAppended(todos: seq<Todo>, t: Todo)
    ensures RemoveTodo(todos + [t], t.id) == RemoveTodo(todos, t.id)
  {
    if todos == [] {
      assert [] + [t] == [t];
      assert [t][1..] == [];
    } else {
      assert (todos + [t])[1..] == todos[1..] + [t];
      RemoveAppended(todos[1..], t);
    }
  }

  /** What is left after removing an id does not depend on whether those
      todos were toggled first. */
  lemma {:induction false} RemoveAfterToggle(todos: seq<Todo>, id: int)
    ensures RemoveTodo(ToggleTodo(todos, id), id) == RemoveTodo(todos, id)
  {
    if todos != [] {
      assert ToggleTodo(todos, id)[1..] == ToggleTodo(todos[1..], id);
      RemoveAfterToggle(todos[1..], id);
    }
  }
}
