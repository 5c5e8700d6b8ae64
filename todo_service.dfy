/**
 * The todo service: a table of todos kept in place, with the next id to
 * hand out. Each method performs one call of module TodoHistory atomically,
 * so every guarantee proved there holds of any sequence of method calls.
 */
module TodoApi {
  import opened TodoStore
  import opened TodoHistory

  class TodoService {
    var todos: map<int, Todo>
    var nextId: int

    /** The table and the id counter as one value. */
    function State(): Store
      reads this
    {
      Store(todos, nextId)
    }

    ghost predicate Valid()
      reads this
    {
      WellFormed(State())
    }

    /** Binds the service to a store that already holds `initial`: its rows and its next id. */
    constructor (initial: Store)
      requires WellFormed(initial)
      ensures Valid() && State() == initial
    {
      todos := initial.todos;
      nextId := initial.nextId;
    }

    /** Stores a new todo owned by the caller, under an id not in use, and returns it. */
    method CreateTodo(data: NewTodo, userId: UserId) returns (todo: Todo)
      requires Valid()
      modifies this
      ensures Valid()
      ensures todo.id !in old(todos)
      ensures todo.userId == userId && todo.title == data.title && todo.description == data.description
      ensures todos == old(todos)[todo.id := todo]
      ensures State() == Step(old(State()), Call(userId, CreateOp(data)))
    {
      todo := Todo(nextId, data.title, data.description, userId);
      todos := todos[todo.id := todo];
      nextId := nextId + 1;
    }

    /** The caller's todos: all stored todos it owns and no others; nothing changes. */
    method GetTodos(userId: UserId) returns (r: set<Todo>)
      requires Valid()
      ensures forall t :: t in r <==> t.id in todos && todos[t.id] == t && t.userId == userId
    {
      r := Owned(todos, userId);
      forall t | t in r ensures t.id in todos && todos[t.id] == t {
        ListedIffFetched(State(), userId, t);
      }
    }

    /** The stored todo, when it exists and the caller owns it; nothing changes. */
    method GetTodo(id: int, userId: UserId) returns (r: Outcome)
      ensures r.NotFound? <==> id !in todos
      ensures r.Forbidden? <==> id in todos && todos[id].userId != userId
      ensures r.Ok? ==> id in todos && r.todo == todos[id] && r.todo.userId == userId
      ensures r.NotFound? ==> r.message == NotFoundMessage
      ensures r.Forbidden? ==> r.message == ForbiddenMessage
    {
      if id !in todos {
        return NotFound(NotFoundMessage);
      }
      var todo := todos[id];
      if todo.userId != userId {
        return Forbidden(ForbiddenMessage);
      }
      r := Ok(todo);
    }

    /** Replaces the given fields of the caller's todo `id`; leaves the table alone on a refusal. */
    method UpdateTodo(id: int, patch: Patch, userId: UserId) returns (r: Outcome)
      requires Valid()
      modifies this
      ensures Valid() && nextId == old(nextId)
      ensures (todos, r) == Update(old(todos), id, patch, userId)
      ensures State() == Step(old(State()), Call(userId, UpdateOp(id, patch)))
    {
      var found := GetTodo(id, userId);
      if !found.Ok? {
        return found;
      }
      var todo := Patched(found.todo, patch);
      todos := todos[id := todo];
      r := Ok(todo);
    }

    /** Removes the caller's todo `id` and returns it; leaves the table alone on a refusal. */
    method DeleteTodo(id: int, userId: UserId) returns (r: Outcome)
      requires Valid()
      modifies this
      ensures Valid() && nextId == old(nextId)
      ensures (todos, r) == Delete(old(todos), id, userId)
      ensures State() == Step(old(State()), Call(userId, DeleteOp(id)))
    {
      var found := GetTodo(id, userId);
      if !found.Ok? {
        return found;
      }
      todos := todos - {id};
      r := found;
    }
  }
}
