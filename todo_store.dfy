/**
 * The todo table and the ownership-guarded operations on it, as values.
 * Every operation of the service is defined here once, on the table it
 * reads; the class in module TodoApi performs them in place.
 */
module TodoStore {
  import opened Wrappers

  /** The authenticated caller's id (the `sub` claim of its token). */
  type UserId = string

  /** One row of the todo table. */
  datatype Todo = Todo(id: int, title: string, description: string, userId: UserId)

  /** The body of a create request: it carries no owner. */
  datatype NewTodo = NewTodo(title: string, description: string)

  /** The body of an update request: each field may be absent. */
  datatype Patch = Patch(title: Option<string>, description: Option<string>)

  const NotFoundMessage: string := "Todo not found"
  const ForbiddenMessage: string := "Access denied"

  /** What a guarded operation answers: the row, or one of the two refusals. */
  datatype Outcome = Ok(todo: Todo) | NotFound(message: string) | Forbidden(message: string)

  /** The table together with the next id the store will hand out. */
  datatype Store = Store(todos: map<int, Todo>, nextId: int)

  /** Every row is stored under its own id, and every id in use is below `nextId`. */
  ghost predicate WellFormed(s: Store)
  {
    forall k :: k in s.todos ==> s.todos[k].id == k && k < s.nextId
  }

  /**
   * The guard shared by get, update and delete: fetch the row by id, refuse
   * with NotFound when it is absent, then with Forbidden when the stored
   * owner is not the caller.
   */
  function Fetch(todos: map<int, Todo>, id: int, userId: UserId): (r: Outcome)
    ensures r.NotFound? <==> id !in todos
    ensures r.Forbidden? <==> id in todos && todos[id].userId != userId
    ensures r.Ok? ==> id in todos && r.todo == todos[id] && r.todo.userId == userId
    ensures r.NotFound? ==> r.message == NotFoundMessage
    ensures r.Forbidden? ==> r.message == ForbiddenMessage
  {
    if id !in todos then NotFound(NotFoundMessage)
    else if todos[id].userId != userId then Forbidden(ForbiddenMessage)
    else Ok(todos[id])
  }

  /**
   * Create: a new row under an unused id, owned by the caller whatever the
   * request body holds, with the title and description as given.
   */
  function Create(s: Store, data: NewTodo, userId: UserId): (r: (Store, Todo))
    ensures r.1.userId == userId
    ensures r.1.title == data.title && r.1.description == data.description
    ensures r.0.todos == s.todos[r.1.id := r.1]
    ensures WellFormed(s) ==> r.1.id !in s.todos && WellFormed(r.0)
    ensures WellFormed(s) ==> |r.0.todos| == |s.todos| + 1
  {
    var t := Todo(s.nextId, data.title, data.description, userId);
    (Store(s.todos[t.id := t], s.nextId + 1), t)
  }

  /** A row with the fields present in `p` replaced. */
  function Patched(t: Todo, p: Patch): (r: Todo)
    ensures r.id == t.id && r.userId == t.userId
    ensures p.title.Some? ==> r.title == p.title.value
    ensures p.title.None? ==> r.title == t.title
    ensures p.description.Some? ==> r.description == p.description.value
    ensures p.description.None? ==> r.description == t.description
  {
    t.(title := p.title.GetOr(t.title), description := p.description.GetOr(t.description))
  }

  /**
   * Update: after the guard, only the given fields of that one row change;
   * on a refusal the table is left as it was.
   */
  function Update(todos: map<int, Todo>, id: int, p: Patch, userId: UserId): (r: (map<int, Todo>, Outcome))
    ensures r.1.NotFound? <==> id !in todos
    ensures r.1.Forbidden? <==> id in todos && todos[id].userId != userId
    ensures !r.1.Ok? ==> r.0 == todos && r.1 == Fetch(todos, id, userId)
    ensures r.1.Ok? ==> id in todos && r.1.todo == Patched(todos[id], p) && r.0 == todos[id := r.1.todo]
    ensures r.0.Keys == todos.Keys
  {
    var found := Fetch(todos, id, userId);
    if !found.Ok? then (todos, found)
    else
      var t := Patched(found.todo, p);
      (todos[id := t], Ok(t))
  }

  /**
   * Delete: after the guard, exactly that row goes and is returned; on a
   * refusal the table is left as it was.
   */
  function Delete(todos: map<int, Todo>, id: int, userId: UserId): (r: (map<int, Todo>, Outcome))
    ensures r.1.NotFound? <==> id !in todos
    ensures r.1.Forbidden? <==> id in todos && todos[id].userId != userId
    ensures !r.1.Ok? ==> r.0 == todos && r.1 == Fetch(todos, id, userId)
    ensures r.1.Ok? ==> id in todos && r.1.todo == todos[id] && r.0.Keys == todos.Keys - {id}
    ensures forall k :: k in r.0 ==> k in todos && r.0[k] == todos[k]
  {
    var found := Fetch(todos, id, userId);
    if !found.Ok? then (todos, found)
    else (todos - {id}, found)
  }

  /** The rows of one owner, keyed by id. */
  function OwnedRows(todos: map<int, Todo>, userId: UserId): map<int, Todo>
  {
    map k | k in todos && todos[k].userId == userId :: todos[k]
  }

  /** List: every stored todo whose owner is `userId`, and nothing else. */
  function Owned(todos: map<int, Todo>, userId: UserId): (r: set<Todo>)
    ensures forall k :: k in todos && todos[k].userId == userId ==> todos[k] in r
    ensures forall t :: t in r ==> t.userId == userId && exists k :: k in todos && todos[k] == t
  {
    set k | k in todos && todos[k].userId == userId :: todos[k]
  }

  /** Whether a row is missing does not depend on who asks. */
  lemma NotFoundWhoeverAsks(todos: map<int, Todo>, id: int, u: UserId, v: UserId)
    ensures Fetch(todos, id, u).NotFound? <==> Fetch(todos, id, v).NotFound?
  {
  }

  /** Existence is checked before ownership: a present row never yields NotFound. */
  lemma PresentNeverNotFound(todos: map<int, Todo>, id: int, u: UserId)
    requires id in todos
    ensures Fetch(todos, id, u) == if todos[id].userId == u then Ok(todos[id]) else Forbidden(ForbiddenMessage)
  {
  }

  /** Listing and fetching agree: a todo is listed for `u` exactly when fetching its id as `u` succeeds with it. */
  lemma ListedIffFetched(s: Store, u: UserId, t: Todo)
    requires WellFormed(s)
    ensures t in Owned(s.todos, u) <==> Fetch(s.todos, t.id, u) == Ok(t)
  {
  }

  /** Applying the same patch twice is the same as applying it once. */
  lemma PatchIdempotent(t: Todo, p: Patch)
    ensures Patched(Patched(t, p), p) == Patched(t, p)
  {
  }

  /** An update with no fields leaves the row as it was. */
  lemma EmptyPatchKeepsRow(t: Todo)
    ensures Patched(t, Patch(None, None)) == t
  {
  }

  /** After a successful delete, fetching that id fails with NotFound, whoever asks. */
  lemma DeletedThenNotFound(todos: map<int, Todo>, id: int, userId: UserId, anyone: UserId)
    requires Delete(todos, id, userId).1.Ok?
    ensures Fetch(Delete(todos, id, userId).0, id, anyone).NotFound?
  {
  }
}
