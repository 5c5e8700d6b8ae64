/**
 * The update as the program actually runs it. The controller passes the
 * request body through unfiltered and the service hands it to the store as
 * the update data, so a body may carry an owner field besides the title and
 * the description, and the store applies it. Here that path is kept apart
 * from module TodoStore, whose `Patch` follows the declared body type.
 */
module TodoUntypedBody {
  import opened Wrappers
  import opened TodoStore

  /** An update body as it arrives: the two declared fields, and an owner field the declared type leaves out. */
  datatype RawPatch = RawPatch(title: Option<string>, description: Option<string>, userId: Option<UserId>)

  /** The row after the store applies every field present in the body, the owner included. */
  function PatchedAsWritten(t: Todo, p: RawPatch): (r: Todo)
    ensures r.id == t.id
    ensures p.userId.Some? ==> r.userId == p.userId.value
    ensures p.userId.None? ==> r.userId == t.userId
    ensures p.title.Some? ==> r.title == p.title.value
    ensures p.title.None? ==> r.title == t.title
    ensures p.description.Some? ==> r.description == p.description.value
    ensures p.description.None? ==> r.description == t.description
    ensures p.userId.None? ==> r == Patched(t, Patch(p.title, p.description))
  {
    t.(title := p.title.GetOr(t.title), description := p.description.GetOr(t.description),
       userId := p.userId.GetOr(t.userId))
  }

  /** Update with the unfiltered body: the same guard, then every present field is written. */
  function UpdateAsWritten(todos: map<int, Todo>, id: int, p: RawPatch, userId: UserId): (r: (map<int, Todo>, Outcome))
    ensures r.1.NotFound? <==> id !in todos
    ensures r.1.Forbidden? <==> id in todos && todos[id].userId != userId
    ensures !r.1.Ok? ==> r.0 == todos && r.1 == Fetch(todos, id, userId)
    ensures r.1.Ok? ==> id in todos && r.1.todo == PatchedAsWritten(todos[id], p) && r.0 == todos[id := r.1.todo]
  {
    var found := Fetch(todos, id, userId);
    if !found.Ok? then (todos, found)
    else
      var t := PatchedAsWritten(found.todo, p);
      (todos[id := t], Ok(t))
  }

  /** A body without an owner field does exactly what the typed update does. */
  lemma TypedBodyAgrees(todos: map<int, Todo>, id: int, p: RawPatch, userId: UserId)
    requires p.userId.None?
    ensures UpdateAsWritten(todos, id, p, userId) == Update(todos, id, Patch(p.title, p.description), userId)
  {
  }

  /**
   * The owner of a todo can give it away: an update whose body names another
   * user succeeds, the row's owner becomes that user, and the other user's
   * rows gain a row through a call that user never made.
   */
  lemma OwnerHandsOver(todos: map<int, Todo>, id: int, owner: UserId, other: UserId)
    requires id in todos && todos[id].userId == owner && owner != other
    ensures var r := UpdateAsWritten(todos, id, RawPatch(None, None, Some(other)), owner);
            && r.1.Ok?
            && r.0[id].userId == other != todos[id].userId
            && id in OwnedRows(r.0, other) && id !in OwnedRows(todos, other)
            && OwnedRows(r.0, other) != OwnedRows(todos, other)
  {
  }

  /** A concrete case: alice's todo 1 moves into bob's list when alice sends `{userId: "bob"}`. */
  lemma AliceGivesTodoToBob()
    ensures var before := map[1 := Todo(1, "Buy groceries", "Milk", "alice")];
            var after := UpdateAsWritten(before, 1, RawPatch(None, None, Some("bob")), "alice").0;
            && Owned(before, "bob") == {}
            && Todo(1, "Buy groceries", "Milk", "bob") in Owned(after, "bob")
  {
    var before := map[1 := Todo(1, "Buy groceries", "Milk", "alice")];
    var after := UpdateAsWritten(before, 1, RawPatch(None, None, Some("bob")), "alice").0;
    assert after[1] == Todo(1, "Buy groceries", "Milk", "bob");
  }
}
