/**
 * Sequences of service calls, each made by some authenticated user, and
 * what ownership guarantees survive any such sequence: the table stays well
 * formed, ids are never reused, a row's owner never changes, and nobody but
 * the owner can alter or remove that owner's rows. These hold for update
 * bodies of the declared type; see module TodoUntypedBody for a body that
 * also carries an owner.
 */
module TodoHistory {
  import opened TodoStore

  /** One call to the service, without its caller. */
  datatype Op =
    | CreateOp(data: NewTodo)
    | ListOp
    | GetOp(id: int)
    | UpdateOp(id: int, patch: Patch)
    | DeleteOp(id: int)

  /** A call together with the id of the user who makes it. */
  datatype Call = Call(userId: UserId, op: Op)

  /** The store after one call; the queries leave it as it was. */
  function Step(s: Store, c: Call): Store
  {
    match c.op
    case CreateOp(data) => Create(s, data, c.userId).0
    case ListOp => s
    case GetOp(_) => s
    case UpdateOp(id, p) => Store(Update(s.todos, id, p, c.userId).0, s.nextId)
    case DeleteOp(id) => Store(Delete(s.todos, id, c.userId).0, s.nextId)
  }

  /** The store after a sequence of calls, made one after the other. */
  function Run(s: Store, calls: seq<Call>): Store
    decreases |calls|
  {
    if calls == [] then s else Run(Step(s, calls[0]), calls[1..])
  }

  /** One call keeps the table well formed, and the id counter never goes back. */
  lemma StepWellFormed(s: Store, c: Call)
    requires WellFormed(s)
    ensures WellFormed(Step(s, c)) && s.nextId <= Step(s, c).nextId
  {
  }

  lemma {:induction false} RunWellFormed(s: Store, calls: seq<Call>)
    requires WellFormed(s)
    ensures WellFormed(Run(s, calls)) && s.nextId <= Run(s, calls).nextId
    decreases |calls|
  {
    if calls != [] {
      StepWellFormed(s, calls[0]);
      RunWellFormed(Step(s, calls[0]), calls[1..]);
    }
  }

  /** An id that was handed out and is no longer in the table never comes back. */
  lemma {:induction false} IdsNeverReused(s: Store, calls: seq<Call>, k: int)
    requires WellFormed(s)
    requires k < s.nextId && k !in s.todos
    ensures k !in Run(s, calls).todos
    decreases |calls|
  {
    if calls != [] {
      StepWellFormed(s, calls[0]);
      IdsNeverReused(Step(s, calls[0]), calls[1..], k);
    }
  }

  /** One call never changes the owner of a row that it leaves in the table. */
  lemma StepKeepsOwner(s: Store, c: Call, k: int)
    requires WellFormed(s)
    requires k in s.todos && k in Step(s, c).todos
    ensures Step(s, c).todos[k].userId == s.todos[k].userId
  {
  }

  /** Whatever calls are made, by whoever, a row that is still there has the owner it had. */
  lemma {:induction false} OwnerNeverChanges(s: Store, calls: seq<Call>, k: int)
    requires WellFormed(s)
    requires k in s.todos && k in Run(s, calls).todos
    ensures Run(s, calls).todos[k].userId == s.todos[k].userId
    decreases |calls|
  {
    if calls != [] {
      var next := Step(s, calls[0]);
      StepWellFormed(s, calls[0]);
      if k in next.todos {
        StepKeepsOwner(s, calls[0], k);
        OwnerNeverChanges(next, calls[1..], k);
      } else {
        IdsNeverReused(next, calls[1..], k);
      }
    }
  }

  /** A call by anyone but `owner` leaves `owner`'s rows exactly as they were. */
  lemma StepIsolation(s: Store, c: Call, owner: UserId)
    requires WellFormed(s)
    requires c.userId != owner
    ensures OwnedRows(Step(s, c).todos, owner) == OwnedRows(s.todos, owner)
  {
  }

  /**
   * Isolation between users: however many calls other users make, the rows
   * owned by `owner` are the same rows, under the same ids, with the same
   * contents; none is added, altered or removed.
   */
  lemma {:induction false} Isolation(s: Store, calls: seq<Call>, owner: UserId)
    requires WellFormed(s)
    requires forall i :: 0 <= i < |calls| ==> calls[i].userId != owner
    ensures OwnedRows(Run(s, calls).todos, owner) == OwnedRows(s.todos, owner)
    ensures Owned(Run(s, calls).todos, owner) == Owned(s.todos, owner)
    decreases |calls|
  {
    if calls != [] {
      StepIsolation(s, calls[0], owner);
      StepWellFormed(s, calls[0]);
      Isolation(Step(s, calls[0]), calls[1..], owner);
    }
    OwnedFollowsRows(Run(s, calls).todos, s.todos, owner);
  }

  /** The listing of an owner is determined by that owner's rows. */
  lemma OwnedFollowsRows(a: map<int, Todo>, b: map<int, Todo>, owner: UserId)
    requires OwnedRows(a, owner) == OwnedRows(b, owner)
    ensures Owned(a, owner) == Owned(b, owner)
  {
    forall t | t in Owned(a, owner) ensures t in Owned(b, owner) {
      var k :| k in a && a[k] == t;
      assert k in OwnedRows(a, owner);
    }
    forall t | t in Owned(b, owner) ensures t in Owned(a, owner) {
      var k :| k in b && b[k] == t;
      assert k in OwnedRows(b, owner);
    }
  }

  /**
   * Two users on an empty table: each creation gets the next id and the
   * creator as owner; the other user may not delete the first todo, its
   * owner may, and afterwards the id is not found.
   */
  lemma TwoUsersScenario(a: UserId, b: UserId, first: NewTodo, second: NewTodo)
    requires a != b
    ensures var s1 := Step(Store(map[], 1), Call(a, CreateOp(first)));
            var s2 := Step(s1, Call(b, CreateOp(second)));
            && s2.todos.Keys == {1, 2}
            && s2.todos[1].userId == a && s2.todos[2].userId == b
            && Delete(s2.todos, 1, b).1 == Forbidden(ForbiddenMessage)
            && Delete(s2.todos, 1, a).1 == Ok(s2.todos[1])
            && Fetch(Delete(s2.todos, 1, a).0, 1, a) == NotFound(NotFoundMessage)
  {
  }
}
