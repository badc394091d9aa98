/**
 * The owner-scoped todo router: rows of the todos table, the queries the
 * handlers run against it, the five handlers as methods on the table, and
 * what a sequence of handler calls does to what a caller can see.
 */
module Todos {
  import opened Outcomes
  import opened TodoRequests

  /** A row of the todos table. */
  datatype Todo = Todo(id: int, title: string, description: string, priority: int, complete: bool, ownerId: int)

  /** The current user the token dependency resolves to: its username and id. */
  datatype Caller = Caller(username: string, id: int)

  /** The row create_todo builds: the request's four fields, owned by `owner`, under key `id`. */
  function NewTodo(id: int, req: TodoRequest, owner: int): Todo {
    Todo(id, req.title, req.description, req.priority, req.complete, owner)
  }

  /** The row update_todo commits: `t` with its four mutable fields assigned from the request. */
  function Overwritten(t: Todo, req: TodoRequest): Todo {
    t.(title := req.title, description := req.description, priority := req.priority, complete := req.complete)
  }

  /** Filtering the table on `owner_id == owner`: exactly that owner's rows, unchanged. */
  function OwnedBy(db: map<int, Todo>, owner: int): (r: map<int, Todo>)
    ensures forall k :: k in r <==> k in db && db[k].ownerId == owner
    ensures forall k | k in r :: r[k] == db[k]
  {
    map k | k in db && db[k].ownerId == owner :: db[k]
  }

  /** Filtering on `id == id` and taking the first row: the row under that key, if any. */
  function FindById(db: map<int, Todo>, id: int): (r: Option<Todo>)
    ensures r.Some? <==> id in db
    ensures r.Some? ==> r.value == db[id]
  {
    if id in db then Some(db[id]) else None
  }

  /**
   * Filtering on the id and then on the owner: the row is found only when it
   * exists AND belongs to `owner`; another user's row is not found.
   */
  function FindOwned(db: map<int, Todo>, id: int, owner: int): (r: Option<Todo>)
    ensures r.Some? <==> id in db && db[id].ownerId == owner
    ensures r.Some? ==> r.value == db[id]
  {
    FindById(OwnedBy(db, owner), id)
  }

  /** The todos table, with the database's key counter. */
  class TodoStore {
    /** The rows, by primary key. */
    var todos: map<int, Todo>
    /** The key the database hands to the next inserted row. */
    var nextId: int

    /** Every row is stored under its own positive key, below the next key to hand out. */
    ghost predicate Valid()
      reads this
    {
      && nextId > 0
      && forall k | k in todos :: 0 < k < nextId && todos[k].id == k
    }

    constructor ()
      ensures Valid() && todos == map[] && nextId == 1
    {
      todos := map[];
      nextId := 1;
    }

    /** GET /Todos: 401 without a caller, otherwise the caller's rows and no one else's. */
    method ReadAll(caller: Option<Caller>) returns (r: Result<map<int, Todo>>)
      ensures caller.None? ==> r == Err(Unauthenticated)
      ensures caller.Some? ==> r == Ok(OwnedBy(todos, caller.value.id))
    {
      if caller.None? {
        return Err(Unauthenticated);
      }
      r := Ok(OwnedBy(todos, caller.value.id));
    }

    /**
     * GET /Todos/{id}: 422 for a non-positive id, 401 without a caller, the
     * row when it exists and is the caller's, and not-found otherwise.
     */
    method GetSingle(caller: Option<Caller>, id: int) returns (r: Result<Todo>)
      ensures !ValidPathId(id) ==> r == Err(Unprocessable)
      ensures ValidPathId(id) && caller.None? ==> r == Err(Unauthenticated)
      ensures r.Ok? <==> ValidPathId(id) && caller.Some? && id in todos && todos[id].ownerId == caller.value.id
      ensures r.Ok? ==> r.value == todos[id]
      ensures ValidPathId(id) && caller.Some? && r.Err? ==> r.error == NotFound
    {
      if !ValidPathId(id) {
        return Err(Unprocessable);
      }
      if caller.None? {
        return Err(Unauthenticated);
      }
      var found := FindOwned(todos, id, caller.value.id);
      if found.Some? {
        return Ok(found.value);
      }
      r := Err(NotFound);
    }

    /**
     * POST /Todos: 422 for an invalid body, 401 without a caller; otherwise
     * one new row under a fresh key, with the request's fields and the
     * caller as owner, and every existing row as it was.
     */
    method Create(caller: Option<Caller>, req: TodoRequest) returns (r: Result<()>)
      requires Valid()
      modifies this
      ensures Valid()
      ensures !ValidRequest(req) ==> r == Err(Unprocessable)
      ensures ValidRequest(req) && caller.None? ==> r == Err(Unauthenticated)
      ensures r.Ok? <==> ValidRequest(req) && caller.Some?
      ensures r.Err? ==> todos == old(todos) && nextId == old(nextId)
      ensures r.Ok? ==> old(nextId) !in old(todos)
      ensures r.Ok? ==> todos == old(todos)[old(nextId) := NewTodo(old(nextId), req, caller.value.id)]
    {
      if !ValidRequest(req) {
        return Err(Unprocessable);
      }
      if caller.None? {
        return Err(Unauthenticated);
      }
      var id := nextId;
      todos := todos[id := NewTodo(id, req, caller.value.id)];
      nextId := nextId + 1;
      r := Ok(());
    }

    /**
     * PUT /Todos/{id}: 422 for a non-positive id or an invalid body,
     * not-found when no row has that key; otherwise the four mutable fields
     * of that row are replaced. There is no caller and no owner check: any
     * row can be overwritten.
     */
    method Update(req: TodoRequest, id: int) returns (r: Result<()>)
      requires Valid()
      modifies this`todos
      ensures Valid()
      ensures !ValidPathId(id) || !ValidRequest(req) ==> r == Err(Unprocessable)
      ensures ValidPathId(id) && ValidRequest(req) && id !in old(todos) ==> r == Err(NotFound)
      ensures r.Ok? <==> ValidPathId(id) && ValidRequest(req) && id in old(todos)
      ensures r.Err? ==> todos == old(todos)
      ensures r.Ok? ==> todos == old(todos)[id := Overwritten(old(todos)[id], req)]
    {
      if !ValidPathId(id) || !ValidRequest(req) {
        return Err(Unprocessable);
      }
      var found := FindById(todos, id);
      if found.None? {
        return Err(NotFound);
      }
      var row := found.value;
      row := row.(title := req.title);
      row := row.(description := req.description);
      row := row.(priority := req.priority);
      row := row.(complete := req.complete);
      todos := todos[id := row];
      r := Ok(());
    }

    /**
     * DELETE /Todos/{id}: 422 for a non-positive id, not-found when no row
     * has that key; otherwise exactly that row is removed. There is no
     * caller and no owner check: any row can be deleted.
     */
    method Delete(id: int) returns (r: Result<()>)
      requires Valid()
      modifies this`todos
      ensures Valid()
      ensures !ValidPathId(id) ==> r == Err(Unprocessable)
      ensures ValidPathId(id) && id !in old(todos) ==> r == Err(NotFound)
      ensures r.Ok? <==> ValidPathId(id) && id in old(todos)
      ensures r.Err? ==> todos == old(todos)
      ensures r.Ok? ==> todos == old(todos) - {id}
    {
      if !ValidPathId(id) {
        return Err(Unprocessable);
      }
      var found := FindById(todos, id);
      if found.None? {
        return Err(NotFound);
      }
      todos := todos - {id};
      r := Ok(());
    }
  }

  /**
   * A created row is listed for its owner, found by its owner under its new
   * key, carries the request's fields, and is invisible to every other user,
   * whose lists do not change.
   */
  lemma CreateIsListedForOwnerOnly(db: map<int, Todo>, id: int, req: TodoRequest, owner: int, other: int)
    requires id !in db
    requires other != owner
    ensures OwnedBy(db[id := NewTodo(id, req, owner)], owner) == OwnedBy(db, owner)[id := NewTodo(id, req, owner)]
    ensures OwnedBy(db[id := NewTodo(id, req, owner)], other) == OwnedBy(db, other)
    ensures FindOwned(db[id := NewTodo(id, req, owner)], id, owner) == Some(Todo(id, req.title, req.description, req.priority, req.complete, owner))
    ensures FindOwned(db[id := NewTodo(id, req, owner)], id, other) == None
  {
  }

  /**
   * After an update, the row keeps its key and owner, carries exactly the
   * request's four fields whatever it held before, and no other row changes.
   */
  lemma UpdateReplacesFourFields(db: map<int, Todo>, id: int, req: TodoRequest, owner: int)
    requires id in db
    ensures var db' := db[id := Overwritten(db[id], req)];
      && db'.Keys == db.Keys
      && db'[id] == Todo(db[id].id, req.title, req.description, req.priority, req.complete, db[id].ownerId)
      && (forall k | k in db && k != id :: db'[k] == db[k])
      && FindOwned(db', id, owner) == if db[id].ownerId == owner then Some(db'[id]) else None
  {
  }

  /**
   * Applying the table change of an update twice with the same body leaves
   * the table as applying it once.
   */
  lemma UpdateIdempotent(db: map<int, Todo>, id: int, req: TodoRequest)
    requires id in db
    ensures var once := db[id := Overwritten(db[id], req)];
      once[id := Overwritten(once[id], req)] == once
  {
  }

  /**
   * After a delete, that key is not found, whoever asks, and every list is
   * the old list without it.
   */
  lemma DeleteThenNotFound(db: map<int, Todo>, id: int, owner: int)
    ensures FindById(db - {id}, id) == None
    ensures FindOwned(db - {id}, id, owner) == None
    ensures OwnedBy(db - {id}, owner) == OwnedBy(db, owner) - {id}
  {
  }

  /**
   * The lists of two different users never share a row, and every row is in
   * its owner's list.
   */
  lemma ListsAreDisjoint(db: map<int, Todo>, a: int, b: int)
    requires a != b
    ensures OwnedBy(db, a).Keys !! OwnedBy(db, b).Keys
    ensures forall k | k in db :: k in OwnedBy(db, db[k].ownerId)
  {
  }

  /**
   * Update and delete look a row up by key only: a row that another user
   * owns is not found for `caller` by GET, yet the lookup update and delete
   * make finds it, so `caller` can overwrite or delete it.
   */
  lemma ForeignRowReachableByWrite(db: map<int, Todo>, id: int, caller: Caller)
    requires id in db && db[id].ownerId != caller.id
    ensures FindOwned(db, id, caller.id) == None
    ensures FindById(db, id) == Some(db[id])
  {
  }
}
