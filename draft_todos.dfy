/**
 * The earlier unscoped draft of the todo service: the same table and
 * request constraints, with no owner and no authentication, and read_all,
 * get_single_todos and create_todo only. The owner-scoped router refines it:
 * forgetting owners maps its rows and its answers onto the draft's.
 */
module DraftTodos {
  import opened Outcomes
  import opened TodoRequests
  import Todos

  /** A row of the draft's todos table: no owner. */
  datatype Item = Item(id: int, title: string, description: string, priority: int, complete: bool)

  /** The row the draft's create_todo builds from the request's four fields. */
  function NewItem(id: int, req: TodoRequest): Item {
    Item(id, req.title, req.description, req.priority, req.complete)
  }

  /** The draft's todos table, with the database's key counter. */
  class DraftStore {
    var items: map<int, Item>
    var nextId: int

    ghost predicate Valid()
      reads this
    {
      && nextId > 0
      && forall k | k in items :: 0 < k < nextId && items[k].id == k
    }

    constructor ()
      ensures Valid() && items == map[] && nextId == 1
    {
      items := map[];
      nextId := 1;
    }

    /** GET /Todos: every row in the table, whoever created it. */
    method ReadAll() returns (r: map<int, Item>)
      ensures r.Keys == items.Keys
      ensures forall k | k in r :: r[k] == items[k]
    {
      r := items;
    }

    /** GET /Todos/{id}: 422 for a non-positive id, the row under that key, else not-found. */
    method GetSingle(id: int) returns (r: Result<Item>)
      ensures !ValidPathId(id) ==> r == Err(Unprocessable)
      ensures r.Ok? <==> ValidPathId(id) && id in items
      ensures r.Ok? ==> r.value == items[id]
      ensures ValidPathId(id) && id !in items ==> r == Err(NotFound)
    {
      if !ValidPathId(id) {
        return Err(Unprocessable);
      }
      if id in items {
        return Ok(items[id]);
      }
      r := Err(NotFound);
    }

    /**
     * POST /Todos: 422 for an invalid body; otherwise one new row under a
     * fresh key with the request's four fields, and every other row as it was.
     */
    method Create(req: TodoRequest) returns (r: Result<()>)
      requires Valid()
      modifies this
      ensures Valid()
      ensures r.Ok? <==> ValidRequest(req)
      ensures r.Err? ==> r.error == Unprocessable && items == old(items) && nextId == old(nextId)
      ensures r.Ok? ==> old(nextId) !in old(items)
      ensures r.Ok? ==> items == old(items)[old(nextId) := NewItem(old(nextId), req)]
    {
      if !ValidRequest(req) {
        return Err(Unprocessable);
      }
      items := items[nextId := NewItem(nextId, req)];
      nextId := nextId + 1;
      r := Ok(());
    }
  }

  /** A scoped row as the draft sees it: the owner forgotten. */
  function Forget(t: Todos.Todo): Item {
    Item(t.id, t.title, t.description, t.priority, t.complete)
  }

  /** The scoped table as the draft sees it: same keys, owners forgotten. */
  function Erase(db: map<int, Todos.Todo>): (r: map<int, Item>)
    ensures r.Keys == db.Keys
    ensures forall k | k in db :: r[k] == Forget(db[k])
  {
    map k | k in db :: Forget(db[k])
  }

  /**
   * Creating in the scoped table and then forgetting owners is creating in
   * the draft's table: the scoped create only adds the owner.
   */
  lemma CreateRefinesDraft(db: map<int, Todos.Todo>, id: int, req: TodoRequest, owner: int)
    ensures Erase(db[id := Todos.NewTodo(id, req, owner)]) == Erase(db)[id := NewItem(id, req)]
  {
  }

  /**
   * A caller's list in the scoped router is a part of the draft's list of
   * the same table: the scoped read_all only filters.
   */
  lemma ScopedListWithinDraftList(db: map<int, Todos.Todo>, owner: int)
    ensures Erase(Todos.OwnedBy(db, owner)).Keys <= Erase(db).Keys
    ensures forall k | k in Todos.OwnedBy(db, owner) :: Erase(Todos.OwnedBy(db, owner))[k] == Erase(db)[k]
  {
  }

  /**
   * A row the scoped GET returns is the row the draft's GET returns for the
   * same key, with the owner forgotten; the converse fails only for other
   * users' rows.
   */
  lemma ScopedGetRefinesDraftGet(db: map<int, Todos.Todo>, id: int, owner: int)
    ensures Todos.FindOwned(db, id, owner).Some? ==> id in Erase(db) && Erase(db)[id] == Forget(Todos.FindOwned(db, id, owner).value)
    ensures id in Erase(db) && Todos.FindOwned(db, id, owner).None? ==> db[id].ownerId != owner
  {
  }
}
