/**
  The Gin handlers of the Go backend over an abstract `todos` table.

  The table is a sequence of rows in insertion order, keyed by a unique id; the
  MySQL AUTO_INCREMENT counter is `nextId`. A failing database call that the
  handler answers with 500 is the parameter `fault`. Update, delete and toggle
  first look the row up with `DB.First` and answer 404 on any error of that
  lookup; a failing lookup is their parameter `lookupFault`. The clock that
  fills `created_at`/`updated_at` is the parameter `now`.
*/
module GoBackend {
  import opened Wrappers
  import opened Http
  import opened GoTodo
  import Seqs
  import GoScan

  /**
    A request body after `c.ShouldBindJSON(&todo)`: the `Todo` struct with the
    zero value for every absent field, or a body that does not decode.
  */
  datatype Body = Malformed | Bound(todo: Todo)

  /** `{code, message, data}`: the success envelope of list, create, update and toggle. */
  datatype Envelope<T> = Envelope(code: int, message: string, data: T)

  /** `{code, message}` of delete, with `deleted_count` for the two bulk deletes. */
  datatype Ack = Ack(code: int, message: string, deletedCount: Option<nat>)

  /** The `data` of a toggle response: only the id, the new flag and the update time. */
  datatype ToggleInfo = ToggleInfo(id: nat, completed: bool, updatedAt: nat)

  /** A JSON body: the handler's payload, or `{code, message, detail}` (detail text not modelled). */
  datatype GoBody<T> = Payload(value: T) | Failure(code: int, message: string)

  datatype Response<T> = Response(status: int, body: GoBody<T>)

  /** The handler Gin dispatches a request to (routes of the `/api/v1` group). */
  datatype Endpoint =
    | List
    | Create
    | Update(id: nat)
    | Delete(id: nat)
    | Toggle(id: nat)
    | DeleteCompleted
    | DeleteAll

  /** Gin's router: a static segment (`completed`, `all`) takes precedence over the `:id` parameter. */
  function Route(verb: Method, path: seq<Segment>): Option<Endpoint> {
    if path == [Lit("todos")] then
      if verb == GET then Some(List) else if verb == POST then Some(Create) else None
    else if |path| == 2 && path[0] == Lit("todos") then
      match path[1]
      case Num(n) =>
        if verb == PUT then Some(Update(n)) else if verb == DELETE then Some(Delete(n)) else None
      case Lit(name) =>
        if verb == DELETE && name == "completed" then Some(DeleteCompleted)
        else if verb == DELETE && name == "all" then Some(DeleteAll)
        else None
    else if |path| == 3 && path[0] == Lit("todos") && path[1].Num? && path[2] == Lit("toggle") && verb == PATCH then
      Some(Toggle(path[1].n))
    else None
  }

  /** The `binding:"required"` tag on Title: the body must decode and carry a non-empty title. */
  predicate Binds(b: Body) {
    b.Bound? && b.todo.title != ""
  }

  /** The `completed` query parameter: absent or empty means no filter, exactly "true" means true, anything else false. */
  function CompletedFilter(q: Query): (r: Option<bool>)
    ensures r.None? <==> FirstValue(q, "completed").GetOr("") == ""
    ensures r == Some(true) <==> FirstValue(q, "completed") == Some("true")
  {
    var completedStr := FirstValue(q, "completed").GetOr("");
    if completedStr == "" then None else Some(completedStr == "true")
  }

  /** `toInt(c.DefaultQuery("limit", "100"))`. */
  function LimitOf(q: Query): int {
    GoScan.ToInt(FirstValue(q, "limit").GetOr("100"))
  }

  /** `toInt(c.DefaultQuery("offset", "0"))`. */
  function OffsetOf(q: Query): int {
    GoScan.ToInt(FirstValue(q, "offset").GetOr("0"))
  }

  /** Without limit and offset parameters the page is the first 100 rows. */
  lemma PagingDefaults(q: Query)
    requires FirstValue(q, "limit").None? && FirstValue(q, "offset").None?
    ensures LimitOf(q) == 100 && OffsetOf(q) == 0
  {
    GoScan.DefaultsRead();
  }

  /** The rows a filter selects (`query.Where("completed = ?", c)` when one is given). */
  function Listed(s: seq<Todo>, filter: Option<bool>): (r: seq<Todo>)
    ensures filter.None? ==> r == s
    ensures filter.Some? ==> forall t :: t in r <==> t in s && t.completed == filter.value
  {
    match filter
    case None => s
    case Some(c) => WithCompleted(s, c)
  }

  /**
    `LIMIT limit OFFSET offset` as GORM emits it: an offset is applied only
    when positive and a limit only when not negative. `GetTodos` never asks
    for a page with `OffsetWithoutLimit`, which the database refuses.
  */
  function Page(s: seq<Todo>, limit: int, offset: int): (r: seq<Todo>)
    ensures var start := if offset <= 0 then 0 else if offset < |s| then offset else |s|;
      && |r| == (if limit < 0 || start + limit > |s| then |s| - start else limit)
      && r == s[start..start + |r|]
    ensures forall t :: t in r ==> t in s
  {
    var start := if offset <= 0 then 0 else if offset < |s| then offset else |s|;
    var rest := s[start..];
    var r := if limit < 0 || limit > |rest| then rest else rest[..limit];
    assert forall k :: 0 <= k < |r| ==> r[k] == s[start + k];
    r
  }

  /**
    The one paging that MySQL refuses: GORM writes no `LIMIT` for a negative
    limit but still writes `OFFSET` for a positive offset, and MySQL has no
    `OFFSET` without `LIMIT`, so the query fails.
  */
  predicate OffsetWithoutLimit(limit: int, offset: int) {
    limit < 0 && 0 < offset
  }

  /** The first row with the given id (`DB.First(&todo, id)`). */
  function Lookup(s: seq<Todo>, id: nat): (r: Option<Todo>)
    ensures r.None? <==> id !in Ids(s)
    ensures r.Some? ==> r.value in s && r.value.id == id
  {
    if s == [] then None
    else if s[0].id == id then Some(s[0])
    else
      assert forall t :: t in s ==> t == s[0] || t in s[1..];
      Lookup(s[1..], id)
  }

  /** The id the new row gets: the one in the body, or the next AUTO_INCREMENT value when the body has none. */
  function AssignedId(b: Todo, nextId: nat): nat {
    if b.id == 0 then nextId else b.id
  }

  /**
    The row `DB.Create` inserts: the bound struct with its id, and with the
    clock reading in each timestamp the body left at its zero value.
  */
  function Inserted(b: Todo, id: nat, now: nat): (r: Todo)
    ensures r.id == id
    ensures r.createdAt == (if b.createdAt == 0 then now else b.createdAt)
    ensures r.updatedAt == (if b.updatedAt == 0 then now else b.updatedAt)
    ensures r.title == b.title && r.description == b.description && r.completed == b.completed
    ensures r.priority == b.priority && r.dueDate == b.dueDate
  {
    b.(id := id,
       createdAt := if b.createdAt == 0 then now else b.createdAt,
       updatedAt := if b.updatedAt == 0 then now else b.updatedAt)
  }

  /**
    `DB.Model(&row).Updates(patch)` with a struct: only the non-zero fields of
    the patch overwrite the row; the id and creation time stay, the update
    time is refreshed.
  */
  function Merge(row: Todo, patch: Todo, now: nat): (r: Todo)
    ensures r.id == row.id && r.createdAt == row.createdAt && r.updatedAt == now
    ensures r.title == (if patch.title != "" then patch.title else row.title)
    ensures r.description == (if patch.description != "" then patch.description else row.description)
    ensures r.completed == (patch.completed || row.completed)
    ensures r.priority == (if patch.priority != 0 then patch.priority else row.priority)
    ensures r.dueDate == (if patch.dueDate.Some? then patch.dueDate else row.dueDate)
  {
    Todo(
      row.id,
      if patch.title != "" then patch.title else row.title,
      if patch.description != "" then patch.description else row.description,
      if patch.completed then true else row.completed,
      if patch.priority != 0 then patch.priority else row.priority,
      if patch.dueDate.Some? then patch.dueDate else row.dueDate,
      row.createdAt,
      now)
  }

  /** `todo.Completed = !todo.Completed` followed by `DB.Save`. */
  function Flip(row: Todo, now: nat): (r: Todo)
    ensures r.completed == !row.completed && r.updatedAt == now
    ensures r == row.(completed := !row.completed, updatedAt := now)
  {
    row.(completed := !row.completed, updatedAt := now)
  }

  /** Toggling twice restores the flag; only the update time differs from the original row. */
  lemma FlipTwice(row: Todo, t1: nat, t2: nat)
    ensures Flip(Flip(row, t1), t2) == row.(updatedAt := t2)
  {
  }

  /** The todos table. */
  class Table {
    var rows: seq<Todo>
    var nextId: nat

    /** Ids are unique, positive and below the AUTO_INCREMENT counter. */
    ghost predicate Valid()
      reads this
    {
      0 < nextId && UniqueIds(rows) && forall t :: t in rows ==> 0 < t.id < nextId
    }

    constructor ()
      ensures Valid() && rows == [] && nextId == 1
    {
      rows := [];
      nextId := 1;
    }

    /**
      `getTodos`: the filtered rows, paged by limit and offset; a failing
      query, including the one with an offset but no limit, gives 500.
    */
    method GetTodos(q: Query, fault: bool) returns (resp: Response<Envelope<seq<Todo>>>)
      ensures fault || OffsetWithoutLimit(LimitOf(q), OffsetOf(q)) ==>
        resp == Response(500, Failure(500, "Failed to fetch todos"))
      ensures !fault && !OffsetWithoutLimit(LimitOf(q), OffsetOf(q)) ==>
        && resp.status == 200 && resp.body.Payload?
        && resp.body.value.code == 200 && resp.body.value.message == "success"
        && resp.body.value.data == Page(Listed(rows, CompletedFilter(q)), LimitOf(q), OffsetOf(q))
        && (CompletedFilter(q).Some? ==>
              forall t :: t in resp.body.value.data ==> t in rows && t.completed == CompletedFilter(q).value)
    {
      var selected := rows;
      var completedStr := FirstValue(q, "completed").GetOr("");
      if completedStr != "" {
        var completed := completedStr == "true";
        selected := WithCompleted(selected, completed);
      }
      var limit := GoScan.ToInt(FirstValue(q, "limit").GetOr("100"));
      var offset := GoScan.ToInt(FirstValue(q, "offset").GetOr("0"));
      if fault || OffsetWithoutLimit(limit, offset) {
        resp := Response(500, Failure(500, "Failed to fetch todos"));
      } else {
        selected := Page(selected, limit, offset);
        resp := Response(200, Payload(Envelope(200, "success", selected)));
      }
    }

    /** `createTodo`: 400 unless the body binds, otherwise a new row with a fresh id, 201. */
    method CreateTodo(body: Body, now: nat, fault: bool) returns (resp: Response<Envelope<Todo>>)
      requires Valid()
      modifies this
      ensures Valid()
      ensures !Binds(body) ==> resp == Response(400, Failure(400, "Invalid input")) && unchanged(this)
      ensures Binds(body) && (fault || body.todo.id in Ids(old(rows))) ==>
        resp == Response(500, Failure(500, "Failed to create todo")) && unchanged(this)
      ensures Binds(body) && !fault && body.todo.id !in Ids(old(rows)) ==>
        var created := Inserted(body.todo, AssignedId(body.todo, old(nextId)), now);
        && created.id > 0 && created.id !in Ids(old(rows))
        && rows == old(rows) + [created]
        && nextId == (if created.id + 1 > old(nextId) then created.id + 1 else old(nextId))
        && resp == Response(201, Payload(Envelope(201, "Todo created successfully", created)))
    {
      if !Binds(body) {
        return Response(400, Failure(400, "Invalid input"));
      }
      var todo := body.todo;
      if fault || todo.id in Ids(rows) {
        // a database error, or a duplicate primary key supplied by the client
        return Response(500, Failure(500, "Failed to create todo"));
      }
      var id := AssignedId(todo, nextId);
      var created := Inserted(todo, id, now);
      assert forall t :: t in rows ==> t.id != id;
      rows := rows + [created];
      nextId := if id + 1 > nextId then id + 1 else nextId;
      resp := Response(201, Payload(Envelope(201, "Todo created successfully", created)));
    }

    /**
      `updateTodo`: 404 for a missing id or a failing lookup, then 400 for a
      body that does not bind, else merge the non-zero fields.
    */
    method UpdateTodo(id: nat, body: Body, now: nat, lookupFault: bool, fault: bool) returns (resp: Response<Envelope<Todo>>)
      requires Valid()
      modifies this
      ensures Valid()
      ensures lookupFault || id !in Ids(old(rows)) ==>
        resp == Response(404, Failure(404, "Todo not found")) && unchanged(this)
      ensures !lookupFault && id in Ids(old(rows)) && !Binds(body) ==>
        resp == Response(400, Failure(400, "Invalid input")) && unchanged(this)
      ensures !lookupFault && id in Ids(old(rows)) && Binds(body) && fault ==>
        resp == Response(500, Failure(500, "Failed to update todo")) && unchanged(this)
      ensures !lookupFault && id in Ids(old(rows)) && Binds(body) && !fault ==>
        var updated := Merge(Lookup(old(rows), id).value, body.todo, now);
        && rows == ReplaceById(old(rows), id, updated)
        && nextId == old(nextId)
        && resp == Response(200, Payload(Envelope(200, "Todo updated successfully", updated)))
    {
      var found := Lookup(rows, id);
      if lookupFault || found.None? {
        return Response(404, Failure(404, "Todo not found"));
      }
      if !Binds(body) {
        return Response(400, Failure(400, "Invalid input"));
      }
      if fault {
        return Response(500, Failure(500, "Failed to update todo"));
      }
      var updated := Merge(found.value, body.todo, now);
      ReplaceKeepsUnique(rows, id, updated);
      rows := ReplaceById(rows, id, updated);
      resp := Response(200, Payload(Envelope(200, "Todo updated successfully", updated)));
    }

    /** `deleteTodo`: 404 for a missing id or a failing lookup, else the row is gone. */
    method DeleteTodo(id: nat, lookupFault: bool, fault: bool) returns (resp: Response<Ack>)
      requires Valid()
      modifies this
      ensures Valid()
      ensures lookupFault || id !in Ids(old(rows)) ==>
        resp == Response(404, Failure(404, "Todo not found")) && unchanged(this)
      ensures !lookupFault && id in Ids(old(rows)) && fault ==>
        resp == Response(500, Failure(500, "Failed to delete todo")) && unchanged(this)
      ensures !lookupFault && id in Ids(old(rows)) && !fault ==>
        && rows == WithoutId(old(rows), id)
        && |rows| == |old(rows)| - 1
        && nextId == old(nextId)
        && resp == Response(200, Payload(Ack(200, "Todo deleted successfully", None)))
    {
      if lookupFault || Lookup(rows, id).None? {
        return Response(404, Failure(404, "Todo not found"));
      }
      if fault {
        return Response(500, Failure(500, "Failed to delete todo"));
      }
      WithoutPresentId(rows, id);
      WhereKeepsUnique(rows, (t: Todo) => t.id != id);
      rows := WithoutId(rows, id);
      resp := Response(200, Payload(Ack(200, "Todo deleted successfully", None)));
    }

    /** `toggleTodoStatus`: 404 for a missing id or a failing lookup, else the row's flag is negated. */
    method ToggleTodoStatus(id: nat, now: nat, lookupFault: bool, fault: bool) returns (resp: Response<Envelope<ToggleInfo>>)
      requires Valid()
      modifies this
      ensures Valid()
      ensures lookupFault || id !in Ids(old(rows)) ==>
        resp == Response(404, Failure(404, "Todo not found")) && unchanged(this)
      ensures !lookupFault && id in Ids(old(rows)) && fault ==>
        resp == Response(500, Failure(500, "Failed to toggle todo status")) && unchanged(this)
      ensures !lookupFault && id in Ids(old(rows)) && !fault ==>
        var toggled := Flip(Lookup(old(rows), id).value, now);
        && rows == ReplaceById(old(rows), id, toggled)
        && nextId == old(nextId)
        && resp == Response(200, Payload(Envelope(200, "Todo status toggled successfully",
                                                  ToggleInfo(id, toggled.completed, now))))
    {
      var found := Lookup(rows, id);
      if lookupFault || found.None? {
        return Response(404, Failure(404, "Todo not found"));
      }
      var todo := found.value;
      todo := todo.(completed := !todo.completed);
      todo := todo.(updatedAt := now);
      if fault {
        return Response(500, Failure(500, "Failed to toggle todo status"));
      }
      ReplaceKeepsUnique(rows, id, todo);
      rows := ReplaceById(rows, id, todo);
      resp := Response(200, Payload(Envelope(200, "Todo status toggled successfully",
                                             ToggleInfo(todo.id, todo.completed, todo.updatedAt))));
    }

    /** `deleteCompletedTodos`: every completed row goes, every other row stays, and the count is reported. */
    method DeleteCompletedTodos(fault: bool) returns (resp: Response<Ack>)
      requires Valid()
      modifies this
      ensures Valid()
      ensures fault ==> resp == Response(500, Failure(500, "Failed to delete completed todos")) && unchanged(this)
      ensures !fault ==>
        && rows == WithCompleted(old(rows), false)
        && nextId == old(nextId)
        && resp == Response(200, Payload(Ack(200, "Completed todos deleted successfully",
                                             Some(|old(rows)| - |rows|))))
        && |old(rows)| - |rows| == |WithCompleted(old(rows), true)|
    {
      if fault {
        return Response(500, Failure(500, "Failed to delete completed todos"));
      }
      var removed := WithCompleted(rows, true);
      Seqs.WherePartition(rows, (t: Todo) => t.completed == true, (t: Todo) => t.completed == false);
      WhereKeepsUnique(rows, (t: Todo) => t.completed == false);
      rows := WithCompleted(rows, false);
      resp := Response(200, Payload(Ack(200, "Completed todos deleted successfully", Some(|removed|))));
    }

    /** `deleteAllTodos`: the table is emptied and the number of deleted rows reported. */
    method DeleteAllTodos(fault: bool) returns (resp: Response<Ack>)
      requires Valid()
      modifies this
      ensures Valid()
      ensures fault ==> resp == Response(500, Failure(500, "Failed to delete all todos")) && unchanged(this)
      ensures !fault ==>
        && rows == []
        && nextId == old(nextId)
        && resp == Response(200, Payload(Ack(200, "All todos deleted successfully", Some(|old(rows)|))))
    {
      if fault {
        return Response(500, Failure(500, "Failed to delete all todos"));
      }
      var count := |rows|;
      rows := [];
      resp := Response(200, Payload(Ack(200, "All todos deleted successfully", Some(count))));
    }
  }
}
