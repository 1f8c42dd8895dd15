/**
  The FastAPI handlers of the Python backend (`main.py`) over an abstract
  `todos` table: a sequence of rows in insertion order with unique ids. The
  id the database assigns to a new row is modelled as a counter above every
  id it has issued.
*/
module PyBackend {
  import opened Wrappers
  import opened Http
  import opened PyModels
  import Seqs

  /** A JSON response body. */
  datatype PyBody =
    | Rows(todos: seq<Todo>)
    | Record(todo: Todo)
    | Said(message: string)
    | Detail(detail: string)
    | Unprocessable

  datatype Response = Response(status: int, body: PyBody)

  /** The handler a request reaches; an id path segment is kept as sent, since FastAPI validates it only after matching. */
  datatype Endpoint =
    | ReadTodos
    | CreateTodo
    | UpdateTodo(target: Segment)
    | DeleteTodo(target: Segment)
    | ClearCompletedTodos
    | ClearAllTodos

  /**
    Starlette's router as the routes are declared: the first route whose path
    pattern and method match wins, and `{todo_id}` matches any one segment.
  */
  function Route(verb: Method, path: seq<Segment>): (r: Option<Endpoint>)
    ensures r.Some? ==> |path| in {1, 2} && path[0] == Lit("todos")
  {
    if path == [Lit("todos")] then
      if verb == GET then Some(ReadTodos)
      else if verb == POST then Some(CreateTodo)
      else if verb == DELETE then Some(ClearAllTodos)
      else None
    else if |path| == 2 && path[0] == Lit("todos") then
      if verb == PUT then Some(UpdateTodo(path[1]))
      else if verb == DELETE then Some(DeleteTodo(path[1]))
      else None
    else None
  }

  /** The clear-completed request never reaches its handler: the update route, declared first, takes it. */
  lemma ClearCompletedShadowed()
    ensures Route(PUT, [Lit("todos"), Lit("clear-completed")]) == Some(UpdateTodo(Lit("clear-completed")))
    ensures forall verb, path :: Route(verb, path) != Some(ClearCompletedTodos)
  {
  }

  /** The router with the static `clear-completed` route tried before the `{todo_id}` route. */
  function RouteStaticFirst(verb: Method, path: seq<Segment>): (r: Option<Endpoint>)
    ensures verb == PUT && path == [Lit("todos"), Lit("clear-completed")] ==> r == Some(ClearCompletedTodos)
    ensures !(verb == PUT && path == [Lit("todos"), Lit("clear-completed")]) ==> r == Route(verb, path)
  {
    if verb == PUT && path == [Lit("todos"), Lit("clear-completed")] then Some(ClearCompletedTodos)
    else Route(verb, path)
  }

  /** `status: Optional[str] = "all"`: the last `status` value given, or "all". */
  function StatusOf(q: Query): (status: string)
    ensures LastValue(q, "status").None? ==> status == "all"
    ensures LastValue(q, "status").Some? ==> status == LastValue(q, "status").value
  {
    LastValue(q, "status").GetOr("all")
  }

  function IsDone(): Todo -> bool { (t: Todo) => t.completed }
  function IsOpen(): Todo -> bool { (t: Todo) => !t.completed }

  /** The rows `read_todos` selects for a status, in table order. */
  function Selected(rows: seq<Todo>, status: string): (r: seq<Todo>)
    ensures status == "completed" ==> forall t :: t in r <==> t in rows && t.completed
    ensures status == "incomplete" ==> forall t :: t in r <==> t in rows && !t.completed
    ensures status != "completed" && status != "incomplete" ==> r == rows
  {
    if status == "completed" then Seqs.Where(rows, IsDone())
    else if status == "incomplete" then Seqs.Where(rows, IsOpen())
    else rows
  }

  /** The completed and the incomplete selections split the table between them. */
  lemma SelectionsPartition(rows: seq<Todo>)
    ensures |Selected(rows, "completed")| + |Selected(rows, "incomplete")| == |rows|
  {
    Seqs.WherePartition(rows, IsDone(), IsOpen());
  }

  function Ids(s: seq<Todo>): (r: set<nat>)
    ensures forall t :: t in s ==> t.id in r
    ensures forall id :: id in r ==> exists t :: t in s && t.id == id
  {
    set t | t in s :: t.id
  }

  predicate UniqueIds(s: seq<Todo>) {
    forall i, j :: 0 <= i < j < |s| ==> s[i].id != s[j].id
  }

  /** The first row with the id (`.filter(Todo.id == todo_id).first()`). */
  function Find(s: seq<Todo>, id: nat): (r: Option<Todo>)
    ensures r.None? <==> id !in Ids(s)
    ensures r.Some? ==> r.value in s && r.value.id == id
  {
    if s == [] then None
    else if s[0].id == id then Some(s[0])
    else
      assert forall t :: t in s ==> t == s[0] || t in s[1..];
      Find(s[1..], id)
  }

  function IdNot(id: nat): Todo -> bool { (t: Todo) => t.id != id }
  function IdOutside(ids: set<nat>): Todo -> bool { (t: Todo) => t.id !in ids }

  /** The table after `db.delete` of the row with the id. */
  function WithoutId(s: seq<Todo>, id: nat): (r: seq<Todo>)
    ensures forall t :: t in r <==> t in s && t.id != id
  {
    Seqs.Where(s, IdNot(id))
  }

  /** `db_todo.title = todo.title; db_todo.completed = todo.completed`: both fields overwritten, the id kept. */
  function Overwrite(row: Todo, u: TodoUpdate): (r: Todo)
    ensures r.id == row.id && r.title == u.title && r.completed == u.completed
  {
    row.(title := u.title, completed := u.completed)
  }

  /** The table with the row of the given id overwritten by the update. */
  function Updated(s: seq<Todo>, id: nat, u: TodoUpdate): (r: seq<Todo>)
    ensures |r| == |s|
    ensures forall i :: 0 <= i < |s| && s[i].id == id ==> r[i] == Overwrite(s[i], u)
    ensures forall i :: 0 <= i < |s| && s[i].id != id ==> r[i] == s[i]
  {
    Seqs.MapWhere(s, (t: Todo) => t.id == id, (t: Todo) => Overwrite(t, u))
  }

  /** Tables whose ids agree row by row have the same id set, and one has unique ids when the other has. */
  lemma SameIdsPointwise(s: seq<Todo>, r: seq<Todo>)
    requires |r| == |s| && forall i :: 0 <= i < |s| ==> r[i].id == s[i].id
    ensures Ids(r) == Ids(s)
    ensures UniqueIds(s) ==> UniqueIds(r)
  {
    forall x | x in Ids(r) ensures x in Ids(s) {
      var t :| t in r && t.id == x;
      var k :| 0 <= k < |r| && r[k] == t;
      assert s[k] in s;
    }
    forall x | x in Ids(s) ensures x in Ids(r) {
      var t :| t in s && t.id == x;
      var k :| 0 <= k < |s| && s[k] == t;
      assert r[k] in r;
    }
  }

  lemma UpdatedKeepsIds(s: seq<Todo>, id: nat, u: TodoUpdate)
    requires UniqueIds(s)
    ensures UniqueIds(Updated(s, id, u)) && Ids(Updated(s, id, u)) == Ids(s)
  {
    var r := Updated(s, id, u);
    assert forall i :: 0 <= i < |s| ==> r[i].id == s[i].id;
    SameIdsPointwise(s, r);
  }

  lemma {:induction false} WhereKeepsUnique(s: seq<Todo>, keep: Todo -> bool)
    requires UniqueIds(s)
    ensures UniqueIds(Seqs.Where(s, keep))
  {
    if s != [] {
      var tail := s[1..];
      assert UniqueIds(tail) by {
        forall i, j | 0 <= i < j < |tail| ensures tail[i].id != tail[j].id {
          assert tail[i] == s[i + 1] && tail[j] == s[j + 1];
        }
      }
      WhereKeepsUnique(tail, keep);
      var rest := Seqs.Where(tail, keep);
      assert forall t :: t in rest ==> t.id != s[0].id by {
        forall t | t in rest ensures t.id != s[0].id {
          var k :| 0 <= k < |tail| && tail[k] == t;
          assert s[k + 1] == t;
        }
      }
    }
  }

  /** In a table with unique ids, two rows with the same id are the same row. */
  lemma SameIdSameRow(s: seq<Todo>, a: Todo, b: Todo)
    requires UniqueIds(s) && a in s && b in s && a.id == b.id
    ensures a == b
  {
    var i :| 0 <= i < |s| && s[i] == a;
    var j :| 0 <= j < |s| && s[j] == b;
    assert i == j;
  }

  /**
    Deleting the rows whose ids are those of the completed rows leaves exactly
    the incomplete rows, in order: no incomplete row shares an id with a
    completed one.
  */
  lemma DeletingDoneIds(s: seq<Todo>)
    requires UniqueIds(s)
    ensures Seqs.Where(s, IdOutside(Ids(Seqs.Where(s, IsDone())))) == Seqs.Where(s, IsOpen())
  {
    var done := Seqs.Where(s, IsDone());
    forall x | x in s
      ensures IdOutside(Ids(done))(x) == IsOpen()(x)
    {
      if x.completed {
        assert x in done;
      } else if x.id in Ids(done) {
        var d :| d in done && d.id == x.id;
        SameIdSameRow(s, d, x);
      }
    }
    Seqs.WhereSame(s, IdOutside(Ids(done)), IsOpen());
  }

  /** One more pass of the clear-completed loop: deleting the i-th selected row extends the deleted prefix by one. */
  lemma DeleteOneMore(s: seq<Todo>, doomed: seq<Todo>, i: nat)
    requires i < |doomed|
    ensures Seqs.Where(Seqs.Where(s, IdOutside(Ids(doomed[..i]))), IdNot(doomed[i].id))
         == Seqs.Where(s, IdOutside(Ids(doomed[..i + 1])))
  {
    assert Ids(doomed[..i + 1]) == Ids(doomed[..i]) + {doomed[i].id} by {
      assert doomed[..i + 1] == doomed[..i] + [doomed[i]];
    }
    Seqs.WhereWhere(s, IdOutside(Ids(doomed[..i])), IdNot(doomed[i].id), IdOutside(Ids(doomed[..i + 1])));
  }

  /** What the clear-completed loop leaves is the incomplete rows, and the table invariant still holds. */
  lemma ClearedRows(s: seq<Todo>, nextId: nat)
    requires UniqueIds(s) && forall t :: t in s ==> 0 < t.id < nextId
    ensures var r := Seqs.Where(s, IdOutside(Ids(Seqs.Where(s, IsDone()))));
      && r == Selected(s, "incomplete")
      && UniqueIds(r) && forall t :: t in r ==> 0 < t.id < nextId
  {
    DeletingDoneIds(s);
    WhereKeepsUnique(s, IsOpen());
  }

  /** The todos table. */
  class Table {
    var rows: seq<Todo>
    var nextId: nat

    ghost predicate Valid()
      reads this
    {
      0 < nextId && UniqueIds(rows) && forall t :: t in rows ==> 0 < t.id < nextId
    }

    constructor ()
      ensures Valid() && rows == [] && nextId == 1
    {
      rows := [];
      nextId := 1;
    }

    /** `read_todos`: completed rows, incomplete rows, or every row, in table order. */
    method ReadTodos(status: string) returns (resp: Response)
      ensures resp.status == 200 && resp.body.Rows?
      ensures status == "completed" ==> forall t :: t in resp.body.todos <==> t in rows && t.completed
      ensures status == "incomplete" ==> forall t :: t in resp.body.todos <==> t in rows && !t.completed
      ensures status != "completed" && status != "incomplete" ==> resp.body.todos == rows
      ensures resp.body.todos == Selected(rows, status)
    {
      var todos: seq<Todo>;
      if status == "completed" {
        todos := Seqs.Where(rows, IsDone());
      } else if status == "incomplete" {
        todos := Seqs.Where(rows, IsOpen());
      } else {
        todos := rows;
      }
      resp := Response(200, Rows(todos));
    }

    /** `create_todo`: 422 unless the body is a `TodoCreate`, otherwise a new row with a fresh id, 201. */
    method CreateTodo(body: Option<Object>) returns (resp: Response)
      requires Valid()
      modifies this
      ensures Valid()
      ensures ParseCreate(body).None? ==> resp == Response(422, Unprocessable) && unchanged(this)
      ensures ParseCreate(body).Some? ==>
        var created := Todo(old(nextId), ParseCreate(body).value.title, ParseCreate(body).value.completed);
        && created.id !in Ids(old(rows))
        && rows == old(rows) + [created]
        && nextId == old(nextId) + 1
        && resp == Response(201, Record(created))
    {
      var todo := ParseCreate(body);
      if todo.None? {
        return Response(422, Unprocessable);
      }
      var dbTodo := Todo(nextId, todo.value.title, todo.value.completed);
      assert forall t :: t in rows ==> t.id != dbTodo.id;
      rows := rows + [dbTodo];
      nextId := nextId + 1;
      resp := Response(201, Record(dbTodo));
    }

    /**
      `update_todo`: 422 for a body that is not a `TodoUpdate` (validated
      before the handler runs), then 404 for a missing id; otherwise the row's
      title and completed flag are overwritten.
    */
    method UpdateTodo(todoId: nat, body: Option<Object>) returns (resp: Response)
      requires Valid()
      modifies this
      ensures Valid()
      ensures ParseUpdate(body).None? ==> resp == Response(422, Unprocessable) && unchanged(this)
      ensures ParseUpdate(body).Some? && todoId !in Ids(old(rows)) ==>
        resp == Response(404, Detail("Todo not found")) && unchanged(this)
      ensures ParseUpdate(body).Some? && todoId in Ids(old(rows)) ==>
        var updated := Overwrite(Find(old(rows), todoId).value, ParseUpdate(body).value);
        && rows == Updated(old(rows), todoId, ParseUpdate(body).value)
        && nextId == old(nextId)
        && resp == Response(200, Record(updated))
    {
      var todo := ParseUpdate(body);
      if todo.None? {
        return Response(422, Unprocessable);
      }
      var dbTodo := Find(rows, todoId);
      if dbTodo.None? {
        return Response(404, Detail("Todo not found"));
      }
      var updated := Overwrite(dbTodo.value, todo.value);
      UpdatedKeepsIds(rows, todoId, todo.value);
      rows := Updated(rows, todoId, todo.value);
      resp := Response(200, Record(updated));
    }

    /** `delete_todo`: 404 for a missing id, otherwise exactly that row is removed. */
    method DeleteTodo(todoId: nat) returns (resp: Response)
      requires Valid()
      modifies this
      ensures Valid()
      ensures todoId !in Ids(old(rows)) ==> resp == Response(404, Detail("Todo not found")) && unchanged(this)
      ensures todoId in Ids(old(rows)) ==>
        && rows == WithoutId(old(rows), todoId)
        && todoId !in Ids(rows)
        && nextId == old(nextId)
        && resp == Response(200, Said("Todo item deleted successfully"))
    {
      var dbTodo := Find(rows, todoId);
      if dbTodo.None? {
        return Response(404, Detail("Todo not found"));
      }
      WhereKeepsUnique(rows, IdNot(todoId));
      rows := WithoutId(rows, todoId);
      resp := Response(200, Said("Todo item deleted successfully"));
    }

    /**
      `clear_completed_todos`: the completed rows are selected and deleted one
      by one; what remains is exactly the incomplete rows, in order.
    */
    method ClearCompletedTodos() returns (resp: Response)
      requires Valid()
      modifies this
      ensures Valid()
      ensures rows == Selected(old(rows), "incomplete")
      ensures nextId == old(nextId)
      ensures resp == Response(200, Said("Completed todo items cleared successfully"))
    {
      var before := rows;
      var completedTodos := Seqs.Where(rows, IsDone());
      var i := 0;
      assert Ids(completedTodos[..0]) == {};
      Seqs.WhereAll(rows, IdOutside({}));
      while i < |completedTodos|
        invariant 0 <= i <= |completedTodos|
        invariant rows == Seqs.Where(before, IdOutside(Ids(completedTodos[..i])))
        invariant nextId == old(nextId)
      {
        var todo := completedTodos[i];
        DeleteOneMore(before, completedTodos, i);
        rows := WithoutId(rows, todo.id);
        i := i + 1;
      }
      assert completedTodos[..i] == completedTodos;
      ClearedRows(before, nextId);
      resp := Response(200, Said("Completed todo items cleared successfully"));
    }

    /** `clear_all_todos`: the table is emptied. */
    method ClearAllTodos() returns (resp: Response)
      requires Valid()
      modifies this
      ensures Valid()
      ensures rows == [] && nextId == old(nextId)
      ensures resp == Response(200, Said("All todo items cleared successfully"))
    {
      rows := [];
      resp := Response(200, Said("All todo items cleared successfully"));
    }
  }
}
