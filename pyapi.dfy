/**
  The request builders of the Python application's React client (`api.js`).
  Each builder gives the request sent and either the reply body, returned as
  is, or the message of the error thrown when the status is not 2xx. Create
  and update send the object they are given, unchanged, as the JSON body.
*/
module PyApi {
  import opened Wrappers
  import opened Http
  import PyModels
  import PyBackend

  type Object = PyModels.Object

  /** Throw `message` unless the status is ok, otherwise return the body. */
  function Settle<R>(reply: Reply<R>, message: string): (r: Result<R, string>)
    ensures r.Ok? <==> IsOk(reply.status)
    ensures r.Ok? ==> r.value == reply.body
    ensures r.Err? ==> r.error == message
  {
    if IsOk(reply.status) then Ok(reply.body) else Err(message)
  }

  /** `?status=${status}`: always present; the backend reads back exactly the status sent. */
  function ListQuery(status: string): (q: Query)
    ensures |q| == 1
    ensures PyBackend.StatusOf(q) == status
  {
    [("status", status)]
  }

  /** `getTodos()` without an argument asks for every row. */
  lemma DefaultStatusListsAll(rows: seq<PyModels.Todo>)
    ensures PyBackend.Selected(rows, PyBackend.StatusOf(ListQuery("all"))) == rows
  {
  }

  function GetTodos<R>(status: string, reply: Reply<R>): (x: Exchange<Object, R>)
    ensures x.request == Request(GET, [Lit("todos")], ListQuery(status), None)
    ensures PyBackend.Route(x.request.verb, x.request.path) == Some(PyBackend.ReadTodos)
    ensures x.outcome.Ok? <==> IsOk(reply.status)
    ensures x.outcome.Ok? ==> x.outcome.value == reply.body
    ensures x.outcome.Err? ==> x.outcome.error == "Failed to fetch todos"
  {
    Exchange(Request(GET, [Lit("todos")], ListQuery(status), None), Settle(reply, "Failed to fetch todos"))
  }

  function CreateTodo<R>(todo: Object, reply: Reply<R>): (x: Exchange<Object, R>)
    ensures x.request == Request(POST, [Lit("todos")], [], Some(todo))
    ensures PyBackend.Route(x.request.verb, x.request.path) == Some(PyBackend.CreateTodo)
    ensures x.outcome.Ok? <==> IsOk(reply.status)
    ensures x.outcome.Ok? ==> x.outcome.value == reply.body
    ensures x.outcome.Err? ==> x.outcome.error == "Failed to create todo"
  {
    Exchange(Request(POST, [Lit("todos")], [], Some(todo)), Settle(reply, "Failed to create todo"))
  }

  function UpdateTodo<R>(id: nat, updatedFields: Object, reply: Reply<R>): (x: Exchange<Object, R>)
    ensures x.request == Request(PUT, [Lit("todos"), Num(id)], [], Some(updatedFields))
    ensures PyBackend.Route(x.request.verb, x.request.path) == Some(PyBackend.UpdateTodo(Num(id)))
    ensures x.outcome.Ok? <==> IsOk(reply.status)
    ensures x.outcome.Ok? ==> x.outcome.value == reply.body
    ensures x.outcome.Err? ==> x.outcome.error == "Failed to update todo"
  {
    Exchange(Request(PUT, [Lit("todos"), Num(id)], [], Some(updatedFields)), Settle(reply, "Failed to update todo"))
  }

  function DeleteTodo<R>(id: nat, reply: Reply<R>): (x: Exchange<Object, R>)
    ensures x.request == Request(DELETE, [Lit("todos"), Num(id)], [], None)
    ensures PyBackend.Route(x.request.verb, x.request.path) == Some(PyBackend.DeleteTodo(Num(id)))
    ensures x.outcome.Ok? <==> IsOk(reply.status)
    ensures x.outcome.Ok? ==> x.outcome.value == reply.body
    ensures x.outcome.Err? ==> x.outcome.error == "Failed to delete todo"
  {
    Exchange(Request(DELETE, [Lit("todos"), Num(id)], [], None), Settle(reply, "Failed to delete todo"))
  }

  /**
    `PUT /todos/clear-completed`. The backend as declared routes it to the
    update handler; only with the static route first does it reach
    clear-completed.
  */
  function ClearCompletedTodos<R>(reply: Reply<R>): (x: Exchange<Object, R>)
    ensures x.request == Request(PUT, [Lit("todos"), Lit("clear-completed")], [], None)
    ensures PyBackend.Route(x.request.verb, x.request.path) == Some(PyBackend.UpdateTodo(Lit("clear-completed")))
    ensures PyBackend.RouteStaticFirst(x.request.verb, x.request.path) == Some(PyBackend.ClearCompletedTodos)
    ensures x.outcome.Ok? <==> IsOk(reply.status)
    ensures x.outcome.Ok? ==> x.outcome.value == reply.body
    ensures x.outcome.Err? ==> x.outcome.error == "Failed to clear completed todos"
  {
    Exchange(Request(PUT, [Lit("todos"), Lit("clear-completed")], [], None),
             Settle(reply, "Failed to clear completed todos"))
  }

  /** `DELETE /todos` with no id. */
  function ClearAllTodos<R>(reply: Reply<R>): (x: Exchange<Object, R>)
    ensures x.request == Request(DELETE, [Lit("todos")], [], None)
    ensures PyBackend.Route(x.request.verb, x.request.path) == Some(PyBackend.ClearAllTodos)
    ensures x.outcome.Ok? <==> IsOk(reply.status)
    ensures x.outcome.Ok? ==> x.outcome.value == reply.body
    ensures x.outcome.Err? ==> x.outcome.error == "Failed to clear all todos"
  {
    Exchange(Request(DELETE, [Lit("todos")], [], None), Settle(reply, "Failed to clear all todos"))
  }
}
