/**
  The request builders of the Go application's React client (`api.js`).

  Each builder is a function of its arguments and of the reply `fetch`
  resolves to: it gives the request sent and either the value returned or the
  message of the error thrown when the status is not 2xx. List, create, update
  and toggle return the `data` field of the envelope; delete and the two bulk
  deletes return the whole body. The body of a reply that is not ok is never
  read.
*/
module GoApi {
  import opened Wrappers
  import opened Http
  import opened GoTodo
  import GoBackend

  type Envelope<T> = GoBackend.Envelope<T>
  type Ack = GoBackend.Ack
  type ToggleInfo = GoBackend.ToggleInfo

  /** Throw `message` unless the status is ok, otherwise return `value`. */
  function Settle<T>(status: int, value: T, message: string): (r: Result<T, string>)
    ensures r.Ok? <==> IsOk(status)
    ensures r.Ok? ==> r.value == value
    ensures r.Err? ==> r.error == message
  {
    if IsOk(status) then Ok(value) else Err(message)
  }

  /**
    The query `getTodos(filter)` appends: none for "all", otherwise
    `completed=true` for "completed" and `completed=false` for any other filter.
    The backend reads it back as the intended filter.
  */
  function ListQuery(filter: string): (q: Query)
    ensures q == [] <==> filter == "all"
    ensures |q| <= 1
    ensures GoBackend.CompletedFilter(q) == (if filter == "all" then None else Some(filter == "completed"))
  {
    if filter != "all" then
      var completed := filter == "completed";
      [("completed", if completed then "true" else "false")]
    else []
  }

  /** The three filters of the filter buttons reach the backend as no filter, completed only and incomplete only. */
  lemma FilterRoundTrip()
    ensures GoBackend.CompletedFilter(ListQuery("all")).None?
    ensures GoBackend.CompletedFilter(ListQuery("completed")) == Some(true)
    ensures GoBackend.CompletedFilter(ListQuery("incomplete")) == Some(false)
  {
  }

  function GetTodos(filter: string, reply: Reply<Envelope<seq<Todo>>>): (x: Exchange<Draft, seq<Todo>>)
    ensures x.request == Request(GET, [Lit("todos")], ListQuery(filter), None)
    ensures GoBackend.Route(x.request.verb, x.request.path) == Some(GoBackend.List)
    ensures x.outcome.Ok? <==> IsOk(reply.status)
    ensures x.outcome.Ok? ==> x.outcome.value == reply.body.data
    ensures x.outcome.Err? ==> x.outcome.error == "Failed to fetch todos"
  {
    Exchange(Request(GET, [Lit("todos")], ListQuery(filter), None),
             Settle(reply.status, reply.body.data, "Failed to fetch todos"))
  }

  function CreateTodo(todo: Draft, reply: Reply<Envelope<Todo>>): (x: Exchange<Draft, Todo>)
    ensures x.request == Request(POST, [Lit("todos")], [], Some(todo))
    ensures GoBackend.Route(x.request.verb, x.request.path) == Some(GoBackend.Create)
    ensures x.outcome.Ok? <==> IsOk(reply.status)
    ensures x.outcome.Ok? ==> x.outcome.value == reply.body.data
    ensures x.outcome.Err? ==> x.outcome.error == "Failed to create todo"
  {
    Exchange(Request(POST, [Lit("todos")], [], Some(todo)),
             Settle(reply.status, reply.body.data, "Failed to create todo"))
  }

  function UpdateTodo(id: nat, updatedFields: Draft, reply: Reply<Envelope<Todo>>): (x: Exchange<Draft, Todo>)
    ensures x.request == Request(PUT, [Lit("todos"), Num(id)], [], Some(updatedFields))
    ensures GoBackend.Route(x.request.verb, x.request.path) == Some(GoBackend.Update(id))
    ensures x.outcome.Ok? <==> IsOk(reply.status)
    ensures x.outcome.Ok? ==> x.outcome.value == reply.body.data
    ensures x.outcome.Err? ==> x.outcome.error == "Failed to update todo"
  {
    Exchange(Request(PUT, [Lit("todos"), Num(id)], [], Some(updatedFields)),
             Settle(reply.status, reply.body.data, "Failed to update todo"))
  }

  function DeleteTodo(id: nat, reply: Reply<Ack>): (x: Exchange<Draft, Ack>)
    ensures x.request == Request(DELETE, [Lit("todos"), Num(id)], [], None)
    ensures GoBackend.Route(x.request.verb, x.request.path) == Some(GoBackend.Delete(id))
    ensures x.outcome.Ok? <==> IsOk(reply.status)
    ensures x.outcome.Ok? ==> x.outcome.value == reply.body
    ensures x.outcome.Err? ==> x.outcome.error == "Failed to delete todo"
  {
    Exchange(Request(DELETE, [Lit("todos"), Num(id)], [], None),
             Settle(reply.status, reply.body, "Failed to delete todo"))
  }

  function ToggleTodoStatus(id: nat, reply: Reply<Envelope<ToggleInfo>>): (x: Exchange<Draft, ToggleInfo>)
    ensures x.request == Request(PATCH, [Lit("todos"), Num(id), Lit("toggle")], [], None)
    ensures GoBackend.Route(x.request.verb, x.request.path) == Some(GoBackend.Toggle(id))
    ensures x.outcome.Ok? <==> IsOk(reply.status)
    ensures x.outcome.Ok? ==> x.outcome.value == reply.body.data
    ensures x.outcome.Err? ==> x.outcome.error == "Failed to toggle todo status"
  {
    Exchange(Request(PATCH, [Lit("todos"), Num(id), Lit("toggle")], [], None),
             Settle(reply.status, reply.body.data, "Failed to toggle todo status"))
  }

  function ClearCompletedTodos(reply: Reply<Ack>): (x: Exchange<Draft, Ack>)
    ensures x.request == Request(DELETE, [Lit("todos"), Lit("completed")], [], None)
    ensures GoBackend.Route(x.request.verb, x.request.path) == Some(GoBackend.DeleteCompleted)
    ensures x.outcome.Ok? <==> IsOk(reply.status)
    ensures x.outcome.Ok? ==> x.outcome.value == reply.body
    ensures x.outcome.Err? ==> x.outcome.error == "Failed to clear completed todos"
  {
    Exchange(Request(DELETE, [Lit("todos"), Lit("completed")], [], None),
             Settle(reply.status, reply.body, "Failed to clear completed todos"))
  }

  function ClearAllTodos(reply: Reply<Ack>): (x: Exchange<Draft, Ack>)
    ensures x.request == Request(DELETE, [Lit("todos"), Lit("all")], [], None)
    ensures GoBackend.Route(x.request.verb, x.request.path) == Some(GoBackend.DeleteAll)
    ensures x.outcome.Ok? <==> IsOk(reply.status)
    ensures x.outcome.Ok? ==> x.outcome.value == reply.body
    ensures x.outcome.Err? ==> x.outcome.error == "Failed to clear all todos"
  {
    Exchange(Request(DELETE, [Lit("todos"), Lit("all")], [], None),
             Settle(reply.status, reply.body, "Failed to clear all todos"))
  }
}
