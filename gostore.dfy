/**
  The state of the Go application's `App` component: the list of todos shown
  and the selected filter ("all", "incomplete" or "completed"). Each handler
  awaits one request builder and then reconciles the list; a thrown error is
  only logged, so the list stays as it was. The replies the server sends are
  parameters, and each handler returns the requests it sent, in order.
*/
module GoStore {
  import opened Wrappers
  import opened Http
  import opened GoTodo
  import GoApi

  class TaskStore {
    var todos: seq<Todo>
    var filter: string

    /** `useState([])` and `useState('all')`. */
    constructor ()
      ensures todos == [] && filter == "all"
    {
      todos := [];
      filter := "all";
    }

    /** `fetchTodos`: the whole list is replaced by the server's rows for the current filter. */
    method FetchTodos(reply: Reply<GoApi.Envelope<seq<Todo>>>) returns (sent: Request<Draft>)
      modifies this
      ensures sent == Request(GET, [Lit("todos")], GoApi.ListQuery(filter), None)
      ensures filter == old(filter)
      ensures IsOk(reply.status) ==> todos == reply.body.data
      ensures !IsOk(reply.status) ==> todos == old(todos)
    {
      var x := GoApi.GetTodos(filter, reply);
      sent := x.request;
      if x.outcome.Ok? {
        todos := x.outcome.value;
      }
    }

    /**
      `setFilter` followed by the effect on `[filter]`: the list is reloaded
      with the new filter when the value changed, and nothing is sent otherwise.
    */
    method SetFilter(f: string, reply: Reply<GoApi.Envelope<seq<Todo>>>) returns (sent: seq<Request<Draft>>)
      modifies this
      ensures filter == f
      ensures f == old(filter) ==> sent == [] && todos == old(todos)
      ensures f != old(filter) ==> sent == [Request(GET, [Lit("todos")], GoApi.ListQuery(f), None)]
      ensures f != old(filter) && IsOk(reply.status) ==> todos == reply.body.data
      ensures f != old(filter) && !IsOk(reply.status) ==> todos == old(todos)
    {
      if f == filter {
        return [];
      }
      filter := f;
      var request := FetchTodos(reply);
      sent := [request];
    }

    /** `handleAddTodo`: the server's record is appended at the end. */
    method AddTodo(todo: Draft, reply: Reply<GoApi.Envelope<Todo>>) returns (sent: Request<Draft>)
      modifies this
      ensures sent == Request(POST, [Lit("todos")], [], Some(todo))
      ensures filter == old(filter)
      ensures IsOk(reply.status) ==> todos == old(todos) + [reply.body.data] && |todos| == |old(todos)| + 1
      ensures !IsOk(reply.status) ==> todos == old(todos)
    {
      var x := GoApi.CreateTodo(todo, reply);
      sent := x.request;
      if x.outcome.Ok? {
        var newTodo := x.outcome.value;
        todos := todos + [newTodo];
      }
    }

    /** `handleUpdateTodo`: the element with the id is replaced by the server's record, all others stay in place. */
    method UpdateTodo(id: nat, updatedFields: Draft, reply: Reply<GoApi.Envelope<Todo>>) returns (sent: Request<Draft>)
      modifies this
      ensures sent == Request(PUT, [Lit("todos"), Num(id)], [], Some(updatedFields))
      ensures filter == old(filter)
      ensures IsOk(reply.status) ==> todos == ReplaceById(old(todos), id, reply.body.data)
      ensures IsOk(reply.status) ==> |todos| == |old(todos)|
      ensures IsOk(reply.status) ==>
        forall i :: 0 <= i < |todos| ==> todos[i] == (if old(todos)[i].id == id then reply.body.data else old(todos)[i])
      ensures !IsOk(reply.status) ==> todos == old(todos)
    {
      var x := GoApi.UpdateTodo(id, updatedFields, reply);
      sent := x.request;
      if x.outcome.Ok? {
        var updatedTodo := x.outcome.value;
        todos := ReplaceById(todos, id, updatedTodo);
      }
    }

    /** `handleDeleteTodo`: exactly the elements with other ids remain, in order. */
    method DeleteTodo(id: nat, reply: Reply<GoApi.Ack>) returns (sent: Request<Draft>)
      modifies this
      ensures sent == Request(DELETE, [Lit("todos"), Num(id)], [], None)
      ensures filter == old(filter)
      ensures IsOk(reply.status) ==> todos == WithoutId(old(todos), id)
      ensures IsOk(reply.status) ==> id !in Ids(todos) && forall t :: t in todos <==> t in old(todos) && t.id != id
      ensures IsOk(reply.status) && UniqueIds(old(todos)) && id in Ids(old(todos)) ==> |todos| == |old(todos)| - 1
      ensures !IsOk(reply.status) ==> todos == old(todos)
    {
      var x := GoApi.DeleteTodo(id, reply);
      sent := x.request;
      if x.outcome.Ok? {
        if UniqueIds(todos) && id in Ids(todos) {
          WithoutPresentId(todos, id);
        }
        todos := WithoutId(todos, id);
      }
    }

    /**
      `handleToggleTodoStatus`: the list is never edited locally; after a
      successful toggle it is reloaded with the current filter.
    */
    method ToggleTodoStatus(id: nat, toggleReply: Reply<GoApi.Envelope<GoApi.ToggleInfo>>,
                            listReply: Reply<GoApi.Envelope<seq<Todo>>>) returns (sent: seq<Request<Draft>>)
      modifies this
      ensures filter == old(filter)
      ensures !IsOk(toggleReply.status) ==>
        sent == [Request(PATCH, [Lit("todos"), Num(id), Lit("toggle")], [], None)] && todos == old(todos)
      ensures IsOk(toggleReply.status) ==>
        sent == [Request(PATCH, [Lit("todos"), Num(id), Lit("toggle")], [], None),
                 Request(GET, [Lit("todos")], GoApi.ListQuery(filter), None)]
      ensures IsOk(toggleReply.status) ==> todos == (if IsOk(listReply.status) then listReply.body.data else old(todos))
    {
      var x := GoApi.ToggleTodoStatus(id, toggleReply);
      sent := [x.request];
      if x.outcome.Ok? {
        var reload := FetchTodos(listReply);
        sent := sent + [reload];
      }
    }

    /** `handleClearCompleted`: as toggle, a successful request is followed by a reload. */
    method ClearCompleted(clearReply: Reply<GoApi.Ack>, listReply: Reply<GoApi.Envelope<seq<Todo>>>)
      returns (sent: seq<Request<Draft>>)
      modifies this
      ensures filter == old(filter)
      ensures !IsOk(clearReply.status) ==>
        sent == [Request(DELETE, [Lit("todos"), Lit("completed")], [], None)] && todos == old(todos)
      ensures IsOk(clearReply.status) ==>
        sent == [Request(DELETE, [Lit("todos"), Lit("completed")], [], None),
                 Request(GET, [Lit("todos")], GoApi.ListQuery(filter), None)]
      ensures IsOk(clearReply.status) ==> todos == (if IsOk(listReply.status) then listReply.body.data else old(todos))
    {
      var x := GoApi.ClearCompletedTodos(clearReply);
      sent := [x.request];
      if x.outcome.Ok? {
        var reload := FetchTodos(listReply);
        sent := sent + [reload];
      }
    }

    /** `handleClearAll`: a successful request empties the list, whatever it held. */
    method ClearAll(reply: Reply<GoApi.Ack>) returns (sent: Request<Draft>)
      modifies this
      ensures sent == Request(DELETE, [Lit("todos"), Lit("all")], [], None)
      ensures filter == old(filter)
      ensures IsOk(reply.status) ==> todos == []
      ensures !IsOk(reply.status) ==> todos == old(todos)
    {
      var x := GoApi.ClearAllTodos(reply);
      sent := x.request;
      if x.outcome.Ok? {
        todos := [];
      }
    }
  }
}
