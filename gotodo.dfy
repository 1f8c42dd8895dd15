/**
  The todo record of the Go application (the `Todo` struct of the backend,
  which is also the JSON object the React client keeps in its list), the draft
  the client's forms send, and the list operations both sides apply to
  sequences of todos.
*/
module GoTodo {
  import opened Wrappers
  import Seqs

  /**
    `Todo` (main.go). The due date is an instant in milliseconds since the Unix
    epoch, UTC (None is JSON null); its RFC 3339 text is not modelled.
    Created/updated times are abstract clock readings.
  */
  datatype Todo = Todo(
    id: nat,
    title: string,
    description: string,
    completed: bool,
    priority: int,
    dueDate: Option<int>,
    createdAt: nat,
    updatedAt: nat)

  /** The object the forms pass to createTodo/updateTodo: `{title, description, priority, due_date}`. */
  datatype Draft = Draft(title: string, description: string, priority: int, dueDate: Option<int>)

  function Ids(s: seq<Todo>): (r: set<nat>)
    ensures forall t :: t in s ==> t.id in r
    ensures forall id :: id in r ==> exists t :: t in s && t.id == id
  {
    set t | t in s :: t.id
  }

  /** No two todos of the list share an id (the primary key of the table). */
  predicate UniqueIds(s: seq<Todo>) {
    forall i, j :: 0 <= i < j < |s| ==> s[i].id != s[j].id
  }

  /** `todos.filter(todo => todo.id !== id)`. */
  function WithoutId(s: seq<Todo>, id: nat): (r: seq<Todo>)
    ensures forall t :: t in r <==> t in s && t.id != id
    ensures id !in Ids(r)
    ensures id !in Ids(s) ==> r == s
  {
    var r := Seqs.Where(s, (t: Todo) => t.id != id);
    if id !in Ids(s) then Seqs.WhereAll(s, (t: Todo) => t.id != id); r else r
  }

  /** `todos.map(todo => todo.id === id ? updatedTodo : todo)`. */
  function ReplaceById(s: seq<Todo>, id: nat, newer: Todo): (r: seq<Todo>)
    ensures |r| == |s|
    ensures forall i :: 0 <= i < |s| && s[i].id == id ==> r[i] == newer
    ensures forall i :: 0 <= i < |s| && s[i].id != id ==> r[i] == s[i]
  {
    Seqs.MapWhere(s, (t: Todo) => t.id == id, (t: Todo) => newer)
  }

  /** The rows whose `completed` column equals c, in table order (`WHERE completed = c`). */
  function WithCompleted(s: seq<Todo>, c: bool): (r: seq<Todo>)
    ensures forall t :: t in r <==> t in s && t.completed == c
  {
    Seqs.Where(s, (t: Todo) => t.completed == c)
  }

  /** Removing an id twice is removing it once: the second delete finds nothing to remove. */
  lemma WithoutIdTwice(s: seq<Todo>, id: nat)
    ensures WithoutId(WithoutId(s, id), id) == WithoutId(s, id)
  {
  }

  /** In a list with unique ids, removing a present id shortens the list by exactly one. */
  lemma {:induction false} WithoutPresentId(s: seq<Todo>, id: nat)
    requires UniqueIds(s) && id in Ids(s)
    ensures |WithoutId(s, id)| == |s| - 1
  {
    var keep := (t: Todo) => t.id != id;
    assert s == [s[0]] + s[1..];
    Seqs.WhereConcat([s[0]], s[1..], keep);
    if s[0].id == id {
      assert forall t :: t in s[1..] ==> t.id != id by {
        forall t | t in s[1..] ensures t.id != id {
          var k :| 0 <= k < |s[1..]| && s[1..][k] == t;
          assert s[k + 1] == t;
        }
      }
      Seqs.WhereAll(s[1..], keep);
    } else {
      assert UniqueIds(s[1..]) by {
        forall i, j | 0 <= i < j < |s[1..]| ensures s[1..][i].id != s[1..][j].id {
          assert s[1..][i] == s[i + 1] && s[1..][j] == s[j + 1];
        }
      }
      var t :| t in s && t.id == id;
      assert t in s[1..];
      WithoutPresentId(s[1..], id);
    }
  }

  /** Lists whose ids agree position by position have the same id set, and one has unique ids when the other has. */
  lemma SameIdsPointwise(s: seq<Todo>, r: seq<Todo>)
    requires |r| == |s| && forall i :: 0 <= i < |s| ==> r[i].id == s[i].id
    ensures Ids(r) == Ids(s)
    ensures UniqueIds(s) ==> UniqueIds(r)
  {
    forall x | x in Ids(r) ensures x in Ids(s) {
      var t :| t in r && t.id == x;
      var k :| 0 <= k < |r| && r[k] == t;
      assert s[k] in s;
    }
    forall x | x in Ids(s) ensures x in Ids(r) {
      var t :| t in s && t.id == x;
      var k :| 0 <= k < |s| && s[k] == t;
      assert r[k] in r;
    }
  }

  /** Replacing a todo by a record with the same id keeps the ids unique. */
  lemma ReplaceKeepsUnique(s: seq<Todo>, id: nat, newer: Todo)
    requires UniqueIds(s) && newer.id == id
    ensures UniqueIds(ReplaceById(s, id, newer)) && Ids(ReplaceById(s, id, newer)) == Ids(s)
  {
    var r := ReplaceById(s, id, newer);
    assert forall i :: 0 <= i < |s| ==> r[i].id == s[i].id;
    SameIdsPointwise(s, r);
  }

  /** Dropping todos from a list with unique ids leaves the ids unique. */
  lemma {:induction false} WhereKeepsUnique(s: seq<Todo>, keep: Todo -> bool)
    requires UniqueIds(s)
    ensures UniqueIds(Seqs.Where(s, keep))
  {
    if s != [] {
      var tail := s[1..];
      assert UniqueIds(tail) by {
        forall i, j | 0 <= i < j < |tail| ensures tail[i].id != tail[j].id {
          assert tail[i] == s[i + 1] && tail[j] == s[j + 1];
        }
      }
      WhereKeepsUnique(tail, keep);
      var rest := Seqs.Where(tail, keep);
      assert forall t :: t in rest ==> t.id != s[0].id by {
        forall t | t in rest ensures t.id != s[0].id {
          var k :| 0 <= k < |tail| && tail[k] == t;
          assert s[k + 1] == t;
        }
      }
    }
  }
}
