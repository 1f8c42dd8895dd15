/**
  The input guards and the edit state of the Python application's `TodoForm`
  and `TodoItem` components. A handler returns the callbacks it invoked, in
  order. This client has no toggle request: the checkbox sends an update with
  the negated flag.
*/
module PyComponents {
  import opened Wrappers
  import opened PyModels
  import PyBackend
  import JsText

  datatype Callback =
    | AddCall(title: string)
    | UpdateCall(id: nat, updatedFields: TodoUpdate)
    | DeleteCall(id: nat)

  /** `{ completed: !todo.completed, title: todo.title }`. */
  function CheckboxFields(t: Todo): (u: TodoUpdate)
    ensures u.title == t.title && u.completed == !t.completed
  {
    TodoUpdate(t.title, !t.completed)
  }

  /**
    The checkbox's update, sent as JSON, passes the backend's validation and
    overwrites the row with its flag negated and nothing else changed; a second
    click restores the row.
  */
  lemma CheckboxFlipsRow(t: Todo)
    ensures ParseUpdate(Some(EncodeUpdate(CheckboxFields(t)))) == Some(CheckboxFields(t))
    ensures PyBackend.Overwrite(t, CheckboxFields(t)) == t.(completed := !t.completed)
    ensures var once := PyBackend.Overwrite(t, CheckboxFields(t));
            PyBackend.Overwrite(once, CheckboxFields(once)) == t
  {
    UpdateRoundTrip(CheckboxFields(t));
  }

  /** `TodoForm`: the title field. */
  class TodoForm {
    var title: string

    constructor ()
      ensures title == ""
    {
      title := "";
    }

    method SetTitle(value: string)
      modifies this
      ensures title == value
    {
      title := value;
    }

    /**
      `handleSubmit`: a blank title calls nothing and keeps the field; any
      other title calls add once with the raw title and clears the field.
    */
    method Submit() returns (calls: seq<Callback>)
      modifies this
      ensures JsText.IsBlank(old(title)) ==> calls == [] && title == old(title)
      ensures !JsText.IsBlank(old(title)) ==> calls == [AddCall(old(title))] && title == ""
    {
      if JsText.Trim(title) != "" {
        calls := [AddCall(title)];
        title := "";
      } else {
        calls := [];
      }
    }
  }

  /** `TodoItem`: the todo it shows and its edit state. */
  class TodoItem {
    var todo: Todo
    var isEditing: bool
    var newTitle: string

    /** The `useState` initialisers. */
    constructor (t: Todo)
      ensures todo == t && !isEditing && newTitle == t.title
    {
      todo := t;
      isEditing := false;
      newTitle := t.title;
    }

    /** A re-render with a new `todo` prop: the edit state is kept. */
    method Receive(t: Todo)
      modifies this
      ensures todo == t && isEditing == old(isEditing) && newTitle == old(newTitle)
    {
      todo := t;
    }

    /** `handleCheckboxChange`: an update with the same title and the negated flag. */
    method CheckboxChange() returns (calls: seq<Callback>)
      ensures calls == [UpdateCall(todo.id, CheckboxFields(todo))]
    {
      calls := [UpdateCall(todo.id, TodoUpdate(todo.title, !todo.completed))];
    }

    method DeleteClick() returns (calls: seq<Callback>)
      ensures calls == [DeleteCall(todo.id)]
    {
      calls := [DeleteCall(todo.id)];
    }

    method EditClick()
      modifies this
      ensures isEditing && todo == old(todo) && newTitle == old(newTitle)
    {
      isEditing := true;
    }

    method TitleChange(value: string)
      modifies this
      ensures newTitle == value && todo == old(todo) && isEditing == old(isEditing)
    {
      newTitle := value;
    }

    /**
      `handleSaveClick`: a blank title calls nothing and stays in edit mode;
      any other title is sent with the flag unchanged and edit mode ends.
    */
    method SaveClick() returns (calls: seq<Callback>)
      modifies this
      ensures JsText.IsBlank(old(newTitle)) ==> calls == [] && unchanged(this)
      ensures !JsText.IsBlank(old(newTitle)) ==>
        calls == [UpdateCall(todo.id, TodoUpdate(newTitle, todo.completed))] && !isEditing
      ensures todo == old(todo) && newTitle == old(newTitle)
    {
      if JsText.Trim(newTitle) != "" {
        calls := [UpdateCall(todo.id, TodoUpdate(newTitle, todo.completed))];
        isEditing := false;
      } else {
        calls := [];
      }
    }

    /** `handleCancelClick`: the title field is reset from the todo and edit mode ends; nothing is called. */
    method CancelClick()
      modifies this
      ensures newTitle == todo.title && !isEditing && todo == old(todo)
    {
      newTitle := todo.title;
      isEditing := false;
    }
  }
}
