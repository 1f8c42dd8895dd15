/**
  The input guards and the edit state of the Go application's `TodoForm` and
  `TodoItem` components. A handler returns the callbacks it invoked, in
  order. Priority is held as the integer `parseInt` gives. A due date travels
  as an instant in milliseconds (UTC); the `datetime-local` field holds a
  wall-clock minute, and the browser's time zone is the constant `offset`, the
  milliseconds by which local time is ahead of UTC.
*/
module GoComponents {
  import opened Wrappers
  import opened GoTodo
  import JsText

  /** A call of one of the callbacks App passes down. */
  datatype Callback =
    | AddCall(todo: Draft)
    | UpdateCall(id: nat, updatedFields: Draft)
    | ToggleCall(id: nat)
    | DeleteCall(id: nat)

  /** Milliseconds in a minute, the precision of a `datetime-local` field. */
  const MinuteMs: int := 60000

  /**
    The value of a `datetime-local` input: empty, or a wall-clock time to the
    minute, counted in minutes from 1970-01-01T00:00 on the same clock.
  */
  datatype DateField = Blank | Wall(minute: int)

  /**
    `dueDate === '' ? null : new Date(dueDate).toISOString()`: an empty field
    is null; a date-time text without an offset is read as local time, so the
    instant sent is the one whose local clock shows the field.
  */
  function DueDatePayload(field: DateField, offset: int): (r: Option<int>)
    ensures r.None? <==> field.Blank?
    ensures r.Some? ==> r.value + offset == field.minute * MinuteMs
  {
    if field.Blank? then None else Some(field.minute * MinuteMs - offset)
  }

  /**
    The initial field of an item, `new Date(todo.due_date).toISOString().slice(0, 16)`:
    the minute of the UTC clock that holds the instant, seconds cut off; ''
    without a due date.
  */
  function DueDateField(due: Option<int>): (f: DateField)
    ensures f.Blank? <==> due.None?
    ensures due.Some? ==> f.minute * MinuteMs <= due.value < f.minute * MinuteMs + MinuteMs
  {
    if due.None? then Blank else Wall(due.value / MinuteMs)
  }

  /**
    Saving an item's due date unedited sends the instant cut to the minute and
    moved back by the zone offset. It comes back unchanged exactly when the
    offset cancels the seconds cut off: for a whole-minute date, only in UTC.
  */
  lemma UneditedDueDateShifts(due: int, offset: int)
    ensures DueDatePayload(DueDateField(Some(due)), offset) == Some(due - due % MinuteMs - offset)
    ensures DueDatePayload(DueDateField(Some(due)), offset) == Some(due) <==> offset == -(due % MinuteMs)
  {
    assert due / MinuteMs * MinuteMs == due - due % MinuteMs;
  }

  /** In UTC+2 a todo due 2024-01-01T10:00:00Z shows 10:00 and, saved unedited, is due 08:00:00Z. */
  lemma DueDateDriftExample()
    ensures DueDateField(Some(1704103200000)) == Wall(28401720)
    ensures DueDatePayload(DueDateField(Some(1704103200000)), 7200000) == Some(1704096000000)
  {
    UneditedDueDateShifts(1704103200000, 7200000);
  }

  /**
    A time typed into an item's field and saved shows, once the item is
    rendered from the saved todo, moved by the zone offset.
  */
  lemma SavedFieldShifts(minute: int, offset: int)
    requires offset % MinuteMs == 0
    ensures DueDateField(DueDatePayload(Wall(minute), offset)) == Wall(minute - offset / MinuteMs)
  {
    assert minute * MinuteMs - offset == (minute - offset / MinuteMs) * MinuteMs;
  }

  /**
    The field as a `datetime-local` input means it: the minute of the local
    clock that holds the instant.
  */
  function LocalDueDateField(due: Option<int>, offset: int): (f: DateField)
    ensures f.Blank? <==> due.None?
    ensures due.Some? ==> f.minute * MinuteMs <= due.value + offset < f.minute * MinuteMs + MinuteMs
  {
    if due.None? then Blank else Wall((due.value + offset) / MinuteMs)
  }

  /** With the local field, what is typed and saved shows again as typed. */
  lemma LocalFieldRoundTrip(field: DateField, offset: int)
    ensures LocalDueDateField(DueDatePayload(field, offset), offset) == field
  {
    if field.Wall? {
      assert (field.minute * MinuteMs - offset + offset) / MinuteMs == field.minute;
    }
  }

  /**
    With the local field and a zone a whole number of minutes from UTC, an
    unedited save sends the due date cut to the minute, so a whole-minute
    due date is sent back unchanged.
  */
  lemma LocalDueDateRoundTrip(due: int, offset: int)
    requires offset % MinuteMs == 0
    ensures DueDatePayload(LocalDueDateField(Some(due), offset), offset) == Some(due - due % MinuteMs)
    ensures due % MinuteMs == 0 ==> DueDatePayload(LocalDueDateField(Some(due), offset), offset) == Some(due)
  {
    var m := offset / MinuteMs;
    assert offset == m * MinuteMs;
    assert (due + offset) / MinuteMs == due / MinuteMs + m;
    assert due / MinuteMs * MinuteMs == due - due % MinuteMs;
  }

  /** The draft both forms send: the title as typed, untrimmed. */
  function DraftOf(title: string, description: string, priority: int, dueDate: DateField, offset: int): (d: Draft)
    ensures d.title == title && d.description == description && d.priority == priority
    ensures d.dueDate == DueDatePayload(dueDate, offset)
  {
    Draft(title, description, priority, DueDatePayload(dueDate, offset))
  }

  /** `TodoForm`: the four input fields, in a browser `offset` milliseconds ahead of UTC. */
  class TodoForm {
    const offset: int
    var title: string
    var description: string
    var priority: int
    var dueDate: DateField

    constructor (offset: int)
      ensures this.offset == offset
      ensures title == "" && description == "" && priority == 0 && dueDate == Blank
    {
      this.offset := offset;
      title, description, priority, dueDate := "", "", 0, Blank;
    }

    /** `setTitle(e.target.value)`. */
    method SetTitle(value: string)
      modifies this
      ensures title == value
      ensures description == old(description) && priority == old(priority) && dueDate == old(dueDate)
    {
      title := value;
    }

    /** `setDescription(e.target.value)`. */
    method SetDescription(value: string)
      modifies this
      ensures description == value
      ensures title == old(title) && priority == old(priority) && dueDate == old(dueDate)
    {
      description := value;
    }

    /** `setPriority(e.target.value)`, held as the integer `parseInt` later gives. */
    method SetPriority(value: int)
      modifies this
      ensures priority == value
      ensures title == old(title) && description == old(description) && dueDate == old(dueDate)
    {
      priority := value;
    }

    /** `setDueDate(e.target.value)`. */
    method SetDueDate(value: DateField)
      modifies this
      ensures dueDate == value
      ensures title == old(title) && description == old(description) && priority == old(priority)
    {
      dueDate := value;
    }

    /**
      `handleSubmit`: a blank title calls nothing and keeps every field; any
      other title calls add once with the fields as typed and resets them.
    */
    method Submit() returns (calls: seq<Callback>)
      modifies this
      ensures JsText.IsBlank(old(title)) ==> calls == [] && unchanged(this)
      ensures !JsText.IsBlank(old(title)) ==>
        && calls == [AddCall(DraftOf(old(title), old(description), old(priority), old(dueDate), offset))]
        && title == "" && description == "" && priority == 0 && dueDate == Blank
    {
      if JsText.Trim(title) != "" {
        calls := [AddCall(DraftOf(title, description, priority, dueDate, offset))];
        title := "";
        description := "";
        priority := 0;
        dueDate := Blank;
      } else {
        calls := [];
      }
    }
  }

  /** `TodoItem`: the todo it shows and its edit state, in a browser `offset` milliseconds ahead of UTC. */
  class TodoItem {
    const offset: int
    var todo: Todo
    var isEditing: bool
    var newTitle: string
    var newDescription: string
    var newPriority: int
    var newDueDate: DateField

    /** The edit fields hold the todo's own values. */
    ghost predicate ShowsTodo()
      reads this
    {
      newTitle == todo.title && newDescription == todo.description
      && newPriority == todo.priority && newDueDate == DueDateField(todo.dueDate)
    }

    /** The `useState` initialisers: not editing, fields taken from the todo. */
    constructor (t: Todo, offset: int)
      ensures this.offset == offset
      ensures todo == t && !isEditing && ShowsTodo()
    {
      this.offset := offset;
      todo := t;
      isEditing := false;
      newTitle := t.title;
      newDescription := t.description;
      newPriority := t.priority;
      newDueDate := DueDateField(t.dueDate);
    }

    /** A re-render with a new `todo` prop: the edit state is kept, not re-initialised. */
    method Receive(t: Todo)
      modifies this
      ensures todo == t
      ensures isEditing == old(isEditing) && newTitle == old(newTitle) && newDescription == old(newDescription)
      ensures newPriority == old(newPriority) && newDueDate == old(newDueDate)
    {
      todo := t;
    }

    /** `handleCheckboxChange`: only the toggle callback, with the id and no payload. */
    method CheckboxChange() returns (calls: seq<Callback>)
      ensures calls == [ToggleCall(todo.id)]
    {
      calls := [ToggleCall(todo.id)];
    }

    /** `handleDeleteClick`. */
    method DeleteClick() returns (calls: seq<Callback>)
      ensures calls == [DeleteCall(todo.id)]
    {
      calls := [DeleteCall(todo.id)];
    }

    /** `handleEditClick`. */
    method EditClick()
      modifies this
      ensures isEditing
      ensures todo == old(todo) && newTitle == old(newTitle) && newDescription == old(newDescription)
      ensures newPriority == old(newPriority) && newDueDate == old(newDueDate)
    {
      isEditing := true;
    }

    /** `handleTitleChange`. */
    method TitleChange(value: string)
      modifies this
      ensures newTitle == value
      ensures todo == old(todo) && isEditing == old(isEditing) && newDescription == old(newDescription)
      ensures newPriority == old(newPriority) && newDueDate == old(newDueDate)
    {
      newTitle := value;
    }

    /** The description input's `onChange`. */
    method DescriptionChange(value: string)
      modifies this
      ensures newDescription == value
      ensures todo == old(todo) && isEditing == old(isEditing) && newTitle == old(newTitle)
      ensures newPriority == old(newPriority) && newDueDate == old(newDueDate)
    {
      newDescription := value;
    }

    /** The priority input's `onChange`, held as the integer `parseInt` later gives. */
    method PriorityChange(value: int)
      modifies this
      ensures newPriority == value
      ensures todo == old(todo) && isEditing == old(isEditing) && newTitle == old(newTitle)
      ensures newDescription == old(newDescription) && newDueDate == old(newDueDate)
    {
      newPriority := value;
    }

    /** The due-date input's `onChange`. */
    method DueDateChange(value: DateField)
      modifies this
      ensures newDueDate == value
      ensures todo == old(todo) && isEditing == old(isEditing) && newTitle == old(newTitle)
      ensures newDescription == old(newDescription) && newPriority == old(newPriority)
    {
      newDueDate := value;
    }

    /**
      `handleSaveClick`: a blank title calls nothing and stays in edit mode;
      any other title calls update once with the edited fields and leaves edit
      mode.
    */
    method SaveClick() returns (calls: seq<Callback>)
      modifies this
      ensures JsText.IsBlank(old(newTitle)) ==> calls == [] && unchanged(this)
      ensures !JsText.IsBlank(old(newTitle)) ==>
        && calls == [UpdateCall(todo.id, DraftOf(newTitle, newDescription, newPriority, newDueDate, offset))]
        && !isEditing
      ensures todo == old(todo) && newTitle == old(newTitle) && newDescription == old(newDescription)
      ensures newPriority == old(newPriority) && newDueDate == old(newDueDate)
    {
      if JsText.Trim(newTitle) != "" {
        calls := [UpdateCall(todo.id, DraftOf(newTitle, newDescription, newPriority, newDueDate, offset))];
        isEditing := false;
      } else {
        calls := [];
      }
    }

    /** `handleCancelClick`: the fields are reset from the current todo and edit mode ends; nothing is called. */
    method CancelClick()
      modifies this
      ensures !isEditing && ShowsTodo() && todo == old(todo)
    {
      newTitle := todo.title;
      newDescription := todo.description;
      newPriority := todo.priority;
      newDueDate := DueDateField(todo.dueDate);
      isEditing := false;
    }
  }

  /**
    Saving fields that still show the todo sends back its own title,
    description and priority, but its due date cut to the minute and moved
    back by the zone offset.
  */
  lemma UneditedSave(t: Todo, offset: int)
    ensures DraftOf(t.title, t.description, t.priority, DueDateField(t.dueDate), offset)
         == Draft(t.title, t.description, t.priority,
                  if t.dueDate.None? then None else Some(t.dueDate.value - t.dueDate.value % MinuteMs - offset))
  {
    if t.dueDate.Some? {
      UneditedDueDateShifts(t.dueDate.value, offset);
    }
  }
}
