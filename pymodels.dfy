/**
  The pydantic schemas of the FastAPI backend (`models.py`) and how a JSON
  request body is validated against them. Every schema requires a string
  `title`; `TodoCreate` adds `completed` with the default false, `TodoUpdate`
  requires it, and the response schema `Todo` carries `id`, `title` and
  `completed`. Keys the schema does not name are ignored.
*/
module PyModels {
  import opened Wrappers

  /** The JSON values a request body can hold, as far as validation tells them apart. */
  datatype Json = JNull | JBool(b: bool) | JInt(i: int) | JStr(s: string) | JOther

  /** A JSON object body. */
  type Object = map<string, Json>

  datatype TodoBase = TodoBase(title: string)
  datatype TodoCreate = TodoCreate(title: string, completed: bool)
  datatype TodoUpdate = TodoUpdate(title: string, completed: bool)
  datatype Todo = Todo(id: nat, title: string, completed: bool)

  /** The `title: str` field every schema has. */
  function ParseBase(body: Object): (r: Option<TodoBase>)
    ensures r.Some? <==> "title" in body && body["title"].JStr?
    ensures r.Some? ==> r.value.title == body["title"].s
  {
    if "title" in body && body["title"].JStr? then Some(TodoBase(body["title"].s)) else None
  }

  /** `TodoCreate`: a title, and `completed` when given, otherwise false. */
  function ParseCreate(body: Option<Object>): (r: Option<TodoCreate>)
    ensures r.Some? <==> body.Some? && ParseBase(body.value).Some?
                         && ("completed" in body.value ==> body.value["completed"].JBool?)
    ensures r.Some? ==> r.value.title == body.value["title"].s
    ensures r.Some? ==> r.value.completed == ("completed" in body.value && body.value["completed"].b)
  {
    match body
    case None => None
    case Some(obj) =>
      match ParseBase(obj)
      case None => None
      case Some(base) =>
        if "completed" !in obj then Some(TodoCreate(base.title, false))
        else if obj["completed"].JBool? then Some(TodoCreate(base.title, obj["completed"].b))
        else None
  }

  /** `TodoUpdate`: a title and a `completed` flag, both required. */
  function ParseUpdate(body: Option<Object>): (r: Option<TodoUpdate>)
    ensures r.Some? <==> body.Some? && ParseBase(body.value).Some?
                         && "completed" in body.value && body.value["completed"].JBool?
    ensures r.Some? ==> r.value == TodoUpdate(body.value["title"].s, body.value["completed"].b)
  {
    match body
    case None => None
    case Some(obj) =>
      match ParseBase(obj)
      case None => None
      case Some(base) =>
        if "completed" in obj && obj["completed"].JBool? then Some(TodoUpdate(base.title, obj["completed"].b))
        else None
  }

  /** `JSON.stringify` of a create payload. */
  function EncodeCreate(c: TodoCreate): (body: Object)
    ensures body.Keys == {"title", "completed"}
  {
    map["title" := JStr(c.title), "completed" := JBool(c.completed)]
  }

  /** `JSON.stringify` of an update payload `{title, completed}`. */
  function EncodeUpdate(u: TodoUpdate): (body: Object)
    ensures body.Keys == {"title", "completed"}
  {
    map["title" := JStr(u.title), "completed" := JBool(u.completed)]
  }

  lemma CreateRoundTrip(c: TodoCreate)
    ensures ParseCreate(Some(EncodeCreate(c))) == Some(c)
  {
    var body := EncodeCreate(c);
    assert body["title"] == JStr(c.title) && body["completed"] == JBool(c.completed);
  }

  lemma UpdateRoundTrip(u: TodoUpdate)
    ensures ParseUpdate(Some(EncodeUpdate(u))) == Some(u)
  {
    var body := EncodeUpdate(u);
    assert body["title"] == JStr(u.title) && body["completed"] == JBool(u.completed);
  }

  /** A body with only a title creates an open todo, but is not a valid update. */
  lemma TitleOnly(title: string)
    ensures ParseCreate(Some(map["title" := JStr(title)])) == Some(TodoCreate(title, false))
    ensures ParseUpdate(Some(map["title" := JStr(title)])).None?
  {
    var body := map["title" := JStr(title)];
    assert "completed" !in body;
  }

  /** No schema accepts a body without a string title. */
  lemma TitleRequired(body: Object)
    requires "title" !in body || !body["title"].JStr?
    ensures ParseCreate(Some(body)).None? && ParseUpdate(Some(body)).None?
  {
  }
}
