/**
  The parts of an HTTP exchange the two React clients and the two backends
  agree on. Paths are the segments after the `/api/v1` prefix that both
  backends mount their routes under (the client base URL is
  `http://localhost:8000/api/v1`). A path segment is a literal name or a
  numeric todo id; the URL-encoding of query values is not modelled.
*/
module Http {
  import opened Wrappers

  datatype Method = GET | POST | PUT | PATCH | DELETE

  datatype Segment = Lit(name: string) | Num(n: nat)

  /** Query parameters in the order they appear after `?`. */
  type Query = seq<(string, string)>

  datatype Request<B> = Request(verb: Method, path: seq<Segment>, query: Query, body: Option<B>)

  /** What `fetch` resolves to: a status code and the decoded JSON body. */
  datatype Reply<B> = Reply(status: int, body: B)

  /** `response.ok`: the status is in the range 200-299. */
  predicate IsOk(status: int) {
    200 <= status <= 299
  }

  /** One call of a client request builder: the request it sends and what it returns or throws. */
  datatype Exchange<B, T> = Exchange(request: Request<B>, outcome: Result<T, string>)

  /** Gin's `c.GetQuery(key)`: the first value given for key, if any. */
  function FirstValue(q: Query, key: string): (r: Option<string>)
    ensures r.None? <==> forall i :: 0 <= i < |q| ==> q[i].0 != key
    ensures forall i :: 0 <= i < |q| && q[i].0 == key && (forall j :: 0 <= j < i ==> q[j].0 != key) ==> r == Some(q[i].1)
  {
    if q == [] then None
    else if q[0].0 == key then Some(q[0].1)
    else FirstValue(q[1..], key)
  }

  /** The value FastAPI binds to a scalar query parameter: the last one given for key, if any. */
  function LastValue(q: Query, key: string): (r: Option<string>)
    ensures r.None? <==> forall i :: 0 <= i < |q| ==> q[i].0 != key
    ensures forall i :: 0 <= i < |q| && q[i].0 == key && (forall j :: i < j < |q| ==> q[j].0 != key) ==> r == Some(q[i].1)
  {
    if q == [] then None
    else if q[|q| - 1].0 == key then Some(q[|q| - 1].1)
    else LastValue(q[..|q| - 1], key)
  }
}
