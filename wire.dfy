/** Values shared by the browser dashboard and the Flask API: the three record
    kinds, JSON request bodies and the requests the dashboard issues. */
module Wire {

  datatype Option<+T> = None | Some(value: T)

  /** The three collections; also the last segment of `/api/<kind>`. */
  datatype Kind = Tasks | Notes | Goals

  /** A JSON value as it reaches Python's `request.get_json()`. Only the shapes
      the dashboard sends are modelled: strings, integers and `null`. */
  datatype Json = Null | Str(s: string) | Num(n: int)

  /** A JSON object body. */
  type Payload = map<string, Json>

  /** The write requests a form submission turns into. */
  datatype Request =
    | Post(kind: Kind, body: Payload)             // POST /api/<kind>
    | Put(kind: Kind, id: int, body: Payload)     // PUT /api/<kind>/<id>

  /** How a `fetch` settles, as seen by the code awaiting it: a 2xx response
      (with its parsed body), a non-2xx response, or a rejected promise. */
  datatype Response<+T> = Ok(body: T) | NotOk | Thrown
}
