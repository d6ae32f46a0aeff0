/**
 * `handleHttp`: turns one finished network request into a tagged record.
 * It is async and catches every error, so it never throws: it fulfills with
 * `{isSuccess: true, data}` or `{isSuccess: false, message}`.
 */
module Http {
  import opened Outcomes

  datatype QueryParam = QueryParam(name: string, value: string)

  /** The `request` part of the listener's argument that `handleHttp` reads. */
  datatype Request = Request(httpMethod: string, queryString: seq<QueryParam>, url: string)

  /** How the promise wrapped around `getContent` ends. */
  datatype Fetch = Content(body: string) | Failed(message: string)

  /** One argument of the listener: its `request` (None: undefined) and the body fetch. */
  datatype Entry = Entry(request: Option<Request>, fetch: Fetch)

  datatype Data = Data(httpMethod: string, queryString: seq<QueryParam>, url: string, response: string)

  /** The returned object literal; a field the literal does not set is None. */
  datatype Record = Record(isSuccess: bool, data: Option<Data>, message: Option<string>)

  /**
   * The text of the TypeError the engine throws when destructuring reads a
   * property of undefined; its wording is left abstract.
   */
  const DestructureError: string := "TypeError: cannot destructure undefined"

  /** `const [{ request: { method, queryString, url }, getContent }] = args` succeeds. */
  predicate Destructures(args: seq<Entry>) {
    |args| > 0 && args[0].request.Some?
  }

  /** A record of one of the two shapes `handleHttp` returns. */
  predicate Tagged(r: Record) {
    (r.isSuccess <==> r.data.Some?) && (r.isSuccess <==> r.message.None?)
  }

  function HandleHttp(args: seq<Entry>): (r: Record)
    ensures Tagged(r)
    ensures r.isSuccess <==> Destructures(args) && args[0].fetch.Content?
    ensures r.isSuccess ==>
      var q := args[0].request.value;
      r.data.value == Data(q.httpMethod, q.queryString, q.url, args[0].fetch.body)
    ensures !Destructures(args) ==> r.message == Some(DestructureError)
    ensures Destructures(args) && args[0].fetch.Failed? ==> r.message == Some(args[0].fetch.message)
  {
    if |args| == 0 then Record(false, None, Some(DestructureError))
    else
      match args[0].request
      case None => Record(false, None, Some(DestructureError))
      case Some(q) =>
        match args[0].fetch
        case Content(body) => Record(true, Some(Data(q.httpMethod, q.queryString, q.url, body)), None)
        case Failed(msg) => Record(false, None, Some(msg))
  }
}
