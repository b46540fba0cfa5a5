/**
 * The transport the client sees: the axios instance built in the constructor of
 * Java2UMLImpl, with the network replaced by a scripted oracle. During one
 * operation the k-th request issued is answered by `net(k)`.
 */
module Http {
  import opened Results
  import opened Js

  /** A reply from the server: its HTTP status and its decoded body. */
  datatype Response = Response(status: int, data: Json)

  /** What becomes of one request: the server replies, or nothing arrives (connection failure, timeout). */
  datatype Exchange = Reply(response: Response) | NoReply

  /** The answers of the server to the requests of one operation, in order. */
  type Net = nat -> Exchange

  /** The thrown values the client can observe. */
  datatype Error =
      /** An AxiosError; `response` is absent when no reply arrived. */
    | HttpError(response: Option<Response>)
      /** The runtime error of reading a property of `null` or `undefined`. */
    | TypeError
      /** The error of assertThatProjectIdIsNotNull: no file has been uploaded. */
    | ProjectIdIsNull
      /** The error of extractIdFrom: the link does not end in an id. */
    | IdNotPresent

  const STATUS_OK: int := 200
  const STATUS_ACCEPTED: int := 202

  /**
   * The transport's `validateStatus`: whether a reply with this status resolves
   * the request (true) or rejects it with an AxiosError (false).
   */
  predicate IsSuccessStatus(status: int)
  {
    if status == STATUS_ACCEPTED then false else status < 400
  }

  /** How axios settles a request: resolve with the reply, or reject with an error carrying it. */
  function Settle(x: Exchange): (r: Result<Response, Error>)
    ensures r.Success? ==> x.Reply? && r.value == x.response
    ensures r.Success? ==> x.response.status != STATUS_ACCEPTED && x.response.status < 400
    ensures x.Reply? && x.response.status != STATUS_ACCEPTED && x.response.status < 400 ==> r.Success?
    ensures r.Failure? ==> r.error == HttpError(if x.Reply? then Some(x.response) else None)
  {
    match x
    case NoReply => Failure(HttpError(None))
    case Reply(resp) => if IsSuccessStatus(resp.status) then Success(resp) else Failure(HttpError(Some(resp)))
  }

  /** The guard `e.response && e.response.status == 202`: the error says the result is not ready yet. */
  predicate IsNotReady(e: Error)
  {
    e.HttpError? && e.response.Some? && e.response.value.status == STATUS_ACCEPTED
  }

  /** A request is retry-eligible exactly when the server replied 202; every other outcome is final. */
  lemma NotReadyExactlyOn202(x: Exchange)
    ensures Settle(x).Failure? && IsNotReady(Settle(x).error) <==> x.Reply? && x.response.status == STATUS_ACCEPTED
  {
  }

  /** The endpoints the client uses. */
  datatype Route =
    | FileUpload
    | ProjectInfoById
    | SourceById
    | SourceByProjectInfo
    | PlantUmlCode
    | ClassOrInterfaceBySource
    | ClassDiagramSvg

  /** The path prefix of each endpoint, relative to the configured base URL. */
  function Path(r: Route): string
  {
    match r
    case FileUpload => "/files"
    case ProjectInfoById => "/project-info"
    case SourceById => "/source"
    case SourceByProjectInfo => "/source/by-project-info"
    case PlantUmlCode => "/uml/plant-uml-code"
    case ClassOrInterfaceBySource => "/class-or-interface/by-source"
    case ClassDiagramSvg => "/uml/svg"
  }

  /**
   * A request: the multipart upload, or a GET of `Path(route) + "/" + id`, where
   * `id` is the value interpolated into the URI template.
   */
  datatype Request = PostFile | Get(route: Route, id: Json)

  /** What an operation does that an observer can see: send a request, or sleep before a retry. */
  datatype Event = Sent(request: Request) | Slept

  /** The number of requests among `evs`, which is also how many answers of the oracle they used. */
  function CountSent(evs: seq<Event>): nat
  {
    if |evs| == 0 then 0 else (if evs[0].Sent? then 1 else 0) + CountSent(evs[1..])
  }

  /** The number of sleeps among `evs`. */
  function CountSlept(evs: seq<Event>): nat
  {
    if |evs| == 0 then 0 else (if evs[0].Slept? then 1 else 0) + CountSlept(evs[1..])
  }

  lemma {:induction false} CountsOfConcat(a: seq<Event>, b: seq<Event>)
    ensures CountSent(a + b) == CountSent(a) + CountSent(b)
    ensures CountSlept(a + b) == CountSlept(a) + CountSlept(b)
  {
    if |a| == 0 {
      assert a + b == b;
    } else {
      assert (a + b)[1..] == a[1..] + b;
      CountsOfConcat(a[1..], b);
    }
  }

  /** The oracle for the requests that follow the first `k` of an operation. */
  function Shift(net: Net, k: nat): Net
  {
    (i: nat) => net(i + k)
  }
}
