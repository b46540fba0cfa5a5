/**
 * The client Java2UMLImpl (src/controllers/Java2UMLImpl.ts) as a state
 * machine. Its state is the bound project id and the cached source id; every
 * operation takes the state and the oracle's answers and gives back the new
 * state, what the call returns or throws, and the requests and sleeps it made.
 */
module Java2Uml {
  import opened Results
  import opened Js
  import opened Http
  import opened Normalizer
  import opened Poller

  /**
   * The fields `projectId` and `sourceId`. They hold whatever value the server
   * sent as an id; `Null` is JavaScript's `null`.
   */
  datatype Client = Client(projectId: Json, sourceId: Json)

  /** A new client: no project bound, no source cached. */
  const Fresh: Client := Client(Null, Null)

  /** The retry limit the operations use when the caller gives none. */
  const DEFAULT_RETRY_LIMIT: int := 10

  /** An operation's effect: the new state, the returned value or thrown error, and what it did. */
  datatype Run<+T> = Run(client: Client, result: Result<T, Error>, events: seq<Event>)

  /** A source id is cached only while a project is bound. */
  predicate Coherent(c: Client)
  {
    c.sourceId != Null ==> c.projectId != Null
  }

  /** The first GET of an operation either resolves and is normalized, or throws. */
  function FirstTry<T>(x: Exchange, normalize: Response -> Result<T, Error>): Result<T, Error>
  {
    match Settle(x)
    case Failure(e) => Failure(e)
    case Success(resp) => normalize(resp)
  }

  /**
   * assertThatProjectIdIsNotNull: the bound project id, or the error that no
   * file has been uploaded yet. Only `null` fails the strict test `=== null`.
   */
  function AssertProjectIdNotNull(c: Client): (r: Result<Json, Error>)
    ensures r.Success? <==> c.projectId != Null
    ensures r.Success? ==> r.value == c.projectId
    ensures r.Failure? ==> r.error == ProjectIdIsNull
  {
    if c.projectId == Null then Failure(ProjectIdIsNull) else Success(c.projectId)
  }

  /**
   * upload: POST the archive; on success bind the project id of the
   * normalized reply and drop the cached source id. A failure is rethrown
   * as it came and leaves the client as it was.
   */
  function Upload(c: Client, net: Net): (run: Run<EntityModel<ProjectInfo>>)
    ensures run.events == [Sent(PostFile)]
    ensures run.result.Success? <==> Settle(net(0)).Success? && !IsNullish(Settle(net(0)).value.data)
    ensures run.result.Success? ==> run.client == Client(run.result.value.content.id, Null)
    ensures run.result.Success? ==> Settle(net(0)).Success? && run.result == NormalizeToProjectInfo(Settle(net(0)).value)
    ensures run.result.Failure? ==> run.client == c
    ensures run.result.Failure? && Settle(net(0)).Failure? ==> run.result.error == Settle(net(0)).error
    ensures run.result.Failure? && Settle(net(0)).Success? ==> run.result.error == TypeError
  {
    match FirstTry(net(0), NormalizeToProjectInfo)
    case Failure(e) => Run(c, Failure(e), [Sent(PostFile)])
    case Success(info) => Run(Client(info.content.id, Null), Success(info), [Sent(PostFile)])
  }

  /** getProjectInfo: GET the bound project's record; the state never changes. */
  function GetProjectInfo(c: Client, net: Net): (run: Run<EntityModel<ProjectInfo>>)
    ensures run.client == c
    ensures c.projectId == Null ==> run == Run(c, Failure(ProjectIdIsNull), [])
    ensures c.projectId != Null ==> run.events == [Sent(Get(ProjectInfoById, c.projectId))]
    ensures c.projectId != Null ==> run.result == FirstTry(net(0), NormalizeToProjectInfo)
  {
    match AssertProjectIdNotNull(c)
    case Failure(e) => Run(c, Failure(e), [])
    case Success(pid) =>
      Run(c, FirstTry(net(0), NormalizeToProjectInfo), [Sent(Get(ProjectInfoById, pid))])
  }

  /**
   * The `try` block of getSource: the first GET, then storing `data.id` as
   * the source id, then normalizing. The state it leaves is kept even when
   * the block throws after storing the id.
   */
  function SourceFirstTry(c: Client, x: Exchange, normalizeToSource: Response -> Result<EntityModel<Source>, Error>): (Client, Result<EntityModel<Source>, Error>)
  {
    match Settle(x)
    case Failure(e) => (c, Failure(e))
    case Success(resp) =>
      if IsNullish(resp.data) then (c, Failure(TypeError))
      else (c.(sourceId := Property(resp.data, "id")), normalizeToSource(resp))
  }

  /** The first request of getSource: by project id while no source id is cached, by source id after. */
  function SourceRequest(c: Client): Request
  {
    if c.sourceId == Null then Get(SourceByProjectInfo, c.projectId) else Get(SourceById, c.sourceId)
  }

  /**
   * getSource(retryLimit). The first GET goes by project id while no source id
   * is cached and by source id after; a resolved reply caches its `data.id`.
   * A first error of status 202 is retried through handle202, always against
   * the by-project-info URI, and a retried source's id is cached; any other
   * first error is rethrown after that one request. Whatever fails, the error
   * thrown is the first one.
   */
  function GetSource(c: Client, retryLimit: int, normalizeToSource: Response -> Result<EntityModel<Source>, Error>, net: Net)
    : (run: Run<EntityModel<Source>>)
    ensures run.client.projectId == c.projectId
    ensures c.projectId == Null ==> run == Run(c, Failure(ProjectIdIsNull), [])
    ensures c.projectId != Null ==> |run.events| > 0 && run.events[0] == Sent(SourceRequest(c))
    ensures c.projectId != Null ==>
      forall k :: 1 <= k < |run.events| ==> run.events[k] == Sent(Get(SourceByProjectInfo, c.projectId)) || run.events[k] == Slept
    ensures CountSent(run.events) <= 1 + (if retryLimit <= 0 then 0 else retryLimit)
    ensures c.projectId != Null ==>
      var (c1, tried) := SourceFirstTry(c, net(0), normalizeToSource);
      && (tried.Success? ==> run == Run(c1, tried, [Sent(SourceRequest(c))]))
      && (tried.Failure? && !IsNotReady(tried.error) ==> run == Run(c1, tried, [Sent(SourceRequest(c))]))
      && (run.result.Failure? ==> tried.Failure? && run.result.error == tried.error && run.client == c1)
      && (tried.Failure? && IsNotReady(tried.error) && run.result.Success? ==>
            run.client == c1.(sourceId := run.result.value.content.id))
    ensures c.projectId != Null ==>
      var (c1, tried) := SourceFirstTry(c, net(0), normalizeToSource);
      tried.Failure? && IsNotReady(tried.error) ==>
        (run.result.Success? <==> exists j: nat :: j < retryLimit && TryOnce(Shift(net, 1)(j), normalizeToSource).Returned?)
    ensures c.projectId != Null ==>
      var (c1, tried) := SourceFirstTry(c, net(0), normalizeToSource);
      var retryReq := Get(SourceByProjectInfo, c.projectId);
      tried.Failure? && run.result.Success? ==>
        exists j: nat :: j < retryLimit && TryOnce(Shift(net, 1)(j), normalizeToSource) == Returned(run.result.value)
          && NoneReturned(normalizeToSource, Shift(net, 1), 0, j)
          && run.events == [Sent(SourceRequest(c))] + AttemptsLog(retryReq, normalizeToSource, Shift(net, 1), 0, j) + [Sent(retryReq)]
    ensures c.projectId != Null ==>
      var (c1, tried) := SourceFirstTry(c, net(0), normalizeToSource);
      var retryReq := Get(SourceByProjectInfo, c.projectId);
      tried.Failure? && IsNotReady(tried.error) && run.result.Failure? ==>
        run.events == [Sent(SourceRequest(c))] + AttemptsLog(retryReq, normalizeToSource, Shift(net, 1), 0, retryLimit)
  {
    match AssertProjectIdNotNull(c)
    case Failure(e) => Run(c, Failure(e), [])
    case Success(pid) =>
      var first := SourceRequest(c);
      var (c1, tried) := SourceFirstTry(c, net(0), normalizeToSource);
      match tried
      case Success(s) => Run(c1, Success(s), [Sent(first)])
      case Failure(e) =>
        if IsNotReady(e) then SourceRetry(c1, first, e, retryLimit, normalizeToSource, net)
        else Run(c1, Failure(e), [Sent(first)])
  }

  /**
   * A catch block that hands a first error `e` of status 202 to handle202: the
   * first request `first`, then the retries of `retryReq`, answered from the
   * second reply on. It returns exactly when one of the `retryLimit` retries
   * returns, with the first such value, and otherwise throws `e`.
   */
  function Retry202<T>(first: Request, e: Error, retryLimit: int, retryReq: Request, normalize: Response -> Result<T, Error>, net: Net)
    : (t: Trace<T>)
    ensures t.result.Failure? ==> t.result.error == e
    ensures |t.events| > 0 && t.events[0] == Sent(first)
    ensures forall k :: 1 <= k < |t.events| ==> t.events[k] == Sent(retryReq) || t.events[k] == Slept
    ensures CountSent(t.events) <= 1 + (if retryLimit <= 0 then 0 else retryLimit)
    ensures t.result.Success? <==> exists j: nat :: j < retryLimit && TryOnce(Shift(net, 1)(j), normalize).Returned?
    ensures t.result.Success? ==>
      exists j: nat :: j < retryLimit && TryOnce(Shift(net, 1)(j), normalize) == Returned(t.result.value)
        && NoneReturned(normalize, Shift(net, 1), 0, j)
        && t.events == [Sent(first)] + AttemptsLog(retryReq, normalize, Shift(net, 1), 0, j) + [Sent(retryReq)]
    ensures t.result.Failure? ==> t.events == [Sent(first)] + AttemptsLog(retryReq, normalize, Shift(net, 1), 0, retryLimit)
  {
    var polled := Handle202(e, retryLimit, retryReq, normalize, Shift(net, 1));
    Handle202Spec(e, retryLimit, retryReq, normalize, Shift(net, 1));
    CountsOfConcat([Sent(first)], polled.events);
    Trace(polled.result, [Sent(first)] + polled.events)
  }

  /**
   * The catch block of getSource after a first reply of 202, in the state `c`
   * the `try` block left: handle202 on the by-project-info URI, caching the id
   * of the source it returns.
   */
  function SourceRetry(
    c: Client,
    first: Request,
    e: Error,
    retryLimit: int,
    normalizeToSource: Response -> Result<EntityModel<Source>, Error>,
    net: Net): (run: Run<EntityModel<Source>>)
    ensures var t := Retry202(first, e, retryLimit, Get(SourceByProjectInfo, c.projectId), normalizeToSource, net);
      && run.result == t.result
      && run.events == t.events
      && run.client == if t.result.Success? then c.(sourceId := t.result.value.content.id) else c
  {
    var t := Retry202(first, e, retryLimit, Get(SourceByProjectInfo, c.projectId), normalizeToSource, net);
    match t.result
    case Success(s) => Run(c.(sourceId := s.content.id), Success(s), t.events)
    case Failure(e2) => Run(c, Failure(e2), t.events)
  }

  /**
   * The `try`/`catch` shape of getUMLSvg, and of getPlantUMLCode with the
   * guard of its catch block corrected: one GET of `req`; a first error of
   * status 202 is retried through handle202 on the same request; any other
   * first error is rethrown after that one request.
   */
  function FetchRetrying202<T>(req: Request, retryLimit: int, normalize: Response -> Result<T, Error>, net: Net): (t: Trace<T>)
    ensures |t.events| > 0 && t.events[0] == Sent(req)
    ensures forall k :: 0 <= k < |t.events| ==> t.events[k] == Sent(req) || t.events[k] == Slept
    ensures CountSent(t.events) <= 1 + (if retryLimit <= 0 then 0 else retryLimit)
    ensures FirstTry(net(0), normalize).Success? ==> t == Trace(FirstTry(net(0), normalize), [Sent(req)])
    ensures FirstTry(net(0), normalize).Failure? && !IsNotReady(FirstTry(net(0), normalize).error) ==>
      t == Trace(FirstTry(net(0), normalize), [Sent(req)])
    ensures t.result.Failure? ==> FirstTry(net(0), normalize).Failure? && t.result.error == FirstTry(net(0), normalize).error
    ensures var first := FirstTry(net(0), normalize);
      first.Failure? && IsNotReady(first.error) ==>
        (t.result.Success? <==> exists j: nat :: j < retryLimit && TryOnce(Shift(net, 1)(j), normalize).Returned?)
    ensures var first := FirstTry(net(0), normalize);
      first.Failure? && t.result.Success? ==>
        exists j: nat :: j < retryLimit && TryOnce(Shift(net, 1)(j), normalize) == Returned(t.result.value)
          && NoneReturned(normalize, Shift(net, 1), 0, j)
          && t.events == [Sent(req)] + AttemptsLog(req, normalize, Shift(net, 1), 0, j) + [Sent(req)]
    ensures var first := FirstTry(net(0), normalize);
      first.Failure? && IsNotReady(first.error) && t.result.Failure? ==>
        t.events == [Sent(req)] + AttemptsLog(req, normalize, Shift(net, 1), 0, retryLimit)
  {
    match FirstTry(net(0), normalize)
    case Success(v) => Trace(Success(v), [Sent(req)])
    case Failure(e) =>
      if IsNotReady(e) then Retry202(req, e, retryLimit, req, normalize, net)
      else Trace(Failure(e), [Sent(req)])
  }

  /**
   * getPlantUMLCode(retryLimit) with its catch block guarded like those of
   * getSource and getUMLSvg (`e.response && e.response.status == 202`).
   */
  function GetPlantUmlCode<U>(c: Client, retryLimit: int, normalizeToUmlBody: Response -> Result<U, Error>, net: Net): (run: Run<U>)
    ensures run.client == c
    ensures c.projectId == Null ==> run == Run(c, Failure(ProjectIdIsNull), [])
    ensures c.projectId != Null ==>
      Trace(run.result, run.events) == FetchRetrying202(Get(PlantUmlCode, c.projectId), retryLimit, normalizeToUmlBody, net)
  {
    match AssertProjectIdNotNull(c)
    case Failure(e) => Run(c, Failure(e), [])
    case Success(pid) =>
      var t := FetchRetrying202(Get(PlantUmlCode, pid), retryLimit, normalizeToUmlBody, net);
      Run(c, t.result, t.events)
  }

  /** Whether the thrown value has a `response` property: an HTTP error the server replied to. */
  predicate CarriesResponse(e: Error)
  {
    e.HttpError? && e.response.Some?
  }

  /**
   * getPlantUMLCode(retryLimit) as written: its catch block reads
   * `e.response.status` without first checking that `e.response` exists, so an
   * error without a response, such as a failed connection, turns into a
   * TypeError there.
   */
  function GetPlantUmlCodeAsWritten<U>(c: Client, retryLimit: int, normalizeToUmlBody: Response -> Result<U, Error>, net: Net): (run: Run<U>)
    ensures run.client == c
    ensures c.projectId == Null ==> run == Run(c, Failure(ProjectIdIsNull), [])
    ensures (c.projectId != Null && FirstTry(net(0), normalizeToUmlBody).Failure?
               && !CarriesResponse(FirstTry(net(0), normalizeToUmlBody).error)) ==>
      run == Run(c, Failure(TypeError), [Sent(Get(PlantUmlCode, c.projectId))])
  {
    match AssertProjectIdNotNull(c)
    case Failure(e) => Run(c, Failure(e), [])
    case Success(pid) =>
      var req := Get(PlantUmlCode, pid);
      match FirstTry(net(0), normalizeToUmlBody)
      case Success(v) => Run(c, Success(v), [Sent(req)])
      case Failure(e) =>
        if !CarriesResponse(e) then Run(c, Failure(TypeError), [Sent(req)])
        else if e.response.value.status == STATUS_ACCEPTED then
          var polled := Handle202(e, retryLimit, req, normalizeToUmlBody, Shift(net, 1));
          Run(c, polled.result, [Sent(req)] + polled.events)
        else Run(c, Failure(e), [Sent(req)])
  }

  /**
   * A failed connection on the first GET of getPlantUMLCode: the code as
   * written throws a TypeError and loses the transport error, which the
   * corrected guard rethrows unchanged.
   */
  lemma PlantUmlNoReplyBecomesTypeError<U>(c: Client, retryLimit: int, normalizeToUmlBody: Response -> Result<U, Error>, net: Net)
    requires c.projectId != Null
    requires net(0) == NoReply
    ensures GetPlantUmlCodeAsWritten(c, retryLimit, normalizeToUmlBody, net).result == Failure(TypeError)
    ensures GetPlantUmlCode(c, retryLimit, normalizeToUmlBody, net).result == Failure(HttpError(None))
  {
  }

  /** On every error that carries a response, the code as written and the corrected guard agree. */
  lemma PlantUmlAgreesWithResponse<U>(c: Client, retryLimit: int, normalizeToUmlBody: Response -> Result<U, Error>, net: Net)
    requires FirstTry(net(0), normalizeToUmlBody).Failure? ==> CarriesResponse(FirstTry(net(0), normalizeToUmlBody).error)
    ensures GetPlantUmlCodeAsWritten(c, retryLimit, normalizeToUmlBody, net) == GetPlantUmlCode(c, retryLimit, normalizeToUmlBody, net)
  {
  }

  /** The normalizer getUMLSvg applies: the reply's body as it is (`e => e.data`). */
  function SvgData(resp: Response): Result<Json, Error>
  {
    Success(resp.data)
  }

  /** getUMLSvg(retryLimit): the diagram text of the bound project, retried while not ready. */
  function GetUmlSvg(c: Client, retryLimit: int, net: Net): (run: Run<Json>)
    ensures run.client == c
    ensures c.projectId == Null ==> run == Run(c, Failure(ProjectIdIsNull), [])
    ensures c.projectId != Null ==>
      Trace(run.result, run.events) == FetchRetrying202(Get(ClassDiagramSvg, c.projectId), retryLimit, SvgData, net)
  {
    match AssertProjectIdNotNull(c)
    case Failure(e) => Run(c, Failure(e), [])
    case Success(pid) =>
      var t := FetchRetrying202(Get(ClassDiagramSvg, pid), retryLimit, SvgData, net);
      Run(c, t.result, t.events)
  }

  /**
   * getSourceIfNull: call getSource with the default retry limit only when
   * no source id is cached (loose `!= null`, so `undefined` counts as none).
   */
  function GetSourceIfNull(c: Client, normalizeToSource: Response -> Result<EntityModel<Source>, Error>, net: Net): (run: Run<()>)
    ensures !IsNullish(c.sourceId) ==> run == Run(c, Success(()), [])
    ensures IsNullish(c.sourceId) ==>
      var inner := GetSource(c, DEFAULT_RETRY_LIMIT, normalizeToSource, net);
      run.client == inner.client && run.events == inner.events && run.result.Success? == inner.result.Success?
        && (run.result.Failure? ==> run.result.error == inner.result.error)
  {
    if !IsNullish(c.sourceId) then Run(c, Success(()), [])
    else
      var inner := GetSource(c, DEFAULT_RETRY_LIMIT, normalizeToSource, net);
      match inner.result
      case Success(_) => Run(inner.client, Success(()), inner.events)
      case Failure(e) => Run(inner.client, Failure(e), inner.events)
  }

  /**
   * getClassOrInterfaces: resolve the source id if none is cached, then GET
   * the source's class list by that id. A failure to resolve is thrown
   * before the list is requested.
   */
  function GetClassOrInterfaces<L>(
    c: Client,
    normalizeToSource: Response -> Result<EntityModel<Source>, Error>,
    normalizeToClassOrInterfaceList: Response -> Result<L, Error>,
    net: Net): (run: Run<L>)
    ensures run.client.projectId == c.projectId
    ensures !IsNullish(c.sourceId) ==>
      run == Run(c, FirstTry(net(0), normalizeToClassOrInterfaceList), [Sent(Get(ClassOrInterfaceBySource, c.sourceId))])
    ensures run.result.Success? ==>
      |run.events| > 0 && run.events[|run.events| - 1] == Sent(Get(ClassOrInterfaceBySource, run.client.sourceId))
    ensures var pre := GetSourceIfNull(c, normalizeToSource, net);
      pre.result.Failure? ==> run == Run(pre.client, Failure(pre.result.error), pre.events)
    ensures var pre := GetSourceIfNull(c, normalizeToSource, net);
      pre.result.Success? ==>
        && run.client == pre.client
        && run.events == pre.events + [Sent(Get(ClassOrInterfaceBySource, pre.client.sourceId))]
        && run.result == FirstTry(net(CountSent(pre.events)), normalizeToClassOrInterfaceList)
  {
    var pre := GetSourceIfNull(c, normalizeToSource, net);
    match pre.result
    case Failure(e) => Run(pre.client, Failure(e), pre.events)
    case Success(_) =>
      var req := Get(ClassOrInterfaceBySource, pre.client.sourceId);
      Run(pre.client, FirstTry(net(CountSent(pre.events)), normalizeToClassOrInterfaceList), pre.events + [Sent(req)])
  }

  /** Every operation keeps a cached source id tied to a bound project. */
  lemma OperationsPreserveCoherence<U, L>(
    c: Client,
    retryLimit: int,
    normalizeToSource: Response -> Result<EntityModel<Source>, Error>,
    normalizeToUmlBody: Response -> Result<U, Error>,
    normalizeToClassOrInterfaceList: Response -> Result<L, Error>,
    net: Net)
    requires Coherent(c)
    ensures Coherent(Upload(c, net).client)
    ensures Coherent(GetProjectInfo(c, net).client)
    ensures Coherent(GetSource(c, retryLimit, normalizeToSource, net).client)
    ensures Coherent(GetPlantUmlCode(c, retryLimit, normalizeToUmlBody, net).client)
    ensures Coherent(GetUmlSvg(c, retryLimit, net).client)
    ensures Coherent(GetSourceIfNull(c, normalizeToSource, net).client)
    ensures Coherent(GetClassOrInterfaces(c, normalizeToSource, normalizeToClassOrInterfaceList, net).client)
  {
  }

  /**
   * Before any upload, every project-scoped operation throws the
   * missing-project error without sending a request.
   */
  lemma FreshClientFailsFast<U, L>(
    retryLimit: int,
    normalizeToSource: Response -> Result<EntityModel<Source>, Error>,
    normalizeToUmlBody: Response -> Result<U, Error>,
    normalizeToClassOrInterfaceList: Response -> Result<L, Error>,
    net: Net)
    ensures GetProjectInfo(Fresh, net) == Run(Fresh, Failure(ProjectIdIsNull), [])
    ensures GetSource(Fresh, retryLimit, normalizeToSource, net) == Run(Fresh, Failure(ProjectIdIsNull), [])
    ensures GetPlantUmlCode(Fresh, retryLimit, normalizeToUmlBody, net) == Run(Fresh, Failure(ProjectIdIsNull), [])
    ensures GetUmlSvg(Fresh, retryLimit, net) == Run(Fresh, Failure(ProjectIdIsNull), [])
    ensures GetClassOrInterfaces(Fresh, normalizeToSource, normalizeToClassOrInterfaceList, net)
      == Run(Fresh, Failure(ProjectIdIsNull), [])
  {
  }

  /**
   * An upload answered with the wire form of a record binds that record's id,
   * forgets any cached source and returns the record itself.
   */
  lemma UploadBindsServerRecord(c: Client, m: EntityModel<ProjectInfo>, status: int, net: Net)
    requires IsSuccessStatus(status)
    requires net(0) == Reply(Response(status, ToWire(m)))
    ensures Upload(c, net) == Run(Client(m.content.id, Null), Success(m), [Sent(PostFile)])
  {
  }

  /**
   * After a successful upload that bound a non-null id, the project-scoped
   * requests address that id, and the source is looked up by project.
   */
  lemma UploadThenRequestsTargetProject(
    c: Client,
    retryLimit: int,
    normalizeToSource: Response -> Result<EntityModel<Source>, Error>,
    net1: Net,
    net2: Net)
    requires Upload(c, net1).result.Success?
    requires Upload(c, net1).result.value.content.id != Null
    ensures var c1 := Upload(c, net1).client;
      var id := Upload(c, net1).result.value.content.id;
      && GetProjectInfo(c1, net2).events == [Sent(Get(ProjectInfoById, id))]
      && GetSource(c1, retryLimit, normalizeToSource, net2).events[0] == Sent(Get(SourceByProjectInfo, id))
      && GetUmlSvg(c1, retryLimit, net2).events[0] == Sent(Get(ClassDiagramSvg, id))
  {
  }

  /**
   * A cached source id is used as it is: once getSourceIfNull leaves a
   * non-nullish id behind, calling it again does nothing.
   */
  lemma SourceIfNullSettles(c: Client, normalizeToSource: Response -> Result<EntityModel<Source>, Error>, net1: Net, net2: Net)
    requires !IsNullish(GetSourceIfNull(c, normalizeToSource, net1).client.sourceId)
    ensures var c1 := GetSourceIfNull(c, normalizeToSource, net1).client;
      GetSourceIfNull(c1, normalizeToSource, net2) == Run(c1, Success(()), [])
  {
  }

  /**
   * A diagram that is ready on the third GET, with five retries allowed: three
   * GETs, one sleep (after the first retry, not after the first GET), and the
   * diagram returned.
   */
  lemma SvgReadyOnThirdRequest(c: Client, net: Net, a: Json, b: Json, svg: Json)
    requires c.projectId != Null
    requires net(0) == Reply(Response(STATUS_ACCEPTED, a))
    requires net(1) == Reply(Response(STATUS_ACCEPTED, b))
    requires net(2) == Reply(Response(STATUS_OK, svg))
    ensures var req := Get(ClassDiagramSvg, c.projectId);
      GetUmlSvg(c, 5, net) == Run(c, Success(svg), [Sent(req), Sent(req), Slept, Sent(req)])
  {
  }

  /**
   * A diagram that is never ready, with three retries allowed: four GETs,
   * three sleeps, and the error of the first GET rethrown.
   */
  lemma SvgNeverReady(c: Client, net: Net)
    requires c.projectId != Null
    requires forall i: nat :: net(i).Reply? && net(i).response.status == STATUS_ACCEPTED
    ensures var req := Get(ClassDiagramSvg, c.projectId);
      GetUmlSvg(c, 3, net)
      == Run(c, Failure(HttpError(Some(net(0).response))), [Sent(req), Sent(req), Slept, Sent(req), Slept, Sent(req), Slept])
  {
  }

  /**
   * getSource after a 202: the source returned by the retry is cached, and the
   * retry goes to the by-project-info URI even when the first GET went by source id.
   */
  lemma SourceRetryCachesId(
    c: Client,
    normalizeToSource: Response -> Result<EntityModel<Source>, Error>,
    net: Net,
    a: Json,
    ready: Response)
    requires c.projectId != Null
    requires net(0) == Reply(Response(STATUS_ACCEPTED, a))
    requires net(1) == Reply(ready) && ready.status == STATUS_OK
    requires normalizeToSource(ready).Success?
    ensures var run := GetSource(c, 2, normalizeToSource, net);
      && run == Run(c.(sourceId := normalizeToSource(ready).value.content.id), Success(normalizeToSource(ready).value),
                    [Sent(SourceRequest(c)), Sent(Get(SourceByProjectInfo, c.projectId))])
  {
  }

  /**
   * getSource's first GET goes by project id exactly when the cached source id
   * is `null`; a reply that resolves caches its body's `id` and the call
   * returns the normalized source after that one request.
   */
  lemma SourceFirstReplyCachesId(
    c: Client,
    retryLimit: int,
    normalizeToSource: Response -> Result<EntityModel<Source>, Error>,
    net: Net)
    requires c.projectId != Null
    requires Settle(net(0)).Success? && !IsNullish(net(0).response.data)
    requires normalizeToSource(net(0).response).Failure? ==> !IsNotReady(normalizeToSource(net(0).response).error)
    ensures var run := GetSource(c, retryLimit, normalizeToSource, net);
      && run.client == c.(sourceId := Property(net(0).response.data, "id"))
      && run.result == normalizeToSource(net(0).response)
      && run.events == [Sent(if c.sourceId == Null then Get(SourceByProjectInfo, c.projectId) else Get(SourceById, c.sourceId))]
  {
  }
}
