/**
 * The mapping from raw response bodies to the client's typed records
 * (src/utils/Normalizer.ts). Only the project-info mapping exists in that file;
 * the other normalizers the client calls are passed to it as parameters.
 */
module Normalizer {
  import opened Results
  import opened Js
  import opened Http

  /**
   * The typed project record. The values are whatever the server sent: the
   * mapping renames and copies fields, it does not check their types.
   */
  datatype ProjectInfo = ProjectInfo(
    id: Json,
    projectName: Json,
    size: Json,
    fileType: Json,
    messages: Json,
    isBadRequest: Json,
    isParsed: Json)

  /** A resource with its hypermedia links, which are passed through as received. */
  datatype EntityModel<+T> = EntityModel(content: T, links: Json)

  /**
   * The parsed-code root. Its normalizer is not part of this model; the client
   * reads nothing of a normalized source but `content.id`.
   */
  datatype Source = Source(id: Json)

  /** The body properties normalizeToProjectInfo reads, under their server-side names. */
  const ProjectInfoWireKeys: set<string> :=
    {"id", "projectName", "size", "fileType", "messages", "badRequest", "parsed", "_links"}

  /**
   * normalizeToProjectInfo. Reading a property of a `null` or `undefined` body
   * throws a TypeError; any other body is mapped field by field, missing
   * properties becoming `undefined`.
   */
  function NormalizeToProjectInfo(resp: Response): (r: Result<EntityModel<ProjectInfo>, Error>)
    ensures r.Failure? <==> IsNullish(resp.data)
    ensures r.Failure? ==> r.error == TypeError
    ensures r.Success? ==> r.value.content.id == Property(resp.data, "id")
    ensures r.Success? ==> r.value.content.projectName == Property(resp.data, "projectName")
    ensures r.Success? ==> r.value.content.size == Property(resp.data, "size")
    ensures r.Success? ==> r.value.content.fileType == Property(resp.data, "fileType")
    ensures r.Success? ==> r.value.content.messages == Property(resp.data, "messages")
    ensures r.Success? ==> r.value.links == Property(resp.data, "_links")
    ensures r.Success? ==> r.value.content.isBadRequest == Property(resp.data, "badRequest")
    ensures r.Success? ==> r.value.content.isParsed == Property(resp.data, "parsed")
  {
    if IsNullish(resp.data) then Failure(TypeError)
    else
      var d := resp.data;
      Success(EntityModel(
        ProjectInfo(
          Property(d, "id"),
          Property(d, "projectName"),
          Property(d, "size"),
          Property(d, "fileType"),
          Property(d, "messages"),
          Property(d, "badRequest"),
          Property(d, "parsed")),
        Property(d, "_links")))
  }

  /**
   * The server's wire form of a project record: the same values under the
   * server's names, `badRequest` and `parsed` instead of `isBadRequest` and `isParsed`.
   */
  function ToWire(m: EntityModel<ProjectInfo>): (w: Json)
    ensures w.Obj? && w.fields.Keys == ProjectInfoWireKeys
  {
    Obj(map[
      "id" := m.content.id,
      "projectName" := m.content.projectName,
      "size" := m.content.size,
      "fileType" := m.content.fileType,
      "messages" := m.content.messages,
      "badRequest" := m.content.isBadRequest,
      "parsed" := m.content.isParsed,
      "_links" := m.links])
  }

  /** Normalizing the wire form of a record gives the record back, whatever the reply's status. */
  lemma NormalizeWireRoundTrip(m: EntityModel<ProjectInfo>, status: int)
    ensures NormalizeToProjectInfo(Response(status, ToWire(m))) == Success(m)
  {
  }

  /**
   * Extra properties on the wire are dropped: a wire object extended with keys
   * outside the eight read normalizes exactly like the plain wire form.
   */
  lemma NormalizeIgnoresExtraFields(m: EntityModel<ProjectInfo>, extra: map<string, Json>, status: int)
    requires extra.Keys !! ProjectInfoWireKeys
    ensures NormalizeToProjectInfo(Response(status, Obj(extra + ToWire(m).fields))) == Success(m)
  {
  }

  /**
   * The result depends on the body's eight wire properties and nothing else:
   * not on the status, not on any other property of the body.
   */
  lemma OnlyWireKeysMatter(r1: Response, r2: Response)
    requires !IsNullish(r1.data) && !IsNullish(r2.data)
    requires forall k :: k in ProjectInfoWireKeys ==> Property(r1.data, k) == Property(r2.data, k)
    ensures NormalizeToProjectInfo(r1) == NormalizeToProjectInfo(r2)
  {
  }
}
