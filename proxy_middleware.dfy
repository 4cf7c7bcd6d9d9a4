/**
 * The request handler: it resolves the authorization, cuts the request path
 * into five positional parameters, validates them in a fixed order, asks the
 * metadata API for the file and forwards to the file's URI, or reports an
 * `ErrorDetails` through the configured responder.
 *
 * The metadata API call is a parameter (`api`); forwarding is represented by
 * the chosen URI.
 */
module ProxyMiddleware {

  import opened Wrappers
  import opened Http
  import FileDefinitions
  import MiddlewareUtils
  import PathText
  import Errors
  import Numerals

  /** The middleware's private copy of the supported types. */
  const SupportedTypes: seq<string> := ["gameclips", "screenshots"]

  /** The private list is the one exported by the file definitions. */
  lemma SupportedTypesMatchDefinitions()
    ensures SupportedTypes == FileDefinitions.FileTypes
  {
  }

  // ---------------------------------------------------------------- parameters

  /** The five positional parameters; `None` where the path has no piece at that position. */
  datatype RequestParameters = RequestParameters(
    fileType: Option<string>, xuid: Option<string>, scid: Option<string>,
    fileId: Option<string>, fileName: Option<string>)

  /** Array destructuring with `= null` defaults: a missing position becomes `None`. */
  function PieceAt(pieces: seq<string>, i: nat): Option<string> {
    if i < |pieces| then Some(pieces[i]) else None
  }

  /**
   * `getRequestParameters`: split the path on `/`, drop the first piece, take
   * five. A path without `/` has no parameters at all, and once a position is
   * missing every later one is missing too.
   */
  function GetRequestParameters(path: string): (p: RequestParameters)
    ensures p.fileType.None? <==> '/' !in path
    ensures p.fileType.None? ==> p.xuid.None?
    ensures p.xuid.None? ==> p.scid.None?
    ensures p.scid.None? ==> p.fileId.None?
    ensures p.fileId.None? ==> p.fileName.None?
  {
    PathText.SplitIsOnePiece(path);
    var pieces := PathText.Split(path)[1..];
    RequestParameters(PieceAt(pieces, 0), PieceAt(pieces, 1), PieceAt(pieces, 2),
                      PieceAt(pieces, 3), PieceAt(pieces, 4))
  }

  /**
   * For a path made of a leading piece and slash-free segments, parameter i is
   * segment i when there is one and `None` otherwise; empty segments stay `""`
   * and segments past the fifth are ignored.
   */
  lemma RequestParametersOfPath(head: string, segments: seq<string>)
    requires '/' !in head
    requires forall i :: 0 <= i < |segments| ==> '/' !in segments[i]
    ensures GetRequestParameters(PathText.JoinWith([head] + segments, "/"))
            == RequestParameters(PieceAt(segments, 0), PieceAt(segments, 1), PieceAt(segments, 2),
                                 PieceAt(segments, 3), PieceAt(segments, 4))
  {
    PathText.SplitJoin([head] + segments);
    assert ([head] + segments)[1..] == segments;
  }

  /** An empty piece (as in `/gameclips//x`) is an empty parameter, not a missing one. */
  lemma EmptyPieceIsNotMissing()
    ensures GetRequestParameters(PathText.JoinWith(["", "gameclips", "", "x"], "/")).xuid == Some("")
    ensures GetRequestParameters(PathText.JoinWith(["", "gameclips"], "/")).xuid == None
  {
    assert [""] + ["gameclips", "", "x"] == ["", "gameclips", "", "x"];
    RequestParametersOfPath("", ["gameclips", "", "x"]);
    assert [""] + ["gameclips"] == ["", "gameclips"];
    RequestParametersOfPath("", ["gameclips"]);
  }

  // ---------------------------------------------------------------- validation cascade

  datatype Slot = TypeSlot | XuidSlot | ScidSlot | FileIdSlot

  /** One step of the cascade: which parameter, and the reasons for "missing" and "invalid". */
  datatype ParameterCheck = ParameterCheck(slot: Slot, missingReason: string, invalidReason: string)

  /** The checks in the order the handler runs them. */
  const ParameterChecks: seq<ParameterCheck> := [
    ParameterCheck(TypeSlot, "MISSING_TYPE_PARAMETER", "NON_SUPPORTED_TYPE_PARAMETER"),
    ParameterCheck(XuidSlot, "MISSING_XUID_PARAMETER", "INVALID_XUID_PARAMETER"),
    ParameterCheck(ScidSlot, "MISSING_SCID_PARAMETER", "INVALID_SCID_PARAMETER"),
    ParameterCheck(FileIdSlot, "MISSING_FILE_ID_PARAMETER", "INVALID_FILE_ID_PARAMETER")
  ]

  function SlotValue(p: RequestParameters, slot: Slot): Option<string> {
    match slot
    case TypeSlot => p.fileType
    case XuidSlot => p.xuid
    case ScidSlot => p.scid
    case FileIdSlot => p.fileId
  }

  predicate Accepts(slot: Slot, value: string) {
    match slot
    case TypeSlot => value in SupportedTypes
    case XuidSlot => MiddlewareUtils.IsValidXUID(Some(value))
    case ScidSlot => MiddlewareUtils.IsValidUUID(Some(value))
    case FileIdSlot => MiddlewareUtils.IsValidUUID(Some(value))
  }

  predicate Passes(p: RequestParameters, c: ParameterCheck) {
    SlotValue(p, c.slot).Some? && Accepts(c.slot, SlotValue(p, c.slot).value)
  }

  /** What a failing check reports: always 400, "missing" for `null`, "invalid" otherwise. */
  function FailureOf(p: RequestParameters, c: ParameterCheck): ErrorDetails {
    ErrorDetails(BadRequest, if SlotValue(p, c.slot).None? then c.missingReason else c.invalidReason)
  }

  /** The position of the first failing check, or `|checks|` when all pass. */
  function FirstFailing(p: RequestParameters, checks: seq<ParameterCheck>): (k: nat)
    ensures k <= |checks|
    ensures forall j :: 0 <= j < k ==> Passes(p, checks[j])
    ensures k < |checks| ==> !Passes(p, checks[k])
  {
    if checks == [] then 0
    else if !Passes(p, checks[0]) then 0
    else 1 + FirstFailing(p, checks[1..])
  }

  /** The table's checks, one by one. */
  lemma FirstFailingInTableOrder(p: RequestParameters)
    ensures FirstFailing(p, ParameterChecks)
      == if !Passes(p, ParameterChecks[0]) then 0
         else if !Passes(p, ParameterChecks[1]) then 1
         else if !Passes(p, ParameterChecks[2]) then 2
         else if !Passes(p, ParameterChecks[3]) then 3
         else 4
  {
    var cs := ParameterChecks;
    assert cs[1..][1..][1..][1..] == [];
    assert cs[1..][0] == cs[1] && cs[1..][1..][0] == cs[2] && cs[1..][1..][1..][0] == cs[3];
  }

  /**
   * The handler's if-chain over type, xuid, scid and file id. The first
   * failing check alone decides the error; when all pass, the result is the
   * metadata URI built from the four parameters (the file name is not used).
   */
  function CheckParameters(p: RequestParameters): (r: Result<string, ErrorDetails>)
    ensures var k := FirstFailing(p, ParameterChecks);
      && (r.Failure? <==> k < |ParameterChecks|)
      && (r.Failure? ==> r.error == FailureOf(p, ParameterChecks[k]))
    ensures r.Success? ==>
      && p.fileType.Some? && p.xuid.Some? && p.scid.Some? && p.fileId.Some?
      && r.value == MiddlewareUtils.ComputeFileMetadataUri(p.fileType.value, p.xuid.value, p.scid.value, p.fileId.value)
  {
    FirstFailingInTableOrder(p);
    if p.fileType.None? then Failure(ErrorDetails(BadRequest, "MISSING_TYPE_PARAMETER"))
    else if p.fileType.value !in SupportedTypes then Failure(ErrorDetails(BadRequest, "NON_SUPPORTED_TYPE_PARAMETER"))
    else if p.xuid.None? then Failure(ErrorDetails(BadRequest, "MISSING_XUID_PARAMETER"))
    else if !MiddlewareUtils.IsValidXUID(p.xuid) then Failure(ErrorDetails(BadRequest, "INVALID_XUID_PARAMETER"))
    else if p.scid.None? then Failure(ErrorDetails(BadRequest, "MISSING_SCID_PARAMETER"))
    else if !MiddlewareUtils.IsValidUUID(p.scid) then Failure(ErrorDetails(BadRequest, "INVALID_SCID_PARAMETER"))
    else if p.fileId.None? then Failure(ErrorDetails(BadRequest, "MISSING_FILE_ID_PARAMETER"))
    else if !MiddlewareUtils.IsValidUUID(p.fileId) then Failure(ErrorDetails(BadRequest, "INVALID_FILE_ID_PARAMETER"))
    else Success(MiddlewareUtils.ComputeFileMetadataUri(p.fileType.value, p.xuid.value, p.scid.value, p.fileId.value))
  }

  /**
   * The path a client builds from a supported type, a valid owner id and two
   * valid UUIDs, followed by any file name, passes every check and leads to
   * the metadata URI of exactly those parts.
   */
  lemma ValidFilePathAccepted(fileType: string, xuid: string, scid: string, fileId: string, fileName: string)
    requires fileType in SupportedTypes
    requires MiddlewareUtils.IsValidXUID(Some(xuid))
    requires MiddlewareUtils.IsValidUUID(Some(scid)) && MiddlewareUtils.IsValidUUID(Some(fileId))
    requires '/' !in fileName
    ensures CheckParameters(GetRequestParameters(PathText.JoinWith(["", fileType, xuid, scid, fileId, fileName], "/")))
            == Success(MiddlewareUtils.ComputeFileMetadataUri(fileType, xuid, scid, fileId))
  {
    SupportedTypeIsOnePiece(fileType);
    assert '/' !in xuid && '/' !in scid && '/' !in fileId;
    JoinedPathParameters(fileType, xuid, scid, fileId, fileName);
    ValidParametersAccepted(RequestParameters(Some(fileType), Some(xuid), Some(scid), Some(fileId), Some(fileName)));
  }

  lemma SupportedTypeIsOnePiece(fileType: string)
    requires fileType in SupportedTypes
    ensures '/' !in fileType
  {
    assert fileType == "gameclips" || fileType == "screenshots";
  }

  /** The parameters read from `/type/xuid/scid/fileId/fileName` when no part holds a `/`. */
  lemma JoinedPathParameters(fileType: string, xuid: string, scid: string, fileId: string, fileName: string)
    requires '/' !in fileType && '/' !in xuid && '/' !in scid && '/' !in fileId && '/' !in fileName
    ensures GetRequestParameters(PathText.JoinWith(["", fileType, xuid, scid, fileId, fileName], "/"))
            == RequestParameters(Some(fileType), Some(xuid), Some(scid), Some(fileId), Some(fileName))
  {
    var segments := [fileType, xuid, scid, fileId, fileName];
    assert forall i :: 0 <= i < |segments| ==> '/' !in segments[i];
    assert [""] + segments == ["", fileType, xuid, scid, fileId, fileName];
    RequestParametersOfPath("", segments);
  }

  lemma ValidParametersAccepted(p: RequestParameters)
    requires p.fileType.Some? && p.fileType.value in SupportedTypes
    requires MiddlewareUtils.IsValidXUID(p.xuid)
    requires MiddlewareUtils.IsValidUUID(p.scid) && MiddlewareUtils.IsValidUUID(p.fileId)
    ensures CheckParameters(p)
            == Success(MiddlewareUtils.ComputeFileMetadataUri(p.fileType.value, p.xuid.value, p.scid.value, p.fileId.value))
  {
  }

  /** An empty parameter fails its check, so it is reported as invalid (never as missing). */
  lemma EmptyValueFailsEveryCheck(slot: Slot)
    ensures !Accepts(slot, "")
  {
    Numerals.ValueBoundsByLength("", 16);
  }

  // ---------------------------------------------------------------- authorization

  /** The authorization a request runs with (`userHash`, `XSTSToken`). */
  datatype Credentials = Credentials(userHash: string, xstsToken: string)

  /** What awaiting an authorization generator gives. */
  datatype GeneratedValue =
    | GeneratorRejected          // the promise rejected: `.catch(() => null)`
    | ResolvedObject(credentials: Credentials)
    | ResolvedNull
    | ResolvedNonObject          // `typeof response !== 'object'`

  /** The `authorization` argument of `handle`. */
  datatype AuthorizationArg =
    | NoAuthorization            // `null` or `undefined`
    | Given(credentials: Credentials)
    | Generator(generated: GeneratedValue)

  function ResolveAuthorization(a: AuthorizationArg): (r: Result<Credentials, ErrorDetails>)
    ensures a.NoAuthorization? ==> r == Failure(ErrorDetails(Unauthorized, "MISSING_AUTHORIZATION"))
    ensures a.Generator? && !a.generated.ResolvedObject? ==> r == Failure(ErrorDetails(Unauthorized, "EMPTY_AUTHORIZATION"))
    ensures r.Success? <==> a.Given? || (a.Generator? && a.generated.ResolvedObject?)
    ensures r.Success? ==> r.value == (if a.Given? then a.credentials else a.generated.credentials)
  {
    match a
    case NoAuthorization => Failure(ErrorDetails(Unauthorized, "MISSING_AUTHORIZATION"))
    case Given(c) => Success(c)
    case Generator(g) =>
      if g.ResolvedObject? then Success(g.credentials)
      else Failure(ErrorDetails(Unauthorized, "EMPTY_AUTHORIZATION"))
  }

  // ---------------------------------------------------------------- metadata response

  datatype FileUri = FileUri(uri: string)
  datatype ScreenshotNode = ScreenshotNode(screenshotUris: seq<FileUri>)
  datatype GameclipNode = GameclipNode(gameClipUris: seq<FileUri>)

  /** A node of the metadata response: `undefined`, `null`, or an object. */
  datatype Node<T> = Undefined | Null | Present(node: T)

  /**
   * The metadata response, destructured into its two nodes. A response that is
   * a primitive (not an object) destructures to two `undefined` nodes.
   */
  datatype MetadataResponse = MetadataResponse(screenshot: Node<ScreenshotNode>, gameClip: Node<GameclipNode>)

  /** A thrown error, seen through its `extra` record (`None` when it has none). */
  datatype Thrown = Thrown(extra: Option<PartialDetails>)

  /**
   * The `TypeError` raised inside the `.then` callback when a property of
   * `null` or `undefined` is read: destructuring a `null` response, reading the
   * URI list of a `null` node, or reading `.uri` of the first element of an
   * empty list. It carries no `extra`.
   */
  const TypeErrorInCallback: Thrown := Thrown(None)

  /** How the metadata API call settles; `RespondedNull` is a resolution to `null` or `undefined`. */
  datatype CallOutcome = Responded(response: MetadataResponse) | RespondedNull | Threw(error: Thrown)

  /** What the handler decides: forward to a file URI, or report an error. */
  datatype Outcome = Forward(fileUri: string) | Reject(details: ErrorDetails)

  /**
   * The `.catch` mapping: `extra.statusCode` and `extra.reason` when present and
   * truthy (a status of 0 or a reason of `''` is falsy), else 500 and `INTERNAL_ERROR`.
   */
  function Caught(e: Thrown): (d: ErrorDetails)
    ensures d.statusCode != 0 && d.reason != ""
    ensures e.extra.Some? && e.extra.value.statusCode.Some? && e.extra.value.statusCode.value != 0
            ==> d.statusCode == e.extra.value.statusCode.value
    ensures !(e.extra.Some? && e.extra.value.statusCode.Some? && e.extra.value.statusCode.value != 0)
            ==> d.statusCode == InternalServerError
    ensures e.extra.Some? && e.extra.value.reason.Some? && e.extra.value.reason.value != ""
            ==> d.reason == e.extra.value.reason.value
    ensures !(e.extra.Some? && e.extra.value.reason.Some? && e.extra.value.reason.value != "")
            ==> d.reason == "INTERNAL_ERROR"
  {
    var status := if e.extra.Some? && e.extra.value.statusCode.Some? then e.extra.value.statusCode.value else 0;
    var reason := if e.extra.Some? && e.extra.value.reason.Some? then e.extra.value.reason.value else "";
    ErrorDetails(if status != 0 then status else InternalServerError,
                 if reason != "" then reason else "INTERNAL_ERROR")
  }

  /** An error built by the error factories keeps its own status and reason through the `.catch`. */
  lemma CaughtProxyErrorKeepsDetails(f: Errors.Factory, statusCode: Option<int>)
    requires statusCode != Some(0)
    ensures var e := Errors.Make(f, statusCode);
      Caught(Thrown(Some(PartialDetails(Some(e.extra.statusCode), Some(e.extra.reason))))) == e.extra
  {
    var e := Errors.Make(f, statusCode);
    Errors.ReasonIgnoresStatus(f, statusCode);
    assert e.extra.reason != "" by {
      if f != Errors.Internal {
        assert Errors.SuppliedReason(f).value != "";
      }
    }
  }

  /**
   * The `.then` branch: two `undefined` nodes give 404 `FILE_NOT_FOUND`;
   * otherwise a screenshot node that is not `undefined` is preferred over the
   * gameclip node. Reading through a `null` node or an empty URI list throws,
   * which the `.catch` turns into 500 `INTERNAL_ERROR`.
   */
  function SelectFileUri(m: MetadataResponse): (o: Outcome)
    ensures m.screenshot.Undefined? && m.gameClip.Undefined? <==> o == Reject(ErrorDetails(NotFound, "FILE_NOT_FOUND"))
    ensures m.screenshot.Present? ==>
      if |m.screenshot.node.screenshotUris| > 0 then o == Forward(m.screenshot.node.screenshotUris[0].uri)
      else o == Reject(ErrorDetails(InternalServerError, "INTERNAL_ERROR"))
    ensures m.screenshot.Undefined? && m.gameClip.Present? ==>
      if |m.gameClip.node.gameClipUris| > 0 then o == Forward(m.gameClip.node.gameClipUris[0].uri)
      else o == Reject(ErrorDetails(InternalServerError, "INTERNAL_ERROR"))
    ensures m.screenshot.Null? || (m.screenshot.Undefined? && m.gameClip.Null?) ==>
      o == Reject(ErrorDetails(InternalServerError, "INTERNAL_ERROR"))
  {
    if m.screenshot.Undefined? && m.gameClip.Undefined? then
      Reject(ErrorDetails(NotFound, "FILE_NOT_FOUND"))
    else if m.screenshot.Null? || (m.screenshot.Undefined? && m.gameClip.Null?) then
      Reject(Caught(TypeErrorInCallback))
    else
      var uris := if m.screenshot.Present? then m.screenshot.node.screenshotUris else m.gameClip.node.gameClipUris;
      if |uris| == 0 then Reject(Caught(TypeErrorInCallback))
      else Forward(uris[0].uri)
  }

  /**
   * How the call's settlement becomes an outcome. Only a response object can
   * lead to a forward, and every rejection carries a truthy status and reason.
   */
  function Settle(c: CallOutcome): (o: Outcome)
    ensures c.Responded? ==> o == SelectFileUri(c.response)
    ensures c.Threw? ==> o == Reject(Caught(c.error))
    ensures o.Forward? ==> c.Responded?
    ensures c.RespondedNull? ==> o == Reject(ErrorDetails(InternalServerError, "INTERNAL_ERROR"))
    ensures o.Reject? ==> o.details.statusCode != 0 && o.details.reason != ""
  {
    match c
    case Responded(m) => SelectFileUri(m)
    case RespondedNull => Reject(Caught(TypeErrorInCallback))
    case Threw(e) => Reject(Caught(e))
  }

  /**
   * `handle`, decided: authorization first, then the parameter cascade, then
   * one call of the metadata API with the computed URI. A request is forwarded
   * only when it is authorized and passes all four checks, and every
   * rejection carries a truthy status and reason.
   */
  function Decide(a: AuthorizationArg, path: string, api: (string, Credentials) -> CallOutcome): (o: Outcome)
    ensures ResolveAuthorization(a).Failure? ==> o == Reject(ResolveAuthorization(a).error)
    ensures o.Forward? ==> ResolveAuthorization(a).Success? && CheckParameters(GetRequestParameters(path)).Success?
    ensures o.Reject? ==> o.details.statusCode != 0 && o.details.reason != ""
  {
    match ResolveAuthorization(a)
    case Failure(d) => Reject(d)
    case Success(credentials) =>
      match CheckParameters(GetRequestParameters(path))
      case Failure(d) => Reject(d)
      case Success(uri) => Settle(api(uri, credentials))
  }

  /** A missing authorization is reported before any path parameter is looked at. */
  lemma MissingAuthorizationFirst(path: string, api: (string, Credentials) -> CallOutcome)
    ensures Decide(NoAuthorization, path, api) == Reject(ErrorDetails(Unauthorized, "MISSING_AUTHORIZATION"))
  {
  }

  /**
   * A generator that rejects, or resolves to `null` or a non-object, is
   * reported as 401 `EMPTY_AUTHORIZATION` before any path parameter is looked at.
   */
  lemma EmptyAuthorizationFirst(g: GeneratedValue, path: string, api: (string, Credentials) -> CallOutcome)
    requires !g.ResolvedObject?
    ensures Decide(Generator(g), path, api) == Reject(ErrorDetails(Unauthorized, "EMPTY_AUTHORIZATION"))
  {
  }

  /** When any parameter check fails, the metadata API is not consulted: every API gives the same outcome. */
  lemma NoFetchOnInvalidParameters(a: AuthorizationArg, path: string,
                                   api1: (string, Credentials) -> CallOutcome,
                                   api2: (string, Credentials) -> CallOutcome)
    requires FirstFailing(GetRequestParameters(path), ParameterChecks) < |ParameterChecks|
    ensures Decide(a, path, api1) == Decide(a, path, api2)
    ensures ResolveAuthorization(a).Success? ==>
      Decide(a, path, api1) == Reject(FailureOf(GetRequestParameters(path),
                                       ParameterChecks[FirstFailing(GetRequestParameters(path), ParameterChecks)]))
  {
  }

  /**
   * When authorization and all four checks pass, the outcome is the API's
   * answer to the computed URI, asked with the given credentials or with the
   * object the generator resolved to.
   */
  lemma FetchUsesComputedUri(a: AuthorizationArg, path: string, api: (string, Credentials) -> CallOutcome)
    requires ResolveAuthorization(a).Success?
    requires FirstFailing(GetRequestParameters(path), ParameterChecks) == |ParameterChecks|
    ensures var p := GetRequestParameters(path);
      var c := if a.Given? then a.credentials else a.generated.credentials;
      Decide(a, path, api)
      == Settle(api(MiddlewareUtils.ComputeFileMetadataUri(p.fileType.value, p.xuid.value, p.scid.value, p.fileId.value), c))
  {
  }

  /** The file name (fifth piece) never influences the outcome. */
  lemma FileNameIgnored(a: AuthorizationArg, path1: string, path2: string, api: (string, Credentials) -> CallOutcome)
    requires GetRequestParameters(path1).(fileName := None) == GetRequestParameters(path2).(fileName := None)
    ensures Decide(a, path1, api) == Decide(a, path2, api)
  {
    var p1, p2 := GetRequestParameters(path1), GetRequestParameters(path2);
    assert p1.fileType == p2.fileType && p1.xuid == p2.xuid && p1.scid == p2.scid && p1.fileId == p2.fileId;
    assert CheckParameters(p1) == CheckParameters(p2);
  }

  // ---------------------------------------------------------------- responders

  /** The `onRequestError` option: absent, a function, or some other value. */
  datatype HandlerOption = NoHandler | FunctionHandler | NonFunctionValue

  datatype MiddlewareOptions = MiddlewareOptions(onRequestError: HandlerOption, displayErrorReason: Option<bool>)

  /** Who reports an error: the default responder, or the caller's handler. */
  datatype Responder = DefaultResponder(displayErrorReason: bool) | CallerHandler

  /** The `onRequestError` closure built by the constructor. */
  function ResponderFor(options: MiddlewareOptions): (r: Responder)
    ensures r.CallerHandler? <==> options.onRequestError.FunctionHandler?
    ensures r.DefaultResponder? ==> (r.displayErrorReason <==> options.displayErrorReason == Some(true))
  {
    if options.onRequestError.FunctionHandler? then CallerHandler
    else DefaultResponder(options.displayErrorReason.GetOr(false))
  }

  /** What happens to the response. */
  datatype Reply =
    | Proxied(fileUri: string)
    | Sent(statusCode: int, body: Option<string>)
    | HandedToCaller(details: ErrorDetails)

  function Render(responder: Responder, o: Outcome): (reply: Reply)
    ensures o.Forward? ==> reply == Proxied(o.fileUri)
    ensures o.Reject? && responder.CallerHandler? ==> reply == HandedToCaller(o.details)
    ensures o.Reject? && responder.DefaultResponder? ==>
      reply.Sent? && reply.statusCode == o.details.statusCode
      && (reply.body.Some? <==> responder.displayErrorReason)
      && (reply.body.Some? ==> reply.body.value == o.details.reason)
  {
    match o
    case Forward(uri) => Proxied(uri)
    case Reject(d) =>
      match responder
      case CallerHandler => HandedToCaller(d)
      case DefaultResponder(display) => Sent(d.statusCode, if display then Some(d.reason) else None)
  }

  /** One middleware instance per request. */
  class Middleware {
    const path: string
    const responder: Responder
    /** What the instance has done with the response so far. */
    var reply: Option<Reply>

    constructor (path: string, options: MiddlewareOptions)
      ensures this.path == path && responder == ResponderFor(options) && reply == None
    {
      this.path := path;
      responder := ResponderFor(options);
      reply := None;
    }

    /** `handle`: the early-return cascade, ending in one reply; an instance handles one request. */
    method Handle(authorization: AuthorizationArg, api: (string, Credentials) -> CallOutcome)
      requires reply == None
      modifies this
      ensures reply == Some(Render(responder, Decide(authorization, path, api)))
    {
      var credentials: Credentials;
      match authorization {
        case NoAuthorization =>
          reply := Some(Render(responder, Reject(ErrorDetails(Unauthorized, "MISSING_AUTHORIZATION"))));
          return;
        case Given(c) =>
          credentials := c;
        case Generator(g) =>
          if !g.ResolvedObject? {
            reply := Some(Render(responder, Reject(ErrorDetails(Unauthorized, "EMPTY_AUTHORIZATION"))));
            return;
          }
          credentials := g.credentials;
      }
      var p := GetRequestParameters(path);
      var checked := CheckParameters(p);
      if checked.Failure? {
        reply := Some(Render(responder, Reject(checked.error)));
        return;
      }
      var call := api(checked.value, credentials);
      reply := Some(Render(responder, Settle(call)));
    }
  }
}
