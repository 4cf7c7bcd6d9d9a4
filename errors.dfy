/**
 * `ExpressUGCProxyError` and its factories. An error's `extra` starts from a
 * default (500, `INTERNAL_SERVER_ERROR`) and each field given to the
 * constructor overrides it; the factories fix a reason and a default status.
 */
module Errors {

  import opened Wrappers
  import opened Http

  const ErrorName: string := "ExpressUGCProxyError"

  /** The static `details` every error starts from. */
  const DefaultDetails: ErrorDetails := ErrorDetails(InternalServerError, "INTERNAL_SERVER_ERROR")

  /** An error instance: its `name`, its `__XboxReplay__` marker and its `extra`. */
  datatype ProxyError = ProxyError(name: string, xboxReplay: bool, extra: ErrorDetails)

  /** `{ ...base, ...given }`: a key present in `given` wins, an absent one keeps `base`. */
  function Spread(base: ErrorDetails, given: PartialDetails): ErrorDetails {
    ErrorDetails(given.statusCode.GetOr(base.statusCode), given.reason.GetOr(base.reason))
  }

  /** The constructor: message and stack trace aside, it fixes the name, the marker and `extra`. */
  function NewProxyError(given: PartialDetails): (e: ProxyError)
    ensures e.name == ErrorName && e.xboxReplay
    ensures given.statusCode.Some? ==> e.extra.statusCode == given.statusCode.value
    ensures given.statusCode.None? ==> e.extra.statusCode == InternalServerError
    ensures given.reason.Some? ==> e.extra.reason == given.reason.value
    ensures given.reason.None? ==> e.extra.reason == "INTERNAL_SERVER_ERROR"
  {
    ProxyError(ErrorName, true, Spread(DefaultDetails, given))
  }

  /** An empty record leaves the base unchanged, and a full one replaces it outright. */
  lemma SpreadIdentities(base: ErrorDetails, d: ErrorDetails)
    ensures Spread(base, PartialDetails(None, None)) == base
    ensures Spread(base, PartialDetails(Some(d.statusCode), Some(d.reason))) == d
  {
  }

  /** The ten factories of the default export. */
  datatype Factory =
    | Internal
    | BadRequestError
    | IncorrectAuthenticationMethod
    | AuthorizationFetchFailed
    | FileFetchFailed
    | MissingAuthorization
    | FileNotFound
    | FileNameNotFound
    | MissingFileUris
    | MissingFileThumbnails

  /** The default of each factory's `statusCode` parameter. */
  function DefaultStatus(f: Factory): int {
    match f
    case BadRequestError => BadRequest
    case MissingAuthorization => Unauthorized
    case FileNotFound | FileNameNotFound | MissingFileUris | MissingFileThumbnails => NotFound
    case Internal | IncorrectAuthenticationMethod | AuthorizationFetchFailed | FileFetchFailed => InternalServerError
  }

  /** The reason each factory passes to the constructor; `internal` passes none. */
  function SuppliedReason(f: Factory): Option<string> {
    match f
    case Internal => None
    case BadRequestError => Some("BAD_REQUEST")
    case IncorrectAuthenticationMethod => Some("MISSING_OR_INVALID_AUTHENTICATION_METHOD")
    case AuthorizationFetchFailed => Some("XBL_AUTHORIZATION_FETCH_FAILED")
    case FileFetchFailed => Some("FILE_FETCH_FAILED")
    case MissingAuthorization => Some("MISSING_XBL_AUTHORIZATION")
    case FileNotFound => Some("FILE_NOT_FOUND")
    case FileNameNotFound => Some("FILE_NAME_NOT_FOUND")
    case MissingFileUris => Some("MISSING_FILE_URIS")
    case MissingFileThumbnails => Some("MISSING_FILE_THUMBNAILS")
  }

  /**
   * Calling a factory; `statusCode` is `None` when the argument is omitted (or
   * `undefined`), which selects the parameter's default.
   */
  function Make(f: Factory, statusCode: Option<int>): (e: ProxyError)
    ensures e.name == ErrorName && e.xboxReplay
    ensures e.extra.statusCode == (if statusCode.Some? then statusCode.value else DefaultStatus(f))
  {
    NewProxyError(PartialDetails(Some(statusCode.GetOr(DefaultStatus(f))), SuppliedReason(f)))
  }

  /** The reason an error from `f` carries. */
  function ReasonOf(f: Factory): string {
    Make(f, None).extra.reason
  }

  /** The factory whose errors carry `reason`, if any. */
  function FactoryOf(reason: string): Option<Factory> {
    match reason
    case "INTERNAL_SERVER_ERROR" => Some(Internal)
    case "BAD_REQUEST" => Some(BadRequestError)
    case "MISSING_OR_INVALID_AUTHENTICATION_METHOD" => Some(IncorrectAuthenticationMethod)
    case "XBL_AUTHORIZATION_FETCH_FAILED" => Some(AuthorizationFetchFailed)
    case "FILE_FETCH_FAILED" => Some(FileFetchFailed)
    case "MISSING_XBL_AUTHORIZATION" => Some(MissingAuthorization)
    case "FILE_NOT_FOUND" => Some(FileNotFound)
    case "FILE_NAME_NOT_FOUND" => Some(FileNameNotFound)
    case "MISSING_FILE_URIS" => Some(MissingFileUris)
    case "MISSING_FILE_THUMBNAILS" => Some(MissingFileThumbnails)
    case _ => None
  }

  /** A factory's reason does not depend on the status passed to it; `internal` keeps the default reason. */
  lemma ReasonIgnoresStatus(f: Factory, statusCode: Option<int>)
    ensures Make(f, statusCode).extra.reason == ReasonOf(f)
    ensures ReasonOf(Internal) == "INTERNAL_SERVER_ERROR"
    ensures f != Internal ==> ReasonOf(f) == SuppliedReason(f).value
  {
  }

  /** The reason names its factory: the ten reasons are distinct, so a reason fixes the default status. */
  lemma ReasonIdentifiesFactory(f: Factory)
    ensures FactoryOf(ReasonOf(f)) == Some(f)
  {
  }

  lemma ReasonsDistinct(f: Factory, g: Factory)
    ensures ReasonOf(f) == ReasonOf(g) <==> f == g
  {
    ReasonIdentifiesFactory(f);
    ReasonIdentifiesFactory(g);
  }

  /** Default statuses: 400 for bad requests, 401 for missing authorization, 404 for the four not-found kinds, 500 for the rest. */
  lemma DefaultStatusTable(f: Factory)
    ensures Make(f, None).extra.statusCode == DefaultStatus(f)
    ensures DefaultStatus(f) == BadRequest <==> f == BadRequestError
    ensures DefaultStatus(f) == Unauthorized <==> f == MissingAuthorization
    ensures DefaultStatus(f) == NotFound <==> f in {FileNotFound, FileNameNotFound, MissingFileUris, MissingFileThumbnails}
    ensures DefaultStatus(f) == InternalServerError <==> f in {Internal, IncorrectAuthenticationMethod, AuthorizationFetchFailed, FileFetchFailed}
  {
  }
}
