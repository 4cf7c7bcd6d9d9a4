# express-ugc-proxy, modelled in Dafny

A model of the core of express-ugc-proxy, an Express middleware that serves
Xbox Live user-generated content (game clips and screenshots) through your own
domain. A request path of the form `/<type>/<xuid>/<scid>/<fileId>/<fileName>`
is cut into five positional parameters. These are checked in a fixed order:
type, then owner XUID, then service-config id, then file id. The Xbox Live
metadata endpoint for the file is then computed and asked for the file's URIs,
and the request is forwarded to the first URI. Every failure becomes an
`ErrorDetails` (HTTP status and reason code). The configured responder reports
it: either the caller's `onRequestError`, or a default reply with the status
and, optionally, the reason.

The model also covers the pieces around the handler that the repository ships:

- the validators;
- the error factories;
- the file-name tables;
- the two example apps' cached authorization resolver, written twice;
- the HTML5 player's template placeholder substitution.

Modules, one per source file:

| module | models |
|---|---|
| `Wrappers` | `Option` / `Result` |
| `Http` | the status codes used (400, 401, 404, 500 — sections 15.5.1, 15.5.2, 15.5.5 and 15.6.1 of RFC 9110) and `ErrorDetails` |
| `Numerals` | decimal digit strings, their value, and their significant digits (the count `String(Number(s))` is checked against) |
| `PathText` | `split('/')` and `join` on strings |
| `FileDefinitions` | `src/middleware/file-definitions.ts` |
| `Validations` | `src/middleware/validations.ts` (the UUID regular expression as a sequence of character classes) |
| `MiddlewareUtils` | `src/middleware/utils.ts` (its own UUID and XUID checks, proved to agree with the validators, and the metadata URI builder with an inverse parser) |
| `Errors` | `src/middleware/errors.ts` (object spread of `extra` over the defaults; the ten factories) |
| `ProxyMiddleware` | `src/middleware/index.ts` (parameters, validation cascade, authorization, metadata response handling, `.catch`, responders, and a `Middleware` class whose `Handle` method runs the early-return cascade) |
| `XblAuthorization` | `examples/with-html5-player/src/xbl-authorization.ts` (a class holding the cached token, with specification functions for reuse and refresh) |
| `ExampleAuthenticate` | `example/src/modules/authenticate.ts` (an independent body proved against the same specification) |
| `PlayerTemplates` | `examples/with-html5-player/src/utils.ts` `replacePlaceholders` (a loop over the keys) |

The metadata API call and the token service are parameters. The handler
receives the API as a function from (URI, credentials) to a settled outcome.
The resolver receives the current time and what authenticating would return.

## Model

| member | source | states |
|---|---|---|
| Validations.UuidPatternLayout | src/middleware/validations.ts:11-15 | the regular expression has 36 positions: hex digits, dashes at 8, 13, 18 and 23, the version class at 14 and the variant class at 19 |
| Validations.IsValidUUID | src/middleware/validations.ts:11-15 | an accepted entry is present, 36 characters long, with dashes at 8, 13, 18 and 23, a version digit 1-5 at 14 and a variant 8, 9, a or b (either case) at 19 |
| Validations.IsValidFileId | src/middleware/validations.ts:19 | accepts exactly the entries the UUID check accepts |
| Validations.IsValidFileScid | src/middleware/validations.ts:20 | accepts exactly the entries the UUID check accepts |
| Validations.IsValidFileType | src/middleware/validations.ts:22-23 | accepts an entry if and only if it is `gameclips` or `screenshots`; a missing entry is rejected |
| Validations.IsValidOwnerXUID | src/middleware/validations.ts:25-28 | an accepted owner id is present and is a digit string of at least 16 characters |
| Validations.OwnerXuidByDigitCount | src/middleware/validations.ts:25-28 | for a digit string with no leading zero and at most 20 digits, the owner id is accepted if and only if it has at least 16 digits |
| Validations.EmptyEntriesRejected | src/middleware/validations.ts:11-28 | a missing or empty entry is neither a valid UUID nor a valid owner id |
| Validations.DemoOwnerIdAccepted | src/middleware/validations.ts:25-28 | the 16-digit owner id of the demo clip is accepted |
| Validations.ShortOwnerIdRejected | src/middleware/validations.ts:25-28 | a three-digit owner id is rejected |
| Validations.IsValidFileNameForType | src/middleware/validations.ts:30-40 | for `gameclips` the name must be a game-clip file name, for `screenshots` a screenshot file name, and any other type rejects every name |
| Validations.FileNamesPerType | src/middleware/validations.ts:30-40 | thumbnails are valid for both types, `gameclip.mp4` only for game clips, `screenshot.png` only for screenshots |
| FileDefinitions.FileNameListsAreSets | src/middleware/file-definitions.ts:1-13 | the type list and both file-name lists have the stated sizes and no duplicates |
| FileDefinitions.FileNamesByType | src/middleware/file-definitions.ts:3-13 | which file names belong to which type's list |
| Numerals.DecimalValue | src/middleware/validations.ts:25-28 | the value of `n` digits is below 10^n |
| Numerals.StripLeadingZeros | src/middleware/utils.ts:7-10 | the significant digits of a digit string are a suffix of it with no leading zero, and they keep its value |
| Numerals.ValueBoundsByLength | src/middleware/validations.ts:25-28 | for digits with no leading zero, the value is at least 10^k exactly when there are more than k digits, and below 10^k exactly when there are at most k |
| MiddlewareUtils.IsValidUUID | src/middleware/utils.ts:1-5 | an accepted entry is present, 36 characters long, and holds no `/` |
| MiddlewareUtils.UuidCopiesAgree | src/middleware/utils.ts:1-5 | the middleware's copy of the UUID check accepts exactly what the validators' copy accepts |
| MiddlewareUtils.ValidUuidIsOnePiece | src/middleware/utils.ts:1-5 | a string laid out as the UUID expression demands (hexadecimal groups and dashes) contains no `/` |
| MiddlewareUtils.IsValidXUID | src/middleware/utils.ts:7-10 | an accepted entry is present and is a digit string of at least 16 characters, so it holds no `/` |
| MiddlewareUtils.XuidCopiesAgree | src/middleware/utils.ts:7-10 | the middleware's XUID check, read as "at least 16 and at most 20 significant digits" (for such digit strings, at least 16 significant digits holds exactly when `String(Number(s))` has at least 16 characters), accepts exactly what the validators' numeric check accepts |
| MiddlewareUtils.DemoXuids | src/middleware/utils.ts:7-10 | the demo owner id is accepted and `123` is rejected |
| MiddlewareUtils.ComputeFileMetadataUri | src/middleware/utils.ts:12-20 | the URI starts with `https://<type>metadata.xboxlive.com/users/xuid(` and ends with `/<fileId>` |
| MiddlewareUtils.ComputedUriLayers | src/middleware/utils.ts:12-20 | the URI is the scheme, type, host and user prefix, the owner id, the scids segment, the scid, then the collection (`clips` for game clips) and the file id |
| MiddlewareUtils.ParseComputedUri | src/middleware/utils.ts:12-20 | parsing a computed URI gives back its type, owner id, scid and file id, when the type is supported, the owner id has no `)` and the scid is 36 characters long |
| MiddlewareUtils.ValidPartsParseBack | src/middleware/utils.ts:12-20 | for a supported type, an accepted XUID and an accepted scid, parsing the computed URI gives back exactly the four parts |
| PathText.Split | src/middleware/index.ts:190 | `split('/')` yields at least one piece, no piece holds `/`, and joining the pieces with `/` restores the path |
| PathText.SplitJoin | src/middleware/index.ts:190 | splitting a join of slash-free pieces yields those pieces |
| PathText.SplitIsOnePiece | src/middleware/index.ts:190 | a string splits into a single piece exactly when it holds no `/` |
| Errors.NewProxyError | src/middleware/errors.ts:4-21 | the error is named `ExpressUGCProxyError` and flagged; each `extra` field is the supplied one when present, else 500 / `INTERNAL_SERVER_ERROR` |
| Errors.SpreadIdentities | src/middleware/errors.ts:11-20 | spreading nothing keeps the defaults, and spreading a complete record replaces them |
| Errors.Make | src/middleware/errors.ts:24-101 | a factory's error carries the given status code, or the factory's default status when none is given |
| Errors.ReasonIgnoresStatus | src/middleware/errors.ts:24-101 | a factory's reason does not depend on the status argument; `internal` keeps the default `INTERNAL_SERVER_ERROR` |
| Errors.ReasonIdentifiesFactory | src/middleware/errors.ts:24-101 | the reason code identifies the factory that made the error |
| Errors.ReasonsDistinct | src/middleware/errors.ts:24-101 | two factories share a reason if and only if they are the same factory |
| Errors.DefaultStatusTable | src/middleware/errors.ts:24-101 | without a status argument: `badRequest` gives 400, `missingAuthorization` 401, the four not-found factories 404, and the other four 500 |
| ProxyMiddleware.SupportedTypesMatchDefinitions | src/middleware/index.ts:25 | the middleware's private type list equals the exported one |
| ProxyMiddleware.GetRequestParameters | src/middleware/index.ts:183-193 | a path without `/` yields no parameter at all, and once a position is missing every later position is missing too |
| ProxyMiddleware.RequestParametersOfPath | src/middleware/index.ts:183-193 | a path made of slash-free pieces yields its first five pieces after the leading one as type, xuid, scid, file id and file name, missing positions as absent |
| ProxyMiddleware.JoinedPathParameters | src/middleware/index.ts:183-193 | the path `/<type>/<xuid>/<scid>/<fileId>/<fileName>` of slash-free parts yields exactly those five parameters |
| ProxyMiddleware.EmptyPieceIsNotMissing | src/middleware/index.ts:183-193 | an empty piece is an empty parameter; only a position beyond the last piece is missing |
| ProxyMiddleware.FirstFailing | src/middleware/index.ts:96-141 | every check before the returned index passes, and the check at that index fails |
| ProxyMiddleware.FirstFailingInTableOrder | src/middleware/index.ts:96-141 | the first failing check is found in source order: type, then xuid, then scid, then file id, and the index is 4 when all pass |
| ProxyMiddleware.CheckParameters | src/middleware/index.ts:96-141 | the result is a failure exactly when some check fails, and then it is the first failing check's 400 reason; on success it is the metadata URI of the four parameters |
| ProxyMiddleware.ValidParametersAccepted | src/middleware/index.ts:96-148 | a supported type, an accepted XUID and two accepted UUIDs pass every check and yield the metadata URI of those four parts |
| ProxyMiddleware.ValidFilePathAccepted | src/middleware/index.ts:88-148 | a path of a supported type, an accepted XUID, two accepted UUIDs and any file name passes every check and yields the metadata URI of exactly those parts |
| ProxyMiddleware.EmptyValueFailsEveryCheck | src/middleware/index.ts:96-141 | an empty parameter fails its validity check, so it is reported as invalid, never as missing |
| ProxyMiddleware.ResolveAuthorization | src/middleware/index.ts:71-86 | no authorization gives 401 `MISSING_AUTHORIZATION`; a generator that rejects or resolves to anything but an object gives 401 `EMPTY_AUTHORIZATION`; it succeeds exactly for given credentials or a resolved object, and then yields exactly that credentials object |
| ProxyMiddleware.Caught | src/middleware/index.ts:173-180 | the status and reason are the error's `extra` values when present and truthy, else 500 and `INTERNAL_ERROR`; neither is ever falsy |
| ProxyMiddleware.CaughtProxyErrorKeepsDetails | src/middleware/index.ts:173-180 | an error from the factories, with a non-zero status, comes out of the `.catch` with its own status and reason |
| ProxyMiddleware.SelectFileUri | src/middleware/index.ts:149-171 | two `undefined` nodes give 404 `FILE_NOT_FOUND` (and only they do); otherwise a screenshot node that is not `undefined` is preferred, and its first URI is used, over the game-clip node; a `null` node read through or an empty URI list ends in 500 `INTERNAL_ERROR` |
| ProxyMiddleware.Settle | src/middleware/index.ts:143-180 | a response goes through the file-URI selection and a thrown error through the `.catch` mapping; only a response object can lead to a forward; a `null` or `undefined` response, which throws on destructuring, ends in 500 `INTERNAL_ERROR`; every rejection carries a truthy status and reason |
| ProxyMiddleware.Decide | src/middleware/index.ts:68-181 | a failed authorization is the outcome, whatever the path and the API; a request is forwarded only when its authorization resolves and all four checks pass; every rejection carries a truthy status and reason |
| ProxyMiddleware.MissingAuthorizationFirst | src/middleware/index.ts:71-75 | a missing authorization is reported before the path is looked at |
| ProxyMiddleware.EmptyAuthorizationFirst | src/middleware/index.ts:76-84 | a generator that rejects or resolves to `null` or a non-object gives 401 `EMPTY_AUTHORIZATION`, before the path is looked at |
| ProxyMiddleware.NoFetchOnInvalidParameters | src/middleware/index.ts:96-148 | when a parameter check fails, the outcome does not depend on the metadata API, and with a resolved authorization it is the first failing check's error |
| ProxyMiddleware.FetchUsesComputedUri | src/middleware/index.ts:143-148 | when the authorization resolves and every check passes, the outcome is what the API returns for the computed metadata URI and the given credentials, or the object the generator resolved to |
| ProxyMiddleware.FileNameIgnored | src/middleware/index.ts:88-94 | two paths that differ only in the file name lead to the same outcome |
| ProxyMiddleware.ResponderFor | src/middleware/index.ts:58-65 | the caller's handler is used exactly when `onRequestError` is a function; otherwise the reason is shown exactly when `displayErrorReason` is true |
| ProxyMiddleware.Render | src/middleware/index.ts:60-65 | a forward proxies to the file URI; an error goes to the caller's handler, or is sent with its status and with the reason as body exactly when reasons are displayed |
| ProxyMiddleware.Middleware.constructor | src/middleware/index.ts:48-66 | the instance keeps the request path and the responder chosen from the options, and has not replied yet |
| ProxyMiddleware.Middleware.Handle | src/middleware/index.ts:68-181 | an instance that has not replied yet replies once, with the rendering of the decided outcome |
| XblAuthorization.ReuseIgnoresAuthenticator | examples/with-html5-player/src/xbl-authorization.ts:11-21 | a held, unexpired token is returned and kept whatever authenticating would give |
| XblAuthorization.ExpiryBoundary | examples/with-html5-player/src/xbl-authorization.ts:12-14 | a token without expiry never expires; one with expiry is expired from that instant on and not a moment before |
| XblAuthorization.RefreshReplacesSlot | examples/with-html5-player/src/xbl-authorization.ts:24-34 | when the held token cannot be reused, a new token replaces it and its credentials are returned |
| XblAuthorization.FailedRefreshKeepsSlot | examples/with-html5-player/src/xbl-authorization.ts:24-29 | a failed authentication leaves the held token as it was and the call fails |
| XblAuthorization.ReturnsSlotAfterCall | examples/with-html5-player/src/xbl-authorization.ts:10-35 | a call succeeds exactly when it reuses or obtains a token, and then returns the credentials of the token held afterwards |
| XblAuthorization.RefreshedTokenIsReused | examples/with-html5-player/src/xbl-authorization.ts:10-35 | a freshly obtained token that has not expired by the next call is reused by it |
| XblAuthorization.AuthorizationSlot.constructor | examples/with-html5-player/src/xbl-authorization.ts:4-8 | the slot starts empty, before any authentication |
| XblAuthorization.AuthorizationSlot.GetOrResolve | examples/with-html5-player/src/xbl-authorization.ts:10-35 | the new held token and the result follow the reuse-or-refresh rule, and authentication runs exactly when the token cannot be reused |
| ExampleAuthenticate.Authenticate | example/src/modules/authenticate.ts:10-35 | the second copy of the resolver meets the same specification as the first: same new token, same result, same authentication count |
| PlayerTemplates.ReplacePlaceholders | examples/with-html5-player/src/utils.ts:18-36 | the result is the template with each key's token replaced in turn, in the mapping's declaration order |
| PlayerTemplates.ReplaceAll | examples/with-html5-player/src/utils.ts:31-34 | a replacement as long as the pattern keeps the text's length, and replacing the pattern by itself leaves the text unchanged |
| PlayerTemplates.Substitute | examples/with-html5-player/src/utils.ts:30-35 | when every key's value is its own token, the steps leave the text unchanged |
| PlayerTemplates.ReplaceAllWithoutOccurrence | examples/with-html5-player/src/utils.ts:31-34 | a text without the pattern is unchanged |
| PlayerTemplates.ReplaceAllAround | examples/with-html5-player/src/utils.ts:31-34 | when the pattern's first character does not recur in it, the text on either side of an occurrence is replaced independently |
| PlayerTemplates.EveryOccurrenceReplaced | examples/with-html5-player/src/utils.ts:31-34 | a text of pattern-free pieces separated by the pattern becomes those pieces separated by the replacement |
| PlayerTemplates.TokenReplacedEverywhere | examples/with-html5-player/src/utils.ts:31-34 | every `{KEY}` of the template is replaced by its value and the text between the tokens is untouched |
| PlayerTemplates.SubstituteWithoutTokens | examples/with-html5-player/src/utils.ts:30-35 | a text containing none of the tokens passes through every step unchanged |
| PlayerTemplates.TemplateWithoutPlaceholdersUnchanged | examples/with-html5-player/src/utils.ts:18-36 | a template with none of the five placeholders is returned unchanged |
| PlayerTemplates.TokensDoNotOverlap | examples/with-html5-player/src/utils.ts:22-34 | the token of one brace-free key never occurs inside another key's token, so `{IMAGE_URI}` is not found in `{IMAGE_URI_WITH_REDIRECT}` |
| PlayerTemplates.AppDomainReplacedFirst | examples/with-html5-player/src/utils.ts:22-34 | `APP_DOMAIN` is replaced first, so the later keys then apply to the inserted domain |
| PlayerTemplates.FilePathParameters | examples/with-html5-player/src/utils.ts:19-28 | a URI path built as `/` + `join(type, xuid, scid, id)` + `/` + file name is the slash-join of the five parts, and the middleware reads exactly those five parameters back from it |
| PlayerTemplates.DemoPathCarriesDemoParameters | examples/with-html5-player/src/utils.ts:19-28 | the middleware reads the demo parameters back from the path of each demo URI under its mount point |
| PlayerTemplates.DemoXuidValid | examples/with-html5-player/src/config.ts:8 | the demo owner id passes the middleware's XUID check |

## Left out

- HTTP plumbing is not modelled: Express routing, `http-proxy-middleware`, URL parsing of the file URI into protocol, host, path and query, and the unused `USER_AGENT` constant. Forwarding is represented by the chosen file URI.
- The metadata API client (`@xboxreplay/xboxlive-api`) and the token service (`@xboxreplay/xboxlive-auth`) are not modelled. They are inputs: the handler gets the API's settled outcome as a function of the URI and credentials, and the resolver gets what authenticating returns.
- Asynchrony is not modelled. Each promise is taken as already settled, and two requests resolving the authorization at the same time are not modelled.
- Clocks and dates are not modelled: `new Date()` is an integer parameter `now`, and `expiresOn` is an optional integer instant. An unparsable date string, which gives `NaN` and never counts as expired, is not modelled.
- Validations.IsValidOwnerXUID: models `Number` only on plain digit strings of at most 20 significant digits, and rejects every other entry. On those strings it is exact. JavaScript accepts any entry whose number prints with at least 16 characters. That includes a sign (`-1000000000000000`), an exponent (`1e15`), a hexadecimal literal, a fraction such as `1234567890.12345`, surrounding white space, 21 significant digits, and larger values printed in exponent form such as `1.2345678901234568e+21`. Only short exponent forms such as `1e+21` are rejected.
- MiddlewareUtils.IsValidXUID: the same restriction as the owner-id check above, for the same reason.
- The digits `String(Number(s))` prints are not modelled, only whether there are at least 16 of them. JavaScript rounds values beyond 2^53 (`12345678901234567891` prints as `12345678901234567000`, `99999999999999999` as `100000000000000000`) and prints `0` for zero. Neither changes the accept/reject decision on digit strings of at most 20 significant digits.
- The error message and stack trace of `ExpressUGCProxyError` are not modelled; only `name`, the `__XboxReplay__` flag and `extra` are.
- Errors.Make: models a status argument that is a number, or absent or `undefined` (both select the default). An explicit `null` status, which JavaScript keeps as `null`, is not modelled.
- Errors.Spread: only models keys of `extra` that are present or absent, not keys present with the value `undefined`.
- Options the type declarations list but the handler never reads are not modelled: `debug`, `redirectOnFetch`, `fileTypesMapping` and `cache`. The file name is neither validated nor used by the handler.
- A caller's `onRequestError` that throws is not modelled; the model's caller handler always returns. In the source, a throw while reporting `FILE_NOT_FOUND` happens inside the `.then` callback, so the `.catch` calls the handler a second time. A throw on any other report rejects the promise `handle` returns.
- A node whose URI list is missing or `null`, a list element that is not an object, and a URI that the URL parser or the proxy rejects are not modelled: a node that is an object holds a list of string URIs. In the source each of these throws inside the `.then` callback and reaches the `.catch`.
- PlayerTemplates.ReplacePlaceholders: does not model `$` replacement patterns in the inserted values, and treats `path.join` as joining with `/`; a Windows separator and `..` normalisation are not modelled.
- Reading template files from disk, the example servers' start-up and their `/`, `/embed` and favicon routes are not modelled.
- The account e-mail and password used to authenticate are not modelled.
