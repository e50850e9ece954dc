# NaMi API client: configuration, URI construction and session-expiry retry

This project models the sequential logic inside the NaMi API client
(`NamiApiWrapper` in `index.js`). The client holds one cookie-based session
with the NaMi REST API. Callers see one entry point, `callService`. When the
server reports that the session expired, the client logs in again and repeats
the call. The model covers four parts:

- **Configuration** (`_configure`). The caller's object is laid over
  `CONFIG_DEFAULTS`. A caller value replaces the default unless it is absent
  or `null`. The result is checked field by field against the schema, in the
  schema's order, and keys the schema does not know are rejected. The version
  string is split on `.` into `parsedVersion`.
- **URI construction** (`_extendBaseUrl`). The URI is the base URL chosen by
  `production`, then `/ica/rest/api/{v0}/{v1}/service`, then the service
  path. A version with fewer than two pieces yields the segment `undefined`.
- **Authentication** (`_authenticate`). The module builds the session-startup
  request. It sorts the reply body into one of four outcomes: success
  (`statusCode === 0`), a `TypeError` when the body owns a member named
  `hasOwnProperty` (index.js:134 calls a method of that name),
  `NamiResponseError(statusCode, statusMessage)`, or the generic "unknown
  authentication error".
- **Service calls** (`callService`). The transport is a *script*: the
  replies it gives, in the order the client sends its requests. A reply is a
  decoded body or a transport failure. A body that is not an expiry signal
  (`success === false` and `message === 'Session expired'`) is returned
  unchanged. On an expiry signal the client authenticates; that failure
  propagates. Then it sends the identical request again. There is **no
  retry limit**, and recursion ends only because the script is finite. A
  call whose next request finds the script used up never settles; its
  outcome is `Pending`.

Modules: `Results` (Option/Result), `JsValues` (decoded JSON values,
truthiness, own-property lookup), `Versions` (split/join on `.`), `Config`,
`Uri`, `Wire` (requests, replies, errors), `Auth`, `Session`.

Every expiry signal triggers another authentication and another identical
call, with no limit on their number (`index.js:188-191`;
`Session.NoRetryLimit`, `Session.SecondExpiryAlsoRetried`). The version
string is only required to be a non-empty string and is never checked for
shape, so a version without a dot is accepted (`index.js:17`, `index.js:91`;
`Uri.DotlessVersionAccepted`). The constructor's doc comment lists a `groupId`
field, but the schema does not know it, so passing it makes construction
throw (`Config.UnknownPropertyRejected`). A login reply body that owns a
member named `hasOwnProperty` makes the check at `index.js:134` throw a
`TypeError` instead of classifying the body (`Auth.ClassifyAuth`).

## Model

| member | source | states |
|---|---|---|
| Versions.Split | index.js:91 | `version.split('.')` yields at least one piece and no piece contains a dot |
| Versions.JoinSplit | index.js:91 | joining the split pieces with `.` gives back the original version string, for every string |
| Versions.SplitJoin | index.js:91 | splitting the dot-join of dot-free pieces gives back the same pieces |
| Versions.DefaultVersionParts | index.js:28 | the default version `'1.1'` splits into `["1", "1"]` |
| Config.Default | index.js:22-29 | the credentials are the only keys defaulting to `null`, and the only keys whose default the schema rejects, so a caller must supply exactly those |
| Config.Effective | index.js:75 | the merged value of a key comes from the caller or from the defaults; a caller value wins unless it is `null`, and a `null` never replaces a non-null default |
| Config.FieldOk | index.js:11-18 | `production` accepts exactly the booleans and every other key exactly the non-empty strings; `null` never passes |
| Config.SchemaOrderListsEachKeyOnce | index.js:11-18 | the schema checks each of the six keys exactly once, `userId` and `password` first |
| Config.FirstInvalid | index.js:78-85 | the first key (in order) whose effective value fails its type: every key before it passes; none exactly when every key passes |
| Config.Configure | index.js:72-92 | construction succeeds exactly when every schema key's effective value (caller's unless absent or null, else the default) has its type and no unknown non-null key is given; the stored fields are those effective values and `parsedVersion` is the split version; a type failure names the first failing key in schema order; an unknown-key failure arises only when every schema key passes and names exactly the non-null unknown properties |
| Config.MissingCredentialRejected | index.js:11-29 | a missing or null `userId` or `password` keeps its null default and construction throws, naming `userId` first |
| Config.OmittedFieldsTakeDefaults | index.js:22-29 | an omitted or `null` `production`, base URL or version takes `false`, the default URL, or version `'1.1'` with `parsedVersion` `["1","1"]` |
| Config.ParsedVersionRoundTrip | index.js:91 | the stored `parsedVersion` joined with `.` is the stored version |
| Config.CredentialsOnly | index.js:72-92 | with only non-empty credentials given, the configuration is the defaults plus those credentials |
| Config.UnknownPropertyRejected | index.js:11-18 | any extra non-null property such as `groupId` makes construction throw naming exactly that property |
| Uri.ExtendBaseUrl | index.js:102-107 | the URI starts with `productionBaseUrl` when `production` is true and `developmentBaseUrl` otherwise, continues with the versioned service base path and ends with the path, nothing else |
| Uri.UriDependsOnSelectionOnly | index.js:103 | only the flag, the selected base URL and the parsed version decide the URI; credentials and the other base URL do not |
| Uri.PathRecoverable | index.js:106 | two paths giving the same URI under one configuration are equal |
| Uri.TwoPartVersion | index.js:104-105 | for a version `a.b` the path segments are `a` and `b` |
| Uri.DotlessVersion | index.js:104-105 | a version without a dot gives `/ica/rest/api/{version}/undefined/service` |
| Uri.DotlessVersionAccepted | index.js:91-105 | a non-empty version without a dot passes configuration, is stored as given, and its URIs carry `/ica/rest/api/{version}/undefined/service` |
| Uri.DefaultConfigUri | index.js:102-106 | with only credentials configured, path `/foo` becomes `https://namitest.dpsg.de/ica/rest/api/1/1/service/foo` |
| Auth.LoginUsesServiceApi | index.js:119-130 | the login request goes to the same base URL and versioned API path as every service path, ending in the session-startup path |
| Auth.ClassifyAuth | index.js:132-138 | success exactly for a truthy body with `statusCode === 0`, returning that body; otherwise, for a truthy body, a `TypeError` exactly when the body owns a `hasOwnProperty` member, and a `NamiResponseError` exactly when it owns a `statusCode` and no such member, carrying `statusCode` and `statusMessage`; the generic error otherwise |
| Auth.Authenticate | index.js:116-138 | login succeeds exactly when the reply carries a body with `statusCode` 0, resolving with that body; it fails with a transport error exactly when the transport failed, carrying its reason |
| Auth.ObjectBodies | index.js:132-138 | an object body with `statusCode` 0 is accepted; otherwise owning `hasOwnProperty` gives the `TypeError`; without it, no `statusCode` gives the generic error and any other `statusCode` a `NamiResponseError` of that code and message |
| Auth.NonObjectBodies | index.js:132-138 | a missing or non-object body is the generic error |
| Auth.Examples | index.js:132-138 | `{statusCode: 0}` succeeds, `{statusCode: 4, statusMessage: "bad creds"}` gives `NamiResponseError(4, "bad creds")`, `{}` gives the generic error, `{hasOwnProperty: 1, statusCode: 5}` gives the `TypeError` |
| Session.ServiceRequestFor | index.js:178-184 | each attempt sends `method` (`GET` when omitted) to the configured base URL and versioned API path followed by the caller's path, with the query; it is never the login request |
| Session.IsExpiry | index.js:188 | only a decoded object can be an expiry signal; a missing body or a bare string never is |
| Session.Attempts | index.js:178-194 | requests alternate between the identical service request and the authentication request; a returned body is never an expiry signal; a pending call has read every reply |
| Session.CallService | index.js:175-196 | null options throw before anything is sent; otherwise the same alternation and outcome guarantees hold for the built request |
| Session.ExpirySignal | index.js:188 | a body is an expiry signal exactly when it is an object with `success` false and `message` "Session expired"; either condition alone is not enough |
| Session.AfterRounds | index.js:188-191 | leading rounds of expiry plus successful authentication only prepend their request pairs: the outcome and the unread replies are those of the rest of the script |
| Session.NotExpiredReturnedUnchanged | index.js:186-194 | a non-expiry body is returned unchanged after exactly one request and no authentication |
| Session.RetriedUntilAccepted | index.js:188-191 | after k expiry rounds the next non-expiry body is returned, having sent k+1 identical service requests and k authentications |
| Session.AuthFailureEndsCall | index.js:188-191 | a failed authentication ends the call with its error and no request is sent after it |
| Session.TransportFailureEndsCall | index.js:155-158 | a transport failure at any service attempt ends the call with that failure |
| Session.NoRetryLimit | index.js:188-191 | a script made only of expiry rounds never lets the call settle, however long it is; k rounds send k+1 service requests |
| Session.PendingDuringAuthentication | index.js:188-190 | a script ending right after an expiry signal leaves the call waiting on its authentication request |
| Session.SecondExpiryAlsoRetried | index.js:188-191 | an expiry signal on the re-issued call is retried too: two expiries then a body send three service requests |
| Session.ExpiredOnceThenData | index.js:175-196 | expiry, `{statusCode: 0}`, then `{data: 42}` returns `{data: 42}` after service, authentication and service requests |

## Left out

- The `request` library, the cookie jar and `_request`'s promise plumbing are not modelled. The transport is a finite script of replies, and a transport failure is an opaque reason string.
- The session state machine inside the cookie jar is not modelled, because it lives in the transport layer. The model only records which requests are sent.
- Joi's URI grammar and scheme checks for the two base URLs are not modelled. The model requires only a non-empty string.
- Joi's `convert` coercion is not modelled. For example, the string `"true"` is refused for `production`, although the source accepts it.
- Joi's error objects and messages are not modelled. The model keeps only the offending key, or the set of unknown keys.
- The constructor argument is modelled as an object. `Hoek.applyToDefaults` on a missing, primitive or `true` argument is not modelled. Nested merging of object values is not modelled either, because every default is a primitive.
- `debug` logging, `async`/`await` and the concrete promise mechanics are not modelled. They have no observable logic.
- Numbers in decoded bodies are integers. Fractions, `NaN` and `-0` are left out.
- Own properties of strings and arrays (`length`, indices) are left out. The client reads only other names.
- `Error(message)`'s conversion of `statusMessage` to a string is not modelled. `NamiResponseError` keeps the raw value.
- Uri.ExtendBaseUrl: `path` is a string. The source would also stringify a non-string path (`undefined` becomes the text `undefined`), and that is not modelled.
- Session.CallService: `method` is an optional string, with `GET` as the default when it is omitted. Other argument types are passed through by the source but are not modelled.
