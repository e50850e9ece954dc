/** Authentication (`_authenticate`): the request it sends and how its reply is classified. */
module Auth {
  import opened Results
  import opened JsValues
  import opened Wire
  import opened Config
  import Uri

  const SessionStartupPath: string := "/nami/auth/manual/sessionStartup"

  /**
    The session-startup POST carrying `Login=API` and the configured
    credentials.  The ensures only spell out the constructed request, so that
    proofs about whole calls need not unfold it.
   */
  function AuthRequestFor(c: Config): (req: Request)
    ensures req.AuthRequest? && req.login == "API"
    ensures req.username == c.userId && req.password == c.password
    ensures req.uri == Uri.ExtendBaseUrl(c, SessionStartupPath)
  {
    AuthRequest(Uri.ExtendBaseUrl(c, SessionStartupPath), "API", c.userId, c.password)
  }

  /**
    Logging in goes to the same server and API version as every service
    call: the login URI and the URI of any service path share the selected
    base URL followed by the versioned service base path, and the login URI
    ends with the session-startup path.
   */
  lemma LoginUsesServiceApi(c: Config, path: string)
    ensures var prefix := Uri.SelectedBase(c) + Uri.ServiceBasePath(c.parsedVersion);
            var login := AuthRequestFor(c).uri;
            var service := Uri.ExtendBaseUrl(c, path);
            && |prefix| <= |login| && |prefix| <= |service|
            && login[..|prefix|] == prefix && service[..|prefix|] == prefix
            && login[|prefix|..] == SessionStartupPath
  {
    Uri.ExtendBaseUrlPrefix(c, SessionStartupPath);
    Uri.ExtendBaseUrlPrefix(c, path);
  }

  /** The body has an own member named `hasOwnProperty`, shadowing the inherited method. */
  predicate ShadowsHasOwnProperty(body: Option<Value>) {
    Member(body, "hasOwnProperty").Some?
  }

  /**
    The outcomes of an authentication reply body: accepted when it is truthy
    with `statusCode === 0` (returning the body); otherwise, for a truthy
    body, the call `body.hasOwnProperty('statusCode')` throws a `TypeError`
    when the body owns a member of that name, and gives a
    `NamiResponseError` when the body owns a `statusCode`; the generic error
    in every other case.
   */
  function ClassifyAuth(body: Option<Value>): (r: Result<Value, Error>)
    ensures r.Success? <==> Truthy(body) && Member(body, "statusCode") == Some(Num(0))
    ensures r.Success? ==> body == Some(r.value)
    ensures r.Failure? ==>
              r.error.NamiResponseError? || r.error == UnknownAuthenticationError || r.error == HasOwnPropertyNotCallable
    ensures r.Failure? && r.error == HasOwnPropertyNotCallable <==>
              Truthy(body) && Member(body, "statusCode") != Some(Num(0)) && ShadowsHasOwnProperty(body)
    ensures r.Failure? && r.error.NamiResponseError? <==>
              && Truthy(body) && !ShadowsHasOwnProperty(body)
              && Member(body, "statusCode").Some? && Member(body, "statusCode") != Some(Num(0))
    ensures r.Failure? && r.error.NamiResponseError? ==>
              Member(body, "statusCode") == Some(r.error.code) && Member(body, "statusMessage") == r.error.message
  {
    if Truthy(body) && Member(body, "statusCode") == Some(Num(0)) then
      Success(body.value)
    else if Truthy(body) && ShadowsHasOwnProperty(body) then
      Failure(HasOwnPropertyNotCallable)
    else if Truthy(body) && Member(body, "statusCode").Some? then
      Failure(NamiResponseError(Member(body, "statusCode").value, Member(body, "statusMessage")))
    else
      Failure(UnknownAuthenticationError)
  }

  /**
    `_authenticate` given the transport's reply to the session-startup
    request: it succeeds exactly when the reply carries a body with
    `statusCode` 0, resolving with that body, and it fails with a transport
    error exactly when the transport failed, carrying its reason.
   */
  function Authenticate(reply: Reply): (r: Result<Value, Error>)
    ensures r.Success? <==> reply.Reply? && Truthy(reply.body) && Member(reply.body, "statusCode") == Some(Num(0))
    ensures r.Success? ==> reply == Reply(Some(r.value))
    ensures r.Failure? && r.error.TransportError? <==> reply.Fault?
    ensures reply.Fault? ==> r.error.reason == reply.reason
  {
    match reply
    case Fault(reason) => Failure(TransportError(reason))
    case Reply(body) => ClassifyAuth(body)
  }

  /**
    An object body is classified by its own `statusCode`, `statusMessage`
    and `hasOwnProperty` members alone.
   */
  lemma ObjectBodies(fields: map<string, Value>)
    ensures "statusCode" in fields && fields["statusCode"] == Num(0) ==>
              ClassifyAuth(Some(Obj(fields))) == Success(Obj(fields))
    ensures "hasOwnProperty" in fields && !("statusCode" in fields && fields["statusCode"] == Num(0)) ==>
              ClassifyAuth(Some(Obj(fields))) == Failure(HasOwnPropertyNotCallable)
    ensures "hasOwnProperty" !in fields && "statusCode" !in fields ==>
              ClassifyAuth(Some(Obj(fields))) == Failure(UnknownAuthenticationError)
    ensures "hasOwnProperty" !in fields && "statusCode" in fields && fields["statusCode"] != Num(0) ==>
              ClassifyAuth(Some(Obj(fields))) ==
              Failure(NamiResponseError(fields["statusCode"],
                                        if "statusMessage" in fields then Some(fields["statusMessage"]) else None))
  {
  }

  /** A missing body, or any body that is not an object, is the generic error. */
  lemma NonObjectBodies(body: Option<Value>)
    requires body.None? || !body.value.Obj?
    ensures ClassifyAuth(body) == Failure(UnknownAuthenticationError)
  {
  }

  /**
    Examples: `{statusCode: 0}`, `{statusCode: 4, statusMessage:
    "bad creds"}`, `{}`, and `{hasOwnProperty: 1, statusCode: 5}`.
   */
  lemma Examples()
    ensures ClassifyAuth(Some(Obj(map["statusCode" := Num(0)]))) == Success(Obj(map["statusCode" := Num(0)]))
    ensures ClassifyAuth(Some(Obj(map["statusCode" := Num(4), "statusMessage" := Str("bad creds")])))
            == Failure(NamiResponseError(Num(4), Some(Str("bad creds"))))
    ensures ClassifyAuth(Some(Obj(map[]))) == Failure(UnknownAuthenticationError)
    ensures ClassifyAuth(Some(Obj(map["hasOwnProperty" := Num(1), "statusCode" := Num(5)])))
            == Failure(HasOwnPropertyNotCallable)
  {
    ObjectBodies(map["statusCode" := Num(0)]);
    ObjectBodies(map["statusCode" := Num(4), "statusMessage" := Str("bad creds")]);
    ObjectBodies(map["hasOwnProperty" := Num(1), "statusCode" := Num(5)]);
  }
}
