/**
  What the client sends to and receives from its HTTP transport, and the
  errors a call can end with.  The transport itself (request library,
  cookie jar, redirects) is not modelled: a reply is either a decoded body
  or a transport failure.
 */
module Wire {
  import opened Results
  import opened JsValues

  /** One request handed to the transport. */
  datatype Request =
    | ServiceRequest(verb: string, uri: string, qs: Value)
      /** The form-encoded POST of `_authenticate` (with `Login=API`). */
    | AuthRequest(uri: string, login: string, username: string, password: string)

  /** The transport's answer: the decoded `res.body` (possibly undefined), or the error it rejected with. */
  datatype Reply = Reply(body: Option<Value>) | Fault(reason: string)

  /** What a call can throw. */
  datatype Error =
    | TransportError(reason: string)
      /** `NamiResponseError(statusCode, statusMessage)`. */
    | NamiResponseError(code: Value, message: Option<Value>)
      /** `Error('unknown authentication error')`. */
    | UnknownAuthenticationError
      /** The `TypeError` of reading `query` from `null` options. */
    | OptionsNullError
      /**
        The `TypeError` of calling `body.hasOwnProperty(...)` when the body
        has an own member of that name: a decoded value is never callable.
       */
    | HasOwnPropertyNotCallable
}
