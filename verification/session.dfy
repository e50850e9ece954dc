/**
  The generic service call (`callService`) with its expiry detection and
  re-authenticate-and-retry recursion.

  The transport is a script: the replies it gives, in the order the client
  sends its requests.  A call that sends a request after the script has run
  out never settles; its outcome is `Pending`.
 */
module Session {
  import opened Results
  import opened JsValues
  import opened Wire
  import opened Config
  import Uri
  import Auth

  /** The arguments of `callService(method, path, options)`; `None` is an omitted (undefined) argument. */
  datatype Call = Call(verb: Option<string>, path: string, options: Option<Value>)

  /** How a call ends: it resolves with a body, rejects with an error, or is still waiting for a reply. */
  datatype Outcome = Returned(body: Option<Value>) | Threw(error: Error) | Pending

  /** A call's outcome, the requests it sent in order, and the replies it left unread. */
  datatype Run = Run(outcome: Outcome, sent: seq<Request>, rest: seq<Reply>)

  /**
    The server's signal that the session cookie is no longer valid.  Only a
    decoded object can be one: a missing body or a bare string is returned as
    it is.
   */
  function IsExpiry(body: Option<Value>): (expired: bool)
    ensures expired ==> body.Some? && body.value.Obj?
  {
    && Truthy(body)
    && Member(body, "success") == Some(Bool(false))
    && Member(body, "message") == Some(Str("Session expired"))
  }

  /**
    `options.query || {}` with `options` defaulting to `{}`: a `null`
    options argument throws, and a falsy or missing `query` becomes `{}`.
    Apart from the last one, which says the query sent is never falsy, the
    ensures only spell out these cases, so that proofs about whole calls
    need not unfold the definition.
   */
  function Query(options: Option<Value>): (r: Result<Value, Error>)
    ensures r.Failure? <==> options == Some(Null)
    ensures r.Failure? ==> r.error == OptionsNullError
    ensures r.Success? && options.Some? && Truthy(Lookup(options.value, "query")) ==>
              r.value == Lookup(options.value, "query").value
    ensures r.Success? && (options.None? || !Truthy(Lookup(options.value, "query"))) ==> r.value == Obj(map[])
    ensures r.Success? ==> Truthy(Some(r.value))
  {
    match options
    case None => Success(Obj(map[]))
    case Some(v) =>
      if v == Null then Failure(OptionsNullError)
      else
        var q := Lookup(v, "query");
        if Truthy(q) then Success(q.value) else Success(Obj(map[]))
  }

  /**
    The request one attempt of the call sends: `method` (defaulting to
    `GET`) on the service prefix of the configured server and API version
    followed by the caller's path, with the query.  It is never the login
    request, so the two can be told apart in the sequence sent.
   */
  function ServiceRequestFor(c: Config, call: Call, qs: Value): (req: Request)
    ensures req.ServiceRequest? && req.qs == qs
    ensures call.verb.None? ==> req.verb == "GET"
    ensures call.verb.Some? ==> req.verb == call.verb.value
    ensures var prefix := Uri.SelectedBase(c) + Uri.ServiceBasePath(c.parsedVersion);
            |prefix| <= |req.uri| && req.uri[..|prefix|] == prefix && req.uri[|prefix|..] == call.path
    ensures req != Auth.AuthRequestFor(c)
  {
    Uri.ExtendBaseUrlPrefix(c, call.path);
    ServiceRequest(call.verb.GetOr("GET"), Uri.ExtendBaseUrl(c, call.path), qs)
  }

  /** Requests alternate: the service request at even positions, the authentication request at odd ones. */
  predicate Alternating(sent: seq<Request>, service: Request, auth: Request) {
    forall i :: 0 <= i < |sent| ==> sent[i] == (if i % 2 == 0 then service else auth)
  }

  /**
    The reply at position `i` lets the call go on: at an even position (a
    service reply) it is an expiry signal, at an odd one (an authentication
    reply) the authentication succeeds.
   */
  predicate Continues(script: seq<Reply>, i: nat)
    requires i < |script|
  {
    if i % 2 == 0 then script[i].Reply? && IsExpiry(script[i].body)
    else Auth.Authenticate(script[i]).Success?
  }

  /**
    The attempts of one call once its service request is built: send it; a
    reply that is not an expiry signal is returned as it is; on an expiry
    signal authenticate (its failure propagates) and send the identical
    request again.  There is no retry limit: the recursion ends only because
    the script is finite.
   */
  function Attempts(service: Request, auth: Request, script: seq<Reply>): (r: Run)
    decreases |script|
    ensures |r.rest| < |script| || r.outcome.Pending?
    ensures |r.sent| >= 1 && Alternating(r.sent, service, auth)
    ensures r.outcome.Returned? ==> !IsExpiry(r.outcome.body)
    ensures r.outcome.Pending? ==> r.rest == []
  {
    if |script| == 0 then Run(Pending, [service], [])
    else match script[0]
      case Fault(reason) => Run(Threw(TransportError(reason)), [service], script[1..])
      case Reply(body) =>
        if !IsExpiry(body) then Run(Returned(body), [service], script[1..])
        else if |script| == 1 then Run(Pending, [service, auth], [])
        else match Auth.Authenticate(script[1])
          case Failure(e) => Run(Threw(e), [service, auth], script[2..])
          case Success(_) =>
            var next := Attempts(service, auth, script[2..]);
            RoundThenAlternating(next.sent, service, auth);
            Run(next.outcome, [service, auth] + next.sent, next.rest)
  }

  /**
    `callService(method, path, options)`: build the query (a `null`
    options argument throws before anything is sent) and the request, then
    make the attempts.
   */
  function CallService(c: Config, call: Call, script: seq<Reply>): (r: Run)
    ensures Query(call.options).Failure? ==> r == Run(Threw(OptionsNullError), [], script)
    ensures Query(call.options).Success? ==>
              && |r.sent| >= 1
              && Alternating(r.sent, ServiceRequestFor(c, call, Query(call.options).value), Auth.AuthRequestFor(c))
              && (|r.rest| < |script| || r.outcome.Pending?)
    ensures r.outcome.Returned? ==> !IsExpiry(r.outcome.body)
    ensures r.outcome.Pending? ==> r.rest == []
  {
    match Query(call.options)
    case Failure(e) => Run(Threw(e), [], script)
    case Success(qs) => Attempts(ServiceRequestFor(c, call, qs), Auth.AuthRequestFor(c), script)
  }

  /** Alternation survives one more service/authentication pair in front. */
  lemma RoundThenAlternating(sent: seq<Request>, service: Request, auth: Request)
    requires Alternating(sent, service, auth)
    ensures Alternating([service, auth] + sent, service, auth)
  {
    var all := [service, auth] + sent;
    forall i | 0 <= i < |all|
      ensures all[i] == (if i % 2 == 0 then service else auth)
    {
      if i >= 2 {
        assert all[i] == sent[i - 2];
      }
    }
  }

  /** `k` expiry rounds: the service request followed by the authentication request, `k` times. */
  function Rounds(service: Request, auth: Request, k: nat): (sent: seq<Request>)
    ensures |sent| == 2 * k
  {
    if k == 0 then [] else [service, auth] + Rounds(service, auth, k - 1)
  }

  /** A round holds one service request and one authentication request. */
  lemma {:induction false} RoundsCount(service: Request, auth: Request, k: nat)
    requires service != auth
    ensures multiset(Rounds(service, auth, k))[service] == k
    ensures multiset(Rounds(service, auth, k))[auth] == k
  {
    if k > 0 {
      RoundsCount(service, auth, k - 1);
      assert multiset(Rounds(service, auth, k)) == multiset([service, auth]) + multiset(Rounds(service, auth, k - 1));
    }
  }

  /** Counting the requests of `k` rounds followed by the requests of the attempt that ended them. */
  lemma RoundsThenCount(service: Request, auth: Request, k: nat, last: seq<Request>)
    requires service != auth
    ensures multiset(Rounds(service, auth, k) + last)[service] == k + multiset(last)[service]
    ensures multiset(Rounds(service, auth, k) + last)[auth] == k + multiset(last)[auth]
  {
    RoundsCount(service, auth, k);
    assert multiset(Rounds(service, auth, k) + last) == multiset(Rounds(service, auth, k)) + multiset(last);
  }

  /** A script prefix of complete expiry rounds: each expiry reply is followed by a successful authentication. */
  predicate ExpiryRounds(p: seq<Reply>) {
    |p| % 2 == 0 && forall i :: 0 <= i < |p| ==> Continues(p, i)
  }

  /** The expiry signal is exactly an object whose `success` is `false` and whose `message` is `Session expired`. */
  lemma ExpirySignal(body: Option<Value>)
    ensures IsExpiry(body) <==>
              && body.Some? && body.value.Obj?
              && "success" in body.value.fields && body.value.fields["success"] == Bool(false)
              && "message" in body.value.fields && body.value.fields["message"] == Str("Session expired")
  {
  }

  /** Leading expiry rounds only add their requests in front of the rest of the attempts. */
  lemma {:induction false} AfterRounds(service: Request, auth: Request, rounds: seq<Reply>, script: seq<Reply>)
    requires ExpiryRounds(rounds)
    ensures var r := Attempts(service, auth, rounds + script);
            var r' := Attempts(service, auth, script);
            && r.outcome == r'.outcome
            && r.sent == Rounds(service, auth, |rounds| / 2) + r'.sent
            && r.rest == r'.rest
  {
    if |rounds| > 0 {
      RoundsPrefix(rounds, script);
      AfterRounds(service, auth, rounds[2..], script);
      OneRound(service, auth, rounds + script);
      RoundsCons(service, auth, |rounds[2..]| / 2,
                 Attempts(service, auth, rounds[2..] + script).sent, Attempts(service, auth, script).sent);
    } else {
      assert rounds + script == script;
      assert Rounds(service, auth, 0) + Attempts(service, auth, script).sent == Attempts(service, auth, script).sent;
    }
  }

  /** One more round in front of `k` rounds. */
  lemma RoundsCons(service: Request, auth: Request, k: nat, sent: seq<Request>, after: seq<Request>)
    requires sent == Rounds(service, auth, k) + after
    ensures [service, auth] + sent == Rounds(service, auth, k + 1) + after
  {
    assert Rounds(service, auth, k + 1) == [service, auth] + Rounds(service, auth, k);
  }

  /** Splitting off the first of several expiry rounds. */
  lemma RoundsPrefix(rounds: seq<Reply>, script: seq<Reply>)
    requires ExpiryRounds(rounds) && |rounds| > 0
    ensures |rounds| >= 2 && ExpiryRounds(rounds[2..]) && |rounds| / 2 == |rounds[2..]| / 2 + 1
    ensures var whole := rounds + script;
            whole[2..] == rounds[2..] + script && Continues(whole, 0) && Continues(whole, 1)
  {
    var whole := rounds + script;
    assert Continues(rounds, 0) && Continues(rounds, 1);
    assert whole[0] == rounds[0] && whole[1] == rounds[1];
    assert whole[2..] == rounds[2..] + script;
    forall i | 0 <= i < |rounds[2..]|
      ensures Continues(rounds[2..], i)
    {
      assert Continues(rounds, i + 2);
    }
  }

  /** An expiry reply answered by a successful authentication: one round, then the identical attempts again. */
  lemma OneRound(service: Request, auth: Request, script: seq<Reply>)
    requires |script| >= 2 && Continues(script, 0) && Continues(script, 1)
    ensures var next := Attempts(service, auth, script[2..]);
            Attempts(service, auth, script) == Run(next.outcome, [service, auth] + next.sent, next.rest)
  {
  }

  /** The attempts end at the first reply that is not an expiry signal, which they return. */
  lemma StopOnNotExpired(service: Request, auth: Request, body: Option<Value>, tail: seq<Reply>)
    requires !IsExpiry(body)
    ensures Attempts(service, auth, [Reply(body)] + tail) == Run(Returned(body), [service], tail)
  {
    assert ([Reply(body)] + tail)[1..] == tail;
  }

  /** The attempts end at a transport failure, with that failure. */
  lemma StopOnFault(service: Request, auth: Request, reason: string, tail: seq<Reply>)
    ensures Attempts(service, auth, [Fault(reason)] + tail) == Run(Threw(TransportError(reason)), [service], tail)
  {
    assert ([Fault(reason)] + tail)[1..] == tail;
  }

  /** The attempts end at a failed authentication, with its error. */
  lemma StopOnAuthFailure(service: Request, auth: Request, expired: Option<Value>, authReply: Reply, tail: seq<Reply>)
    requires IsExpiry(expired)
    requires Auth.Authenticate(authReply).Failure?
    ensures Attempts(service, auth, [Reply(expired), authReply] + tail)
            == Run(Threw(Auth.Authenticate(authReply).error), [service, auth], tail)
  {
    assert ([Reply(expired), authReply] + tail)[2..] == tail;
  }

  /** A reply that is not an expiry signal is returned unchanged after one request and no authentication. */
  lemma NotExpiredReturnedUnchanged(c: Config, call: Call, body: Option<Value>, tail: seq<Reply>)
    requires Query(call.options).Success?
    requires !IsExpiry(body)
    ensures CallService(c, call, [Reply(body)] + tail) ==
            Run(Returned(body), [ServiceRequestFor(c, call, Query(call.options).value)], tail)
  {
    StopOnNotExpired(ServiceRequestFor(c, call, Query(call.options).value), Auth.AuthRequestFor(c), body, tail);
  }

  /** Once the query is built, the call is its attempts with the built service request. */
  lemma CallServiceIsAttempts(c: Config, call: Call, script: seq<Reply>)
    requires Query(call.options).Success?
    ensures CallService(c, call, script) ==
            Attempts(ServiceRequestFor(c, call, Query(call.options).value), Auth.AuthRequestFor(c), script)
  {
  }

  /** Expiry rounds, then a reply that is not an expiry signal. */
  lemma RoundsThenBody(service: Request, auth: Request, rounds: seq<Reply>, body: Option<Value>, tail: seq<Reply>)
    requires ExpiryRounds(rounds)
    requires !IsExpiry(body)
    ensures Attempts(service, auth, rounds + [Reply(body)] + tail) ==
            Run(Returned(body), Rounds(service, auth, |rounds| / 2) + [service], tail)
  {
    assert rounds + [Reply(body)] + tail == rounds + ([Reply(body)] + tail);
    AfterRounds(service, auth, rounds, [Reply(body)] + tail);
    StopOnNotExpired(service, auth, body, tail);
  }

  /** Expiry rounds, then an expiry signal whose authentication fails. */
  lemma RoundsThenAuthFailure(service: Request, auth: Request, rounds: seq<Reply>, expired: Option<Value>,
                              authReply: Reply, tail: seq<Reply>)
    requires ExpiryRounds(rounds)
    requires IsExpiry(expired)
    requires Auth.Authenticate(authReply).Failure?
    ensures Attempts(service, auth, rounds + [Reply(expired), authReply] + tail) ==
            Run(Threw(Auth.Authenticate(authReply).error), Rounds(service, auth, |rounds| / 2) + [service, auth], tail)
  {
    assert rounds + [Reply(expired), authReply] + tail == rounds + ([Reply(expired), authReply] + tail);
    AfterRounds(service, auth, rounds, [Reply(expired), authReply] + tail);
    StopOnAuthFailure(service, auth, expired, authReply, tail);
  }

  /** Expiry rounds and nothing after them. */
  lemma RoundsOnly(service: Request, auth: Request, rounds: seq<Reply>)
    requires ExpiryRounds(rounds)
    ensures Attempts(service, auth, rounds) == Run(Pending, Rounds(service, auth, |rounds| / 2) + [service], [])
  {
    assert rounds + [] == rounds;
    AfterRounds(service, auth, rounds, []);
  }

  /**
    After `k` expiry rounds the first reply that is not an expiry signal is
    returned, having sent `k + 1` identical service requests and `k`
    authentications.
   */
  lemma RetriedUntilAccepted(c: Config, call: Call, rounds: seq<Reply>, body: Option<Value>, tail: seq<Reply>)
    requires Query(call.options).Success?
    requires ExpiryRounds(rounds)
    requires !IsExpiry(body)
    ensures var r := CallService(c, call, rounds + [Reply(body)] + tail);
            var service := ServiceRequestFor(c, call, Query(call.options).value);
            && r.outcome == Returned(body)
            && r.rest == tail
            && multiset(r.sent)[service] == |rounds| / 2 + 1
            && multiset(r.sent)[Auth.AuthRequestFor(c)] == |rounds| / 2
  {
    var service := ServiceRequestFor(c, call, Query(call.options).value);
    var auth := Auth.AuthRequestFor(c);
    CallServiceIsAttempts(c, call, rounds + [Reply(body)] + tail);
    RoundsThenBody(service, auth, rounds, body, tail);
    RoundsThenCount(service, auth, |rounds| / 2, [service]);
  }

  /**
    A failed authentication ends the call with its error: no request follows
    it, and the unread replies are left as they are.
   */
  lemma AuthFailureEndsCall(c: Config, call: Call, rounds: seq<Reply>, expired: Option<Value>, authReply: Reply, tail: seq<Reply>)
    requires Query(call.options).Success?
    requires ExpiryRounds(rounds)
    requires IsExpiry(expired)
    requires Auth.Authenticate(authReply).Failure?
    ensures var r := CallService(c, call, rounds + [Reply(expired), authReply] + tail);
            && r.outcome == Threw(Auth.Authenticate(authReply).error)
            && r.rest == tail
            && r.sent[|r.sent| - 1] == Auth.AuthRequestFor(c)
            && multiset(r.sent)[ServiceRequestFor(c, call, Query(call.options).value)] == |rounds| / 2 + 1
            && multiset(r.sent)[Auth.AuthRequestFor(c)] == |rounds| / 2 + 1
  {
    var service := ServiceRequestFor(c, call, Query(call.options).value);
    var auth := Auth.AuthRequestFor(c);
    CallServiceIsAttempts(c, call, rounds + [Reply(expired), authReply] + tail);
    RoundsThenAuthFailure(service, auth, rounds, expired, authReply, tail);
    RoundsThenCount(service, auth, |rounds| / 2, [service, auth]);
  }

  /** A transport failure ends the call with that failure. */
  lemma TransportFailureEndsCall(c: Config, call: Call, rounds: seq<Reply>, reason: string, tail: seq<Reply>)
    requires Query(call.options).Success?
    requires ExpiryRounds(rounds)
    ensures var r := CallService(c, call, rounds + [Fault(reason)] + tail);
            r.outcome == Threw(TransportError(reason)) && r.rest == tail
  {
    var service := ServiceRequestFor(c, call, Query(call.options).value);
    var auth := Auth.AuthRequestFor(c);
    assert rounds + [Fault(reason)] + tail == rounds + ([Fault(reason)] + tail);
    AfterRounds(service, auth, rounds, [Fault(reason)] + tail);
    StopOnFault(service, auth, reason, tail);
  }

  /**
    There is no retry limit: however many expiry rounds the server sends,
    the call keeps authenticating and re-sending, and a script made only of
    such rounds leaves it waiting, with one more service request sent than
    rounds were answered.
   */
  lemma NoRetryLimit(c: Config, call: Call, rounds: seq<Reply>)
    requires Query(call.options).Success?
    requires ExpiryRounds(rounds)
    ensures var r := CallService(c, call, rounds);
            && r.outcome == Pending
            && multiset(r.sent)[ServiceRequestFor(c, call, Query(call.options).value)] == |rounds| / 2 + 1
            && multiset(r.sent)[Auth.AuthRequestFor(c)] == |rounds| / 2
  {
    var service := ServiceRequestFor(c, call, Query(call.options).value);
    var auth := Auth.AuthRequestFor(c);
    CallServiceIsAttempts(c, call, rounds);
    RoundsOnly(service, auth, rounds);
    RoundsThenCount(service, auth, |rounds| / 2, [service]);
  }

  /** A script that ends right after an expiry signal leaves the call waiting for its authentication. */
  lemma PendingDuringAuthentication(c: Config, call: Call, rounds: seq<Reply>, expired: Option<Value>)
    requires Query(call.options).Success?
    requires ExpiryRounds(rounds)
    requires IsExpiry(expired)
    ensures var r := CallService(c, call, rounds + [Reply(expired)]);
            r.outcome == Pending && r.sent[|r.sent| - 1] == Auth.AuthRequestFor(c)
  {
    var service := ServiceRequestFor(c, call, Query(call.options).value);
    var auth := Auth.AuthRequestFor(c);
    AfterRounds(service, auth, rounds, [Reply(expired)]);
    assert Attempts(service, auth, [Reply(expired)]) == Run(Pending, [service, auth], []);
  }

  /** A second expiry signal on the re-issued call is retried as well. */
  lemma SecondExpiryAlsoRetried(c: Config, call: Call, expired: Option<Value>, accepted: Reply, body: Option<Value>)
    requires Query(call.options).Success?
    requires IsExpiry(expired) && Auth.Authenticate(accepted).Success?
    requires !IsExpiry(body)
    ensures var r := CallService(c, call, [Reply(expired), accepted, Reply(expired), accepted, Reply(body)]);
            && r.outcome == Returned(body)
            && multiset(r.sent)[ServiceRequestFor(c, call, Query(call.options).value)] == 3
  {
    var rounds := [Reply(expired), accepted, Reply(expired), accepted];
    assert Continues(rounds, 0) && Continues(rounds, 1) && Continues(rounds, 2) && Continues(rounds, 3);
    assert rounds + [Reply(body)] + [] == [Reply(expired), accepted, Reply(expired), accepted, Reply(body)];
    RetriedUntilAccepted(c, call, rounds, body, []);
  }

  /**
    Example: `{success: false, message: "Session expired"}`,
    then `{statusCode: 0}` for the authentication, then `{data: 42}`.
   */
  lemma ExpiredOnceThenData(c: Config, call: Call)
    requires Query(call.options).Success?
    ensures var service := ServiceRequestFor(c, call, Query(call.options).value);
            var data := Some(Obj(map["data" := Num(42)]));
            CallService(c, call, [Reply(Some(Obj(map["success" := Bool(false), "message" := Str("Session expired")]))),
                                  Reply(Some(Obj(map["statusCode" := Num(0)]))),
                                  Reply(data)])
            == Run(Returned(data), [service, Auth.AuthRequestFor(c), service], [])
  {
    var service := ServiceRequestFor(c, call, Query(call.options).value);
    var auth := Auth.AuthRequestFor(c);
    var expired := Some(Obj(map["success" := Bool(false), "message" := Str("Session expired")]));
    var accepted := Reply(Some(Obj(map["statusCode" := Num(0)])));
    var data := Some(Obj(map["data" := Num(42)]));
    var script := [Reply(expired), accepted, Reply(data)];
    assert IsExpiry(expired);
    assert Auth.Authenticate(accepted).Success?;
    assert !IsExpiry(data);
    assert script[2..] == [Reply(data)] + [];
    StopOnNotExpired(service, auth, data, []);
    assert Attempts(service, auth, script) == Run(Returned(data), [service, auth, service], []);
  }
}
