/** The `bearer_jwt_required` decorator of
    resource_server/flask_decorator.py: the `Authorization: Bearer <token>`
    gate of section 2.1 of RFC 6750 in front of a protected view. A response
    is a JSON body (a map) with a status code. */
module FlaskDecorator {
  import opened PyValues
  import opened PyStrings
  import opened JwtValidation

  /** What the wrapper does with a request: answer with a JSON error, call
      the wrapped view and return its result, or let an exception escape. */
  datatype Reply<R> =
    | Respond(body: map<string, string>, status: int)
    | Called(result: R)
    | Escaped(exc: PyException)

  /** The reply, and the token handed to `is_token_valid` (None when the
      validator was not reached). */
  datatype Handling<R> = Handling(reply: Reply<R>, validated: Option<string>)

  function ErrorReply<R>(message: string): Reply<R> {
    Respond(map["error" := message], 401)
  }

  /** The header has the `Bearer <token>` shape the wrapper accepts. */
  predicate BearerShaped(header: string) {
    var parts := Split(header);
    |parts| == 2 && parts[0] == "Bearer"
  }

  /** The `except` clauses around `is_token_valid`: the three PyJWT errors
      become 401 replies with their own messages, anything else escapes the
      wrapper unchanged; the view is never called. */
  function MapValidatorError<R>(e: PyException): (reply: Reply<R>)
    ensures reply.Respond? <==> e.ExpiredSignatureError? || e.InvalidAudienceError? || IsDecodeError(e)
    ensures e.ExpiredSignatureError? ==> reply == ErrorReply("Token has expired")
    ensures e.InvalidAudienceError? ==> reply == ErrorReply("Invalid audience")
    ensures IsDecodeError(e) ==> reply == ErrorReply("Token is invalid")
    ensures !reply.Respond? ==> reply == Escaped(e)
  {
    if e.ExpiredSignatureError? then ErrorReply("Token has expired")
    else if e.InvalidAudienceError? then ErrorReply("Invalid audience")
    else if IsDecodeError(e) then ErrorReply("Token is invalid")
    else Escaped(e)
  }

  /** The `is_token_valid` method of the decorator's `jwt_validator`, for
      string tokens. */
  function TokenCheck(validator: JwtValidator, env: Oracles): (check: string -> Outcome<bool>)
    ensures forall t: string :: check(t) == Ok(Accepts(validator, env, t))
  {
    (t: string) => IsTokenValid(validator, env, PyStr(t)).outcome
  }

  /** `wrapper(*args, **kwargs)` as written, for the decorator's validator
      `check`, the request's `Authorization` header (None when absent) and
      the wrapped `view` applied to `args`. The ladder: a missing header is
      refused, then a header whose whitespace split is not exactly `Bearer`
      and one token, then the token goes to the validator, whose boolean
      result is discarded; only an exception from it stops the request. */
  function Wrapper<A, R>(check: string -> Outcome<bool>, authHeader: Option<string>,
                         view: A -> R, args: A): (h: Handling<R>)
    ensures authHeader.None? ==>
              h.reply == ErrorReply("Authorization header missing") && h.validated.None?
    ensures authHeader.Some? && !BearerShaped(authHeader.value) ==>
              h.reply == ErrorReply("Invalid token type") && h.validated.None?
    ensures h.validated.Some? <==> authHeader.Some? && BearerShaped(authHeader.value)
    ensures h.validated.Some? ==> h.validated.value == Split(authHeader.value)[1]
    ensures h.reply.Called? <==> h.validated.Some? && check(h.validated.value).Ok?
    ensures h.reply.Called? ==> h.reply.result == view(args)
    ensures h.validated.Some? && check(h.validated.value).Raise? ==>
              h.reply == MapValidatorError(check(h.validated.value).exc)
  {
    if authHeader.None? then Handling(ErrorReply("Authorization header missing"), None)
    else
      var parts := Split(authHeader.value);
      if |parts| != 2 || parts[0] != "Bearer" then Handling(ErrorReply("Invalid token type"), None)
      else
        var accessToken := parts[1];
        var outcome := check(accessToken);
        var reply := if outcome.Raise? then MapValidatorError(outcome.exc) else Called(view(args));
        Handling(reply, Some(accessToken))
  }

  /** The fail-open gate, as written: every bearer-shaped header reaches the
      view, whatever the validator decides, because `is_token_valid` never
      raises for a string token and its result is ignored. In particular
      the `except` branches are dead. */
  lemma WrapperFailsOpen<A, R>(validator: JwtValidator, env: Oracles, header: string,
                                     view: A -> R, args: A)
    requires BearerShaped(header)
    ensures Wrapper(TokenCheck(validator, env), Some(header), view, args).reply == Called(view(args))
  {
  }

  /** With the decorator's `JwtValidator`, the three `except` branches and
      the escape of any other exception are dead: every reply is one of the
      two header errors or the view's own result. */
  lemma DeadExceptBranches<A, R>(validator: JwtValidator, env: Oracles, authHeader: Option<string>,
                                 view: A -> R, args: A)
    ensures var h := Wrapper(TokenCheck(validator, env), authHeader, view, args);
      || h.reply == ErrorReply("Authorization header missing")
      || h.reply == ErrorReply("Invalid token type")
      || h.reply == Called(view(args))
  {
  }

  /** An oracle environment in which no token is valid: the JWKS endpoint
      cannot be reached. */
  function JwksDown(): (env: Oracles)
    ensures forall uri: string, token: string :: env.signingKeyFromJwt(uri, token).Raise?
  {
    Oracles(
      (uri: string, token: string) => Raise(OtherException("PyJWKClientError", "Fail to fetch data from the url")),
      (token: string) => Ok(map[]),
      (token: string, key: PublicKey, audience: string, algorithms: seq<PyVal>) => Ok(PyNone))
  }

  /** The input that shows the finding: with the JWKS endpoint unreachable
      the validator rejects the token, yet the request is let through. */
  lemma InvalidTokenReachesView<A, R>(validator: JwtValidator, view: A -> R, args: A)
    ensures IsTokenValid(validator, JwksDown(), PyStr("t")).outcome == Ok(false)
    ensures Wrapper(TokenCheck(validator, JwksDown()), Some("  Bearer   t "), view, args)
            == Handling(Called(view(args)), Some("t"))
  {
    SplitPaddedBearer();
  }

  /** The corrected wrapper: a token the validator does not accept is
      refused with "Token is invalid", as the `except DecodeError` branch
      evidently meant; everything before the validator is unchanged. */
  function WrapperFailClosed<A, R>(check: string -> Outcome<bool>, authHeader: Option<string>,
                                   view: A -> R, args: A): (h: Handling<R>)
    ensures h.validated == Wrapper(check, authHeader, view, args).validated
    ensures !h.validated.Some? ==> h.reply == Wrapper(check, authHeader, view, args).reply
    ensures h.reply.Called? <==> h.validated.Some? && check(h.validated.value) == Ok(true)
    ensures h.reply.Called? ==> h.reply.result == view(args)
    ensures h.validated.Some? && check(h.validated.value) == Ok(false) ==> h.reply == ErrorReply("Token is invalid")
    ensures h.validated.Some? && check(h.validated.value).Raise? ==>
              h.reply == MapValidatorError(check(h.validated.value).exc)
  {
    if authHeader.None? then Handling(ErrorReply("Authorization header missing"), None)
    else
      var parts := Split(authHeader.value);
      if |parts| != 2 || parts[0] != "Bearer" then Handling(ErrorReply("Invalid token type"), None)
      else
        var accessToken := parts[1];
        var outcome := check(accessToken);
        var reply :=
          if outcome.Raise? then MapValidatorError(outcome.exc)
          else if !outcome.value then ErrorReply("Token is invalid")
          else Called(view(args));
        Handling(reply, Some(accessToken))
  }

  /** The corrected wrapper fails closed: the view runs only for a
      bearer-shaped header whose token the validator accepts, and then its
      result is returned unmodified. */
  lemma FailClosedGate<A, R>(validator: JwtValidator, env: Oracles, header: string, view: A -> R, args: A)
    ensures var h := WrapperFailClosed(TokenCheck(validator, env), Some(header), view, args);
      && (h.reply == Called(view(args)) <==>
            BearerShaped(header) && Accepts(validator, env, Split(header)[1]))
      && (h.reply != Called(view(args)) ==> h.reply.Respond? && h.reply.status == 401)
  {
  }
}
