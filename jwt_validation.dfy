/** The resource server's `JwtValidator` of resource_server/jwt_validator.py:
    configuration validation and the fail-closed `is_token_valid` wrapper
    around PyJWT. The JWKS fetch, the unverified-header read and
    `jwt.decode` are oracles; the model records every call made to them. */
module JwtValidation {
  import opened PyValues
  import opened PyStrings

  /** A constructed validator; both values are set once, in `__init__`. */
  datatype JwtValidator = JwtValidator(jwksUri: string, audience: string)

  /** The key object `PyJWKClient` returns (`public_key.key`). */
  datatype PublicKey = PublicKey(material: string)

  /** What the validator may observe of its collaborators:
      - `signingKeyFromJwt(jwksUri, token)`: build a `PyJWKClient` on the URI
        and resolve the token's key;
      - `unverifiedHeader(token)`: `jwt.get_unverified_header`;
      - `decode(token, key, audience, algorithms)`: `jwt.decode`, which checks
        signature, expiry and audience and returns the claims. */
  datatype Oracles = Oracles(
    signingKeyFromJwt: (string, string) -> Outcome<PublicKey>,
    unverifiedHeader: string -> Outcome<map<string, PyVal>>,
    decode: (string, PublicKey, string, seq<PyVal>) -> Outcome<PyVal>)

  /** One call to an oracle, with its arguments. */
  datatype OracleCall =
    | FetchKey(jwksUri: string, token: string)
    | ReadHeader(token: string)
    | Decode(token: string, key: PublicKey, audience: string, algorithms: seq<PyVal>)

  /** The result of `is_token_valid` and the oracle calls it made, in order. */
  datatype Validation = Validation(outcome: Outcome<bool>, calls: seq<OracleCall>)

  /** `__validate_jwks_uri`: a string that starts with `https://`. */
  function ValidateJwksUri(jwksUri: PyVal): (r: Outcome<PyVal>)
    ensures r.Ok? <==> jwksUri.PyStr? && StartsWith(jwksUri.s, HttpsPrefix)
    ensures r.Ok? ==> r.value == jwksUri
    ensures jwksUri.PyNone? ==> r == Raise(ValueError("JWKS URI cannot be None"))
    ensures !jwksUri.PyNone? && !jwksUri.PyStr? ==> r == Raise(ValueError("JWKS URI must be a string"))
    ensures jwksUri.PyStr? && !StartsWith(jwksUri.s, HttpsPrefix) ==>
              r == Raise(ValueError("JWKS URI must start with https"))
  {
    if jwksUri.PyNone? then Raise(ValueError("JWKS URI cannot be None"))
    else if !jwksUri.PyStr? then Raise(ValueError("JWKS URI must be a string"))
    else if !StartsWith(jwksUri.s, HttpsPrefix) then Raise(ValueError("JWKS URI must start with https"))
    else Ok(jwksUri)
  }

  /** `__validate_audience`: any string, the empty one included. */
  function ValidateAudience(audience: PyVal): (r: Outcome<PyVal>)
    ensures r.Ok? <==> audience.PyStr?
    ensures r.Ok? ==> r.value == audience
    ensures audience.PyNone? ==> r == Raise(ValueError("Audience cannot be None"))
    ensures !audience.PyNone? && !audience.PyStr? ==> r == Raise(ValueError("Audience must be a string"))
  {
    if audience.PyNone? then Raise(ValueError("Audience cannot be None"))
    else if !audience.PyStr? then Raise(ValueError("Audience must be a string"))
    else Ok(audience)
  }

  /** `JwtValidator.__init__`: the JWKS URI is validated before the audience
      and the first failure propagates; on success the properties give back
      exactly the validated inputs. */
  function NewJwtValidator(jwksUri: PyVal, audience: PyVal): (r: Outcome<JwtValidator>)
    ensures r.Ok? <==> ValidateJwksUri(jwksUri).Ok? && ValidateAudience(audience).Ok?
    ensures r.Ok? ==> PyStr(r.value.jwksUri) == jwksUri && PyStr(r.value.audience) == audience
    ensures ValidateJwksUri(jwksUri).Raise? ==> r == Raise(ValidateJwksUri(jwksUri).exc)
    ensures ValidateJwksUri(jwksUri).Ok? && ValidateAudience(audience).Raise? ==>
              r == Raise(ValidateAudience(audience).exc)
  {
    var uri :- ValidateJwksUri(jwksUri);
    var aud :- ValidateAudience(audience);
    Ok(JwtValidator(uri.s, aud.s))
  }

  /** `__fetch_signing_key`: a fresh `PyJWKClient` on the configured URI. */
  function FetchSigningKey(v: JwtValidator, env: Oracles, token: string): Outcome<PublicKey> {
    env.signingKeyFromJwt(v.jwksUri, token)
  }

  /** `__get_algorithm`: the `alg` entry of the token's own, unverified
      header; a header without one raises `KeyError('alg')`. */
  function GetAlgorithm(env: Oracles, token: string): (r: Outcome<PyVal>)
    ensures r.Ok? <==> env.unverifiedHeader(token).Ok? && "alg" in env.unverifiedHeader(token).value
    ensures r.Ok? ==> r.value == env.unverifiedHeader(token).value["alg"]
    ensures env.unverifiedHeader(token).Raise? ==> r == Raise(env.unverifiedHeader(token).exc)
    ensures env.unverifiedHeader(token).Ok? && r.Raise? ==> r.exc == KeyError("alg")
  {
    var header :- env.unverifiedHeader(token);
    if "alg" in header then Ok(header["alg"]) else Raise(KeyError("alg"))
  }

  /** Neither the key nor the header nor the decoding raised, and the decoded
      claims are not None. */
  predicate Accepts(v: JwtValidator, env: Oracles, token: string) {
    var key := FetchSigningKey(v, env, token);
    var alg := GetAlgorithm(env, token);
    && key.Ok? && alg.Ok?
    && var decoded := env.decode(token, key.value, v.audience, [alg.value]);
       decoded.Ok? && decoded.value != PyNone
  }

  /** `is_token_valid`. A None or non-string token raises ValueError before
      any oracle is consulted. Otherwise the key is fetched, the algorithm
      read from the token's header and the token decoded, in the order of
      the keyword arguments; any exception there becomes False, and the
      result is True exactly when decoding yields a value that is not None. */
  function IsTokenValid(v: JwtValidator, env: Oracles, token: PyVal): (r: Validation)
    ensures r.outcome.Raise? <==> !token.PyStr?
    ensures token.PyNone? ==> r == Validation(Raise(ValueError("Token cannot be None")), [])
    ensures !token.PyNone? && !token.PyStr? ==> r == Validation(Raise(ValueError("Token must be a string")), [])
    ensures token.PyStr? ==> r.outcome == Ok(Accepts(v, env, token.s))
    ensures token.PyStr? ==> |r.calls| >= 1 && r.calls[0] == FetchKey(v.jwksUri, token.s)
    ensures token.PyStr? ==>
              |r.calls| == (if FetchSigningKey(v, env, token.s).Raise? then 1
                            else if GetAlgorithm(env, token.s).Raise? then 2 else 3)
    ensures forall k :: 0 <= k < |r.calls| && r.calls[k].Decode? ==>
      && token.PyStr? && k == 2 && r.calls[1] == ReadHeader(token.s)
      && r.calls[k].audience == v.audience
      && Ok(r.calls[k].key) == FetchSigningKey(v, env, token.s)
      && |r.calls[k].algorithms| == 1
      && GetAlgorithm(env, token.s) == Ok(r.calls[k].algorithms[0])
  {
    if token.PyNone? then Validation(Raise(ValueError("Token cannot be None")), [])
    else if !token.PyStr? then Validation(Raise(ValueError("Token must be a string")), [])
    else
      var t := token.s;
      var fetch := [FetchKey(v.jwksUri, t)];
      var key := FetchSigningKey(v, env, t);
      if key.Raise? then Validation(Ok(false), fetch)
      else
        var read := fetch + [ReadHeader(t)];
        var alg := GetAlgorithm(env, t);
        if alg.Raise? then Validation(Ok(false), read)
        else
          var calls := read + [Decode(t, key.value, v.audience, [alg.value])];
          var decoded := env.decode(t, key.value, v.audience, [alg.value]);
          if decoded.Raise? then Validation(Ok(false), calls)
          else Validation(Ok(decoded.value != PyNone), calls)
  }

  /** Fail closed: whatever exception any oracle raises, a string token is
      reported invalid and the exception never escapes. */
  lemma FailClosed(v: JwtValidator, env: Oracles, token: string)
    requires || FetchSigningKey(v, env, token).Raise?
             || GetAlgorithm(env, token).Raise?
             || env.decode(token, FetchSigningKey(v, env, token).value, v.audience,
                           [GetAlgorithm(env, token).value]).Raise?
    ensures IsTokenValid(v, env, PyStr(token)).outcome == Ok(false)
  {
  }

  /** The algorithm allow-list comes from the token itself: whatever key the
      JWKS endpoint returns, decoding is asked to accept exactly the `alg`
      the token's unverified header names. */
  lemma AllowListFromTokenHeader(v: JwtValidator, env: Oracles, token: string, alg: PyVal)
    requires FetchSigningKey(v, env, token).Ok?
    requires env.unverifiedHeader(token).Ok? && "alg" in env.unverifiedHeader(token).value
    requires env.unverifiedHeader(token).value["alg"] == alg
    ensures var calls := IsTokenValid(v, env, PyStr(token)).calls;
      |calls| == 3 && calls[2] == Decode(token, FetchSigningKey(v, env, token).value, v.audience, [alg])
  {
  }

  /** The trace of a string token: at most the three calls, the key fetch
      first and the header read second, each on the token being validated;
      the key is fetched from the configured URI and the token decoded
      against the configured audience. */
  lemma OracleCallsUseConfiguration(v: JwtValidator, env: Oracles, token: string)
    ensures var calls := IsTokenValid(v, env, PyStr(token)).calls;
      && 1 <= |calls| <= 3
      && (forall k :: 0 <= k < |calls| ==> calls[k].token == token)
      && (forall k :: 0 <= k < |calls| ==> (calls[k].FetchKey? <==> k == 0))
      && (forall k :: 0 <= k < |calls| ==> (calls[k].ReadHeader? <==> k == 1))
      && (forall k :: 0 <= k < |calls| && calls[k].FetchKey? ==> calls[k].jwksUri == v.jwksUri)
      && (forall k :: 0 <= k < |calls| && calls[k].Decode? ==> calls[k].audience == v.audience)
  {
  }
}
