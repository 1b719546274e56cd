# OAuth2 client and bearer-token gate: a Dafny model

This project models the input validation and the request-gating decisions
of a small OAuth2 system written in Python. There are three parts:

- the `Client` of `client/client.py`: validation of its client id, secret,
  scope and token-endpoint URI, construction, and the client-credentials
  grant request of section 4.4.2 of RFC 6749;
- the `JwtValidator` of `resource_server/jwt_validator.py`: validation of
  its JWKS URI and audience, and `is_token_valid`, which wraps PyJWT and
  turns every failure into `False`;
- the `bearer_jwt_required` decorator of
  `resource_server/flask_decorator.py`: the `Authorization: Bearer <token>`
  check of section 2.1 of RFC 6750 in front of a protected Flask view.

All three are pure decision ladders, so the model is written as datatypes,
functions and lemmas:

- `py_values.dfy` (module `PyValues`) has Python's dynamic values (`PyVal`:
  None, `str`, list, tuple, or another non-iterable value) and the
  exceptions involved. It also has `Outcome`, which is either a returned
  value or a raised exception.
- `py_strings.dfy` (module `PyStrings`) has `str.startswith` and `str.split()`
  with no separator. `Split` is proved correct against an independent
  description: a layout of words between whitespace runs (`SplitJoin`,
  `GapsLayout`).
- `oauth_client.dfy` (module `OAuthClient`) has the four validators, the
  constructor, the grant payload and `obtain_jwt`.
- `jwt_validation.dfy` (module `JwtValidation`) has the two validators, the
  constructor and `is_token_valid`. The JWKS key lookup,
  `jwt.get_unverified_header` and `jwt.decode` are oracles: function-typed
  fields of `Oracles`, which may return a value or raise.
  `IsTokenValid` returns the oracle calls it made, in order, along with
  its outcome. This makes it possible to state which checks ran and with
  which arguments. In particular the `algorithms` allow-list is the
  token's own `alg` header.
- `flask_decorator.dfy` (module `FlaskDecorator`) has the wrapper. A reply
  is a JSON body (a map) with a status code, the view's own result, or an
  exception that escapes. The wrapper also reports which token it handed
  to the validator.

The model follows the code as written, including where its docstrings or
OAuth2 conventions suggest otherwise:

- An empty secret, an empty scope list and an empty audience are accepted.
- The `algorithms` allow-list is built from the token's own header.
- The gate fails open (see Findings).

## Model

| member | source | states |
|---|---|---|
| `PyValues.Iterate` | client/client.py:121 | `for s in scope` iterates a string, list or tuple and raises `TypeError("'T' object is not iterable")` for any other value |
| `PyStrings.SplitFirstPart` | resource_server/flask_decorator.py:14 | a word after a whitespace run, followed by the end or by whitespace, is the first part of the split, and splitting goes on with what follows |
| `PyStrings.SplitJoin` | resource_server/flask_decorator.py:14 | splitting words laid out between whitespace runs gives back exactly those words, so leading, trailing and repeated whitespace are dropped |
| `PyStrings.GapsJoin` | resource_server/flask_decorator.py:14 | `Join(Gaps(s), Split(s)) == s`: every string is its split's parts re-joined with the runs `Gaps` returns, so split drops nothing but what lies between the parts (that those runs are whitespace is `GapsLayout`) |
| `PyStrings.GapsLayout` | resource_server/flask_decorator.py:14 | every string is a layout of its split: only whitespace surrounds the parts, and at least one whitespace character separates consecutive parts |
| `PyStrings.SplitUnique` | resource_server/flask_decorator.py:14 | a string has only one word layout, and it is the one its split gives |
| `PyStrings.SplitPaddedBearer` | resource_server/flask_decorator.py:14-18 | `'  Bearer   t '` splits into `['Bearer', 't']` |
| `OAuthClient.ValidateClientId` | client/client.py:79-85 | accepted iff a string of exactly 36 characters, and then returned unchanged; None, non-string and wrong length each give their own ValueError message |
| `OAuthClient.ValidateClientSecret` | client/client.py:100-104 | accepted iff a string (the empty string too), and then returned unchanged; None and non-string each give their own ValueError message |
| `OAuthClient.AllAreStrings` | client/client.py:121 | `all(isinstance(s, str) for s in scope)` is whether every element is a string, and it raises for a value that is not iterable |
| `OAuthClient.ValidateScope` | client/client.py:119-123 | accepted iff a bare string, or a list or tuple whose elements are all strings (so the empty list passes), and then returned unchanged; None gives a ValueError; a non-iterable escapes as a TypeError, not a ValueError |
| `OAuthClient.ValidateUri` | client/client.py:138-144 | accepted iff a string starting with `https://`, and then returned unchanged; None, non-string and wrong scheme each give their own ValueError message |
| `OAuthClient.NewClient` | client/client.py:21-24 | construction succeeds iff all four validators accept. Id, secret, scope and URI are checked in that order, and the first failure's exception is the result. On success id, secret and scope are stored as one-element tuples and the URI bare |
| `OAuthClient.NewClientIntended` | client/client.py:21-24 | the corrected constructor accepts and rejects exactly as `NewClient` does, with the same exceptions, and stores every value as validated |
| `OAuthClient.GrantPayload` | client/client.py:156-161 | the payload has exactly the keys grant_type, client_id, client_secret and scope; grant_type is `client_credentials` and the others are the client's stored properties |
| `OAuthClient.ObtainJwt` | client/client.py:162 | a failure of the request propagates; otherwise the result is the response's `access_token` entry, or None when that key is absent |
| `OAuthClient.ClientIdStoredAsTuple` | client/client.py:21-34 | for every accepted configuration, the `client_id` and `client_secret` properties are tuples, not strings, and the payload's `client_id` is the one-element tuple |
| `OAuthClient.IntendedPayloadCarriesStrings` | client/client.py:156-161 | with the corrected constructor the payload carries the validated 36-character id, the secret and the scope themselves |
| `OAuthClient.MinimalConfigurationAccepted` | client/client.py:100-123 | an empty secret, an empty scope list and the URI `https://` are accepted together with any 36-character id |
| `OAuthClient.PlainHttpRejected` | client/client.py:142-143 | every `http://` URI is rejected with "URI must start with https" |
| `JwtValidation.ValidateJwksUri` | resource_server/jwt_validator.py:52-58 | accepted iff a string starting with `https://`, and then returned unchanged; None, non-string and wrong scheme each give their own ValueError message |
| `JwtValidation.ValidateAudience` | resource_server/jwt_validator.py:74-78 | accepted iff a string (the empty string too), and then returned unchanged; None and non-string each give their own ValueError message |
| `JwtValidation.NewJwtValidator` | resource_server/jwt_validator.py:26-36 | construction succeeds iff both validators accept, the JWKS URI being checked first; on success the properties are exactly the inputs |
| `JwtValidation.GetAlgorithm` | resource_server/jwt_validator.py:106-107 | the algorithm is the `alg` entry of the unverified header; a header error propagates and a header without `alg` raises `KeyError('alg')` |
| `JwtValidation.IsTokenValid` | resource_server/jwt_validator.py:123-131 | raises ValueError (None or non-string) iff the token is not a string, then with no oracle call. For a string it never raises, and returns True iff key fetch, header read and decode all succeed and decode yields non-None. The first call is the key fetch on the configured URI; there is one call when it raises, two when the header read or its `alg` lookup raises, three otherwise. A decode happens only third, after the header read, with the configured audience, the fetched key and a one-element allow-list holding the header's `alg` |
| `JwtValidation.FailClosed` | resource_server/jwt_validator.py:127-130 | if the key fetch, the header read or the decode raises, the result is False and nothing escapes |
| `JwtValidation.AllowListFromTokenHeader` | resource_server/jwt_validator.py:106-128 | whatever key the JWKS endpoint returns, decode is called with exactly `[alg]` taken from the token's own unverified header |
| `JwtValidation.OracleCallsUseConfiguration` | resource_server/jwt_validator.py:109-131 | a string token causes at most three oracle calls, all on that token: the key fetch first, on the configured JWKS URI; the header read second; a decode only against the configured audience |
| `FlaskDecorator.MapValidatorError` | resource_server/flask_decorator.py:21-26 | an expired signature gives 401 "Token has expired", an invalid audience 401 "Invalid audience", a decode error (including `InvalidSignatureError`) 401 "Token is invalid"; every other exception escapes unchanged and the view is not called |
| `FlaskDecorator.TokenCheck` | resource_server/flask_decorator.py:20 | calling the decorator's validator on a string token never raises and returns whether the validator accepts it |
| `FlaskDecorator.Wrapper` | resource_server/flask_decorator.py:9-27 | missing header gives 401 "Authorization header missing"; a header whose whitespace split is not exactly `Bearer` and one token gives 401 "Invalid token type"; in both cases the validator is not called. Otherwise the second part is the token validated. The view is called, and its result returned unmodified, iff the validator returns without raising, whatever it returns. A raise is mapped by the except clauses |
| `FlaskDecorator.WrapperFailsOpen` | resource_server/flask_decorator.py:19-27 | with the `JwtValidator`, every bearer-shaped header reaches the view |
| `FlaskDecorator.DeadExceptBranches` | resource_server/flask_decorator.py:21-26 | with the `JwtValidator`, the only replies are the two header errors or the view's result: the except branches never fire |
| `FlaskDecorator.InvalidTokenReachesView` | resource_server/flask_decorator.py:19-27 | with the JWKS endpoint down, `is_token_valid` returns False for token `t`, yet header `'  Bearer   t '` is passed through to the view |
| `FlaskDecorator.WrapperFailClosed` | resource_server/flask_decorator.py:9-27 | the corrected wrapper agrees with the original up to the validator call. It calls the view iff the validator returns True, answers 401 "Token is invalid" when it returns False, and maps exceptions as before |
| `FlaskDecorator.FailClosedGate` | resource_server/flask_decorator.py:19-27 | with the `JwtValidator`, the corrected wrapper calls the view iff the header is bearer-shaped and the validator accepts the token; every other request gets a 401 |

## Left out

- The HTTP POST and the JSON decoding of `obtain_jwt` are one oracle argument of `ObtainJwt`. It either raises or yields the response dictionary.
- ObtainJwt: a JSON response that is not an object, where `.get` would raise `AttributeError`, is not modelled.
- The JWKS download through `PyJWKClient`, `jwt.get_unverified_header` and `jwt.decode` are oracles that may raise. Signature, expiry and audience checks inside PyJWT are not modelled. They are foreign cryptographic library code.
- `FetchSigningKey` only forwards to the key oracle with the configured URI. Its behaviour is stated through `IsTokenValid`.
- Iterables other than lists, tuples and strings (dicts, sets, generators) are represented by the list of the elements iteration yields. Subclasses of `str` are represented as strings.
- Python exceptions outside `Exception` (`KeyboardInterrupt`, `SystemExit`) are not modelled. `except Exception` would let them through.
- Flask's `request`, `jsonify`, routing and the copying of `__name__` are not modelled. The header arrives as an optional string and a reply is a map with a status code.
- The wrapped view is a total function of its arguments. An exception it raises would pass through the wrapper unchanged; the model represents that through the view's result type.
- Form encoding of the payload and space-joining of scopes (section 3.3 of RFC 6749) are not modelled. The code does neither.
- A validator is a value set once by its constructor, so "validation never changes the configuration" holds by construction and is not stated as a lemma.
- There is no concurrency or timeout in the code, so the model has none.

## Findings

| source | as written | input that shows it | evidently intended | confidence | as-written member | corrected member |
|---|---|---|---|---|---|---|
| resource_server/flask_decorator.py:19-27 | the boolean returned by `is_token_valid` is discarded. That method turns every failure into `False` instead of raising, so every bearer-shaped request reaches the view and the three `except` branches are dead | header `'  Bearer   t '` with the JWKS endpoint unreachable: `is_token_valid('t')` is `False`, yet the view runs | refuse a token the validator does not accept with 401, as the `except` branches show | high, not executed | `FlaskDecorator.InvalidTokenReachesView` | `FlaskDecorator.WrapperFailClosed` |
| client/client.py:21-23 | the trailing commas store id, secret and scope as one-element tuples, although the properties are annotated `-> str` and `-> list[str]`; the tuples go into the grant payload | any accepted configuration, e.g. a 36-character id: `client.client_id` is `('…',)` | store the validated values themselves | high, not executed | `OAuthClient.ClientIdStoredAsTuple` | `OAuthClient.NewClientIntended` |
