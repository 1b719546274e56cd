/** The OAuth2 client of client/client.py: validation of its four
    configuration values, construction, and the client-credentials grant
    request of section 4.4.2 of RFC 6749. */
module OAuthClient {
  import opened PyValues
  import opened PyStrings

  /** A constructed `Client`: the four private attributes as stored. The
      trailing commas after the first three assignments in `__init__` make
      them one-element tuples; the URI is stored as it was validated. */
  datatype Client = Client(clientId: PyVal, clientSecret: PyVal, scope: PyVal, uri: PyVal)

  /** `__validate_client_id`: a string of exactly 36 characters. */
  function ValidateClientId(clientId: PyVal): (r: Outcome<PyVal>)
    ensures r.Ok? <==> clientId.PyStr? && |clientId.s| == 36
    ensures r.Ok? ==> r.value == clientId
    ensures clientId.PyNone? ==> r == Raise(ValueError("Client ID cannot be None"))
    ensures !clientId.PyNone? && !clientId.PyStr? ==> r == Raise(ValueError("Client ID must be a string"))
    ensures clientId.PyStr? && |clientId.s| != 36 ==> r == Raise(ValueError("Client ID must be 36 characters long"))
  {
    if clientId.PyNone? then Raise(ValueError("Client ID cannot be None"))
    else if !clientId.PyStr? then Raise(ValueError("Client ID must be a string"))
    else if |clientId.s| != 36 then Raise(ValueError("Client ID must be 36 characters long"))
    else Ok(clientId)
  }

  /** `__validate_client_secret`: any string, the empty one included. */
  function ValidateClientSecret(clientSecret: PyVal): (r: Outcome<PyVal>)
    ensures r.Ok? <==> clientSecret.PyStr?
    ensures r.Ok? ==> r.value == clientSecret
    ensures clientSecret.PyNone? ==> r == Raise(ValueError("Client Secret cannot be None"))
    ensures !clientSecret.PyNone? && !clientSecret.PyStr? ==> r == Raise(ValueError("Client Secret must be a string"))
  {
    if clientSecret.PyNone? then Raise(ValueError("Client Secret cannot be None"))
    else if !clientSecret.PyStr? then Raise(ValueError("Client Secret must be a string"))
    else Ok(clientSecret)
  }

  /** `all(isinstance(s, str) for s in scope)`: iterating a value that is not
      iterable raises the TypeError of `iter`. */
  function AllAreStrings(scope: PyVal): (r: Outcome<bool>)
    ensures r.Raise? <==> !(scope.PyStr? || scope.PyList? || scope.PyTuple?)
    ensures (scope.PyList? || scope.PyTuple?) ==> r == Ok(AllStrings(scope.items))
    ensures scope.PyStr? ==> r == Ok(true)
  {
    var items :- Iterate(scope);
    Ok(AllStrings(items))
  }

  /** `__validate_scope`: a bare string, or a list (any iterable) whose
      elements are all strings. The empty list passes; a value that is not
      iterable escapes as the TypeError of `all(...)`, not as a ValueError. */
  function ValidateScope(scope: PyVal): (r: Outcome<PyVal>)
    ensures r.Ok? <==> scope.PyStr? || ((scope.PyList? || scope.PyTuple?) && AllStrings(scope.items))
    ensures r.Ok? ==> r.value == scope
    ensures scope.PyNone? ==> r == Raise(ValueError("Scope cannot be None"))
    ensures scope.PyScalar? ==> r == Raise(TypeError("'" + scope.typeName + "' object is not iterable"))
    ensures (scope.PyList? || scope.PyTuple?) && !AllStrings(scope.items) ==>
              r == Raise(ValueError("Scope must be a list of strings"))
  {
    if scope.PyNone? then Raise(ValueError("Scope cannot be None"))
    else if scope.PyStr? then Ok(scope)
    else
      var all :- AllAreStrings(scope);
      if !all then Raise(ValueError("Scope must be a list of strings"))
      else Ok(scope)
  }

  /** `__validate_uri`: a string that starts with `https://`. */
  function ValidateUri(uri: PyVal): (r: Outcome<PyVal>)
    ensures r.Ok? <==> uri.PyStr? && StartsWith(uri.s, HttpsPrefix)
    ensures r.Ok? ==> r.value == uri
    ensures uri.PyNone? ==> r == Raise(ValueError("URI cannot be None"))
    ensures !uri.PyNone? && !uri.PyStr? ==> r == Raise(ValueError("URI must be a string"))
    ensures uri.PyStr? && !StartsWith(uri.s, HttpsPrefix) ==> r == Raise(ValueError("URI must start with https"))
  {
    if uri.PyNone? then Raise(ValueError("URI cannot be None"))
    else if !uri.PyStr? then Raise(ValueError("URI must be a string"))
    else if !StartsWith(uri.s, HttpsPrefix) then Raise(ValueError("URI must start with https"))
    else Ok(uri)
  }

  /** `Client.__init__` as written: the four validators run in order and the
      first exception propagates, so no client exists; on success id, secret
      and scope are stored wrapped in one-element tuples. */
  function NewClient(clientId: PyVal, clientSecret: PyVal, scope: PyVal, uri: PyVal): (r: Outcome<Client>)
    ensures r.Ok? <==>
      && ValidateClientId(clientId).Ok? && ValidateClientSecret(clientSecret).Ok?
      && ValidateScope(scope).Ok? && ValidateUri(uri).Ok?
    ensures r.Ok? ==> r.value == Client(PyTuple([clientId]), PyTuple([clientSecret]), PyTuple([scope]), uri)
    ensures ValidateClientId(clientId).Raise? ==> r == Raise(ValidateClientId(clientId).exc)
    ensures ValidateClientId(clientId).Ok? && ValidateClientSecret(clientSecret).Raise? ==>
              r == Raise(ValidateClientSecret(clientSecret).exc)
    ensures ValidateClientId(clientId).Ok? && ValidateClientSecret(clientSecret).Ok? && ValidateScope(scope).Raise? ==>
              r == Raise(ValidateScope(scope).exc)
    ensures ValidateClientId(clientId).Ok? && ValidateClientSecret(clientSecret).Ok? && ValidateScope(scope).Ok? ==>
              r.Raise? == ValidateUri(uri).Raise? && (r.Raise? ==> r == Raise(ValidateUri(uri).exc))
  {
    var id :- ValidateClientId(clientId);
    var secret :- ValidateClientSecret(clientSecret);
    var sc :- ValidateScope(scope);
    var u :- ValidateUri(uri);
    Ok(Client(PyTuple([id]), PyTuple([secret]), PyTuple([sc]), u))
  }

  /** `Client.__init__` as its annotations intend (`client_id -> str`, ...):
      the same validation, with every value stored as validated. */
  function NewClientIntended(clientId: PyVal, clientSecret: PyVal, scope: PyVal, uri: PyVal): (r: Outcome<Client>)
    ensures r.Ok? <==> NewClient(clientId, clientSecret, scope, uri).Ok?
    ensures r.Raise? ==> r == NewClient(clientId, clientSecret, scope, uri)
    ensures r.Ok? ==> r.value == Client(clientId, clientSecret, scope, uri)
  {
    var id :- ValidateClientId(clientId);
    var secret :- ValidateClientSecret(clientSecret);
    var sc :- ValidateScope(scope);
    var u :- ValidateUri(uri);
    Ok(Client(id, secret, sc, u))
  }

  /** The body of the client-credentials grant request built in
      `obtain_jwt`: exactly four keys, the grant type fixed and the other
      three values the client's stored properties. */
  function GrantPayload(c: Client): (payload: map<string, PyVal>)
    ensures payload.Keys == {"grant_type", "client_id", "client_secret", "scope"}
    ensures payload["grant_type"] == PyStr("client_credentials")
    ensures payload["client_id"] == c.clientId
    ensures payload["client_secret"] == c.clientSecret
    ensures payload["scope"] == c.scope
  {
    map[
      "grant_type" := PyStr("client_credentials"),
      "client_id" := c.clientId,
      "client_secret" := c.clientSecret,
      "scope" := c.scope
    ]
  }

  /** `obtain_jwt`: `post(uri, payload)` stands for the HTTP POST and the
      JSON decoding of its response, which either raises or yields the
      response dictionary. The token is that dictionary's `access_token`
      entry, or None when the key is absent. */
  function ObtainJwt(c: Client, post: (PyVal, map<string, PyVal>) -> Outcome<map<string, PyVal>>): (r: Outcome<PyVal>)
    ensures post(c.uri, GrantPayload(c)).Raise? ==> r == Raise(post(c.uri, GrantPayload(c)).exc)
    ensures post(c.uri, GrantPayload(c)).Ok? ==>
      var response := post(c.uri, GrantPayload(c)).value;
      r == Ok(if "access_token" in response then response["access_token"] else PyNone)
  {
    var response :- post(c.uri, GrantPayload(c));
    Ok(if "access_token" in response then response["access_token"] else PyNone)
  }

  /** The tuple-wrapped configuration, as written: the `client_id` property of every
      constructed client is a tuple, never the `str` its annotation
      promises, and the grant payload carries that tuple. */
  lemma ClientIdStoredAsTuple(clientId: PyVal, clientSecret: PyVal, scope: PyVal, uri: PyVal)
    requires NewClient(clientId, clientSecret, scope, uri).Ok?
    ensures var c := NewClient(clientId, clientSecret, scope, uri).value;
      && !c.clientId.PyStr? && !c.clientSecret.PyStr?
      && GrantPayload(c)["client_id"] == PyTuple([clientId])
      && GrantPayload(c)["client_id"] != clientId
  {
  }

  /** The corrected constructor: the payload carries the validated strings. */
  lemma IntendedPayloadCarriesStrings(clientId: PyVal, clientSecret: PyVal, scope: PyVal, uri: PyVal)
    requires NewClientIntended(clientId, clientSecret, scope, uri).Ok?
    ensures var p := GrantPayload(NewClientIntended(clientId, clientSecret, scope, uri).value);
      && p["client_id"].PyStr? && |p["client_id"].s| == 36
      && p["client_id"] == clientId
      && p["client_secret"].PyStr? && p["client_secret"] == clientSecret
      && p["scope"] == scope
  {
  }

  /** A minimal configuration is accepted: an empty secret, an empty scope
      list and a bare `https://` URI. */
  lemma MinimalConfigurationAccepted(clientId: string)
    requires |clientId| == 36
    ensures NewClient(PyStr(clientId), PyStr(""), PyList([]), PyStr(HttpsPrefix)).Ok?
  {
  }

  /** A plain-HTTP token endpoint is refused, whatever follows the scheme. */
  lemma PlainHttpRejected(rest: string)
    ensures ValidateUri(PyStr("http://" + rest)) == Raise(ValueError("URI must start with https"))
  {
    assert ("http://" + rest)[4] == ':';
  }
}
