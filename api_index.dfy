/** The shared HTTP client: a request interceptor that attaches the stored
    token as a bearer credential (section 2.1 of RFC 6750), a response
    interceptor that ends the session on a 401 and always passes the error
    on, and the `api.*` wrappers that turn every outcome into a result
    record and never reject. The transport itself is a function passed in. */
module ApiIndex {
  import opened Js

  /** The local-storage key the client reads its token from. */
  const TokenKey: string := "token"
  const AuthorizationHeader: string := "Authorization"
  const BearerPrefix: string := "Bearer "
  const LoginPath: string := "/login"
  const UnauthorizedStatus: int := 401

  datatype Verb = GET | POST | PUT | PATCH | DELETE

  /** A request: its verb, url, body (`{}` when none is given) and headers. */
  datatype RequestConfig = RequestConfig(verb: Verb, url: string, body: Json, headers: map<string, string>)

  datatype HttpResponse = HttpResponse(status: int, data: Json)

  /** What the client rejects with: the server's response when there was
      one, and a message. */
  datatype HttpError = HttpError(response: Option<HttpResponse>, message: string)

  /** How a request settled. */
  datatype Settled = Resolved(response: HttpResponse) | Rejected(reason: HttpError)

  /** `ApiResponse`: `data` and `error` are `undefined` when absent. */
  datatype ApiResponse = ApiResponse(success: bool, data: Json, error: Json)

  /** `localStorage.getItem('token')` when it is truthy, that is non-empty. */
  function StoredToken(storage: map<string, string>): (t: Option<string>)
    ensures t.Some? <==> TokenKey in storage && storage[TokenKey] != ""
    ensures t.Some? ==> t.value == storage[TokenKey]
  {
    if TokenKey in storage && storage[TokenKey] != "" then Some(storage[TokenKey]) else None
  }

  /** The credential a resource server reads from an `Authorization: Bearer`
      header (section 2.1 of RFC 6750). */
  function BearerCredential(headers: map<string, string>): (c: Option<string>)
    ensures c.Some? <==>
      (AuthorizationHeader in headers &&
       |BearerPrefix| <= |headers[AuthorizationHeader]| &&
       headers[AuthorizationHeader][..|BearerPrefix|] == BearerPrefix)
    ensures c.Some? ==> headers[AuthorizationHeader] == BearerPrefix + c.value
  {
    if AuthorizationHeader in headers
       && |BearerPrefix| <= |headers[AuthorizationHeader]|
       && headers[AuthorizationHeader][..|BearerPrefix|] == BearerPrefix
    then Some(headers[AuthorizationHeader][|BearerPrefix|..])
    else None
  }

  /** The request interceptor: with a stored token, the request carries it as
      its bearer credential; without one, the request goes out as it was.
      Nothing but the `Authorization` header ever changes. */
  function Authorize(storage: map<string, string>, config: RequestConfig): (r: RequestConfig)
    ensures StoredToken(storage).Some? ==> BearerCredential(r.headers) == StoredToken(storage)
    ensures StoredToken(storage).None? ==> r == config
    ensures r.verb == config.verb && r.url == config.url && r.body == config.body
    ensures forall h :: h != AuthorizationHeader ==>
      (h in r.headers <==> h in config.headers) && (h in r.headers ==> r.headers[h] == config.headers[h])
  {
    match StoredToken(storage)
    case None => config
    case Some(token) =>
      var value := BearerPrefix + token;
      assert value[|BearerPrefix|..] == token;
      config.(headers := config.headers[AuthorizationHeader := value])
  }

  /** Running the interceptor twice adds nothing the first run did not. */
  lemma AuthorizeIdempotent(storage: map<string, string>, config: RequestConfig)
    ensures Authorize(storage, Authorize(storage, config)) == Authorize(storage, config)
  {
  }

  /** `error.response?.status === 401`. */
  predicate Unauthorized(error: HttpError) {
    error.response.Some? && error.response.value.status == UnauthorizedStatus
  }

  /** The wrappers' catch branch and their success branch: a rejection
      becomes a failure record whose error is the server's body when that is
      truthy, the error's message otherwise; a response becomes a success
      record with its body. */
  function Normalize(outcome: Settled): (r: ApiResponse)
    ensures r.success <==> outcome.Resolved?
    ensures outcome.Resolved? ==> r.data == outcome.response.data && r.error == Undefined
    ensures outcome.Rejected? ==> r.data == Undefined
    ensures outcome.Rejected? && outcome.reason.response.Some? && Truthy(outcome.reason.response.value.data) ==>
      r.error == outcome.reason.response.value.data
    ensures outcome.Rejected? && !(outcome.reason.response.Some? && Truthy(outcome.reason.response.value.data)) ==>
      r.error == Str(outcome.reason.message)
  {
    match outcome
    case Resolved(response) => ApiResponse(true, response.data, Undefined)
    case Rejected(error) =>
      var data := if error.response.Some? then error.response.value.data else Undefined;
      ApiResponse(false, Undefined, Or(data, Str(error.message)))
  }

  /** A failure record always says why, unless the server sent a falsy body
      and the message is empty. */
  lemma FailureHasReason(error: HttpError)
    requires error.message != ""
    ensures !Normalize(Rejected(error)).success && Truthy(Normalize(Rejected(error)).error)
  {
  }

  /** The part of the browser the client touches. */
  class Browser {
    var storage: map<string, string>
    var location: string

    constructor (storage: map<string, string>, location: string)
      ensures this.storage == storage && this.location == location
    {
      this.storage := storage;
      this.location := location;
    }

    /** The request interceptor, reading the token from local storage. */
    method InterceptRequest(config: RequestConfig) returns (r: RequestConfig)
      ensures r == Authorize(storage, config)
    {
      r := config;
      if TokenKey in storage && storage[TokenKey] != "" {
        r := config.(headers := config.headers[AuthorizationHeader := BearerPrefix + storage[TokenKey]]);
      }
    }

    /** The response interceptor's success branch. */
    method InterceptResponse(response: HttpResponse) returns (r: Settled)
      ensures r == Resolved(response)
    {
      r := Resolved(response);
    }

    /** The response interceptor's error branch: a 401 removes the token and
        sends the page to the login screen; every error is rejected again,
        unchanged, so nothing is refreshed or replayed. */
    method InterceptError(error: HttpError) returns (r: Settled)
      modifies this
      ensures r == Rejected(error)
      ensures Unauthorized(error) ==> storage == old(storage) - {TokenKey} && location == LoginPath
      ensures !Unauthorized(error) ==> storage == old(storage) && location == old(location)
    {
      if error.response.Some? && error.response.value.status == UnauthorizedStatus {
        storage := storage - {TokenKey};
        location := LoginPath;
      }
      r := Rejected(error);
    }

    /** `api.get/post/put/patch/delete`: the request passes the interceptor,
        goes to `transport`, its outcome passes the response interceptor and
        is turned into a result record. */
    method Request(config: RequestConfig, transport: RequestConfig -> Settled) returns (result: ApiResponse)
      modifies this
      ensures var outcome := transport(Authorize(old(storage), config));
        && result == Normalize(outcome)
        && (outcome.Rejected? && Unauthorized(outcome.reason) ==>
              storage == old(storage) - {TokenKey} && location == LoginPath)
        && (!(outcome.Rejected? && Unauthorized(outcome.reason)) ==>
              storage == old(storage) && location == old(location))
    {
      var sent := InterceptRequest(config);
      var outcome := transport(sent);
      var settled: Settled;
      match outcome {
        case Resolved(response) =>
          settled := InterceptResponse(response);
        case Rejected(error) =>
          settled := InterceptError(error);
      }
      result := Normalize(settled);
    }
  }

  /** After a 401 has cleared the token, the next request goes out without
      a credential from storage. */
  lemma NoCredentialAfterTeardown(storage: map<string, string>, config: RequestConfig)
    ensures Authorize(storage - {TokenKey}, config) == config
  {
  }
}
