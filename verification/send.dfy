/** `Send` (gozzle.go) as one pipeline: validate, build the request, hand
    it to the transport with the configured timeout and redirect policy,
    and wrap the reply. The transport (`client.Do` followed by
    `io.ReadAll`) is a parameter: for a request and a timeout in seconds it
    yields either nothing (a network failure) or a `Reply`. */
module Send {
  import opened Wrappers
  import opened Types
  import opened Validation
  import opened Request
  import opened Redirect

  /** What the server side of one exchange amounts to: how many redirects
      it issues before the final response, that response's status, and its
      body bytes, or `None` when reading the body fails. */
  datatype Reply = Reply(redirects: nat, status: int, data: Option<seq<byte>>)

  /** The response record. `headers` is never filled by the source. */
  datatype Response = Response(
    data: seq<byte>,
    status: int,
    statusText: string,
    headers: map<string, string>,
    config: Config,
    request: Request)

  /** The caller's config as `Send` leaves it (validation mutates it in
      place, also when it fails), and the outcome of the call. */
  datatype Sent = Sent(config: Config, result: Result<Response, Error>)

  /** The transport's answer to the request built from `c`, if the request
      could be built and the transport answered at all. */
  function Answer(lib: Lib, c: Config, order: seq<string>,
                  transport: (Request, int) -> Option<Reply>): Option<Reply>
    requires c.headers.Some? ==> Enumerates(order, c.headers.value)
  {
    var built := BuildRequest(lib, c, order);
    if built.Failure? then None else transport(built.value, c.timeout)
  }

  /** The clean path of lines 107-125: the request is built, the transport
      answers, the client follows the whole redirect chain, and the body is
      read. */
  predicate Delivers(lib: Lib, c: Config, order: seq<string>,
                     transport: (Request, int) -> Option<Reply>)
    requires c.headers.Some? ==> Enumerates(order, c.headers.value)
  {
    && BuildRequest(lib, c, order).Success?
    && Answer(lib, c, order, transport).Some?
    && var reply := Answer(lib, c, order, transport).value;
       && (reply.redirects == 0 || reply.redirects <= c.maxRedirects)
       && reply.data.Some?
  }

  /** Lines 53-126. The caller's config always comes back validated, also
      when validation fails. A validation error is returned as it is. The
      call succeeds exactly when validation passes and the validated config
      is delivered; any other outcome after validation is that of
      `Dispatch`, whose contract fixes each error and the response. The
      response echoes the validated config and a
      request with the upper-cased method ("GET" for an empty one) and the
      assembled headers. */
  function Send(lib: Lib, c: Config, order: seq<string>,
                transport: (Request, int) -> Option<Reply>): (s: Sent)
    requires c.headers.Some? ==> Enumerates(order, c.headers.value)
    ensures s.config == Validate(lib, c).config
    ensures Validate(lib, c).error.Some? ==> s.result == Failure(Validate(lib, c).error.value)
    ensures Validate(lib, c).error.None? ==> s.result == Dispatch(lib, s.config, order, transport)
    ensures s.result.Success? <==>
              Validate(lib, c).error.None? && Delivers(lib, s.config, order, transport)
    ensures s.result.Success? ==>
              && s.result.value.config == s.config
              && s.result.value.request.url == c.url
              && (c.httpMethod == "" ==> s.result.value.request.httpMethod == MethodGet)
              && (c.httpMethod != "" ==> s.result.value.request.httpMethod == ToUpper(c.httpMethod))
              && s.result.value.request.header == Headers(lib, s.config, order)
  {
    var v := Validate(lib, c);
    if v.error.Some? then Sent(v.config, Failure(v.error.value))
    else Sent(v.config, Dispatch(lib, v.config, order, transport))
  }

  /** Lines 58-125, after validation has passed. A request-building error is
      returned as it is. The transport error arises exactly when the built
      request gets no answer; the redirect error exactly when the chain has
      more than zero and more than `maxRedirects` hops; the read error
      exactly when the chain is followed but the body cannot be read. The
      call succeeds exactly otherwise, and the response echoes the config
      and the request, carries the reply's status, its phrase and the bytes
      read, and has no headers. */
  function Dispatch(lib: Lib, c: Config, order: seq<string>,
                    transport: (Request, int) -> Option<Reply>): (r: Result<Response, Error>)
    requires c.headers.Some? ==> Enumerates(order, c.headers.value)
    ensures BuildRequest(lib, c, order).Failure? ==>
              r == Failure(BuildRequest(lib, c, order).error)
    ensures r == Failure(Transport) <==>
              BuildRequest(lib, c, order).Success? && Answer(lib, c, order, transport).None?
    ensures r == Failure(TooManyRedirects) <==>
              && Answer(lib, c, order, transport).Some?
              && var hops := Answer(lib, c, order, transport).value.redirects;
                 hops > 0 && hops > c.maxRedirects
    ensures r == Failure(BodyRead) <==>
              && Answer(lib, c, order, transport).Some?
              && var reply := Answer(lib, c, order, transport).value;
                 && (reply.redirects == 0 || reply.redirects <= c.maxRedirects)
                 && reply.data.None?
    ensures r.Success? <==> Delivers(lib, c, order, transport)
    ensures r.Success? ==>
              && BuildRequest(lib, c, order) == Success(r.value.request)
              && r.value.config == c
              && r.value.headers == map[]
              && r.value.statusText == lib.statusText(r.value.status)
              && var reply := transport(r.value.request, c.timeout);
                 && reply.Some?
                 && reply.value.status == r.value.status
                 && reply.value.data == Some(r.value.data)
  {
    var request :- BuildRequest(lib, c, order);
    match transport(request, c.timeout)
    case None => Failure(Transport)
    case Some(reply) =>
      FollowsChainIff(reply.redirects, c.maxRedirects);
      if !FollowsChain(reply.redirects, c.maxRedirects) then Failure(TooManyRedirects)
      else match reply.data
        case None => Failure(BodyRead)
        case Some(data) =>
          Success(Response(data, reply.status, lib.statusText(reply.status), map[], c, request))
  }

  /** A config with only a URL and a method set. */
  function Minimal(url: string, httpMethod: string): Config
  {
    Config(url, httpMethod, "", None, "", None, 0, None, "", false, "", false, false, "", 0)
  }

  /** A lower-case "get" with nothing else set is sent as "GET" with no
      body and exactly the `Accept: application/json` and default
      `User-Agent` headers. */
  lemma GetScenario(lib: Lib, url: string)
    requires RecognisesDefaults(lib) && FixesStandardNames(lib)
    requires !lib.requestFails(MethodGet, url)
    ensures Validate(lib, Minimal(url, "get")).error.None?
    ensures BuildRequest(lib, Validate(lib, Minimal(url, "get")).config, [])
            == Success(Request(MethodGet, url, None,
                               map[AcceptKey := AcceptsJSON, UserAgentKey := DefaultUserAgent]))
  {
    var c := Validate(lib, Minimal(url, "get")).config;
    assert ToUpper("get") == MethodGet;
    BaseHeaderValues(lib, c);
    HeaderNames(lib, c, []);
  }

  /** Because the "GET" test is case-sensitive but the method is upper-cased
      afterwards, "get" with a body is sent as "GET" with that body. */
  lemma GetWithBodyIsSent(lib: Lib, c: Config, order: seq<string>)
    requires c.httpMethod == "get" && c.body.Some?
    requires !AuthConflict(lib, c)
    requires lib.marshal(c.body.value).Some?
    requires !lib.requestFails(MethodGet, c.url)
    requires c.headers.Some? ==> Enumerates(order, c.headers.value)
    ensures Validate(lib, c).error.None?
    ensures BuildRequest(lib, Validate(lib, c).config, order).Success?
    ensures BuildRequest(lib, Validate(lib, c).config, order).value.httpMethod == MethodGet
    ensures BuildRequest(lib, Validate(lib, c).config, order).value.body == lib.marshal(c.body.value)
  {
    assert ToUpper("get") == MethodGet;
  }

  /** A config that never sets the method (the zero value "") passes the
      "GET" check even with a body, and is sent as "GET" with that body. */
  lemma EmptyMethodWithBodyIsSent(lib: Lib, c: Config, order: seq<string>)
    requires c.httpMethod == "" && c.body.Some?
    requires !AuthConflict(lib, c)
    requires lib.marshal(c.body.value).Some?
    requires !lib.requestFails("", c.url)
    requires c.headers.Some? ==> Enumerates(order, c.headers.value)
    ensures Validate(lib, c).error.None?
    ensures BuildRequest(lib, Validate(lib, c).config, order).Success?
    ensures BuildRequest(lib, Validate(lib, c).config, order).value.httpMethod == MethodGet
    ensures BuildRequest(lib, Validate(lib, c).config, order).value.body == lib.marshal(c.body.value)
  {
  }

  /** A caller's `Accept` header replaces the `application/json` the source
      sets. */
  lemma CallerAcceptOverrides(lib: Lib, c: Config, value: string)
    requires FixesStandardNames(lib)
    requires c.headers == Some(map[AcceptKey := value])
    ensures Headers(lib, Validate(lib, c).config, [AcceptKey])[AcceptKey] == value
  {
  }

  /** A validated "get" that the server answers with 404 after no redirect
      yields a response with that status, its phrase and the server bytes. */
  lemma NotFoundScenario(lib: Lib, url: string, bytes: seq<byte>,
                         transport: (Request, int) -> Option<Reply>)
    requires RecognisesDefaults(lib) && FixesStandardNames(lib)
    requires !lib.requestFails(MethodGet, url)
    requires forall r: Request :: transport(r, DefaultTimeout) == Some(Reply(0, 404, Some(bytes)))
    ensures Send(lib, Minimal(url, "get"), [], transport).result.Success?
    ensures Send(lib, Minimal(url, "get"), [], transport).result.value.status == 404
    ensures Send(lib, Minimal(url, "get"), [], transport).result.value.statusText == lib.statusText(404)
    ensures Send(lib, Minimal(url, "get"), [], transport).result.value.data == bytes
  {
    GetScenario(lib, url);
  }

  /** With the redirect cap left at 0 (so defaulted to 5), a chain of up to
      five redirects ends in the final response and a longer one fails the
      whole call with the redirect error. */
  lemma DefaultRedirectCap(lib: Lib, url: string, hops: nat, bytes: seq<byte>,
                           transport: (Request, int) -> Option<Reply>)
    requires RecognisesDefaults(lib) && FixesStandardNames(lib)
    requires !lib.requestFails(MethodGet, url)
    requires forall r: Request :: transport(r, DefaultTimeout) == Some(Reply(hops, 200, Some(bytes)))
    ensures Send(lib, Minimal(url, "get"), [], transport).result.Success? <==> hops <= 5
    ensures hops > 5 <==>
              Send(lib, Minimal(url, "get"), [], transport).result == Failure(TooManyRedirects)
  {
    GetScenario(lib, url);
  }
}
