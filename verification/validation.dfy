/** `Config.validate` (gozzle.go): fills in defaults, rejects conflicting
    authentication and a body sent with "GET", derives `Accepts` and
    `ContentType`, and trims `BaseURL`. Go mutates the config in place and
    returns early on an error, so the model returns the config as it stands
    at the point of return together with the optional error. */
module Validation {
  import opened Wrappers
  import opened Types
  import opened Strings

  /** The config after `validate`, and the error it returned, if any. */
  datatype Validated = Validated(config: Config, error: Option<Error>)

  /** What validation assumes of `IsStringEmpty`: the empty string is empty
      and none of the literals validation writes is. */
  predicate RecognisesDefaults(lib: Lib)
  {
    && lib.isStringEmpty("")
    && !lib.isStringEmpty(DefaultUserAgent)
    && !lib.isStringEmpty(DefaultContentType)
    && !lib.isStringEmpty(MultipartType)
    && !lib.isStringEmpty(URLEncodedType)
  }

  /** The final content type stated as a priority list, independently of the
      chain of overwrites `validate` performs: URL-encoded first, then
      multipart, then the default for any non-empty value; an empty value
      stays. A caller's non-empty value is never kept. */
  function ContentTypeByPriority(lib: Lib, c: Config): string
  {
    if c.asURLEncoded then URLEncodedType
    else if c.asMultipart then MultipartType
    else if !lib.isStringEmpty(c.contentType) then DefaultContentType
    else c.contentType
  }

  /** The two conditions `validate` rejects, in the order it tests them. */
  predicate AuthConflict(lib: Lib, c: Config)
  {
    !lib.isStringEmpty(c.bearerToken) && c.basicAuth.Some?
  }

  predicate BodyWithGet(c: Config)
  {
    c.body.Some? && c.httpMethod == MethodGet
  }

  function Validate(lib: Lib, c: Config): (v: Validated)
    // defaults, filled in before either check, so on both outcomes
    ensures v.config.acceptJSON
    ensures v.config.userAgent
              == (if lib.isStringEmpty(c.userAgent) then DefaultUserAgent else c.userAgent)
    ensures c.timeout == 0 ==> v.config.timeout == DefaultTimeout
    ensures c.timeout != 0 ==> v.config.timeout == c.timeout
    ensures c.maxRedirects == 0 ==> v.config.maxRedirects == DefaultMaxRedirects
    ensures c.maxRedirects != 0 ==> v.config.maxRedirects == c.maxRedirects
    // the error cases: auth conflict first, then body with the literal "GET"
    ensures v.error == Some(ConflictingAuth) <==> AuthConflict(lib, c)
    ensures v.error == Some(BodyNotAllowed) <==> !AuthConflict(lib, c) && BodyWithGet(c)
    ensures v.error.None? <==> !AuthConflict(lib, c) && !BodyWithGet(c)
    // on failure the derived fields are still as the caller supplied them
    ensures v.error.Some? ==>
              && v.config.accepts == c.accepts
              && v.config.contentType == c.contentType
              && v.config.baseURL == c.baseURL
    // on success they are derived
    ensures v.error.None? ==> v.config.accepts == AcceptsJSON
    ensures v.error.None? ==> v.config.contentType == ContentTypeByPriority(lib, c)
    ensures v.error.None? && lib.isStringEmpty(c.baseURL) ==> v.config.baseURL == c.baseURL
    ensures v.error.None? && !lib.isStringEmpty(c.baseURL) ==>
              && NoEdgeSlash(v.config.baseURL)
              && v.config.baseURL == Trim(c.baseURL)
    // no other field changes
    ensures v.config == c.(acceptJSON := v.config.acceptJSON,
                           userAgent := v.config.userAgent,
                           timeout := v.config.timeout,
                           maxRedirects := v.config.maxRedirects,
                           accepts := v.config.accepts,
                           contentType := v.config.contentType,
                           baseURL := v.config.baseURL)
  {
    // lines 129-141: defaults
    var userAgent := if lib.isStringEmpty(c.userAgent) then DefaultUserAgent else c.userAgent;
    var timeout := if c.timeout == 0 then DefaultTimeout else c.timeout;
    var maxRedirects := if c.maxRedirects == 0 then DefaultMaxRedirects else c.maxRedirects;
    var c := c.(acceptJSON := true, userAgent := userAgent,
                timeout := timeout, maxRedirects := maxRedirects);
    // lines 143-149: checks
    if !lib.isStringEmpty(c.bearerToken) && c.basicAuth != None then
      Validated(c, Some(ConflictingAuth))
    else if c.body != None && c.httpMethod == MethodGet then
      Validated(c, Some(BodyNotAllowed))
    else
      // lines 151-169: derived fields, each assignment overwriting the last
      var accepts := if c.acceptJSON then AcceptsJSON else c.accepts;
      var contentType := if !lib.isStringEmpty(c.contentType) then DefaultContentType else c.contentType;
      var contentType := if c.asMultipart then MultipartType else contentType;
      var contentType := if c.asURLEncoded then URLEncodedType else contentType;
      var baseURL := if !lib.isStringEmpty(c.baseURL) then Trim(c.baseURL) else c.baseURL;
      Validated(c.(accepts := accepts, contentType := contentType, baseURL := baseURL), None)
  }

  /** After a successful validation every field the invariant names is
      populated: timeout and redirect cap are non-zero, the user agent and
      the accept value are set, and the two auth forms are not both used. */
  lemma ValidatedInvariant(lib: Lib, c: Config)
    requires RecognisesDefaults(lib)
    requires Validate(lib, c).error.None?
    ensures Validate(lib, c).config.timeout != 0
    ensures Validate(lib, c).config.maxRedirects != 0
    ensures !lib.isStringEmpty(Validate(lib, c).config.userAgent)
    ensures Validate(lib, c).config.accepts == AcceptsJSON
    ensures !AuthConflict(lib, Validate(lib, c).config)
  {
  }

  /** Validation is idempotent: feeding its successful output back in
      returns the same config and no error. This needs `IsStringEmpty` to be
      false on the literals validation writes. */
  lemma ValidateIdempotent(lib: Lib, c: Config)
    requires RecognisesDefaults(lib)
    requires Validate(lib, c).error.None?
    ensures Validate(lib, Validate(lib, c).config) == Validated(Validate(lib, c).config, None)
  {
  }

  /** When both content-type flags are set the URL-encoded literal wins,
      because it is assigned last. */
  lemma URLEncodedWinsOverMultipart(lib: Lib, c: Config)
    requires c.asMultipart && c.asURLEncoded
    requires Validate(lib, c).error.None?
    ensures Validate(lib, c).config.contentType == URLEncodedType
  {
  }

  /** The method comparison is case-sensitive: a body with "get" passes. */
  lemma LowerCaseGetWithBodyPasses(lib: Lib, c: Config)
    requires c.body.Some? && c.httpMethod == "get"
    requires !AuthConflict(lib, c)
    ensures Validate(lib, c).error.None?
  {
  }
}
