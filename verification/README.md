# gozzle-http, modelled in Dafny

A model of the pure logic of the `gozzle` Go package, a small declarative
HTTP client. A caller fills a `Config`; `Send` validates it, builds one
request, runs it through an HTTP client with a timeout and a redirect cap,
and wraps the reply in a `Response`.

The model covers:

- `Config.validate`, which fills in defaults, rejects conflicting
  authentication and a body sent with `GET`, derives `Accepts` and
  `ContentType`, and trims `/` from both ends of `BaseURL`;
- the request-description part of `Send`: the upper-cased method, the
  optional JSON body, and the header map built by a fixed sequence of
  `Header.Set` calls with the caller's headers written last;
- the `CheckRedirect` closure and what it means for a chain of redirects;
- `Send` as a whole, with the transport as a parameter.

Layout, one module per file:

- `wrappers.dfy` (`Wrappers`): `Option` (Go's nil) and `Result`.
- `types.dfy` (`Types`): the constants, `Config`, the error kinds, and `Lib`, a
  record of uninterpreted function values for library behaviour the package
  relies on but does not define.
- `strings.dfy` (`Strings`): `strings.Trim(s, "/")`.
- `validation.dfy` (`Validation`): `Validate` and its properties.
- `request.dfy` (`Request`): method, body and header assembly.
- `redirect.dfy` (`Redirect`): the redirect check.
- `send.dfy` (`Send`): the whole pipeline and end-to-end scenarios.

Go's `validate` mutates the config in place and returns early on an error.
The model's `Validate` returns the config as it stands at that return, along
with the optional error. On the error paths the defaults have already been
filled in, but `Accepts`, `ContentType` and `BaseURL` are untouched.

`IsStringEmpty` is called by the package but defined outside gozzle.go.
It stays uninterpreted (`Lib.isStringEmpty`). The lemmas that need
facts about it say so through `RecognisesDefaults`: the empty string is empty,
and none of the literals validation writes is.

The order in which Go's `range` visits `config.Headers` is unspecified. It is
an explicit parameter `order`: a duplicate-free listing of the keys. When two
caller keys canonicalise to the same header, the last one visited wins.

When both content-type flags are set, the URL-encoded literal wins, because
it is assigned last (gozzle.go:159-165; `URLEncodedWinsOverMultipart`).
The literal is kept exactly as the source spells it,
`application/x-www-form-url-encoded`, although the registered media type is
`application/x-www-form-urlencoded`.

The method handed to `http.NewRequest` is the upper-cased configured method
(gozzle.go:69). That library records an empty method as "GET", so a config
that never sets `Method` is sent as a GET, with a body if it has one, since
the check at gozzle.go:147 compares against the literal "GET".

## Model

| member | source | states |
|---|---|---|
| Validation.Validate | gozzle.go:128-172 | `AcceptJSON` becomes true. `UserAgent` becomes the default only when empty. `Timeout` and `MaxRedirects` go from 0 to 5 and are otherwise kept, so negative values survive. The call fails with the auth conflict exactly when the bearer token is non-empty and basic auth is non-nil. Otherwise it fails with the GET error exactly when there is a body and the method is literally "GET". On failure `Accepts`, `ContentType` and `BaseURL` are as supplied. On success `Accepts` is "application/json", `ContentType` follows the priority URL-encoded, then multipart, then the default for a non-empty value, and a non-empty `BaseURL` is trimmed and has no edge slash. No other field changes. |
| Validation.ValidatedInvariant | gozzle.go:129-153 | After a successful validation, timeout and redirect cap are non-zero, user agent and accept value are set, and the two auth forms are not both in use. |
| Validation.ValidateIdempotent | gozzle.go:128-172 | Validating a successfully validated config returns the same config and no error, given that `IsStringEmpty` is false on the default literals. |
| Validation.URLEncodedWinsOverMultipart | gozzle.go:159-165 | With both flags set, the final content type is the URL-encoded literal. |
| Validation.LowerCaseGetWithBodyPasses | gozzle.go:147-149 | The GET check is case-sensitive: "get" with a body and no auth conflict passes validation. |
| Strings.Trim | gozzle.go:168 | The trimmed `BaseURL` has no slash at either end. It is the slice of the input that starts after the leading slash run, and everything before and after that slice is slashes. |
| Strings.TrimLeft | gozzle.go:168 | The left half of the trim leaves a suffix of its input that does not start with a slash, and everything it removed is slashes. |
| Strings.TrimRight | gozzle.go:168 | The right half of the trim leaves a prefix of its input that does not end with a slash, and everything it removed is slashes. |
| Strings.TrimEmptyIff | gozzle.go:168 | The trim yields "" exactly when the input is all slashes. |
| Strings.TrimFixesClean | gozzle.go:168 | A string without edge slashes is unchanged by the trim. |
| Strings.TrimIdempotent | gozzle.go:168 | Trimming twice is the same as trimming once. |
| Request.ToUpper | gozzle.go:69 | Upper-casing keeps the length of the configured method and maps each ASCII lower-case letter to its upper-case form, so no lower-case ASCII letter remains. |
| Request.ToUpperIdempotent | gozzle.go:69 | Upper-casing an already upper-cased method changes nothing. |
| Request.SetAllSpec | gozzle.go:91-95 | Writing the caller's headers in visiting order adds exactly their canonical names to the existing keys. A name holds the value of its last writer. A name no caller key writes keeps its previous value. |
| Request.LastWriterOf | gozzle.go:91-95 | Every header name the caller's loop writes has a last writer in the visiting order. |
| Request.WrittenIsCallerNames | gozzle.go:91-95 | Visiting every key of the caller's map writes exactly the canonical forms of those keys. |
| Request.CallerHeadersWin | gozzle.go:90-95 | A caller key whose canonical name no other caller key shares ends with the caller's value, overriding every header set before, whatever the visiting order. A name several caller keys share holds one of their values. |
| Request.BaseHeaderValues | gozzle.go:74-88 | Before the caller's headers, the request has exactly `Accept`, `User-Agent`, `Content-Type` when there is a body, and `Authorization` when there is a bearer token or basic auth. `Accept` is `Accepts` and `User-Agent` is `UserAgent`. `Content-Type` is `ContentType`. `Authorization` is "Bearer " plus the token when the token is non-empty, else the basic-auth value. |
| Request.BaseHeadersKept | gozzle.go:90-95 | A header the caller does not write keeps the value set at lines 74-88. |
| Request.HeaderNames | gozzle.go:74-95 | The final header names are the standard ones above plus the canonical names of the caller's keys, and nothing else. |
| Request.BuildRequest | gozzle.go:58-95 | The call fails with a serialisation error exactly when there is a body and encoding it fails. It fails with a construction error exactly when encoding succeeded and the upper-cased method and URL are rejected. Otherwise the request has the upper-cased method, or "GET" when the configured method is empty. It has the URL, carries a body exactly when the config has one (its encoding), and has the assembled headers. |
| Redirect.FollowsChainIff | gozzle.go:99-104 | The client, checking `len(via) > MaxRedirects` before each hop, follows a chain of n redirects exactly when n is 0 or n <= `MaxRedirects`. With a negative cap, no redirect is followed. |
| Send.Dispatch | gozzle.go:58-125 | A request-building error is returned unchanged. The transport error arises exactly when the built request gets no answer. The redirect error arises exactly when the chain has more than zero and more than `MaxRedirects` hops. The read error arises exactly when the chain is followed but the body cannot be read. The call succeeds exactly otherwise. A response echoes the config and the request, carries the reply's status, that status's phrase and the bytes read, and has no headers. |
| Send.Send | gozzle.go:53-126 | The caller's config always comes back validated, also when validation fails. A validation error is returned unchanged. After validation the outcome is that of `Send.Dispatch`, so each later error and the response's status, phrase, data and headers are as stated there. The call succeeds exactly when validation passes, the request is built, the transport answers, the redirect chain is within the cap and the body is read. A response echoes the validated config and a request with the URL, the upper-cased method ("GET" for an empty one) and the assembled headers. |
| Send.GetScenario | gozzle.go:53-95 | A config with only a URL and method "get" validates. It is sent as "GET" with no body and exactly `Accept: application/json` and the default `User-Agent`. |
| Send.GetWithBodyIsSent | gozzle.go:60-76 | "get" with an encodable body and no auth conflict passes validation. It is sent as "GET" carrying the encoded body. |
| Send.EmptyMethodWithBodyIsSent | gozzle.go:147-149 | A config whose method is left empty passes validation even with a body, and is sent as "GET" carrying the encoded body. |
| Send.CallerAcceptOverrides | gozzle.go:87-95 | A caller `Accept` header replaces the "application/json" the source sets. |
| Send.NotFoundScenario | gozzle.go:107-125 | A minimal "get" answered with 404 and no redirect yields a response with status 404, that status's phrase, and the server's bytes. |
| Send.DefaultRedirectCap | gozzle.go:97-110 | With the cap left at 0 (so 5), a chain of at most five redirects succeeds. Six or more fail the call with the redirect error. |

## Left out

- Transport execution (`client.Do`, `io.ReadAll`, `res.Body.Close`, gozzle.go:107-117) is network I/O. It is a function parameter that yields either a failure or a `Reply` (redirect count, status, and body bytes, or a read failure). Go's redirect handling is modelled only as the chain of checks in `Redirect.FollowsChain`.
- The `time.Duration` conversion of `Timeout` (gozzle.go:98) is a library type. The transport receives the integer number of seconds, and overflow of the conversion is not modelled.
- `json.Marshal` (gozzle.go:61) is an uninterpreted function that yields bytes or fails. Body values are a small JSON datatype, and no encoding or decoding round trip is stated.
- `SetBasicAuth` (gozzle.go:79) is an uninterpreted function of username and password. Its base64 encoding is library code.
- `http.StatusText` (gozzle.go:122) is an uninterpreted function of the status code.
- `http.NewRequest` failure (gozzle.go:69-72) is an uninterpreted predicate of method and URL. Of its behaviour only the empty-method-means-GET rule is modelled.
- Header-key canonicalisation is an uninterpreted function. The header lemmas assume only that it leaves `Content-Type`, `Authorization`, `Accept` and `User-Agent` unchanged.
- Go's `http.Header` holds a list of values per key. `Set` always leaves exactly one, so the model keeps one string per key.
- Go's nondeterministic map iteration order is an explicit `order` parameter rather than a choice made inside the model.
- `IsStringEmpty` is defined outside gozzle.go and stays uninterpreted.
- The fields `Params`, `StructScan`, `Retries`, `RetrySleep` are never read or written by the logic and are omitted. `Response.Headers` is kept and is always empty.
- Request.ToUpper: models `strings.ToUpper` on ASCII letters only. Unicode case mapping is not modelled, and it can turn a non-ASCII letter into an ASCII one: Go upper-cases "poſt" to "POST" (U+017F becomes 'S'), while the model builds "POſT".
- Error values are error kinds. The message strings of the three errors the package creates, and the `url.Error` wrapping that `client.Do` adds, are not modelled.
