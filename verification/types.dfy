/** The declarations at the head of gozzle.go: the default constants, the
    request configuration, the response record, and the error kinds the
    package can return. Library behaviour the package relies on but does not
    define (string emptiness, JSON encoding, request construction, header-key
    canonicalisation, basic-auth encoding, status phrases) is gathered in `Lib`
    as uninterpreted function values. */
module Types {
  import opened Wrappers

  const DefaultUserAgent: string := "gozzle-client-v1.0"
  const DefaultContentType: string := "application/json; charset=utf-8"
  const DefaultTimeout: int := 5
  const DefaultMaxRedirects: int := 5

  /** Literals written by validation. */
  const AcceptsJSON: string := "application/json"
  const MultipartType: string := "multipart/form-data"
  /** As spelled in the source; it differs from the registered media type
      `application/x-www-form-urlencoded`. */
  const URLEncodedType: string := "application/x-www-form-url-encoded"

  /** `http.MethodGet`. */
  const MethodGet: string := "GET"

  newtype byte = b: int | 0 <= b < 256

  /** A value the caller may place in `Body` (Go's `interface{}`), restricted
      to what JSON encoding can see. Numbers keep their textual form. */
  datatype Json =
    | Null
    | Bool(b: bool)
    | Number(text: string)
    | Str(s: string)
    | Array(items: seq<Json>)
    | Object(fields: map<string, Json>)

  /** The request configuration. `None` is a nil map. The fields `Params`,
      `StructScan`, `Retries` and `RetrySleep` are never read or written by
      the package and are omitted. */
  datatype Config = Config(
    url: string,
    httpMethod: string,
    baseURL: string,
    basicAuth: Option<map<string, string>>,
    bearerToken: string,
    headers: Option<map<string, string>>,
    timeout: int,
    body: Option<map<string, Json>>,
    userAgent: string,
    acceptJSON: bool,
    accepts: string,
    asMultipart: bool,
    asURLEncoded: bool,
    contentType: string,
    maxRedirects: int)

  /** The error kinds `Send` can return. Go returns plain `error` values; the
      kinds name where each one arises. */
  datatype Error =
    | ConflictingAuth      // bearer token together with basic auth
    | BodyNotAllowed       // body together with the literal method "GET"
    | Serialization        // json.Marshal failed
    | RequestConstruction  // http.NewRequest rejected method or URL
    | TooManyRedirects     // the redirect check refused a hop
    | Transport            // client.Do failed for any other reason
    | BodyRead             // io.ReadAll on the response body failed

  /** Behaviour of code outside the package, kept uninterpreted.
      - isStringEmpty: the package's `IsStringEmpty`, whose definition is not
        part of this model;
      - marshal: `json.Marshal` of the body, `None` when encoding fails;
      - requestFails: whether `http.NewRequest(method, url, body)` errors;
      - canonicalKey: `textproto.CanonicalMIMEHeaderKey`, applied by
        `Header.Set`;
      - basicAuthValue: the `Authorization` value `SetBasicAuth(user, pass)`
        writes;
      - statusText: `http.StatusText`. */
  datatype Lib = Lib(
    isStringEmpty: string -> bool,
    marshal: map<string, Json> -> Option<seq<byte>>,
    requestFails: (string, string) -> bool,
    canonicalKey: string -> string,
    basicAuthValue: (string, string) -> string,
    statusText: int -> string)
}
