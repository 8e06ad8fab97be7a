/** The request-description part of `Send` (gozzle.go): the method is
    upper-cased, the body is the JSON encoding of `Body` when there is one,
    and the header map is built by a fixed sequence of `Header.Set` calls
    followed by the caller's own headers, which are written last. */
module Request {
  import opened Wrappers
  import opened Types

  /** An HTTP header as `Header.Set` leaves it: one value per key. */
  type Header = map<string, string>

  /** The request `http.NewRequest` builds, plus the headers set on it. */
  datatype Request = Request(
    httpMethod: string,
    url: string,
    body: Option<seq<byte>>,
    header: Header)

  const ContentTypeKey: string := "Content-Type"
  const AuthorizationKey: string := "Authorization"
  const AcceptKey: string := "Accept"
  const UserAgentKey: string := "User-Agent"

  /** `unicode.ToUpper` restricted to ASCII letters. */
  function UpperChar(ch: char): char
  {
    if 'a' <= ch <= 'z' then (ch as int - 32) as char else ch
  }

  predicate IsLowerAscii(ch: char)
  {
    'a' <= ch <= 'z'
  }

  /** `strings.ToUpper` on ASCII text: same length, every character mapped
      by `UpperChar`, and no lower-case ASCII letter is left. */
  function ToUpper(s: string): (r: string)
    ensures |r| == |s|
    ensures forall k :: 0 <= k < |s| ==> r[k] == UpperChar(s[k])
    ensures forall k :: 0 <= k < |r| ==> !IsLowerAscii(r[k])
  {
    if |s| == 0 then [] else [UpperChar(s[0])] + ToUpper(s[1..])
  }

  /** Upper-casing is idempotent. */
  lemma ToUpperIdempotent(s: string)
    ensures ToUpper(ToUpper(s)) == ToUpper(s)
  {
  }

  /** `Header.Set`: the key is canonicalised and any previous value for it
      is replaced. */
  function Set(lib: Lib, h: Header, key: string, value: string): Header
  {
    h[lib.canonicalKey(key) := value]
  }

  /** `order` lists the keys of `m`, each exactly once: the order in which
      Go's `range` happens to visit the map. */
  predicate Enumerates(order: seq<string>, m: map<string, string>)
  {
    && (forall k :: 0 <= k < |order| ==> order[k] in m)
    && (forall key :: key in m ==> key in order)
    && (forall i, j :: 0 <= i < j < |order| ==> order[i] != order[j])
  }

  /** No key after position `i` canonicalises to the same header as
      `order[i]`: the write at `i` is the one that stays. */
  predicate LastWriter(lib: Lib, order: seq<string>, i: int)
    requires 0 <= i < |order|
  {
    forall j :: i < j < |order| ==> lib.canonicalKey(order[j]) != lib.canonicalKey(order[i])
  }

  /** The canonical header names the keys of `order` write. */
  function Written(lib: Lib, order: seq<string>): set<string>
  {
    set k | 0 <= k < |order| :: lib.canonicalKey(order[k])
  }

  /** The loop at lines 91-95: `Set(k, src[k])` for every key in visiting
      order. */
  function SetAll(lib: Lib, h: Header, src: map<string, string>, order: seq<string>): Header
    requires forall k :: 0 <= k < |order| ==> order[k] in src
    decreases |order|
  {
    if |order| == 0 then h
    else
      var last := order[|order| - 1];
      Set(lib, SetAll(lib, h, src, order[..|order| - 1]), last, src[last])
  }

  /** What the loop leaves: exactly the old keys plus the written ones; a
      written header holds the value of its last writer; an unwritten one
      keeps its old value. */
  lemma {:induction false} SetAllSpec(lib: Lib, h: Header, src: map<string, string>, order: seq<string>)
    requires forall k :: 0 <= k < |order| ==> order[k] in src
    ensures SetAll(lib, h, src, order).Keys == h.Keys + Written(lib, order)
    ensures forall i :: 0 <= i < |order| && LastWriter(lib, order, i) ==>
              SetAll(lib, h, src, order)[lib.canonicalKey(order[i])] == src[order[i]]
    ensures forall x :: x in h && x !in Written(lib, order) ==> SetAll(lib, h, src, order)[x] == h[x]
    decreases |order|
  {
    if |order| > 0 {
      var front := order[..|order| - 1];
      var last := order[|order| - 1];
      assert forall k :: 0 <= k < |front| ==> front[k] == order[k];
      SetAllSpec(lib, h, src, front);
      WrittenSnoc(lib, order);
      var r := SetAll(lib, h, src, order);
      forall i | 0 <= i < |order| && LastWriter(lib, order, i)
        ensures r[lib.canonicalKey(order[i])] == src[order[i]]
      {
        if i < |front| {
          assert LastWriter(lib, front, i);
        }
      }
    }
  }

  /** The names written by a non-empty order: those of all but the last key,
      and the last key's. */
  lemma WrittenSnoc(lib: Lib, order: seq<string>)
    requires |order| > 0
    ensures Written(lib, order)
            == Written(lib, order[..|order| - 1]) + {lib.canonicalKey(order[|order| - 1])}
  {
  }

  /** Lines 74-88: the headers the source sets itself, in its order. */
  function BaseHeaders(lib: Lib, c: Config): Header
  {
    var h: Header := map[];
    var h := if c.body.Some? then Set(lib, h, ContentTypeKey, c.contentType) else h;
    var h := if c.basicAuth.Some?
             then Set(lib, h, AuthorizationKey,
                      lib.basicAuthValue(Lookup(c.basicAuth.value, "username"),
                                         Lookup(c.basicAuth.value, "password")))
             else h;
    var h := if !lib.isStringEmpty(c.bearerToken)
             then Set(lib, h, AuthorizationKey, "Bearer " + c.bearerToken)
             else h;
    var h := Set(lib, h, AcceptKey, c.accepts);
    Set(lib, h, UserAgentKey, c.userAgent)
  }

  /** Lines 74-95: the base headers, then the caller's written over them. */
  function Headers(lib: Lib, c: Config, order: seq<string>): Header
    requires c.headers.Some? ==> Enumerates(order, c.headers.value)
  {
    var h := BaseHeaders(lib, c);
    if c.headers.Some? then SetAll(lib, h, c.headers.value, order) else h
  }

  /** Go's map index: the zero value for a missing key. */
  function Lookup(m: map<string, string>, key: string): string
  {
    if key in m then m[key] else ""
  }

  /** The method the request records for a configured method: upper-cased,
      and "GET" in place of "" (`http.NewRequest` treats an empty method
      as GET). */
  function SentMethod(m: string): string
  {
    var upper := ToUpper(m);
    if upper == "" then MethodGet else upper
  }

  /** Lines 58-95 once validation has passed: encode the body, construct
      the request with the upper-cased method (an empty one becomes "GET"),
      then set the headers. The request carries a body exactly when the
      config has one. */
  function BuildRequest(lib: Lib, c: Config, order: seq<string>): (r: Result<Request, Error>)
    requires c.headers.Some? ==> Enumerates(order, c.headers.value)
    ensures r == Failure(Serialization) <==> c.body.Some? && lib.marshal(c.body.value).None?
    ensures r == Failure(RequestConstruction) <==>
              !(c.body.Some? && lib.marshal(c.body.value).None?)
              && lib.requestFails(ToUpper(c.httpMethod), c.url)
    ensures r.Failure? ==> r.error == Serialization || r.error == RequestConstruction
    ensures r.Success? ==>
              && (c.httpMethod == "" ==> r.value.httpMethod == MethodGet)
              && (c.httpMethod != "" ==> r.value.httpMethod == ToUpper(c.httpMethod))
              && r.value.url == c.url
              && (r.value.body.Some? <==> c.body.Some?)
              && (c.body.Some? ==> Some(r.value.body.value) == lib.marshal(c.body.value))
              && r.value.header == Headers(lib, c, order)
  {
    var body :- EncodeBody(lib, c);
    var m := ToUpper(c.httpMethod);
    if lib.requestFails(m, c.url) then Failure(RequestConstruction)
    else Success(Request(SentMethod(c.httpMethod), c.url, body, Headers(lib, c, order)))
  }

  /** Lines 60-67: no body when `Body` is nil, otherwise its encoding or a
      serialisation error. */
  function EncodeBody(lib: Lib, c: Config): (r: Result<Option<seq<byte>>, Error>)
  {
    if c.body.None? then Success(None)
    else match lib.marshal(c.body.value)
      case None => Failure(Serialization)
      case Some(bytes) => Success(Some(bytes))
  }

  /** Go's canonicalisation leaves the four names the source sets itself
      unchanged (they are already in canonical form). */
  predicate FixesStandardNames(lib: Lib)
  {
    && lib.canonicalKey(ContentTypeKey) == ContentTypeKey
    && lib.canonicalKey(AuthorizationKey) == AuthorizationKey
    && lib.canonicalKey(AcceptKey) == AcceptKey
    && lib.canonicalKey(UserAgentKey) == UserAgentKey
  }

  /** The header names the caller's own headers write. */
  function CallerNames(lib: Lib, c: Config): set<string>
  {
    if c.headers.None? then {}
    else set key | key in c.headers.value :: lib.canonicalKey(key)
  }

  /** The header names the source sets before the caller's headers. */
  function StandardNames(lib: Lib, c: Config): set<string>
  {
    {AcceptKey, UserAgentKey}
    + (if c.body.Some? then {ContentTypeKey} else {})
    + (if c.basicAuth.Some? || !lib.isStringEmpty(c.bearerToken) then {AuthorizationKey} else {})
  }

  /** No other caller key canonicalises to the same header as `key`. */
  predicate UniqueName(lib: Lib, m: map<string, string>, key: string)
  {
    forall other :: other in m && lib.canonicalKey(other) == lib.canonicalKey(key) ==> other == key
  }

  /** Every name `order` writes has a last writer. */
  lemma {:induction false} LastWriterOf(lib: Lib, order: seq<string>, x: string) returns (i: nat)
    requires x in Written(lib, order)
    ensures i < |order| && lib.canonicalKey(order[i]) == x && LastWriter(lib, order, i)
    decreases |order|
  {
    var front := order[..|order| - 1];
    if lib.canonicalKey(order[|order| - 1]) == x {
      i := |order| - 1;
    } else {
      var k :| 0 <= k < |order| && lib.canonicalKey(order[k]) == x;
      assert front[k] == order[k];
      i := LastWriterOf(lib, front, x);
      assert order[i] == front[i];
    }
  }

  /** With a visiting order that enumerates the caller's map, the names
      written are exactly the canonical forms of its keys. */
  lemma WrittenIsCallerNames(lib: Lib, c: Config, order: seq<string>)
    requires c.headers.Some? && Enumerates(order, c.headers.value)
    ensures Written(lib, order) == CallerNames(lib, c)
  {
  }

  /** Caller headers are written last and override everything before them:
      a caller key whose canonical name no other caller key shares ends up
      with the caller's value, whatever the visiting order; a name several
      caller keys share holds the value of one of them. */
  lemma {:induction false} CallerHeadersWin(lib: Lib, c: Config, order: seq<string>)
    requires c.headers.Some? && Enumerates(order, c.headers.value)
    ensures forall key :: key in c.headers.value && UniqueName(lib, c.headers.value, key) ==>
              && lib.canonicalKey(key) in Headers(lib, c, order)
              && Headers(lib, c, order)[lib.canonicalKey(key)] == c.headers.value[key]
    ensures forall x :: x in CallerNames(lib, c) ==>
              exists key :: key in c.headers.value && lib.canonicalKey(key) == x
                            && x in Headers(lib, c, order)
                            && Headers(lib, c, order)[x] == c.headers.value[key]
  {
    var m := c.headers.value;
    var h := Headers(lib, c, order);
    WrittenIsCallerNames(lib, c, order);
    SetAllSpec(lib, BaseHeaders(lib, c), m, order);
    forall key | key in m && UniqueName(lib, m, key)
      ensures lib.canonicalKey(key) in h && h[lib.canonicalKey(key)] == m[key]
    {
      var i :| 0 <= i < |order| && order[i] == key;
      assert LastWriter(lib, order, i);
    }
    forall x | x in CallerNames(lib, c)
      ensures exists key :: key in m && lib.canonicalKey(key) == x && x in h && h[x] == m[key]
    {
      var i := LastWriterOf(lib, order, x);
      assert h[x] == m[order[i]];
    }
  }

  /** The request carries exactly the standard headers and the caller's. */
  lemma HeaderNames(lib: Lib, c: Config, order: seq<string>)
    requires FixesStandardNames(lib)
    requires c.headers.Some? ==> Enumerates(order, c.headers.value)
    ensures Headers(lib, c, order).Keys == StandardNames(lib, c) + CallerNames(lib, c)
  {
    BaseHeaderValues(lib, c);
    if c.headers.Some? {
      WrittenIsCallerNames(lib, c, order);
      SetAllSpec(lib, BaseHeaders(lib, c), c.headers.value, order);
    }
  }

  /** The values the source sets itself: `Accept` and `User-Agent` always,
      `Content-Type` exactly when there is a body, and `Authorization` from
      the bearer token when it is non-empty, else from basic auth when
      present, else not at all. */
  lemma BaseHeaderValues(lib: Lib, c: Config)
    requires FixesStandardNames(lib)
    ensures BaseHeaders(lib, c).Keys == StandardNames(lib, c)
    ensures BaseHeaders(lib, c)[AcceptKey] == c.accepts
    ensures BaseHeaders(lib, c)[UserAgentKey] == c.userAgent
    ensures ContentTypeKey in BaseHeaders(lib, c) <==> c.body.Some?
    ensures c.body.Some? ==> BaseHeaders(lib, c)[ContentTypeKey] == c.contentType
    ensures if !lib.isStringEmpty(c.bearerToken) then
              BaseHeaders(lib, c)[AuthorizationKey] == "Bearer " + c.bearerToken
            else if c.basicAuth.Some? then
              BaseHeaders(lib, c)[AuthorizationKey]
                == lib.basicAuthValue(Lookup(c.basicAuth.value, "username"),
                                      Lookup(c.basicAuth.value, "password"))
            else
              AuthorizationKey !in BaseHeaders(lib, c)
  {
  }

  /** A name the caller does not write keeps the value the source set. */
  lemma {:induction false} BaseHeadersKept(lib: Lib, c: Config, order: seq<string>)
    requires c.headers.Some? ==> Enumerates(order, c.headers.value)
    ensures forall x :: x in BaseHeaders(lib, c) && x !in CallerNames(lib, c) ==>
              x in Headers(lib, c, order) && Headers(lib, c, order)[x] == BaseHeaders(lib, c)[x]
  {
    if c.headers.Some? {
      WrittenIsCallerNames(lib, c, order);
      SetAllSpec(lib, BaseHeaders(lib, c), c.headers.value, order);
    }
  }
}
