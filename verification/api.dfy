/**
 * The decisions of the HTTP client (`src/services/api.ts`): how the task-list query is shaped
 * and serialised, which Authorization header a request gets, and what a 401 response does to
 * the stored session. The transport itself is not modelled.
 */
module Api {
  import opened Wrappers
  import opened Types
  import opened Text
  import opened JsNumbers
  import opened QueryText

  // ---------------------------------------------------------------- getTasks parameters

  /** The optional fields of the `params` argument of `getTasks`; `None` is undefined or null. */
  datatype TaskQuery = TaskQuery(status: Option<TaskStatus>, page: Option<JsNumber>, limit: Option<JsNumber>)

  /**
   * The `queryParams` record `getTasks` builds. Its keys are inserted in the order status, page,
   * limit, which is the order `for...in` visits them.
   */
  datatype QueryParams = QueryParams(status: Option<TaskState>, page: Option<int>, limit: Option<int>)

  const MaxLimit: int := 100

  /** The emitted page: `Math.max(1, Math.floor(page))`, kept only when it is a finite number. */
  function PageParam(page: JsNumber): (r: Option<int>)
    ensures page.Finite? ==> r == Some(MaxInt(1, page.value.Floor))
    ensures page.NaN? || page.PosInf? ==> r == None
    ensures page.NegInf? ==> r == Some(1)
    ensures r.Some? ==> r.value >= 1
  {
    var n := Max(Finite(1.0), Floor(page));
    if !IsNaN(n) && IsFinite(n) then Some(n.value.Floor) else None
  }

  /** The emitted limit: `Math.min(100, Math.max(1, Math.floor(limit)))`, kept only when finite. */
  function LimitParam(limit: JsNumber): (r: Option<int>)
    ensures limit.Finite? ==> r == Some(MinInt(MaxLimit, MaxInt(1, limit.value.Floor)))
    ensures limit.NaN? ==> r == None
    ensures limit.PosInf? ==> r == Some(MaxLimit)
    ensures limit.NegInf? ==> r == Some(1)
    ensures r.Some? ==> 1 <= r.value <= MaxLimit
  {
    var n := Min(Finite(MaxLimit as real), Max(Finite(1.0), Floor(limit)));
    if !IsNaN(n) && IsFinite(n) then Some(n.value.Floor) else None
  }

  /** `getTasks`' parameter shaping: `all` and absent statuses are dropped, numbers are coerced. */
  function ShapeQuery(params: Option<TaskQuery>): (q: QueryParams)
    ensures params.None? ==> q == QueryParams(None, None, None)
    ensures q.status.Some? <==> params.Some? && params.value.status in {Some(Pending), Some(Completed)}
    ensures q.status.Some? ==> Some(q.status.value) == params.value.status
    ensures q.page.Some? <==> params.Some? && params.value.page.Some?
                              && (params.value.page.value.Finite? || params.value.page.value.NegInf?)
    ensures q.page.Some? ==> q.page.value >= 1 && q.page == PageParam(params.value.page.value)
    ensures q.limit.Some? <==> params.Some? && params.value.limit.Some? && !params.value.limit.value.NaN?
    ensures q.limit.Some? ==> 1 <= q.limit.value <= MaxLimit && q.limit == LimitParam(params.value.limit.value)
  {
    match params
    case None => QueryParams(None, None, None)
    case Some(p) =>
      var status: Option<TaskState> :=
        if p.status.Some? && p.status.value != All then Some(p.status.value) else None;
      var page := if p.page.Some? then PageParam(p.page.value) else None;
      var limit := if p.limit.Some? then LimitParam(p.limit.value) else None;
      QueryParams(status, page, limit)
  }

  // ---------------------------------------------------------------- paramsSerializer

  datatype ParamValue = Text(text: string) | Number(number: int)

  /** The record's present entries, in insertion order. */
  function Entries(q: QueryParams): seq<(string, ParamValue)> {
    (if q.status.Some? then [("status", Text(StatusName(q.status.value)))] else [])
    + (if q.page.Some? then [("page", Number(q.page.value))] else [])
    + (if q.limit.Some? then [("limit", Number(q.limit.value))] else [])
  }

  /** A value as the template literal prints it. */
  function ValueText(v: ParamValue): string {
    match v
    case Text(t) => t
    case Number(n) => IntToString(n)
  }

  /** The characters `encodeURIComponent` leaves as they are. */
  predicate Unreserved(c: char) {
    || ('A' <= c <= 'Z') || ('a' <= c <= 'z') || ('0' <= c <= '9')
    || c == '-' || c == '_' || c == '.' || c == '!' || c == '~' || c == '*' || c == '\'' || c == '(' || c == ')'
  }

  predicate AllUnreserved(s: string) {
    forall i | 0 <= i < |s| :: Unreserved(s[i])
  }

  /** Every character of the text survives `encodeURIComponent` unchanged. */
  predicate PlainEntry(e: (string, ParamValue)) {
    AllUnreserved(e.0) && AllUnreserved(ValueText(e.1))
  }

  /** Every key and value the serializer meets is left unchanged by `encodeURIComponent`. */
  lemma EntriesNeedNoEncoding(q: QueryParams)
    ensures forall k | 0 <= k < |Entries(q)| :: PlainEntry(Entries(q)[k])
  {
  }

  /** One `key=value` part. */
  function Part(e: (string, ParamValue)): string {
    e.0 + "=" + ValueText(e.1)
  }

  /** What a server reads out of a query string: `&`-separated parts, each cut at its first `=`. */
  function ParseQueryString(s: string): seq<(string, string)> {
    if s == "" then []
    else
      var parts := Split(s, '&');
      seq(|parts|, k requires 0 <= k < |parts| => ParsePart(parts[k]))
  }

  function ParsePart(p: string): (string, string) {
    var pieces := Split(p, '=');
    (pieces[0], Join(pieces[1..], '='))
  }

  /** The entries with their values printed. */
  function TextEntries(q: QueryParams): seq<(string, string)> {
    var es := Entries(q);
    seq(|es|, k requires 0 <= k < |es| => (es[k].0, ValueText(es[k].1)))
  }

  lemma UnreservedFree(s: string)
    requires AllUnreserved(s)
    ensures '&' !in s && '=' !in s
  {
  }

  /** A part of a plain entry holds one `=`, no `&`, and reads back as the entry. */
  lemma PartFacts(e: (string, ParamValue))
    requires PlainEntry(e)
    ensures '&' !in Part(e) && |Part(e)| > 0
    ensures ParsePart(Part(e)) == (e.0, ValueText(e.1))
  {
    var key, value := e.0, ValueText(e.1);
    UnreservedFree(key);
    UnreservedFree(value);
    assert Part(e) == key + ['='] + value;
    SplitAfter(key, value, '=');
    SplitAbsent(value, '=');
  }

  /** The number of `&` separators in a query string. */
  function Ampersands(s: string): nat {
    Count(s, '&')
  }

  /**
   * `paramsSerializer`: pushes `key=value` for every present entry, in insertion order, then
   * joins the parts with `&`.
   */
  method SerializeParams(q: QueryParams) returns (s: string)
    ensures s == "" <==> Entries(q) == []
    ensures s != "" ==> s[0] != '&' && s[|s| - 1] != '&'
    ensures s != "" ==> Ampersands(s) == |Entries(q)| - 1
    ensures ParseQueryString(s) == TextEntries(q)
  {
    var es := Entries(q);
    var parts: seq<string> := [];
    for i := 0 to |es|
      invariant |parts| == i
      invariant forall k | 0 <= k < i :: parts[k] == Part(es[k])
    {
      parts := parts + [Part(es[i])];
    }
    s := Join(parts, '&');
    EntriesNeedNoEncoding(q);
    JoinedPartsFacts(es, parts);
  }

  lemma JoinedPartsFacts(es: seq<(string, ParamValue)>, parts: seq<string>)
    requires forall k | 0 <= k < |es| :: PlainEntry(es[k])
    requires |parts| == |es| && forall k | 0 <= k < |es| :: parts[k] == Part(es[k])
    ensures var s := Join(parts, '&');
            && (s == "" <==> es == [])
            && (s != "" ==> s[0] != '&' && s[|s| - 1] != '&')
            && (s != "" ==> Count(s, '&') == |es| - 1)
            && ParseQueryString(s) == seq(|es|, k requires 0 <= k < |es| => (es[k].0, ValueText(es[k].1)))
  {
    forall k | 0 <= k < |parts|
      ensures '&' !in parts[k] && |parts[k]| > 0
      ensures ParsePart(parts[k]) == (es[k].0, ValueText(es[k].1))
    {
      PartFacts(es[k]);
    }
    var s := Join(parts, '&');
    if |parts| > 0 {
      JoinEnds(parts, '&');
      assert s[0] == parts[0][0];
      JoinCount(parts, '&');
      SplitJoin(parts, '&');
    }
  }

  /** The query string `getTasks` sends for `params`. */
  method TaskListQueryString(params: Option<TaskQuery>) returns (s: string)
    ensures params.None? ==> s == ""
    ensures ParseQueryString(s) == TextEntries(ShapeQuery(params))
  {
    s := SerializeParams(ShapeQuery(params));
  }

  // ---------------------------------------------------------------- request interceptor

  /** `JSON.stringify` of a string that needs no escaping: the string between double quotes. */
  function Quote(t: string): string {
    "\"" + t + "\""
  }

  /** The text holds no character that a JSON string literal would have to escape. */
  predicate JsonPlain(t: string) {
    forall i | 0 <= i < |t| :: t[i] != '"' && t[i] != '\\' && t[i] >= ' '
  }

  /**
   * The stored token after the interceptor's `JSON.parse` attempt: a plain JSON string literal
   * is unwrapped, anything else is used as it is.
   */
  function UnwrapStoredToken(raw: string): (t: string)
    ensures t == raw || raw == Quote(t)
  {
    if |raw| >= 2 && raw[0] == '"' && raw[|raw| - 1] == '"' && JsonPlain(raw[1..|raw| - 1]) then
      assert raw == Quote(raw[1..|raw| - 1]);
      raw[1..|raw| - 1]
    else raw
  }

  /** The `Authorization` header the request interceptor adds, if any. */
  function AuthorizationHeader(storage: Storage): (h: Option<string>)
    ensures h.None? <==> TokenKey !in storage || storage[TokenKey] == ""
  {
    if TokenKey in storage && storage[TokenKey] != "" then
      Some("Bearer " + UnwrapStoredToken(storage[TokenKey]))
    else None
  }

  /** A token stored as a JSON string literal reaches the header without its quotes. */
  lemma QuotedTokenUnwrapped(storage: Storage, t: string)
    requires JsonPlain(t)
    requires TokenKey in storage && storage[TokenKey] == Quote(t)
    ensures AuthorizationHeader(storage) == Some("Bearer " + t)
  {
    var raw := Quote(t);
    assert raw[1..|raw| - 1] == t;
  }

  /** A character of a JSON Web Token's base64url segments or of the dots between them. */
  predicate JwtChar(c: char) {
    ('A' <= c <= 'Z') || ('a' <= c <= 'z') || ('0' <= c <= '9') || c == '-' || c == '_' || c == '.'
  }

  /**
   * A stored token of JWT characters that opens with a letter is sent as stored: `JSON.parse`
   * either rejects it or reads one of `true`, `false`, `null`, each of which prints back as stored.
   */
  lemma RawTokenSentAsStored(storage: Storage)
    requires TokenKey in storage && storage[TokenKey] != ""
    requires ('A' <= storage[TokenKey][0] <= 'Z') || ('a' <= storage[TokenKey][0] <= 'z')
    requires forall i | 0 <= i < |storage[TokenKey]| :: JwtChar(storage[TokenKey][i])
    ensures AuthorizationHeader(storage) == Some("Bearer " + storage[TokenKey])
  {
  }

  // ---------------------------------------------------------------- response interceptor

  /** The parts of an `AxiosError` the interceptor reads: the response status and the request URL. */
  datatype HttpError = HttpError(status: Option<int>, url: Option<string>)

  /** What the error interceptor leaves behind: the store, the redirect decision, and the rejection. */
  datatype ErrorOutcome = ErrorOutcome(storage: Storage, redirectToLogin: bool, rejection: HttpError)

  /** The failing request targeted the login or register endpoint. */
  predicate IsAuthRequest(url: Option<string>) {
    var u := url.GetOr("");
    Contains(u, "/login") || Contains(u, "/register")
  }

  /** The 401 handler: clear the session for non-auth requests and leave auth views alone. */
  function OnResponseError(err: HttpError, pathname: string, storage: Storage): (r: ErrorOutcome)
    ensures r.rejection == err
    ensures r.storage.Keys <= storage.Keys
    ensures forall k | k in r.storage :: r.storage[k] == storage[k]
    ensures forall k | k in storage && k != TokenKey && k != UserKey :: k in r.storage
    ensures (TokenKey !in r.storage && UserKey !in r.storage) <==>
              (err.status == Some(401) && !IsAuthRequest(err.url))
              || (TokenKey !in storage && UserKey !in storage)
    ensures r.redirectToLogin <==>
              err.status == Some(401) && !IsAuthRequest(err.url)
              && pathname != "/login" && pathname != "/register"
    ensures err.status == Some(401) && !IsAuthRequest(err.url) ==> r.storage == storage - {TokenKey, UserKey}
    ensures !(err.status == Some(401) && !IsAuthRequest(err.url)) ==> r.storage == storage
  {
    if err.status == Some(401) && !IsAuthRequest(err.url) then
      var cleared := storage - {TokenKey, UserKey};
      var redirect := pathname != "/login" && pathname != "/register";
      ErrorOutcome(cleared, redirect, err)
    else
      ErrorOutcome(storage, false, err)
  }

  /**
   * The 401 handling does not loop: on the login page no rejection, 401 or not, redirects, and
   * once the store is cleared a further rejection leaves it cleared.
   */
  lemma RedirectFiresOnce(first: HttpError, pathname: string, storage: Storage, second: HttpError)
    requires OnResponseError(first, pathname, storage).redirectToLogin
    ensures var r1 := OnResponseError(first, pathname, storage);
            var r2 := OnResponseError(second, "/login", r1.storage);
            !r2.redirectToLogin && r2.storage == r1.storage
  {
  }

  /**
   * There is no once-guard: a second 401 from a non-auth request that is handled while the
   * pathname is still the old one (the navigation has not landed yet) redirects again.
   */
  lemma ConcurrentUnauthorizedRedirectsAgain(first: HttpError, pathname: string, storage: Storage, second: HttpError)
    requires OnResponseError(first, pathname, storage).redirectToLogin
    requires second.status == Some(401) && !IsAuthRequest(second.url)
    ensures var r1 := OnResponseError(first, pathname, storage);
            OnResponseError(second, pathname, r1.storage).redirectToLogin
  {
  }
}
