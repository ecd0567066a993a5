/**
 * The authenticated HTTP client: token expiry, the message shown for a failed
 * response, and the two refresh paths — the proactive one in the request
 * interceptor, gated by `refreshPromise`, and the reactive one in the response
 * interceptor, gated by `isRefreshing` with a queue of waiting requests.
 *
 * Every `await` is split into a start step and a settle step; what the refresh
 * endpoint answers is an input to the settle step.
 */
module Api {
  import opened Wrappers
  import opened JsText
  import opened Json
  import opened Storage
  import opened ErrorBus

  /** Refresh this long before the token actually expires. */
  const ExpiryMarginMs := 30000
  const AuthorizationHeader := "Authorization"
  const DefaultMessage := "Request failed"

  // ---------------------------------------------------------------- token expiry

  /**
   * `isTokenExpired(token)` at time `nowMs` (milliseconds). `decodePayload` stands for
   * splitting the token, base64-decoding its middle segment and parsing it as JSON;
   * `None` means one of those steps threw.
   */
  function IsTokenExpired(token: string, nowMs: int, decodePayload: string -> Option<Json>): (r: bool)
    ensures decodePayload(token).None? ==> r
    ensures decodePayload(token) == Some(JNull) ==> r
  {
    match decodePayload(token)
    case None => true
    case Some(JNull) => true
    case Some(payload) =>
      match Get(payload, "exp")
      case None => false
      case Some(exp) =>
        match ToNumber(exp)
        case None => false
        case Some(seconds) => seconds * 1000 <= nowMs + ExpiryMarginMs
  }

  /**
   * An `exp` claim expires the token exactly 30 seconds before the number of seconds it
   * compares as; a claim that compares as `NaN` never expires it.
   */
  lemma ExpiredIffWithinMargin(token: string, nowMs: int, decodePayload: string -> Option<Json>, fields: seq<Field>, exp: Json)
    requires decodePayload(token) == Some(JObj(fields))
    requires Lookup(fields, "exp") == Some(exp)
    ensures IsTokenExpired(token, nowMs, decodePayload) <==>
              ToNumber(exp).Some? && ToNumber(exp).value * 1000 <= nowMs + ExpiryMarginMs
  {
  }

  /** An `exp` claim written as text, `"1700000000"`, counts like the number it spells. */
  lemma TextExpClaimCountsAsNumber(token: string, nowMs: int, decodePayload: string -> Option<Json>, fields: seq<Field>, exp: int)
    requires decodePayload(token) == Some(JObj(fields))
    requires Lookup(fields, "exp") == Some(JStr(IntText(exp)))
    ensures IsTokenExpired(token, nowMs, decodePayload) <==> exp * 1000 <= nowMs + ExpiryMarginMs
  {
    IntTextNumber(exp);
  }

  /** A payload without an `exp` claim never counts as expired. */
  lemma NoExpClaimNeverExpires(token: string, nowMs: int, decodePayload: string -> Option<Json>, fields: seq<Field>)
    requires decodePayload(token) == Some(JObj(fields))
    requires Lookup(fields, "exp").None?
    ensures !IsTokenExpired(token, nowMs, decodePayload)
  {
  }

  /** Once a token counts as expired it stays expired as the clock moves on. */
  lemma ExpiryIsMonotone(token: string, t1: int, t2: int, decodePayload: string -> Option<Json>)
    requires t1 <= t2
    requires IsTokenExpired(token, t1, decodePayload)
    ensures IsTokenExpired(token, t2, decodePayload)
  {
  }

  // ---------------------------------------------------------------- error messages

  /** One element of an `errors` array: its truthy `message`, else its JSON text. */
  function ErrorEntryText(e: Json): string {
    var m := Get(e, "message");
    if TruthyOpt(m) then ToText(m.value) else Stringify(e)
  }

  /** One value of an `errors` object: an array joined by ", ", anything else `String(v)`. */
  function ErrorValueText(v: Json): string {
    if v.JArr? then JoinArray(v.items, ", ") else ToText(v)
  }

  function EntryTexts(xs: seq<Json>): (r: seq<string>)
    ensures |r| == |xs|
    ensures forall i :: 0 <= i < |xs| ==> r[i] == ErrorEntryText(xs[i])
  {
    seq(|xs|, i requires 0 <= i < |xs| => ErrorEntryText(xs[i]))
  }

  function ValueTexts(vs: seq<Json>): (r: seq<string>)
    ensures |r| == |vs|
    ensures forall i :: 0 <= i < |vs| ==> r[i] == ErrorValueText(vs[i])
  {
    seq(|vs|, i requires 0 <= i < |vs| => ErrorValueText(vs[i]))
  }

  /**
   * The message the body of a failed response yields, in priority order: a string
   * body; a non-empty string `message`; an `errors` array; an `errors` object; the
   * JSON text of any other truthy body. `None` is `undefined`.
   */
  function BackendMessage(data: Option<Json>): Option<string> {
    match data
    case None => None
    case Some(d) =>
      if d.JStr? then Some(d.s)
      else
      var message := Get(d, "message");
      var errors := Get(d, "errors");
      if TruthyOpt(message) && message.value.JStr? then Some(message.value.s)
      else if errors.Some? && errors.value.JArr? then Some(Join(EntryTexts(errors.value.items), "\n"))
      else if errors.Some? && errors.value.JObj? then Some(Join(ValueTexts(Values(errors.value.fields)), "\n"))
      else if Truthy(d) then Some(Stringify(d))
      else None
  }

  /** `backendMessage || error.message || 'Request failed'`. */
  function ExtractMessage(data: Option<Json>, errorMessage: Option<string>): (r: string)
    ensures r != ""
    ensures BackendMessage(data).Some? && BackendMessage(data).value != "" ==> r == BackendMessage(data).value
    ensures (BackendMessage(data).None? || BackendMessage(data).value == "") ==>
              r == (if errorMessage.Some? && errorMessage.value != "" then errorMessage.value else DefaultMessage)
  {
    var backend := BackendMessage(data);
    if backend.Some? && backend.value != "" then backend.value
    else if errorMessage.Some? && errorMessage.value != "" then errorMessage.value
    else DefaultMessage
  }

  /** A non-empty string body wins over everything else. */
  lemma StringBodyWins(s: string, errorMessage: Option<string>)
    requires s != ""
    ensures ExtractMessage(Some(JStr(s)), errorMessage) == s
  {
  }

  /** Otherwise a non-empty string `message` property wins over `errors` and the rest. */
  lemma MessageFieldWins(fields: seq<Field>, m: string, errorMessage: Option<string>)
    requires Lookup(fields, "message") == Some(JStr(m)) && m != ""
    ensures ExtractMessage(Some(JObj(fields)), errorMessage) == m
  {
  }

  /** `String(v)` of a truthy value that is not an array is never empty. */
  lemma {:induction false} TruthyTextNonEmpty(v: Json)
    requires Truthy(v) && !v.JArr?
    ensures ToText(v) != ""
  {
    if v.JNum? {
      if v.n < 0 {} else { assert NatText(v.n) != []; }
    }
  }

  lemma {:induction false} JoinNonEmpty(parts: seq<string>, sep: string)
    requires parts != [] && parts[0] != ""
    ensures Join(parts, sep) != ""
  {
  }

  /**
   * An `errors` array with at least one entry yields a non-empty message (so it is
   * what the toast shows), provided no entry's `message` is itself an array.
   */
  lemma ErrorsArrayIsShown(fields: seq<Field>, xs: seq<Json>, errorMessage: Option<string>)
    requires !(TruthyOpt(Lookup(fields, "message")) && Lookup(fields, "message").value.JStr?)
    requires Lookup(fields, "errors") == Some(JArr(xs)) && xs != []
    requires forall i :: 0 <= i < |xs| ==> var m := Get(xs[i], "message"); !(m.Some? && m.value.JArr?)
    ensures ExtractMessage(Some(JObj(fields)), errorMessage) == Join(EntryTexts(xs), "\n")
  {
    var m := Get(xs[0], "message");
    if TruthyOpt(m) {
      TruthyTextNonEmpty(m.value);
    } else {
      StringifyNonEmpty(xs[0]);
    }
    JoinNonEmpty(EntryTexts(xs), "\n");
  }

  /**
   * String elements of an `errors` array have no `message`, so they are shown as their
   * JSON text, quotes included.
   */
  lemma StringErrorsAreQuoted()
    ensures ExtractMessage(Some(JObj([Field("errors", JArr([JStr("a"), JStr("b")]))])), None)
            == "\"a\"\n\"b\""
  {
    var xs := [JStr("a"), JStr("b")];
    assert Escape("a") == "a" && Escape("b") == "b";
    assert ErrorEntryText(JStr("a")) == Quote("a") == "\"a\"";
    assert ErrorEntryText(JStr("b")) == Quote("b") == "\"b\"";
    assert EntryTexts(xs) == ["\"a\"", "\"b\""];
    assert Join(["\"a\"", "\"b\""], "\n") == "\"a\"\n\"b\"";
  }

  // ---------------------------------------------------------------- requests and events

  /** The parts of an axios request config the interceptors read or write. */
  datatype RequestConfig = RequestConfig(baseUrl: Option<string>, url: Option<string>, httpMethod: Option<string>,
                                         headers: map<string, string>, retry: bool)

  /** `error.config || {}` when the error carries no config. */
  const EmptyConfig := RequestConfig(None, None, None, map[], false)

  /** A rejected request: its config, the response status and body when there was a response, and `error.message`. */
  datatype HttpError = HttpError(config: Option<RequestConfig>, status: Option<int>, data: Option<Json>, message: Option<string>)

  /** What the refresh did on entry: nothing to refresh with, or a call to the refresh endpoint. */
  datatype RefreshCall = NoRefreshToken | EndpointCalled(refresh: string)

  /** What the refresh endpoint answered: its response body, of whatever type, or a failure. */
  datatype EndpointOutcome = Issued(body: Json) | EndpointFailed

  /** Side effects visible outside the client: error-bus and force-logout emissions, the `tokenRefreshed` window event. */
  datatype Event = ErrorRaised(error: ErrorEvent) | ForceLogout | TokenRefreshed(newToken: Json)

  datatype RequestStep = Send(config: RequestConfig) | AwaitProactiveRefresh

  datatype ResponseAction = Resend(config: RequestConfig) | Reject(error: HttpError) | Queued | AwaitReactiveRefresh

  /** A request waiting on the reactive refresh, with the error it is rejected with if the refresh fails. */
  datatype Pending = Pending(config: RequestConfig, error: HttpError)

  datatype ReactiveRefresh = ReactiveRefresh(call: RefreshCall, leader: Pending)

  predicate NonEmpty(s: Option<string>) {
    s.Some? && s.value != ""
  }

  function WithBearer(c: RequestConfig, token: string): (r: RequestConfig)
    ensures AuthorizationHeader in r.headers && r.headers[AuthorizationHeader] == "Bearer " + token
    ensures r.retry == c.retry && r.url == c.url
  {
    c.(headers := c.headers[AuthorizationHeader := "Bearer " + token])
  }

  /** The URL reported with an error: base URL and URL concatenated, when either is non-empty. */
  function EventUrl(c: RequestConfig): (r: Option<string>)
    ensures r.Some? <==> NonEmpty(c.url) || NonEmpty(c.baseUrl)
  {
    if NonEmpty(c.url) || NonEmpty(c.baseUrl) then Some(c.baseUrl.GetOr("") + c.url.GetOr("")) else None
  }

  /** The error-bus event for a failed response. */
  function ErrorEventOf(err: HttpError): (e: ErrorEvent)
    ensures e.message != ""
    ensures e.status == err.status
  {
    var original := err.config.GetOr(EmptyConfig);
    ErrorEvent(ExtractMessage(err.data, err.message), err.status, EventUrl(original), original.httpMethod)
  }

  /** A 401 on a request that has not been retried yet: the one case that leads to a refresh. */
  predicate RetriesOnUnauthorized(err: HttpError) {
    err.status == Some(401) && !err.config.GetOr(EmptyConfig).retry
  }

  // ---------------------------------------------------------------- refreshAccessToken

  /** What `refreshAccessToken` does on entry, given the stored entries. */
  function CallFor(entries: map<string, string>): RefreshCall {
    if RefreshTokenKey in entries && entries[RefreshTokenKey] != "" then EndpointCalled(entries[RefreshTokenKey])
    else NoRefreshToken
  }

  function StartEvents(call: RefreshCall): seq<Event> {
    if call.NoRefreshToken? then [ForceLogout] else []
  }

  function FinishEvents(call: RefreshCall, outcome: EndpointOutcome): seq<Event> {
    match call
    case NoRefreshToken => []
    case EndpointCalled(_) =>
      match outcome
      case Issued(body) => [TokenRefreshed(body)]
      case EndpointFailed => [ForceLogout]
  }

  /** The value the refresh promise resolves to: the endpoint's body as it came, else `null`. */
  function RefreshResult(call: RefreshCall, outcome: EndpointOutcome): Json {
    if call.EndpointCalled? && outcome.Issued? then outcome.body else JNull
  }

  function EntriesAfterRefresh(entries: map<string, string>, call: RefreshCall, outcome: EndpointOutcome): map<string, string> {
    match call
    case NoRefreshToken => entries
    case EndpointCalled(_) =>
      match outcome
      case Issued(body) => entries[AccessTokenKey := ToText(body)]
      case EndpointFailed => entries - {AccessTokenKey, RefreshTokenKey}
  }

  /**
   * The three outcomes of a refresh: exactly one force-logout emission unless the
   * endpoint answered, and then the result is `null`; an answer is stored under
   * `accessToken` as its text and announced as it came; a missing refresh token leaves
   * the storage as it was; a failed endpoint removes both tokens.
   */
  lemma RefreshOutcomes(entries: map<string, string>, outcome: EndpointOutcome)
    ensures var call := CallFor(entries);
            var events := StartEvents(call) + FinishEvents(call, outcome);
            var after := EntriesAfterRefresh(entries, call, outcome);
            var answered := call.EndpointCalled? && outcome.Issued?;
            && (events == [ForceLogout] <==> !answered)
            && (!answered ==> RefreshResult(call, outcome) == JNull)
            && (answered ==>
                  AccessTokenKey in after && after[AccessTokenKey] == ToText(RefreshResult(call, outcome))
                  && events == [TokenRefreshed(RefreshResult(call, outcome))])
            && (call.NoRefreshToken? ==> after == entries)
            && (call.EndpointCalled? && outcome.EndpointFailed? ==>
                  AccessTokenKey !in after && RefreshTokenKey !in after)
  {
    var call := CallFor(entries);
    if call.EndpointCalled? && outcome.Issued? {
      var events := StartEvents(call) + FinishEvents(call, outcome);
      assert events == [TokenRefreshed(outcome.body)];
      assert events[0] != ForceLogout;
    }
  }

  /**
   * A body that is not a string is kept as it is: a `null` body is stored as the text
   * "null" and resolves the refresh to `null` without any force-logout, and an object
   * body is stored as "[object Object]" and resolves the refresh to the object.
   */
  lemma NonStringBodiesKeptAsTheyCame(entries: map<string, string>, fields: seq<Field>)
    requires CallFor(entries).EndpointCalled?
    ensures var call := CallFor(entries);
            && RefreshResult(call, Issued(JNull)) == JNull
            && EntriesAfterRefresh(entries, call, Issued(JNull))[AccessTokenKey] == "null"
            && ForceLogout !in StartEvents(call) + FinishEvents(call, Issued(JNull))
            && RefreshResult(call, Issued(JObj(fields))) == JObj(fields)
            && EntriesAfterRefresh(entries, call, Issued(JObj(fields)))[AccessTokenKey] == "[object Object]"
  {
  }

  /**
   * How a request waiting on the reactive refresh is settled by its result: resent with
   * the bearer header `Bearer ${token}` when the result is truthy, else rejected.
   */
  function Settled(p: Pending, token: Json): (r: ResponseAction)
    ensures r.Resend? <==> Truthy(token)
    ensures r.Resend? ==> r.config.retry == p.config.retry && r.config.url == p.config.url
                          && AuthorizationHeader in r.config.headers
                          && r.config.headers[AuthorizationHeader] == "Bearer " + ToText(token)
    ensures r.Reject? ==> r.error == p.error
  {
    if Truthy(token) then Resend(WithBearer(p.config, ToText(token))) else Reject(p.error)
  }

  /** How a request waiting on the proactive refresh is sent once it settles. */
  function SentAfterRefresh(c: RequestConfig, token: Json): (r: RequestConfig)
    ensures !Truthy(token) ==> r == c
    ensures Truthy(token) ==> AuthorizationHeader in r.headers && r.headers[AuthorizationHeader] == "Bearer " + ToText(token)
  {
    if Truthy(token) then WithBearer(c, ToText(token)) else c
  }

  // ---------------------------------------------------------------- the client

  class Client {
    const store: TokenStore
    /** The proactive gate: the refresh the request interceptor is waiting on, if any. */
    var refreshPromise: Option<RefreshCall>
    /** Requests parked on `refreshPromise`, in arrival order. */
    var awaiting: seq<RequestConfig>
    /** The reactive gate. */
    var isRefreshing: bool
    /** The reactive refresh in flight and the request that started it. */
    var reactive: Option<ReactiveRefresh>
    var pendingRequests: seq<Pending>
    var events: seq<Event>
    /** How many times the refresh endpoint has been called. */
    var endpointCalls: nat

    ghost predicate Valid()
      reads this
    {
      && (refreshPromise.None? ==> awaiting == [])
      && (isRefreshing <==> reactive.Some?)
      && (!isRefreshing ==> pendingRequests == [])
      && (reactive.Some? ==> reactive.value.leader.config.retry)
      && (forall p :: p in pendingRequests ==> p.config.retry)
    }

    constructor(store: TokenStore)
      ensures Valid() && this.store == store
      ensures refreshPromise.None? && !isRefreshing && events == [] && endpointCalls == 0
    {
      this.store := store;
      refreshPromise := None;
      awaiting := [];
      isRefreshing := false;
      reactive := None;
      pendingRequests := [];
      events := [];
      endpointCalls := 0;
    }

    /** The synchronous part of `refreshAccessToken`: read the refresh token, call the endpoint or give up. */
    method StartRefresh() returns (call: RefreshCall)
      modifies this`events, this`endpointCalls
      ensures call == CallFor(store.entries)
      ensures events == old(events) + StartEvents(call)
      ensures endpointCalls == old(endpointCalls) + (if call.EndpointCalled? then 1 else 0)
    {
      var refresh := store.GetItem(RefreshTokenKey);
      if refresh.Some? && refresh.value != "" {
        call := EndpointCalled(refresh.value);
        endpointCalls := endpointCalls + 1;
      } else {
        call := NoRefreshToken;
        events := events + [ForceLogout];
      }
    }

    /** The part of `refreshAccessToken` after the endpoint answered. */
    method FinishRefresh(call: RefreshCall, outcome: EndpointOutcome) returns (token: Json)
      modifies store, this`events
      ensures token == RefreshResult(call, outcome)
      ensures store.entries == EntriesAfterRefresh(old(store.entries), call, outcome)
      ensures events == old(events) + FinishEvents(call, outcome)
    {
      token := JNull;
      if call.EndpointCalled? {
        match outcome
        case Issued(body) =>
          store.SetItem(AccessTokenKey, ToText(body));
          events := events + [TokenRefreshed(body)];
          token := body;
        case EndpointFailed =>
          store.RemoveItem(AccessTokenKey);
          store.RemoveItem(RefreshTokenKey);
          events := events + [ForceLogout];
      }
    }

    /**
     * The request interceptor. A stored, unexpired token is attached as a bearer
     * header; with no token the request goes out as it is; an expired token parks the
     * request on `refreshPromise`, starting a refresh only when none is in flight.
     */
    method InterceptRequest(config: RequestConfig, nowMs: int, decodePayload: string -> Option<Json>)
      returns (step: RequestStep)
      requires Valid()
      modifies this`events, this`endpointCalls, this`refreshPromise, this`awaiting
      ensures Valid()
      ensures var token := old(store.GetItem(AccessTokenKey));
              if NonEmpty(token) && IsTokenExpired(token.value, nowMs, decodePayload) then
                && step == AwaitProactiveRefresh
                && awaiting == old(awaiting) + [config]
                && (old(refreshPromise).Some? ==>
                      refreshPromise == old(refreshPromise) && events == old(events) && endpointCalls == old(endpointCalls))
                && (old(refreshPromise).None? ==>
                      var call := CallFor(store.entries);
                      refreshPromise == Some(call) && events == old(events) + StartEvents(call)
                      && endpointCalls == old(endpointCalls) + (if call.EndpointCalled? then 1 else 0))
              else
                && step == Send(if NonEmpty(token) then WithBearer(config, token.value) else config)
                && refreshPromise == old(refreshPromise) && awaiting == old(awaiting)
                && events == old(events) && endpointCalls == old(endpointCalls)
    {
      var token := store.GetItem(AccessTokenKey);
      if NonEmpty(token) && IsTokenExpired(token.value, nowMs, decodePayload) {
        if refreshPromise.None? {
          var call := StartRefresh();
          refreshPromise := Some(call);
        }
        awaiting := awaiting + [config];
        step := AwaitProactiveRefresh;
      } else if NonEmpty(token) {
        step := Send(WithBearer(config, token.value));
      } else {
        step := Send(config);
      }
    }

    /**
     * `refreshPromise` settles: every parked request is sent, with the new token as its
     * bearer header when there is one, and the gate is cleared.
     */
    method SettleProactiveRefresh(outcome: EndpointOutcome) returns (sent: seq<RequestConfig>)
      requires Valid() && refreshPromise.Some?
      modifies store, this`events, this`refreshPromise, this`awaiting
      ensures Valid()
      ensures refreshPromise.None? && awaiting == []
      ensures var call := old(refreshPromise).value;
              var token := RefreshResult(call, outcome);
              && store.entries == EntriesAfterRefresh(old(store.entries), call, outcome)
              && events == old(events) + FinishEvents(call, outcome)
              && |sent| == |old(awaiting)|
              && forall i :: 0 <= i < |sent| ==> sent[i] == SentAfterRefresh(old(awaiting)[i], token)
    {
      var token := FinishRefresh(refreshPromise.value, outcome);
      refreshPromise := None;
      sent := [];
      for i := 0 to |awaiting|
        invariant |sent| == i
        invariant forall k :: 0 <= k < i ==> sent[k] == SentAfterRefresh(awaiting[k], token)
      {
        sent := sent + [SentAfterRefresh(awaiting[i], token)];
      }
      awaiting := [];
    }

    /**
     * The response interceptor's error handler. It first emits one error event. A 401
     * on a request not yet retried marks it retried and then either joins the queue
     * (a reactive refresh is in flight) or starts the reactive refresh; anything else
     * is rejected with the original error.
     */
    method InterceptResponseError(err: HttpError) returns (action: ResponseAction)
      requires Valid()
      modifies this`events, this`endpointCalls, this`isRefreshing, this`reactive, this`pendingRequests
      ensures Valid()
      ensures |events| >= |old(events)| + 1
      ensures events[..|old(events)| + 1] == old(events) + [ErrorRaised(ErrorEventOf(err))]
      ensures var original := err.config.GetOr(EmptyConfig);
              var marked := original.(retry := true);
              var markedErr := if err.config.Some? then err.(config := Some(marked)) else err;
              if RetriesOnUnauthorized(err) then
                if old(isRefreshing) then
                  && action == Queued
                  && pendingRequests == old(pendingRequests) + [Pending(marked, markedErr)]
                  && reactive == old(reactive) && isRefreshing
                  && events == old(events) + [ErrorRaised(ErrorEventOf(err))]
                  && endpointCalls == old(endpointCalls)
                else
                  var call := CallFor(store.entries);
                  && action == AwaitReactiveRefresh
                  && isRefreshing && reactive == Some(ReactiveRefresh(call, Pending(marked, markedErr)))
                  && pendingRequests == old(pendingRequests)
                  && events == old(events) + [ErrorRaised(ErrorEventOf(err))] + StartEvents(call)
                  && endpointCalls == old(endpointCalls) + (if call.EndpointCalled? then 1 else 0)
              else
                && action == Reject(err)
                && isRefreshing == old(isRefreshing) && reactive == old(reactive)
                && pendingRequests == old(pendingRequests)
                && events == old(events) + [ErrorRaised(ErrorEventOf(err))]
                && endpointCalls == old(endpointCalls)
    {
      events := events + [ErrorRaised(ErrorEventOf(err))];
      var original := err.config.GetOr(EmptyConfig);
      if RetriesOnUnauthorized(err) {
        var marked := original.(retry := true);
        var markedErr := if err.config.Some? then err.(config := Some(marked)) else err;
        if isRefreshing {
          pendingRequests := pendingRequests + [Pending(marked, markedErr)];
          action := Queued;
        } else {
          isRefreshing := true;
          var call := StartRefresh();
          reactive := Some(ReactiveRefresh(call, Pending(marked, markedErr)));
          action := AwaitReactiveRefresh;
        }
      } else {
        action := Reject(err);
      }
    }

    /**
     * The reactive refresh settles: the gate is cleared, every queued request receives
     * the same result, in queue order, the queue is emptied, and the request that
     * started the refresh is resent or rejected by the same rule.
     */
    method SettleReactiveRefresh(outcome: EndpointOutcome) returns (queued: seq<ResponseAction>, own: ResponseAction)
      requires Valid() && isRefreshing
      modifies store, this`events, this`isRefreshing, this`reactive, this`pendingRequests
      ensures Valid()
      ensures !isRefreshing && reactive.None? && pendingRequests == []
      ensures var r := old(reactive).value;
              var token := RefreshResult(r.call, outcome);
              && store.entries == EntriesAfterRefresh(old(store.entries), r.call, outcome)
              && events == old(events) + FinishEvents(r.call, outcome)
              && |queued| == |old(pendingRequests)|
              && (forall i :: 0 <= i < |queued| ==> queued[i] == Settled(old(pendingRequests)[i], token))
              && own == Settled(r.leader, token)
    {
      var r := reactive.value;
      var token := FinishRefresh(r.call, outcome);
      isRefreshing := false;
      reactive := None;
      queued := [];
      for i := 0 to |pendingRequests|
        invariant |queued| == i
        invariant forall k :: 0 <= k < i ==> queued[k] == Settled(pendingRequests[k], token)
      {
        queued := queued + [Settled(pendingRequests[i], token)];
      }
      pendingRequests := [];
      own := Settled(r.leader, token);
    }
  }

  /**
   * Every request resent by the reactive path carries the retry mark, so a second 401
   * on it no longer qualifies for a refresh and is rejected: a request is resent at
   * most once.
   */
  lemma ResentAtMostOnce(p: Pending, token: Json, second: HttpError)
    requires p.config.retry
    requires Settled(p, token).Resend?
    requires second.config == Some(Settled(p, token).config)
    ensures !RetriesOnUnauthorized(second)
  {
  }

  /**
   * The two gates are independent: with an expired access token and a stored refresh
   * token, a request that finds the token expired and a 401 that arrives meanwhile
   * each call the refresh endpoint.
   */
  method GatesAreIndependent(token: string, refresh: string, nowMs: int, decodePayload: string -> Option<Json>,
                             config: RequestConfig, failed: HttpError)
    returns (calls: nat)
    requires token != "" && refresh != ""
    requires IsTokenExpired(token, nowMs, decodePayload)
    requires failed.status == Some(401) && failed.config == Some(config) && !config.retry
    ensures calls == 2
  {
    var store := new TokenStore(map[AccessTokenKey := token, RefreshTokenKey := refresh]);
    var client := new Client(store);
    var step := client.InterceptRequest(config, nowMs, decodePayload);
    assert step == AwaitProactiveRefresh;
    var action := client.InterceptResponseError(failed);
    assert action == AwaitReactiveRefresh;
    calls := client.endpointCalls;
  }
}
