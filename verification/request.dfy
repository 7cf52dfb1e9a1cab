/**
 * The request gateway of utils/request.js as a pure decision function.
 * What the platform would deliver asynchronously is injected: a script of
 * transport outcomes, one per request sent, and a script of login outcomes,
 * one per `autoLogin` call. The stored token is passed in and the token left
 * in storage is part of the result.
 */
module Request {
  import opened Wrappers

  datatype Method = GET | POST | PUT | DELETE

  /** A request body, kept as opaque JSON text. */
  type Json = string

  /** The caller's `options`: `method`, `data` and `header` may be left out. */
  datatype Options = Options(url: string, verb: Option<Method>, data: Option<Json>, header: map<string, string>)

  const EmptyObject: Json := "{}"
  const ContentType := "Content-Type"
  const JsonMime := "application/json"
  const TokenHeader := "token"

  /** `options.method || 'GET'` */
  function MethodOf(o: Options): (m: Method)
    ensures o.verb.Some? ==> m == o.verb.value
    ensures o.verb.None? ==> m == GET
  {
    o.verb.GetOr(GET)
  }

  /** `options.data || {}` */
  function DataOf(o: Options): (j: Json)
    ensures o.data.Some? ==> j == o.data.value
    ensures o.data.None? ==> j == EmptyObject
  {
    o.data.GetOr(EmptyObject)
  }

  /** The exported `get`, `post`, `put` and `delete` wrappers: the method is fixed, no headers are added. */
  function Wrap(m: Method, url: string, data: Option<Json>): (o: Options)
    ensures MethodOf(o) == m && o.url == url && o.header == map[]
    ensures DataOf(o) == data.GetOr(EmptyObject)
  {
    Options(url, Some(m), data, map[])
  }

  /**
   * The header object: a JSON content type unless the caller overrides it,
   * every caller header, and the stored token under 'token' whenever the
   * token is non-empty (replacing any caller value).
   */
  function Header(token: string, caller: map<string, string>): (h: map<string, string>)
    ensures ContentType in h && h[ContentType] == (if ContentType in caller then caller[ContentType] else JsonMime)
    ensures token != "" ==> TokenHeader in h && h[TokenHeader] == token
    ensures token == "" ==> (TokenHeader in h <==> TokenHeader in caller)
    ensures forall k :: k in caller && (k != TokenHeader || token == "") ==> k in h && h[k] == caller[k]
    ensures h.Keys == caller.Keys + {ContentType} + (if token != "" then {TokenHeader} else {})
  {
    var header := map[ContentType := JsonMime] + caller;
    if token != "" then header[TokenHeader := token] else header
  }

  /** The body of a response: its embedded `code`, its `message` ('' when absent) and its payload. */
  datatype Envelope = Envelope(code: int, message: string, data: Json)

  /** What the transport delivered for one request. */
  datatype Transport = NoResponse(err: string) | Response(statusCode: int, body: Envelope)

  /** What the login endpoint delivered. */
  datatype Exchange = ExchangeNoResponse | ExchangeResponse(statusCode: int, code: int, token: string)

  /** The outcome of the platform login; `code` is '' when no login code was obtained. */
  datatype LoginAttempt = WxLoginFailed | WxLoginDone(code: string, exchange: Exchange)

  /** The body posted to the login endpoint. */
  datatype LoginRequest = LoginRequest(code: string, userInfo: Option<Json>)

  datatype LoginResult = LoggedIn(token: string) | LoginRejected

  /**
   * `autoLogin`: it resolves, and the new token is stored, only when a login
   * code was obtained and the exchange answered with transport status 200
   * and code 200.
   */
  function AutoLogin(a: LoginAttempt): (r: LoginResult)
    ensures r.LoggedIn? <==>
      a.WxLoginDone? && a.code != "" && a.exchange.ExchangeResponse? && a.exchange.statusCode == 200 && a.exchange.code == 200
    ensures r.LoggedIn? ==> r.token == a.exchange.token
  {
    match a
    case WxLoginFailed => LoginRejected
    case WxLoginDone(code, ex) =>
      if code == "" then LoginRejected
      else if ex.ExchangeResponse? && ex.statusCode == 200 && ex.code == 200 then LoggedIn(ex.token)
      else LoginRejected
  }

  /** The login request `autoLogin` posts: only once a login code was obtained, with the cached profile as it is. */
  function LoginRequestOf(a: LoginAttempt, userInfo: Option<Json>): (q: Option<LoginRequest>)
    ensures q.Some? <==> a.WxLoginDone? && a.code != ""
    ensures q.Some? ==> q.value.code == a.code && q.value.userInfo == userInfo
  {
    if a.WxLoginDone? && a.code != "" then Some(LoginRequest(a.code, userInfo)) else None
  }

  /** How the promise returned by `request` settles; Pending when the injected scripts ran out first. */
  datatype Outcome =
    | Resolved(body: Envelope)
    | RejectedEnvelope(body: Envelope)
    | RejectedStatus(statusCode: int, body: Envelope)
    | RejectedTransport(err: string)
    | Pending

  /** One request as it went out on the wire. */
  datatype Sent = Sent(url: string, verb: Method, data: Json, header: map<string, string>)

  /** Everything one call produced: its outcome, the stored token afterwards, the requests and login requests sent, the toasts shown. */
  datatype Run = Run(outcome: Outcome, token: string, sent: seq<Sent>, logins: seq<LoginRequest>, toasts: seq<string>)

  const NotLoggedIn := "用户未登录"
  const NetworkRequestFailed := "网络请求失败"
  const NetworkConnectionFailed := "网络连接失败"

  /**
   * `request(options)`: send with the stored token; on status 200 route on
   * the embedded code. Code 200 resolves, code 401 runs `autoLogin` and on
   * success issues the same options again through `request` (with the new
   * token), any other code rejects with the envelope. A non-200 status or
   * no response rejects without logging in.
   */
  function Send(baseUrl: string, o: Options, token: string, userInfo: Option<Json>,
                transports: seq<Transport>, attempts: seq<LoginAttempt>): (r: Run)
    decreases |transports|
    ensures |r.sent| <= |transports| && |r.logins| <= |attempts|
    ensures |r.sent| <= |r.logins| + 1
    ensures transports != [] <==> r.sent != []
    ensures r.sent != [] ==> r.sent[0] == Sent(baseUrl + o.url, MethodOf(o), DataOf(o), Header(token, o.header))
  {
    if transports == [] then Run(Pending, token, [], [], [])
    else
      var sent := Sent(baseUrl + o.url, MethodOf(o), DataOf(o), Header(token, o.header));
      match transports[0]
      case NoResponse(err) => Run(RejectedTransport(err), token, [sent], [], [NetworkConnectionFailed])
      case Response(status, body) =>
        if status != 200 then Run(RejectedStatus(status, body), token, [sent], [], [NetworkRequestFailed])
        else if body.code == 200 then Run(Resolved(body), token, [sent], [], [])
        else if body.code == 401 then
          if attempts == [] then Run(Pending, token, [sent], [], [])
          else
            var login := LoginRequestOf(attempts[0], userInfo);
            var posted := if login.Some? then [login.value] else [];
            match AutoLogin(attempts[0])
            case LoggedIn(t) =>
              var again := Send(baseUrl, o, t, userInfo, transports[1..], attempts[1..]);
              Run(again.outcome, again.token, [sent] + again.sent, posted + again.logins, again.toasts)
            case LoginRejected =>
              var toast := if body.message != "" && body.message != NotLoggedIn then [body.message] else [];
              Run(RejectedEnvelope(body), token, [sent], posted, toast)
        else
          Run(RejectedEnvelope(body), token, [sent], [], if body.message != "" then [body.message] else [])
  }

  /** Transport status 200 with code 200 resolves with the envelope, without logging in. */
  lemma SuccessResolves(baseUrl: string, o: Options, token: string, userInfo: Option<Json>,
                        transports: seq<Transport>, attempts: seq<LoginAttempt>)
    requires transports != [] && transports[0].Response? && transports[0].statusCode == 200 && transports[0].body.code == 200
    ensures var r := Send(baseUrl, o, token, userInfo, transports, attempts);
      r.outcome == Resolved(transports[0].body) && r.token == token && |r.sent| == 1 && r.logins == [] && r.toasts == []
  {
  }

  /** A code other than 200 and 401 rejects with the envelope and never logs in; the message is shown when present. */
  lemma OtherCodeRejects(baseUrl: string, o: Options, token: string, userInfo: Option<Json>,
                         transports: seq<Transport>, attempts: seq<LoginAttempt>)
    requires transports != [] && transports[0].Response? && transports[0].statusCode == 200
    requires transports[0].body.code != 200 && transports[0].body.code != 401
    ensures var r := Send(baseUrl, o, token, userInfo, transports, attempts);
      r.outcome == RejectedEnvelope(transports[0].body) && r.token == token && |r.sent| == 1 && r.logins == []
      && (r.toasts == [transports[0].body.message] <==> transports[0].body.message != "")
  {
  }

  /** A non-200 transport status, or no response at all, rejects without a login attempt. */
  lemma TransportFailureRejects(baseUrl: string, o: Options, token: string, userInfo: Option<Json>,
                                transports: seq<Transport>, attempts: seq<LoginAttempt>)
    requires transports != [] && (transports[0].NoResponse? || transports[0].statusCode != 200)
    ensures var r := Send(baseUrl, o, token, userInfo, transports, attempts);
      && r.token == token && |r.sent| == 1 && r.logins == []
      && (transports[0].NoResponse? ==> r.outcome == RejectedTransport(transports[0].err) && r.toasts == [NetworkConnectionFailed])
      && (transports[0].Response? ==>
            r.outcome == RejectedStatus(transports[0].statusCode, transports[0].body) && r.toasts == [NetworkRequestFailed])
  {
  }

  /**
   * Code 401 with a failed `autoLogin` rejects with the original envelope
   * (not the login error) and keeps the stored token; the message is shown
   * only when present and not the not-logged-in message.
   */
  lemma ReauthFailureKeepsOriginal(baseUrl: string, o: Options, token: string, userInfo: Option<Json>,
                                   transports: seq<Transport>, attempts: seq<LoginAttempt>)
    requires transports != [] && transports[0].Response? && transports[0].statusCode == 200 && transports[0].body.code == 401
    requires attempts != [] && AutoLogin(attempts[0]).LoginRejected?
    ensures var r := Send(baseUrl, o, token, userInfo, transports, attempts);
      var m := transports[0].body.message;
      r.outcome == RejectedEnvelope(transports[0].body) && r.token == token && |r.sent| == 1
      && (r.toasts == [m] <==> m != "" && m != NotLoggedIn) && (r.toasts == [] <==> !(m != "" && m != NotLoggedIn))
      && r.logins == (if LoginRequestOf(attempts[0], userInfo).Some? then [LoginRequestOf(attempts[0], userInfo).value] else [])
  {
  }

  /** Code 401 with a successful `autoLogin` is answered by `request` on the same options with the new token. */
  lemma ReauthSuccessReplays(baseUrl: string, o: Options, token: string, userInfo: Option<Json>,
                             transports: seq<Transport>, attempts: seq<LoginAttempt>)
    requires transports != [] && transports[0].Response? && transports[0].statusCode == 200 && transports[0].body.code == 401
    requires attempts != [] && AutoLogin(attempts[0]).LoggedIn?
    ensures var r := Send(baseUrl, o, token, userInfo, transports, attempts);
      var again := Send(baseUrl, o, AutoLogin(attempts[0]).token, userInfo, transports[1..], attempts[1..]);
      && r.outcome == again.outcome && r.token == again.token && r.toasts == again.toasts
      && r.sent == [r.sent[0]] + again.sent && r.sent[0].header == Header(token, o.header)
      && (|transports| > 1 ==> |r.sent| > 1 && r.sent[1].header == Header(AutoLogin(attempts[0]).token, o.header))
      && r.logins == [LoginRequest(attempts[0].code, userInfo)] + again.logins
  {
  }

  /** Every request in `sent` goes to `url` with the given method and data. */
  predicate AllFor(sent: seq<Sent>, url: string, verb: Method, data: Json) {
    forall i :: 0 <= i < |sent| ==> sent[i].url == url && sent[i].verb == verb && sent[i].data == data
  }

  /** Every request sent during one call, replays included, carries the caller's URL, method and data. */
  lemma {:induction false} ReplaysSameOptions(baseUrl: string, o: Options, token: string, userInfo: Option<Json>,
                                              transports: seq<Transport>, attempts: seq<LoginAttempt>)
    ensures AllFor(Send(baseUrl, o, token, userInfo, transports, attempts).sent, baseUrl + o.url, MethodOf(o), DataOf(o))
    decreases |transports|
  {
    if transports != [] && transports[0].Response? && transports[0].statusCode == 200
       && transports[0].body.code == 401 && attempts != [] && AutoLogin(attempts[0]).LoggedIn? {
      var t := AutoLogin(attempts[0]).token;
      ReplaysSameOptions(baseUrl, o, t, userInfo, transports[1..], attempts[1..]);
      var again := Send(baseUrl, o, t, userInfo, transports[1..], attempts[1..]);
      assert Send(baseUrl, o, token, userInfo, transports, attempts).sent
          == [Sent(baseUrl + o.url, MethodOf(o), DataOf(o), Header(token, o.header))] + again.sent;
    }
  }

  /**
   * Each request of `sent` carries the header built from the token stored
   * when it went out: the first one `token`, and each later one the token
   * handed out by the successful login that preceded it.
   */
  predicate HeadersFrom(sent: seq<Sent>, token: string, attempts: seq<LoginAttempt>, caller: map<string, string>)
    decreases |sent|
  {
    sent != [] ==>
      && sent[0].header == Header(token, caller)
      && (|sent| > 1 ==>
            && attempts != [] && AutoLogin(attempts[0]).LoggedIn?
            && HeadersFrom(sent[1..], AutoLogin(attempts[0]).token, attempts[1..], caller))
  }

  /** Every request of a call, replays included, carries the token stored when it went out. */
  lemma {:induction false} ReplayHeaders(baseUrl: string, o: Options, token: string, userInfo: Option<Json>,
                                         transports: seq<Transport>, attempts: seq<LoginAttempt>)
    ensures HeadersFrom(Send(baseUrl, o, token, userInfo, transports, attempts).sent, token, attempts, o.header)
    decreases |transports|
  {
    var r := Send(baseUrl, o, token, userInfo, transports, attempts);
    if transports != [] && transports[0].Response? && transports[0].statusCode == 200
       && transports[0].body.code == 401 && attempts != [] && AutoLogin(attempts[0]).LoggedIn? {
      var t := AutoLogin(attempts[0]).token;
      ReplayHeaders(baseUrl, o, t, userInfo, transports[1..], attempts[1..]);
      ReauthSuccessReplays(baseUrl, o, token, userInfo, transports, attempts);
      assert r.sent[1..] == Send(baseUrl, o, t, userInfo, transports[1..], attempts[1..]).sent;
    } else {
      assert |r.sent| <= 1;
    }
  }

  /** The stored token after a call is the one before it or one handed out by a successful login exchange. */
  lemma {:induction false} TokenProvenance(baseUrl: string, o: Options, token: string, userInfo: Option<Json>,
                                           transports: seq<Transport>, attempts: seq<LoginAttempt>)
    ensures var r := Send(baseUrl, o, token, userInfo, transports, attempts);
      r.token == token || exists j :: 0 <= j < |attempts| && AutoLogin(attempts[j]) == LoggedIn(r.token)
    decreases |transports|
  {
    if transports != [] && transports[0].Response? && transports[0].statusCode == 200
       && transports[0].body.code == 401 && attempts != [] && AutoLogin(attempts[0]).LoggedIn? {
      var t := AutoLogin(attempts[0]).token;
      TokenProvenance(baseUrl, o, t, userInfo, transports[1..], attempts[1..]);
      var r := Send(baseUrl, o, token, userInfo, transports, attempts);
      if r.token == t {
        assert AutoLogin(attempts[0]) == LoggedIn(r.token);
      } else {
        var j :| 0 <= j < |attempts[1..]| && AutoLogin(attempts[1..][j]) == LoggedIn(r.token);
        assert AutoLogin(attempts[j + 1]) == LoggedIn(r.token);
      }
    }
  }

  /** n responses with code 401 followed by a success, with every login succeeding. */
  function Unauthorized(n: nat, denied: Envelope, ok: Envelope): seq<Transport> {
    seq(n, _ => Response(200, denied)) + [Response(200, ok)]
  }

  /**
   * Nothing bounds the replays: with n consecutive 401 answers and n
   * successful logins the same request goes out n + 1 times and the call
   * resolves with the final answer, holding the last token handed out.
   */
  lemma {:induction false} UnboundedReplay(n: nat, baseUrl: string, o: Options, token: string, userInfo: Option<Json>,
                                           denied: Envelope, ok: Envelope, newToken: string)
    requires denied.code == 401 && ok.code == 200
    ensures var r := Send(baseUrl, o, token, userInfo, Unauthorized(n, denied, ok),
                          seq(n, _ => WxLoginDone("c", ExchangeResponse(200, 200, newToken))));
      && r.outcome == Resolved(ok) && |r.sent| == n + 1 && |r.logins| == n && (n > 0 ==> r.token == newToken)
      && r.sent[n].header == Header(if n > 0 then newToken else token, o.header)
  {
    var attempts := seq(n, _ => WxLoginDone("c", ExchangeResponse(200, 200, newToken)));
    var transports := Unauthorized(n, denied, ok);
    if n > 0 {
      assert transports[0] == Response(200, denied);
      assert transports[1..] == Unauthorized(n - 1, denied, ok);
      assert attempts[1..] == seq(n - 1, _ => WxLoginDone("c", ExchangeResponse(200, 200, newToken)));
      UnboundedReplay(n - 1, baseUrl, o, newToken, userInfo, denied, ok, newToken);
      ReauthSuccessReplays(baseUrl, o, token, userInfo, transports, attempts);
      var again := Send(baseUrl, o, newToken, userInfo, transports[1..], attempts[1..]);
      assert Send(baseUrl, o, token, userInfo, transports, attempts).sent[n] == again.sent[n - 1];
    } else {
      assert transports == [Response(200, ok)];
    }
  }
}
