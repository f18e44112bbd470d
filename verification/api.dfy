/**
 * The `fetch` client: how a request is assembled, how whatever `fetch` and
 * `response.json()` did is folded into a `{ success, result?, message? }`
 * envelope, and the fixed endpoint behind each method of the `API` object.
 * The network, the token store and JSON serialisation are abstract inputs.
 */
module Api {
  import opened Wrappers
  import opened Text

  const BaseUrl: string := "https://bcibizz.pt/api"

  /** The value every API call resolves to; `result` and `message` are None where the property is absent. */
  datatype Envelope<B> = Envelope(success: bool, result: Option<B>, message: Option<string>)

  /** A success carries a result and no message; a failure carries a non-empty message and no result. */
  predicate WellFormed<B>(e: Envelope<B>) {
    if e.success then e.result.Some? && e.message.None?
    else e.result.None? && e.message.Some? && e.message.value != ""
  }

  /**
   * What happened on the wire. `errorMessage` is `error.message` and
   * `bodyMessage` is `body.message`, each "" when missing or empty.
   */
  datatype FetchOutcome<B> =
    | FetchThrew(errorMessage: string)
    | BodyUnparsable(status: int)
    | BodyParsed(status: int, statusText: string, body: B, bodyMessage: string)

  /** `response.ok`. */
  predicate IsOk(status: int) {
    200 <= status <= 299
  }

  const ConnectionError: string := "Erro de conex\U{00E3}o com o servidor"

  function UnparsableMessage(status: int): string {
    "Erro de comunica\U{00E7}\U{00E3}o com o servidor (" + IntToDec(status) + ")"
  }

  function StatusMessage(status: int, statusText: string): string {
    "Erro " + IntToDec(status) + ": " + statusText
  }

  /** `a || b` on strings. */
  function OrElse(a: string, b: string): string {
    if a != "" then a else b
  }

  /** The envelope `apiRequest` resolves to once the request has been sent. */
  function Normalize<B>(outcome: FetchOutcome<B>): (e: Envelope<B>)
    ensures WellFormed(e)
    ensures e.success <==> outcome.BodyParsed? && IsOk(outcome.status)
    ensures e.success ==> e.result == Some(outcome.body)
    ensures outcome.FetchThrew? ==> e.message == Some(OrElse(outcome.errorMessage, ConnectionError))
    ensures outcome.BodyUnparsable? ==> e.message == Some(UnparsableMessage(outcome.status))
    ensures outcome.BodyParsed? && !IsOk(outcome.status) ==>
      e.message == Some(OrElse(outcome.bodyMessage, StatusMessage(outcome.status, outcome.statusText)))
  {
    match outcome
    case FetchThrew(m) => Envelope(false, None, Some(OrElse(m, ConnectionError)))
    case BodyUnparsable(status) => Envelope(false, None, Some(UnparsableMessage(status)))
    case BodyParsed(status, statusText, body, m) =>
      if IsOk(status) then Envelope(true, Some(body), None)
      else Envelope(false, None, Some(OrElse(m, StatusMessage(status, statusText))))
  }

  /** The status of an unparsable response can be read back from its message. */
  lemma UnparsableMessageNamesStatus(s1: int, s2: int)
    requires UnparsableMessage(s1) == UnparsableMessage(s2)
    ensures s1 == s2
  {
    var prefix := "Erro de comunica\U{00E7}\U{00E3}o com o servidor (";
    var m1, m2 := UnparsableMessage(s1), UnparsableMessage(s2);
    assert IntToDec(s1) == m1[|prefix|..|m1| - 1];
    assert IntToDec(s2) == m2[|prefix|..|m2| - 1];
    IntToDecInjective(s1, s2);
  }

  // ---------------------------------------------------------------------------
  // Request construction
  // ---------------------------------------------------------------------------

  type Headers = map<string, string>

  /** The request handed to `fetch`; `body` is the value that gets serialised. */
  datatype Request<D> = Request(url: string, verb: string, headers: Headers, body: Option<D>)

  /** Reading `token` from the store either yields a value ("" when absent) or rejects. */
  datatype TokenRead = TokenValue(token: string) | TokenReadFailed

  /**
   * The default `Content-Type`, overridden by the caller's headers, and an
   * `Authorization` header when a token is stored, overriding the caller's.
   */
  function BuildHeaders(caller: Headers, token: string): (h: Headers)
    ensures forall k :: k in h <==> k in caller || k == "Content-Type" || (k == "Authorization" && token != "")
    ensures h["Content-Type"] == if "Content-Type" in caller then caller["Content-Type"] else "application/json"
    ensures token != "" ==> h["Authorization"] == "Bearer " + token
    ensures forall k :: k in caller && (k != "Authorization" || token == "") ==> h[k] == caller[k]
  {
    var merged := map["Content-Type" := "application/json"] + caller;
    if token != "" then merged["Authorization" := "Bearer " + token] else merged
  }

  function BuildRequest<D>(endpoint: string, verb: string, data: Option<D>, headers: Headers, token: string): Request<D> {
    Request(BaseUrl + endpoint, verb, BuildHeaders(headers, token), data)
  }

  /** What an `apiRequest` call comes to: a rejected promise, or a request sent and its envelope. */
  datatype Call<D, B> = Rejected | Sent(request: Request<D>, envelope: Envelope<B>)

  /**
   * `apiRequest(endpoint, verb, data, headers)`: the token read happens
   * before the `try`, so its failure rejects the call; everything after it
   * resolves to an envelope.
   */
  function ApiRequest<D, B>(endpoint: string, verb: string, data: Option<D>, headers: Headers,
                            token: TokenRead, outcome: FetchOutcome<B>): (c: Call<D, B>)
    ensures c.Rejected? <==> token.TokenReadFailed?
    ensures c.Sent? ==> WellFormed(c.envelope) && c.request.verb == verb
    ensures c.Sent? ==> c.request.url == BaseUrl + endpoint
    ensures c.Sent? ==> (c.request.body.Some? <==> data.Some?)
    ensures c.Sent? ==> ("Authorization" in c.request.headers <==> token.token != "" || "Authorization" in headers)
    ensures c.Sent? ==> c.request.headers == BuildHeaders(headers, token.token) && c.request.body == data
    ensures c.Sent? ==> c.envelope == Normalize(outcome)
  {
    match token
    case TokenReadFailed => Rejected
    case TokenValue(t) => Sent(BuildRequest(endpoint, verb, data, headers, t), Normalize(outcome))
  }

  /** Once the token is read, nothing that happens on the wire makes the call reject. */
  lemma ApiRequestNeverRejectsAfterToken<D, B>(endpoint: string, verb: string, data: Option<D>,
                                               headers: Headers, t: string, outcome: FetchOutcome<B>)
    ensures var c := ApiRequest(endpoint, verb, data, headers, TokenValue(t), outcome);
      c.Sent? && c.envelope.success == (outcome.BodyParsed? && IsOk(outcome.status))
  {
  }

  // ---------------------------------------------------------------------------
  // The endpoint table
  // ---------------------------------------------------------------------------

  /** A JSON object passed through unchanged (registration data, credentials, preferences). */
  type Fields = map<string, string>

  datatype Payload = Forwarded(fields: Fields) | AmountBody(amount: int) | EmailBody(email: string)

  /** The methods of the `API` object with their arguments; amounts are in cents. */
  datatype ApiMethod =
    | Register(userData: Option<Fields>)
    | Login(credentials: Option<Fields>)
    | ValidateToken
    | ValidateAdminToken
    | GetUserData
    | GetChartData
    | GetProfileByPhone(phone: string)
    | GetUserCasinoAccounts
    | GetUserTransactions
    | GetUserDebts
    | GetUserWithdrawals(page: int, limit: int)
    | GetProfits
    | GetPreferences
    | UpdatePreferences(preferences: Option<Fields>)
    | Withdraw(amount: int)
    | RecoverPasswordEmail(email: string)

  datatype Endpoint = Endpoint(path: string, verb: string, body: Option<Payload>)

  /** `getUserWithdrawals()` with its default arguments. */
  const DefaultWithdrawals: ApiMethod := GetUserWithdrawals(1, 100000)

  function Forward(f: Option<Fields>): Option<Payload> {
    match f
    case None => None
    case Some(fields) => Some(Forwarded(fields))
  }

  function WithdrawalsPath(page: int, limit: int): string {
    "/users/me/withdrawals?page=" + IntToDec(page) + "&limit=" + IntToDec(limit)
  }

  function EndpointOf(m: ApiMethod): Endpoint {
    match m
    case Register(d) => Endpoint("/auth/register", "POST", Forward(d))
    case Login(d) => Endpoint("/auth/login", "POST", Forward(d))
    case ValidateToken => Endpoint("/auth/validateToken", "GET", None)
    case ValidateAdminToken => Endpoint("/auth/adminAuthenticated", "GET", None)
    case GetUserData => Endpoint("/users/me", "GET", None)
    case GetChartData => Endpoint("/users/me/chart-data", "GET", None)
    case GetProfileByPhone(phone) => Endpoint("/profiles/by-phone/" + phone, "GET", None)
    case GetUserCasinoAccounts => Endpoint("/users/me/casino-accounts", "GET", None)
    case GetUserTransactions => Endpoint("/users/me/transactions", "GET", None)
    case GetUserDebts => Endpoint("/users/me/debts", "GET", None)
    case GetUserWithdrawals(page, limit) => Endpoint(WithdrawalsPath(page, limit), "GET", None)
    case GetProfits => Endpoint("/users/me/profits", "GET", None)
    case GetPreferences => Endpoint("/users/me/preferences", "GET", None)
    case UpdatePreferences(d) => Endpoint("/users/me/preferences", "PUT", Forward(d))
    case Withdraw(amount) => Endpoint("/users/me/withdraw", "POST", Some(AmountBody(amount)))
    case RecoverPasswordEmail(email) => Endpoint("/auth/forgot-password", "POST", Some(EmailBody(email)))
  }

  /** The request a method sends, given the stored token. */
  function RequestOf(m: ApiMethod, token: string): (r: Request<Payload>)
    ensures r.url == BaseUrl + EndpointOf(m).path
    ensures r.body == EndpointOf(m).body
  {
    var e := EndpointOf(m);
    BuildRequest(e.path, e.verb, e.body, map[], token)
  }

  /** Reads carry no body; writes carry the argument they were given. */
  lemma EndpointBodies(m: ApiMethod)
    ensures EndpointOf(m).verb == "GET" ==> EndpointOf(m).body.None?
    ensures EndpointOf(m).body.Some? <==>
      (m.Register? && m.userData.Some?) || (m.Login? && m.credentials.Some?) ||
      (m.UpdatePreferences? && m.preferences.Some?) || m.Withdraw? || m.RecoverPasswordEmail?
    ensures m.Withdraw? ==> EndpointOf(m) == Endpoint("/users/me/withdraw", "POST", Some(AmountBody(m.amount)))
  {
  }

  /** Different methods or arguments reach different endpoints. */
  lemma EndpointOfInjective(a: ApiMethod, b: ApiMethod)
    requires EndpointOf(a) == EndpointOf(b)
    ensures a == b
  {
    var ea := EndpointOf(a);
    if a.GetProfileByPhone? {
      ProfilePathInjective(a, b);
    } else if a.GetUserWithdrawals? {
      WithdrawalsPathOnly(a, b);
    } else if b.GetProfileByPhone? {
      ProfilePathInjective(b, a);
    } else if b.GetUserWithdrawals? {
      WithdrawalsPathOnly(b, a);
    }
  }

  lemma ProfilePathInjective(a: ApiMethod, b: ApiMethod)
    requires a.GetProfileByPhone? && EndpointOf(a) == EndpointOf(b)
    ensures a == b
  {
    var prefix := "/profiles/by-phone/";
    var p := EndpointOf(a).path;
    assert p[..|prefix|] == prefix;
    PathSecondChar(a);
    PathSecondChar(b);
    if b.GetProfileByPhone? {
      assert a.phone == p[|prefix|..];
      assert b.phone == p[|prefix|..];
    }
  }

  /** Only profile lookups live under `/p...`. */
  lemma PathSecondChar(m: ApiMethod)
    ensures |EndpointOf(m).path| > 1
    ensures EndpointOf(m).path[1] == 'p' <==> m.GetProfileByPhone?
  {
    if m.Register? || m.Login? || m.ValidateToken? || m.ValidateAdminToken? || m.RecoverPasswordEmail? {
      AuthPaths(m);
    } else if !m.GetProfileByPhone? {
      UserPaths(m);
    }
  }

  lemma AuthPaths(m: ApiMethod)
    requires m.Register? || m.Login? || m.ValidateToken? || m.ValidateAdminToken? || m.RecoverPasswordEmail?
    ensures |EndpointOf(m).path| > 1 && EndpointOf(m).path[1] == 'a'
  {
  }

  lemma UserPaths(m: ApiMethod)
    requires !(m.Register? || m.Login? || m.ValidateToken? || m.ValidateAdminToken? || m.RecoverPasswordEmail?)
    requires !m.GetProfileByPhone?
    ensures |EndpointOf(m).path| > 1 && EndpointOf(m).path[1] == 'u'
  {
  }

  lemma WithdrawalsPathOnly(a: ApiMethod, b: ApiMethod)
    requires a.GetUserWithdrawals? && EndpointOf(a) == EndpointOf(b)
    ensures a == b
  {
    if b.GetUserWithdrawals? {
      WithdrawalsPathInjective(a.page, a.limit, b.page, b.limit);
    } else if b.GetProfileByPhone? {
      ProfilePathInjective(b, a);
    } else {
      FixedPathsShort(b);
    }
  }

  /** Every path without an argument in it is shorter than any withdrawals query. */
  lemma FixedPathsShort(m: ApiMethod)
    requires !m.GetProfileByPhone? && !m.GetUserWithdrawals?
    ensures |EndpointOf(m).path| <= 25
  {
  }

  /** The query string determines the page and the limit. */
  lemma WithdrawalsPathInjective(p1: int, l1: int, p2: int, l2: int)
    requires WithdrawalsPath(p1, l1) == WithdrawalsPath(p2, l2)
    ensures p1 == p2 && l1 == l2
  {
    NoAmpersand(p1);
    NoAmpersand(p2);
    QueryInjective(IntToDec(p1), IntToDec(l1), IntToDec(p2), IntToDec(l2));
    IntToDecInjective(p1, p2);
    IntToDecInjective(l1, l2);
  }

  lemma QueryInjective(a1: string, b1: string, a2: string, b2: string)
    requires '&' !in a1 && '&' !in a2
    requires "/users/me/withdrawals?page=" + a1 + "&limit=" + b1 == "/users/me/withdrawals?page=" + a2 + "&limit=" + b2
    ensures a1 == a2 && b1 == b2
  {
    var prefix, rest := "/users/me/withdrawals?page=", "&limit=";
    assert prefix + a1 + rest + b1 == prefix + (a1 + (rest + b1));
    assert prefix + a2 + rest + b2 == prefix + (a2 + (rest + b2));
    DropPrefix(prefix, a1 + (rest + b1), a2 + (rest + b2));
    SplitAtAmpersand(a1, rest + b1, a2, rest + b2);
    DropPrefix(rest, b1, b2);
  }

  lemma DropPrefix(prefix: string, x: string, y: string)
    requires prefix + x == prefix + y
    ensures x == y
  {
    assert x == (prefix + x)[|prefix|..];
    assert y == (prefix + y)[|prefix|..];
  }

  lemma NoAmpersand(i: int)
    ensures '&' !in IntToDec(i)
  {
    var s := IntToDec(i);
    if i < 0 {
      assert forall k :: 1 <= k < |s| ==> s[k] == s[1..][k - 1];
    }
  }

  /** Two strings that each begin their tail with the first '&' split the same way. */
  lemma SplitAtAmpersand(x1: string, y1: string, x2: string, y2: string)
    requires '&' !in x1 && '&' !in x2
    requires |y1| > 0 && y1[0] == '&' && |y2| > 0 && y2[0] == '&'
    requires x1 + y1 == x2 + y2
    ensures x1 == x2 && y1 == y2
  {
    var s := x1 + y1;
    assert s[..|x1|] == x1 && s[|x1|] == '&';
    assert s[..|x2|] == x2 && s[|x2|] == '&' by {
      assert s == x2 + y2;
    }
    IndexOfUnique(s, '&', |x1|);
    IndexOfUnique(s, '&', |x2|);
    assert y1 == s[|x1|..];
    assert y2 == (x2 + y2)[|x2|..];
  }
}
