/**
 * The session guard: `findSession`, `findAdminSession` and `logout` as
 * transitions over the key-value store that holds `token` and `rememberMe`.
 * Token validation is an oracle; navigation is recorded as the page the
 * guard redirects to.
 */
module Session {
  import opened Wrappers

  type Storage = map<string, string>

  const TokenKey: string := "token"
  const RememberMeKey: string := "rememberMe"
  const LoginPage: string := "./login.html"

  /** `getItem('token')` is truthy: present and not empty. */
  predicate HasToken(s: Storage) {
    TokenKey in s && s[TokenKey] != ""
  }

  /** What validating the token against the server came to. */
  datatype Validation = Validated(success: bool) | ValidationThrew

  /** The value a guard resolves to, the store afterwards and where the window was sent. */
  datatype Outcome = Outcome(result: bool, storage: Storage, redirect: Option<string>)

  /** A guard without a `catch` can also reject, leaving the store as it was. */
  datatype Completion = Resolved(outcome: Outcome) | Rejected(storage: Storage)

  function RedirectIf(redirectLogin: bool): (r: Option<string>)
    ensures r.Some? <==> redirectLogin
    ensures r.Some? ==> r.value == LoginPage
  {
    if redirectLogin then Some(LoginPage) else None
  }

  /** Forgets the login: removes `token` and `rememberMe`, keeps everything else. */
  function ClearLogin(s: Storage): (r: Storage)
    ensures TokenKey !in r && RememberMeKey !in r
    ensures forall k :: k in r <==> k in s && k != TokenKey && k != RememberMeKey
    ensures forall k :: k in r ==> r[k] == s[k]
  {
    s - {TokenKey, RememberMeKey}
  }

  /**
   * `findSession(redirectLogin)`: with no token, false; with a token, the
   * server's verdict, and on a rejection or a thrown validation the login is
   * forgotten.
   */
  function FindSession(s: Storage, redirectLogin: bool, validation: Validation): (o: Outcome)
    ensures o.result <==> HasToken(s) && validation == Validated(true)
    ensures o.result ==> o.storage == s && o.redirect.None?
    ensures !HasToken(s) ==> o.storage == s
    ensures HasToken(s) && !o.result ==> o.storage == ClearLogin(s)
    ensures !o.result ==> o.redirect == RedirectIf(redirectLogin)
  {
    if !HasToken(s) then Outcome(false, s, RedirectIf(redirectLogin))
    else
      match validation
      case Validated(true) => Outcome(true, s, None)
      case _ => Outcome(false, ClearLogin(s), RedirectIf(redirectLogin))
  }

  /**
   * `findAdminSession(redirectLogin)`: like `findSession`, except that a
   * rejection removes only the token and a thrown validation propagates.
   */
  function FindAdminSession(s: Storage, redirectLogin: bool, validation: Validation): (c: Completion)
    ensures c.Rejected? <==> HasToken(s) && validation.ValidationThrew?
    ensures c.Rejected? ==> c.storage == s
    ensures c.Resolved? ==> (c.outcome.result <==> HasToken(s) && validation == Validated(true))
    ensures c.Resolved? && c.outcome.result ==> c.outcome.storage == s && c.outcome.redirect.None?
    ensures c.Resolved? && !c.outcome.result ==> c.outcome.redirect == RedirectIf(redirectLogin)
    ensures c.Resolved? && !c.outcome.result && HasToken(s) ==> c.outcome.storage == s - {TokenKey}
    ensures !HasToken(s) ==> c == Resolved(Outcome(false, s, RedirectIf(redirectLogin)))
  {
    if !HasToken(s) then Resolved(Outcome(false, s, RedirectIf(redirectLogin)))
    else
      match validation
      case ValidationThrew => Rejected(s)
      case Validated(true) => Resolved(Outcome(true, s, None))
      case Validated(false) => Resolved(Outcome(false, s - {TokenKey}, RedirectIf(redirectLogin)))
  }

  /** `logout()`: forget the login and go to the login page. */
  function Logout(s: Storage): (r: (Storage, string))
    ensures !HasToken(r.0) && RememberMeKey !in r.0
    ensures forall k :: k in r.0 <==> k in s && k != TokenKey && k != RememberMeKey
    ensures forall k :: k in r.0 ==> r.0[k] == s[k]
    ensures r.1 == LoginPage
  {
    (ClearLogin(s), LoginPage)
  }

  /** A session that was found is backed by a stored token. */
  lemma FoundSessionHasToken(s: Storage, redirectLogin: bool, validation: Validation)
    ensures FindSession(s, redirectLogin, validation).result ==> HasToken(s)
    ensures FindSession(s, redirectLogin, validation).result ==> HasToken(FindSession(s, redirectLogin, validation).storage)
  {
  }

  /**
   * A failed check is final: checking again, whatever the server would say,
   * fails without touching the store any further.
   */
  lemma FailedSessionIsFinal(s: Storage, redirectLogin: bool, v1: Validation, v2: Validation)
    requires !FindSession(s, redirectLogin, v1).result
    ensures var s1 := FindSession(s, redirectLogin, v1).storage;
      FindSession(s1, redirectLogin, v2) == Outcome(false, s1, RedirectIf(redirectLogin))
  {
  }

  /** After a logout no session is found and the store has nothing left to clear. */
  lemma NoSessionAfterLogout(s: Storage, redirectLogin: bool, v: Validation)
    ensures var s1 := Logout(s).0;
      !FindSession(s1, redirectLogin, v).result && FindSession(s1, redirectLogin, v).storage == s1
    ensures Logout(Logout(s).0) == Logout(s)
  {
    var s1 := Logout(s).0;
    var s2 := ClearLogin(s1);
    assert forall k :: k in s2 <==> k in s1;
    assert forall k :: k in s2 ==> s2[k] == s1[k];
    assert s2 == s1;
  }

  /** A failed admin check keeps the "remember me" choice that a failed user check forgets. */
  lemma AdminFailureKeepsRememberMe(s: Storage, redirectLogin: bool)
    requires HasToken(s) && RememberMeKey in s
    ensures var c := FindAdminSession(s, redirectLogin, Validated(false));
      c.Resolved? && RememberMeKey in c.outcome.storage && c.outcome.storage[RememberMeKey] == s[RememberMeKey]
    ensures RememberMeKey !in FindSession(s, redirectLogin, Validated(false)).storage
  {
  }
}
