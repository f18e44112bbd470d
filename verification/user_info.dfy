/**
 * The header of the dashboard: `updateBalance` shows the user's balance as
 * money and `updateUserInfo` the user's name cut to its first and last words.
 */
module UserInfo {
  import opened Wrappers
  import opened Text
  import opened Entities
  import opened Money

  /** `updateBalance`: the user's balance, or zero without a user. */
  function BalanceText(user: Option<User>): (r: string)
    ensures ParseMoney(r) == Some(if user.Some? then user.value.balance else 0)
  {
    var b := if user.Some? then user.value.balance else 0;
    ParseFormatMoney(b);
    FormatMoney(Cents(b))
  }

  // ---------------------------------------------------------------------------
  // The user's name
  // ---------------------------------------------------------------------------

  /** Keeps the first and the last of the parts (the only one, when there is one). */
  function FirstAndLast(parts: seq<string>): string
    requires |parts| >= 1
  {
    if |parts| == 1 then parts[0] else parts[0] + " " + parts[|parts| - 1]
  }

  /** `updateUserInfo`: the full name cut to its first and last words. */
  function DisplayName(user: Option<User>): string {
    if user.Some? && user.value.fullname != "" then FirstAndLast(Split(user.value.fullname, ' '))
    else "Utilizador"
  }

  /**
   * The name is what precedes the first space, a space, and what follows the
   * last one; a name without spaces is kept whole.
   */
  lemma DisplayNameRule(user: Option<User>)
    ensures user.None? || user.value.fullname == "" ==> DisplayName(user) == "Utilizador"
    ensures user.Some? && user.value.fullname != "" ==>
      var n := user.value.fullname;
      DisplayName(user) == if ' ' in n then n[..IndexOf(n, ' ')] + " " + n[LastIndexOf(n, ' ') + 1..] else n
  {
    if user.Some? && user.value.fullname != "" {
      FirstAndLastRule(user.value.fullname);
    }
  }

  lemma FirstAndLastRule(n: string)
    ensures FirstAndLast(Split(n, ' ')) == if ' ' in n then n[..IndexOf(n, ' ')] + " " + n[LastIndexOf(n, ' ') + 1..] else n
  {
    if ' ' in n {
      NameWithSpace(n);
    } else {
      SplitNone(n, ' ');
    }
  }

  lemma NameWithSpace(n: string)
    requires ' ' in n
    ensures FirstAndLast(Split(n, ' ')) == n[..IndexOf(n, ' ')] + " " + n[LastIndexOf(n, ' ') + 1..]
  {
    var parts := Split(n, ' ');
    SplitEnds(n, ' ');
    var first, last := parts[0], parts[|parts| - 1];
    assert FirstAndLast(parts) == first + " " + last;
  }
}
