/**
 * The casino accounts page: accounts grouped by casino in the order the
 * casinos first appear, the status badge, logo, header and card texts, what
 * the page shows for each shape of the server's answer, and the search box.
 * Rendering is modelled by the values the DOM would be filled with.
 */
module CasinoAccounts {
  import opened Wrappers
  import opened Text
  import opened Lists
  import opened Sums
  import Api

  /** An account as the server sends it; a missing field is "". */
  datatype Account = Account(
    accountId: nat,
    casinoName: string,
    fullName: string,
    nif: string,
    citizenCard: string,
    iban: string,
    status: string)

  // ---------------------------------------------------------------------------
  // grouping by casino
  // ---------------------------------------------------------------------------

  const UnknownCasino: string := "Casino Desconhecido"

  /** `account.casino_name || 'Casino Desconhecido'`. */
  function CasinoKey(a: Account): (k: string)
    ensures k != ""
    ensures a.casinoName != "" ==> k == a.casinoName
    ensures a.casinoName == "" ==> k == UnknownCasino
  {
    if a.casinoName != "" then a.casinoName else UnknownCasino
  }

  function CasinoKeys(accounts: seq<Account>): (ks: seq<string>)
    ensures |ks| == |accounts|
    ensures forall i :: 0 <= i < |accounts| ==> ks[i] == CasinoKey(accounts[i])
  {
    if |accounts| == 0 then []
    else
      var n := |accounts| - 1;
      assert forall i :: 0 <= i < n ==> accounts[..n][i] == accounts[i];
      CasinoKeys(accounts[..n]) + [CasinoKey(accounts[n])]
  }

  /** The groups object, as casino names with their accounts in key order. */
  type Groups = seq<(string, seq<Account>)>

  /** `groups[k] || []`. */
  function GroupOf(g: Groups, k: string): seq<Account> {
    if |g| == 0 then [] else if g[0].0 == k then g[0].1 else GroupOf(g[1..], k)
  }

  /** The number of accounts over all groups. */
  function GroupedCount(g: Groups): nat {
    if |g| == 0 then 0 else |g[0].1| + GroupedCount(g[1..])
  }

  /** Every group holds at least one account. */
  predicate NoEmptyGroup(g: Groups) {
    forall i :: 0 <= i < |g| ==> |g[i].1| > 0
  }

  /** One step of the reduce: push `a` onto the group of `key`, creating it at the end when new. */
  function AddTo(g: Groups, key: string, a: Account): (r: Groups)
    ensures |r| == |g| || |r| == |g| + 1
    ensures GroupOf(r, key) == GroupOf(g, key) + [a]
  {
    if |g| == 0 then [(key, [a])]
    else if g[0].0 == key then [(key, g[0].1 + [a])] + g[1..]
    else
      var r := [g[0]] + AddTo(g[1..], key, a);
      assert r[1..] == AddTo(g[1..], key, a);
      r
  }

  /** A new casino is appended to the keys; a known one leaves them as they were. */
  lemma {:induction false} AddToKeys(g: Groups, key: string, a: Account)
    ensures Keys(AddTo(g, key, a)) == if key in Keys(g) then Keys(g) else Keys(g) + [key]
  {
    if |g| > 0 {
      var r := AddTo(g, key, a);
      KeysCons(g);
      KeysCons(r);
      if g[0].0 != key {
        AddToKeys(g[1..], key, a);
        assert r[1..] == AddTo(g[1..], key, a);
      } else {
        assert r[1..] == g[1..];
      }
    }
  }

  /** Only the group of `key` changes, and it gains `a` at its end. */
  lemma {:induction false} AddToGroupOf(g: Groups, key: string, a: Account, k: string)
    ensures GroupOf(AddTo(g, key, a), k) == if k == key then GroupOf(g, k) + [a] else GroupOf(g, k)
  {
    if |g| > 0 && g[0].0 != key {
      AddToGroupOf(g[1..], key, a, k);
      assert AddTo(g, key, a)[1..] == AddTo(g[1..], key, a);
    }
  }

  /** One more account in all, and no group left empty. */
  lemma {:induction false} AddToCount(g: Groups, key: string, a: Account)
    ensures GroupedCount(AddTo(g, key, a)) == GroupedCount(g) + 1
    ensures NoEmptyGroup(g) ==> NoEmptyGroup(AddTo(g, key, a))
  {
    if |g| > 0 {
      var r := AddTo(g, key, a);
      if g[0].0 == key {
        assert r[1..] == g[1..];
      } else {
        AddToCount(g[1..], key, a);
        assert r[1..] == AddTo(g[1..], key, a);
      }
    }
  }

  /** `groupByCasino(accounts)`: the reduce over the accounts from the first to the last. */
  function GroupByCasino(accounts: seq<Account>): (g: Groups)
    ensures GroupedCount(g) == |accounts|
    ensures NoEmptyGroup(g)
  {
    if |accounts| == 0 then []
    else
      var a := accounts[|accounts| - 1];
      var g0 := GroupByCasino(accounts[..|accounts| - 1]);
      AddToCount(g0, CasinoKey(a), a);
      AddTo(g0, CasinoKey(a), a)
  }

  lemma GroupByCasinoStep(accounts: seq<Account>)
    requires |accounts| > 0
    ensures var a := accounts[|accounts| - 1];
      GroupByCasino(accounts) == AddTo(GroupByCasino(accounts[..|accounts| - 1]), CasinoKey(a), a)
  {
  }

  /** The test an account passes to belong to the group of `k`. */
  function InCasino(k: string): Account -> bool {
    a => CasinoKey(a) == k
  }

  /** The casinos appear once each, in the order of their first account. */
  lemma {:induction false} GroupKeys(accounts: seq<Account>)
    ensures Keys(GroupByCasino(accounts)) == Dedup(CasinoKeys(accounts))
  {
    if |accounts| > 0 {
      var n := |accounts| - 1;
      var init := accounts[..n];
      var key := CasinoKey(accounts[n]);
      var g := GroupByCasino(init);
      var d := Dedup(CasinoKeys(init));
      GroupKeys(init);
      assert Keys(g) == d;
      GroupByCasinoStep(accounts);
      AddToKeys(g, key, accounts[n]);
      var ks := CasinoKeys(init) + [key];
      assert CasinoKeys(accounts) == ks;
      DedupSnoc(CasinoKeys(init), key);
      var e := if key in d then d else d + [key];
      assert Keys(GroupByCasino(accounts)) == e;
      assert Dedup(ks) == e;
    }
  }

  /** The group of a casino holds exactly its accounts, in their original order. */
  lemma {:induction false} GroupContents(accounts: seq<Account>, k: string)
    ensures GroupOf(GroupByCasino(accounts), k) == Filter(accounts, InCasino(k))
  {
    if |accounts| > 0 {
      var n := |accounts| - 1;
      var init, last := accounts[..n], accounts[n];
      GroupContents(init, k);
      GroupByCasinoStep(accounts);
      AddToGroupOf(GroupByCasino(init), CasinoKey(last), last, k);
      FilterLast(accounts, InCasino(k));
    }
  }

  /** Every account is in the group of its own casino and in no other. */
  lemma AccountInItsGroup(accounts: seq<Account>, a: Account, k: string)
    requires a in accounts
    ensures a in GroupOf(GroupByCasino(accounts), k) <==> k == CasinoKey(a)
  {
    GroupContents(accounts, k);
    var i :| 0 <= i < |accounts| && accounts[i] == a;
  }

  // ---------------------------------------------------------------------------
  // status badge, logo and texts
  // ---------------------------------------------------------------------------

  datatype Badge = Badge(cssClass: string, text: string, icon: string)

  const KnownStatuses: seq<string> := ["ACTIVE", "INACTIVE", "PENDING", "BLOCKED"]
  const UnknownBadge: Badge := Badge("status-inactive", "Desconhecido", "fas fa-question-circle")

  /** `getStatusInfo(status)`: the badge of one of the four statuses, the fallback otherwise. */
  function StatusBadge(status: string): (b: Badge)
    ensures b.text == "Desconhecido" <==> status !in KnownStatuses
    ensures status !in KnownStatuses ==> b == UnknownBadge
    ensures b.cssClass == "status-inactive" <==> status == "INACTIVE" || status !in KnownStatuses
  {
    if status == "ACTIVE" then Badge("status-active", "Ativa", "fas fa-check-circle")
    else if status == "INACTIVE" then Badge("status-inactive", "Inativa", "fas fa-times-circle")
    else if status == "PENDING" then Badge("status-pending", "Pendente", "fas fa-clock")
    else if status == "BLOCKED" then Badge("status-blocked", "Bloqueada", "fas fa-ban")
    else UnknownBadge
  }

  /** Reads the status back from the text of its badge. */
  function StatusOfText(text: string): Option<string> {
    if text == "Ativa" then Some("ACTIVE")
    else if text == "Inativa" then Some("INACTIVE")
    else if text == "Pendente" then Some("PENDING")
    else if text == "Bloqueada" then Some("BLOCKED")
    else None
  }

  /** The badge text names the status: distinct known statuses get distinct texts. */
  lemma StatusBadgeRoundTrip(status: string)
    ensures StatusOfText(StatusBadge(status).text) == if status in KnownStatuses then Some(status) else None
  {
  }

  const DefaultLogo: string := "https://bcibizz.pt/assets/images/default-casino.png"

  /** `CASINO_LOGOS`. */
  const CasinoLogos: seq<(string, string)> := [
    ("Betano", "https://bcibizz.pt/assets/images/betano.png"),
    ("Betclic", "https://bcibizz.pt/assets/images/betclic.png"),
    ("Bwin", "https://bcibizz.pt/assets/images/bwin.png"),
    ("Solverde", "https://bcibizz.pt/assets/images/solverde.png"),
    ("ESC Online", "https://bcibizz.pt/assets/images/esc.png"),
    ("Placard", "https://bcibizz.pt/assets/images/placard.png"),
    ("LeBull", "https://bcibizz.pt/assets/images/lebull.png"),
    ("default", DefaultLogo)
  ]

  /** `table[k]` on an object literal: the value of the first entry named `k`. */
  function Find(table: seq<(string, string)>, k: string): (r: Option<string>)
    ensures r.Some? ==> (k, r.value) in table
    ensures r.None? ==> forall i :: 0 <= i < |table| ==> table[i].0 != k
  {
    if |table| == 0 then None
    else if table[0].0 == k then Some(table[0].1)
    else
      var r := Find(table[1..], k);
      assert r.Some? ==> (k, r.value) in table[1..];
      assert forall i :: 1 <= i < |table| ==> table[i] == table[1..][i - 1];
      r
  }

  /** The casinos with a logo of their own. */
  const LogoCasinos: seq<string> := ["Betano", "Betclic", "Bwin", "Solverde", "ESC Online", "Placard", "LeBull"]

  /** `CASINO_LOGOS[casinoName] || CASINO_LOGOS.default`. */
  function Logo(casinoName: string): (url: string)
    ensures url == DefaultLogo <==> casinoName !in LogoCasinos
    ensures url == DefaultLogo || (casinoName, url) in CasinoLogos
  {
    var r := Find(CasinoLogos, casinoName);
    assert forall i :: 0 <= i < |LogoCasinos| ==> LogoCasinos[i] == CasinoLogos[i].0;
    if r.Some? then r.value else DefaultLogo
  }

  /** Two casinos with a logo of their own never share it. */
  lemma LogoInjective(c1: string, c2: string)
    requires Logo(c1) == Logo(c2) && Logo(c1) != DefaultLogo
    ensures c1 == c2
  {
    var url := Logo(c1);
    var i :| 0 <= i < |CasinoLogos| && CasinoLogos[i] == (c1, url);
    var j :| 0 <= j < |CasinoLogos| && CasinoLogos[j] == (c2, url);
    LogoUrlsDistinct(i, j);
  }

  /** No two entries of the logo table share a picture. */
  lemma LogoUrlsDistinct(i: nat, j: nat)
    requires i < |CasinoLogos| && j < |CasinoLogos| && CasinoLogos[i].1 == CasinoLogos[j].1
    ensures i == j
  {
  }

  /** `count === 1 ? 'conta' : 'contas'`. */
  function CountWord(count: nat): (w: string)
    ensures w == "conta" <==> count == 1
    ensures w == "conta" || w == "contas"
  {
    if count == 1 then "conta" else "contas"
  }

  /** The header of one casino group. */
  datatype GroupHeader = GroupHeader(logo: string, title: string, countLabel: string)

  /** `createCasinoGroup(casinoName, accounts)` without the cards. */
  function Header(casinoName: string, accounts: seq<Account>): (h: GroupHeader)
    ensures h.title == casinoName && h.logo == Logo(casinoName)
    ensures h.countLabel == NatToDec(|accounts|) + " " + CountWord(|accounts|)
  {
    GroupHeader(Logo(casinoName), casinoName, NatToDec(|accounts|) + " " + CountWord(|accounts|))
  }

  /**
   * The header of a casino's group says "conta" exactly when one account has
   * that casino, and never counts zero accounts.
   */
  lemma HeaderCount(accounts: seq<Account>, i: nat)
    requires i < |GroupByCasino(accounts)|
    ensures var (k, group) := GroupByCasino(accounts)[i];
      |group| > 0
      && group == Filter(accounts, InCasino(k))
      && (CountWord(|group|) == "conta" <==> |Filter(accounts, InCasino(k))| == 1)
  {
    var g := GroupByCasino(accounts);
    GroupKeys(accounts);
    GroupOfDistinct(g, i);
    GroupContents(accounts, g[i].0);
  }

  /**
   * The header drawn for a casino's group is titled with the casino, shows its
   * logo, and counts the accounts that have that casino in decimal, followed by
   * "conta" exactly when the count is one.
   */
  lemma HeaderOfGroup(accounts: seq<Account>, i: nat)
    requires i < |GroupByCasino(accounts)|
    ensures var (k, group) := GroupByCasino(accounts)[i];
      var n := |group|;
      var c := Header(k, group).countLabel;
      && n == |Filter(accounts, InCasino(k))| && n > 0
      && Header(k, group).title == k
      && Header(k, group).logo == Logo(k)
      && c == NatToDec(n) + " " + CountWord(n)
      && (CountWord(n) == "conta" <==> n == 1)
  {
    var g := GroupByCasino(accounts);
    HeaderCount(accounts, i);
    HeaderReadsBack(g[i].0, g[i].1);
  }

  /**
   * A header is titled with its casino and shows its logo, and the number in
   * its count label reads back as the size of its group.
   */
  lemma HeaderReadsBack(k: string, group: seq<Account>)
    ensures var h := Header(k, group);
      var n := |group|;
      && h.title == k && h.logo == Logo(k)
      && h.countLabel == NatToDec(n) + " " + CountWord(n)
      && AllDigits(h.countLabel[..|h.countLabel| - |CountWord(n)| - 1])
      && ParseDec(h.countLabel[..|h.countLabel| - |CountWord(n)| - 1]) == n
  {
    var c := Header(k, group).countLabel;
    assert c[..|c| - |CountWord(|group|)| - 1] == NatToDec(|group|);
    ParseNatToDec(|group|);
  }

  /** In a groups list whose keys are distinct, the lookup of a key finds its own entry. */
  lemma {:induction false} GroupOfDistinct(g: Groups, i: nat)
    requires i < |g| && Distinct(Keys(g))
    ensures GroupOf(g, g[i].0) == g[i].1
  {
    if i > 0 {
      assert Keys(g[1..]) == Keys(g)[1..];
      assert Keys(g)[0] != Keys(g)[i];
      GroupOfDistinct(g[1..], i - 1);
    }
  }

  const NotSpecified: string := "N\U{00E3}o especificado"

  /** `field || 'Não especificado'`. */
  function FieldOrDefault(field: string): (shown: string)
    ensures shown != ""
    ensures field != "" ==> shown == field
    ensures field == "" ==> shown == NotSpecified
  {
    if field != "" then field else NotSpecified
  }

  /** The title of an account card. */
  function CardTitle(a: Account): (title: string)
    ensures a.fullName != "" ==> title == "Conta de " + a.fullName
    ensures a.fullName == "" ==> title == "Conta #" + NatToDec(a.accountId)
  {
    if a.fullName != "" then "Conta de " + a.fullName else "Conta #" + NatToDec(a.accountId)
  }

  /**
   * A card title tells which case it came from and identifies the owner's
   * name, or the account number when there is no name.
   */
  lemma CardTitleInjective(a: Account, b: Account)
    requires CardTitle(a) == CardTitle(b)
    ensures (a.fullName == "") == (b.fullName == "")
    ensures a.fullName != "" ==> a.fullName == b.fullName
    ensures a.fullName == "" ==> a.accountId == b.accountId
  {
    var t := CardTitle(a);
    assert t[6] == (if a.fullName != "" then 'd' else '#');
    assert t[6] == (if b.fullName != "" then 'd' else '#');
    if a.fullName != "" {
      assert a.fullName == t[9..] == b.fullName;
    } else {
      assert NatToDec(a.accountId) == t[7..] == NatToDec(b.accountId);
      IntToDecInjective(a.accountId, b.accountId);
    }
  }

  /** The four detail rows of a card: owner, NIF, citizen card and IBAN. */
  function Details(a: Account): (rows: seq<string>)
    ensures |rows| == 4
    ensures forall i :: 0 <= i < 4 ==> rows[i] != ""
    ensures rows[0] == FieldOrDefault(a.fullName) && rows[1] == FieldOrDefault(a.nif)
    ensures rows[2] == FieldOrDefault(a.citizenCard) && rows[3] == FieldOrDefault(a.iban)
  {
    [FieldOrDefault(a.fullName), FieldOrDefault(a.nif), FieldOrDefault(a.citizenCard), FieldOrDefault(a.iban)]
  }

  // ---------------------------------------------------------------------------
  // loading
  // ---------------------------------------------------------------------------

  /**
   * The shapes `response.result` can have: absent, an object whose `data` is
   * a list, an object without a usable `data`, or the list itself.
   */
  datatype AccountsResult =
    | ResultNull
    | Paged(data: seq<Account>)
    | PagedWithoutData
    | Listed(accounts: seq<Account>)

  const LoadFailed: string := "Erro ao carregar contas"
  const LoadThrew: string := "Erro ao carregar contas de casino"

  /** What the accounts container shows. */
  datatype View = ShowError(message: string) | EmptyState | ShowGroups(groups: Groups)

  /** The view, and `allAccounts` afterwards (None when it holds something that is not a list). */
  datatype Loaded = Loaded(view: View, allAccounts: Option<seq<Account>>)

  /** `response.result?.data || response.result || []`, None when that is not a list. */
  function AccountsOf(result: Option<AccountsResult>): (r: Option<seq<Account>>)
    ensures r.None? <==> result == Some(PagedWithoutData)
    ensures result.None? || result == Some(ResultNull) ==> r == Some([])
    ensures result.Some? && result.value.Paged? ==> r == Some(result.value.data)
    ensures result.Some? && result.value.Listed? ==> r == Some(result.value.accounts)
  {
    match result
    case None => Some([])
    case Some(ResultNull) => Some([])
    case Some(Paged(data)) => Some(data)
    case Some(PagedWithoutData) => None
    case Some(Listed(accounts)) => Some(accounts)
  }

  /** The accounts that would be shown if the page were rendered from them. */
  function ViewOf(accounts: seq<Account>): (v: View)
    ensures v == EmptyState <==> |accounts| == 0
    ensures v.ShowGroups? ==> v.groups == GroupByCasino(accounts)
  {
    if |accounts| == 0 then EmptyState else ShowGroups(GroupByCasino(accounts))
  }

  /**
   * `loadAccounts()`. A rejected call and a result that is not a list both
   * end in the `catch`; a failed envelope shows its message.
   */
  function LoadAccounts(call: Api.Call<Api.Payload, AccountsResult>): (l: Loaded)
    ensures call.Rejected? ==> l == Loaded(ShowError(LoadThrew), Some([]))
    ensures call.Sent? && !call.envelope.success ==>
      l == Loaded(ShowError(Api.OrElse(call.envelope.message.GetOr(""), LoadFailed)), Some([]))
    ensures call.Sent? && call.envelope.success && call.envelope.result == Some(PagedWithoutData) ==>
      l == Loaded(ShowError(LoadThrew), None)
    ensures l.view.ShowError? ==> l.view.message != ""
    ensures l.allAccounts.Some? && !l.view.ShowError? ==> l.view == ViewOf(l.allAccounts.value)
    ensures call.Sent? && call.envelope.success && call.envelope.result != Some(PagedWithoutData) ==>
      l == Loaded(ViewOf(AccountsOf(call.envelope.result).value), AccountsOf(call.envelope.result))
  {
    match call
    case Rejected => Loaded(ShowError(LoadThrew), Some([]))
    case Sent(_, envelope) =>
      if !envelope.success then
        Loaded(ShowError(Api.OrElse(envelope.message.GetOr(""), LoadFailed)), Some([]))
      else
        match AccountsOf(envelope.result)
        case None => Loaded(ShowError(LoadThrew), None)
        case Some(accounts) => Loaded(ViewOf(accounts), Some(accounts))
  }

  /** A successful answer shows every account it carries, grouped by casino, and no error. */
  lemma LoadShowsAllAccounts(call: Api.Call<Api.Payload, AccountsResult>, accounts: seq<Account>)
    requires call.Sent? && call.envelope.success
    requires call.envelope.result == Some(Paged(accounts)) || call.envelope.result == Some(Listed(accounts))
    requires |accounts| > 0
    ensures var l := LoadAccounts(call);
      l.view.ShowGroups? && GroupedCount(l.view.groups) == |accounts| && l.allAccounts == Some(accounts)
  {
  }

  /**
   * A successful answer whose result is absent, null or an empty list shows
   * the empty state and leaves no accounts to search.
   */
  lemma LoadEmptyState(call: Api.Call<Api.Payload, AccountsResult>)
    requires call.Sent? && call.envelope.success
    requires var r := call.envelope.result;
      r.None? || r == Some(ResultNull) || r == Some(Paged([])) || r == Some(Listed([]))
    ensures LoadAccounts(call) == Loaded(EmptyState, Some([]))
  {
  }

  // ---------------------------------------------------------------------------
  // search
  // ---------------------------------------------------------------------------

  const LineIndent: string := "                    "
  const ClosingIndent: string := "                "

  /** The text searched for an account, one field per indented line. */
  function SearchText(fields: seq<string>): (t: string)
    ensures |t| > 0 && t[0] == '\n'
  {
    if |fields| == 0 then "\n" + ClosingIndent
    else "\n" + LineIndent + fields[0] + SearchText(fields[1..])
  }

  /** The fields the search looks at, in template order. */
  function SearchFields(a: Account): seq<string> {
    [a.casinoName, a.fullName, a.nif, a.citizenCard, a.iban]
  }

  /** `e.target.value.toLowerCase().trim()`. */
  function Query(input: string): (q: string)
    ensures |q| > 0 ==> !IsWhitespace(q[0])
    ensures '\n' !in input ==> '\n' !in q
  {
    Trim(Lower(input))
  }

  /** Whether the lowered search text of `a` includes `q`. */
  predicate Matches(a: Account, q: string) {
    Contains(Lower(SearchText(SearchFields(a))), q)
  }

  function MatchesFn(q: string): Account -> bool {
    a => Matches(a, q)
  }

  /**
   * The search box, once its timer fires: an empty query shows every
   * account, otherwise the matching ones, or the empty state when none match.
   */
  function Search(allAccounts: seq<Account>, input: string): (v: View)
    ensures Query(input) == "" ==> v == ShowGroups(GroupByCasino(allAccounts))
    ensures Query(input) != "" ==> v == ViewOf(Filter(allAccounts, MatchesFn(Query(input))))
    ensures !v.ShowError?
  {
    var q := Query(input);
    if q == "" then ShowGroups(GroupByCasino(allAccounts))
    else ViewOf(Filter(allAccounts, MatchesFn(q)))
  }

  function LowerAll(fields: seq<string>): (r: seq<string>)
    ensures |r| == |fields|
    ensures forall i :: 0 <= i < |fields| ==> r[i] == Lower(fields[i])
  {
    seq(|fields|, i requires 0 <= i < |fields| => Lower(fields[i]))
  }

  /** Lowering the search text lowers each field and leaves the layout alone. */
  lemma {:induction false} LowerSearchText(fields: seq<string>)
    ensures Lower(SearchText(fields)) == SearchText(LowerAll(fields))
  {
    if |fields| == 0 {
      assert Lower("\n" + ClosingIndent) == "\n" + ClosingIndent;
    } else {
      var head := "\n" + LineIndent;
      assert Lower(head) == head;
      LowerAppend(head, fields[0]);
      LowerAppend(head + fields[0], SearchText(fields[1..]));
      LowerSearchText(fields[1..]);
      assert LowerAll(fields)[1..] == LowerAll(fields[1..]);
    }
  }

  lemma OccursRight(x: string, y: string, q: string, j: nat)
    ensures OccursAt(y, q, j) <==> OccursAt(x + y, q, |x| + j)
  {
    if j + |q| <= |y| {
      assert (x + y)[|x| + j..|x| + j + |q|] == y[j..j + |q|];
    }
  }

  lemma OccursLeft(x: string, y: string, q: string, j: nat)
    requires j + |q| <= |x|
    ensures OccursAt(x + y, q, j) <==> OccursAt(x, q, j)
  {
    assert (x + y)[j..j + |q|] == x[j..j + |q|];
  }

  /** The characters an occurrence covers are the query's characters. */
  lemma OccurrenceChars(text: string, q: string, i: nat)
    requires OccursAt(text, q, i)
    ensures forall p :: i <= p < i + |q| ==> text[p] == q[p - i]
  {
    assert forall p :: i <= p < i + |q| ==> text[p] == text[i..i + |q|][p - i];
  }

  /** A blank text includes only queries that start with whitespace. */
  lemma BlankText(t: string, q: string)
    requires |q| > 0
    requires forall p :: 0 <= p < |t| ==> IsWhitespace(t[p])
    ensures Contains(t, q) ==> IsWhitespace(q[0])
  {
    if Contains(t, q) {
      var i: nat :| i <= |t| && OccursAt(t, q, i);
      OccurrenceChars(t, q, i);
    }
  }

  /** An occurrence that cannot cover a line break lies on one side of the one that starts `b`. */
  lemma OccurrenceSide(a: string, b: string, q: string, i: nat)
    requires OccursAt(a + b, q, i) && |b| > 0 && b[0] == '\n' && '\n' !in q
    ensures i + |q| <= |a| ==> OccursAt(a, q, i)
    ensures i + |q| > |a| ==> i >= |a| && OccursAt(b, q, i - |a|)
  {
    OccurrenceChars(a + b, q, i);
    if i + |q| <= |a| {
      OccursLeft(a, b, q, i);
    } else {
      assert (a + b)[|a|] == '\n';
      OccursRight(a, b, q, i - |a|);
    }
  }

  /** After a blank indent, a query that starts with a visible character occurs in what follows. */
  lemma OccurrenceAfterIndent(head: string, f: string, q: string, i: nat)
    requires OccursAt(head + f, q, i) && |q| > 0 && !IsWhitespace(q[0])
    requires forall p :: 0 <= p < |head| ==> IsWhitespace(head[p])
    ensures Contains(f, q)
  {
    OccurrenceChars(head + f, q, i);
    assert !IsWhitespace((head + f)[i]);
    OccursRight(head, f, q, i - |head|);
  }

  /** An occurrence in the search text lies inside one of the fields. */
  lemma {:induction false} FoundInField(fields: seq<string>, q: string)
    requires |q| > 0 && !IsWhitespace(q[0]) && '\n' !in q
    ensures Contains(SearchText(fields), q) ==> exists k :: 0 <= k < |fields| && Contains(fields[k], q)
  {
    var t := SearchText(fields);
    if |fields| == 0 {
      assert forall p :: 0 <= p < |t| ==> IsWhitespace(t[p]);
      BlankText(t, q);
    } else if Contains(t, q) {
      var head := "\n" + LineIndent;
      var a := head + fields[0];
      var b := SearchText(fields[1..]);
      assert t == a + b;
      var i: nat :| i <= |t| && OccursAt(t, q, i);
      OccurrenceSide(a, b, q, i);
      if i + |q| <= |a| {
        assert forall p :: 0 <= p < |head| ==> IsWhitespace(head[p]);
        OccurrenceAfterIndent(head, fields[0], q, i);
      } else {
        FoundInField(fields[1..], q);
        var k :| 0 <= k < |fields[1..]| && Contains(fields[1..][k], q);
        assert fields[k + 1] == fields[1..][k];
      }
    }
  }

  /** A query one of the fields includes is in the search text. */
  lemma {:induction false} FieldInSearchText(fields: seq<string>, q: string, k: nat)
    requires k < |fields| && Contains(fields[k], q)
    ensures Contains(SearchText(fields), q)
  {
    var head := "\n" + LineIndent;
    var a := head + fields[0];
    var b := SearchText(fields[1..]);
    assert SearchText(fields) == a + b;
    if k == 0 {
      var j: nat :| j <= |fields[0]| && OccursAt(fields[0], q, j);
      OccursRight(head, fields[0], q, j);
      OccursLeft(a, b, q, |head| + j);
    } else {
      assert fields[1..][k - 1] == fields[k];
      FieldInSearchText(fields[1..], q, k - 1);
      var j: nat :| j <= |b| && OccursAt(b, q, j);
      OccursRight(a, b, q, j);
    }
  }

  /**
   * A query that starts with a visible character and holds no line break is
   * found in the search text exactly when one of the fields includes it.
   */
  lemma SearchTextContains(fields: seq<string>, q: string)
    requires |q| > 0 && !IsWhitespace(q[0]) && '\n' !in q
    ensures Contains(SearchText(fields), q) <==> exists k :: 0 <= k < |fields| && Contains(fields[k], q)
  {
    FoundInField(fields, q);
    if exists k :: 0 <= k < |fields| && Contains(fields[k], q) {
      var k :| 0 <= k < |fields| && Contains(fields[k], q);
      FieldInSearchText(fields, q, k);
    }
  }

  /**
   * What a search finds: for a query typed without a line break, an account
   * is kept exactly when one of its five fields, lowered, includes the query.
   */
  lemma SearchMatchesFields(a: Account, input: string)
    requires '\n' !in input && Query(input) != ""
    ensures var q := Query(input);
      Matches(a, q) <==>
        Contains(Lower(a.casinoName), q) || Contains(Lower(a.fullName), q) || Contains(Lower(a.nif), q)
        || Contains(Lower(a.citizenCard), q) || Contains(Lower(a.iban), q)
  {
    MatchesFields(a, Query(input));
  }

  lemma MatchesFields(a: Account, q: string)
    requires |q| > 0 && !IsWhitespace(q[0]) && '\n' !in q
    ensures Matches(a, q) <==>
        Contains(Lower(a.casinoName), q) || Contains(Lower(a.fullName), q) || Contains(Lower(a.nif), q)
        || Contains(Lower(a.citizenCard), q) || Contains(Lower(a.iban), q)
  {
    var fields := SearchFields(a);
    LowerSearchText(fields);
    var lowered := LowerAll(fields);
    SearchTextContains(lowered, q);
    assert Matches(a, q) <==> Contains(SearchText(lowered), q);
    assert lowered[0] == Lower(a.casinoName) && lowered[1] == Lower(a.fullName) && lowered[2] == Lower(a.nif);
    assert lowered[3] == Lower(a.citizenCard) && lowered[4] == Lower(a.iban);
    assert (exists k :: 0 <= k < |lowered| && Contains(lowered[k], q)) <==>
      Contains(lowered[0], q) || Contains(lowered[1], q) || Contains(lowered[2], q)
      || Contains(lowered[3], q) || Contains(lowered[4], q);
  }

  /** The accounts a search shows are the matching ones, each in the group of its casino. */
  lemma SearchShowsMatches(allAccounts: seq<Account>, input: string, a: Account)
    requires a in allAccounts && Query(input) != ""
    ensures var v := Search(allAccounts, input);
      Matches(a, Query(input)) <==> v.ShowGroups? && a in GroupOf(v.groups, CasinoKey(a))
  {
    var q := Query(input);
    var filtered := Filter(allAccounts, MatchesFn(q));
    assert Search(allAccounts, input) == ViewOf(filtered);
    FilterMember(allAccounts, MatchesFn(q), a);
    ShownIffListed(filtered, a);
  }

  /** An account is shown in the group of its casino exactly when it is among those rendered. */
  lemma ShownIffListed(accounts: seq<Account>, a: Account)
    ensures var v := ViewOf(accounts);
      a in accounts <==> v.ShowGroups? && a in GroupOf(v.groups, CasinoKey(a))
  {
    GroupContents(accounts, CasinoKey(a));
    var shown := Filter(accounts, InCasino(CasinoKey(a)));
    if a in accounts {
      FilterMember(accounts, InCasino(CasinoKey(a)), a);
    }
  }
}
