/**
 * The dashboard page: the previous-month filters, the loaders that fill the
 * page's five slices, the guard on the profit totals and the four stat cards.
 */
module Dashboard {
  import opened Wrappers
  import opened Text
  import opened Calendar
  import opened Entities
  import opened Lists
  import opened Sums
  import opened Api
  import opened Money

  // ---------------------------------------------------------------------------
  // Previous-month filters
  // ---------------------------------------------------------------------------

  function ChartDate(i: ChartItem): DateTime { i.date }
  function ChartProfit(i: ChartItem): int { i.profit }
  function WithdrawalDate(w: Withdrawal): DateTime { w.createdAt }
  function WithdrawalAmount(w: Withdrawal): int { w.amount }
  function TransactionDate(t: Transaction): DateTime { t.createdAt }

  function MonthTest<T>(dateOf: T -> DateTime, now: DateTime): T -> bool
    requires 1 <= now.month <= 12
  {
    x => InPreviousMonth(dateOf(x), now)
  }

  /** The items of a page with data whose date falls in the month before `now`; nothing otherwise. */
  function PreviousMonthWindow<T>(page: Option<Page<T>>, dateOf: T -> DateTime, now: DateTime): (r: seq<T>)
    requires 1 <= now.month <= 12
    ensures forall i :: 0 <= i < |r| ==> InPreviousMonth(dateOf(r[i]), now)
    ensures page.Some? && page.value.data.Some? ==> multiset(r) <= multiset(page.value.data.value)
  {
    match page
    case Some(Page(Some(items))) =>
      FilterMultiset(items, MonthTest(dateOf, now));
      Filter(items, MonthTest(dateOf, now))
    case _ => []
  }

  /** `getLastMonthProfit(chartData)`. */
  function LastMonthProfit(chartData: Option<Page<ChartItem>>, now: DateTime): (r: seq<ChartItem>)
    requires 1 <= now.month <= 12
    ensures chartData.Some? && chartData.value.data.Some? ==> multiset(r) <= multiset(chartData.value.data.value)
    ensures forall i :: 0 <= i < |r| ==> InPreviousMonth(ChartDate(r[i]), now)
    ensures chartData.None? || chartData.value.data.None? ==> r == []
  {
    PreviousMonthWindow(chartData, ChartDate, now)
  }

  /** `getLastMonthWithdrawals(withdrawals)`. */
  function LastMonthWithdrawals(withdrawals: Option<Page<Withdrawal>>, now: DateTime): (r: seq<Withdrawal>)
    requires 1 <= now.month <= 12
    ensures withdrawals.Some? && withdrawals.value.data.Some? ==> multiset(r) <= multiset(withdrawals.value.data.value)
    ensures forall i :: 0 <= i < |r| ==> InPreviousMonth(WithdrawalDate(r[i]), now)
    ensures withdrawals.None? || withdrawals.value.data.None? ==> r == []
  {
    PreviousMonthWindow(withdrawals, WithdrawalDate, now)
  }

  /** `getLastMonthTransactions(transactions)`. */
  function LastMonthTransactions(transactions: Option<Page<Transaction>>, now: DateTime): (r: seq<Transaction>)
    requires 1 <= now.month <= 12
    ensures transactions.Some? && transactions.value.data.Some? ==> multiset(r) <= multiset(transactions.value.data.value)
    ensures forall i :: 0 <= i < |r| ==> InPreviousMonth(TransactionDate(r[i]), now)
    ensures transactions.None? || transactions.value.data.None? ==> r == []
  {
    PreviousMonthWindow(transactions, TransactionDate, now)
  }

  /**
   * An item is kept exactly when the page has data, holds the item, and the
   * item is dated in the previous calendar month (December of the year
   * before, in January).
   */
  lemma PreviousMonthWindowIff<T>(page: Option<Page<T>>, dateOf: T -> DateTime, now: DateTime, x: T)
    requires 1 <= now.month <= 12 && Valid(dateOf(x))
    ensures x in PreviousMonthWindow(page, dateOf, now) <==>
      page.Some? && page.value.data.Some? && x in page.value.data.value &&
      (dateOf(x).year, dateOf(x).month) == PreviousMonth(now.year, now.month)
  {
    InPreviousMonthIff(dateOf(x), now);
    if page.Some? && page.value.data.Some? {
      var items := page.value.data.value;
      if x in items {
        var i :| 0 <= i < |items| && items[i] == x;
      }
    }
  }

  /** Without a page or without its `data`, every filter is empty. */
  lemma PreviousMonthWindowMissing<T>(page: Option<Page<T>>, dateOf: T -> DateTime, now: DateTime)
    requires 1 <= now.month <= 12
    requires page.None? || page.value.data.None?
    ensures PreviousMonthWindow(page, dateOf, now) == []
  {
  }

  // ---------------------------------------------------------------------------
  // Loading and the stat cards
  // ---------------------------------------------------------------------------

  /** The five slices of page state; None stands for `null`/`undefined`. */
  datatype DashboardState = DashboardState(
    user: Option<User>,
    withdrawals: Option<Page<Withdrawal>>,
    transactions: Option<Page<Transaction>>,
    chartData: Option<Page<ChartItem>>,
    totalGains: Option<ProfitTotals>)

  const Initial: DashboardState := DashboardState(None, None, None, None, None)

  /**
   * `loadUserData` and the loaders like it: on success the slice becomes
   * `response.result.data`; a failure or a null body (whose property access
   * throws into the loader's `catch`) leaves it as it was.
   */
  function LoadSlice<T>(response: Envelope<Body<T>>, current: Option<T>): (r: Option<T>)
    ensures !response.success ==> r == current
    ensures response.success && response.result.Some? && response.result.value.Object? ==>
      r == response.result.value.data
    ensures response.success && !(response.result.Some? && response.result.value.Object?) ==> r == current
  {
    if !response.success then current
    else
      match response.result
      case Some(Object(data)) => data
      case _ => current
  }

  /** A number is truthy unless it is 0; a missing one is falsy. */
  predicate Truthy(v: Option<int>) {
    v.Some? && v.value != 0
  }

  /** A successful answer whose object carries `data` with a truthy total. */
  predicate StoresTotals(response: Envelope<Body<ProfitTotals>>) {
    && response.success && response.result.Some? && response.result.value.Object?
    && response.result.value.data.Some?
    && (Truthy(response.result.value.data.value.bonusTotal) || Truthy(response.result.value.data.value.casinoTotal))
  }

  /**
   * `loadProfits`: a successful answer whose data has a truthy total replaces
   * the totals; anything else (a failure, a null body, no `data`, two falsy
   * totals) leaves them as they were.
   */
  function LoadProfits(response: Envelope<Body<ProfitTotals>>, current: Option<ProfitTotals>): (r: Option<ProfitTotals>)
    ensures r == current || (r.Some? && (Truthy(r.value.bonusTotal) || Truthy(r.value.casinoTotal)))
    ensures StoresTotals(response) ==> r == response.result.value.data
    ensures !StoresTotals(response) ==> r == current
  {
    if !response.success then current
    else
      match response.result
      case Some(Object(Some(data))) =>
        if Truthy(data.bonusTotal) || Truthy(data.casinoTotal) then Some(data) else current
      case _ => current
  }

  /** The value the first card shows: the two totals added, 0 without totals, NaN if one is missing. */
  function TotalGainsValue(totals: Option<ProfitTotals>): (v: Amount)
    ensures totals.None? ==> v == Cents(0)
    ensures totals.Some? && totals.value.bonusTotal.Some? && totals.value.casinoTotal.Some? ==>
      v == Cents(totals.value.bonusTotal.value + totals.value.casinoTotal.value)
    ensures totals.Some? && (totals.value.bonusTotal.None? || totals.value.casinoTotal.None?) ==> v == NotANumber
  {
    match totals
    case None => Cents(0)
    case Some(ProfitTotals(Some(b), Some(c))) => Cents(b + c)
    case _ => NotANumber
  }

  /**
   * The texts of the four stat cards. `updateStats` throws on a withdrawals
   * object without `data`, and then the last two cards are not written (None).
   */
  datatype StatsView = StatsView(
    totalGains: string,
    monthlyGains: string,
    totalWithdrawals: Option<string>,
    transactionsCount: Option<string>)

  function UpdateStats(s: DashboardState, now: DateTime): StatsView
    requires 1 <= now.month <= 12
  {
    var monthly := SumOf(LastMonthProfit(s.chartData, now), ChartProfit);
    var withdrawn: Option<string> :=
      match s.withdrawals
      case None => Some(FormatMoney(Cents(0)))
      case Some(Page(None)) => None
      case Some(Page(Some(ws))) => Some(FormatMoney(Cents(SumOf(ws, WithdrawalAmount))));
    var count := if withdrawn.None? then None else Some(NatToDec(|LastMonthTransactions(s.transactions, now)|));
    StatsView(FormatMoney(TotalGainsValue(s.totalGains)), FormatMoney(Cents(monthly)), withdrawn, count)
  }

  /** The first card reads back as the sum of the two totals, or zero without totals. */
  lemma TotalGainsCard(s: DashboardState, now: DateTime)
    requires 1 <= now.month <= 12
    ensures var v := UpdateStats(s, now);
      && (s.totalGains.None? ==> ParseMoney(v.totalGains) == Some(0))
      && (s.totalGains.Some? && s.totalGains.value.bonusTotal.Some? && s.totalGains.value.casinoTotal.Some? ==>
            ParseMoney(v.totalGains) == Some(s.totalGains.value.bonusTotal.value + s.totalGains.value.casinoTotal.value))
  {
    assert UpdateStats(s, now).totalGains == FormatMoney(TotalGainsValue(s.totalGains));
    TotalGainsReadsBack(s.totalGains);
  }

  lemma TotalGainsReadsBack(totals: Option<ProfitTotals>)
    ensures totals.None? ==> ParseMoney(FormatMoney(TotalGainsValue(totals))) == Some(0)
    ensures totals.Some? && totals.value.bonusTotal.Some? && totals.value.casinoTotal.Some? ==>
      ParseMoney(FormatMoney(TotalGainsValue(totals))) == Some(totals.value.bonusTotal.value + totals.value.casinoTotal.value)
  {
    match totals {
      case Some(ProfitTotals(Some(b), Some(c))) => ParseFormatMoney(b + c);
      case _ => ParseFormatMoney(0);
    }
  }

  /** The second card reads back as the profit of the previous month. */
  lemma MonthlyGainsCard(s: DashboardState, now: DateTime)
    requires 1 <= now.month <= 12
    ensures ParseMoney(UpdateStats(s, now).monthlyGains) == Some(SumOf(LastMonthProfit(s.chartData, now), ChartProfit))
  {
    ParseFormatMoney(SumOf(LastMonthProfit(s.chartData, now), ChartProfit));
  }

  /**
   * The third card reads back as the sum of all withdrawals; it and the
   * fourth are left unwritten exactly when the withdrawals object lacks `data`.
   */
  lemma WithdrawalsCard(s: DashboardState, now: DateTime)
    requires 1 <= now.month <= 12
    ensures var v := UpdateStats(s, now);
      && (v.totalWithdrawals.None? <==> s.withdrawals.Some? && s.withdrawals.value.data.None?)
      && (v.transactionsCount.None? <==> v.totalWithdrawals.None?)
      && (s.withdrawals.None? ==> ParseMoney(v.totalWithdrawals.value) == Some(0))
      && (s.withdrawals.Some? && s.withdrawals.value.data.Some? ==>
            ParseMoney(v.totalWithdrawals.value) == Some(SumOf(s.withdrawals.value.data.value, WithdrawalAmount)))
  {
    match s.withdrawals {
      case Some(Page(Some(ws))) => ParseFormatMoney(SumOf(ws, WithdrawalAmount));
      case _ => ParseFormatMoney(0);
    }
  }

  /** The fourth card, when written, is the number of transactions of the previous month. */
  lemma TransactionsCard(s: DashboardState, now: DateTime)
    requires 1 <= now.month <= 12
    ensures var v := UpdateStats(s, now);
      v.transactionsCount.Some? ==>
        AllDigits(v.transactionsCount.value) &&
        ParseDec(v.transactionsCount.value) == |LastMonthTransactions(s.transactions, now)|
  {
    ParseNatToDec(|LastMonthTransactions(s.transactions, now)|);
  }

  /**
   * Starting without totals, the totals are stored exactly when the server
   * reports a truthy one; otherwise the first card keeps showing zero.
   */
  lemma ProfitsGuard(response: Envelope<Body<ProfitTotals>>)
    ensures var t := LoadProfits(response, None);
      t.Some? <==> StoresTotals(response)
    ensures var t := LoadProfits(response, None);
      t.Some? ==> t == response.result.value.data
    ensures var t := LoadProfits(response, None);
      t.None? ==> FormatMoney(TotalGainsValue(t)) == "0,00 \U{20AC}"
  {
    FormatMoneyShape(0);
  }
}
