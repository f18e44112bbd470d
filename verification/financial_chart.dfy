/**
 * `generateFinancialData`: the chart points of a period, summed per day and
 * per transaction type, laid out as one series per type over the sorted days,
 * with a zero wherever a type has nothing on a day.
 */
module FinancialChart {
  import opened Wrappers
  import opened Calendar
  import opened Entities
  import opened Lists
  import opened Sums
  import opened Sorting
  import opened Money
  import opened Dashboard

  // ---------------------------------------------------------------------------
  // The period filter
  // ---------------------------------------------------------------------------

  /** Whether a point belongs to the period chosen on the tabs. */
  predicate InPeriod(period: string, now: DateTime, item: ChartItem)
    requires Valid(now)
  {
    if period == "weekly" then Rank(item.date) >= Rank(WeekBefore(now))
    else if period == "monthly" then InPreviousMonth(item.date, now)
    else if period == "yearly" then item.date.year == now.year
    else true
  }

  function PeriodTest(period: string, now: DateTime): ChartItem -> bool
    requires Valid(now)
  {
    x => InPeriod(period, now, x)
  }

  function FilterPeriod(period: string, items: seq<ChartItem>, now: DateTime): (r: seq<ChartItem>)
    requires Valid(now)
    ensures forall i :: 0 <= i < |r| ==> InPeriod(period, now, r[i])
    ensures multiset(r) <= multiset(items)
  {
    if period in {"weekly", "monthly", "yearly"} then
      FilterMultiset(items, PeriodTest(period, now));
      Filter(items, PeriodTest(period, now))
    else items
  }

  /**
   * A point is kept iff it is dated no earlier than seven days before now
   * (weekly), in the previous calendar month (monthly), or this year
   * (yearly); any other period keeps the list as it is.
   */
  lemma FilterPeriodIff(period: string, items: seq<ChartItem>, now: DateTime, x: ChartItem)
    requires Valid(now) && Valid(x.date)
    ensures x in FilterPeriod(period, items, now) <==> (
      && x in items
      && (period == "weekly" ==> Rank(x.date) >= Rank(WeekBefore(now)))
      && (period == "monthly" ==> (x.date.year, x.date.month) == PreviousMonth(now.year, now.month))
      && (period == "yearly" ==> x.date.year == now.year))
    ensures period !in {"weekly", "monthly", "yearly"} ==> FilterPeriod(period, items, now) == items
  {
    InPreviousMonthIff(x.date, now);
    var r := FilterPeriod(period, items, now);
    if x in r {
      var i :| 0 <= i < |r| && r[i] == x;
    }
  }

  // ---------------------------------------------------------------------------
  // Grouping by day and type
  // ---------------------------------------------------------------------------

  /** `item.transaction_type || 'OUTROS'`. */
  function KindOf(item: ChartItem): (t: string)
    ensures t != ""
  {
    if item.transactionType == "" then "OUTROS" else item.transactionType
  }

  /** The sums of one day, by type, in the order the types first appeared. */
  type Cells = seq<(string, int)>

  /** The sums by day, in the order the days first appeared. */
  type Grouped = seq<(Day, Cells)>

  /** `cells[t] += p`, creating the entry when it is missing. */
  function AddCell(cells: Cells, t: string, p: int): (r: Cells)
    ensures Lookup(r, t) == Lookup(cells, t) + p
  {
    if |cells| == 0 then [(t, p)]
    else if cells[0].0 == t then [(t, cells[0].1 + p)] + cells[1..]
    else
      var r := [cells[0]] + AddCell(cells[1..], t, p);
      assert r[1..] == AddCell(cells[1..], t, p);
      r
  }

  /** A new type is appended to the keys; a known one leaves them as they were. */
  lemma {:induction false} AddCellKeys(cells: Cells, t: string, p: int)
    ensures Keys(AddCell(cells, t, p)) == if t in Keys(cells) then Keys(cells) else Keys(cells) + [t]
  {
    if |cells| > 0 {
      var r := AddCell(cells, t, p);
      KeysCons(cells);
      KeysCons(r);
      if cells[0].0 == t {
        assert r[1..] == cells[1..];
      } else {
        AddCellKeys(cells[1..], t, p);
        assert r[1..] == AddCell(cells[1..], t, p);
      }
    }
  }

  /** Only the entry of `t` changes. */
  lemma {:induction false} AddCellLookup(cells: Cells, t: string, p: int, u: string)
    ensures Lookup(AddCell(cells, t, p), u) == Lookup(cells, u) + (if u == t then p else 0)
  {
    if |cells| > 0 && cells[0].0 != t {
      AddCellLookup(cells[1..], t, p, u);
      assert AddCell(cells, t, p)[1..] == AddCell(cells[1..], t, p);
    }
  }

  /** The sum of the cells grows by `p`. */
  lemma {:induction false} AddCellTotal(cells: Cells, t: string, p: int)
    ensures Total(AddCell(cells, t, p)) == Total(cells) + p
  {
    var r := AddCell(cells, t, p);
    if |cells| == 0 {
      assert r[1..] == [];
    } else if cells[0].0 == t {
      assert r[1..] == cells[1..];
    } else {
      AddCellTotal(cells[1..], t, p);
      assert r[1..] == AddCell(cells[1..], t, p);
    }
  }

  /** The cells of a day; none for a day not in the table. */
  function CellsAt(g: Grouped, d: Day): Cells {
    if |g| == 0 then [] else if g[0].0 == d then g[0].1 else CellsAt(g[1..], d)
  }

  /** `grouped[d][t] += p`, creating the day and the entry when they are missing. */
  function AddItem(g: Grouped, d: Day, t: string, p: int): (r: Grouped)
    ensures CellsAt(r, d) == AddCell(CellsAt(g, d), t, p)
  {
    if |g| == 0 then [(d, [(t, p)])]
    else if g[0].0 == d then [(d, AddCell(g[0].1, t, p))] + g[1..]
    else
      var r := [g[0]] + AddItem(g[1..], d, t, p);
      assert r[1..] == AddItem(g[1..], d, t, p);
      r
  }

  /** A new day is appended to the keys; a known one leaves them as they were. */
  lemma {:induction false} AddItemKeys(g: Grouped, d: Day, t: string, p: int)
    ensures Keys(AddItem(g, d, t, p)) == if d in Keys(g) then Keys(g) else Keys(g) + [d]
  {
    if |g| > 0 {
      var r := AddItem(g, d, t, p);
      KeysCons(g);
      KeysCons(r);
      if g[0].0 == d {
        assert r[1..] == g[1..];
        AddCellTotal(g[0].1, t, p);
      } else {
        AddItemKeys(g[1..], d, t, p);
        assert r[1..] == AddItem(g[1..], d, t, p);
      }
    }
  }

  /** Only the cells of day `d` change. */
  lemma {:induction false} AddItemCellsAt(g: Grouped, d: Day, t: string, p: int, e: Day)
    ensures CellsAt(AddItem(g, d, t, p), e) == if e == d then AddCell(CellsAt(g, d), t, p) else CellsAt(g, e)
  {
    if |g| > 0 && g[0].0 != d {
      AddItemCellsAt(g[1..], d, t, p, e);
      assert AddItem(g, d, t, p)[1..] == AddItem(g[1..], d, t, p);
    }
  }

  /** The `forEach` that fills `grouped`, point by point. */
  function Group(items: seq<ChartItem>): Grouped {
    if |items| == 0 then []
    else
      var last := items[|items| - 1];
      AddItem(Group(items[..|items| - 1]), DayOf(last.date), KindOf(last), last.profit)
  }

  /** No day twice, and no type twice within a day. */
  ghost predicate WellGrouped(g: Grouped) {
    Distinct(Keys(g)) && forall d :: Distinct(Keys(CellsAt(g, d)))
  }

  function TotalAt(g: Grouped): Day -> int {
    d => Total(CellsAt(g, d))
  }

  /** The sum of every cell of the table. */
  function GrandTotal(g: Grouped): int {
    if |g| == 0 then 0 else Total(g[0].1) + GrandTotal(g[1..])
  }

  /** The profit of a point if it falls on day `d` with type `t`, else 0. */
  function Matching(d: Day, t: string): ChartItem -> int {
    (item: ChartItem) => if DayOf(item.date) == d && KindOf(item) == t then item.profit else 0
  }

  lemma DistinctSnoc<K>(ks: seq<K>, x: K)
    requires Distinct(ks) && x !in ks
    ensures Distinct(ks + [x])
  {
  }

  lemma CellsAtAbsent(g: Grouped, d: Day)
    requires d !in Keys(g)
    ensures CellsAt(g, d) == []
  {
    if |g| > 0 {
      assert Keys(g) == [g[0].0] + Keys(g[1..]);
      CellsAtAbsent(g[1..], d);
    }
  }

  /** Adding a point keeps days and types unique. */
  lemma AddItemWellGrouped(g: Grouped, d: Day, t: string, p: int)
    requires WellGrouped(g)
    ensures WellGrouped(AddItem(g, d, t, p))
  {
    var r := AddItem(g, d, t, p);
    AddItemKeys(g, d, t, p);
    if d !in Keys(g) {
      DistinctSnoc(Keys(g), d);
    }
    forall e ensures Distinct(Keys(CellsAt(r, e))) {
      AddItemCellsAt(g, d, t, p, e);
      if e == d {
        var c := CellsAt(g, d);
        assert Distinct(Keys(c));
        AddCellKeys(c, t, p);
        if t !in Keys(c) {
          DistinctSnoc(Keys(c), t);
        }
      }
    }
  }

  lemma {:induction false} GroupWellGrouped(items: seq<ChartItem>)
    ensures WellGrouped(Group(items))
  {
    if |items| > 0 {
      var last := items[|items| - 1];
      GroupWellGrouped(items[..|items| - 1]);
      AddItemWellGrouped(Group(items[..|items| - 1]), DayOf(last.date), KindOf(last), last.profit);
    }
  }

  /** `Group` of a non-empty list: the last point added to the table of the others. */
  lemma GroupStep(items: seq<ChartItem>)
    requires |items| > 0
    ensures var last := items[|items| - 1];
      Group(items) == AddItem(Group(items[..|items| - 1]), DayOf(last.date), KindOf(last), last.profit)
  {
  }

  /** Each cell holds the sum of the profits of the points of its day and type. */
  lemma {:induction false} GroupAmounts(items: seq<ChartItem>, d: Day, t: string)
    ensures Lookup(CellsAt(Group(items), d), t) == SumOf(items, Matching(d, t))
  {
    if |items| > 0 {
      var init, last := items[..|items| - 1], items[|items| - 1];
      var g0 := Group(init);
      var d0, t0 := DayOf(last.date), KindOf(last);
      GroupStep(items);
      GroupAmounts(init, d, t);
      var c := CellsAt(g0, d);
      calc {
        Lookup(CellsAt(Group(items), d), t);
        Lookup(CellsAt(AddItem(g0, d0, t0, last.profit), d), t);
      == { AddItemCellsAt(g0, d0, t0, last.profit, d);
           if d == d0 { AddCellLookup(c, t0, last.profit, t); } }
        Lookup(c, t) + Matching(d, t)(last);
        SumOf(init, Matching(d, t)) + Matching(d, t)(last);
      == { SumOfSnoc(init, last, Matching(d, t)); }
        SumOf(init + [last], Matching(d, t));
      == { assert items == init + [last]; }
        SumOf(items, Matching(d, t));
      }
    }
  }

  lemma GrandTotalAddItem(g: Grouped, d: Day, t: string, p: int)
    ensures GrandTotal(AddItem(g, d, t, p)) == GrandTotal(g) + p
  {
    var r := AddItem(g, d, t, p);
    if |g| > 0 {
      if g[0].0 == d {
        assert r[1..] == g[1..];
        AddCellTotal(g[0].1, t, p);
      } else {
        assert r[1..] == AddItem(g[1..], d, t, p);
        GrandTotalAddItem(g[1..], d, t, p);
      }
    } else {
      var c: Cells := [(t, p)];
      assert r == [(d, c)];
      assert c[1..] == [];
      assert Total(c) == p + Total(c[1..]);
      assert r[1..] == [];
      assert GrandTotal(r) == Total(c) + GrandTotal(r[1..]);
    }
  }

  /** The table as a whole holds exactly the profit of all the points. */
  lemma {:induction false} GroupConserves(items: seq<ChartItem>)
    ensures GrandTotal(Group(items)) == SumOf(items, ChartProfit)
  {
    if |items| > 0 {
      var init, last := items[..|items| - 1], items[|items| - 1];
      var g0 := Group(init);
      GroupStep(items);
      GroupConserves(init);
      GrandTotalAddItem(g0, DayOf(last.date), KindOf(last), last.profit);
      assert items == init + [last];
      SumOfSnoc(init, last, ChartProfit);
    }
  }

  /** A day is in the table iff some point falls on it. */
  lemma {:induction false} GroupDays(items: seq<ChartItem>, d: Day)
    ensures d in Keys(Group(items)) <==> exists i :: 0 <= i < |items| && DayOf(items[i].date) == d
  {
    if |items| > 0 {
      var init, last := items[..|items| - 1], items[|items| - 1];
      GroupStep(items);
      AddItemKeys(Group(init), DayOf(last.date), KindOf(last), last.profit);
      GroupDays(init, d);
      SomeDaySnoc(items, d);
    }
  }

  lemma SomeDaySnoc(items: seq<ChartItem>, d: Day)
    requires |items| > 0
    ensures var init, last := items[..|items| - 1], items[|items| - 1];
      (exists i :: 0 <= i < |items| && DayOf(items[i].date) == d) <==>
        (exists i :: 0 <= i < |init| && DayOf(init[i].date) == d) || DayOf(last.date) == d
  {
    var init := items[..|items| - 1];
    if exists i :: 0 <= i < |init| && DayOf(init[i].date) == d {
      var i :| 0 <= i < |init| && DayOf(init[i].date) == d;
      assert items[i] == init[i];
    }
    if exists i :: 0 <= i < |items| && DayOf(items[i].date) == d {
      var i :| 0 <= i < |items| && DayOf(items[i].date) == d;
      if i < |init| {
        assert init[i] == items[i];
      }
    }
  }

  lemma KindsAddItem(g: Grouped, d0: Day, t0: string, p: int, d: Day, t: string)
    ensures t in Keys(CellsAt(AddItem(g, d0, t0, p), d)) <==> t in Keys(CellsAt(g, d)) || (d == d0 && t == t0)
  {
    AddItemCellsAt(g, d0, t0, p, d);
    if d == d0 {
      AddCellKeys(CellsAt(g, d0), t0, p);
    }
  }

  /** Some point falls on day `d` with type `t`. */
  predicate HasPoint(items: seq<ChartItem>, d: Day, t: string) {
    exists i :: 0 <= i < |items| && DayOf(items[i].date) == d && KindOf(items[i]) == t
  }

  lemma HasPointSnoc(items: seq<ChartItem>, d: Day, t: string)
    requires |items| > 0
    ensures var last := items[|items| - 1];
      HasPoint(items, d, t) <==> HasPoint(items[..|items| - 1], d, t) || (DayOf(last.date) == d && KindOf(last) == t)
  {
    var init := items[..|items| - 1];
    if HasPoint(init, d, t) {
      var i :| 0 <= i < |init| && DayOf(init[i].date) == d && KindOf(init[i]) == t;
      assert items[i] == init[i];
    }
    if HasPoint(items, d, t) {
      var i :| 0 <= i < |items| && DayOf(items[i].date) == d && KindOf(items[i]) == t;
      if i < |init| {
        assert init[i] == items[i];
      }
    }
  }

  /** A type is recorded on a day iff some point of that day has that type. */
  lemma {:induction false} GroupKinds(items: seq<ChartItem>, d: Day, t: string)
    ensures t in Keys(CellsAt(Group(items), d)) <==> HasPoint(items, d, t)
  {
    if |items| > 0 {
      var init, last := items[..|items| - 1], items[|items| - 1];
      var g0 := Group(init);
      GroupStep(items);
      GroupKinds(init, d, t);
      KindsAddItem(g0, DayOf(last.date), KindOf(last), last.profit, d, t);
      HasPointSnoc(items, d, t);
    }
  }

  // ---------------------------------------------------------------------------
  // Series
  // ---------------------------------------------------------------------------

  /** Every type key of every day, day by day. */
  function AllKinds(g: Grouped): seq<string> {
    if |g| == 0 then [] else Keys(g[0].1) + AllKinds(g[1..])
  }

  /** The `types` set, in insertion order. */
  function Types(g: Grouped): seq<string> {
    Dedup(AllKinds(g))
  }

  /** `Object.keys(grouped).sort()`: ISO dates sort chronologically. */
  function Dates(g: Grouped): (ds: seq<Day>)
    ensures SortedBy(ds, DayRank)
    ensures multiset(ds) == multiset(Keys(g))
  {
    SortBy(Keys(g), DayRank)
  }

  /** `dates.map(date => grouped[date][t] || 0)`. */
  function SeriesData(g: Grouped, dates: seq<Day>, t: string): (data: seq<int>)
    ensures |data| == |dates|
    ensures forall i :: 0 <= i < |dates| && t !in Keys(CellsAt(g, dates[i])) ==> data[i] == 0
  {
    forall i | 0 <= i < |dates| && t !in Keys(CellsAt(g, dates[i])) {
      LookupAbsent(CellsAt(g, dates[i]), t);
    }
    seq(|dates|, i requires 0 <= i < |dates| => Lookup(CellsAt(g, dates[i]), t))
  }

  datatype Series = Series(name: string, data: seq<int>, color: string)

  /** The display name of a type; unknown types show as themselves. */
  function NameOf(t: string): string {
    if t == "CASINO" then "Casino"
    else if t == "BONUS" then "B\U{00F3}nus"
    else if t == "OUTROS" then "Outros"
    else t
  }

  /** The colour of a type; unknown types are grey. */
  function ColorOf(t: string): string {
    if t == "CASINO" then "#4caf50"
    else if t == "BONUS" then "#13005A"
    else if t == "OUTROS" then "#2196f3"
    else "#CCCCCC"
  }

  /** One series per type, in the order of `types`. */
  function BuildSeries(g: Grouped, types: seq<string>, dates: seq<Day>): (r: seq<Series>)
    ensures |r| == |types|
    ensures forall i :: 0 <= i < |types| ==>
      r[i] == Series(NameOf(types[i]), SeriesData(g, dates, types[i]), ColorOf(types[i]))
  {
    if |types| == 0 then []
    else [Series(NameOf(types[0]), SeriesData(g, dates, types[0]), ColorOf(types[0]))] + BuildSeries(g, types[1..], dates)
  }

  /** An x-axis label: the placeholder, or the day a column stands for. */
  datatype Label = NoData | DayLabel(day: Day)

  datatype Chart = Chart(labels: seq<Label>, series: seq<Series>)

  /** The chart shown when the period holds no point. */
  const EmptyChart: Chart := Chart([NoData], [Series("Ganhos", [0], "#13005A")])

  /** `generateFinancialData(period)`. */
  function GenerateFinancialData(chartData: Option<Page<ChartItem>>, period: string, now: DateTime): Chart
    requires Valid(now)
  {
    match chartData
    case Some(Page(Some(items))) =>
      var filtered := FilterPeriod(period, items, now);
      if |filtered| == 0 then EmptyChart
      else
        var g := Group(filtered);
        var dates := Dates(g);
        Chart(seq(|dates|, i requires 0 <= i < |dates| => DayLabel(dates[i])), BuildSeries(g, Types(g), dates))
    case _ => Chart([], [])
  }

  // ---------------------------------------------------------------------------
  // What the chart shows
  // ---------------------------------------------------------------------------

  /** The sum of every value of every series. */
  function SeriesTotal(series: seq<Series>): int {
    if |series| == 0 then 0 else Sum(series[0].data) + SeriesTotal(series[1..])
  }

  function AmountFn(g: Grouped): (string, Day) -> int {
    (t, d) => Lookup(CellsAt(g, d), t)
  }

  lemma SeriesDataSum(g: Grouped, dates: seq<Day>, t: string)
    ensures Sum(SeriesData(g, dates, t)) == RowSums(AmountFn(g), dates)(t)
  {
    var f := Row(AmountFn(g), t);
    SumOfMapped(dates, f, SeriesData(g, dates, t));
  }

  lemma {:induction false} BuildSeriesTotal(g: Grouped, types: seq<string>, dates: seq<Day>)
    ensures SeriesTotal(BuildSeries(g, types, dates)) == SumOf(types, RowSums(AmountFn(g), dates))
  {
    if |types| > 0 {
      BuildSeriesTotal(g, types[1..], dates);
      SeriesDataSum(g, dates, types[0]);
      assert BuildSeries(g, types, dates)[1..] == BuildSeries(g, types[1..], dates);
    }
  }

  /** Every type recorded on a day of the table is among the series' types. */
  lemma {:induction false} KindInAllKinds(g: Grouped, d: Day, t: string)
    requires t in Keys(CellsAt(g, d))
    ensures t in AllKinds(g)
  {
    if |g| > 0 && g[0].0 != d {
      KindInAllKinds(g[1..], d, t);
    }
  }

  /** Summing a day's column over all types gives the day's total. */
  lemma ColumnTotal(g: Grouped, d: Day)
    requires WellGrouped(g)
    ensures ColSums(AmountFn(g), Types(g))(d) == TotalAt(g)(d)
  {
    var types, cells := Types(g), CellsAt(g, d);
    forall t | t in Keys(cells) ensures t in types {
      KindInAllKinds(g, d, t);
      var j :| 0 <= j < |AllKinds(g)| && AllKinds(g)[j] == t;
    }
    SumOfCongruent(types, Col(AmountFn(g), d), LookupFn(cells));
    SumOfLookup(types, cells);
  }

  /** Summing the days' totals over the days of the table gives the table's total. */
  lemma {:induction false} DaysTotal(g: Grouped)
    requires Distinct(Keys(g))
    ensures SumOf(Keys(g), TotalAt(g)) == GrandTotal(g)
  {
    if |g| > 0 {
      var rest := g[1..];
      assert Keys(g) == [g[0].0] + Keys(rest);
      assert Keys(g)[1..] == Keys(rest);
      assert Distinct(Keys(rest));
      forall d | d in Keys(rest) ensures TotalAt(g)(d) == TotalAt(rest)(d) {
        var j :| 0 <= j < |Keys(rest)| && Keys(rest)[j] == d;
        assert Keys(g)[j + 1] == d;
      }
      SumOfCongruent(Keys(rest), TotalAt(g), TotalAt(rest));
      DaysTotal(rest);
    }
  }

  /** The series of a non-empty table add up to the table's total. */
  lemma TableSeriesTotal(g: Grouped)
    requires WellGrouped(g)
    ensures SeriesTotal(BuildSeries(g, Types(g), Dates(g))) == GrandTotal(g)
  {
    var types, dates, F := Types(g), Dates(g), AmountFn(g);
    BuildSeriesTotal(g, types, dates);
    SumOfSwap(types, dates, F);
    forall d | d in dates ensures ColSums(F, types)(d) == TotalAt(g)(d) {
      ColumnTotal(g, d);
    }
    SumOfCongruent(dates, ColSums(F, types), TotalAt(g));
    SumOfSortBy(Keys(g), DayRank, TotalAt(g));
    DaysTotal(g);
  }

  /**
   * Conservation: whenever there is chart data, the values of all series add
   * up to the profit of the points of the period.
   */
  lemma ChartConserves(chartData: Option<Page<ChartItem>>, period: string, now: DateTime)
    requires Valid(now)
    requires chartData.Some? && chartData.value.data.Some?
    ensures SeriesTotal(GenerateFinancialData(chartData, period, now).series) ==
      SumOf(FilterPeriod(period, chartData.value.data.value, now), ChartProfit)
  {
    var filtered := FilterPeriod(period, chartData.value.data.value, now);
    if |filtered| > 0 {
      var g := Group(filtered);
      GroupWellGrouped(filtered);
      TableSeriesTotal(g);
      GroupConserves(filtered);
    } else {
      assert Sum([0]) == 0;
    }
  }

  /** The labels are the days, ascending and each once: exactly the days some point of the period falls on. */
  lemma ChartLabels(chartData: Option<Page<ChartItem>>, period: string, now: DateTime)
    requires Valid(now)
    requires chartData.Some? && chartData.value.data.Some?
    requires |FilterPeriod(period, chartData.value.data.value, now)| > 0
    ensures var filtered := FilterPeriod(period, chartData.value.data.value, now);
      var dates := Dates(Group(filtered));
      var c := GenerateFinancialData(chartData, period, now);
      && |c.labels| == |dates|
      && (forall i :: 0 <= i < |dates| ==> c.labels[i] == DayLabel(dates[i]))
      && Distinct(dates) && SortedBy(dates, DayRank)
      && (forall d :: d in dates <==> exists i :: 0 <= i < |filtered| && DayOf(filtered[i].date) == d)
  {
    var filtered := FilterPeriod(period, chartData.value.data.value, now);
    var g := Group(filtered);
    var dates := Dates(g);
    GroupWellGrouped(filtered);
    DistinctPermutation(Keys(g), dates);
    forall d ensures d in dates <==> exists i :: 0 <= i < |filtered| && DayOf(filtered[i].date) == d {
      GroupDays(filtered, d);
      assert d in dates <==> d in multiset(Keys(g));
    }
  }

  /**
   * One series per type; each has a value per day, and the value is the sum
   * of the profits of the points of that day and type (zero when there are none).
   */
  lemma ChartSeries(chartData: Option<Page<ChartItem>>, period: string, now: DateTime)
    requires Valid(now)
    requires chartData.Some? && chartData.value.data.Some?
    requires |FilterPeriod(period, chartData.value.data.value, now)| > 0
    ensures var filtered := FilterPeriod(period, chartData.value.data.value, now);
      var g := Group(filtered);
      var dates := Dates(g);
      var c := GenerateFinancialData(chartData, period, now);
      && |c.series| == |Types(g)|
      && (forall k, i :: 0 <= k < |c.series| && 0 <= i < |dates| ==>
            |c.series[k].data| == |dates| &&
            c.series[k].data[i] == SumOf(filtered, Matching(dates[i], Types(g)[k])))
  {
    var filtered := FilterPeriod(period, chartData.value.data.value, now);
    var g := Group(filtered);
    var dates := Dates(g);
    var c := GenerateFinancialData(chartData, period, now);
    assert c.series == BuildSeries(g, Types(g), dates);
    forall k, i | 0 <= k < |c.series| && 0 <= i < |dates|
      ensures c.series[k].data[i] == SumOf(filtered, Matching(dates[i], Types(g)[k]))
    {
      assert c.series[k].data == SeriesData(g, dates, Types(g)[k]);
      GroupAmounts(filtered, dates[i], Types(g)[k]);
    }
  }

  /** A reordering of a list without repetitions has none either. */
  lemma DistinctPermutation<K>(a: seq<K>, b: seq<K>)
    requires Distinct(a) && multiset(a) == multiset(b)
    ensures Distinct(b)
  {
    forall i, j | 0 <= i < j < |b| ensures b[i] != b[j] {
      if b[i] == b[j] {
        assert multiset(b)[b[i]] >= 2 by {
          assert b == b[..j] + [b[j]] + b[j + 1..];
          assert b[i] in b[..j];
        }
        DistinctCount(a, b[i]);
      }
    }
  }

  lemma {:induction false} DistinctCount<K>(a: seq<K>, x: K)
    requires Distinct(a)
    ensures multiset(a)[x] <= 1
  {
    if |a| > 0 {
      assert a == [a[0]] + a[1..];
      assert Distinct(a[1..]);
      DistinctCount(a[1..], x);
      if a[0] == x {
        assert x !in a[1..];
      }
    }
  }

  /** The degenerate charts: no data gives nothing, an empty period a single zero. */
  lemma ChartDegenerate(chartData: Option<Page<ChartItem>>, period: string, now: DateTime)
    requires Valid(now)
    ensures chartData.None? || chartData.value.data.None? ==> GenerateFinancialData(chartData, period, now) == Chart([], [])
    ensures chartData.Some? && chartData.value.data.Some? && |FilterPeriod(period, chartData.value.data.value, now)| == 0 ==>
      GenerateFinancialData(chartData, period, now) == Chart([NoData], [Series("Ganhos", [0], "#13005A")])
  {
  }

  /** The monthly tab filters exactly like `getLastMonthProfit`. */
  lemma MonthlyFilterIsWindow(chartData: Option<Page<ChartItem>>, now: DateTime)
    requires Valid(now)
    requires chartData.Some? && chartData.value.data.Some?
    ensures FilterPeriod("monthly", chartData.value.data.value, now) == LastMonthProfit(chartData, now)
  {
    var items := chartData.value.data.value;
    forall i | 0 <= i < |items|
      ensures PeriodTest("monthly", now)(items[i]) == MonthTest(ChartDate, now)(items[i])
    {
      assert PeriodTest("monthly", now)(items[i]) == InPreviousMonth(items[i].date, now);
      assert MonthTest(ChartDate, now)(items[i]) == InPreviousMonth(ChartDate(items[i]), now);
    }
    FilterCongruent(items, PeriodTest("monthly", now), MonthTest(ChartDate, now));
  }

  /** The monthly tab adds up to the same amount as the monthly-gains card. */
  lemma MonthlyTabMatchesCard(s: DashboardState, now: DateTime)
    requires Valid(now)
    requires s.chartData.Some? && s.chartData.value.data.Some?
    ensures Some(SeriesTotal(GenerateFinancialData(s.chartData, "monthly", now).series)) ==
      ParseMoney(UpdateStats(s, now).monthlyGains)
  {
    ChartConserves(s.chartData, "monthly", now);
    MonthlyFilterIsWindow(s.chartData, now);
    MonthlyGainsCard(s, now);
  }
}
