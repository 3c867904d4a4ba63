/**
 * The whole NWOH import (import_nwoh_excel.py): the PPA roll-up, the daily
 * table, the month and year summaries and the grand totals, and how these
 * agree with one another.
 *
 * The grand totals sum the daily table, which holds one entry per date,
 * whereas the buckets add every dated row: the two agree when no date
 * repeats (DistinctDates).
 */
module NwohImport {
  import opened Wrappers
  import opened Calendar
  import opened PpaRollup
  import opened DailyImport
  import opened BucketFinalize

  /** The grand totals (total_pnl, total_volume). */
  datatype GrandTotals = GrandTotals(pnl: real, volume: real)

  /** Sums pnl and volume over the daily entries, in the table's key order. */
  function Grand(daily: map<Date, DailyRecord>, order: seq<Date>): GrandTotals
    requires forall d :: d in order ==> d in daily
  {
    if order == [] then GrandTotals(0.0, 0.0)
    else
      var g := Grand(daily, order[..|order| - 1]);
      var rec := daily[order[|order| - 1]];
      GrandTotals(g.pnl + rec.pnl, g.volume + rec.volume)
  }

  /** Entries under dates outside `order` do not count. */
  lemma {:induction false} GrandIgnoresOtherDates(daily: map<Date, DailyRecord>, order: seq<Date>, d: Date, rec: DailyRecord)
    requires forall e :: e in order ==> e in daily
    requires d !in order
    ensures Grand(daily[d := rec], order) == Grand(daily, order)
  {
    if order != [] {
      GrandIgnoresOtherDates(daily, order[..|order| - 1], d, rec);
    }
  }

  /** The grand totals over a table extended by one new date add that date's entry. */
  lemma GrandAppend(daily: map<Date, DailyRecord>, order: seq<Date>, d: Date, rec: DailyRecord)
    requires forall e :: e in order ==> e in daily
    requires d !in order
    ensures Grand(daily[d := rec], order + [d])
            == GrandTotals(Grand(daily, order).pnl + rec.pnl, Grand(daily, order).volume + rec.volume)
  {
    GrandIgnoresOtherDates(daily, order, d, rec);
    assert (order + [d])[..|order|] == order;
  }

  /** One more row adds its daily pnl and volume to the all-time bucket when it is dated, and nothing otherwise. */
  lemma AllDatesStep(rows: seq<DailyRow>, ppa: map<Date, PpaDay>)
    requires rows != []
    ensures var n := |rows| - 1;
            var t, t0 := Totals(rows, ppa, AllDates), Totals(rows[..n], ppa, AllDates);
            if rows[n].date.Some?
            then t.pnl == t0.pnl + DayRecord(rows[n], ppa).pnl && t.volume == t0.volume + DayRecord(rows[n], ppa).volume
            else t.pnl == t0.pnl && t.volume == t0.volume
  {
    var n := |rows| - 1;
    if rows[n].date.Some? {
      assert Contribution(rows[n], ppa, AllDates) == RowBucket(rows[n], ppa);
    } else {
      assert Contribution(rows[n], ppa, AllDates) == EmptyBucket;
    }
  }

  /** Reading one more row with a new date adds that row's pnl and volume to the grand totals. */
  lemma GrandStepDated(rows: seq<DailyRow>, ppa: map<Date, PpaDay>)
    requires rows != [] && rows[|rows| - 1].date.Some?
    requires rows[|rows| - 1].date.value !in ValidDates(rows[..|rows| - 1])
    ensures var n := |rows| - 1;
            var g0 := Grand(DailyTable(rows[..n], ppa), DayOrder(rows[..n]));
            var rec := DayRecord(rows[n], ppa);
            Grand(DailyTable(rows, ppa), DayOrder(rows)) == GrandTotals(g0.pnl + rec.pnl, g0.volume + rec.volume)
  {
    var n := |rows| - 1;
    TableStep(rows, ppa);
    GrandAppend(DailyTable(rows[..n], ppa), DayOrder(rows[..n]), rows[n].date.value, DayRecord(rows[n], ppa));
  }

  /** Reading one more undated row leaves the grand totals as they were. */
  lemma GrandStepUndated(rows: seq<DailyRow>, ppa: map<Date, PpaDay>)
    requires rows != [] && rows[|rows| - 1].date.None?
    ensures Grand(DailyTable(rows, ppa), DayOrder(rows))
            == Grand(DailyTable(rows[..|rows| - 1], ppa), DayOrder(rows[..|rows| - 1]))
  {
  }

  /** Without repeated dates, the last row's date is not among the earlier ones, and the earlier rows keep distinct dates. */
  lemma LastDateIsNew(rows: seq<DailyRow>)
    requires rows != [] && DistinctDates(rows)
    ensures DistinctDates(rows[..|rows| - 1])
    ensures rows[|rows| - 1].date.Some? ==> rows[|rows| - 1].date.value !in ValidDates(rows[..|rows| - 1])
  {
    var n := |rows| - 1;
    var init := rows[..n];
    assert forall k :: 0 <= k < n ==> init[k] == rows[k];
  }

  /** Without repeated dates, one more row changes the grand totals and the all-time bucket by the same pnl and volume. */
  lemma GrandStep(rows: seq<DailyRow>, ppa: map<Date, PpaDay>)
    requires rows != [] && DistinctDates(rows)
    ensures var init := rows[..|rows| - 1];
            var g, g0 := Grand(DailyTable(rows, ppa), DayOrder(rows)), Grand(DailyTable(init, ppa), DayOrder(init));
            var t, t0 := Totals(rows, ppa, AllDates), Totals(init, ppa, AllDates);
            g.pnl - g0.pnl == t.pnl - t0.pnl && g.volume - g0.volume == t.volume - t0.volume
  {
    LastDateIsNew(rows);
    AllDatesStep(rows, ppa);
    if rows[|rows| - 1].date.Some? {
      GrandStepDated(rows, ppa);
    } else {
      GrandStepUndated(rows, ppa);
    }
  }

  /** With distinct dates, the grand totals are the pnl and volume of all dated rows. */
  lemma {:induction false} GrandTotalsMatchRows(rows: seq<DailyRow>, ppa: map<Date, PpaDay>)
    requires DistinctDates(rows)
    ensures Grand(DailyTable(rows, ppa), DayOrder(rows))
            == GrandTotals(Totals(rows, ppa, AllDates).pnl, Totals(rows, ppa, AllDates).volume)
  {
    if rows != [] {
      var init := rows[..|rows| - 1];
      LastDateIsNew(rows);
      GrandTotalsMatchRows(init, ppa);
      GrandStep(rows, ppa);
    }
  }

  /** Sum of the buckets of the periods `ps`. */
  function SumTotals(rows: seq<DailyRow>, ppa: map<Date, PpaDay>, ps: seq<Period>): Bucket
  {
    if ps == [] then EmptyBucket else Plus(Totals(rows, ppa, ps[0]), SumTotals(rows, ppa, ps[1..]))
  }

  /** Sum of one row's contributions to the periods `ps`. */
  function SumContributions(row: DailyRow, ppa: map<Date, PpaDay>, ps: seq<Period>): Bucket
  {
    if ps == [] then EmptyBucket else Plus(Contribution(row, ppa, ps[0]), SumContributions(row, ppa, ps[1..]))
  }

  /** How many of the periods `ps` contain date `d`. */
  function Covers(ps: seq<Period>, d: Date): nat
  {
    if ps == [] then 0 else (if InPeriod(d, ps[0]) then 1 else 0) + Covers(ps[1..], d)
  }

  lemma PlusInterchange(a: Bucket, b: Bucket, c: Bucket, d: Bucket)
    ensures Plus(Plus(a, b), Plus(c, d)) == Plus(Plus(a, c), Plus(b, d))
  {
  }

  lemma PlusEmpty(a: Bucket)
    ensures Plus(a, EmptyBucket) == a && Plus(EmptyBucket, a) == a
  {
  }

  lemma {:induction false} SumTotalsOfNoRows(ppa: map<Date, PpaDay>, ps: seq<Period>)
    ensures SumTotals([], ppa, ps) == EmptyBucket
  {
    if ps != [] {
      SumTotalsOfNoRows(ppa, ps[1..]);
      assert Totals([], ppa, ps[0]) == EmptyBucket;
      PlusEmpty(EmptyBucket);
    }
  }

  lemma {:induction false} SumTotalsStep(rows: seq<DailyRow>, ppa: map<Date, PpaDay>, ps: seq<Period>)
    requires rows != []
    ensures SumTotals(rows, ppa, ps)
            == Plus(SumTotals(rows[..|rows| - 1], ppa, ps), SumContributions(rows[|rows| - 1], ppa, ps))
  {
    if ps != [] {
      var n := |rows| - 1;
      var init, row := rows[..n], rows[n];
      SumTotalsStep(rows, ppa, ps[1..]);
      assert Totals(rows, ppa, ps[0]) == Plus(Totals(init, ppa, ps[0]), Contribution(row, ppa, ps[0]));
      PlusInterchange(Totals(init, ppa, ps[0]), Contribution(row, ppa, ps[0]),
                      SumTotals(init, ppa, ps[1..]), SumContributions(row, ppa, ps[1..]));
    }
  }

  /** A row covered by none of the periods adds nothing to their sum. */
  lemma {:induction false} SumContributionsUncovered(row: DailyRow, ppa: map<Date, PpaDay>, ps: seq<Period>)
    requires row.date.Some? && Covers(ps, row.date.value) == 0
    ensures SumContributions(row, ppa, ps) == EmptyBucket
  {
    if ps != [] {
      SumContributionsUncovered(row, ppa, ps[1..]);
      assert Contribution(row, ppa, ps[0]) == EmptyBucket;
      PlusEmpty(EmptyBucket);
    }
  }

  /** A row covered by exactly one of the periods adds its bucket once to their sum. */
  lemma {:induction false} SumContributionsCoveredOnce(row: DailyRow, ppa: map<Date, PpaDay>, ps: seq<Period>)
    requires row.date.Some? && Covers(ps, row.date.value) == 1
    ensures SumContributions(row, ppa, ps) == RowBucket(row, ppa)
  {
    var d := row.date.value;
    var rb := RowBucket(row, ppa);
    if InPeriod(d, ps[0]) {
      SumContributionsUncovered(row, ppa, ps[1..]);
      PlusEmpty(rb);
    } else {
      SumContributionsCoveredOnce(row, ppa, ps[1..]);
      PlusEmpty(rb);
    }
  }

  lemma {:induction false} SumContributionsUndated(row: DailyRow, ppa: map<Date, PpaDay>, ps: seq<Period>)
    requires row.date.None?
    ensures SumContributions(row, ppa, ps) == EmptyBucket
  {
    if ps != [] {
      SumContributionsUndated(row, ppa, ps[1..]);
      assert Contribution(row, ppa, ps[0]) == EmptyBucket;
      PlusEmpty(EmptyBucket);
    }
  }

  /**
   * Re-combining buckets: when the periods `ps` split the dates of `q` (each
   * dated row in `q` lies in exactly one of them, and a row outside `q` in
   * none), the buckets of `ps` add up to the bucket of `q`.
   */
  lemma {:induction false} TotalsPartition(rows: seq<DailyRow>, ppa: map<Date, PpaDay>, ps: seq<Period>, q: Period)
    requires forall k :: 0 <= k < |rows| && rows[k].date.Some? ==>
               Covers(ps, rows[k].date.value) == if InPeriod(rows[k].date.value, q) then 1 else 0
    ensures SumTotals(rows, ppa, ps) == Totals(rows, ppa, q)
  {
    if rows == [] {
      SumTotalsOfNoRows(ppa, ps);
    } else {
      var n := |rows| - 1;
      var init, row := rows[..n], rows[n];
      assert forall k :: 0 <= k < n ==> init[k] == rows[k];
      TotalsPartition(init, ppa, ps, q);
      SumTotalsStep(rows, ppa, ps);
      if row.date.Some? && InPeriod(row.date.value, q) {
        SumContributionsCoveredOnce(row, ppa, ps);
      } else if row.date.Some? {
        SumContributionsUncovered(row, ppa, ps);
      } else {
        SumContributionsUndated(row, ppa, ps);
      }
    }
  }

  /** The months m..12 of year y. */
  function MonthsFrom(y: int, m: int): seq<Period>
    decreases 13 - m
  {
    if m > 12 then [] else [Month(y, m)] + MonthsFrom(y, m + 1)
  }

  lemma {:induction false} CoversMonthsFrom(y: int, m: int, d: Date)
    requires 1 <= d.month <= 12
    ensures Covers(MonthsFrom(y, m), d) == if d.year == y && m <= d.month then 1 else 0
    decreases 13 - m
  {
    if m <= 12 {
      CoversMonthsFrom(y, m + 1, d);
      assert MonthsFrom(y, m)[1..] == MonthsFrom(y, m + 1);
    }
  }

  /** A year's bucket is the sum of its twelve month buckets. */
  lemma YearIsSumOfMonths(rows: seq<DailyRow>, ppa: map<Date, PpaDay>, y: int)
    requires forall k :: 0 <= k < |rows| && rows[k].date.Some? ==> 1 <= rows[k].date.value.month <= 12
    ensures SumTotals(rows, ppa, MonthsFrom(y, 1)) == Totals(rows, ppa, Year(y))
  {
    forall k | 0 <= k < |rows| && rows[k].date.Some?
      ensures Covers(MonthsFrom(y, 1), rows[k].date.value) == if InPeriod(rows[k].date.value, Year(y)) then 1 else 0
    {
      CoversMonthsFrom(y, 1, rows[k].date.value);
    }
    TotalsPartition(rows, ppa, MonthsFrom(y, 1), Year(y));
  }

  /** The year periods of a list of years. */
  function YearPeriods(ys: seq<int>): (ps: seq<Period>)
    ensures |ps| == |ys|
    ensures forall k :: 0 <= k < |ys| ==> ps[k] == Year(ys[k])
  {
    if ys == [] then [] else [Year(ys[0])] + YearPeriods(ys[1..])
  }

  lemma {:induction false} CoversYears(ys: seq<int>, d: Date)
    requires forall i, j :: 0 <= i < j < |ys| ==> ys[i] != ys[j]
    ensures Covers(YearPeriods(ys), d) == if d.year in ys then 1 else 0
  {
    if ys != [] {
      assert YearPeriods(ys)[1..] == YearPeriods(ys[1..]);
      CoversYears(ys[1..], d);
      assert d.year in ys <==> d.year == ys[0] || d.year in ys[1..];
    }
  }

  /** The year buckets of distinct years covering every dated row add up to the bucket of all dates. */
  lemma YearsSumToAllDates(rows: seq<DailyRow>, ppa: map<Date, PpaDay>, ys: seq<int>)
    requires forall i, j :: 0 <= i < j < |ys| ==> ys[i] != ys[j]
    requires forall k :: 0 <= k < |rows| && rows[k].date.Some? ==> rows[k].date.value.year in ys
    ensures SumTotals(rows, ppa, YearPeriods(ys)) == Totals(rows, ppa, AllDates)
  {
    forall k | 0 <= k < |rows| && rows[k].date.Some?
      ensures Covers(YearPeriods(ys), rows[k].date.value) == if InPeriod(rows[k].date.value, AllDates) then 1 else 0
    {
      CoversYears(ys, rows[k].date.value);
    }
    TotalsPartition(rows, ppa, YearPeriods(ys), AllDates);
  }

  /** With distinct dates, total_pnl and total_volume equal the sums over the year buckets. */
  lemma GrandTotalsMatchYears(rows: seq<DailyRow>, ppa: map<Date, PpaDay>, ys: seq<int>)
    requires DistinctDates(rows)
    requires forall i, j :: 0 <= i < j < |ys| ==> ys[i] != ys[j]
    requires forall k :: 0 <= k < |rows| && rows[k].date.Some? ==> rows[k].date.value.year in ys
    ensures Grand(DailyTable(rows, ppa), DayOrder(rows)).pnl == SumTotals(rows, ppa, YearPeriods(ys)).pnl
    ensures Grand(DailyTable(rows, ppa), DayOrder(rows)).volume == SumTotals(rows, ppa, YearPeriods(ys)).volume
  {
    GrandTotalsMatchRows(rows, ppa);
    YearsSumToAllDates(rows, ppa, ys);
  }

  /** The result of the import. */
  datatype ImportResult = ImportResult(
    daily: map<Date, DailyRecord>,
    dayOrder: seq<Date>,
    monthly: map<Period, Summary>,
    annual: map<Period, Summary>,
    totalPnl: real,
    totalVolume: real)

  /**
   * The import: roll up the PPA sheet, read the Daily sheet into the daily
   * table and the buckets, finalise the buckets and sum the grand totals.
   */
  method ImportNwoh(ppaRows: seq<PpaRow>, dailyRows: seq<DailyRow>) returns (res: ImportResult)
    ensures res.daily == DailyTable(dailyRows, PpaTable(ppaRows))
    ensures res.dayOrder == DayOrder(dailyRows)
    ensures res.monthly.Keys == MonthKeys(dailyRows)
    ensures forall p :: p in res.monthly ==> res.monthly[p] == Finalize(Totals(dailyRows, PpaTable(ppaRows), p))
    ensures res.annual.Keys == YearKeys(dailyRows)
    ensures forall p :: p in res.annual ==> res.annual[p] == Finalize(Totals(dailyRows, PpaTable(ppaRows), p))
    ensures GrandTotals(res.totalPnl, res.totalVolume) == Grand(res.daily, res.dayOrder)
    ensures DistinctDates(dailyRows) ==>
              res.totalPnl == Totals(dailyRows, PpaTable(ppaRows), AllDates).pnl
              && res.totalVolume == Totals(dailyRows, PpaTable(ppaRows), AllDates).volume
  {
    var ppa := PpaByDate(ppaRows);
    var daily, order, monthly, annual := AccumulateDays(dailyRows, ppa);
    var monthlySummaries := FinalizeBuckets(monthly);
    var annualSummaries := FinalizeBuckets(annual);
    var grand := Grand(daily, order);
    if DistinctDates(dailyRows) {
      GrandTotalsMatchRows(dailyRows, ppa);
    }
    res := ImportResult(daily, order, monthlySummaries, annualSummaries, grand.pnl, grand.volume);
  }

  /**
   * End to end, for a date that appears once on the Daily sheet: its pnl is
   * the gross revenue plus the fixed payments minus the floating payments of
   * that date's five-minute PPA rows (nothing when it has none).
   */
  lemma DailyPnlFromSheets(ppaRows: seq<PpaRow>, dailyRows: seq<DailyRow>, k: nat)
    requires k < |dailyRows| && dailyRows[k].date.Some?
    requires forall j :: k < j < |dailyRows| ==> dailyRows[j].date != dailyRows[k].date
    ensures var d := dailyRows[k].date.value;
            DailyTable(dailyRows, PpaTable(ppaRows))[d].pnl
            == GetOr(dailyRows[k].grossRevenue, 0.0) + SumsOn(ppaRows, d).fixed - SumsOn(ppaRows, d).floating
  {
    var d := dailyRows[k].date.value;
    LastRowWins(dailyRows, PpaTable(ppaRows), k);
    if d !in PpaDates(ppaRows) {
      SumsOnOtherDates(ppaRows, d);
    }
  }
}
