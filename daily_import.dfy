/**
 * The daily part of the NWOH import (import_nwoh_excel.py): each row of the
 * Daily sheet becomes a daily record keyed by its date, and is added into the
 * bucket of its month and the bucket of its year.
 *
 * Missing numeric cells count as 0. The PPA figures of a date come from the
 * roll-up of the five-minute sheet; a date without PPA rows has no hub price,
 * no basis and a net PPA settlement of 0.
 */
module DailyImport {
  import opened Wrappers
  import opened Calendar
  import opened PpaRollup

  /** Fixed price of the NWOH power purchase agreement, $/MWh. */
  const PPA_PRICE: real := 33.31

  /** One row of the Daily sheet; `date` is None when it did not parse. */
  datatype DailyRow = DailyRow(
    date: Option<Date>,
    genMwh: Option<real>,
    daMwh: Option<real>,
    daLmp: Option<real>,
    rtLmp: Option<real>,
    daRevenue: Option<real>,
    rtRevenue: Option<real>,
    grossRevenue: Option<real>)

  /** Python truthiness of an optional number: present and non-zero. */
  predicate Truthy(x: Option<real>)
  {
    x.Some? && x.value != 0.0
  }

  function HubPriceOn(ppa: map<Date, PpaDay>, d: Date): Option<real>
  {
    if d in ppa then ppa[d].gwaHub else None
  }

  function BasisOn(ppa: map<Date, PpaDay>, d: Date): Option<real>
  {
    if d in ppa then ppa[d].gwaBasis else None
  }

  /** Net PPA settlement of date `d`; 0 when the date had no PPA rows. */
  function NetPpaOn(ppa: map<Date, PpaDay>, d: Date): real
  {
    if d in ppa then ppa[d].netSettlement else 0.0
  }

  /** The node price used for the node product: the day's weighted node price, or the RT LMP when that is missing or 0. */
  function NodePriceOn(ppa: map<Date, PpaDay>, row: DailyRow): (price: real)
    requires row.date.Some?
    ensures row.date.value in ppa && Truthy(ppa[row.date.value].gwaNode) ==> price == ppa[row.date.value].gwaNode.value
    ensures !(row.date.value in ppa && Truthy(ppa[row.date.value].gwaNode)) ==> price == GetOr(row.rtLmp, 0.0)
  {
    var d := row.date.value;
    if d in ppa && Truthy(ppa[d].gwaNode) then ppa[d].gwaNode.value else GetOr(row.rtLmp, 0.0)
  }

  /** One entry of the daily table. */
  datatype DailyRecord = DailyRecord(
    pnl: real,
    volume: real,
    daMwh: real,
    daRevenue: real,
    rtMwh: real,
    rtRevenue: real,
    rtSalesRevenue: real,
    rtPurchaseCost: real,
    avgDaPrice: real,
    avgRtPrice: real,
    avgHubPrice: Option<real>,
    gwaBasis: Option<real>,
    realizedPrice: Option<real>,
    pjmGrossRevenue: real,
    ppaFixedPayment: Option<real>,
    ppaFloatingPayment: Option<real>,
    ppaNetSettlement: real,
    count: nat)

  /**
   * The daily record of a dated row. PnL is the PJM gross revenue plus the
   * net PPA settlement; the RT revenue is split into a sale or a purchase;
   * the realized price is the PPA price plus the basis, only for a non-zero
   * basis.
   */
  function DayRecord(row: DailyRow, ppa: map<Date, PpaDay>): (r: DailyRecord)
    requires row.date.Some?
    ensures r.pnl == r.pjmGrossRevenue + r.ppaNetSettlement
    ensures r.pjmGrossRevenue == GetOr(row.grossRevenue, 0.0)
    ensures r.volume == GetOr(row.genMwh, 0.0) && r.daMwh == GetOr(row.daMwh, 0.0)
    ensures r.daRevenue == GetOr(row.daRevenue, 0.0) && r.rtRevenue == GetOr(row.rtRevenue, 0.0)
    ensures r.avgDaPrice == GetOr(row.daLmp, 0.0) && r.avgRtPrice == GetOr(row.rtLmp, 0.0)
    ensures row.date.value !in ppa ==>
              r.ppaNetSettlement == 0.0 && r.pnl == r.pjmGrossRevenue
              && r.avgHubPrice.None? && r.gwaBasis.None? && r.realizedPrice.None?
              && r.ppaFixedPayment.None? && r.ppaFloatingPayment.None?
    ensures row.date.value in ppa ==>
              r.ppaFixedPayment == Some(ppa[row.date.value].fixedPayment)
              && r.ppaFloatingPayment == Some(ppa[row.date.value].floatingPayment)
              && r.ppaNetSettlement == ppa[row.date.value].netSettlement
              && r.avgHubPrice == ppa[row.date.value].gwaHub
              && r.gwaBasis == ppa[row.date.value].gwaBasis
    ensures r.rtSalesRevenue >= 0.0 && r.rtPurchaseCost >= 0.0
    ensures r.rtSalesRevenue == 0.0 || r.rtPurchaseCost == 0.0
    ensures r.rtSalesRevenue - r.rtPurchaseCost == r.rtRevenue
    ensures r.rtMwh + r.daMwh == r.volume
    ensures r.realizedPrice.Some? <==> Truthy(r.gwaBasis)
    ensures r.realizedPrice.Some? ==> r.realizedPrice.value - r.gwaBasis.value == PPA_PRICE
    ensures r.count == 1
  {
    var d := row.date.value;
    var gen := GetOr(row.genMwh, 0.0);
    var daMwh := GetOr(row.daMwh, 0.0);
    var rtRevenue := GetOr(row.rtRevenue, 0.0);
    var gross := GetOr(row.grossRevenue, 0.0);
    var basis := BasisOn(ppa, d);
    var netPpa := NetPpaOn(ppa, d);
    DailyRecord(
      pnl := gross + netPpa,
      volume := gen,
      daMwh := daMwh,
      daRevenue := GetOr(row.daRevenue, 0.0),
      rtMwh := gen - daMwh,
      rtRevenue := rtRevenue,
      rtSalesRevenue := if rtRevenue > 0.0 then rtRevenue else 0.0,
      rtPurchaseCost := if rtRevenue < 0.0 then -rtRevenue else 0.0,
      avgDaPrice := GetOr(row.daLmp, 0.0),
      avgRtPrice := GetOr(row.rtLmp, 0.0),
      avgHubPrice := HubPriceOn(ppa, d),
      gwaBasis := basis,
      realizedPrice := if Truthy(basis) then Some(PPA_PRICE + basis.value) else None,
      pjmGrossRevenue := gross,
      ppaFixedPayment := if d in ppa then Some(ppa[d].fixedPayment) else None,
      ppaFloatingPayment := if d in ppa then Some(ppa[d].floatingPayment) else None,
      ppaNetSettlement := netPpa,
      count := 1)
  }

  /** Running totals of a month or year bucket. */
  datatype Bucket = Bucket(
    pnl: real,
    volume: real,
    daMwh: real,
    daRevenue: real,
    rtRevenue: real,
    hubProduct: real,
    nodeProduct: real,
    daLmpProduct: real,
    rtLmpProduct: real,
    count: nat)

  const EmptyBucket := Bucket(0.0, 0.0, 0.0, 0.0, 0.0, 0.0, 0.0, 0.0, 0.0, 0)

  function Plus(a: Bucket, b: Bucket): Bucket
  {
    Bucket(a.pnl + b.pnl, a.volume + b.volume, a.daMwh + b.daMwh, a.daRevenue + b.daRevenue,
           a.rtRevenue + b.rtRevenue, a.hubProduct + b.hubProduct, a.nodeProduct + b.nodeProduct,
           a.daLmpProduct + b.daLmpProduct, a.rtLmpProduct + b.rtLmpProduct, a.count + b.count)
  }

  /** Does the row feed the hub and node products: a truthy hub price and positive generation? */
  predicate HubPriced(row: DailyRow, ppa: map<Date, PpaDay>)
    requires row.date.Some?
  {
    Truthy(HubPriceOn(ppa, row.date.value)) && GetOr(row.genMwh, 0.0) > 0.0
  }

  /**
   * What one dated row adds to each bucket it falls in. Its pnl, volume,
   * day-ahead and revenue figures are those of its daily record; the hub and
   * node products grow only on hub-priced days.
   */
  function RowBucket(row: DailyRow, ppa: map<Date, PpaDay>): (b: Bucket)
    requires row.date.Some?
    ensures var rec := DayRecord(row, ppa);
              b.pnl == rec.pnl && b.volume == rec.volume && b.daMwh == rec.daMwh
              && b.daRevenue == rec.daRevenue && b.rtRevenue == rec.rtRevenue
              && b.daLmpProduct == rec.daMwh * rec.avgDaPrice && b.rtLmpProduct == rec.volume * rec.avgRtPrice
    ensures !HubPriced(row, ppa) ==> b.hubProduct == 0.0 && b.nodeProduct == 0.0
    ensures HubPriced(row, ppa) ==>
              b.hubProduct == GetOr(row.genMwh, 0.0) * HubPriceOn(ppa, row.date.value).value
              && b.nodeProduct == GetOr(row.genMwh, 0.0) * NodePriceOn(ppa, row)
    ensures b.count == 1
  {
    var d := row.date.value;
    var gen := GetOr(row.genMwh, 0.0);
    var daMwh := GetOr(row.daMwh, 0.0);
    var priced := HubPriced(row, ppa);
    Bucket(
      pnl := GetOr(row.grossRevenue, 0.0) + NetPpaOn(ppa, d),
      volume := gen,
      daMwh := daMwh,
      daRevenue := GetOr(row.daRevenue, 0.0),
      rtRevenue := GetOr(row.rtRevenue, 0.0),
      hubProduct := if priced then gen * HubPriceOn(ppa, d).value else 0.0,
      nodeProduct := if priced then gen * NodePriceOn(ppa, row) else 0.0,
      daLmpProduct := daMwh * GetOr(row.daLmp, 0.0),
      rtLmpProduct := gen * GetOr(row.rtLmp, 0.0),
      count := 1)
  }

  /** The row's addition to the bucket of period `p`: nothing unless the row is dated within `p`. */
  function Contribution(row: DailyRow, ppa: map<Date, PpaDay>, p: Period): Bucket
  {
    if row.date.Some? && InPeriod(row.date.value, p) then RowBucket(row, ppa) else EmptyBucket
  }

  /** The bucket of period `p` after the rows, in order. */
  function Totals(rows: seq<DailyRow>, ppa: map<Date, PpaDay>, p: Period): Bucket
  {
    if rows == [] then EmptyBucket
    else Plus(Totals(rows[..|rows| - 1], ppa, p), Contribution(rows[|rows| - 1], ppa, p))
  }

  /** Indices of the dated rows that fall in `p`. */
  function RowsIn(rows: seq<DailyRow>, p: Period): set<nat>
  {
    set k: nat | k < |rows| && rows[k].date.Some? && InPeriod(rows[k].date.value, p)
  }

  /** A bucket's count is the number of dated rows in its period. */
  lemma {:induction false} TotalsCount(rows: seq<DailyRow>, ppa: map<Date, PpaDay>, p: Period)
    ensures Totals(rows, ppa, p).count == |RowsIn(rows, p)|
  {
    if rows != [] {
      var n := |rows| - 1;
      var init := rows[..n];
      TotalsCount(init, ppa, p);
      if rows[n].date.Some? && InPeriod(rows[n].date.value, p) {
        assert RowsIn(rows, p) == RowsIn(init, p) + {n};
      } else {
        assert RowsIn(rows, p) == RowsIn(init, p);
      }
    }
  }

  /** A period without dated rows has an empty bucket. */
  lemma {:induction false} TotalsOfEmptyPeriod(rows: seq<DailyRow>, ppa: map<Date, PpaDay>, p: Period)
    requires forall k :: 0 <= k < |rows| && rows[k].date.Some? ==> !InPeriod(rows[k].date.value, p)
    ensures Totals(rows, ppa, p) == EmptyBucket
  {
    if rows != [] {
      TotalsOfEmptyPeriod(rows[..|rows| - 1], ppa, p);
    }
  }

  /** The hub and node products of a bucket come only from its hub-priced days. */
  lemma {:induction false} ProductsOnlyFromHubPricedDays(rows: seq<DailyRow>, ppa: map<Date, PpaDay>, p: Period)
    requires forall k :: 0 <= k < |rows| && rows[k].date.Some? && InPeriod(rows[k].date.value, p)
               ==> !HubPriced(rows[k], ppa)
    ensures Totals(rows, ppa, p).hubProduct == 0.0 && Totals(rows, ppa, p).nodeProduct == 0.0
  {
    if rows != [] {
      ProductsOnlyFromHubPricedDays(rows[..|rows| - 1], ppa, p);
    }
  }

  /** The dates of the dated rows. */
  function ValidDates(rows: seq<DailyRow>): set<Date>
  {
    set k | 0 <= k < |rows| && rows[k].date.Some? :: rows[k].date.value
  }

  /** Keys of the monthly buckets: the months of the dated rows. */
  function MonthKeys(rows: seq<DailyRow>): set<Period>
  {
    set k | 0 <= k < |rows| && rows[k].date.Some? :: MonthOf(rows[k].date.value)
  }

  /** Keys of the annual buckets: the years of the dated rows. */
  function YearKeys(rows: seq<DailyRow>): set<Period>
  {
    set k | 0 <= k < |rows| && rows[k].date.Some? :: YearOf(rows[k].date.value)
  }

  /**
   * The daily table after the rows, in order: each dated row writes its
   * record under its date, so a later row overwrites an earlier one.
   */
  function DailyTable(rows: seq<DailyRow>, ppa: map<Date, PpaDay>): (t: map<Date, DailyRecord>)
    ensures t.Keys == ValidDates(rows)
  {
    if rows == [] then map[]
    else
      var n := |rows| - 1;
      var t0 := DailyTable(rows[..n], ppa);
      assert forall k :: 0 <= k < n ==> rows[..n][k] == rows[k];
      if rows[n].date.Some? then t0[rows[n].date.value := DayRecord(rows[n], ppa)] else t0
  }

  /** The order in which dates were first written to the daily table (dict order). */
  function DayOrder(rows: seq<DailyRow>): (o: seq<Date>)
    ensures forall d :: d in o <==> d in ValidDates(rows)
    ensures forall i, j :: 0 <= i < j < |o| ==> o[i] != o[j]
  {
    if rows == [] then []
    else
      var n := |rows| - 1;
      var o0 := DayOrder(rows[..n]);
      assert forall k :: 0 <= k < n ==> rows[..n][k] == rows[k];
      if rows[n].date.Some? && rows[n].date.value !in o0 then o0 + [rows[n].date.value] else o0
  }

  /**
   * Dates are listed in the order they are first seen: the key order of any
   * leading part of the sheet is a prefix of the key order of the whole sheet.
   */
  lemma {:induction false} DayOrderFirstSeen(rows: seq<DailyRow>, p: nat)
    requires p <= |rows|
    ensures DayOrder(rows[..p]) <= DayOrder(rows)
  {
    if p < |rows| {
      var n := |rows| - 1;
      assert rows[..n][..p] == rows[..p];
      DayOrderFirstSeen(rows[..n], p);
    } else {
      assert rows[..p] == rows;
    }
  }

  /** The daily entry of a date is the record of the last row with that date. */
  lemma {:induction false} LastRowWins(rows: seq<DailyRow>, ppa: map<Date, PpaDay>, k: nat)
    requires k < |rows| && rows[k].date.Some?
    requires forall j :: k < j < |rows| ==> rows[j].date != rows[k].date
    ensures DailyTable(rows, ppa)[rows[k].date.value] == DayRecord(rows[k], ppa)
  {
    var n := |rows| - 1;
    var init := rows[..n];
    TableStep(rows, ppa);
    if k < n {
      assert init[k] == rows[k];
      assert forall j :: k < j < |init| ==> init[j] == rows[j];
      LastRowWins(init, ppa, k);
    }
  }

  /** Adds `delta` into the bucket under `key`, starting from an empty bucket when the key is new (defaultdict). */
  function AddTo(buckets: map<Period, Bucket>, key: Period, delta: Bucket): (r: map<Period, Bucket>)
    ensures r.Keys == buckets.Keys + {key}
    ensures key in buckets ==> r[key] == Plus(buckets[key], delta)
    ensures key !in buckets ==> r[key] == delta
    ensures forall p :: p in buckets && p != key ==> r[p] == buckets[p]
  {
    buckets[key := Plus(if key in buckets then buckets[key] else EmptyBucket, delta)]
  }

  /**
   * Adding a dated row into the bucket of its period keeps every bucket equal
   * to the totals of its period, given that the other buckets' periods do not
   * contain the row's date and that a period missing from the map had no rows.
   */
  lemma AddToKeepsTotals(buckets: map<Period, Bucket>, rows: seq<DailyRow>, ppa: map<Date, PpaDay>, row: DailyRow, key: Period)
    requires row.date.Some? && InPeriod(row.date.value, key)
    requires forall p :: p in buckets ==> buckets[p] == Totals(rows, ppa, p)
    requires forall p :: p in buckets && p != key ==> !InPeriod(row.date.value, p)
    requires key !in buckets ==> forall k :: 0 <= k < |rows| && rows[k].date.Some? ==> !InPeriod(rows[k].date.value, key)
    ensures forall p :: p in AddTo(buckets, key, RowBucket(row, ppa)) ==>
              AddTo(buckets, key, RowBucket(row, ppa))[p] == Totals(rows + [row], ppa, p)
  {
    var rows', delta := rows + [row], RowBucket(row, ppa);
    assert rows'[..|rows'| - 1] == rows;
    var r := AddTo(buckets, key, delta);
    forall p | p in r
      ensures r[p] == Totals(rows', ppa, p)
    {
      if p == key {
        assert Contribution(row, ppa, p) == delta;
        if key !in buckets {
          TotalsOfEmptyPeriod(rows, ppa, key);
        }
      } else {
        assert Contribution(row, ppa, p) == EmptyBucket;
      }
    }
  }

  /** No date appears on two dated rows. */
  ghost predicate DistinctDates(rows: seq<DailyRow>)
  {
    forall i, j :: 0 <= i < j < |rows| && rows[i].date.Some? && rows[j].date.Some? ==> rows[i].date != rows[j].date
  }

  /** Reading one more row overwrites the daily entry of its date and, for a new date, appends it to the key order. */
  lemma TableStep(rows: seq<DailyRow>, ppa: map<Date, PpaDay>)
    requires rows != []
    ensures var n := |rows| - 1;
            DailyTable(rows, ppa) ==
              if rows[n].date.Some? then DailyTable(rows[..n], ppa)[rows[n].date.value := DayRecord(rows[n], ppa)]
              else DailyTable(rows[..n], ppa)
    ensures var n := |rows| - 1;
            DayOrder(rows) ==
              if rows[n].date.Some? && rows[n].date.value !in DayOrder(rows[..n])
              then DayOrder(rows[..n]) + [rows[n].date.value] else DayOrder(rows[..n])
  {
  }

  /** Reading one more dated row adds its month and its year to the bucket keys. */
  lemma KeysStep(rows: seq<DailyRow>)
    requires rows != []
    ensures var n := |rows| - 1;
            MonthKeys(rows) == MonthKeys(rows[..n]) + (if rows[n].date.Some? then {MonthOf(rows[n].date.value)} else {})
    ensures var n := |rows| - 1;
            YearKeys(rows) == YearKeys(rows[..n]) + (if rows[n].date.Some? then {YearOf(rows[n].date.value)} else {})
  {
    var n := |rows| - 1;
    assert forall k :: 0 <= k < n ==> rows[..n][k] == rows[k];
  }

  /** How the daily table, its key order and the bucket keys change when row `i` is read. */
  lemma PrefixStep(rows: seq<DailyRow>, ppa: map<Date, PpaDay>, i: nat)
    requires i < |rows|
    ensures DailyTable(rows[..i + 1], ppa) ==
              if rows[i].date.Some? then DailyTable(rows[..i], ppa)[rows[i].date.value := DayRecord(rows[i], ppa)]
              else DailyTable(rows[..i], ppa)
    ensures DayOrder(rows[..i + 1]) ==
              if rows[i].date.Some? && rows[i].date.value !in DayOrder(rows[..i])
              then DayOrder(rows[..i]) + [rows[i].date.value] else DayOrder(rows[..i])
    ensures MonthKeys(rows[..i + 1]) ==
              MonthKeys(rows[..i]) + (if rows[i].date.Some? then {MonthOf(rows[i].date.value)} else {})
    ensures YearKeys(rows[..i + 1]) ==
              YearKeys(rows[..i]) + (if rows[i].date.Some? then {YearOf(rows[i].date.value)} else {})
    ensures rows[..i + 1] == rows[..i] + [rows[i]]
  {
    var rs := rows[..i + 1];
    assert rs[..i] == rows[..i] && rs[i] == rows[i];
    TableStep(rs, ppa);
    KeysStep(rs);
  }

  /** Adding a dated row to the bucket of its month keeps the month buckets equal to their totals. */
  lemma MonthBucketsStep(monthly: map<Period, Bucket>, rows: seq<DailyRow>, ppa: map<Date, PpaDay>, row: DailyRow)
    requires row.date.Some?
    requires monthly.Keys == MonthKeys(rows)
    requires forall p :: p in monthly ==> monthly[p] == Totals(rows, ppa, p)
    ensures var r := AddTo(monthly, MonthOf(row.date.value), RowBucket(row, ppa));
            forall p :: p in r ==> r[p] == Totals(rows + [row], ppa, p)
  {
    var key := MonthOf(row.date.value);
    forall p | p in monthly && p != key
      ensures !InPeriod(row.date.value, p)
    {
      var k :| 0 <= k < |rows| && rows[k].date.Some? && MonthOf(rows[k].date.value) == p;
    }
    AddToKeepsTotals(monthly, rows, ppa, row, key);
  }

  /** Adding a dated row to the bucket of its year keeps the year buckets equal to their totals. */
  lemma YearBucketsStep(annual: map<Period, Bucket>, rows: seq<DailyRow>, ppa: map<Date, PpaDay>, row: DailyRow)
    requires row.date.Some?
    requires annual.Keys == YearKeys(rows)
    requires forall p :: p in annual ==> annual[p] == Totals(rows, ppa, p)
    ensures var r := AddTo(annual, YearOf(row.date.value), RowBucket(row, ppa));
            forall p :: p in r ==> r[p] == Totals(rows + [row], ppa, p)
  {
    var key := YearOf(row.date.value);
    forall p | p in annual && p != key
      ensures !InPeriod(row.date.value, p)
    {
      var k :| 0 <= k < |rows| && rows[k].date.Some? && YearOf(rows[k].date.value) == p;
    }
    AddToKeepsTotals(annual, rows, ppa, row, key);
  }

  /**
   * One pass over the Daily sheet: the daily table with its key order, and
   * the month and year buckets, each holding the totals of its period.
   */
  method AccumulateDays(rows: seq<DailyRow>, ppa: map<Date, PpaDay>)
    returns (daily: map<Date, DailyRecord>, order: seq<Date>, monthly: map<Period, Bucket>, annual: map<Period, Bucket>)
    ensures daily == DailyTable(rows, ppa) && order == DayOrder(rows)
    ensures monthly.Keys == MonthKeys(rows)
    ensures forall p :: p in monthly ==> monthly[p] == Totals(rows, ppa, p)
    ensures annual.Keys == YearKeys(rows)
    ensures forall p :: p in annual ==> annual[p] == Totals(rows, ppa, p)
  {
    daily, order, monthly, annual := map[], [], map[], map[];
    for i := 0 to |rows|
      invariant daily == DailyTable(rows[..i], ppa) && order == DayOrder(rows[..i])
      invariant monthly.Keys == MonthKeys(rows[..i])
      invariant forall p :: p in monthly ==> monthly[p] == Totals(rows[..i], ppa, p)
      invariant annual.Keys == YearKeys(rows[..i])
      invariant forall p :: p in annual ==> annual[p] == Totals(rows[..i], ppa, p)
    {
      var row := rows[i];
      PrefixStep(rows, ppa, i);
      if row.date.Some? {
        var d := row.date.value;
        if d !in daily {
          order := order + [d];
        }
        daily := daily[d := DayRecord(row, ppa)];
        var delta := RowBucket(row, ppa);
        MonthBucketsStep(monthly, rows[..i], ppa, row);
        YearBucketsStep(annual, rows[..i], ppa, row);
        monthly := AddTo(monthly, MonthOf(d), delta);
        annual := AddTo(annual, YearOf(d), delta);
      } else {
        assert forall p :: Totals(rows[..i + 1], ppa, p) == Totals(rows[..i], ppa, p);
      }
    }
    assert rows[..|rows|] == rows;
  }
}
