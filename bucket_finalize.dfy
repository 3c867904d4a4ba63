/**
 * Finalisation of the month and year buckets of the NWOH import
 * (import_nwoh_excel.py): weighted average prices derived from the bucket
 * totals, each set only when its denominator is non-zero, and the working
 * products dropped.
 */
module BucketFinalize {
  import opened Wrappers
  import opened Calendar
  import opened DailyImport

  /** A finished bucket; an average that was not set is None. */
  datatype Summary = Summary(
    pnl: real,
    volume: real,
    daMwh: real,
    daRevenue: real,
    rtRevenue: real,
    count: nat,
    avgDaPrice: Option<real>,
    avgRtPrice: Option<real>,
    avgHubPrice: Option<real>,
    gwaBasis: Option<real>,
    realizedPrice: Option<real>)

  /**
   * The summary of a bucket. Averages exist only for a positive volume; the
   * DA price is 0 without DA volume; the hub price, basis and realized price
   * exist only when the hub product is positive. No division is by zero.
   */
  function Finalize(b: Bucket): (s: Summary)
    ensures s.pnl == b.pnl && s.volume == b.volume && s.daMwh == b.daMwh
    ensures s.daRevenue == b.daRevenue && s.rtRevenue == b.rtRevenue && s.count == b.count
    ensures s.avgDaPrice.Some? <==> b.volume > 0.0
    ensures s.avgRtPrice.Some? <==> b.volume > 0.0
    ensures b.volume > 0.0 && b.daMwh > 0.0 ==> s.avgDaPrice.value * b.daMwh == b.daLmpProduct
    ensures b.volume > 0.0 && b.daMwh <= 0.0 ==> s.avgDaPrice == Some(0.0)
    ensures b.volume > 0.0 ==> s.avgRtPrice.value * b.volume == b.rtLmpProduct
    ensures s.avgHubPrice.Some? <==> b.volume > 0.0 && b.hubProduct > 0.0
    ensures s.gwaBasis.Some? <==> b.volume > 0.0 && b.hubProduct > 0.0
    ensures s.realizedPrice.Some? <==> b.volume > 0.0 && b.hubProduct > 0.0
    ensures s.gwaBasis.Some? ==>
              && s.avgHubPrice.value * b.volume == b.hubProduct
              && s.gwaBasis.value * b.volume == b.hubProduct - b.nodeProduct
              && s.realizedPrice.value == PPA_PRICE + s.gwaBasis.value
  {
    var positive := b.volume > 0.0;
    var hubPriced := positive && b.hubProduct > 0.0;
    Summary(
      pnl := b.pnl,
      volume := b.volume,
      daMwh := b.daMwh,
      daRevenue := b.daRevenue,
      rtRevenue := b.rtRevenue,
      count := b.count,
      avgDaPrice := if !positive then None else if b.daMwh > 0.0 then Some(b.daLmpProduct / b.daMwh) else Some(0.0),
      avgRtPrice := if positive then Some(b.rtLmpProduct / b.volume) else None,
      avgHubPrice := if hubPriced then Some(b.hubProduct / b.volume) else None,
      gwaBasis := if hubPriced then Some((b.hubProduct - b.nodeProduct) / b.volume) else None,
      realizedPrice := if hubPriced then Some(PPA_PRICE + (b.hubProduct - b.nodeProduct) / b.volume) else None)
  }

  /** A bucket's basis is its average hub price minus its generation-weighted node price. */
  lemma BasisIsHubMinusNodeAverage(b: Bucket)
    requires b.volume > 0.0 && b.hubProduct > 0.0
    ensures Finalize(b).gwaBasis.value == Finalize(b).avgHubPrice.value - b.nodeProduct / b.volume
  {
  }

  /** Finalises every bucket of a table (the month or the year table). */
  method FinalizeBuckets(buckets: map<Period, Bucket>) returns (summaries: map<Period, Summary>)
    ensures summaries.Keys == buckets.Keys
    ensures forall p :: p in summaries ==> summaries[p] == Finalize(buckets[p])
  {
    var todo := buckets.Keys;
    summaries := map[];
    while todo != {}
      invariant todo <= buckets.Keys
      invariant summaries.Keys == buckets.Keys - todo
      invariant forall p :: p in summaries ==> summaries[p] == Finalize(buckets[p])
      decreases todo
    {
      var p :| p in todo;
      summaries := summaries[p := Finalize(buckets[p])];
      todo := todo - {p};
    }
  }
}
