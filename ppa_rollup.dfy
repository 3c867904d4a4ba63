/**
 * Roll-up of the five-minute PPA sheet of the NWOH import
 * (import_nwoh_excel.py): per date, the generation-weighted hub and node
 * prices, their difference (hub minus node) and the net PPA settlement
 * (fixed payment minus floating payment).
 *
 * A missing or non-numeric cell is None. As in a pandas group sum, a missing
 * term contributes nothing to a sum; a product with a missing factor is
 * missing.
 */
module PpaRollup {
  import opened Wrappers
  import opened Calendar

  /** Five-minute intervals per hour: the hourly generation is spread evenly. */
  const INTERVALS_PER_HOUR: real := 12.0

  /** One row of the five-minute PPA sheet. */
  datatype PpaRow = PpaRow(
    date: Option<Date>,
    hubLmp: Option<real>,
    nodeLmp: Option<real>,
    genMwhHourly: Option<real>,
    floatingPayment: Option<real>,
    fixedPayment: Option<real>)

  /** The column sums of one date group. */
  datatype PpaSums = PpaSums(gen: real, hubProduct: real, nodeProduct: real, floating: real, fixed: real)

  const NoSums := PpaSums(0.0, 0.0, 0.0, 0.0, 0.0)

  function AddSums(a: PpaSums, b: PpaSums): PpaSums
  {
    PpaSums(a.gen + b.gen, a.hubProduct + b.hubProduct, a.nodeProduct + b.nodeProduct,
            a.floating + b.floating, a.fixed + b.fixed)
  }

  /** Generation of one five-minute interval, when the hourly value is present. */
  function Gen5Min(r: PpaRow): (g: Option<real>)
    ensures g.Some? <==> r.genMwhHourly.Some?
    ensures g.Some? ==> g.value * INTERVALS_PER_HOUR == r.genMwhHourly.value
  {
    if r.genMwhHourly.Some? then Some(r.genMwhHourly.value / INTERVALS_PER_HOUR) else None
  }

  /** The interval's generation times a price; missing when either factor is. */
  function Product(gen: Option<real>, price: Option<real>): (p: Option<real>)
    ensures p.Some? <==> gen.Some? && price.Some?
    ensures p.Some? ==> p.value == gen.value * price.value
  {
    if gen.Some? && price.Some? then Some(gen.value * price.value) else None
  }

  /** What one row adds to its date group's sums (missing terms add nothing). */
  function RowSums(r: PpaRow): PpaSums
  {
    PpaSums(GetOr(Gen5Min(r), 0.0),
            GetOr(Product(Gen5Min(r), r.hubLmp), 0.0),
            GetOr(Product(Gen5Min(r), r.nodeLmp), 0.0),
            GetOr(r.floatingPayment, 0.0),
            GetOr(r.fixedPayment, 0.0))
  }

  /** The sums of the group of rows dated `d`. */
  function SumsOn(rows: seq<PpaRow>, d: Date): PpaSums
  {
    if rows == [] then NoSums
    else
      var last := rows[|rows| - 1];
      AddSums(SumsOn(rows[..|rows| - 1], d), if last.date == Some(d) then RowSums(last) else NoSums)
  }

  /** The group sums of a concatenation are the sums of the parts: grouping does not depend on how the sheet is split. */
  lemma {:induction false} SumsOnAppend(a: seq<PpaRow>, b: seq<PpaRow>, d: Date)
    ensures SumsOn(a + b, d) == AddSums(SumsOn(a, d), SumsOn(b, d))
    decreases |b|
  {
    if b == [] {
      assert a + b == a;
    } else {
      var b', last := b[..|b| - 1], b[|b| - 1];
      var extra := if last.date == Some(d) then RowSums(last) else NoSums;
      assert (a + b)[..|a + b| - 1] == a + b';
      assert (a + b)[|a + b| - 1] == last;
      assert SumsOn(a + b, d) == AddSums(SumsOn(a + b', d), extra);
      assert SumsOn(b, d) == AddSums(SumsOn(b', d), extra);
      SumsOnAppend(a, b', d);
    }
  }

  /** Rows of other dates leave a group's sums alone. */
  lemma {:induction false} SumsOnOtherDates(rows: seq<PpaRow>, d: Date)
    requires forall k :: 0 <= k < |rows| ==> rows[k].date != Some(d)
    ensures SumsOn(rows, d) == NoSums
  {
    if rows != [] {
      SumsOnOtherDates(rows[..|rows| - 1], d);
    }
  }

  /** The dates of the valid rows: the groups of the roll-up. */
  function PpaDates(rows: seq<PpaRow>): set<Date>
  {
    set k | 0 <= k < |rows| && rows[k].date.Some? :: rows[k].date.value
  }

  /** The grouped sums, one entry per date. */
  function GroupByDate(rows: seq<PpaRow>): (g: map<Date, PpaSums>)
    ensures g.Keys == PpaDates(rows)
    ensures forall d :: d in g ==> g[d] == SumsOn(rows, d)
  {
    map d | d in PpaDates(rows) :: SumsOn(rows, d)
  }

  /** The PPA figures of one date, as looked up by the daily import. */
  datatype PpaDay = PpaDay(
    gwaHub: Option<real>,
    gwaNode: Option<real>,
    gwaBasis: Option<real>,
    floatingPayment: real,
    fixedPayment: real,
    netSettlement: real)

  /**
   * The figures of one date from its group sums. The weighted prices exist
   * only when the group generated a non-zero volume; the basis is hub minus
   * node.
   */
  function DayFromSums(s: PpaSums): (p: PpaDay)
    ensures p.gwaHub.Some? <==> s.gen != 0.0
    ensures p.gwaNode.Some? <==> s.gen != 0.0
    ensures p.gwaBasis.Some? <==> s.gen != 0.0
    ensures s.gen != 0.0 ==> p.gwaHub.value * s.gen == s.hubProduct && p.gwaNode.value * s.gen == s.nodeProduct
    ensures s.gen != 0.0 ==> p.gwaBasis.value == (s.hubProduct - s.nodeProduct) / s.gen
    ensures p.netSettlement + p.floatingPayment == p.fixedPayment
    ensures p.floatingPayment == s.floating && p.fixedPayment == s.fixed
  {
    var gwaHub := if s.gen != 0.0 then Some(s.hubProduct / s.gen) else None;
    var gwaNode := if s.gen != 0.0 then Some(s.nodeProduct / s.gen) else None;
    var gwaBasis := if s.gen != 0.0 then Some(gwaHub.value - gwaNode.value) else None;
    PpaDay(gwaHub, gwaNode, gwaBasis, s.floating, s.fixed, s.fixed - s.floating)
  }

  /** The lookup table from date to PPA figures, as a value. */
  function PpaTable(rows: seq<PpaRow>): map<Date, PpaDay>
  {
    map d | d in PpaDates(rows) :: DayFromSums(SumsOn(rows, d))
  }

  /**
   * The lookup table from date to PPA figures (ppa_by_date), filled one
   * date group at a time.
   */
  method PpaByDate(rows: seq<PpaRow>) returns (byDate: map<Date, PpaDay>)
    ensures byDate.Keys == PpaDates(rows)
    ensures forall d :: d in byDate ==> byDate[d] == DayFromSums(SumsOn(rows, d))
    ensures byDate == PpaTable(rows)
  {
    var groups := GroupByDate(rows);
    var todo := groups.Keys;
    byDate := map[];
    while todo != {}
      invariant todo <= groups.Keys
      invariant byDate.Keys == groups.Keys - todo
      invariant forall d :: d in byDate ==> byDate[d] == DayFromSums(groups[d])
      decreases todo
    {
      var d :| d in todo;
      byDate := byDate[d := DayFromSums(groups[d])];
      todo := todo - {d};
    }
  }
}
