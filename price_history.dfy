/**
 * Shaping of the real-time price history for the two settlement points
 * (get_historical_prices in app.py): keep the rows of each node, inner-join
 * them on interval start, keep the intervals at or after a cutoff, sort them
 * ascending, and turn each joined interval into a history point carrying its
 * basis (node 1 minus node 2) and a two-way status.
 *
 * The fetch itself and the wall clock are not modelled: the rows and the
 * cutoff instant are parameters. Interval starts are absolute instants.
 */
module PriceHistory {

  const NODE_1: string := "NBOHR_RN"
  const NODE_2: string := "HB_WEST"
  /** A history point is "safe" when its basis is above this value. */
  const GREEN_THRESHOLD: real := -100.0

  /** One row of the LMP table: interval start, settlement point, price. */
  datatype LmpRow = LmpRow(intervalStart: int, location: string, lmp: real)

  /** One row of the inner join of the two nodes' rows. */
  datatype Matched = Matched(intervalStart: int, node1Lmp: real, node2Lmp: real)

  /** One point of the published history. */
  datatype HistoryPoint = HistoryPoint(time: int, node1Price: real, node2Price: real, basis: real, status: string)

  /** The rows priced at settlement point `loc`, in their original order. */
  function AtLocation(rows: seq<LmpRow>, loc: string): (r: seq<LmpRow>)
    ensures forall x :: x in r <==> x in rows && x.location == loc
    ensures |r| <= |rows|
  {
    if rows == [] then []
    else (if rows[0].location == loc then [rows[0]] else []) + AtLocation(rows[1..], loc)
  }

  /** Does `a` pair with `b` in the join on interval start, giving `m`? */
  predicate JoinedAs(a: LmpRow, b: LmpRow, m: Matched)
  {
    a.intervalStart == b.intervalStart && m == Matched(a.intervalStart, a.lmp, b.lmp)
  }

  /** Row `a` of the first node joined with every row of `right` at the same interval start. */
  function MatchRow(a: LmpRow, right: seq<LmpRow>): (r: seq<Matched>)
    ensures forall m :: m in r <==> exists b :: b in right && JoinedAs(a, b, m)
  {
    if right == [] then []
    else
      var rest := MatchRow(a, right[1..]);
      assert forall b :: b in right <==> b == right[0] || b in right[1..];
      if right[0].intervalStart == a.intervalStart
      then
        var m0 := Matched(a.intervalStart, a.lmp, right[0].lmp);
        assert JoinedAs(a, right[0], m0);
        [m0] + rest
      else rest
  }

  /** Inner join of the two nodes' rows on interval start. */
  function Join(left: seq<LmpRow>, right: seq<LmpRow>): (r: seq<Matched>)
    ensures forall m :: m in r <==> exists a, b :: a in left && b in right && JoinedAs(a, b, m)
    ensures left == [] || right == [] ==> r == []
  {
    if left == [] then []
    else
      var rest := Join(left[1..], right);
      assert forall a :: a in left <==> a == left[0] || a in left[1..];
      MatchRow(left[0], right) + rest
  }

  /** The joined rows whose interval start is at or after `cutoff`, in order. */
  function AtOrAfter(ms: seq<Matched>, cutoff: int): (r: seq<Matched>)
    ensures forall m :: m in r <==> m in ms && m.intervalStart >= cutoff
  {
    if ms == [] then []
    else (if ms[0].intervalStart >= cutoff then [ms[0]] else []) + AtOrAfter(ms[1..], cutoff)
  }

  ghost predicate Ascending(ms: seq<Matched>)
  {
    forall i, j :: 0 <= i < j < |ms| ==> ms[i].intervalStart <= ms[j].intervalStart
  }

  /** `m` placed into `s` before the first row that does not start earlier. */
  function Insert(m: Matched, s: seq<Matched>): (r: seq<Matched>)
    ensures multiset(r) == multiset(s) + multiset{m}
    ensures |r| == |s| + 1
    ensures r[0] == m || (s != [] && r[0] == s[0])
  {
    if s == [] || m.intervalStart <= s[0].intervalStart then [m] + s
    else
      assert s == [s[0]] + s[1..];
      [s[0]] + Insert(m, s[1..])
  }

  /** Inserting into an ascending table keeps it ascending. */
  lemma {:induction false} InsertKeepsAscending(m: Matched, s: seq<Matched>)
    requires Ascending(s)
    ensures Ascending(Insert(m, s))
  {
    if s != [] && m.intervalStart > s[0].intervalStart {
      var tail := Insert(m, s[1..]);
      InsertKeepsAscending(m, s[1..]);
      assert forall j :: 0 <= j < |tail| ==> tail[0].intervalStart <= tail[j].intervalStart;
      assert s[0].intervalStart <= tail[0].intervalStart;
      assert Insert(m, s) == [s[0]] + tail;
    }
  }

  /** The joined rows sorted by interval start, earliest first. */
  function SortByStart(ms: seq<Matched>): (r: seq<Matched>)
    ensures multiset(r) == multiset(ms)
    ensures Ascending(r)
  {
    if ms == [] then []
    else
      assert ms == [ms[0]] + ms[1..];
      InsertKeepsAscending(ms[0], SortByStart(ms[1..]));
      Insert(ms[0], SortByStart(ms[1..]))
  }

  /** The merged, filtered and sorted table before it becomes history points. */
  function Merged(rows: seq<LmpRow>, cutoff: int): (r: seq<Matched>)
    ensures AtLocation(rows, NODE_1) == [] || AtLocation(rows, NODE_2) == [] ==> r == []
  {
    SortByStart(AtOrAfter(Join(AtLocation(rows, NODE_1), AtLocation(rows, NODE_2)), cutoff))
  }

  /** Status of a history point: "safe" above GREEN_THRESHOLD, "alert" otherwise. */
  function PointStatus(basis: real): (s: string)
    ensures s == "safe" <==> basis > GREEN_THRESHOLD
    ensures s == "alert" <==> basis <= GREEN_THRESHOLD
  {
    if basis > GREEN_THRESHOLD then "safe" else "alert"
  }

  function PointOf(m: Matched): HistoryPoint
  {
    var basis := m.node1Lmp - m.node2Lmp;
    HistoryPoint(m.intervalStart, m.node1Lmp, m.node2Lmp, basis, PointStatus(basis))
  }

  function Points(ms: seq<Matched>): seq<HistoryPoint>
  {
    seq(|ms|, k requires 0 <= k < |ms| => PointOf(ms[k]))
  }

  /** Both nodes priced the joined interval `m`, at or after `cutoff`. */
  ghost predicate PricedAtBothNodes(rows: seq<LmpRow>, cutoff: int, m: Matched)
  {
    exists a, b :: a in rows && b in rows && a.location == NODE_1 && b.location == NODE_2
                   && a.intervalStart >= cutoff && JoinedAs(a, b, m)
  }

  /** A joined interval is in the merged table exactly when both nodes priced it at or after the cutoff. */
  lemma {:induction false} MergedMembership(rows: seq<LmpRow>, cutoff: int, m: Matched)
    ensures m in Merged(rows, cutoff) <==> PricedAtBothNodes(rows, cutoff, m)
  {
    var node1, node2 := AtLocation(rows, NODE_1), AtLocation(rows, NODE_2);
    var filtered := AtOrAfter(Join(node1, node2), cutoff);
    assert m in Merged(rows, cutoff) <==> m in filtered by {
      assert multiset(Merged(rows, cutoff)) == multiset(filtered);
      assert m in Merged(rows, cutoff) <==> m in multiset(Merged(rows, cutoff));
      assert m in filtered <==> m in multiset(filtered);
    }
  }

  /** The points of the merged table are sorted by time. */
  lemma PointsSorted(rows: seq<LmpRow>, cutoff: int)
    ensures forall i, j :: 0 <= i < j < |Points(Merged(rows, cutoff))| ==>
              Points(Merged(rows, cutoff))[i].time <= Points(Merged(rows, cutoff))[j].time
  {
    var merged := Merged(rows, cutoff);
    assert Ascending(merged);
  }

  /** Every point of the merged table lies at or after the cutoff and comes from an interval priced at both nodes. */
  lemma PointsPriced(rows: seq<LmpRow>, cutoff: int)
    ensures forall p :: p in Points(Merged(rows, cutoff)) ==>
              p.time >= cutoff && PricedAtBothNodes(rows, cutoff, Matched(p.time, p.node1Price, p.node2Price))
  {
    var merged := Merged(rows, cutoff);
    var h := Points(merged);
    forall p | p in h
      ensures p.time >= cutoff
      ensures PricedAtBothNodes(rows, cutoff, Matched(p.time, p.node1Price, p.node2Price))
    {
      var k :| 0 <= k < |h| && h[k] == p;
      assert Matched(p.time, p.node1Price, p.node2Price) == merged[k];
      MergedMembership(rows, cutoff, merged[k]);
    }
  }

  /** Every interval priced at both nodes at or after the cutoff has its point in the merged table. */
  lemma PointsComplete(rows: seq<LmpRow>, cutoff: int)
    ensures forall a, b :: a in rows && b in rows && a.location == NODE_1 && b.location == NODE_2
              && a.intervalStart == b.intervalStart && a.intervalStart >= cutoff
              ==> PointOf(Matched(a.intervalStart, a.lmp, b.lmp)) in Points(Merged(rows, cutoff))
  {
    var merged := Merged(rows, cutoff);
    var h := Points(merged);
    forall a, b | a in rows && b in rows && a.location == NODE_1 && b.location == NODE_2
                  && a.intervalStart == b.intervalStart && a.intervalStart >= cutoff
      ensures PointOf(Matched(a.intervalStart, a.lmp, b.lmp)) in h
    {
      var m := Matched(a.intervalStart, a.lmp, b.lmp);
      assert JoinedAs(a, b, m);
      MergedMembership(rows, cutoff, m);
      var k :| 0 <= k < |merged| && merged[k] == m;
      assert h[k] == PointOf(m);
    }
  }

  /** Each interval start occurs at most once among `rows`. */
  ghost predicate OncePerInterval(rows: seq<LmpRow>)
  {
    forall i, j :: 0 <= i < j < |rows| ==> rows[i].intervalStart != rows[j].intervalStart
  }

  /** Each interval start occurs at most once among the joined rows `ms`. */
  ghost predicate OncePerMatchedInterval(ms: seq<Matched>)
  {
    forall i, j :: 0 <= i < j < |ms| ==> ms[i].intervalStart != ms[j].intervalStart
  }

  /** A row joins nothing when no row of `right` shares its interval start. */
  lemma {:induction false} MatchRowNone(a: LmpRow, right: seq<LmpRow>)
    requires forall b :: b in right ==> b.intervalStart != a.intervalStart
    ensures MatchRow(a, right) == []
  {
    if right != [] {
      assert forall b :: b in right[1..] ==> b in right;
      MatchRowNone(a, right[1..]);
    }
  }

  /** A node-1 row joins at most one node-2 row when node 2 prices each interval once. */
  lemma {:induction false} MatchRowAtMostOne(a: LmpRow, right: seq<LmpRow>)
    requires OncePerInterval(right)
    ensures |MatchRow(a, right)| <= 1
  {
    if right != [] {
      var rest := MatchRow(a, right[1..]);
      assert OncePerInterval(right[1..]) by {
        assert forall i :: 0 <= i < |right| - 1 ==> right[1..][i] == right[i + 1];
      }
      MatchRowAtMostOne(a, right[1..]);
      if right[0].intervalStart == a.intervalStart {
        forall b | b in right[1..]
          ensures b.intervalStart != a.intervalStart
        {
          var k :| 0 <= k < |right| - 1 && right[1..][k] == b;
          assert right[k + 1] == b;
        }
        MatchRowNone(a, right[1..]);
      }
    }
  }

  /** Joining two tables with no interval in common keeps each interval at most once. */
  lemma AppendOncePerInterval(a: seq<Matched>, b: seq<Matched>)
    requires OncePerMatchedInterval(a) && OncePerMatchedInterval(b)
    requires forall x, y :: x in a && y in b ==> x.intervalStart != y.intervalStart
    ensures OncePerMatchedInterval(a + b)
  {
    var r := a + b;
    forall i, j | 0 <= i < j < |r|
      ensures r[i].intervalStart != r[j].intervalStart
    {
      if j < |a| {
        assert r[i] == a[i] && r[j] == a[j];
      } else if i < |a| {
        assert r[i] == a[i] && r[j] == b[j - |a|];
      } else {
        assert r[i] == b[i - |a|] && r[j] == b[j - |a|];
      }
    }
  }

  /** Dropping the first row keeps each interval at most once; the rest do not share the first row's interval. */
  lemma RestOncePerInterval(ms: seq<Matched>)
    requires ms != [] && OncePerMatchedInterval(ms)
    ensures OncePerMatchedInterval(ms[1..])
    ensures forall x :: x in ms[1..] ==> x.intervalStart != ms[0].intervalStart
  {
    assert forall i :: 0 <= i < |ms| - 1 ==> ms[1..][i] == ms[i + 1];
  }

  /** When each node prices each interval once, so does their join. */
  lemma {:induction false} JoinOncePerInterval(left: seq<LmpRow>, right: seq<LmpRow>)
    requires OncePerInterval(left) && OncePerInterval(right)
    ensures OncePerMatchedInterval(Join(left, right))
  {
    if left != [] {
      var head := MatchRow(left[0], right);
      var rest := Join(left[1..], right);
      assert OncePerInterval(left[1..]) by {
        assert forall i :: 0 <= i < |left| - 1 ==> left[1..][i] == left[i + 1];
      }
      JoinOncePerInterval(left[1..], right);
      MatchRowAtMostOne(left[0], right);
      forall m | m in rest
        ensures m.intervalStart != left[0].intervalStart
      {
        var a, b :| a in left[1..] && b in right && JoinedAs(a, b, m);
        var k :| 0 <= k < |left| - 1 && left[1..][k] == a;
        assert left[k + 1] == a;
      }
      assert forall m :: m in head ==> m.intervalStart == left[0].intervalStart;
      AppendOncePerInterval(head, rest);
    }
  }

  /** Keeping the rows at or after the cutoff keeps each interval at most once. */
  lemma {:induction false} AtOrAfterOncePerInterval(ms: seq<Matched>, cutoff: int)
    requires OncePerMatchedInterval(ms)
    ensures OncePerMatchedInterval(AtOrAfter(ms, cutoff))
  {
    if ms != [] {
      var rest := AtOrAfter(ms[1..], cutoff);
      RestOncePerInterval(ms);
      AtOrAfterOncePerInterval(ms[1..], cutoff);
      if ms[0].intervalStart >= cutoff {
        AppendOncePerInterval([ms[0]], rest);
      }
    }
  }

  /** Inserting a row of a new interval keeps each interval at most once. */
  lemma {:induction false} InsertOncePerInterval(m: Matched, s: seq<Matched>)
    requires OncePerMatchedInterval(s)
    requires forall x :: x in s ==> x.intervalStart != m.intervalStart
    ensures OncePerMatchedInterval(Insert(m, s))
  {
    if s == [] || m.intervalStart <= s[0].intervalStart {
      AppendOncePerInterval([m], s);
    } else {
      var tail := Insert(m, s[1..]);
      RestOncePerInterval(s);
      InsertOncePerInterval(m, s[1..]);
      forall x | x in tail
        ensures x.intervalStart != s[0].intervalStart
      {
        assert x in multiset(tail);
        assert x == m || x in multiset(s[1..]);
      }
      AppendOncePerInterval([s[0]], tail);
      assert Insert(m, s) == [s[0]] + tail;
    }
  }

  /** Sorting keeps each interval at most once. */
  lemma {:induction false} SortOncePerInterval(ms: seq<Matched>)
    requires OncePerMatchedInterval(ms)
    ensures OncePerMatchedInterval(SortByStart(ms))
  {
    if ms != [] {
      var sorted := SortByStart(ms[1..]);
      RestOncePerInterval(ms);
      SortOncePerInterval(ms[1..]);
      forall x | x in sorted
        ensures x.intervalStart != ms[0].intervalStart
      {
        assert x in multiset(sorted);
        assert x in multiset(ms[1..]);
      }
      InsertOncePerInterval(ms[0], sorted);
    }
  }

  /**
   * When each node prices each interval once, the history has one point per
   * interval: its times strictly increase.
   */
  lemma PointsStrictlyAscending(rows: seq<LmpRow>, cutoff: int)
    requires OncePerInterval(AtLocation(rows, NODE_1)) && OncePerInterval(AtLocation(rows, NODE_2))
    ensures forall i, j :: 0 <= i < j < |Points(Merged(rows, cutoff))| ==>
              Points(Merged(rows, cutoff))[i].time < Points(Merged(rows, cutoff))[j].time
  {
    var joined := Join(AtLocation(rows, NODE_1), AtLocation(rows, NODE_2));
    JoinOncePerInterval(AtLocation(rows, NODE_1), AtLocation(rows, NODE_2));
    AtOrAfterOncePerInterval(joined, cutoff);
    SortOncePerInterval(AtOrAfter(joined, cutoff));
    var merged := Merged(rows, cutoff);
    assert Ascending(merged) && OncePerMatchedInterval(merged);
  }

  /**
   * The points of the merged table are sorted by time, lie at or after the
   * cutoff, carry basis = node 1 - node 2 with its status, and are exactly the
   * intervals priced at both nodes.
   */
  lemma HistoryFacts(rows: seq<LmpRow>, cutoff: int)
    ensures forall i, j :: 0 <= i < j < |Points(Merged(rows, cutoff))| ==>
              Points(Merged(rows, cutoff))[i].time <= Points(Merged(rows, cutoff))[j].time
    ensures forall p :: p in Points(Merged(rows, cutoff)) ==>
              p.time >= cutoff
              && p.basis == p.node1Price - p.node2Price
              && (p.status == "safe" <==> p.basis > GREEN_THRESHOLD)
              && (p.status == "alert" <==> p.basis <= GREEN_THRESHOLD)
              && PricedAtBothNodes(rows, cutoff, Matched(p.time, p.node1Price, p.node2Price))
    ensures forall a, b :: a in rows && b in rows && a.location == NODE_1 && b.location == NODE_2
              && a.intervalStart == b.intervalStart && a.intervalStart >= cutoff
              ==> PointOf(Matched(a.intervalStart, a.lmp, b.lmp)) in Points(Merged(rows, cutoff))
  {
    PointsSorted(rows, cutoff);
    PointsPriced(rows, cutoff);
    PointsComplete(rows, cutoff);
  }

  /**
   * The history built from the LMP rows: the points of the merged table, in
   * order. The result is sorted by time, lies at or after the cutoff, carries
   * basis = node 1 - node 2 with its status, and holds exactly the intervals
   * priced at both nodes.
   */
  method HistoricalPrices(rows: seq<LmpRow>, cutoff: int) returns (history: seq<HistoryPoint>)
    ensures history == Points(Merged(rows, cutoff))
    ensures forall i, j :: 0 <= i < j < |history| ==> history[i].time <= history[j].time
    ensures forall p :: p in history ==>
              p.time >= cutoff
              && p.basis == p.node1Price - p.node2Price
              && (p.status == "safe" <==> p.basis > GREEN_THRESHOLD)
              && (p.status == "alert" <==> p.basis <= GREEN_THRESHOLD)
              && PricedAtBothNodes(rows, cutoff, Matched(p.time, p.node1Price, p.node2Price))
    ensures forall a, b :: a in rows && b in rows && a.location == NODE_1 && b.location == NODE_2
              && a.intervalStart == b.intervalStart && a.intervalStart >= cutoff
              ==> PointOf(Matched(a.intervalStart, a.lmp, b.lmp)) in history
  {
    var node1 := AtLocation(rows, NODE_1);
    var node2 := AtLocation(rows, NODE_2);
    var merged: seq<Matched>;
    if |node1| == 0 || |node2| == 0 {
      merged := [];
    } else {
      merged := Join(node1, node2);
      if |merged| != 0 {
        merged := SortByStart(AtOrAfter(merged, cutoff));
      }
    }
    assert merged == Merged(rows, cutoff);
    history := ToHistory(merged);
    HistoryFacts(rows, cutoff);
  }

  /** Turns each merged row into a history point, in order. */
  method ToHistory(merged: seq<Matched>) returns (history: seq<HistoryPoint>)
    ensures history == Points(merged)
  {
    history := [];
    for i := 0 to |merged|
      invariant |history| == i
      invariant forall k :: 0 <= k < i ==> history[k] == PointOf(merged[k])
    {
      var m := merged[i];
      var basis := m.node1Lmp - m.node2Lmp;
      var status := if basis > GREEN_THRESHOLD then "safe" else "alert";
      history := history + [HistoryPoint(m.intervalStart, m.node1Lmp, m.node2Lmp, basis, status)];
    }
  }
}
