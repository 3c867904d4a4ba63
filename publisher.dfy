/**
 * The published snapshot read by the dashboard (latest_data in app.py) and
 * one step of the background refresh that updates it. The lock, the sleep
 * and the retry loop are not modelled; each method is one critical section.
 */
module Publisher {
  import opened Wrappers
  import opened PriceHistory
  import opened BasisAlerts

  /** At most this many points are kept for the chart. */
  const HISTORY_LIMIT: nat := 100

  /** The last min(HISTORY_LIMIT, |h|) points of `h` (Python's h[-100:]). */
  function Recent(h: seq<HistoryPoint>): (r: seq<HistoryPoint>)
    ensures |r| == if |h| <= HISTORY_LIMIT then |h| else HISTORY_LIMIT
    ensures forall k :: 0 <= k < |r| ==> r[k] == h[|h| - |r| + k]
    ensures h != [] ==> r != [] && r[|r| - 1] == h[|h| - 1]
  {
    if |h| <= HISTORY_LIMIT then h else h[|h| - HISTORY_LIMIT..]
  }

  /**
   * The published status of a point agrees with the colour of the three-band
   * classification except at a basis of exactly GREEN_THRESHOLD, where the
   * point is "alert" but the classification is CAUTION.
   */
  lemma PointStatusAgainstBands(b: real)
    ensures PointStatus(b) == "safe" ==> BasisAlertStatus(Some(b)).1 in {"safe", "caution"}
    ensures PointStatus(b) == "alert" <==> BasisAlertStatus(Some(b)).1 == "alert" || b == GREEN_THRESHOLD
    ensures PointStatus(GREEN_THRESHOLD) == "alert" && BasisAlertStatus(Some(GREEN_THRESHOLD)).1 == "caution"
  {
  }

  ghost predicate TimesAscending(h: seq<HistoryPoint>)
  {
    forall i, j :: 0 <= i < j < |h| ==> h[i].time <= h[j].time
  }

  class LatestData {
    var node1Price: Option<real>
    var node2Price: Option<real>
    var basis: Option<real>
    /** ISO timestamp of the last successful publish; the clock is a parameter. */
    var lastUpdate: Option<string>
    /** Interval start of the newest published point. */
    var dataTime: Option<int>
    var status: string
    var history: seq<HistoryPoint>

    /**
     * The chart never holds more than HISTORY_LIMIT points, the "latest"
     * fields always describe the newest of them, and a point status shown
     * as the overall status is the newest point's.
     */
    ghost predicate Valid()
      reads this
    {
      && |history| <= HISTORY_LIMIT
      && (history != [] ==>
            var last := history[|history| - 1];
            && node1Price == Some(last.node1Price)
            && node2Price == Some(last.node2Price)
            && basis == Some(last.basis)
            && dataTime == Some(last.time))
      && (status == "safe" || status == "alert" ==> history != [] && status == history[|history| - 1].status)
    }

    constructor ()
      ensures Valid()
      ensures node1Price == None && node2Price == None && basis == None
      ensures lastUpdate == None && dataTime == None
      ensures status == "initializing" && history == []
    {
      node1Price, node2Price, basis := None, None, None;
      lastUpdate, dataTime := None, None;
      status := "initializing";
      history := [];
    }

    /**
     * Publishes a freshly fetched history: the newest point fills the
     * "latest" fields and the chart keeps the newest HISTORY_LIMIT points.
     * An empty fetch only sets the status to "no_data".
     */
    method Publish(fetched: seq<HistoryPoint>, now: string)
      requires Valid()
      modifies this
      ensures Valid()
      ensures fetched != [] ==>
                var last := fetched[|fetched| - 1];
                && node1Price == Some(last.node1Price)
                && node2Price == Some(last.node2Price)
                && basis == Some(last.basis)
                && lastUpdate == Some(now)
                && dataTime == Some(last.time)
                && status == last.status
                && history == Recent(fetched)
      ensures fetched == [] ==>
                && status == "no_data"
                && node1Price == old(node1Price) && node2Price == old(node2Price)
                && basis == old(basis) && lastUpdate == old(lastUpdate)
                && dataTime == old(dataTime) && history == old(history)
      ensures fetched != [] && TimesAscending(fetched) ==> TimesAscending(history)
    {
      if |fetched| > 0 {
        var latest := fetched[|fetched| - 1];
        node1Price := Some(latest.node1Price);
        node2Price := Some(latest.node2Price);
        basis := Some(latest.basis);
        lastUpdate := Some(now);
        dataTime := Some(latest.time);
        status := latest.status;
        history := Recent(fetched);
      } else {
        status := "no_data";
      }
    }

    /**
     * An exception escaping the refresh itself marks the snapshot as "error";
     * the data shown is kept. A failed fetch is not this case: it yields no
     * rows, and Publish sets "no_data".
     */
    method MarkError()
      requires Valid()
      modifies this
      ensures Valid()
      ensures status == "error"
      ensures node1Price == old(node1Price) && node2Price == old(node2Price)
      ensures basis == old(basis) && lastUpdate == old(lastUpdate)
      ensures dataTime == old(dataTime) && history == old(history)
    {
      status := "error";
    }

    /**
     * One refresh: build the history from the fetched rows and publish it.
     * Afterwards the chart is sorted by time and lies at or after the cutoff.
     */
    method Refresh(rows: seq<LmpRow>, cutoff: int, now: string)
      requires Valid()
      modifies this
      ensures Valid()
      ensures var fetched := Points(Merged(rows, cutoff));
              fetched != [] ==>
                var last := fetched[|fetched| - 1];
                && node1Price == Some(last.node1Price)
                && node2Price == Some(last.node2Price)
                && basis == Some(last.basis)
                && lastUpdate == Some(now)
                && dataTime == Some(last.time)
                && status == last.status
                && history == Recent(fetched)
      ensures Merged(rows, cutoff) == [] ==>
                && status == "no_data"
                && node1Price == old(node1Price) && node2Price == old(node2Price)
                && basis == old(basis) && lastUpdate == old(lastUpdate)
                && dataTime == old(dataTime) && history == old(history)
      ensures Merged(rows, cutoff) != [] ==>
                TimesAscending(history) && forall p :: p in history ==> p.time >= cutoff
    {
      var fetched := HistoricalPrices(rows, cutoff);
      Publish(fetched, now);
    }
  }
}
