/**
 * The basis spread between the wind node and the hub node, and the
 * three-band alert classification shown on the dashboard (app.py).
 */
module BasisAlerts {
  import opened Wrappers

  /** Basis of `price1` against `price2`; absent when either price is. */
  function CalculateBasis(price1: Option<real>, price2: Option<real>): (r: Option<real>)
    ensures r.Some? <==> price1.Some? && price2.Some?
    ensures r.Some? ==> price2.value + r.value == price1.value
  {
    if price1.Some? && price2.Some? then Some(price1.value - price2.value) else None
  }

  /** The pair (label, colour class) for a basis value. */
  function BasisAlertStatus(basis: Option<real>): (r: (string, string))
    ensures basis.None? <==> r == ("UNKNOWN", "unknown")
    ensures r == ("OK", "safe") <==> basis.Some? && basis.value > 0.0
    ensures r == ("CAUTION", "caution") <==> basis.Some? && -100.0 <= basis.value <= 0.0
    ensures r == ("ALERT", "alert") <==> basis.Some? && basis.value < -100.0
  {
    if basis.None? then ("UNKNOWN", "unknown")
    else if basis.value > 0.0 then ("OK", "safe")
    else if basis.value >= -100.0 then ("CAUTION", "caution")
    else ("ALERT", "alert")
  }
}
