/** The backtest clock (infrastructure/clock.py:96-116). */
module SimulatedClocks {
  import opened Common

  class SimulatedClock {
    var current: Option<int>

    constructor ()
      ensures current == None
    {
      current := None;
    }

    /** None is ClockNotInitialized. */
    function Now(): Option<int>
      reads this
    {
      current
    }

    /** Refuses only a strictly earlier time (ClockRegressionError). */
    method AdvanceTo(ts: int) returns (ok: bool)
      modifies this
      ensures ok <==> old(current).None? || old(current).value <= ts
      ensures current == if ok then Some(ts) else old(current)
    {
      if current.Some? && ts < current.value {
        return false;
      }
      current := Some(ts);
      ok := true;
    }
  }
}
