/** The simulation clock (simulation_time.py). */
module SimulationClock {
  import opened Values

  function BackwardsError(newTime: real, currentTime: real, show: Show): Error
  {
    Error(ValueError, "Cannot move time backwards: " + show(VReal(newTime)) + "<" + show(VReal(currentTime)))
  }

  function NegativeDelta(delta: real, show: Show): Error
  {
    Error(ValueError, "cannot advance by a negative time:" + show(VReal(delta)))
  }

  class SimulationTime {
    var currentTime: real
    var startTime: real

    /** The clock has not gone back past its start. */
    ghost predicate Valid()
      reads this
    {
      startTime <= currentTime
    }

    constructor (initialTime: real)
      ensures currentTime == initialTime && startTime == initialTime
      ensures Valid() && Elapsed() == 0.0
    {
      currentTime := initialTime;
      startTime := initialTime;
    }

    /** `advance_to`: moving to an earlier time is refused and changes
        nothing. */
    method AdvanceTo(newTime: real, show: Show) returns (r: Outcome)
      modifies this
      ensures startTime == old(startTime)
      ensures r.Fail? <==> newTime < old(currentTime)
      ensures r.Fail? ==> r.error == BackwardsError(newTime, old(currentTime), show) && currentTime == old(currentTime)
      ensures r.Pass? ==> currentTime == newTime
      ensures old(currentTime) <= currentTime
      ensures old(Valid()) ==> Valid()
    {
      if newTime < currentTime {
        return Fail(BackwardsError(newTime, currentTime, show));
      }
      currentTime := newTime;
      return Pass;
    }

    /** `advance_by`: a negative step is refused and changes nothing. */
    method AdvanceBy(delta: real, show: Show) returns (r: Outcome)
      modifies this
      ensures startTime == old(startTime)
      ensures r.Fail? <==> delta < 0.0
      ensures r.Fail? ==> r.error == NegativeDelta(delta, show) && currentTime == old(currentTime)
      ensures r.Pass? ==> currentTime == old(currentTime) + delta
      ensures old(currentTime) <= currentTime
      ensures old(Valid()) ==> Valid()
    {
      if delta < 0.0 {
        return Fail(NegativeDelta(delta, show));
      }
      currentTime := currentTime + delta;
      return Pass;
    }

    /** `elapsed()`: how far the clock is past its start. */
    function Elapsed(): (r: real)
      reads this
      ensures startTime + r == currentTime
      ensures r >= 0.0 <==> Valid()
    {
      currentTime - startTime
    }

    /** `reset(time)` as written: the start time is left as it was, since
        the statement meant to set it only computes a difference. */
    method Reset(time: real)
      modifies this
      ensures currentTime == time && startTime == old(startTime)
    {
      currentTime := time;
    }

    /** `reset(time)` as evidently intended: the clock restarts at `time`. */
    method ResetCorrected(time: real)
      modifies this
      ensures currentTime == time && startTime == time
      ensures Valid() && Elapsed() == 0.0
    {
      currentTime := time;
      startTime := time;
    }
  }

  /** A clock started at 3.0 and reset to 0.0 reports an elapsed time of
      -3.0, where a restarted clock would report 0.0. */
  method ResetCounterexample() returns (asWritten: real, corrected: real)
    ensures asWritten == -3.0 && corrected == 0.0
  {
    var clock := new SimulationTime(3.0);
    clock.Reset(0.0);
    asWritten := clock.Elapsed();
    var restarted := new SimulationTime(3.0);
    restarted.ResetCorrected(0.0);
    corrected := restarted.Elapsed();
  }
}
