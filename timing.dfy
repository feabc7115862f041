/**
  TimeUtility's time scale. The source keeps it in a static field of a static
  class; here that process-wide state is one object, created when the class
  is first used, with the field's initial value.
  Float values are modelled as reals; the only constants written are 0 and 1.
 */
module Timing {

  class TimeUtility {
    var timeScale: real

    /** The static initialiser: the time scale starts at 1. */
    constructor ()
      ensures timeScale == 1.0
    {
      timeScale := 1.0;
    }

    /** The TimeScale setter: any value is stored as given (the getter is a read of timeScale). */
    method SetTimeScale(value: real)
      modifies this
      ensures timeScale == value
    {
      timeScale := value;
    }

    /** PauseGame: the time scale becomes 0. */
    method PauseGame()
      modifies this
      ensures timeScale == 0.0
    {
      SetTimeScale(0.0);
    }

    /** ResumeGame: the time scale becomes exactly 1, whatever it was before the pause. */
    method ResumeGame()
      modifies this
      ensures timeScale == 1.0
    {
      SetTimeScale(1.0);
    }
  }

  /** A time scale set before a pause is not restored by resuming: the
      game comes back at scale 1, not at the slowed-down value. */
  method ResumeAfterSlowMotion(slow: real) returns (before: real, after: real)
    requires slow != 1.0
    ensures before == slow && after == 1.0 && after != before
  {
    var time := new TimeUtility();
    time.SetTimeScale(slow);
    before := time.timeScale;
    time.PauseGame();
    time.ResumeGame();
    after := time.timeScale;
  }
}
