/**
 * The line counter and run state of src/model/mod.rs. The counter is a
 * signed 32-bit integer; stepping it past either end panics in a debug
 * build, which the preconditions rule out.
 */
module Models {
  import opened ModelState

  const I32_MIN: int := -0x8000_0000
  const I32_MAX: int := 0x7fff_ffff

  type I32 = n: int | I32_MIN <= n <= I32_MAX

  class Model {
    var lineCount: I32
    var runningState: RunningState

    /** The default model: no lines counted, running. */
    constructor ()
      ensures lineCount == 0 && runningState == Running
    {
      lineCount := 0;
      runningState := DefaultRunningState;
    }

    method LineCountIncr()
      requires lineCount < I32_MAX
      modifies this
      ensures lineCount == old(lineCount) + 1 && runningState == old(runningState)
    {
      lineCount := lineCount + 1;
    }

    method LineCountDecr()
      requires lineCount > I32_MIN
      modifies this
      ensures lineCount == old(lineCount) - 1 && runningState == old(runningState)
    {
      lineCount := lineCount - 1;
    }

    method LineCountReset()
      modifies this
      ensures lineCount == 0 && runningState == old(runningState)
    {
      lineCount := 0;
    }

    method SetRunning()
      modifies this
      ensures runningState == Running && lineCount == old(lineCount)
    {
      runningState := Running;
    }

    method SetDone()
      modifies this
      ensures runningState == Done && lineCount == old(lineCount)
    {
      runningState := Done;
    }
  }

  /** Counting a line up and then down again leaves the model as it was. */
  method IncrThenDecr(m: Model)
    requires m.lineCount < I32_MAX
    modifies m
    ensures m.lineCount == old(m.lineCount) && m.runningState == old(m.runningState)
  {
    m.LineCountIncr();
    m.LineCountDecr();
  }
}
