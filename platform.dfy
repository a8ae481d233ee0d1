/** The operating-system collaborators the core drives: GPIO lines, the
    sensor timer and the process-wide termination flag. Each collaborator
    keeps a log of the calls made on it, and the outcome of each call comes
    from fixed fields set when the collaborator is created, so that the
    callers' contracts can say exactly which calls happen and what they see. */
module Platform {

  /** GPIO_Value_Type: GPIO_Value_Low is 0, GPIO_Value_High is 1. */
  datatype Level = Low | High

  function LevelValue(l: Level): (v: int)
    ensures v == 0 <==> l.Low?
    ensures v == 1 <==> l.High?
  {
    if l.Low? then 0 else 1
  }

  /** GPIO_Value of a C boolean: true drives the line high. */
  function LevelOf(b: bool): (l: Level)
    ensures l.High? <==> b
  {
    if b then High else Low
  }

  datatype GpioOpen = GpioOpen(gpio: int, initial: Level)
  datatype GpioWrite = GpioWrite(fd: int, level: Level)

  /** GPIO lines. `fdOf` says what GPIO_OpenAsOutput returns for each GPIO id
      (a missing id fails with -1); `failingFds` lists the descriptors on which
      GPIO_SetValue fails. */
  class Gpio {
    const fdOf: map<int, int>
    const failingFds: set<int>
    var opens: seq<GpioOpen>
    var writes: seq<GpioWrite>

    constructor (fdOf: map<int, int>, failingFds: set<int>)
      ensures this.fdOf == fdOf && this.failingFds == failingFds
      ensures opens == [] && writes == []
    {
      this.fdOf := fdOf;
      this.failingFds := failingFds;
      opens := [];
      writes := [];
    }

    function OpenResult(gpio: int): int
    {
      if gpio in fdOf then fdOf[gpio] else -1
    }

    /** GPIO_OpenAsOutput in push-pull mode with an initial level. */
    method OpenAsOutput(gpio: int, initial: Level) returns (fd: int)
      modifies this`opens
      ensures opens == old(opens) + [GpioOpen(gpio, initial)]
      ensures fd == OpenResult(gpio)
    {
      opens := opens + [GpioOpen(gpio, initial)];
      fd := OpenResult(gpio);
    }

    /** GPIO_SetValue: returns true for the C result 0. */
    method SetValue(fd: int, level: Level) returns (ok: bool)
      modifies this`writes
      ensures writes == old(writes) + [GpioWrite(fd, level)]
      ensures ok <==> fd !in failingFds
    {
      writes := writes + [GpioWrite(fd, level)];
      ok := fd !in failingFds;
    }
  }

  /** struct timespec. */
  datatype Timespec = Timespec(sec: int, nsec: int)

  /** The accelerometer read timer (accelTimerFd), re-armed by SetTimerFdToPeriod.
      `refusesSet` is the oracle for timerfd_settime: when it holds, every
      re-arm fails and the timer keeps its period. */
  class Timer {
    var period: Timespec
    const refusesSet: bool

    constructor (period: Timespec, refusesSet: bool)
      ensures this.period == period && this.refusesSet == refusesSet
    {
      this.period := period;
      this.refusesSet := refusesSet;
    }

    /** SetTimerFdToPeriod: returns true for the C result 0. */
    method SetPeriod(p: Timespec) returns (ok: bool)
      modifies this
      ensures ok <==> !refusesSet
      ensures period == (if ok then p else old(period))
    {
      ok := !refusesSet;
      if ok {
        period := p;
      }
    }
  }

  /** The process-wide `terminationRequired` flag that the event loop polls. */
  class Process {
    var terminationRequired: bool

    constructor ()
      ensures !terminationRequired
    {
      terminationRequired := false;
    }
  }
}
