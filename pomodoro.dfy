/** The Pomodoro timer: 25-minute focus periods separated by 5-minute
    breaks, counting the focus periods completed. */
module Pomodoro {
  import opened Wrappers
  import opened Text
  import opened StudyTypes

  const FocusSeconds: nat := 25 * 60
  const BreakSeconds: nat := 5 * 60

  /** `MM:SS`, both fields padded to two digits. */
  function FormatTime(seconds: nat): string {
    PadStart2(NatToString(seconds / 60)) + ":" + PadStart2(NatToString(seconds % 60))
  }

  /** The display reads back as the seconds it shows, at any length. */
  lemma FormatTimeRoundTrip(seconds: nat)
    ensures ParseClock(FormatTime(seconds)) == Some(seconds)
  {
    ClockReadsBack(seconds / 60, seconds % 60, seconds);
  }

  lemma ClockReadsBack(q: nat, r: nat, total: nat)
    requires r < 60 && total == q * 60 + r
    ensures ParseClock(PadStart2(NatToString(q)) + ":" + PadStart2(NatToString(r))) == Some(total)
  {
    var m, sec := PadStart2(NatToString(q)), PadStart2(NatToString(r));
    PaddedReadsBack(r);
    ParseNatToString(q);
    ParsePadded(NatToString(q));
    ParseClockOfValues(m + ":" + sec, m, sec, q, r, total);
  }

  /** Below 100 minutes the display is exactly five characters. */
  lemma FormatTimeWidth(seconds: nat)
    requires seconds < 6000
    ensures |FormatTime(seconds)| == 5 && FormatTime(seconds)[2] == ':'
  {
    NatToStringShort(seconds / 60);
    NatToStringShort(seconds % 60);
  }

  class PomodoroSession {
    /** Whether the parent passed `onSessionComplete`. */
    const hasCallback: bool

    var timeLeft: nat
    var isActive: bool
    var isBreak: bool
    var completedPomodoros: nat
    var reported: seq<Stats>

    /** The countdown never exceeds the period it belongs to. */
    predicate Valid()
      reads this
    {
      timeLeft <= (if isBreak then BreakSeconds else FocusSeconds)
    }

    constructor (hasCallback: bool)
      ensures Valid() && this.hasCallback == hasCallback
      ensures timeLeft == FocusSeconds && !isActive && !isBreak && completedPomodoros == 0 && reported == []
    {
      this.hasCallback := hasCallback;
      timeLeft := FocusSeconds;
      isActive := false;
      isBreak := false;
      completedPomodoros := 0;
      reported := [];
    }

    /** One second of the running interval. */
    method Tick()
      requires Valid() && isActive && timeLeft > 0
      modifies this`timeLeft
      ensures Valid() && timeLeft == old(timeLeft) - 1
    {
      timeLeft := timeLeft - 1;
    }

    /** The effect that runs when the countdown reaches zero: a finished focus
        period is counted and a break begins; a finished break returns to
        focus. Either way the timer waits to be started. */
    method Expire()
      requires Valid() && timeLeft == 0
      modifies this`timeLeft, this`isActive, this`isBreak, this`completedPomodoros
      ensures Valid() && !isActive && isBreak == !old(isBreak)
      ensures !old(isBreak) ==> completedPomodoros == old(completedPomodoros) + 1 && timeLeft == BreakSeconds
      ensures old(isBreak) ==> completedPomodoros == old(completedPomodoros) && timeLeft == FocusSeconds
    {
      if !isBreak {
        completedPomodoros := completedPomodoros + 1;
        isBreak := true;
        timeLeft := BreakSeconds;
        isActive := false;
      } else {
        isBreak := false;
        timeLeft := FocusSeconds;
        isActive := false;
      }
    }

    /** Start / Pause, on the focus screen. */
    method Toggle()
      requires Valid() && !isBreak
      modifies this`isActive
      ensures Valid() && isActive == !old(isActive)
    {
      isActive := !isActive;
    }

    /** "Start Break Timer", shown on a break that is paused with time left. */
    method StartBreak()
      requires Valid() && isBreak && !isActive && timeLeft > 0
      modifies this`isActive
      ensures Valid() && isActive
    {
      isActive := true;
    }

    /** Reset, on the focus screen: back to a full, paused focus period; the
        count is kept. */
    method HandleReset()
      requires Valid() && !isBreak
      modifies this`isActive, this`timeLeft, this`isBreak
      ensures Valid() && !isActive && timeLeft == FocusSeconds && !isBreak
    {
      isActive := false;
      timeLeft := FocusSeconds;
      isBreak := false;
    }

    /** "Finish Session": reports the number of completed focus periods. */
    method HandleFinishSession()
      requires Valid() && !isBreak
      modifies this`reported
      ensures Valid()
      ensures reported == old(reported) + (if hasCallback then [map["completedPomodoros" := Num(completedPomodoros)]] else [])
    {
      if hasCallback {
        reported := reported + [map["completedPomodoros" := Num(completedPomodoros)]];
      }
    }
  }
}
