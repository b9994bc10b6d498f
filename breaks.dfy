/** Non-charging breaks: a time-of-day window during which cars wait instead of driving. */
module Breaks {

  const SecondsPerDay: int := 86400

  /** The break configured for the run; `NoBreak` stands for the "None" sentinel. */
  datatype BreakWindow = NoBreak | Window(startBreak: int, endBreak: int)

  /** The wall-clock time of day of `time` (seconds since midnight of day 0). */
  function TimeOfDay(time: int): (r: int)
    ensures 0 <= r < SecondsPerDay
    ensures (time - r) % SecondsPerDay == 0
  {
    time % SecondsPerDay
  }

  /** Whether `time` falls inside the configured break. */
  function BreakTime(time: int, breaks: BreakWindow): (r: bool)
    ensures r ==> breaks.Window?
    ensures breaks.Window? ==> (r <==> breaks.startBreak <= TimeOfDay(time) < breaks.endBreak)
  {
    if breaks.NoBreak? then false
    else breaks.startBreak <= TimeOfDay(time) && TimeOfDay(time) < breaks.endBreak
  }

  /** The break test depends on the time of day only, so it repeats every day. */
  lemma BreakTimeIsDaily(time: int, breaks: BreakWindow)
    ensures BreakTime(time + SecondsPerDay, breaks) == BreakTime(time, breaks)
  {
    assert TimeOfDay(time + SecondsPerDay) == TimeOfDay(time);
  }
}
