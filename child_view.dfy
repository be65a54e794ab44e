/**
 * The child screen: the bus countdown text, the task toggle handed to the
 * parent, the completed/total counts and the full-completion celebration.
 *
 * The page clock is the time of day in milliseconds; the bus time is the
 * same day at `hours:minutes:00.000`, where `Date` carries overflowing
 * fields forward, so its offset is simply `hours * 3600000 + minutes * 60000`.
 */
module ChildView {
  import opened Wrappers
  import opened Strings
  import opened Roster
  import AlarmSystem

  /** A time of day in milliseconds since midnight. */
  type MsOfDay = t: int | 0 <= t < 86400000

  // ================================================================ countdown

  /** Whole hours, minutes past the hour and seconds past the minute of a number of seconds. */
  function Hms(totalSeconds: nat): (r: (nat, nat, nat))
    ensures r.0 * 3600 + r.1 * 60 + r.2 == totalSeconds
    ensures r.1 < 60 && r.2 < 60
  {
    var q := totalSeconds / 60;
    var s := totalSeconds % 60;
    var m := q % 60;
    var h := q / 60;
    assert q * 60 + s == totalSeconds;
    assert h * 60 + m == q;
    assert totalSeconds / 3600 == h by {
      assert h * 3600 + (m * 60 + s) == totalSeconds;
      assert 0 <= m * 60 + s < 3600;
    }
    (totalSeconds / 3600, (totalSeconds / 60) % 60, totalSeconds % 60)
  }

  /** The text for a bus still `totalSeconds` away: hours and minutes, else minutes and seconds, else seconds. */
  function RemainingText(totalSeconds: nat): (r: string)
    ensures StartsWith(r, "Bus in ")
    ensures r[|r| - 1] == if totalSeconds >= 3600 then 'm' else 's'
  {
    var (h, m, s) := Hms(totalSeconds);
    if h > 0 then "Bus in " + NatToString(h) + "h " + NatToString(m) + "m"
    else if m > 0 then "Bus in " + NatToString(m) + "m " + NatToString(s) + "s"
    else "Bus in " + NatToString(s) + "s"
  }

  /** The countdown for a bus `diff` milliseconds away (negative once it is due). */
  function DiffText(diff: int): (r: string)
    ensures StartsWith(r, "Bus in ") <==> diff > 0
  {
    // thirty minutes (1800000 ms) after the bus time it has left
    if diff <= -1800000 then assert "Bus has left"[4] == 'h'; "Bus has left"
    else if diff <= 0 then assert "Bus time!"[4] == 't'; "Bus time!"
    else RemainingText(diff / 1000)
  }

  /** The offset from midnight in milliseconds of a bus clock, when its parts read as numbers. */
  function ClockOffset(clock: Option<(nat, nat)>): (r: Option<int>)
    ensures r.Some? <==> clock.Some?
    ensures r.Some? ==> r.value >= 0 && r.value % 60000 == 0
    ensures r.Some? ==> r.value / 60000 == clock.value.0 * 60 + clock.value.1
  {
    match clock
    case None => None
    case Some((hours, minutes)) => Some(hours * 3600000 + minutes * 60000)
  }

  /**
   * The countdown effect: nothing without a bus time; a bus time whose parts
   * are not numbers gives an invalid `Date`, so every comparison fails and
   * every part of the remaining time is `NaN`.
   */
  function BusCountdown(busTime: string, now: MsOfDay): (r: string)
    ensures r == "" <==> busTime == ""
    ensures busTime != "" && ':' !in busTime ==> r == "Bus in NaNs"
  {
    if busTime == "" then "" else OffsetCountdown(ClockOffset(AlarmSystem.BusClock(busTime)), now)
  }

  /** The countdown for a bus at `offset` ms after midnight: "Bus in …" exactly while the bus is still ahead. */
  function OffsetCountdown(offset: Option<int>, now: MsOfDay): (r: string)
    ensures offset.None? ==> r == "Bus in NaNs"
    ensures offset.Some? ==> (StartsWith(r, "Bus in ") <==> offset.value > now)
  {
    match offset
    case None => "Bus in NaNs"
    case Some(o) => DiffText(o - now)
  }

  predicate StartsWith(s: string, prefix: string) {
    |prefix| <= |s| && s[..|prefix|] == prefix
  }

  /** No bus time, no countdown. */
  lemma NoBusTimeNoCountdown(now: MsOfDay)
    ensures BusCountdown("", now) == ""
  {
  }

  /** A bus time written `HH:MM` counts down to that minute of today. */
  lemma CountdownOfFormattedTime(bus: AlarmSystem.MinuteOfDay, now: MsOfDay)
    ensures BusCountdown(FormatHHMM(bus), now) == OffsetCountdown(Some(bus * 60000), now)
  {
    var hours, minutes := bus / 60, bus % 60;
    assert ClockOffset(Some((hours, minutes))) == Some(bus * 60000) by {
      assert bus == hours * 60 + minutes;
    }
    AlarmSystem.BusClockOfFormat(bus);
  }

  /** A parsed bus time counts down by its distance from the page clock. */
  lemma OffsetCountdownOf(offset: int, now: MsOfDay)
    ensures OffsetCountdown(Some(offset), now) == DiffText(offset - now)
    ensures OffsetCountdown(None, now) == "Bus in NaNs"
  {
  }

  /** A bus time whose parts do not read as numbers shows the `NaN` text. */
  lemma CountdownNotANumber(busTime: string, now: MsOfDay)
    requires busTime != "" && AlarmSystem.BusClock(busTime).None?
    ensures BusCountdown(busTime, now) == "Bus in NaNs"
  {
  }

  /** "Bus has left" exactly when the bus time is thirty minutes or more in the past. */
  lemma BusHasLeftIff(diff: int)
    ensures DiffText(diff) == "Bus has left" <==> diff <= -1800000
  {
    if diff > 0 {
      assert DiffText(diff)[4] == 'i';
    }
  }

  /** "Bus time!" exactly from the bus time itself until thirty minutes after it. */
  lemma BusTimeIff(diff: int)
    ensures DiffText(diff) == "Bus time!" <==> -1800000 < diff <= 0
  {
    if diff > 0 {
      assert DiffText(diff)[4] == 'i';
    }
  }

  /**
   * Before the bus time the text is "Bus in ..." with the largest two units:
   * whole hours and minutes while an hour or more is left, otherwise minutes
   * and seconds, or seconds alone in the last minute, always adding up to
   * the whole seconds left.
   */
  lemma RemainingShape(diff: int)
    requires diff > 0
    ensures StartsWith(DiffText(diff), "Bus in ")
    ensures var t := diff / 1000;
            DiffText(diff) ==
              if t >= 3600 then "Bus in " + NatToString(t / 3600) + "h " + NatToString(t / 60 % 60) + "m"
              else if t >= 60 then "Bus in " + NatToString(t / 60) + "m " + NatToString(t % 60) + "s"
              else "Bus in " + NatToString(t) + "s"
  {
    var t := diff / 1000;
    var (h, m, s) := Hms(t);
    if t < 3600 {
      assert h == 0;
      if t >= 60 {
        assert m == t / 60;
      } else {
        assert m == 0 && s == t;
      }
    }
  }

  /** Forty-five minutes ahead reads "Bus in 45m 0s": below an hour the seconds are shown. */
  lemma CountdownMinutes()
    ensures DiffText(45 * 60000) == "Bus in 45m 0s"
  {
    assert Hms(2700) == (0, 45, 0);
    assert NatToString(45) == "45";
  }

  /** An hour and forty-five minutes ahead reads "Bus in 1h 45m": from an hour on the seconds are dropped. */
  lemma CountdownHours()
    ensures DiffText(105 * 60000) == "Bus in 1h 45m"
  {
    assert Hms(6300) == (1, 45, 0);
    assert NatToString(45) == "45";
  }

  /** Half a minute ahead reads "Bus in 30s"; at the bus minute and after it the text is fixed. */
  lemma CountdownEdges()
    ensures DiffText(30 * 1000) == "Bus in 30s"
    ensures DiffText(-31 * 60000) == "Bus has left"
    ensures DiffText(0) == "Bus time!"
  {
    assert Hms(30) == (0, 0, 30);
    assert NatToString(30) == "30";
  }

  // ============================================================ tasks

  /** `handleTaskToggle`: the child handed to `onUpdateChild`, with only its task list changed. */
  function ToggleInChild(child: Child, taskId: string): (r: Child)
    ensures r.(tasks := child.tasks) == child
    ensures r.tasks == ToggleTasks(child.tasks, taskId)
  {
    child.(tasks := ToggleTasks(child.tasks, taskId))
  }

  /** Toggling the same task twice hands back the child as it was. */
  lemma ToggleInChildTwice(child: Child, taskId: string)
    ensures ToggleInChild(ToggleInChild(child, taskId), taskId) == child
  {
    ToggleTwice(child.tasks, taskId);
  }

  /** The progress block is shown only for a child with tasks. */
  predicate ShowsProgress(tasks: seq<Task>) {
    |tasks| > 0
  }

  /**
   * The celebration test of the completion effect: there are tasks, all of
   * them are done, and more are done than at the last run of the effect.
   */
  predicate Celebrates(tasks: seq<Task>, completedCount: nat)
    ensures Celebrates(tasks, completedCount) ==> IncompleteCount(tasks) == 0 && completedCount < |tasks|
  {
    var completed := CompletedCount(tasks);
    |tasks| > 0 && completed == |tasks| && completed > completedCount
  }

  /** The celebration starts exactly when a non-empty list has just become all done. */
  lemma CelebratesIff(tasks: seq<Task>, completedCount: nat)
    ensures Celebrates(tasks, completedCount) <==>
              tasks != [] && (forall i :: 0 <= i < |tasks| ==> tasks[i].done) && completedCount < |tasks|
  {
  }

  /** Toggling the one task with a given id changes the completed count by one. */
  lemma {:induction false} ToggleCount(tasks: seq<Task>, taskId: string, k: nat)
    requires k < |tasks| && tasks[k].id == taskId
    requires forall j :: 0 <= j < |tasks| && j != k ==> tasks[j].id != taskId
    ensures CompletedCount(ToggleTasks(tasks, taskId)) ==
              if tasks[k].done then CompletedCount(tasks) - 1 else CompletedCount(tasks) + 1
  {
    var r := ToggleTasks(tasks, taskId);
    if k == 0 {
      assert r[1..] == tasks[1..];
    } else {
      var rest := tasks[1..];
      assert rest[k - 1] == tasks[k];
      assert r[1..] == ToggleTasks(rest, taskId);
      ToggleCount(rest, taskId, k - 1);
    }
  }

  // ============================================================ state

  /** The screen's state cells; each effect and timeout is a method. */
  class ChildScreen {
    var completedCount: nat
    var showCompletionCelebration: bool
    var busCountdown: string
    var pageCurrentTime: MsOfDay

    constructor (now: MsOfDay)
      ensures completedCount == 0 && !showCompletionCelebration
      ensures busCountdown == "" && pageCurrentTime == now
    {
      completedCount := 0;
      showCompletionCelebration := false;
      busCountdown := "";
      pageCurrentTime := now;
    }

    /** The completion effect, run whenever the task list or the remembered count changes. */
    method CheckCompletion(tasks: seq<Task>)
      modifies this
      ensures completedCount == CompletedCount(tasks)
      ensures showCompletionCelebration == (old(showCompletionCelebration) || Celebrates(tasks, old(completedCount)))
      ensures busCountdown == old(busCountdown) && pageCurrentTime == old(pageCurrentTime)
    {
      var completed := CompletedCount(tasks);
      var total := |tasks|;
      if total > 0 && completed == total && completed > completedCount {
        showCompletionCelebration := true;
      }
      completedCount := completed;
    }

    /** The three-second timeout, or a click on the celebration, hides it. */
    method HideCelebration()
      modifies this
      ensures !showCompletionCelebration
      ensures completedCount == old(completedCount)
      ensures busCountdown == old(busCountdown) && pageCurrentTime == old(pageCurrentTime)
    {
      showCompletionCelebration := false;
    }

    /** The one-second clock, followed by the countdown effect it triggers. */
    method Tick(now: MsOfDay, busTime: string)
      modifies this
      ensures pageCurrentTime == now && busCountdown == BusCountdown(busTime, now)
      ensures completedCount == old(completedCount)
      ensures showCompletionCelebration == old(showCompletionCelebration)
    {
      pageCurrentTime := now;
      busCountdown := BusCountdown(busTime, pageCurrentTime);
    }
  }

  /**
   * The completion effect re-runs after it stores the new count, and that
   * second run never celebrates again; unticking and ticking back the one
   * task with a given id celebrates anew.
   */
  lemma CelebrationRearms(tasks: seq<Task>, taskId: string, k: nat)
    requires k < |tasks| && tasks[k].id == taskId
    requires forall j :: 0 <= j < |tasks| && j != k ==> tasks[j].id != taskId
    requires forall i :: 0 <= i < |tasks| ==> tasks[i].done
    ensures !Celebrates(tasks, CompletedCount(tasks))
    ensures var unticked := ToggleTasks(tasks, taskId);
            ToggleTasks(unticked, taskId) == tasks
            && Celebrates(tasks, CompletedCount(unticked))
  {
    ToggleCount(tasks, taskId, k);
    ToggleTwice(tasks, taskId);
  }
}
