/**
 * The alarm engine of the app's `AlarmProvider`: the evaluator that picks at
 * most one alarm for the current minute from the roster, and the provider's
 * state (the active alarm, the audio context and the looping alarm sound)
 * with its transitions `initAudio`, `checkAlarms`, `triggerAlarm` and
 * `dismissAlarm`.
 *
 * Time is the minute of the day, 0 to 1439; the clock, the timers and the
 * Web Audio calls are outside the model. Whether the audio context is
 * `running` when a sound would start is an input of each transition.
 */
module AlarmSystem {
  import opened Wrappers
  import opened Strings
  import opened Roster

  /** A time of day in whole minutes since midnight. */
  type MinuteOfDay = m: int | 0 <= m < 1440

  const WAKEUP := "wakeup"
  const WARNING := "warning"
  const DEPARTURE := "departure"

  /** `{ type, child }`: the kind is free text, since `triggerAlarm` accepts any type. */
  datatype Alarm = Alarm(kind: string, child: Child)

  // ================================================================ evaluator

  /**
   * `busTime.split(':').map(Number)` read as `[busHours, busMinutes]`:
   * `None` when either is `NaN` (a missing second part is `NaN` as well).
   */
  function BusClock(busTime: string): (r: Option<(nat, nat)>)
    ensures r.Some? ==> ':' in busTime
  {
    var parts := Split(busTime, ':');
    assert ':' !in busTime ==> |parts| == 1 by {
      if ':' !in busTime {
        SplitNoSeparator(busTime, ':');
      }
    }
    var hours := ToNumber(parts[0]);
    var minutes := if |parts| >= 2 then ToNumber(parts[1]) else None;
    if hours.Some? && minutes.Some? then Some((hours.value, minutes.value)) else None
  }

  /**
   * The minute of the day shown by a `Date` set to `hours:minutes` today and
   * moved back five minutes: `Date` carries any overflow of the two fields
   * into the next hour or day and the subtraction may cross midnight
   * backwards, so the result is the total taken modulo one day.
   */
  function WarningMinute(hours: nat, minutes: nat): (r: MinuteOfDay)
    ensures (r + 5) % 1440 == (hours * 60 + minutes) % 1440
  {
    (hours * 60 + minutes - 5) % 1440
  }

  /** The warning check of one child: its bus time parses and five minutes before it reads as `now`. */
  predicate WarningMatches(busTime: string, now: MinuteOfDay)
    ensures WarningMatches(busTime, now) <==>
              BusClock(busTime).Some? && WarningMinute(BusClock(busTime).value.0, BusClock(busTime).value.1) == now
  {
    match BusClock(busTime)
    case None => false
    case Some((h, m)) => FormatHHMMInjective(WarningMinute(h, m), now); FormatHHMM(WarningMinute(h, m)) == FormatHHMM(now)
  }

  /**
   * The alarm one child calls for at `now`, checked in the source's order:
   * a child without a wake-up or bus time is skipped; then wake-up, then the
   * five-minute warning, then departure, which needs some task still undone.
   */
  function ChildAlarm(c: Child, now: MinuteOfDay): (r: Option<string>)
    ensures r.Some? ==> c.wakeUpTime != "" && c.busTime != ""
    ensures r.Some? ==> r.value == WAKEUP || r.value == WARNING || r.value == DEPARTURE
    ensures r == Some(DEPARTURE) ==> c.busTime == FormatHHMM(now) && IncompleteCount(c.tasks) > 0
  {
    var nowText := FormatHHMM(now);
    if c.wakeUpTime == "" || c.busTime == "" then None
    else if c.wakeUpTime == nowText then Some(WAKEUP)
    else if WarningMatches(c.busTime, now) then Some(WARNING)
    else if c.busTime == nowText && IncompleteCount(c.tasks) > 0 then Some(DEPARTURE)
    else None
  }

  /** The candidate of one evaluation: the alarm of the first child in roster order that calls for one. */
  function Evaluate(roster: seq<Child>, now: MinuteOfDay): (r: Option<Alarm>)
    ensures r.None? <==> forall i :: 0 <= i < |roster| ==> ChildAlarm(roster[i], now).None?
    ensures r.Some? ==> r.value.child in roster && ChildAlarm(r.value.child, now) == Some(r.value.kind)
  {
    if roster == [] then None
    else
      match ChildAlarm(roster[0], now)
      case Some(kind) => Some(Alarm(kind, roster[0]))
      case None =>
        var r := Evaluate(roster[1..], now);
        assert forall i :: 1 <= i < |roster| ==> roster[i] == roster[1..][i - 1];
        r
  }

  /** One step of the roster walk: the first child's alarm, or the rest of the roster's. */
  lemma EvaluateStep(roster: seq<Child>, i: nat, now: MinuteOfDay)
    requires i < |roster|
    ensures Evaluate(roster[i..], now) ==
              match ChildAlarm(roster[i], now)
              case Some(kind) => Some(Alarm(kind, roster[i]))
              case None => Evaluate(roster[i + 1..], now)
  {
    assert roster[i..][0] == roster[i];
    assert roster[i..][1..] == roster[i + 1..];
  }

  /**
   * The loop of `checkAlarms` that looks for the alarm to play: it walks the
   * roster in order and stops at the first child whose wake-up, warning or
   * departure check matches.
   */
  method FindAlarm(childData: seq<Child>, now: MinuteOfDay) returns (alarmToPlay: Option<Alarm>)
    ensures alarmToPlay == Evaluate(childData, now)
  {
    var currentTime := FormatHHMM(now);
    alarmToPlay := None;
    var i := 0;
    while i < |childData|
      invariant 0 <= i <= |childData|
      invariant Evaluate(childData, now) == Evaluate(childData[i..], now)
    {
      var child := childData[i];
      var kind: Option<string> := None;
      if child.wakeUpTime != "" && child.busTime != "" {
        if child.wakeUpTime == currentTime {
          kind := Some(WAKEUP);
        } else {
          var clock := BusClock(child.busTime);
          if clock.Some? && FormatHHMM(WarningMinute(clock.value.0, clock.value.1)) == currentTime {
            kind := Some(WARNING);
          } else {
            var incompleteTasks := IncompleteCount(child.tasks);
            if child.busTime == currentTime && incompleteTasks > 0 {
              kind := Some(DEPARTURE);
            }
          }
        }
      }
      assert kind == ChildAlarm(child, now);
      EvaluateStep(childData, i, now);
      if kind.Some? {
        alarmToPlay := Some(Alarm(kind.value, child));
        break;
      }
      i := i + 1;
    }
  }

  // ------------------------------------------------------- evaluator facts

  /** The `HH:MM` text of a minute parses back into that minute's hour and minute. */
  lemma BusClockOfFormat(m: MinuteOfDay)
    ensures BusClock(FormatHHMM(m)) == Some((m / 60, m % 60))
  {
    SplitFormat(m);
    Pad2Value(m / 60);
    Pad2Value(m % 60);
  }

  /** The warning minute never coincides with the bus minute itself. */
  lemma WarningBeforeBus(m: MinuteOfDay)
    ensures WarningMinute(m / 60, m % 60) != m
  {
  }

  /** `00:02` warns at `23:57` of the day before. */
  lemma WarningRollsOverMidnight()
    ensures WarningMinute(0, 2) == 23 * 60 + 57
  {
  }

  /** A child without a wake-up time or without a bus time never calls for an alarm. */
  lemma IncompleteChildSkipped(c: Child, now: MinuteOfDay)
    requires c.wakeUpTime == "" || c.busTime == ""
    ensures ChildAlarm(c, now).None?
  {
  }

  /** Wake-up comes first: a matching wake-up time wins over a warning or departure in the same minute. */
  lemma WakeupTakesPrecedence(c: Child, now: MinuteOfDay)
    requires c.busTime != "" && c.wakeUpTime == FormatHHMM(now)
    ensures ChildAlarm(c, now) == Some(WAKEUP)
  {
  }

  /**
   * The warning is the candidate exactly when both times are set, the
   * wake-up time does not read as `now`, and the bus time parses to a clock
   * whose warning minute is `now`.
   */
  lemma WarningIff(c: Child, now: MinuteOfDay)
    ensures ChildAlarm(c, now) == Some(WARNING) <==>
              c.wakeUpTime != "" && c.busTime != "" && c.wakeUpTime != FormatHHMM(now)
              && BusClock(c.busTime).Some?
              && WarningMinute(BusClock(c.busTime).value.0, BusClock(c.busTime).value.1) == now
  {
  }

  /**
   * Departure is the candidate exactly when both times are set, the wake-up
   * time does not read as `now`, the bus time reads as `now` and at least one
   * task is undone: with every task done (or no task at all) there is no
   * departure alarm.
   */
  lemma DepartureIff(c: Child, now: MinuteOfDay)
    ensures ChildAlarm(c, now) == Some(DEPARTURE) <==>
              c.wakeUpTime != "" && c.busTime != "" && c.wakeUpTime != FormatHHMM(now)
              && c.busTime == FormatHHMM(now)
              && exists i :: 0 <= i < |c.tasks| && !c.tasks[i].done
  {
    if c.busTime == FormatHHMM(now) {
      BusClockOfFormat(now);
      WarningBeforeBus(now);
    }
  }

  /**
   * A bus time that does not parse skips the warning check; the departure
   * check still runs but cannot match, since such a text never reads as an
   * `HH:MM` minute. Only the wake-up alarm is left for that child.
   */
  lemma UnparsableBusTime(c: Child, now: MinuteOfDay)
    requires BusClock(c.busTime).None?
    ensures ChildAlarm(c, now) ==
              if c.wakeUpTime != "" && c.busTime != "" && c.wakeUpTime == FormatHHMM(now)
              then Some(WAKEUP) else None
  {
    if c.busTime == FormatHHMM(now) {
      BusClockOfFormat(now);
    }
  }

  /**
   * Roster order decides between children: when child `i` is the first to
   * call for an alarm, the candidate is that child's alarm, whatever the
   * later children call for.
   */
  lemma {:induction false} FirstMatchWins(roster: seq<Child>, now: MinuteOfDay, i: nat)
    requires i < |roster| && ChildAlarm(roster[i], now).Some?
    requires forall j :: 0 <= j < i ==> ChildAlarm(roster[j], now).None?
    ensures Evaluate(roster, now) == Some(Alarm(ChildAlarm(roster[i], now).value, roster[i]))
  {
    if i > 0 {
      var rest := roster[1..];
      assert forall j :: 0 <= j < i - 1 ==> rest[j] == roster[j + 1];
      FirstMatchWins(rest, now, i - 1);
    }
  }

  /**
   * For a bus time written `HH:MM`, the warning comes five minutes before
   * the bus (across midnight if need be), unless the wake-up time is that
   * same minute.
   */
  lemma WarningFiveMinutesBefore(c: Child, bus: MinuteOfDay, now: MinuteOfDay)
    requires c.busTime == FormatHHMM(bus) && now == (bus - 5) % 1440
    requires c.wakeUpTime != "" && c.wakeUpTime != FormatHHMM(now)
    ensures ChildAlarm(c, now) == Some(WARNING)
  {
    BusClockOfFormat(bus);
    assert (bus / 60) * 60 + bus % 60 == bus;
    assert WarningMinute(bus / 60, bus % 60) == now;
  }

  /**
   * For a bus time written `HH:MM`, at the bus minute itself departure is the
   * candidate exactly when a task is undone, unless the wake-up time is that
   * same minute.
   */
  lemma DepartureAtBusMinute(c: Child, bus: MinuteOfDay)
    requires c.busTime == FormatHHMM(bus)
    requires c.wakeUpTime != "" && c.wakeUpTime != FormatHHMM(bus)
    ensures ChildAlarm(c, bus) == if IncompleteCount(c.tasks) > 0 then Some(DEPARTURE) else None
  {
    BusClockOfFormat(bus);
    WarningBeforeBus(bus);
    FormatHHMMInjective(WarningMinute(bus / 60, bus % 60), bus);
  }

  /** At 23:57 a bus time of 00:02 calls for the warning, whatever wake-up time other than 23:57 is set. */
  lemma WarningAcrossMidnight(c: Child)
    requires c.wakeUpTime != "" && c.wakeUpTime != FormatHHMM(23 * 60 + 57)
    requires c.busTime == FormatHHMM(2)
    ensures ChildAlarm(c, 23 * 60 + 57) == Some(WARNING)
  {
    WarningFiveMinutesBefore(c, 2, 23 * 60 + 57);
  }

  // ============================================================ state machine

  /** The one looping alarm sound: is it playing, where is its play head, how often was `play()` called. */
  datatype AudioElement = AudioElement(playing: bool, position: nat, plays: nat)

  /**
   * A snapshot of the provider's state cells, the roster it was given, and
   * which of its two `{ once: true }` document listeners (`click` and
   * `touchstart`, both running `initAudio`) are still attached.
   */
  datatype Provider = Provider(
    currentAlarm: Option<Alarm>,
    audioContext: bool,
    alarmAudio: Option<AudioElement>,
    childData: seq<Child>,
    clickArmed: bool,
    touchArmed: bool)

  /** The two user gestures the provider listens for. */
  datatype Gesture = Click | TouchStart

  /**
   * How far one run of `initAudio`'s `try` block gets: `new AudioContext()`
   * throws (nothing is set); the context is built and stored but building
   * the `Audio` element throws before it is stored; or both are stored.
   */
  datatype Construction = NoContext | ContextOnly | ContextAndSound

  /** `checkAlarms` does anything only with a context, an audio element and a non-empty roster. */
  predicate Ready(p: Provider) {
    p.audioContext && p.alarmAudio.Some? && |p.childData| > 0
  }

  /**
   * The context is stored before the sound is built, so a sound never exists
   * without a context (a context without a sound can: see `ContextWithoutSoundIsSilent`).
   */
  predicate Consistent(p: Provider) {
    p.alarmAudio.Some? ==> p.audioContext
  }

  /** The edge-trigger test: a candidate differs from the active alarm in type or child id. */
  predicate DiffersFrom(current: Option<Alarm>, candidate: Alarm) {
    current.None? || current.value.kind != candidate.kind || current.value.child.id != candidate.child.id
  }

  /**
   * `initAudio`: a no-op once a context exists; otherwise the context, and
   * then a fresh paused sound, as far as construction gets.
   */
  function AudioInitialized(p: Provider, outcome: Construction): (r: Provider)
    ensures p.audioContext || outcome == NoContext ==> r == p
    ensures !p.audioContext && outcome == ContextOnly ==> r == p.(audioContext := true)
    ensures !p.audioContext && outcome == ContextAndSound ==>
              r == p.(audioContext := true, alarmAudio := Some(AudioElement(false, 0, 0)))
  {
    if p.audioContext then p
    else
      match outcome
      case NoContext => p
      case ContextOnly => p.(audioContext := true)
      case ContextAndSound => p.(audioContext := true, alarmAudio := Some(AudioElement(false, 0, 0)))
  }

  /**
   * `triggerAlarm(type, child)`: the alarm becomes active whatever the audio
   * state; with a running context the sound is rewound and played. With a
   * suspended context the source asks for `resume()` and plays later, which
   * the model leaves out, so the sound is unchanged.
   */
  function Triggered(p: Provider, kind: string, child: Child, running: bool): (r: Provider)
    ensures r.currentAlarm == Some(Alarm(kind, child))
    ensures r.audioContext == p.audioContext && r.childData == p.childData
    ensures r.clickArmed == p.clickArmed && r.touchArmed == p.touchArmed
    ensures p.alarmAudio.Some? && p.audioContext && running ==>
              r.alarmAudio == Some(p.alarmAudio.value.(playing := true, position := 0, plays := p.alarmAudio.value.plays + 1))
    ensures !(p.alarmAudio.Some? && p.audioContext && running) ==> r.alarmAudio == p.alarmAudio
  {
    var audio :=
      if p.alarmAudio.Some? && p.audioContext && running
      then Some(p.alarmAudio.value.(position := 0, playing := true, plays := p.alarmAudio.value.plays + 1))
      else p.alarmAudio;
    p.(currentAlarm := Some(Alarm(kind, child)), alarmAudio := audio)
  }

  /** `dismissAlarm`: no active alarm, and the sound (if any) paused and rewound; safe with nothing active. */
  function Dismissed(p: Provider): (r: Provider)
    ensures r.currentAlarm.None?
    ensures r.audioContext == p.audioContext && r.childData == p.childData
    ensures r.clickArmed == p.clickArmed && r.touchArmed == p.touchArmed
    ensures r.alarmAudio.Some? <==> p.alarmAudio.Some?
    ensures r.alarmAudio.Some? ==> !r.alarmAudio.value.playing && r.alarmAudio.value.position == 0
                                   && r.alarmAudio.value.plays == p.alarmAudio.value.plays
  {
    var audio :=
      if p.alarmAudio.Some? then Some(p.alarmAudio.value.(playing := false, position := 0)) else None;
    p.(currentAlarm := None, alarmAudio := audio)
  }

  /**
   * `checkAlarms` at `now`: when ready, a candidate that differs from the
   * active alarm is triggered; the same candidate, or no candidate at all,
   * leaves the state as it is (the auto-dismiss branch of the source only
   * computes a flag and never acts on it).
   */
  function Checked(p: Provider, now: MinuteOfDay, running: bool): (r: Provider)
    ensures !Ready(p) ==> r == p
    ensures r.currentAlarm == p.currentAlarm || r.currentAlarm == Evaluate(p.childData, now)
    ensures r.audioContext == p.audioContext && r.childData == p.childData
    ensures r.clickArmed == p.clickArmed && r.touchArmed == p.touchArmed
    ensures r.alarmAudio.Some? <==> p.alarmAudio.Some?
  {
    if !Ready(p) then p
    else
      match Evaluate(p.childData, now)
      case None => p
      case Some(a) => if DiffersFrom(p.currentAlarm, a) then Triggered(p, a.kind, a.child, running) else p
  }

  /**
   * A dismissal as the component runs it: `currentAlarm` is a dependency of
   * `checkAlarms`, so clearing an active alarm re-runs the effect, which
   * evaluates again at once. Dismissing with nothing active changes no state
   * and re-runs nothing.
   */
  function DismissedAndChecked(p: Provider, now: MinuteOfDay, running: bool): (r: Provider)
    ensures r.currentAlarm.None? || (p.currentAlarm.Some? && Ready(p) && r.currentAlarm == Evaluate(p.childData, now))
    ensures r.audioContext == p.audioContext && r.childData == p.childData
    ensures r.alarmAudio.Some? <==> p.alarmAudio.Some?
    ensures p.currentAlarm.None? ==> r == Dismissed(p)
  {
    if p.currentAlarm.Some? then Checked(Dismissed(p), now, running) else Dismissed(p)
  }

  /** A manual `triggerAlarm` always sets a new alarm object, so the effect re-runs right after it. */
  function TriggeredAndChecked(p: Provider, kind: string, child: Child, now: MinuteOfDay, running: bool): (r: Provider)
    ensures r.currentAlarm == Some(Alarm(kind, child)) || r.currentAlarm == Evaluate(p.childData, now)
    ensures r.audioContext == p.audioContext && r.childData == p.childData
    ensures !Ready(p) ==> r == Triggered(p, kind, child, running)
  {
    Checked(Triggered(p, kind, child, running), now, running)
  }

  /** A new roster is a new `childData` prop, which re-runs the effect. */
  function RosterChanged(p: Provider, childData: seq<Child>, now: MinuteOfDay, running: bool): (r: Provider)
    ensures r.childData == childData && r.audioContext == p.audioContext
    ensures r.currentAlarm == p.currentAlarm || r.currentAlarm == Evaluate(childData, now)
    ensures childData == [] ==> r == p.(childData := [])
  {
    Checked(p.(childData := childData), now, running)
  }

  /** Is the listener for this gesture still attached? Both are while the effect's listeners are fresh, neither once both fired. */
  predicate Armed(p: Provider, g: Gesture)
    ensures p.clickArmed && p.touchArmed ==> Armed(p, g)
    ensures !p.clickArmed && !p.touchArmed ==> !Armed(p, g)
  {
    match g
    case Click => p.clickArmed
    case TouchStart => p.touchArmed
  }

  /** A `{ once: true }` listener removes itself when it fires. */
  function Disarmed(p: Provider, g: Gesture): (r: Provider)
    ensures !Armed(r, g)
    ensures forall h :: h != g ==> Armed(r, h) == Armed(p, h)
    ensures r.(clickArmed := p.clickArmed, touchArmed := p.touchArmed) == p
  {
    match g
    case Click => p.(clickArmed := false)
    case TouchStart => p.(touchArmed := false)
  }

  /**
   * A click or touch as the page delivers it. Without an attached listener
   * for it nothing happens. Otherwise that listener fires once and is gone,
   * and `initAudio` runs. Only a newly stored context changes `initAudio`
   * itself (its one dependency), so only then does the listener effect run
   * again, removing what is left and attaching both listeners afresh; the
   * same change re-runs `checkAlarms`.
   */
  function Gestured(p: Provider, g: Gesture, outcome: Construction, now: MinuteOfDay, running: bool): (r: Provider)
    ensures !Armed(p, g) ==> r == p
    ensures r.childData == p.childData
    ensures Armed(p, g) && (p.audioContext || outcome == NoContext) ==> r == Disarmed(p, g)
    ensures Armed(p, g) && !p.audioContext && outcome != NoContext ==>
              r.audioContext && r.clickArmed && r.touchArmed
              && (r.alarmAudio.Some? <==> p.alarmAudio.Some? || outcome == ContextAndSound)
  {
    if !Armed(p, g) then p
    else
      var d := Disarmed(p, g);
      var q := AudioInitialized(d, outcome);
      if q.audioContext != d.audioContext then Checked(q.(clickArmed := true, touchArmed := true), now, running)
      else q
  }

  // ---------------------------------------------------- state machine facts

  /** No transition ever makes a sound without a context. */
  lemma ConsistentPreserved(p: Provider, kind: string, child: Child, childData: seq<Child>,
                            g: Gesture, outcome: Construction, now: MinuteOfDay, running: bool)
    requires Consistent(p)
    ensures Consistent(AudioInitialized(p, outcome))
    ensures Consistent(Checked(p, now, running))
    ensures Consistent(Triggered(p, kind, child, running))
    ensures Consistent(Dismissed(p))
    ensures Consistent(p.(childData := childData))
    ensures Consistent(Gestured(p, g, outcome, now, running))
  {
  }

  /**
   * A context stored without its sound is never completed: `initAudio`
   * returns at once from then on, evaluations skip, gestures only spend
   * their listeners, and a manual trigger sets the alarm but plays nothing.
   */
  lemma ContextWithoutSoundIsSilent(p: Provider, kind: string, child: Child, g: Gesture,
                                    outcome: Construction, now: MinuteOfDay, running: bool)
    requires p.audioContext && p.alarmAudio.None?
    ensures AudioInitialized(p, outcome) == p
    ensures Checked(p, now, running) == p
    ensures Gestured(p, g, outcome, now, running).alarmAudio.None?
    ensures Gestured(p, g, outcome, now, running).currentAlarm == p.currentAlarm
    ensures Triggered(p, kind, child, running).alarmAudio.None?
  {
  }

  /** Over any number of evaluations, a context without a sound never raises an alarm. */
  lemma {:induction false} ContextWithoutSoundNeverAlarms(p: Provider, nows: seq<MinuteOfDay>, running: bool)
    requires p.audioContext && p.alarmAudio.None?
    ensures Run(p, nows, running) == p
    decreases |nows|
  {
    if nows != [] {
      assert Checked(p, nows[0], running) == p;
      ContextWithoutSoundNeverAlarms(p, nows[1..], running);
    }
  }

  /**
   * A gesture whose `new AudioContext()` throws spends its listener: the
   * same gesture afterwards does nothing whatever construction would give.
   */
  lemma FailedGestureSpendsListener(p: Provider, g: Gesture, later: Construction, now: MinuteOfDay, running: bool)
    requires !p.audioContext && Armed(p, g)
    ensures Gestured(p, g, NoContext, now, running) == Disarmed(p, g)
    ensures Gestured(Disarmed(p, g), g, later, now, running) == Disarmed(p, g)
  {
  }

  /**
   * With both listeners attached and no context, a failed click and a failed
   * touch leave no listener at all: no later gesture can initialise audio.
   */
  lemma TwoFailuresDisableAudio(p: Provider, g: Gesture, later: Construction, now: MinuteOfDay, running: bool)
    requires !p.audioContext && p.clickArmed && p.touchArmed
    ensures var r := Gestured(Gestured(p, Click, NoContext, now, running), TouchStart, NoContext, now, running);
            r == p.(clickArmed := false, touchArmed := false)
            && Gestured(r, g, later, now, running) == r
  {
    var c := Gestured(p, Click, NoContext, now, running);
    assert c == p.(clickArmed := false);
  }

  /** Nothing is evaluated before the context and the sound exist and while the roster is empty. */
  lemma NotReadyNoAlarm(p: Provider, now: MinuteOfDay, running: bool)
    requires !p.audioContext || p.alarmAudio.None? || p.childData == []
    ensures Checked(p, now, running) == p
  {
  }

  /** No auto-dismiss: without a candidate the active alarm, whatever it is, stays. */
  lemma NoAutoDismiss(p: Provider, now: MinuteOfDay, running: bool)
    requires Evaluate(p.childData, now).None?
    ensures Checked(p, now, running) == p
  {
  }

  /** A candidate with the active alarm's type and child id triggers nothing. */
  lemma SameCandidateIgnored(p: Provider, now: MinuteOfDay, running: bool)
    requires p.currentAlarm.Some? && Evaluate(p.childData, now).Some?
    requires p.currentAlarm.value.kind == Evaluate(p.childData, now).value.kind
    requires p.currentAlarm.value.child.id == Evaluate(p.childData, now).value.child.id
    ensures Checked(p, now, running) == p
  {
  }

  /** A candidate differing in type or child id replaces the active alarm and restarts the sound. */
  lemma OtherCandidateRetriggers(p: Provider, now: MinuteOfDay, running: bool)
    requires Ready(p) && Evaluate(p.childData, now).Some?
    requires DiffersFrom(p.currentAlarm, Evaluate(p.childData, now).value)
    ensures Checked(p, now, running).currentAlarm == Evaluate(p.childData, now)
    ensures running ==> Checked(p, now, running).alarmAudio.value.plays == p.alarmAudio.value.plays + 1
    ensures running ==> Checked(p, now, running).alarmAudio.value.position == 0
  {
  }

  /** A second evaluation in the same minute changes nothing: the trigger is edge-driven. */
  lemma CheckIdempotent(p: Provider, now: MinuteOfDay, running: bool)
    ensures Checked(Checked(p, now, running), now, running) == Checked(p, now, running)
  {
  }

  /** The state after a sequence of evaluations at the given minutes. */
  function Run(p: Provider, nows: seq<MinuteOfDay>, running: bool): Provider
    decreases |nows|
  {
    if nows == [] then p else Run(Checked(p, nows[0], running), nows[1..], running)
  }

  /** Once `a` is active, evaluations that yield `a` or nothing leave the state untouched. */
  lemma {:induction false} RunStaysWhileActive(p: Provider, nows: seq<MinuteOfDay>, running: bool, a: Alarm)
    requires !DiffersFrom(p.currentAlarm, a)
    requires forall i :: 0 <= i < |nows| ==> Evaluate(p.childData, nows[i]) in {None, Some(a)}
    ensures Run(p, nows, running) == p
    decreases |nows|
  {
    if nows != [] {
      assert Evaluate(p.childData, nows[0]) in {None, Some(a)};
      assert Checked(p, nows[0], running) == p;
      assert forall i :: 0 <= i < |nows| - 1 ==> nows[1..][i] == nows[i + 1];
      RunStaysWhileActive(p, nows[1..], running, a);
    }
  }

  /**
   * Edge triggering over time: while every evaluation yields the same
   * candidate `a` or nothing, the alarm sound is started at most once, and
   * `a` is active from its first appearance on.
   */
  lemma {:induction false} EdgeTriggered(p: Provider, nows: seq<MinuteOfDay>, running: bool, a: Alarm)
    requires Ready(p)
    requires forall i :: 0 <= i < |nows| ==> Evaluate(p.childData, nows[i]) in {None, Some(a)}
    ensures Run(p, nows, running).alarmAudio.Some?
    ensures Run(p, nows, running).alarmAudio.value.plays <= p.alarmAudio.value.plays + 1
    ensures (exists i :: 0 <= i < |nows| && Evaluate(p.childData, nows[i]) == Some(a)) ==>
              !DiffersFrom(Run(p, nows, running).currentAlarm, a)
    decreases |nows|
  {
    if nows != [] {
      var q := Checked(p, nows[0], running);
      var rest := nows[1..];
      assert forall i :: 0 <= i < |rest| ==> rest[i] == nows[i + 1];
      assert Evaluate(p.childData, nows[0]) in {None, Some(a)};
      if q == p {
        EdgeTriggered(p, rest, running, a);
        if Evaluate(p.childData, nows[0]) == Some(a) {
          assert !DiffersFrom(p.currentAlarm, a);
          RunStaysWhileActive(p, rest, running, a);
        } else if k :| 0 <= k < |nows| && Evaluate(p.childData, nows[k]) == Some(a) {
          assert Evaluate(p.childData, rest[k - 1]) == Some(a);
        }
      } else {
        assert q.currentAlarm == Some(a) && q.childData == p.childData;
        RunStaysWhileActive(q, rest, running, a);
      }
    }
  }

  /**
   * Dismissing during the minute that caused the alarm brings it straight
   * back: the re-run evaluation finds the same candidate and, the alarm now
   * being cleared, triggers it again, restarting the sound.
   */
  lemma DismissInMatchingMinuteRefires(p: Provider, now: MinuteOfDay, running: bool)
    requires Ready(p) && p.currentAlarm.Some? && Evaluate(p.childData, now).Some?
    ensures DismissedAndChecked(p, now, running).currentAlarm == Evaluate(p.childData, now)
    ensures running ==> DismissedAndChecked(p, now, running).alarmAudio.value.playing
    ensures running ==> DismissedAndChecked(p, now, running).alarmAudio.value.plays == p.alarmAudio.value.plays + 1
  {
  }

  /** Dismissing outside any alarm minute leaves no alarm and a paused, rewound sound; doing it again changes nothing. */
  lemma DismissSettles(p: Provider, now: MinuteOfDay, running: bool)
    requires Evaluate(p.childData, now).None?
    ensures DismissedAndChecked(p, now, running) == Dismissed(p)
    ensures DismissedAndChecked(Dismissed(p), now, running) == Dismissed(p)
  {
  }

  /** A manual trigger is overridden at once when the re-run finds a different candidate. */
  lemma ManualTriggerOverridden(p: Provider, kind: string, child: Child, now: MinuteOfDay, running: bool)
    requires Ready(p) && Evaluate(p.childData, now).Some?
    requires DiffersFrom(Some(Alarm(kind, child)), Evaluate(p.childData, now).value)
    ensures TriggeredAndChecked(p, kind, child, now, running).currentAlarm == Evaluate(p.childData, now)
  {
  }

  /** `initAudio` has its effect at most once: after a context exists, later calls change nothing. */
  lemma InitAudioOnce(p: Provider, first: Construction, second: Construction)
    ensures AudioInitialized(AudioInitialized(p, first), second) ==
              if p.audioContext || first != NoContext then AudioInitialized(p, first) else AudioInitialized(p, second)
  {
  }

  // =================================================================== class

  /**
   * The provider's state cells. Each method is one transition; the `On...`
   * methods are the events as the component sees them, including the effect
   * that re-runs `checkAlarms` when one of its dependencies changes.
   */
  class AlarmProvider {
    var currentAlarm: Option<Alarm>
    var audioContext: bool
    var alarmAudio: Option<AudioElement>
    var childData: seq<Child>
    var clickArmed: bool
    var touchArmed: bool

    function State(): Provider
      reads this
    {
      Provider(currentAlarm, audioContext, alarmAudio, childData, clickArmed, touchArmed)
    }

    /** The first render, with the listener effect attaching both listeners. */
    constructor (childData: seq<Child>)
      ensures State() == Provider(None, false, None, childData, true, true)
    {
      currentAlarm := None;
      audioContext := false;
      alarmAudio := None;
      this.childData := childData;
      clickArmed := true;
      touchArmed := true;
    }

    /** `initAudio`; `outcome` says how far its constructors get. */
    method InitAudio(outcome: Construction)
      modifies this
      ensures State() == AudioInitialized(old(State()), outcome)
    {
      if audioContext {
        return;
      }
      if outcome != NoContext {
        audioContext := true;
        if outcome == ContextAndSound {
          alarmAudio := Some(AudioElement(false, 0, 0));
        }
      }
    }

    /** `triggerAlarm(type, child)`. */
    method TriggerAlarm(kind: string, child: Child, running: bool)
      modifies this
      ensures State() == Triggered(old(State()), kind, child, running)
    {
      currentAlarm := Some(Alarm(kind, child));
      if alarmAudio.Some? && audioContext && running {
        var audio := alarmAudio.value;
        audio := audio.(position := 0);
        audio := audio.(playing := true, plays := audio.plays + 1);
        alarmAudio := Some(audio);
      }
    }

    /** `dismissAlarm`. */
    method DismissAlarm()
      modifies this
      ensures State() == Dismissed(old(State()))
    {
      currentAlarm := None;
      if alarmAudio.Some? {
        alarmAudio := Some(alarmAudio.value.(playing := false));
        alarmAudio := Some(alarmAudio.value.(position := 0));
      }
    }

    /** `checkAlarms` at minute `now`, run by the interval and by the effect. */
    method CheckAlarms(now: MinuteOfDay, running: bool)
      modifies this
      ensures State() == Checked(old(State()), now, running)
    {
      if !audioContext || alarmAudio.None? || |childData| == 0 {
        return;
      }
      var alarmToPlay := FindAlarm(childData, now);
      if alarmToPlay.Some? {
        var a := alarmToPlay.value;
        if currentAlarm.None? || currentAlarm.value.kind != a.kind || currentAlarm.value.child.id != a.child.id {
          TriggerAlarm(a.kind, a.child, running);
        }
      }
    }

    /**
     * A click or touch on the page: its once-only listener, if still
     * attached, detaches and runs `initAudio`; a newly stored context
     * re-attaches both listeners and re-runs `checkAlarms`.
     */
    method OnGesture(g: Gesture, outcome: Construction, now: MinuteOfDay, running: bool)
      modifies this
      ensures State() == Gestured(old(State()), g, outcome, now, running)
    {
      if g == Click {
        if !clickArmed {
          return;
        }
        clickArmed := false;
      } else {
        if !touchArmed {
          return;
        }
        touchArmed := false;
      }
      var hadContext := audioContext;
      InitAudio(outcome);
      if audioContext != hadContext {
        clickArmed := true;
        touchArmed := true;
        CheckAlarms(now, running);
      }
    }

    /** The dismiss button, followed by the re-run when an alarm was cleared. */
    method OnDismiss(now: MinuteOfDay, running: bool)
      modifies this
      ensures State() == DismissedAndChecked(old(State()), now, running)
    {
      var wasActive := currentAlarm.Some?;
      DismissAlarm();
      if wasActive {
        CheckAlarms(now, running);
      }
    }

    /** A manual `triggerAlarm`, followed by the re-run. */
    method OnManualTrigger(kind: string, child: Child, now: MinuteOfDay, running: bool)
      modifies this
      ensures State() == TriggeredAndChecked(old(State()), kind, child, now, running)
    {
      TriggerAlarm(kind, child, running);
      CheckAlarms(now, running);
    }

    /** A new `childData` prop, followed by the re-run. */
    method OnRosterChange(newChildData: seq<Child>, now: MinuteOfDay, running: bool)
      modifies this
      ensures State() == RosterChanged(old(State()), newChildData, now, running)
    {
      childData := newChildData;
      CheckAlarms(now, running);
    }
  }
}
