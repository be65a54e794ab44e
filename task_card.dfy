/**
 * A task card's click handler: a disabled card ignores the click; otherwise
 * a task that was not done yet gets a celebration (a random emoji from a
 * fixed list, the animation flag and a short beep on a new audio context),
 * and the toggle is handed to the parent once. A one-second timeout ends the
 * celebration. Building the audio context is not guarded: when it throws,
 * the emoji and the animation flag are already set, but neither the timeout
 * nor the toggle happens.
 */
module TaskCard {
  import opened Wrappers
  import opened Roster

  const CELEBRATION_SOUNDS: seq<string> :=
    ["\U{1F389}", "\U{2728}", "\U{1F31F}", "\U{1F38A}", "\U{1F4AB}", "\U{1F388}"]

  /**
   * The card's state cells; the number of beeps it has started, each on an
   * audio context of its own that is never closed; and the number of
   * celebration timeouts scheduled and not yet fired.
   */
  datatype Card = Card(isAnimating: bool, celebrationEmoji: string, beeps: nat, pendingTimeouts: nat)

  /**
   * `handleToggle`, with `pick` standing for `Math.floor(Math.random() * 6)`
   * and `constructible` for whether `new AudioContext()` succeeds: the
   * card's new state and the task id handed to `onToggle`, if any.
   */
  function Clicked(c: Card, task: Task, disabled: bool, pick: nat, constructible: bool): (r: (Card, Option<string>))
    requires pick < |CELEBRATION_SOUNDS|
    ensures disabled ==> r == (c, None)
    ensures r.1.Some? <==> !disabled && (task.done || constructible)
    ensures r.1.Some? ==> r.1 == Some(task.id)
    ensures !disabled && !task.done ==> r.0.isAnimating && r.0.celebrationEmoji in CELEBRATION_SOUNDS
    ensures !disabled && !task.done && constructible ==>
              r.0.beeps == c.beeps + 1 && r.0.pendingTimeouts == c.pendingTimeouts + 1
    ensures !disabled && !task.done && !constructible ==>
              r.0.beeps == c.beeps && r.0.pendingTimeouts == c.pendingTimeouts
    ensures !disabled && task.done ==> r.0 == c
  {
    if disabled then (c, None)
    else if !task.done then
      var shown := c.(isAnimating := true, celebrationEmoji := CELEBRATION_SOUNDS[pick]);
      if constructible then (shown.(beeps := c.beeps + 1, pendingTimeouts := c.pendingTimeouts + 1), Some(task.id))
      else (shown, None)
    else (c, Some(task.id))
  }

  /** One celebration timeout firing, if one is pending; it ends whatever celebration is showing. */
  function TimedOut(c: Card): (r: Card)
    ensures c.pendingTimeouts == 0 ==> r == c
    ensures c.pendingTimeouts > 0 ==>
              !r.isAnimating && r.celebrationEmoji == "" && r.beeps == c.beeps
              && r.pendingTimeouts == c.pendingTimeouts - 1
  {
    if c.pendingTimeouts == 0 then c
    else c.(isAnimating := false, celebrationEmoji := "", pendingTimeouts := c.pendingTimeouts - 1)
  }

  /**
   * A celebration starts exactly on an enabled click on a task that was not
   * yet done; a beep, a timeout and the toggle of that task follow exactly
   * when the audio context could be built.
   */
  lemma CelebratesIff(c: Card, task: Task, disabled: bool, pick: nat, constructible: bool)
    requires pick < |CELEBRATION_SOUNDS| && !c.isAnimating
    ensures Clicked(c, task, disabled, pick, constructible).0.isAnimating <==> !disabled && !task.done
    ensures Clicked(c, task, disabled, pick, constructible).0.beeps > c.beeps <==>
              !disabled && !task.done && constructible
    ensures Clicked(c, task, disabled, pick, constructible).0.pendingTimeouts > c.pendingTimeouts <==>
              !disabled && !task.done && constructible
  {
  }

  /**
   * When the audio context cannot be built on a card with no timeout
   * pending, the task is not toggled and the celebration never ends: no
   * timeout is pending to clear it.
   */
  lemma FailedBeepStrandsCelebration(c: Card, task: Task, pick: nat)
    requires pick < |CELEBRATION_SOUNDS| && !task.done && c.pendingTimeouts == 0
    ensures var r := Clicked(c, task, false, pick, false);
            r.1.None? && r.0.isAnimating && r.0.celebrationEmoji == CELEBRATION_SOUNDS[pick]
            && TimedOut(r.0) == r.0
  {
  }

  /** Any emoji of the list can be the one shown, and whichever is shown is cleared by the timeout. */
  lemma EveryEmojiPossible(c: Card, task: Task, emoji: string)
    requires emoji in CELEBRATION_SOUNDS && !task.done
    ensures exists pick :: 0 <= pick < |CELEBRATION_SOUNDS| && Clicked(c, task, false, pick, true).0.celebrationEmoji == emoji
    ensures forall pick :: 0 <= pick < |CELEBRATION_SOUNDS| ==>
              TimedOut(Clicked(c, task, false, pick, true).0).celebrationEmoji == ""
  {
    var pick :| 0 <= pick < |CELEBRATION_SOUNDS| && CELEBRATION_SOUNDS[pick] == emoji;
    assert Clicked(c, task, false, pick, true).0.celebrationEmoji == emoji;
  }

  class TaskCardState {
    var isAnimating: bool
    var celebrationEmoji: string
    var beeps: nat
    var pendingTimeouts: nat

    function State(): Card
      reads this
    {
      Card(isAnimating, celebrationEmoji, beeps, pendingTimeouts)
    }

    constructor ()
      ensures State() == Card(false, "", 0, 0)
    {
      isAnimating := false;
      celebrationEmoji := "";
      beeps := 0;
      pendingTimeouts := 0;
    }

    /** `handleToggle`: returns the id passed to `onToggle`, if it is called. */
    method HandleToggle(task: Task, disabled: bool, pick: nat, constructible: bool) returns (toggled: Option<string>)
      requires pick < |CELEBRATION_SOUNDS|
      modifies this
      ensures (State(), toggled) == Clicked(old(State()), task, disabled, pick, constructible)
    {
      if disabled {
        return None;
      }
      if !task.done {
        var randomEmoji := CELEBRATION_SOUNDS[pick];
        celebrationEmoji := randomEmoji;
        isAnimating := true;
        if !constructible {
          return None;
        }
        beeps := beeps + 1;
        pendingTimeouts := pendingTimeouts + 1;
      }
      toggled := Some(task.id);
    }

    /** A pending celebration timeout fires; with none pending nothing happens. */
    method Timeout()
      modifies this
      ensures State() == TimedOut(old(State()))
    {
      if pendingTimeouts == 0 {
        return;
      }
      isAnimating := false;
      celebrationEmoji := "";
      pendingTimeouts := pendingTimeouts - 1;
    }
  }
}
