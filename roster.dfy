/**
 * The roster's data model (the `Task` and `Child` records every component
 * shares) and the list updates several components apply to it: the
 * `filter`/`map` pair that removes or rewrites the entries with a given id,
 * the completed/incomplete task counts, and the choice of title and emoji for
 * a new task from a preset or from the typed input.
 *
 * An optional text field (`wakeUpTime`, `busTime`, `name`, `avatar`) is a
 * plain string: the empty string stands for both `''` and a missing field.
 * The app itself always stores strings; the two places where a missing
 * field would act differently from `''` (the unguarded `busTime.split` of
 * the stale-warning check and the interpolated name of the overlay) are
 * modelled on the `''` path.
 */
module Roster {
  import opened Wrappers
  import opened Strings

  datatype Task = Task(id: string, title: string, emoji: string, done: bool)

  datatype Child = Child(
    id: string,
    name: string,
    avatar: string,
    wakeUpTime: string,
    busTime: string,
    tasks: seq<Task>)

  // ------------------------------------------------------ filter and map

  /** `s.filter(keep)`: the entries that pass, in their original order. */
  function Filter<T(!new)>(s: seq<T>, keep: T -> bool): (r: seq<T>)
    ensures |r| <= |s|
    ensures forall x :: x in r <==> x in s && keep(x)
    ensures (forall i :: 0 <= i < |s| ==> keep(s[i])) ==> r == s
  {
    if s == [] then []
    else if keep(s[0]) then [s[0]] + Filter(s[1..], keep)
    else Filter(s[1..], keep)
  }

  /** Filtering a concatenation filters each part: the kept entries keep their relative order. */
  lemma {:induction false} FilterAppend<T(!new)>(a: seq<T>, b: seq<T>, keep: T -> bool)
    ensures Filter(a + b, keep) == Filter(a, keep) + Filter(b, keep)
  {
    if a != [] {
      assert (a + b)[0] == a[0] && (a + b)[1..] == a[1..] + b;
      FilterAppend(a[1..], b, keep);
      if keep(a[0]) {
        assert Filter(a + b, keep) == [a[0]] + (Filter(a[1..], keep) + Filter(b, keep));
      }
    } else {
      assert a + b == b;
    }
  }

  /** `s.map(x => sel(x) ? f(x) : x)`: the selected entries are rewritten, the others kept, in place. */
  function MapWhere<T>(s: seq<T>, sel: T -> bool, f: T -> T): (r: seq<T>)
    ensures |r| == |s|
    ensures forall i :: 0 <= i < |s| && !sel(s[i]) ==> r[i] == s[i]
    ensures forall i :: 0 <= i < |s| && sel(s[i]) ==> r[i] == f(s[i])
  {
    if s == [] then []
    else [if sel(s[0]) then f(s[0]) else s[0]] + MapWhere(s[1..], sel, f)
  }

  /**
   * Rewriting twice with an involution that the selector cannot tell apart
   * from the original gives back the original list.
   */
  lemma MapWhereTwice<T>(s: seq<T>, sel: T -> bool, f: T -> T)
    requires forall x :: sel(f(x)) == sel(x) && f(f(x)) == x
    ensures MapWhere(MapWhere(s, sel, f), sel, f) == s
  {
    var once := MapWhere(s, sel, f);
    var twice := MapWhere(once, sel, f);
    forall i | 0 <= i < |s| ensures twice[i] == s[i] {
      if sel(s[i]) { assert sel(once[i]); } else { assert !sel(once[i]); }
    }
  }

  // ------------------------------------------------------------ task lists

  /** `tasks.filter(t => t.id !== id)`. */
  function RemoveTasks(tasks: seq<Task>, id: string): (r: seq<Task>)
    ensures forall t :: t in r <==> t in tasks && t.id != id
    ensures (forall i :: 0 <= i < |tasks| ==> tasks[i].id != id) ==> r == tasks
  {
    Filter(tasks, (t: Task) => t.id != id)
  }

  /** A field of a task that the editors can set (`{ ...task, [field]: value }`). */
  datatype TaskField = Title(title: string) | Emoji(emoji: string) | Done(done: bool)

  function SetTaskField(t: Task, f: TaskField): Task {
    match f
    case Title(v) => t.(title := v)
    case Emoji(v) => t.(emoji := v)
    case Done(v) => t.(done := v)
  }

  /**
   * `tasks.map(t => t.id === id ? { ...t, [field]: value } : t)`: the tasks
   * with that id get the new field value and nothing else changes.
   */
  function UpdateTasks(tasks: seq<Task>, id: string, f: TaskField): (r: seq<Task>)
    ensures |r| == |tasks|
    ensures forall i :: 0 <= i < |tasks| ==> r[i].id == tasks[i].id
    ensures forall i :: 0 <= i < |tasks| && tasks[i].id != id ==> r[i] == tasks[i]
    ensures forall i :: 0 <= i < |tasks| && tasks[i].id == id ==> r[i] == SetTaskField(tasks[i], f)
  {
    MapWhere(tasks, (t: Task) => t.id == id, (t: Task) => SetTaskField(t, f))
  }

  function Flip(t: Task): Task {
    t.(done := !t.done)
  }

  /**
   * `handleTaskToggle`: the tasks with that id have `done` flipped; length,
   * order, ids and every other field stay as they were.
   */
  function ToggleTasks(tasks: seq<Task>, id: string): (r: seq<Task>)
    ensures |r| == |tasks|
    ensures forall i :: 0 <= i < |tasks| && tasks[i].id != id ==> r[i] == tasks[i]
    ensures forall i :: 0 <= i < |tasks| && tasks[i].id == id ==>
              r[i].done == !tasks[i].done && r[i].(done := tasks[i].done) == tasks[i]
  {
    MapWhere(tasks, (t: Task) => t.id == id, Flip)
  }

  /** Toggling the same id twice restores the list. */
  lemma ToggleTwice(tasks: seq<Task>, id: string)
    ensures ToggleTasks(ToggleTasks(tasks, id), id) == tasks
  {
    MapWhereTwice(tasks, (t: Task) => t.id == id, Flip);
  }

  /** `tasks.filter(t => t.done).length`. */
  function CompletedCount(tasks: seq<Task>): (n: nat)
    ensures n <= |tasks|
    ensures n == |tasks| <==> forall i :: 0 <= i < |tasks| ==> tasks[i].done
    ensures n == 0 <==> forall i :: 0 <= i < |tasks| ==> !tasks[i].done
  {
    if tasks == [] then 0
    else (if tasks[0].done then 1 else 0) + CompletedCount(tasks[1..])
  }

  /** `tasks.filter(t => !t.done).length`: positive exactly when some task is undone. */
  function IncompleteCount(tasks: seq<Task>): (n: nat)
    ensures n + CompletedCount(tasks) == |tasks|
    ensures n > 0 <==> exists i :: 0 <= i < |tasks| && !tasks[i].done
  {
    if tasks == [] then 0
    else (if tasks[0].done then 0 else 1) + IncompleteCount(tasks[1..])
  }

  // ------------------------------------------------------------- new tasks

  const DEFAULT_TASK_EMOJI := "\U{2705}"

  datatype Preset = Preset(title: string, emoji: string)

  /**
   * `preset?.title || typed.trim()`: a preset's title unless it is empty,
   * otherwise the trimmed typed title, which may be empty (no task is added then).
   */
  function ChosenTitle(preset: Option<Preset>, typed: string): (title: string)
    ensures preset.Some? && preset.value.title != "" ==> title == preset.value.title
    ensures (preset.None? || preset.value.title == "") ==> title == Trim(typed)
    ensures title == "" <==> (preset.None? || preset.value.title == "") && AllWhitespace(typed)
  {
    TrimEmptyIff(typed);
    if preset.Some? && preset.value.title != "" then preset.value.title else Trim(typed)
  }

  /** `preset?.emoji || typedEmoji`. */
  function ChosenEmoji(preset: Option<Preset>, typedEmoji: string): (emoji: string)
    ensures preset.Some? && preset.value.emoji != "" ==> emoji == preset.value.emoji
    ensures (preset.None? || preset.value.emoji == "") ==> emoji == typedEmoji
  {
    if preset.Some? && preset.value.emoji != "" then preset.value.emoji else typedEmoji
  }

  /** The new task added by either editor: not done, with the chosen title and emoji. */
  function NewTask(id: string, title: string, emoji: string): (t: Task)
    ensures !t.done && t.id == id && t.title == title && t.emoji == emoji
  {
    Task(id, title, emoji, false)
  }
}
