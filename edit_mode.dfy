/**
 * The single-child editor: a working copy of one child with defaults filled
 * in for its missing fields, task reordering by drag and drop, and task
 * adding, removing and editing; saving hands the working copy back.
 */
module EditMode {
  import opened Wrappers
  import opened Strings
  import opened Roster

  const DEFAULT_AVATAR := "\U{1F466}"

  /** The working copy: the id kept, and each empty field replaced by its default. */
  function EditDefaults(c: Child): (r: Child)
    ensures r.id == c.id && r.name == c.name && r.tasks == c.tasks
    ensures r.avatar == if c.avatar == "" then DEFAULT_AVATAR else c.avatar
    ensures r.wakeUpTime == if c.wakeUpTime == "" then "07:00" else c.wakeUpTime
    ensures r.busTime == if c.busTime == "" then "08:00" else c.busTime
  {
    Child(c.id,
          c.name,
          if c.avatar != "" then c.avatar else DEFAULT_AVATAR,
          if c.wakeUpTime != "" then c.wakeUpTime else "07:00",
          if c.busTime != "" then c.busTime else "08:00",
          c.tasks)
  }

  /** Filling in the defaults a second time changes nothing, and the filled-in fields are never empty. */
  lemma EditDefaultsSettled(c: Child)
    ensures EditDefaults(EditDefaults(c)) == EditDefaults(c)
    ensures EditDefaults(c).avatar != "" && EditDefaults(c).wakeUpTime != "" && EditDefaults(c).busTime != ""
    ensures c.avatar != "" && c.wakeUpTime != "" && c.busTime != "" ==> EditDefaults(c) == c
  {
  }

  /** The detail inputs of the editor, each setting one field of the working copy. */
  datatype Detail =
    | NameInput(name: string)
    | AvatarPick(avatar: string)
    | WakeUpInput(wakeUpTime: string)
    | BusInput(busTime: string)

  /** `setEditedChild(prev => ({ ...prev, [field]: value }))`: the field takes the input; the id and the tasks stay. */
  function WithDetail(c: Child, d: Detail): (r: Child)
    ensures r.id == c.id && r.tasks == c.tasks
    ensures r.name == (if d.NameInput? then d.name else c.name)
    ensures r.avatar == (if d.AvatarPick? then d.avatar else c.avatar)
    ensures r.wakeUpTime == (if d.WakeUpInput? then d.wakeUpTime else c.wakeUpTime)
    ensures r.busTime == (if d.BusInput? then d.busTime else c.busTime)
  {
    match d
    case NameInput(v) => c.(name := v)
    case AvatarPick(v) => c.(avatar := v)
    case WakeUpInput(v) => c.(wakeUpTime := v)
    case BusInput(v) => c.(busTime := v)
  }

  // ---------------------------------------------------------------- reorder

  /** `items.splice(i, 1)`: the list without its `i`-th item. */
  function Remove<T>(s: seq<T>, i: nat): (r: seq<T>)
    requires i < |s|
    ensures |r| == |s| - 1
  {
    s[..i] + s[i + 1..]
  }

  /** `items.splice(i, 0, x)`: `x` inserted so that it sits at index `i`. */
  function Insert<T>(s: seq<T>, i: nat, x: T): (r: seq<T>)
    requires i <= |s|
    ensures |r| == |s| + 1 && r[i] == x
  {
    s[..i] + [x] + s[i..]
  }

  /** The item at `src` taken out and put back in at `dst`. */
  function Moved<T>(s: seq<T>, src: nat, dst: nat): (r: seq<T>)
    requires src < |s| && dst < |s|
    ensures |r| == |s| && r[dst] == s[src]
  {
    Insert(Remove(s, src), dst, s[src])
  }

  /** The moved list has the same items, with the dragged one at the destination. */
  lemma MovedPermutation<T>(s: seq<T>, src: nat, dst: nat)
    requires src < |s| && dst < |s|
    ensures multiset(Moved(s, src, dst)) == multiset(s)
    ensures Moved(s, src, dst)[dst] == s[src]
  {
    var r := Remove(s, src);
    assert s == s[..src] + [s[src]] + s[src + 1..];
    assert r[..dst] + r[dst..] == r;
    calc {
      multiset(Moved(s, src, dst));
      multiset(r[..dst]) + multiset([s[src]]) + multiset(r[dst..]);
      multiset(r) + multiset([s[src]]);
      multiset(s[..src]) + multiset(s[src + 1..]) + multiset([s[src]]);
      multiset(s);
    }
  }

  /** The other items keep their relative order: taking the dragged item out again gives the list without it. */
  lemma MovedKeepsOrder<T>(s: seq<T>, src: nat, dst: nat)
    requires src < |s| && dst < |s|
    ensures Remove(Moved(s, src, dst), dst) == Remove(s, src)
  {
    var r := Remove(s, src);
    var m := Moved(s, src, dst);
    assert m[..dst] == r[..dst];
    assert m[dst + 1..] == r[dst..];
  }

  /** Dragging the item back from the destination to the source restores the list. */
  lemma MovedBack<T>(s: seq<T>, src: nat, dst: nat)
    requires src < |s| && dst < |s|
    ensures Moved(Moved(s, src, dst), dst, src) == s
  {
    MovedPermutation(s, src, dst);
    MovedKeepsOrder(s, src, dst);
    var r := Remove(s, src);
    assert Insert(r, src, s[src]) == s by {
      assert r[..src] == s[..src];
      assert r[src..] == s[src + 1..];
    }
  }

  /** `handleDragEnd`'s list: unchanged when the drop has no destination. */
  function DragEnd(tasks: seq<Task>, src: nat, dst: Option<nat>): (r: seq<Task>)
    requires src < |tasks| && (dst.Some? ==> dst.value < |tasks|)
    ensures |r| == |tasks| && (dst.None? ==> r == tasks)
    ensures multiset(r) == multiset(tasks)
    ensures dst.Some? ==> r[dst.value] == tasks[src]
  {
    if dst.None? then tasks
    else
      MovedPermutation(tasks, src, dst.value);
      Moved(tasks, src, dst.value)
  }

  /** `items.splice(src, 1)` on a fixed-size array: the later items shift down, the last cell is left as it was. */
  method SpliceOut(items: array<Task>, src: nat)
    requires src < items.Length
    modifies items
    ensures items[..items.Length - 1] == Remove(old(items[..]), src)
    ensures items[items.Length - 1] == old(items[items.Length - 1])
  {
    var n := items.Length;
    ghost var before := items[..];
    var i := src;
    while i < n - 1
      invariant src <= i <= n - 1
      invariant forall k :: 0 <= k < src ==> items[k] == before[k]
      invariant forall k :: src <= k < i ==> items[k] == before[k + 1]
      invariant forall k :: i <= k < n ==> items[k] == before[k]
    {
      items[i] := items[i + 1];
      i := i + 1;
    }
    assert forall k :: 0 <= k < n - 1 ==> items[..n - 1][k] == Remove(before, src)[k];
  }

  /** `items.splice(dst, 0, x)` on an array whose first `Length - 1` cells hold the list: the items from `dst` on shift up. */
  method SpliceIn(items: array<Task>, dst: nat, x: Task)
    requires dst < items.Length
    modifies items
    ensures items[..] == Insert(old(items[..items.Length - 1]), dst, x)
  {
    var n := items.Length;
    ghost var before := items[..n - 1];
    var j := n - 1;
    while j > dst
      invariant dst <= j <= n - 1
      invariant forall k :: 0 <= k < j ==> items[k] == before[k]
      invariant forall k :: j < k < n ==> items[k] == before[k - 1]
    {
      items[j] := items[j - 1];
      j := j - 1;
    }
    items[dst] := x;
    assert items[..dst] == before[..dst];
    assert items[dst + 1..] == before[dst..];
    assert items[..] == items[..dst] + [x] + items[dst + 1..];
  }

  /**
   * `handleDragEnd`'s reorder: a copy of the list, the item taken out at the
   * source and put back in at the destination. Both indices come from the
   * drag-and-drop library, which only reports positions within the list.
   */
  method Reorder(tasks: seq<Task>, src: nat, dst: nat) returns (r: seq<Task>)
    requires src < |tasks| && dst < |tasks|
    ensures r == Moved(tasks, src, dst)
  {
    var n := |tasks|;
    var items := new Task[n](i requires 0 <= i < n => tasks[i]);
    assert items[..] == tasks;
    var reorderedItem := items[src];
    SpliceOut(items, src);
    SpliceIn(items, dst, reorderedItem);
    r := items[..];
  }

  // ------------------------------------------------------------------ tasks

  datatype Editor = Editor(editedChild: Child, newTaskTitle: string, newTaskEmoji: string)

  /**
   * `addTask`: nothing when neither the preset nor the trimmed typed title gives
   * a title; otherwise one undone task is appended, and the inputs are reset
   * only when the task was typed rather than picked from the presets.
   */
  function AddedTask(e: Editor, preset: Option<Preset>, id: string): (r: Editor)
    ensures ChosenTitle(preset, e.newTaskTitle) == "" ==> r == e
    ensures ChosenTitle(preset, e.newTaskTitle) != "" ==>
              r.editedChild == e.editedChild.(tasks := e.editedChild.tasks
                 + [Task(id, ChosenTitle(preset, e.newTaskTitle), ChosenEmoji(preset, e.newTaskEmoji), false)])
    ensures ChosenTitle(preset, e.newTaskTitle) != "" ==>
              (r.newTaskTitle, r.newTaskEmoji) == if preset.None? then ("", DEFAULT_TASK_EMOJI) else (e.newTaskTitle, e.newTaskEmoji)
  {
    var title := ChosenTitle(preset, e.newTaskTitle);
    var emoji := ChosenEmoji(preset, e.newTaskEmoji);
    if title == "" then e
    else
      var e1 := e.(editedChild := e.editedChild.(tasks := e.editedChild.tasks + [NewTask(id, title, emoji)]));
      if preset.None? then e1.(newTaskTitle := "", newTaskEmoji := DEFAULT_TASK_EMOJI) else e1
  }

  /** With no preset and a blank typed title no task is added. */
  lemma BlankTitleIgnored(e: Editor, id: string)
    requires AllWhitespace(e.newTaskTitle)
    ensures AddedTask(e, None, id) == e
  {
  }

  /** A preset with a title always adds a task, whatever has been typed. */
  lemma PresetAlwaysAdds(e: Editor, p: Preset, id: string)
    requires p.title != ""
    ensures |AddedTask(e, Some(p), id).editedChild.tasks| == |e.editedChild.tasks| + 1
    ensures AddedTask(e, Some(p), id).editedChild.tasks[|e.editedChild.tasks|].title == p.title
  {
  }

  class EditModeState {
    var editedChild: Child
    var newTaskTitle: string
    var newTaskEmoji: string

    function State(): Editor
      reads this
    {
      Editor(editedChild, newTaskTitle, newTaskEmoji)
    }

    constructor (child: Child)
      ensures State() == Editor(EditDefaults(child), "", DEFAULT_TASK_EMOJI)
    {
      editedChild := EditDefaults(child);
      newTaskTitle := "";
      newTaskEmoji := DEFAULT_TASK_EMOJI;
    }

    method SetNewTask(title: string, emoji: string)
      modifies this
      ensures State() == old(State()).(newTaskTitle := title, newTaskEmoji := emoji)
    {
      newTaskTitle := title;
      newTaskEmoji := emoji;
    }

    method SetDetail(d: Detail)
      modifies this
      ensures State() == old(State()).(editedChild := WithDetail(old(editedChild), d))
    {
      editedChild := WithDetail(editedChild, d);
    }

    method HandleDragEnd(src: nat, dst: Option<nat>)
      requires src < |editedChild.tasks| && (dst.Some? ==> dst.value < |editedChild.tasks|)
      modifies this
      ensures State() == old(State()).(editedChild := old(editedChild).(tasks := DragEnd(old(editedChild.tasks), src, dst)))
    {
      if dst.None? {
        return;
      }
      var items := Reorder(editedChild.tasks, src, dst.value);
      editedChild := editedChild.(tasks := items);
    }

    /** `addTask`, with `id` standing for the timestamp-based id. */
    method AddTask(preset: Option<Preset>, id: string)
      modifies this
      ensures State() == AddedTask(old(State()), preset, id)
    {
      var title := ChosenTitle(preset, newTaskTitle);
      var emoji := ChosenEmoji(preset, newTaskEmoji);
      if title == "" {
        return;
      }
      editedChild := editedChild.(tasks := editedChild.tasks + [NewTask(id, title, emoji)]);
      if preset.None? {
        newTaskTitle := "";
        newTaskEmoji := DEFAULT_TASK_EMOJI;
      }
    }

    /** `handleSave`: the working copy is what is handed back. */
    method HandleSave() returns (saved: Child)
      ensures saved == editedChild && saved.id == old(editedChild.id)
    {
      saved := editedChild;
    }

    method RemoveTask(taskId: string)
      modifies this
      ensures State() == old(State()).(editedChild := old(editedChild).(tasks := RemoveTasks(old(editedChild.tasks), taskId)))
    {
      editedChild := editedChild.(tasks := RemoveTasks(editedChild.tasks, taskId));
    }

    method UpdateTask(taskId: string, f: TaskField)
      modifies this
      ensures State() == old(State()).(editedChild := old(editedChild).(tasks := UpdateTasks(old(editedChild.tasks), taskId, f)))
    {
      editedChild := editedChild.(tasks := UpdateTasks(editedChild.tasks, taskId, f));
    }
  }
}
