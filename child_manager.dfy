/**
 * The children manager: a working copy of the roster, each child carrying the
 * two inputs of its "new task" row, edited by adding and removing children and
 * tasks and by setting single fields, and saved with those inputs stripped.
 */
module ChildManager {
  import opened Wrappers
  import opened Strings
  import opened Roster

  /** A child of the working copy: `{ ...child, tempNewTaskTitle, tempNewTaskEmoji }`. */
  datatype EditedChild = EditedChild(child: Child, tempNewTaskTitle: string, tempNewTaskEmoji: string)

  const DEFAULT_AVATAR := "\U{1F466}"

  /** A child as the manager first holds it, with both inputs of the new-task row empty. */
  function WithTemps(c: Child): EditedChild {
    EditedChild(c, "", DEFAULT_TASK_EMOJI)
  }

  /** The initial working copy. */
  function Initial(children: seq<Child>): (r: seq<EditedChild>)
    ensures |r| == |children|
    ensures forall i :: 0 <= i < |children| ==> r[i] == WithTemps(children[i])
  {
    if children == [] then [] else [WithTemps(children[0])] + Initial(children[1..])
  }

  /** `handleSave`'s list: every child without its two input fields, in the same order. */
  function Strip(edited: seq<EditedChild>): (r: seq<Child>)
    ensures |r| == |edited|
    ensures forall i :: 0 <= i < |edited| ==> r[i] == edited[i].child
  {
    if edited == [] then [] else [edited[0].child] + Strip(edited[1..])
  }

  /** Opening the manager and saving at once gives back the same list. */
  lemma StripInitial(children: seq<Child>)
    ensures Strip(Initial(children)) == children
  {
  }

  /** `editedChildren.find(c => c.id === id)`. */
  function FindChild(edited: seq<EditedChild>, id: string): (r: Option<EditedChild>)
    ensures r.None? <==> forall i :: 0 <= i < |edited| ==> edited[i].child.id != id
    ensures r.Some? ==> exists k :: 0 <= k < |edited| && edited[k] == r.value && r.value.child.id == id
                          && (forall j :: 0 <= j < k ==> edited[j].child.id != id)
  {
    if edited == [] then None
    else if edited[0].child.id == id then Some(edited[0])
    else
      var rest := FindChild(edited[1..], id);
      if rest.Some? then
        var k :| 0 <= k < |edited[1..]| && edited[1..][k] == rest.value && rest.value.child.id == id
                 && (forall j :: 0 <= j < k ==> edited[1..][j].child.id != id);
        assert edited[k + 1] == rest.value;
        assert forall j :: 0 < j < k + 1 ==> edited[j] == edited[1..][j - 1];
        rest
      else rest
  }

  // -------------------------------------------------------------- the fields

  /** A property `updateChildProperty` is called with, and its new value. */
  datatype ChildField =
    | Name(name: string)
    | Avatar(avatar: string)
    | WakeUpTime(wakeUpTime: string)
    | BusTime(busTime: string)
    | Tasks(tasks: seq<Task>)
    | TempTitle(tempTitle: string)
    | TempEmoji(tempEmoji: string)

  /** `{ ...child, [property]: value }`. */
  function SetField(e: EditedChild, f: ChildField): EditedChild {
    match f
    case Name(v) => e.(child := e.child.(name := v))
    case Avatar(v) => e.(child := e.child.(avatar := v))
    case WakeUpTime(v) => e.(child := e.child.(wakeUpTime := v))
    case BusTime(v) => e.(child := e.child.(busTime := v))
    case Tasks(v) => e.(child := e.child.(tasks := v))
    case TempTitle(v) => e.(tempNewTaskTitle := v)
    case TempEmoji(v) => e.(tempNewTaskEmoji := v)
  }

  /** `updateChildProperty`: the children with the id get the field; nothing else changes. */
  function UpdateChildProperty(edited: seq<EditedChild>, id: string, f: ChildField): (r: seq<EditedChild>)
    ensures |r| == |edited|
    ensures forall i :: 0 <= i < |edited| ==> r[i].child.id == edited[i].child.id
    ensures forall i :: 0 <= i < |edited| && edited[i].child.id != id ==> r[i] == edited[i]
    ensures forall i :: 0 <= i < |edited| && edited[i].child.id == id ==> r[i] == SetField(edited[i], f)
  {
    MapWhere(edited, (e: EditedChild) => e.child.id == id, (e: EditedChild) => SetField(e, f))
  }

  /** `updateChildTaskProperty`: the tasks with the task id of the children with the child id get the field. */
  function UpdateChildTaskProperty(edited: seq<EditedChild>, childId: string, taskId: string, f: TaskField): (r: seq<EditedChild>)
    ensures |r| == |edited|
    ensures forall i :: 0 <= i < |edited| && edited[i].child.id != childId ==> r[i] == edited[i]
    ensures forall i :: 0 <= i < |edited| && edited[i].child.id == childId ==>
              r[i] == edited[i].(child := edited[i].child.(tasks := UpdateTasks(edited[i].child.tasks, taskId, f)))
  {
    MapWhere(edited, (e: EditedChild) => e.child.id == childId,
             (e: EditedChild) => e.(child := e.child.(tasks := UpdateTasks(e.child.tasks, taskId, f))))
  }

  /** Typing in a child's new-task row changes nothing that is saved. */
  lemma TempFieldsNotSaved(edited: seq<EditedChild>, id: string, v: string)
    ensures Strip(UpdateChildProperty(edited, id, TempTitle(v))) == Strip(edited)
    ensures Strip(UpdateChildProperty(edited, id, TempEmoji(v))) == Strip(edited)
  {
  }

  // -------------------------------------------------------------- the children

  /** The child `addNewChild` creates from a name that is not blank. */
  function NewChild(id: string, name: string): (r: EditedChild)
    ensures r.child.id == id && r.child.name == Trim(name) && r.child.tasks == []
    ensures r.child.wakeUpTime == "07:00" && r.child.busTime == "08:00"
  {
    EditedChild(Child(id, Trim(name), DEFAULT_AVATAR, "07:00", "08:00", []), "", DEFAULT_TASK_EMOJI)
  }

  /** `removeChild`'s list: the children with another id, in their order. */
  function RemoveChild(edited: seq<EditedChild>, id: string): (r: seq<EditedChild>)
    ensures forall e :: e in r <==> e in edited && e.child.id != id
    ensures (forall i :: 0 <= i < |edited| ==> edited[i].child.id != id) ==> r == edited
  {
    Filter(edited, (e: EditedChild) => e.child.id != id)
  }

  /** Removing keeps the other children in their relative order: a removal from a joined list removes from each part. */
  lemma RemoveChildOrder(front: seq<EditedChild>, back: seq<EditedChild>, id: string)
    ensures RemoveChild(front + back, id) == RemoveChild(front, id) + RemoveChild(back, id)
  {
    FilterAppend(front, back, (e: EditedChild) => e.child.id != id);
  }

  // -------------------------------------------------------------- the tasks

  /** The full outcome of `addChildTask` once a title has been chosen: the task appended and the row reset. */
  function WithTaskAdded(e: EditedChild, base: seq<Task>, t: Task): EditedChild {
    EditedChild(e.child.(tasks := base + [t]), "", DEFAULT_TASK_EMOJI)
  }

  /**
   * `addChildTask`: nothing for an unknown child or when neither the preset
   * nor the trimmed typed title gives a title; otherwise every child with the
   * id gets the found child's tasks plus the new undone task, and its
   * new-task row is reset.
   */
  function AddChildTask(edited: seq<EditedChild>, childId: string, preset: Option<Preset>, taskId: string): (r: seq<EditedChild>)
    ensures |r| == |edited|
    ensures forall i :: 0 <= i < |edited| && edited[i].child.id != childId ==> r[i] == edited[i]
    ensures FindChild(edited, childId).None? ==> r == edited
  {
    match FindChild(edited, childId)
    case None => edited
    case Some(current) =>
      var title := ChosenTitle(preset, current.tempNewTaskTitle);
      var emoji := ChosenEmoji(preset, current.tempNewTaskEmoji);
      if title == "" then edited
      else
        MapWhere(edited, (e: EditedChild) => e.child.id == childId,
                 (e: EditedChild) => WithTaskAdded(e, current.child.tasks, NewTask(taskId, title, emoji)))
  }

  /** The three successive field updates `addChildTask` makes have the combined effect above. */
  lemma AddChildTaskSteps(edited: seq<EditedChild>, childId: string, base: seq<Task>, t: Task)
    ensures UpdateChildProperty(UpdateChildProperty(UpdateChildProperty(edited, childId, Tasks(base + [t])),
                                                    childId, TempTitle("")), childId, TempEmoji(DEFAULT_TASK_EMOJI))
            == MapWhere(edited, (e: EditedChild) => e.child.id == childId, (e: EditedChild) => WithTaskAdded(e, base, t))
  {
  }

  /**
   * The child the button belongs to gets exactly one more task at the end,
   * undone, with the chosen title and emoji; children of other ids are untouched.
   */
  lemma AddChildTaskAppends(edited: seq<EditedChild>, k: nat, preset: Option<Preset>, taskId: string)
    requires k < |edited|
    requires forall j :: 0 <= j < |edited| && j != k ==> edited[j].child.id != edited[k].child.id
    requires ChosenTitle(preset, edited[k].tempNewTaskTitle) != ""
    ensures var r := AddChildTask(edited, edited[k].child.id, preset, taskId);
            |r| == |edited|
            && (forall j :: 0 <= j < |edited| && j != k ==> r[j] == edited[j])
            && r[k].child.(tasks := edited[k].child.tasks) == edited[k].child
            && r[k].child.tasks == edited[k].child.tasks
                                   + [Task(taskId, ChosenTitle(preset, edited[k].tempNewTaskTitle),
                                           ChosenEmoji(preset, edited[k].tempNewTaskEmoji), false)]
            && r[k].tempNewTaskTitle == "" && r[k].tempNewTaskEmoji == DEFAULT_TASK_EMOJI
  {
    var id := edited[k].child.id;
    FindUnique(edited, k);
    var title := ChosenTitle(preset, edited[k].tempNewTaskTitle);
    var emoji := ChosenEmoji(preset, edited[k].tempNewTaskEmoji);
    var t := NewTask(taskId, title, emoji);
    var r := AddChildTask(edited, id, preset, taskId);
    assert r == MapWhere(edited, (e: EditedChild) => e.child.id == id,
                         (e: EditedChild) => WithTaskAdded(e, edited[k].child.tasks, t));
  }

  /** With unique ids the child found by id is the one at its position. */
  lemma FindUnique(edited: seq<EditedChild>, k: nat)
    requires k < |edited|
    requires forall j :: 0 <= j < |edited| && j != k ==> edited[j].child.id != edited[k].child.id
    ensures FindChild(edited, edited[k].child.id) == Some(edited[k])
  {
    var found := FindChild(edited, edited[k].child.id);
    var i :| 0 <= i < |edited| && edited[i] == found.value && found.value.child.id == edited[k].child.id
             && (forall j :: 0 <= j < i ==> edited[j].child.id != edited[k].child.id);
    assert i == k;
  }

  /** Without a preset and with a blank typed title, adding a task changes nothing. */
  lemma BlankTaskIgnored(edited: seq<EditedChild>, childId: string, taskId: string)
    requires forall i :: 0 <= i < |edited| && edited[i].child.id == childId ==> AllWhitespace(edited[i].tempNewTaskTitle)
    ensures AddChildTask(edited, childId, None, taskId) == edited
  {
    var found := FindChild(edited, childId);
    if found.Some? {
      TrimEmptyIff(found.value.tempNewTaskTitle);
    }
  }

  /** `removeChildTask`: the found child's tasks without those of the id, set on every child with the child id. */
  function RemoveChildTask(edited: seq<EditedChild>, childId: string, taskId: string): (r: seq<EditedChild>)
    ensures |r| == |edited|
    ensures forall i :: 0 <= i < |edited| && edited[i].child.id != childId ==> r[i] == edited[i]
    ensures forall i, t :: 0 <= i < |edited| && edited[i].child.id == childId && t in r[i].child.tasks ==> t.id != taskId
  {
    match FindChild(edited, childId)
    case None => edited
    case Some(current) => UpdateChildProperty(edited, childId, Tasks(RemoveTasks(current.child.tasks, taskId)))
  }

  /** Setting the task list sets exactly the task list. */
  lemma TasksFieldSet(e: EditedChild, v: seq<Task>)
    ensures SetField(e, Tasks(v)).child.tasks == v
  {
  }

  /** With unique child ids, removing a task touches only that child's task list, and only tasks with that id. */
  lemma RemoveChildTaskOnly(edited: seq<EditedChild>, k: nat, taskId: string)
    requires k < |edited|
    requires forall j :: 0 <= j < |edited| && j != k ==> edited[j].child.id != edited[k].child.id
    ensures var r := RemoveChildTask(edited, edited[k].child.id, taskId);
            |r| == |edited|
            && (forall j :: 0 <= j < |edited| && j != k ==> r[j] == edited[j])
            && r[k] == SetField(edited[k], Tasks(RemoveTasks(edited[k].child.tasks, taskId)))
            && (forall t :: t in r[k].child.tasks <==> t in edited[k].child.tasks && t.id != taskId)
  {
    FindUnique(edited, k);
    var kept := RemoveTasks(edited[k].child.tasks, taskId);
    var r := UpdateChildProperty(edited, edited[k].child.id, Tasks(kept));
    assert RemoveChildTask(edited, edited[k].child.id, taskId) == r;
    assert r[k] == SetField(edited[k], Tasks(kept));
    TasksFieldSet(edited[k], kept);
  }

  // -------------------------------------------------------------- the manager

  datatype Manager = Manager(editedChildren: seq<EditedChild>, editingChildId: Option<string>, newChildName: string)

  /** `addNewChild`: a blank name changes nothing; otherwise the child is appended, the input cleared, the child selected. */
  function AddedNewChild(m: Manager, id: string): (r: Manager)
    ensures AllWhitespace(m.newChildName) ==> r == m
    ensures !AllWhitespace(m.newChildName) ==>
              r == Manager(m.editedChildren + [NewChild(id, m.newChildName)], Some(id), "")
  {
    TrimEmptyIff(m.newChildName);
    if Trim(m.newChildName) == "" then m
    else Manager(m.editedChildren + [NewChild(id, m.newChildName)], Some(id), "")
  }

  /** `removeChild`: the selection is cleared exactly when it was the removed child. */
  function RemovedChild(m: Manager, id: string): (r: Manager)
    ensures r.editedChildren == RemoveChild(m.editedChildren, id) && r.newChildName == m.newChildName
    ensures r.editingChildId == if m.editingChildId == Some(id) then None else m.editingChildId
  {
    m.(editedChildren := RemoveChild(m.editedChildren, id),
       editingChildId := if m.editingChildId == Some(id) then None else m.editingChildId)
  }

  /** Adding a child and saving gives the old list with one new child at the end. */
  lemma AddThenSave(m: Manager, id: string)
    requires !AllWhitespace(m.newChildName)
    ensures Strip(AddedNewChild(m, id).editedChildren) == Strip(m.editedChildren) + [NewChild(id, m.newChildName).child]
  {
  }

  class ChildManagerState {
    var editedChildren: seq<EditedChild>
    var editingChildId: Option<string>
    var newChildName: string

    function State(): Manager
      reads this
    {
      Manager(editedChildren, editingChildId, newChildName)
    }

    /** The working copy of the given children, the first one selected. */
    constructor (children: seq<Child>)
      ensures State() == Manager(Initial(children), if |children| > 0 then Some(children[0].id) else None, "")
    {
      editedChildren := Initial(children);
      editingChildId := if |children| > 0 then Some(children[0].id) else None;
      newChildName := "";
    }

    method SetNewChildName(name: string)
      modifies this
      ensures State() == old(State()).(newChildName := name)
    {
      newChildName := name;
    }

    method SelectChild(id: string)
      modifies this
      ensures State() == old(State()).(editingChildId := Some(id))
    {
      editingChildId := Some(id);
    }

    /** `addNewChild`, with `id` standing for the timestamp-based id. */
    method AddNewChild(id: string)
      modifies this
      ensures State() == AddedNewChild(old(State()), id)
    {
      if Trim(newChildName) == "" {
        return;
      }
      var newChild := NewChild(id, newChildName);
      editedChildren := editedChildren + [newChild];
      newChildName := "";
      editingChildId := Some(id);
    }

    method RemoveChildById(id: string)
      modifies this
      ensures State() == RemovedChild(old(State()), id)
    {
      editedChildren := RemoveChild(editedChildren, id);
      if editingChildId == Some(id) {
        editingChildId := None;
      }
    }

    method UpdateProperty(id: string, f: ChildField)
      modifies this
      ensures State() == old(State()).(editedChildren := UpdateChildProperty(old(editedChildren), id, f))
    {
      editedChildren := UpdateChildProperty(editedChildren, id, f);
    }

    method UpdateTaskProperty(childId: string, taskId: string, f: TaskField)
      modifies this
      ensures State() == old(State()).(editedChildren := UpdateChildTaskProperty(old(editedChildren), childId, taskId, f))
    {
      editedChildren := UpdateChildTaskProperty(editedChildren, childId, taskId, f);
    }

    /** `addChildTask`, with `taskId` standing for the generated id: three field updates in a row. */
    method AddTask(childId: string, preset: Option<Preset>, taskId: string)
      modifies this
      ensures State() == old(State()).(editedChildren := AddChildTask(old(editedChildren), childId, preset, taskId))
    {
      var current := FindChild(editedChildren, childId);
      if current.None? {
        return;
      }
      var title := ChosenTitle(preset, current.value.tempNewTaskTitle);
      var emoji := ChosenEmoji(preset, current.value.tempNewTaskEmoji);
      if title == "" {
        return;
      }
      var newTask := NewTask(taskId, title, emoji);
      AddChildTaskSteps(editedChildren, childId, current.value.child.tasks, newTask);
      editedChildren := UpdateChildProperty(editedChildren, childId, Tasks(current.value.child.tasks + [newTask]));
      editedChildren := UpdateChildProperty(editedChildren, childId, TempTitle(""));
      editedChildren := UpdateChildProperty(editedChildren, childId, TempEmoji(DEFAULT_TASK_EMOJI));
    }

    method RemoveTask(childId: string, taskId: string)
      modifies this
      ensures State() == old(State()).(editedChildren := RemoveChildTask(old(editedChildren), childId, taskId))
    {
      var current := FindChild(editedChildren, childId);
      if current.None? {
        return;
      }
      editedChildren := UpdateChildProperty(editedChildren, childId, Tasks(RemoveTasks(current.value.child.tasks, taskId)));
    }

    /** `handleSave`: the list handed to `onSave`. */
    method HandleSave() returns (children: seq<Child>)
      ensures children == Strip(editedChildren)
    {
      children := Strip(editedChildren);
    }
  }
}
