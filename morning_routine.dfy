/**
 * The routine screen: which child is shown, navigation between children by
 * buttons, dots and horizontal swipes, the two editors' save paths, and the
 * screen's own load of the roster with its write-back of the defaults.
 */
module MorningRoutine {
  import opened Wrappers
  import opened Roster
  import opened LocalStorage
  import PeopleStorage

  /** The screen's built-in roster (its own copy, with emoji avatars and task icons). */
  function RoutineDefaults(): (r: seq<Child>)
    ensures |r| == 2 && r[0].id == "maya" && r[1].id == "alex"
    ensures forall i, j :: 0 <= i < |r| && 0 <= j < |r[i].tasks| ==> !r[i].tasks[j].done
  {
    [Child("maya", "Maya", "\U{1F467}", "07:00", "07:45",
           [Task("brush", "Brush teeth", "\U{1F9B7}", false),
            Task("dress", "Get dressed", "\U{1F455}", false),
            Task("breakfast", "Eat breakfast", "\U{1F963}", false),
            Task("backpack", "Pack backpack", "\U{1F392}", false)]),
     Child("alex", "Alex", "\U{1F466}", "07:15", "08:00",
           [Task("wash", "Wash face", "\U{1F9FC}", false),
            Task("dress2", "Get dressed", "\U{1F455}", false),
            Task("breakfast2", "Eat breakfast", "\U{1F95E}", false),
            Task("shoes", "Put on shoes", "\U{1F45F}", false)])]
  }

  /**
   * The screen's `loadChildren` on the outcome of reading the roster key: the
   * list it shows, and whether it writes that list back. A stored non-empty
   * list is shown as it is and not written; in every other case, errors
   * included, the defaults are shown and written back.
   */
  function LoadedRoutine(read: Read): (r: (seq<Child>, bool))
    ensures |r.0| > 0
    ensures r.1 <==> StoredChildren(read).None?
    ensures StoredChildren(read).Some? ==> r.0 == StoredChildren(read).value
    ensures StoredChildren(read).None? ==> r.0 == RoutineDefaults()
  {
    match StoredChildren(read)
    case Some(children) => (children, false)
    case None => (RoutineDefaults(), true)
  }

  /** After the write-back the next load finds the list it wrote, shows it, and writes nothing. */
  lemma LoadSettles(read: Read, lastUpdated: string)
    ensures var (shown, _) := LoadedRoutine(read);
            LoadedRoutine(Ok(Some(ChildrenRecord(shown, lastUpdated)))) == (shown, false)
  {
    var (shown, _) := LoadedRoutine(read);
    StoredChildrenOfRecord(shown, lastUpdated);
  }

  // -------------------------------------------------------------- navigation

  /** `nextChild`: one child on, wrapping from the last to the first. */
  function NextIndex(i: nat, n: nat): (r: nat)
    requires n > 0
    ensures r < n
    ensures i < n - 1 ==> r == i + 1
    ensures i == n - 1 ==> r == 0
  {
    (i + 1) % n
  }

  /** `prevChild`: one child back, wrapping from the first to the last. */
  function PrevIndex(i: nat, n: nat): (r: nat)
    requires n > 0
    ensures r < n
    ensures 0 < i < n ==> r == i - 1
    ensures i == 0 ==> r == n - 1
  {
    (i - 1 + n) % n
  }

  /** Next then previous, or previous then next, comes back to the same child. */
  lemma NextPrevInverse(i: nat, n: nat)
    requires i < n
    ensures PrevIndex(NextIndex(i, n), n) == i
    ensures NextIndex(PrevIndex(i, n), n) == i
  {
  }

  /**
   * The index after the children list is replaced: a selection past the new
   * end moves to the last child, or to 0 for an empty list; any other is kept.
   */
  function ClampIndex(index: nat, len: nat): (r: nat)
    ensures index < len ==> r == index
    ensures index >= len ==> r == if len == 0 then 0 else len - 1
    ensures r < len || (len == 0 && r == 0)
  {
    if index >= len then if len - 1 > 0 then len - 1 else 0 else index
  }

  /** `handleChildUpdate`'s list: every child with the updated child's id is replaced by it. */
  function ReplaceChild(children: seq<Child>, updated: Child): (r: seq<Child>)
    ensures |r| == |children|
    ensures forall i :: 0 <= i < |children| ==> r[i] == if children[i].id == updated.id then updated else children[i]
  {
    MapWhere(children, (c: Child) => c.id == updated.id, (c: Child) => updated)
  }

  /** Replacing a child with itself as it already is in the list changes nothing. */
  lemma ReplaceChildUnchanged(children: seq<Child>, k: nat)
    requires k < |children|
    requires forall j :: 0 <= j < |children| && j != k ==> children[j].id != children[k].id
    ensures ReplaceChild(children, children[k]) == children
  {
  }

  // ------------------------------------------------------------------ swipes

  const MIN_SWIPE_DISTANCE := 50

  datatype SwipeMove = NoMove | ToNext | ToPrev

  /** A touch coordinate that counts for the `!touchStart || !touchEnd` test: present and not 0. */
  predicate Truthy(x: Option<int>) {
    x.Some? && x.value != 0
  }

  /**
   * `onTouchEnd`: nothing while an editor is open, without both a start and an
   * end coordinate, or with one child at most; otherwise a move of more than
   * 50 pixels to the left goes to the next child and to the right to the
   * previous one.
   */
  function Swipe(modalOpen: bool, touchStart: Option<int>, touchEnd: Option<int>, n: nat): (r: SwipeMove)
    ensures modalOpen || n <= 1 ==> r == NoMove
    ensures r == ToNext ==> Truthy(touchStart) && Truthy(touchEnd) && touchStart.value - touchEnd.value > MIN_SWIPE_DISTANCE
    ensures r == ToPrev ==> Truthy(touchStart) && Truthy(touchEnd) && touchEnd.value - touchStart.value > MIN_SWIPE_DISTANCE
  {
    if modalOpen || !Truthy(touchStart) || !Truthy(touchEnd) then NoMove
    else
      var distance := touchStart.value - touchEnd.value;
      if distance > MIN_SWIPE_DISTANCE && n > 1 then ToNext
      else if distance < -MIN_SWIPE_DISTANCE && n > 1 then ToPrev
      else NoMove
  }

  /** When a swipe moves, and which way. */
  lemma SwipeIff(modalOpen: bool, touchStart: Option<int>, touchEnd: Option<int>, n: nat)
    ensures var ok := !modalOpen && Truthy(touchStart) && Truthy(touchEnd) && n > 1;
            (Swipe(modalOpen, touchStart, touchEnd, n) == ToNext <==> ok && touchStart.value - touchEnd.value > 50)
            && (Swipe(modalOpen, touchStart, touchEnd, n) == ToPrev <==> ok && touchEnd.value - touchStart.value > 50)
  {
  }

  /** The same gesture the other way round moves the other way. */
  lemma SwipeMirror(modalOpen: bool, x: int, y: int, n: nat)
    ensures Swipe(modalOpen, Some(x), Some(y), n) == ToNext <==> Swipe(modalOpen, Some(y), Some(x), n) == ToPrev
  {
  }

  /** A touch at x = 0 reads as no touch at all, so such a swipe never moves. */
  lemma ZeroCoordinateCancels(modalOpen: bool, x: int, n: nat)
    ensures Swipe(modalOpen, Some(0), Some(x), n) == NoMove
    ensures Swipe(modalOpen, Some(x), Some(0), n) == NoMove
  {
  }

  // ------------------------------------------------------------------- state

  datatype Screen = Screen(
    children: seq<Child>,
    currentChildIndex: nat,
    editMode: Option<Child>,
    showChildManager: bool,
    swipeDirection: int,
    touchStart: Option<int>,
    touchEnd: Option<int>)

  /** The selection is a child of the list, or 0 while the list is empty. */
  predicate Valid(s: Screen) {
    s.currentChildIndex < |s.children| || s.currentChildIndex == 0
  }

  predicate ModalOpen(s: Screen) {
    s.editMode.Some? || s.showChildManager
  }

  /** `nextChild`: the selection moves one place on, wrapping to the first child, and the slide goes forward. */
  function Next(s: Screen): (r: Screen)
    requires |s.children| > 0
    ensures r.currentChildIndex < |s.children| && r.swipeDirection == 1
    ensures r.(currentChildIndex := s.currentChildIndex, swipeDirection := s.swipeDirection) == s
  {
    s.(swipeDirection := 1, currentChildIndex := NextIndex(s.currentChildIndex, |s.children|))
  }

  /** `prevChild`: the selection moves one place back, wrapping to the last child, and the slide goes backward. */
  function Prev(s: Screen): (r: Screen)
    requires |s.children| > 0
    ensures r.currentChildIndex < |s.children| && r.swipeDirection == -1
    ensures r.(currentChildIndex := s.currentChildIndex, swipeDirection := s.swipeDirection) == s
  {
    s.(swipeDirection := -1, currentChildIndex := PrevIndex(s.currentChildIndex, |s.children|))
  }

  /** `onTouchStart`: ignored behind an open editor; otherwise a fresh gesture starts at `x`. */
  function TouchStarted(s: Screen, x: int): (r: Screen)
    ensures ModalOpen(s) ==> r == s
    ensures !ModalOpen(s) ==> r.touchStart == Some(x) && r.touchEnd.None?
    ensures r.(touchStart := s.touchStart, touchEnd := s.touchEnd) == s
  {
    if ModalOpen(s) then s else s.(touchEnd := None, touchStart := Some(x))
  }

  /** `onTouchMove`: ignored behind an open editor; otherwise the gesture now ends at `x`. */
  function TouchMoved(s: Screen, x: int): (r: Screen)
    ensures ModalOpen(s) ==> r == s
    ensures !ModalOpen(s) ==> r.touchEnd == Some(x)
    ensures r.(touchEnd := s.touchEnd) == s
  {
    if ModalOpen(s) then s else s.(touchEnd := Some(x))
  }

  function TouchEnded(s: Screen): (r: Screen)
    ensures r.children == s.children && r.editMode == s.editMode && r.showChildManager == s.showChildManager
    ensures r.touchStart == s.touchStart && r.touchEnd == s.touchEnd
    ensures r == s || (|s.children| > 1 && !ModalOpen(s) && (r == Next(s) || r == Prev(s)))
  {
    match Swipe(ModalOpen(s), s.touchStart, s.touchEnd, |s.children|)
    case ToNext => Next(s)
    case ToPrev => Prev(s)
    case NoMove => s
  }

  /** `EditMode`'s save: the edited child replaces its entry and the editor closes. */
  function EditSaved(s: Screen, updated: Child): (r: Screen)
    ensures r.editMode.None? && r.currentChildIndex == s.currentChildIndex && |r.children| == |s.children|
    ensures forall i :: 0 <= i < |s.children| ==>
              r.children[i] == if s.children[i].id == updated.id then updated else s.children[i]
  {
    s.(children := ReplaceChild(s.children, updated), editMode := None)
  }

  /** `ChildManager`'s save: the new list replaces the old, the selection is clamped, the manager closes. */
  function ManagerSaved(s: Screen, updated: seq<Child>): (r: Screen)
    ensures r.children == updated && !r.showChildManager && r.editMode == s.editMode
    ensures r.currentChildIndex < |updated| || (updated == [] && r.currentChildIndex == 0)
    ensures s.currentChildIndex < |updated| ==> r.currentChildIndex == s.currentChildIndex
  {
    s.(children := updated, currentChildIndex := ClampIndex(s.currentChildIndex, |updated|), showChildManager := false)
  }

  /** Every handler keeps the selection on a child of the list. */
  lemma ValidPreserved(s: Screen, x: int, updated: Child, list: seq<Child>, dot: nat)
    requires Valid(s)
    ensures |s.children| > 0 ==> Valid(Next(s)) && Valid(Prev(s))
    ensures Valid(TouchStarted(s, x)) && Valid(TouchMoved(s, x)) && Valid(TouchEnded(s))
    ensures Valid(EditSaved(s, updated)) && Valid(ManagerSaved(s, list))
    ensures dot < |s.children| ==> Valid(s.(currentChildIndex := dot))
  {
  }

  /** While an editor is open the touch handlers change nothing. */
  lemma TouchIgnoredWhileModal(s: Screen, x: int)
    requires ModalOpen(s)
    ensures TouchStarted(s, x) == s && TouchMoved(s, x) == s && TouchEnded(s) == s
  {
  }

  /** A left swipe then a right swipe of the same length comes back to the same child. */
  lemma SwipeThereAndBack(s: Screen, x: int, y: int)
    requires Valid(s) && !ModalOpen(s) && |s.children| > 1
    requires x != 0 && y != 0 && x - y > 50
    ensures var there := TouchEnded(TouchMoved(TouchStarted(s, x), y));
            there.currentChildIndex == NextIndex(s.currentChildIndex, |s.children|)
            && TouchEnded(TouchMoved(TouchStarted(there, y), x)).currentChildIndex == s.currentChildIndex
  {
    NextPrevInverse(s.currentChildIndex, |s.children|);
  }

  class Routine {
    var children: seq<Child>
    var currentChildIndex: nat
    var editMode: Option<Child>
    var showChildManager: bool
    var swipeDirection: int
    var touchStart: Option<int>
    var touchEnd: Option<int>
    const store: Storage

    function State(): Screen
      reads this
    {
      Screen(children, currentChildIndex, editMode, showChildManager, swipeDirection, touchStart, touchEnd)
    }

    /** The first render: no children yet, nothing open. */
    constructor (store: Storage)
      ensures State() == Screen([], 0, None, false, 0, None, None)
      ensures this.store == store
    {
      children := [];
      currentChildIndex := 0;
      editMode := None;
      showChildManager := false;
      swipeDirection := 0;
      touchStart := None;
      touchEnd := None;
      this.store := store;
    }

    /** The mount effect's `loadChildren`: show the loaded list and write back the defaults when they were used. */
    method LoadChildren(lastUpdated: string)
      modifies this, store
      ensures var (shown, saveBack) := LoadedRoutine(old(store.Read(PeopleStorage.STORAGE_KEY)));
              State() == old(State()).(children := shown)
              && store.items == if saveBack && old(store.writable)
                                then old(store.items)[PeopleStorage.STORAGE_KEY := ChildrenRecord(shown, lastUpdated)]
                                else old(store.items)
      ensures store.readable == old(store.readable) && store.writable == old(store.writable)
    {
      var raw := store.GetItem(PeopleStorage.STORAGE_KEY);
      var stored := StoredChildren(raw);
      if stored.Some? {
        children := stored.value;
      } else {
        children := RoutineDefaults();
        PeopleStorage.SaveChildren(store, children, lastUpdated);
      }
    }

    method NextChild()
      requires |children| > 0
      modifies this
      ensures State() == Next(old(State()))
    {
      swipeDirection := 1;
      currentChildIndex := (currentChildIndex + 1) % |children|;
    }

    method PrevChild()
      requires |children| > 0
      modifies this
      ensures State() == Prev(old(State()))
    {
      swipeDirection := -1;
      currentChildIndex := (currentChildIndex - 1 + |children|) % |children|;
    }

    /** A click on the dot of child `index`. */
    method SelectChild(index: nat)
      requires index < |children|
      modifies this
      ensures State() == old(State()).(currentChildIndex := index)
    {
      currentChildIndex := index;
    }

    method OnTouchStart(x: int)
      modifies this
      ensures State() == TouchStarted(old(State()), x)
    {
      if editMode.Some? || showChildManager {
        return;
      }
      touchEnd := None;
      touchStart := Some(x);
    }

    method OnTouchMove(x: int)
      modifies this
      ensures State() == TouchMoved(old(State()), x)
    {
      if editMode.Some? || showChildManager {
        return;
      }
      touchEnd := Some(x);
    }

    method OnTouchEnd()
      modifies this
      ensures State() == TouchEnded(old(State()))
    {
      if editMode.Some? || showChildManager {
        return;
      }
      if !Truthy(touchStart) || !Truthy(touchEnd) {
        return;
      }
      var distance := touchStart.value - touchEnd.value;
      if distance > MIN_SWIPE_DISTANCE && |children| > 1 {
        NextChild();
      }
      if distance < -MIN_SWIPE_DISTANCE && |children| > 1 {
        PrevChild();
      }
    }

    /** The child screen's edit button opens the editor on the shown child. */
    method OpenEditMode()
      requires currentChildIndex < |children|
      modifies this
      ensures State() == old(State()).(editMode := Some(old(children[currentChildIndex])))
    {
      editMode := Some(children[currentChildIndex]);
    }

    method OpenChildManager()
      modifies this
      ensures State() == old(State()).(showChildManager := true)
    {
      showChildManager := true;
    }

    /** Closing either editor without saving. */
    method CloseEditors(edit: bool)
      modifies this
      ensures State() == if edit then old(State()).(editMode := None) else old(State()).(showChildManager := false)
    {
      if edit {
        editMode := None;
      } else {
        showChildManager := false;
      }
    }

    /** `handleChildUpdate`: replace the child by id, then save exactly the new list. */
    method HandleChildUpdate(updated: Child, lastUpdated: string)
      modifies this, store
      ensures State() == old(State()).(children := ReplaceChild(old(children), updated))
      ensures store.items == if old(store.writable)
                             then old(store.items)[PeopleStorage.STORAGE_KEY := ChildrenRecord(children, lastUpdated)]
                             else old(store.items)
      ensures store.readable == old(store.readable) && store.writable == old(store.writable)
    {
      var updatedChildren := ReplaceChild(children, updated);
      children := updatedChildren;
      PeopleStorage.SaveChildren(store, updatedChildren, lastUpdated);
    }

    /** `handleChildrenUpdate`: take the new list, save it, and clamp the selection into it. */
    method HandleChildrenUpdate(updated: seq<Child>, lastUpdated: string)
      modifies this, store
      ensures State() == old(State()).(children := updated, currentChildIndex := ClampIndex(old(currentChildIndex), |updated|))
      ensures store.items == if old(store.writable)
                             then old(store.items)[PeopleStorage.STORAGE_KEY := ChildrenRecord(updated, lastUpdated)]
                             else old(store.items)
      ensures store.readable == old(store.readable) && store.writable == old(store.writable)
    {
      children := updated;
      PeopleStorage.SaveChildren(store, updated, lastUpdated);
      if currentChildIndex >= |updated| {
        currentChildIndex := if |updated| - 1 > 0 then |updated| - 1 else 0;
      }
    }

    method OnEditSave(updated: Child, lastUpdated: string)
      modifies this, store
      ensures State() == EditSaved(old(State()), updated)
      ensures store.items == if old(store.writable)
                             then old(store.items)[PeopleStorage.STORAGE_KEY := ChildrenRecord(children, lastUpdated)]
                             else old(store.items)
      ensures store.readable == old(store.readable) && store.writable == old(store.writable)
    {
      HandleChildUpdate(updated, lastUpdated);
      editMode := None;
    }

    method OnManagerSave(updated: seq<Child>, lastUpdated: string)
      modifies this, store
      ensures State() == ManagerSaved(old(State()), updated)
      ensures store.items == if old(store.writable)
                             then old(store.items)[PeopleStorage.STORAGE_KEY := ChildrenRecord(updated, lastUpdated)]
                             else old(store.items)
      ensures store.readable == old(store.readable) && store.writable == old(store.writable)
    {
      HandleChildrenUpdate(updated, lastUpdated);
      showChildManager := false;
    }
  }
}
