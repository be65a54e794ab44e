/**
 * The roster service: the built-in roster and the guarded load and the
 * never-failing save of the children record under `morningRoutine.v1`.
 */
module PeopleStorage {
  import opened Wrappers
  import opened Roster
  import opened LocalStorage

  const STORAGE_KEY := "morningRoutine.v1"

  function MayaTasks(): seq<Task> {
    [Task("brush", "Brush teeth", "toothbrush.png", false),
     Task("dress", "Get dressed", "shirt.png", false),
     Task("breakfast", "Eat breakfast", "sandwich.png", false),
     Task("backpack", "Pack backpack", "backpack.png", false)]
  }

  function AlexTasks(): seq<Task> {
    [Task("wash", "Wash face", "\U{1F9FC}", false),
     Task("dress2", "Get dressed", "shirt.png", false),
     Task("breakfast2", "Eat breakfast", "sandwich.png", false),
     Task("shoes", "Put on shoes", "shoe.png", false)]
  }

  /** `getDefaultChildren`: Maya and Alex, with every task undone. */
  function DefaultChildren(): (r: seq<Child>)
    ensures |r| == 2 && r[0].id == "maya" && r[1].id == "alex"
    ensures forall i, j :: 0 <= i < |r| && 0 <= j < |r[i].tasks| ==> !r[i].tasks[j].done
  {
    [Child("maya", "Maya", "cat.png", "07:00", "07:45", MayaTasks()),
     Child("alex", "Alex", "dog.png", "07:15", "08:00", AlexTasks())]
  }

  /** `loadChildren` on the outcome of reading the key: the stored list when it checks out, else the defaults. */
  function LoadedChildren(read: Read): (r: seq<Child>)
    ensures |r| > 0
  {
    match StoredChildren(read)
    case Some(children) => children
    case None => DefaultChildren()
  }

  /** What is loaded is the stored list exactly when the stored list checks out; the defaults otherwise. */
  lemma LoadedIff(read: Read)
    ensures StoredChildren(read).Some? ==> LoadedChildren(read) == StoredChildren(read).value
    ensures StoredChildren(read).None? ==> LoadedChildren(read) == DefaultChildren()
  {
  }

  /** A missing or empty entry, unparsable text, a `null` record, a read error: all give the defaults. */
  lemma FallbacksGiveDefaults(read: Read)
    requires read.Err? || read == Ok(None) || read == Ok(Some(Blank)) || read == Ok(Some(Malformed))
             || read == Ok(Some(Encoded(JNull)))
    ensures LoadedChildren(read) == DefaultChildren()
  {
  }

  /** Saving and then loading: a non-empty list comes back as saved, an empty one gives the defaults. */
  lemma SaveThenLoad(children: seq<Child>, lastUpdated: string)
    ensures LoadedChildren(Ok(Some(ChildrenRecord(children, lastUpdated)))) ==
              if |children| > 0 then children else DefaultChildren()
  {
    StoredChildrenOfRecord(children, lastUpdated);
  }

  method LoadChildren(store: Storage) returns (children: seq<Child>)
    ensures children == LoadedChildren(store.Read(STORAGE_KEY))
    ensures |children| > 0
  {
    var raw := store.GetItem(STORAGE_KEY);
    var stored := StoredChildren(raw);
    if stored.Some? {
      return stored.value;
    }
    children := DefaultChildren();
  }

  /** `saveChildren`: writes the record under the roster key; a failing write is swallowed. */
  method SaveChildren(store: Storage, children: seq<Child>, lastUpdated: string)
    modifies store
    ensures store.items == if old(store.writable) then old(store.items)[STORAGE_KEY := ChildrenRecord(children, lastUpdated)]
                           else old(store.items)
    ensures store.readable == old(store.readable) && store.writable == old(store.writable)
  {
    var _ := store.SetItem(STORAGE_KEY, ChildrenRecord(children, lastUpdated));
  }

  /** A save to a working store followed by a load gives back the saved non-empty list. */
  method SaveAndReload(store: Storage, children: seq<Child>, lastUpdated: string) returns (loaded: seq<Child>)
    requires store.readable && store.writable
    modifies store
    ensures loaded == if |children| > 0 then children else DefaultChildren()
  {
    SaveChildren(store, children, lastUpdated);
    loaded := LoadChildren(store);
    SaveThenLoad(children, lastUpdated);
  }
}
