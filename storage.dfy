/**
 * Browser `localStorage` with already-decoded values: each key holds either
 * an empty string, text that `JSON.parse` rejects, or the JSON text of a
 * value. Reading can throw (storage unavailable) and so can writing (quota
 * exceeded); both failures are flags of the store.
 *
 * Also the one record format the app reads back, `{ children, lastUpdated }`
 * under the roster key, and its guarded decoding.
 */
module LocalStorage {
  import opened Wrappers
  import opened Roster

  /**
   * A value `JSON.parse` can return, as far as the app looks into it. An
   * array is read as a list of children, since the app casts a stored array
   * to `Child[]` without looking at its elements.
   */
  datatype Json =
    | JNull
    | JBool(b: bool)
    | JNumber(n: int)
    | JString(s: string)
    | JArray(children: seq<Child>)
    | JObject(fields: map<string, Json>)

  /** The text stored under a key: empty, not JSON at all, or the JSON text of a value. */
  datatype Stored = Blank | Malformed | Encoded(value: Json)

  /** What `getItem` gives: the stored text or `null` (`None`), or an exception (`Err`). */
  type Read = Result<Option<Stored>, string>

  /**
   * `value.field` on a parsed value: `undefined` (`None`) for a missing field
   * and on anything that is not an object; on `null` it throws.
   */
  function Member(value: Json, field: string): (r: Result<Option<Json>, string>)
    ensures r.Err? <==> value == JNull
    ensures value.JObject? ==> r == Ok(if field in value.fields then Some(value.fields[field]) else None)
  {
    match value
    case JNull => Err("TypeError")
    case JObject(fields) => Ok(if field in fields then Some(fields[field]) else None)
    case _ => Ok(None)
  }

  class Storage {
    var items: map<string, Stored>
    /** `getItem` works (otherwise it throws). */
    var readable: bool
    /** `setItem` works (otherwise it throws). */
    var writable: bool

    constructor (items: map<string, Stored>, readable: bool, writable: bool)
      ensures this.items == items && this.readable == readable && this.writable == writable
    {
      this.items := items;
      this.readable := readable;
      this.writable := writable;
    }

    /** The outcome of `getItem(key)` in the current state. */
    function Read(key: string): Read
      reads this
    {
      if !readable then Err("SecurityError")
      else if key in items then Ok(Some(items[key]))
      else Ok(None)
    }

    method GetItem(key: string) returns (r: Read)
      ensures r == Read(key)
    {
      if !readable {
        return Err("SecurityError");
      }
      r := if key in items then Ok(Some(items[key])) else Ok(None);
    }

    /** `setItem(key, value)`: stores the value, or throws and stores nothing. */
    method SetItem(key: string, value: Stored) returns (r: Result<(), string>)
      modifies this
      ensures r.Ok? <==> old(writable)
      ensures items == if old(writable) then old(items)[key := value] else old(items)
      ensures readable == old(readable) && writable == old(writable)
    {
      if !writable {
        return Err("QuotaExceededError");
      }
      items := items[key := value];
      r := Ok(());
    }
  }

  // --------------------------------------------------- the children record

  /** `JSON.stringify({ children, lastUpdated })`. */
  function ChildrenRecord(children: seq<Child>, lastUpdated: string): Stored {
    Encoded(JObject(map["children" := JArray(children), "lastUpdated" := JString(lastUpdated)]))
  }

  /**
   * The list a read yields when everything checks out: the stored text is
   * non-empty and parses, reading `.children` does not throw, and it is a
   * non-empty array. `None` covers every other case, errors included.
   */
  function StoredChildren(read: Read): (r: Option<seq<Child>>)
    ensures r.Some? ==> |r.value| > 0
    ensures r.Some? <==> read.Ok? && read.value.Some? && read.value.value.Encoded?
                         && Member(read.value.value.value, "children").Ok?
                         && Member(read.value.value.value, "children").value.Some?
                         && Member(read.value.value.value, "children").value.value.JArray?
                         && |Member(read.value.value.value, "children").value.value.children| > 0
  {
    match read
    case Err(_) => None
    case Ok(None) => None
    case Ok(Some(Blank)) => None
    case Ok(Some(Malformed)) => None
    case Ok(Some(Encoded(parsed))) =>
      match Member(parsed, "children")
      case Ok(Some(JArray(children))) => if |children| > 0 then Some(children) else None
      case _ => None
  }

  /** A non-empty list written as a record is exactly what reading the record yields; an empty one yields nothing. */
  lemma StoredChildrenOfRecord(children: seq<Child>, lastUpdated: string)
    ensures StoredChildren(Ok(Some(ChildrenRecord(children, lastUpdated)))) ==
              if |children| > 0 then Some(children) else None
  {
  }
}
