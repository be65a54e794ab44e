/**
 * The language setting: the supported languages, the lookup of a language's
 * display information, and the validated load and the never-failing save of
 * the `{ language, lastUpdated }` record under `morningRoutine.language.v1`.
 */
module LanguageStorage {
  import opened Wrappers
  import opened LocalStorage

  const LANGUAGE_STORAGE_KEY := "morningRoutine.language.v1"
  const DEFAULT_LANGUAGE := "en"

  datatype Language = Language(code: string, name: string, flag: string)

  const SUPPORTED_LANGUAGES: seq<Language> :=
    [Language("en", "English", "\U{1F1FA}\U{1F1F8}"),
     Language("he", "עברית", "\U{1F1EE}\U{1F1F1}")]

  /** `SUPPORTED_LANGUAGES.some(lang => lang.code === code)`. */
  predicate IsSupported(code: string) {
    exists i | 0 <= i < |SUPPORTED_LANGUAGES| :: SUPPORTED_LANGUAGES[i].code == code
  }

  /** `find` over a list of languages: the first entry with the code. */
  function Find(langs: seq<Language>, code: string): (r: Option<Language>)
    ensures r.None? <==> forall i :: 0 <= i < |langs| ==> langs[i].code != code
    ensures r.Some? ==> r.value.code == code
    ensures r.Some? ==> exists i :: 0 <= i < |langs| && langs[i] == r.value && (forall j :: 0 <= j < i ==> langs[j].code != code)
  {
    if langs == [] then None
    else if langs[0].code == code then Some(langs[0])
    else
      var rest := Find(langs[1..], code);
      if rest.Some? then
        var i :| 0 <= i < |langs[1..]| && langs[1..][i] == rest.value && forall j :: 0 <= j < i ==> langs[1..][j].code != code;
        assert langs[i + 1] == rest.value;
        rest
      else rest
  }

  /** `getLanguageInfo`: the supported entry with the code, else the first (English). */
  function GetLanguageInfo(code: string): (r: Language)
    ensures r in SUPPORTED_LANGUAGES
    ensures IsSupported(code) ==> r.code == code
    ensures !IsSupported(code) ==> r == SUPPORTED_LANGUAGES[0]
  {
    Find(SUPPORTED_LANGUAGES, code).GetOr(SUPPORTED_LANGUAGES[0])
  }

  /** Exactly English and Hebrew are supported, and English is the fallback entry. */
  lemma SupportedCodes(code: string)
    ensures IsSupported(code) <==> code == "en" || code == "he"
    ensures SUPPORTED_LANGUAGES[0].code == DEFAULT_LANGUAGE && IsSupported(DEFAULT_LANGUAGE)
  {
    assert SUPPORTED_LANGUAGES[0].code == "en" && SUPPORTED_LANGUAGES[1].code == "he";
  }

  /** `JSON.stringify({ language, lastUpdated })`. */
  function LanguageRecord(language: string, lastUpdated: string): Stored {
    Encoded(JObject(map["language" := JString(language), "lastUpdated" := JString(lastUpdated)]))
  }

  /**
   * `loadLanguageSettings` on the outcome of reading the key: a non-empty
   * string at `.language` when it is supported, the default in every other
   * case (no entry, an empty one, unparsable text, a `null` record, a
   * missing or non-string or empty field, an unsupported code, a read error).
   */
  function LoadedLanguage(read: Read): (r: string)
    ensures IsSupported(r)
    ensures r != DEFAULT_LANGUAGE ==>
              read.Ok? && read.value.Some? && read.value.value.Encoded?
              && Member(read.value.value.value, "language") == Ok(Some(JString(r)))
  {
    SupportedCodes(DEFAULT_LANGUAGE);
    match read
    case Ok(Some(Encoded(parsed))) =>
      (match Member(parsed, "language")
       case Ok(Some(JString(language))) =>
         if language != "" && IsSupported(language) then language else DEFAULT_LANGUAGE
       case _ => DEFAULT_LANGUAGE)
    case _ => DEFAULT_LANGUAGE
  }

  /** Every way the stored setting can be missing or broken gives the default. */
  lemma FallbacksGiveDefault(read: Read)
    requires read.Err? || read == Ok(None) || read == Ok(Some(Blank)) || read == Ok(Some(Malformed))
             || read == Ok(Some(Encoded(JNull)))
    ensures LoadedLanguage(read) == DEFAULT_LANGUAGE
  {
  }

  /** A record whose `language` is missing or not a non-empty string gives the default. */
  lemma NoStringGivesDefault(fields: map<string, Json>)
    requires "language" in fields ==> !fields["language"].JString? || fields["language"].s == ""
    ensures LoadedLanguage(Ok(Some(Encoded(JObject(fields))))) == DEFAULT_LANGUAGE
  {
  }

  /** Saving a code and loading it back gives the code when it is supported and the default otherwise. */
  lemma SaveThenLoadLanguage(code: string, lastUpdated: string)
    ensures LoadedLanguage(Ok(Some(LanguageRecord(code, lastUpdated)))) ==
              if IsSupported(code) then code else DEFAULT_LANGUAGE
  {
    SupportedCodes(code);
  }

  method LoadLanguageSettings(store: Storage) returns (language: string)
    ensures language == LoadedLanguage(store.Read(LANGUAGE_STORAGE_KEY))
    ensures IsSupported(language)
  {
    var raw := store.GetItem(LANGUAGE_STORAGE_KEY);
    language := DEFAULT_LANGUAGE;
    if raw.Ok? && raw.value.Some? && raw.value.value.Encoded? {
      var field := Member(raw.value.value.value, "language");
      if field.Ok? && field.value.Some? && field.value.value.JString? {
        var stored := field.value.value.s;
        if stored != "" && IsSupported(stored) {
          language := stored;
        }
      }
    }
  }

  /** `saveLanguageSettings`: writes the record under the language key; a failing write is swallowed. */
  method SaveLanguageSettings(store: Storage, language: string, lastUpdated: string)
    modifies store
    ensures store.items == if old(store.writable) then old(store.items)[LANGUAGE_STORAGE_KEY := LanguageRecord(language, lastUpdated)]
                           else old(store.items)
    ensures store.readable == old(store.readable) && store.writable == old(store.writable)
  {
    var _ := store.SetItem(LANGUAGE_STORAGE_KEY, LanguageRecord(language, lastUpdated));
  }

  /** A save of a supported code to a working store followed by a load gives the code back. */
  method SaveAndReloadLanguage(store: Storage, language: string, lastUpdated: string) returns (loaded: string)
    requires store.readable && store.writable && IsSupported(language)
    modifies store
    ensures loaded == language
  {
    SaveLanguageSettings(store, language, lastUpdated);
    loaded := LoadLanguageSettings(store);
    SaveThenLoadLanguage(language, lastUpdated);
  }
}
