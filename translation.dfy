/**
 * The translation function `t(key, params)`: the text of `key` in the current
 * language, else in English, else the key itself, with each parameter then
 * filled into the first `{name}` placeholder of its name, parameters taken in
 * entry order. The tables are an abstract map from language code to
 * key-to-text map that always has English.
 */
module Translation {
  import opened Wrappers
  import opened Strings

  type Table = map<string, string>

  /** A parameter: its name and its value already turned into text (`String(value)`). */
  type Param = (string, string)

  /** `tables[lang]?.[key]`, with a missing table or entry read as `undefined` (here `""`, as both are falsy). */
  function Entry(tables: map<string, Table>, lang: string, key: string): string {
    if lang in tables && key in tables[lang] then tables[lang][key] else ""
  }

  /** The lookup chain: the current language, then English, then the key; an empty text falls through. */
  function Lookup(tables: map<string, Table>, lang: string, key: string): (r: string)
    requires "en" in tables
    ensures r in {Entry(tables, lang, key), Entry(tables, "en", key), key}
    ensures Entry(tables, lang, key) != "" ==> r == Entry(tables, lang, key)
    ensures Entry(tables, lang, key) == "" && Entry(tables, "en", key) != "" ==> r == Entry(tables, "en", key)
    ensures Entry(tables, lang, key) == "" && Entry(tables, "en", key) == "" ==> r == key
    ensures key != "" ==> r != ""
  {
    if Entry(tables, lang, key) != "" then Entry(tables, lang, key)
    else if Entry(tables, "en", key) != "" then Entry(tables, "en", key)
    else key
  }

  /** `{name}`. */
  function Placeholder(name: string): string {
    "{" + name + "}"
  }

  /** The `forEach` over the parameters: each replaces the first placeholder of its name in the text so far. */
  function ApplyParams(text: string, params: seq<Param>): (r: string)
    ensures params != [] && !Contains(text, Placeholder(params[0].0)) ==> r == ApplyParams(text, params[1..])
    decreases |params|
  {
    if params == [] then text
    else ApplyParams(ReplaceFirst(text, Placeholder(params[0].0), params[0].1), params[1..])
  }

  /** No value uses the `$` replacement patterns of `String.prototype.replace`. */
  predicate PlainValues(params: seq<Param>) {
    forall i :: 0 <= i < |params| ==> '$' !in params[i].1
  }

  /** `t(key, params)`. */
  function Translate(tables: map<string, Table>, lang: string, key: string, params: Option<seq<Param>>): (r: string)
    requires "en" in tables
    ensures params.None? || params == Some([]) ==> r == Lookup(tables, lang, key)
  {
    var text := Lookup(tables, lang, key);
    if params.Some? then ApplyParams(text, params.value) else text
  }

  /** `t` as the hook runs it: the lookup, then a loop over the parameter entries. */
  method T(tables: map<string, Table>, lang: string, key: string, params: Option<seq<Param>>) returns (text: string)
    requires "en" in tables
    requires params.Some? ==> PlainValues(params.value)
    ensures text == Translate(tables, lang, key, params)
  {
    text := Entry(tables, lang, key);
    if text == "" {
      text := Entry(tables, "en", key);
    }
    if text == "" {
      text := key;
    }
    if params.Some? {
      var entries := params.value;
      var i := 0;
      while i < |entries|
        invariant 0 <= i <= |entries|
        invariant ApplyParams(text, entries[i..]) == ApplyParams(Lookup(tables, lang, key), entries)
      {
        var (param, value) := entries[i];
        assert entries[i..][1..] == entries[i + 1..];
        text := ReplaceFirst(text, Placeholder(param), value);
        i := i + 1;
      }
    }
  }

  // ------------------------------------------------------------- lookup facts

  /** An unknown language reads exactly like English. */
  lemma UnknownLanguageIsEnglish(tables: map<string, Table>, lang: string, key: string)
    requires "en" in tables && lang !in tables
    ensures Lookup(tables, lang, key) == Lookup(tables, "en", key)
  {
  }

  /** A key missing from both the current table and the English one comes back as itself. */
  lemma MissingKeyIsItself(tables: map<string, Table>, lang: string, key: string)
    requires "en" in tables
    requires lang in tables ==> key !in tables[lang]
    requires key !in tables["en"]
    ensures Lookup(tables, lang, key) == key
  {
  }

  // ------------------------------------------------------- substitution facts

  /** Parameters are applied in entry order: a later entry works on the text the earlier ones produced. */
  lemma {:induction false} ApplyParamsAppend(text: string, ps: seq<Param>, qs: seq<Param>)
    ensures ApplyParams(text, ps + qs) == ApplyParams(ApplyParams(text, ps), qs)
    decreases |ps|
  {
    if ps == [] {
      assert ps + qs == qs;
    } else {
      assert (ps + qs)[0] == ps[0] && (ps + qs)[1..] == ps[1..] + qs;
      ApplyParamsAppend(ReplaceFirst(text, Placeholder(ps[0].0), ps[0].1), ps[1..], qs);
    }
  }

  /** Of a placeholder of a brace-free name, only the last character is a `}`. */
  lemma CloseBraceAtEndOnly(name: string, k: int)
    requires NoBraces(name)
    ensures 0 <= k < |Placeholder(name)| - 1 ==> Placeholder(name)[k] != '}'
  {
    PlaceholderChars(name);
    if 0 < k < |Placeholder(name)| - 1 {
      assert Placeholder(name)[k] == name[k - 1];
    }
  }

  /**
   * A placeholder occurrence in `pre + P + post` that starts inside `pre`
   * ends inside `pre`: its closing `}` cannot fall on a character of `P`
   * before the last one.
   */
  lemma EarlierOccurrenceInPrefix(pre: string, name: string, post: string, j: int)
    requires NoBraces(name) && 0 <= j < |pre|
    ensures OccursAt(pre + Placeholder(name) + post, Placeholder(name), j) ==> OccursAt(pre, Placeholder(name), j)
  {
    var pat := Placeholder(name);
    var text := pre + pat + post;
    var e := j + |pat| - 1;
    PlaceholderChars(name);
    CloseBraceAtEndOnly(name, e - |pre|);
    assert OccursAt(text, pat, j) ==> text[e] == pat[|pat| - 1];
    assert |pre| <= e < |text| ==> text[e] == pat[e - |pre|];
    if OccursAt(text, pat, j) && e < |pre| {
      assert pre[j..j + |pat|] == text[j..j + |pat|];
    }
  }

  /** Only the first placeholder of a parameter's name is filled; any later one stays. */
  lemma FirstPlaceholderOnly(pre: string, post: string, name: string, value: string)
    requires NoBraces(name) && !Contains(pre, Placeholder(name))
    ensures ApplyParams(pre + Placeholder(name) + post, [(name, value)]) == pre + value + post
  {
    var pat := Placeholder(name);
    var text := pre + pat + post;
    assert OccursAt(text, pat, |pre|) by {
      assert text[|pre|..|pre| + |pat|] == pat;
    }
    forall j | 0 <= j < |pre| ensures !OccursAt(text, pat, j) {
      EarlierOccurrenceInPrefix(pre, name, post, j);
    }
    assert ReplaceFirst(text, pat, value) == text[..|pre|] + value + text[|pre| + |pat|..];
    assert text[..|pre|] == pre && text[|pre| + |pat|..] == post;
  }

  predicate NoBraces(s: string) {
    '{' !in s && '}' !in s
  }

  /** The characters of a placeholder: braces at both ends around the name. */
  lemma PlaceholderChars(name: string)
    ensures var P := Placeholder(name);
            |P| == |name| + 2 && P[0] == '{' && P[|P| - 1] == '}' && P[1..|P| - 1] == name
            && forall k :: 0 < k < |P| - 1 ==> P[k] == name[k - 1]
  {
  }

  /** An occurrence in either part is an occurrence in the concatenation. */
  lemma OccursInConcat(a: string, b: string, pat: string, k: int)
    ensures OccursAt(a, pat, k) ==> OccursAt(a + b, pat, k)
    ensures OccursAt(b, pat, k) ==> OccursAt(a + b, pat, |a| + k)
  {
    if OccursAt(a, pat, k) {
      assert (a + b)[k..k + |pat|] == a[k..k + |pat|];
    }
    if OccursAt(b, pat, k) {
      assert (a + b)[|a| + k..|a| + k + |pat|] == b[k..k + |pat|];
    }
  }

  /** Two placeholders of different brace-free names never overlap in a text. */
  lemma PlaceholdersDisjoint(text: string, p: string, x: string, i: int, j: int)
    requires NoBraces(p) && NoBraces(x) && p != x
    requires OccursAt(text, Placeholder(p), i) && OccursAt(text, Placeholder(x), j)
    ensures i + |p| + 2 <= j || j + |x| + 2 <= i
  {
    var P, X := Placeholder(p), Placeholder(x);
    PlaceholderChars(p);
    PlaceholderChars(x);
    assert forall m :: i <= m < i + |P| ==> text[m] == P[m - i] by {
      forall m | i <= m < i + |P| ensures text[m] == P[m - i] {
        assert text[i..i + |P|][m - i] == P[m - i];
      }
    }
    assert forall m :: j <= m < j + |X| ==> text[m] == X[m - j] by {
      forall m | j <= m < j + |X| ensures text[m] == X[m - j] {
        assert text[j..j + |X|][m - j] == X[m - j];
      }
    }
    assert text[i] == '{' && text[i + |p| + 1] == '}';
    assert text[j] == '{' && text[j + |x| + 1] == '}';
    if i == j {
      if |p| == |x| {
        assert false;
      } else if |p| < |x| {
        assert false;
      } else {
        assert false;
      }
    } else if i < j < i + |P| {
      assert false;
    } else if j < i < j + |X| {
      assert false;
    }
  }

  /** Replacing the text at `i` by `value` keeps an occurrence that does not overlap it. */
  lemma SpliceKeeps(text: string, i: nat, len: nat, value: string, pat: string, j: int)
    requires i + len <= |text| && OccursAt(text, pat, j)
    requires j + |pat| <= i || i + len <= j
    ensures Contains(text[..i] + value + text[i + len..], pat)
  {
    var head, tail := text[..i], text[i + len..];
    if j + |pat| <= i {
      assert head[j..j + |pat|] == text[j..j + |pat|];
      OccursInConcat(head, value + tail, pat, j);
      assert head + (value + tail) == head + value + tail;
    } else {
      var k := j - i - len;
      assert tail[k..k + |pat|] == text[j..j + |pat|];
      OccursInConcat(head + value, tail, pat, k);
    }
  }

  /** Filling one parameter keeps a placeholder of another brace-free name. */
  lemma ReplaceKeepsPlaceholder(text: string, p: string, value: string, x: string)
    requires NoBraces(p) && NoBraces(x) && p != x
    requires Contains(text, Placeholder(x))
    ensures Contains(ReplaceFirst(text, Placeholder(p), value), Placeholder(x))
  {
    var P, X := Placeholder(p), Placeholder(x);
    var j :| 0 <= j <= |text| && OccursAt(text, X, j);
    var found := IndexOf(text, P);
    if found.Some? {
      var i := found.value;
      var spliced := text[..i] + value + text[i + |P|..];
      PlaceholdersDisjoint(text, p, x, i, j);
      SpliceKeeps(text, i, |P|, value, X, j);
      assert Contains(spliced, X);
      assert ReplaceFirst(text, P, value) == spliced;
    } else {
      assert ReplaceFirst(text, P, value) == text;
    }
  }

  /**
   * A placeholder with no parameter of its name survives substitution, so it
   * shows literally in the output (names free of braces).
   */
  lemma {:induction false} UnmatchedPlaceholderRemains(text: string, params: seq<Param>, x: string)
    requires NoBraces(x) && Contains(text, Placeholder(x))
    requires forall i :: 0 <= i < |params| ==> NoBraces(params[i].0) && params[i].0 != x
    ensures Contains(ApplyParams(text, params), Placeholder(x))
    decreases |params|
  {
    if params != [] {
      ReplaceKeepsPlaceholder(text, params[0].0, params[0].1, x);
      UnmatchedPlaceholderRemains(ReplaceFirst(text, Placeholder(params[0].0), params[0].1), params[1..], x);
    }
  }

  /** Text with no placeholder of any parameter's name comes back unchanged. */
  lemma {:induction false} NoPlaceholdersNoChange(text: string, params: seq<Param>)
    requires forall i :: 0 <= i < |params| ==> !Contains(text, Placeholder(params[i].0))
    ensures ApplyParams(text, params) == text
    decreases |params|
  {
    if params != [] {
      NoPlaceholdersNoChange(text, params[1..]);
    }
  }
}
