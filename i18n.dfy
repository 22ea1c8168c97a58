/** Translations: a primary-locale table, the English table as fallback, and the key
    itself as the last resort; placeholders are filled by str.format_map (app/core/i18n.py).
    The locale files are an input: a map from a language name to its loaded table. */
module I18n {
  import opened Wrappers
  import opened Text

  type Table = map<string, string>

  datatype Translator = Translator(localesDir: string, locale: string, cache: Table, fallback: Table)

  /** `{lang}.json` as loaded; a missing file is an empty table. */
  function LoadFile(files: map<string, Table>, lang: string): Table {
    if lang in files then files[lang] else map[]
  }

  /** The constructor: the locale given, or en when it is None or empty, lower-cased; the
      tables of that locale and of English. */
  function NewTranslator(localesDir: string, locale: Option<string>, files: map<string, Table>): Translator {
    var l := Lower(if locale.None? || locale.value == "" then "en" else locale.value);
    Translator(localesDir, l, LoadFile(files, l), LoadFile(files, "en"))
  }

  lemma NewTranslatorMeaning(localesDir: string, locale: Option<string>, files: map<string, Table>)
    ensures var tr := NewTranslator(localesDir, locale, files);
      && tr.locale != ""
      && Lower(tr.locale) == tr.locale
      && (locale.None? || locale == Some("") ==> tr.locale == "en" && tr.cache == tr.fallback)
      && (tr.locale !in files ==> tr.cache == map[])
      && ("en" in files ==> tr.fallback == files["en"])
  {
    var tr := NewTranslator(localesDir, locale, files);
    assert forall i :: 0 <= i < |tr.locale| ==> LowerChar(tr.locale[i]) == tr.locale[i];
    if locale.None? || locale == Some("") {
      assert forall i :: 0 <= i < |"en"| ==> LowerChar("en"[i]) == "en"[i];
      assert tr.locale == "en";
    }
  }

  /** dict.get(key) or fallback: a missing key and an empty text both fall through. */
  function GetOr(t: Table, key: string, fallback: string): string {
    if key in t && t[key] != "" then t[key] else fallback
  }

  /** The text before formatting: primary, else English, else the key. */
  function Lookup(tr: Translator, key: string): string {
    GetOr(tr.cache, key, GetOr(tr.fallback, key, key))
  }

  lemma LookupMeaning(tr: Translator, key: string)
    ensures var r := Lookup(tr, key);
      && (key in tr.cache && tr.cache[key] != "" ==> r == tr.cache[key])
      && (!(key in tr.cache && tr.cache[key] != "") && key in tr.fallback && tr.fallback[key] != "" ==> r == tr.fallback[key])
      && (!(key in tr.cache && tr.cache[key] != "") && !(key in tr.fallback && tr.fallback[key] != "") ==> r == key)
      && (key != "" ==> r != "")
  {
  }

  // ---------------------------------------------------------------- str.format_map

  /** The first closing brace at or after `i`, provided no opening brace comes first. */
  function CloseBrace(t: string, i: nat): (r: Option<nat>)
    ensures r.Some? ==> i <= r.value < |t| && t[r.value] == '}'
                        && forall k :: i <= k < r.value ==> t[k] != '}' && t[k] != '{'
    decreases |t| - i
  {
    if i >= |t| then None
    else if t[i] == '}' then Some(i)
    else if t[i] == '{' then None
    else CloseBrace(t, i + 1)
  }

  /** A field name format_map looks up as a key: not empty, not a positional index, and
      with no conversion, format spec, attribute or index part. */
  predicate PlainName(name: string) {
    |name| > 0 && !AllDigits(name)
    && forall i :: 0 <= i < |name| ==> name[i] !in "{}:!.[]"
  }

  function Prepend(p: string, r: Option<string>): Option<string> {
    match r
    case Some(s) => Some(p + s)
    case None => None
  }

  /** str.format_map(kw): `{{` and `}}` are literal braces, `{name}` is kw[name]; a
      missing key, a stray brace or any other field raises, modelled as None. */
  function Format(t: string, kw: map<string, string>): Option<string>
    decreases |t|
  {
    if |t| == 0 then Some("")
    else if t[0] == '{' && |t| > 1 && t[1] == '{' then Prepend("{", Format(t[2..], kw))
    else if t[0] == '{' then
      match CloseBrace(t, 1)
      case None => None
      case Some(j) =>
        var name := t[1..j];
        if !PlainName(name) || name !in kw then None
        else Prepend(kw[name], Format(t[j + 1..], kw))
    else if t[0] == '}' then
      if |t| > 1 && t[1] == '}' then Prepend("}", Format(t[2..], kw)) else None
    else Prepend([t[0]], Format(t[1..], kw))
  }

  predicate NoBraces(s: string) {
    forall i :: 0 <= i < |s| ==> s[i] != '{' && s[i] != '}'
  }

  /** Text without braces comes out as it is, whatever the arguments. */
  lemma {:induction false} FormatPlain(t: string, kw: map<string, string>)
    requires NoBraces(t)
    ensures Format(t, kw) == Some(t)
    decreases |t|
  {
    if |t| > 0 {
      FormatPlain(t[1..], kw);
      assert [t[0]] + t[1..] == t;
    }
  }

  /** Doubling every brace protects it from formatting. */
  function Escape(s: string): (r: string)
    decreases |s|
  {
    if |s| == 0 then ""
    else if s[0] == '{' then "{{" + Escape(s[1..])
    else if s[0] == '}' then "}}" + Escape(s[1..])
    else [s[0]] + Escape(s[1..])
  }

  lemma {:induction false} FormatEscape(s: string, kw: map<string, string>)
    ensures Format(Escape(s), kw) == Some(s)
    decreases |s|
  {
    if |s| > 0 {
      FormatEscape(s[1..], kw);
      var e := Escape(s);
      var rest := Escape(s[1..]);
      if s[0] == '{' || s[0] == '}' {
        assert e == [s[0], s[0]] + rest;
        assert e[2..] == rest;
      } else {
        assert e == [s[0]] + rest;
        assert e[1..] == rest;
      }
      assert [s[0]] + s[1..] == s;
    }
  }

  lemma CloseBraceAfterName(name: string, rest: string)
    requires PlainName(name)
    ensures CloseBrace("{" + name + "}" + rest, 1) == Some(|name| + 1)
  {
    var t := "{" + name + "}" + rest;
    assert t[..|name| + 2] == "{" + name + "}";
    CloseBraceScan(t, name, 1);
  }

  lemma {:induction false} CloseBraceScan(t: string, name: string, i: nat)
    requires PlainName(name) && |t| >= |name| + 2 && t[..|name| + 2] == "{" + name + "}" && 1 <= i <= |name| + 1
    ensures CloseBrace(t, i) == Some(|name| + 1)
    decreases |name| + 1 - i
  {
    assert t[i] == t[..|name| + 2][i];
    if i <= |name| {
      assert t[i] == name[i - 1];
      CloseBraceScan(t, name, i + 1);
    } else {
      assert t[i] == '}';
    }
  }

  /** A field is replaced by its argument, and formatting goes on after it. */
  lemma FormatField(name: string, rest: string, kw: map<string, string>)
    requires PlainName(name)
    ensures Format("{" + name + "}" + rest, kw)
         == if name in kw then Prepend(kw[name], Format(rest, kw)) else None
  {
    var t := "{" + name + "}" + rest;
    CloseBraceAfterName(name, rest);
    assert t[0] == '{' && t[1] == name[0];
    assert t[1..|name| + 1] == name;
    assert t[|name| + 2..] == rest;
  }

  // ---------------------------------------------------------------- t

  /** I18n.t: the looked-up text, formatted when arguments are given; a formatting
      failure returns the text unformatted. */
  function T(tr: Translator, key: string, kwargs: map<string, string>): string {
    var txt := Lookup(tr, key);
    if |kwargs| == 0 then txt
    else
      match Format(txt, kwargs)
      case Some(r) => r
      case None => txt
  }

  lemma TMeaning(tr: Translator, key: string, kwargs: map<string, string>)
    ensures |kwargs| == 0 ==> T(tr, key, kwargs) == Lookup(tr, key)
    ensures Format(Lookup(tr, key), kwargs).None? ==> T(tr, key, kwargs) == Lookup(tr, key)
    ensures NoBraces(Lookup(tr, key)) ==> T(tr, key, kwargs) == Lookup(tr, key)
    ensures |kwargs| > 0 && Format(Lookup(tr, key), kwargs).Some? ==> T(tr, key, kwargs) == Format(Lookup(tr, key), kwargs).value
  {
    if NoBraces(Lookup(tr, key)) {
      FormatPlain(Lookup(tr, key), kwargs);
    }
  }

  /** A key no table translates is shown as itself. */
  lemma UntranslatedKey(tr: Translator, key: string, kwargs: map<string, string>)
    requires key !in tr.cache && key !in tr.fallback && NoBraces(key)
    ensures T(tr, key, kwargs) == key
  {
    TMeaning(tr, key, kwargs);
  }
}
