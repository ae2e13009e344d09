/** Translations: locale tables loaded from JSON and from a line-based YAML
    reader, looked up by dotted keys with a fallback to the default locale,
    and `{name}` placeholders filled from parameters. */
module I18n {
  import opened Common

  /** A value a locale table can hold (what JSON text parses to). */
  datatype Value =
    | Str(s: string)
    | Num(n: real)
    | Bool(b: bool)
    | Null
    | Arr(items: seq<Value>)
    | Obj(fields: map<string, Value>)

  const DefaultLocale: string := "es"

  /** JavaScript truthiness of a table: empty text, zero, false and null are
      falsy; every array and object is truthy. */
  predicate Truthy(v: Value) {
    match v
    case Str(s) => s != ""
    case Num(n) => n != 0.0
    case Bool(b) => b
    case Null => false
    case Arr(_) => true
    case Obj(_) => true
  }

  // ---------------------------------------------------------------------
  // Text helpers.

  /** `s.split(sep)` for a one-character separator: the pieces between
      separators, empty ones included. */
  function Split(s: string, sep: char): (r: seq<string>)
    ensures |r| >= 1
    ensures forall i :: 0 <= i < |r| ==> sep !in r[i]
  {
    if s == [] then [[]]
    else
      var rest := Split(s[1..], sep);
      if s[0] == sep then [[]] + rest else [[s[0]] + rest[0]] + rest[1..]
  }

  /** The pieces glued back with the separator between them. */
  function Join(pieces: seq<string>, sep: char): string
    requires |pieces| >= 1
  {
    if |pieces| == 1 then pieces[0] else pieces[0] + [sep] + Join(pieces[1..], sep)
  }

  /** Splitting loses nothing: the pieces joined give the text back. */
  lemma {:induction false} JoinSplit(s: string, sep: char)
    ensures Join(Split(s, sep), sep) == s
  {
    if s != [] {
      JoinSplit(s[1..], sep);
      var rest := Split(s[1..], sep);
      if s[0] != sep {
        if |rest| == 1 {
          assert Join(Split(s, sep), sep) == [s[0]] + rest[0];
        } else {
          assert Join(Split(s, sep), sep) == ([s[0]] + rest[0]) + [sep] + Join(rest[1..], sep);
          assert Join(rest, sep) == rest[0] + [sep] + Join(rest[1..], sep);
        }
        assert [s[0]] + s[1..] == s;
      }
    }
  }

  lemma {:induction false} SplitPieceThenRest(p: string, t: string, sep: char)
    requires sep !in p
    ensures Split(p + [sep] + t, sep) == [p] + Split(t, sep)
  {
    if p != [] {
      SplitPieceThenRest(p[1..], t, sep);
      assert (p + [sep] + t)[1..] == p[1..] + [sep] + t;
      assert [p[0]] + p[1..] == p;
    } else {
      assert (p + [sep] + t)[1..] == t;
    }
  }

  lemma {:induction false} SplitWhole(p: string, sep: char)
    requires sep !in p
    ensures Split(p, sep) == [p]
  {
    if p != [] {
      SplitWhole(p[1..], sep);
      assert [p[0]] + p[1..] == p;
    }
  }

  /** Joining separator-free pieces and splitting again gives the pieces. */
  lemma {:induction false} SplitJoin(pieces: seq<string>, sep: char)
    requires |pieces| >= 1 && forall i :: 0 <= i < |pieces| ==> sep !in pieces[i]
    ensures Split(Join(pieces, sep), sep) == pieces
  {
    if |pieces| == 1 {
      SplitWhole(pieces[0], sep);
    } else {
      SplitJoin(pieces[1..], sep);
      SplitPieceThenRest(pieces[0], Join(pieces[1..], sep), sep);
      assert [pieces[0]] + pieces[1..] == pieces;
    }
  }

  /** A locale file's name up to its first '.': a dot-free prefix that is
      either the whole name or followed by a '.'. */
  function LocaleOf(fileName: string): (locale: string)
    ensures '.' !in locale
    ensures locale <= fileName
    ensures |locale| == |fileName| || fileName[|locale|] == '.'
  {
    JoinSplit(fileName, '.');
    JoinPrefix(Split(fileName, '.'), '.');
    Split(fileName, '.')[0]
  }

  /** The first piece starts the joined text, and is followed by the
      separator when more pieces come. */
  lemma JoinPrefix(pieces: seq<string>, sep: char)
    requires |pieces| >= 1
    ensures pieces[0] <= Join(pieces, sep)
    ensures |pieces| == 1 ==> Join(pieces, sep) == pieces[0]
    ensures |pieces| > 1 ==> |pieces[0]| < |Join(pieces, sep)| && Join(pieces, sep)[|pieces[0]|] == sep
  {}

  function EndsWith(s: string, suffix: string): bool {
    |suffix| <= |s| && s[|s| - |suffix|..] == suffix
  }

  /** The characters JavaScript's `\s` and `trim` treat as white space. */
  predicate IsSpace(c: char) {
    c == ' ' || c == '\t' || c == '\n' || c == '\r' || c == '\U{000B}' || c == '\U{000C}'
    || c == '\U{00A0}' || c == '\U{1680}' || ('\U{2000}' <= c <= '\U{200A}') || c == '\U{2028}'
    || c == '\U{2029}' || c == '\U{202F}' || c == '\U{205F}' || c == '\U{3000}' || c == '\U{FEFF}'
  }

  /** The characters a regular expression's `.` does not match. */
  predicate IsLineTerminator(c: char) {
    c == '\n' || c == '\r' || c == '\U{2028}' || c == '\U{2029}'
  }

  /** Whether a line break character occurs in `s`. */
  function HasLineTerminator(s: string): (b: bool)
    ensures b <==> exists i :: 0 <= i < |s| && IsLineTerminator(s[i])
  {
    if s == [] then false else IsLineTerminator(s[0]) || HasLineTerminator(s[1..])
  }

  /** The characters of `\w`. */
  predicate IsWordChar(c: char) {
    ('a' <= c <= 'z') || ('A' <= c <= 'Z') || ('0' <= c <= '9') || c == '_'
  }

  /** `s` without its leading white space: a suffix of `s` that does not
      start with white space, and only white space was cut. */
  function TrimStart(s: string): (t: string)
    ensures |t| <= |s| && t == s[|s| - |t|..] && (t == [] || !IsSpace(t[0]))
    ensures forall i :: 0 <= i < |s| - |t| ==> IsSpace(s[i])
  {
    if s != [] && IsSpace(s[0]) then TrimStart(s[1..]) else s
  }

  /** `s` without its trailing white space: a prefix of `s` that does not
      end with white space, and only white space was cut. */
  function TrimEnd(s: string): (t: string)
    ensures |t| <= |s| && t == s[..|t|] && (t == [] || !IsSpace(t[|t| - 1]))
    ensures t != [] ==> !IsSpace(s[|t| - 1])
    ensures forall i :: |t| <= i < |s| ==> IsSpace(s[i])
  {
    if s != [] && IsSpace(s[|s| - 1]) then TrimEnd(s[..|s| - 1]) else s
  }

  function Trim(s: string): string {
    TrimEnd(TrimStart(s))
  }

  // ---------------------------------------------------------------------
  // Lookup.

  /** Follows the key segments through nested objects; a missing segment,
      or a segment asked of anything but an object, ends the walk with
      nothing found. */
  function Walk(v: Value, keys: seq<string>): Option<Value> {
    if keys == [] then Some(v)
    else match v
      case Obj(fields) => if keys[0] in fields then Walk(fields[keys[0]], keys[1..]) else None
      case _ => None
  }

  /** Walking `a` then `b` is walking `a` and carrying on from where it
      ended; once a segment is missing, no later segment is looked at. */
  lemma {:induction false} WalkConcat(v: Value, a: seq<string>, b: seq<string>)
    ensures Walk(v, a + b) == if Walk(v, a).Some? then Walk(Walk(v, a).value, b) else None
  {
    if a != [] {
      assert (a + b)[0] == a[0] && (a + b)[1..] == a[1..] + b;
      if v.Obj? && a[0] in v.fields {
        WalkConcat(v.fields[a[0]], a[1..], b);
      }
    } else {
      assert a + b == b;
    }
  }

  /** The walk stops at the first missing segment: if a prefix of the key
      finds nothing, neither does the whole key. */
  lemma WalkStopsAtMissing(v: Value, keys: seq<string>, i: nat)
    requires i <= |keys| && Walk(v, keys[..i]).None?
    ensures Walk(v, keys).None?
  {
    WalkConcat(v, keys[..i], keys[i..]);
    assert keys[..i] + keys[i..] == keys;
  }

  /** The table a locale reads from: its own when present and truthy, else
      the default locale's under the same test, else an empty object. */
  function Table(translations: map<string, Value>, locale: string): (t: Value)
    ensures locale in translations && Truthy(translations[locale]) ==> t == translations[locale]
    ensures !(locale in translations && Truthy(translations[locale]))
            && DefaultLocale in translations && Truthy(translations[DefaultLocale])
            ==> t == translations[DefaultLocale]
    ensures !(locale in translations && Truthy(translations[locale]))
            && !(DefaultLocale in translations && Truthy(translations[DefaultLocale]))
            ==> t == Obj(map[])
  {
    if locale in translations && Truthy(translations[locale]) then translations[locale]
    else if DefaultLocale in translations && Truthy(translations[DefaultLocale]) then translations[DefaultLocale]
    else Obj(map[])
  }

  /** The text stored under a dotted key in the table a locale reads from. */
  function Lookup(translations: map<string, Value>, locale: string, key: string): Option<string> {
    var found := Walk(Table(translations, locale), Split(key, '.'));
    if found.Some? && found.value.Str? then Some(found.value.s) else None
  }

  /** How many word characters `s` starts with. */
  function WordPrefixLength(s: string): (n: nat)
    ensures n <= |s|
    ensures forall i :: 0 <= i < n ==> IsWordChar(s[i])
    ensures n < |s| ==> !IsWordChar(s[n])
  {
    if s != [] && IsWordChar(s[0]) then 1 + WordPrefixLength(s[1..]) else 0
  }

  /** The length of the name when `s` starts with a placeholder `{name}`,
      and 0 when it does not. */
  function PlaceholderName(s: string): (n: nat)
    ensures n > 0 ==> n + 2 <= |s| && s[0] == '{' && s[n + 1] == '}'
    ensures n > 0 ==> forall i :: 1 <= i <= n ==> IsWordChar(s[i])
  {
    if s != [] && s[0] == '{' && 0 < WordPrefixLength(s[1..]) < |s| - 1 && s[1 + WordPrefixLength(s[1..])] == '}'
    then WordPrefixLength(s[1..]) else 0
  }

  /** The members every object inherits from `Object.prototype`, each
      with the text `replace` writes for it: `__proto__` is the prototype
      object itself, `constructor` the `Object` function, and the rest are
      built-in methods, printed as native code. */
  const ObjectPrototype: map<string, string> :=
    map["hasOwnProperty" := "function hasOwnProperty() { [native code] }",
        "isPrototypeOf" := "function isPrototypeOf() { [native code] }",
        "propertyIsEnumerable" := "function propertyIsEnumerable() { [native code] }",
        "toLocaleString" := "function toLocaleString() { [native code] }",
        "toString" := "function toString() { [native code] }",
        "valueOf" := "function valueOf() { [native code] }",
        "__defineGetter__" := "function __defineGetter__() { [native code] }",
        "__defineSetter__" := "function __defineSetter__() { [native code] }",
        "__lookupGetter__" := "function __lookupGetter__() { [native code] }",
        "__lookupSetter__" := "function __lookupSetter__() { [native code] }",
        "__proto__" := "[object Object]",
        "constructor" := "function Object() { [native code] }"]

  /** What `params[name]` finds for a placeholder: the parameter's own
      value, else what the object inherits from `proto`, else nothing, and
      the placeholder stays. */
  function Filled(name: string, params: map<string, string>, proto: map<string, string>): string {
    if name in params then params[name]
    else if name in proto then proto[name]
    else "{" + name + "}"
  }

  /** Replaces, left to right, each `{name}` whose name is a run of word
      characters by what `params[name]` finds; `translate` passes
      ObjectPrototype as `proto`. */
  function Interpolate(s: string, params: map<string, string>, proto: map<string, string>): string
    decreases |s|
  {
    if s == [] then []
    else if PlaceholderName(s) > 0 then
      var n := PlaceholderName(s);
      Filled(s[1..1 + n], params, proto) + Interpolate(s[n + 2..], params, proto)
    else [s[0]] + Interpolate(s[1..], params, proto)
  }

  /** The names of the placeholders the scan finds in `s`. */
  function PlaceholderNames(s: string): set<string>
    decreases |s|
  {
    if s == [] then {}
    else if PlaceholderName(s) > 0 then
      {s[1..1 + PlaceholderName(s)]} + PlaceholderNames(s[PlaceholderName(s) + 2..])
    else PlaceholderNames(s[1..])
  }

  /** A text that opens with '{' and has '}' after `n` more characters is
      the brace, those characters, the brace and the rest. */
  lemma Bracketed(s: string, n: nat)
    requires n + 2 <= |s| && s[0] == '{' && s[n + 1] == '}'
    ensures "{" + s[1..1 + n] + "}" + s[n + 2..] == s
  {
    assert s == s[..1] + s[1..1 + n] + s[1 + n..n + 2] + s[n + 2..];
  }

  /** Without parameters the text comes back unchanged, as long as no
      placeholder names an inherited member. */
  lemma {:induction false} InterpolateNoParams(s: string, proto: map<string, string>)
    requires PlaceholderNames(s) !! proto.Keys
    decreases |s|
    ensures Interpolate(s, map[], proto) == s
  {
    if s != [] {
      var n := PlaceholderName(s);
      if n > 0 {
        var name := s[1..1 + n];
        assert name in PlaceholderNames(s);
        InterpolateNoParams(s[n + 2..], proto);
        assert Interpolate(s, map[], proto) == "{" + name + "}" + Interpolate(s[n + 2..], map[], proto);
        Bracketed(s, n);
      } else {
        InterpolateNoParams(s[1..], proto);
        assert [s[0]] + s[1..] == s;
      }
    }
  }

  predicate IsWord(name: string) {
    name != [] && forall i :: 0 <= i < |name| ==> IsWordChar(name[i])
  }

  lemma {:induction false} WordPrefixOfWord(name: string, rest: string)
    requires forall i :: 0 <= i < |name| ==> IsWordChar(name[i])
    ensures WordPrefixLength(name + "}" + rest) == |name|
  {
    if name != [] {
      assert (name + "}" + rest)[1..] == name[1..] + "}" + rest;
      WordPrefixOfWord(name[1..], rest);
    }
  }

  /** `{name}` at the start of a text is recognised as a placeholder for
      exactly that name, with the rest of the text after it. */
  lemma PlaceholderAt(name: string, rest: string)
    requires IsWord(name)
    ensures var s := "{" + name + "}" + rest;
            PlaceholderName(s) == |name| && s[1..1 + |name|] == name && s[|name| + 2..] == rest
  {
    var s := "{" + name + "}" + rest;
    assert s[1..] == name + "}" + rest;
    WordPrefixOfWord(name, rest);
    assert s[1..1 + |name|] == name;
    assert s[|name| + 2..] == rest;
  }

  /** A placeholder whose parameter is given is replaced by its value, and
      the text after it is filled in the same way. */
  lemma PlaceholderReplaced(name: string, rest: string, params: map<string, string>, proto: map<string, string>)
    requires IsWord(name) && name in params
    ensures Interpolate("{" + name + "}" + rest, params, proto) == params[name] + Interpolate(rest, params, proto)
  {
    PlaceholderAt(name, rest);
  }

  /** A placeholder whose parameter is not given, and whose name is not
      inherited, is left as it is, and the text after it is filled in the
      same way. */
  lemma PlaceholderKept(name: string, rest: string, params: map<string, string>, proto: map<string, string>)
    requires IsWord(name) && name !in params && name !in proto
    ensures Interpolate("{" + name + "}" + rest, params, proto) == "{" + name + "}" + Interpolate(rest, params, proto)
  {
    PlaceholderAt(name, rest);
  }

  /** A placeholder whose parameter is not given but whose name is
      inherited is filled with the inherited value. */
  lemma PlaceholderInherited(name: string, rest: string, params: map<string, string>, proto: map<string, string>)
    requires IsWord(name) && name !in params && name in proto
    ensures Interpolate("{" + name + "}" + rest, params, proto) == proto[name] + Interpolate(rest, params, proto)
  {
    PlaceholderAt(name, rest);
  }

  /** So even the default empty parameters fill `{constructor}`. */
  lemma ConstructorFilled()
    ensures Interpolate("{constructor}", map[], ObjectPrototype) == "function Object() { [native code] }"
  {
    var name := "constructor";
    assert IsWord(name);
    PlaceholderInherited(name, "", map[], ObjectPrototype);
    assert "{" + name + "}" + "" == "{constructor}";
  }

  /** Text without an opening brace has no placeholder and comes back
      unchanged whatever the parameters. */
  lemma {:induction false} NoBraceUnchanged(s: string, params: map<string, string>, proto: map<string, string>)
    requires '{' !in s
    decreases |s|
    ensures Interpolate(s, params, proto) == s
  {
    if s != [] {
      assert s[0] != '{';
      NoBraceUnchanged(s[1..], params, proto);
      assert [s[0]] + s[1..] == s;
    }
  }

  /** `translate`: the string under the key in the locale's table, filled
      in; failing that, the same from the default locale's table; failing
      that, the key itself. The recursion goes one level deep at most. */
  function Translate(translations: map<string, Value>, key: string, locale: string, params: map<string, string>): (r: string)
    decreases if locale == DefaultLocale then 0 else 1
    ensures Lookup(translations, locale, key).Some? ==> r == Interpolate(Lookup(translations, locale, key).value, params, ObjectPrototype)
    ensures Lookup(translations, locale, key).None? && Lookup(translations, DefaultLocale, key).Some?
            ==> r == Interpolate(Lookup(translations, DefaultLocale, key).value, params, ObjectPrototype)
    ensures Lookup(translations, locale, key).None? && Lookup(translations, DefaultLocale, key).None? ==> r == key
  {
    var found := Lookup(translations, locale, key);
    if found.None? then
      if locale != DefaultLocale then Translate(translations, key, DefaultLocale, params) else key
    else Interpolate(found.value, params, ObjectPrototype)
  }

  /** `t`, the short name of `translate`. */
  function T(translations: map<string, Value>, key: string, locale: string, params: map<string, string>): (r: string)
    ensures r == Translate(translations, key, locale, params)
  {
    Translate(translations, key, locale, params)
  }

  // ---------------------------------------------------------------------
  // The line-based YAML reader.

  function FirstIndex(s: string, c: char): (i: Option<nat>)
    ensures i.Some? ==> i.value < |s| && s[i.value] == c
    ensures i.Some? ==> forall j :: 0 <= j < i.value ==> s[j] != c
    ensures i.None? ==> c !in s
  {
    if s == [] then None
    else if s[0] == c then Some(0)
    else
      var rest := FirstIndex(s[1..], c);
      if rest.Some? then
        assert s[..rest.value + 1] == [s[0]] + s[1..][..rest.value];
        Some(rest.value + 1)
      else None
  }

  predicate IsQuote(c: char) {
    c == '\'' || c == '"'
  }

  /** Drops one surrounding pair of quotes, either kind at either end. */
  function Unquote(v: string): (u: string)
    ensures |v| >= 2 && IsQuote(v[0]) && IsQuote(v[|v| - 1]) ==> u == v[1..|v| - 1]
    ensures !(|v| >= 2 && IsQuote(v[0]) && IsQuote(v[|v| - 1])) ==> u == v
  {
    if |v| >= 2 && IsQuote(v[0]) && IsQuote(v[|v| - 1]) then v[1..|v| - 1] else v
  }

  /** Whether the loop looks at a line at all: it is not blank and does not
      start with '#' (a '#' after leading blanks does not count). */
  predicate Considered(line: string) {
    var t := TrimEnd(line);
    t != [] && t[0] != '#'
  }

  /** The key and value a line stores, if it matches `key: value`: the key is
      everything before the first colon (at least one character, trimmed);
      the value is the rest after the blanks that follow the colon, and the
      match fails if that still holds a line break character. An empty value
      stores an empty object, any other its text without one pair of quotes. */
  function YamlEntry(line: string): (e: Option<(string, Value)>)
    ensures e.Some? ==> Considered(line) && ':' in line
    ensures e.Some? ==> e.value.1 == Obj(map[]) || e.value.1.Str?
  {
    EntryOfTrimmed(TrimEnd(line))
  }

  /** The entry of a line whose trailing blanks are gone. */
  function EntryOfTrimmed(t: string): (e: Option<(string, Value)>)
    ensures e.Some? ==> t != [] && t[0] != '#' && ':' in t
    ensures e.Some? ==> e.value.1 == Obj(map[]) || e.value.1.Str?
    ensures e.Some? <==> t != [] && t[0] != '#' && FirstIndex(t, ':').Some? && FirstIndex(t, ':').value > 0
                         && StoredValue(t[FirstIndex(t, ':').value + 1..]).Some?
    ensures e.Some? ==> e.value.0 == Trim(t[..FirstIndex(t, ':').value])
                        && e.value.1 == StoredValue(t[FirstIndex(t, ':').value + 1..]).value
  {
    if t == [] || t[0] == '#' then None
    else
      var colon := FirstIndex(t, ':');
      if colon.None? || colon.value == 0 then None
      else
        var v := StoredValue(t[colon.value + 1..]);
        if v.None? then None else Some((Trim(t[..colon.value]), v.value))
  }

  /** The value stored for the text after the colon; None when the text,
      once its leading blanks are skipped, holds a line break character. */
  function StoredValue(afterColon: string): (v: Option<Value>)
    ensures v.Some? ==> v.value == Obj(map[]) || v.value.Str?
    ensures v.Some? <==> !HasLineTerminator(TrimStart(afterColon))
    ensures v.Some? ==> (v.value == Obj(map[]) <==> Trim(TrimStart(afterColon)) == [])
    ensures v.Some? && v.value.Str? ==> v.value.s == Unquote(Trim(TrimStart(afterColon)))
  {
    var rest := TrimStart(afterColon);
    if HasLineTerminator(rest) then None
    else
      var text := Trim(rest);
      Some(if text == [] then Obj(map[]) else Str(Unquote(text)))
  }

  /** What each line stores, line by line. */
  function Entries(lines: seq<string>): (es: seq<Option<(string, Value)>>)
    ensures |es| == |lines|
  {
    if lines == [] then [] else Entries(lines[..|lines| - 1]) + [YamlEntry(lines[|lines| - 1])]
  }

  lemma {:induction false} EntriesAt(lines: seq<string>, i: nat)
    requires i < |lines|
    ensures Entries(lines)[i] == YamlEntry(lines[i])
  {
    if i < |lines| - 1 {
      EntriesAt(lines[..|lines| - 1], i);
    }
  }

  /** The entries stored in order into one object, a later entry
      overwriting an earlier one with the same key. */
  function Collect(entries: seq<Option<(string, Value)>>): map<string, Value> {
    if entries == [] then map[]
    else
      var before := Collect(entries[..|entries| - 1]);
      var e := entries[|entries| - 1];
      if e.Some? then before[e.value.0 := e.value.1] else before
  }

  /** The object the YAML reader builds: every entry at the top level. */
  function YamlObject(lines: seq<string>): map<string, Value> {
    Collect(Entries(lines))
  }

  /** Reading one more line stores that line's entry, if any, on top of what
      the earlier lines stored. */
  lemma YamlObjectStep(lines: seq<string>, i: nat, e: Option<(string, Value)>)
    requires i < |lines| && e == YamlEntry(lines[i])
    ensures YamlObject(lines[..i + 1]) ==
            if e.Some? then YamlObject(lines[..i])[e.value.0 := e.value.1] else YamlObject(lines[..i])
  {
    EntriesSnoc(lines, i);
    CollectSnoc(Entries(lines[..i]), e);
  }

  lemma EntriesSnoc(lines: seq<string>, i: nat)
    requires i < |lines|
    ensures Entries(lines[..i + 1]) == Entries(lines[..i]) + [YamlEntry(lines[i])]
  {
    assert lines[..i + 1][..i] == lines[..i];
  }

  lemma CollectSnoc(entries: seq<Option<(string, Value)>>, e: Option<(string, Value)>)
    ensures Collect(entries + [e]) == if e.Some? then Collect(entries)[e.value.0 := e.value.1] else Collect(entries)
  {
    assert (entries + [e])[..|entries|] == entries;
  }

  /** A key is collected exactly when some entry carries it, and its value
      is that of the last such entry. */
  lemma {:induction false} CollectKeys(entries: seq<Option<(string, Value)>>, key: string)
    ensures key in Collect(entries) <==>
            exists i :: 0 <= i < |entries| && entries[i].Some? && entries[i].value.0 == key
    ensures key in Collect(entries) ==>
            exists i :: 0 <= i < |entries| && entries[i].Some? && entries[i].value.0 == key
                        && Collect(entries)[key] == entries[i].value.1
                        && forall j :: i < j < |entries| ==> !(entries[j].Some? && entries[j].value.0 == key)
  {
    if entries != [] {
      var init := entries[..|entries| - 1];
      var last := entries[|entries| - 1];
      CollectKeys(init, key);
      assert forall i :: 0 <= i < |init| ==> init[i] == entries[i];
      if !(last.Some? && last.value.0 == key) && key in Collect(entries) {
        var i :| 0 <= i < |init| && init[i].Some? && init[i].value.0 == key
                 && Collect(init)[key] == init[i].value.1
                 && forall j :: i < j < |init| ==> !(init[j].Some? && init[j].value.0 == key);
        assert Collect(entries)[key] == entries[i].value.1;
      }
    }
  }

  /** A key is in the object exactly when some line stores it; the last
      such line gives its value. */
  lemma YamlObjectKeys(lines: seq<string>, key: string)
    ensures key in YamlObject(lines) <==>
            exists i :: 0 <= i < |lines| && YamlEntry(lines[i]).Some? && YamlEntry(lines[i]).value.0 == key
  {
    CollectKeys(Entries(lines), key);
    forall i | 0 <= i < |lines| {
      EntriesAt(lines, i);
    }
  }

  /** Index of the first non-blank character (the line is not blank). */
  function Indent(line: string): (n: nat)
    requires exists i :: 0 <= i < |line| && !IsSpace(line[i])
    ensures n < |line| && !IsSpace(line[n])
    ensures forall i :: 0 <= i < n ==> IsSpace(line[i])
  {
    if !IsSpace(line[0]) then 0
    else
      var j :| 0 <= j < |line| && !IsSpace(line[j]);
      assert j > 0 && !IsSpace(line[1..][j - 1]);
      1 + Indent(line[1..])
  }

  /** The indentation stack: starts at 0, strictly increasing. */
  predicate IndentStack(stack: seq<int>) {
    |stack| >= 1 && stack[0] == 0 && forall i :: 0 < i < |stack| ==> stack[i - 1] < stack[i]
  }

  /** A value the YAML reader can store: text, or an empty object. */
  predicate FlatValue(v: Value) {
    v == Obj(map[]) || v.Str?
  }

  lemma {:induction false} CollectFlat(entries: seq<Option<(string, Value)>>)
    requires forall i :: 0 <= i < |entries| && entries[i].Some? ==> FlatValue(entries[i].value.1)
    ensures forall k :: k in Collect(entries) ==> FlatValue(Collect(entries)[k])
  {
    if entries != [] {
      var init := entries[..|entries| - 1];
      assert forall i :: 0 <= i < |init| ==> init[i] == entries[i];
      CollectFlat(init);
    }
  }

  /** The reader builds no nesting: whatever the indentation, every key sits
      at the top level and holds text or an empty object, never a section
      with keys of its own. */
  lemma YamlObjectIsFlat(lines: seq<string>)
    ensures forall k :: k in YamlObject(lines) ==> FlatValue(YamlObject(lines)[k])
  {
    var es := Entries(lines);
    forall i | 0 <= i < |es| && es[i].Some?
      ensures FlatValue(es[i].value.1)
    {
      EntriesAt(lines, i);
    }
    CollectFlat(es);
  }

  /** One file of the locales directory: its name, its text, and what
      parsing the text as JSON gives (None when the parser throws). */
  datatype LocaleFile = LocaleFile(name: string, content: string, json: Option<Value>)

  predicate IsJson(f: LocaleFile) { EndsWith(f.name, ".json") }
  predicate IsYaml(f: LocaleFile) { EndsWith(f.name, ".yaml") }

  /** The tables after reading `files` in order into `translations`. A JSON
      file that does not parse ends the whole load; the tables read until
      then stay. Other file names are skipped. */
  function LoadAll(translations: map<string, Value>, files: seq<LocaleFile>): map<string, Value>
    decreases |files|
  {
    if files == [] then translations
    else
      var f := files[0];
      if IsJson(f) then
        if f.json.None? then translations
        else LoadAll(translations[LocaleOf(f.name) := f.json.value], files[1..])
      else if IsYaml(f) then
        LoadAll(translations[LocaleOf(f.name) := Obj(YamlObject(Split(f.content, '\n')))], files[1..])
      else LoadAll(translations, files[1..])
  }

  class I18nService {
    var translations: map<string, Value>

    /** The constructor loads the locale files. */
    constructor (files: seq<LocaleFile>)
      ensures translations == LoadAll(map[], files)
    {
      translations := map[];
      new;
      LoadTranslations(files);
    }

    /** The indentation stack after a matching line indented by `indent`: a
        deeper line pushes its indentation; a shallower one pops every level
        deeper than itself. The stack never runs empty, since its bottom is
        0, and its top ends up no deeper than the line. */
    static method Reindent(stack: seq<int>, indent: nat) returns (next: seq<int>)
      requires IndentStack(stack)
      ensures IndentStack(next)
      ensures next[|next| - 1] <= indent
      ensures indent > stack[|stack| - 1] ==> next == stack + [indent]
      ensures indent <= stack[|stack| - 1] ==> next <= stack && (next == stack || indent < stack[|next|])
    {
      next := stack;
      if indent > stack[|stack| - 1] {
        next := stack + [indent];
      } else if indent < stack[|stack| - 1] {
        while indent < next[|next| - 1]
          invariant IndentStack(next) && next <= stack
          invariant next == stack || indent < stack[|next|]
          decreases |next|
        {
          next := next[..|next| - 1];
        }
      }
    }

    /** The YAML reader's line loop. It keeps the indentation stack as the
        source does (the stack never runs empty), but every entry goes into
        the top-level object, because the current section is never moved. */
    static method ReadYaml(content: string) returns (obj: map<string, Value>)
      ensures obj == YamlObject(Split(content, '\n'))
    {
      var lines := Split(content, '\n');
      obj := map[];
      var indentStack: seq<int> := [0];
      var i := 0;
      while i < |lines|
        invariant 0 <= i <= |lines|
        invariant IndentStack(indentStack)
        invariant obj == YamlObject(lines[..i])
      {
        var entry;
        entry, indentStack := ReadLine(lines[i], indentStack);
        YamlObjectStep(lines, i, entry);
        if entry.Some? {
          obj := obj[entry.value.0 := entry.value.1];
        }
        i := i + 1;
      }
      assert lines[..|lines|] == lines;
    }

    /** One pass of the line loop: a blank or comment line is skipped; a
        line that matches `key: value` moves the indentation stack and
        yields its entry; any other line yields nothing. */
    static method ReadLine(line: string, stack: seq<int>) returns (entry: Option<(string, Value)>, next: seq<int>)
      requires IndentStack(stack)
      ensures entry == YamlEntry(line)
      ensures IndentStack(next)
      ensures entry.None? ==> next == stack
    {
      next := stack;
      entry := None;
      var trimmed := TrimEnd(line);
      if trimmed != [] && trimmed[0] != '#' {
        assert !IsSpace(line[|trimmed| - 1]);
        var indent := Indent(line);
        entry := YamlEntry(line);
        if entry.Some? {
          next := Reindent(stack, indent);
        }
      }
    }

    /** `loadTranslations`: reads each `.json` or `.yaml` file into the table
        of the locale its name starts with. */
    method LoadTranslations(files: seq<LocaleFile>)
      modifies this
      ensures translations == LoadAll(old(translations), files)
    {
      var i := 0;
      while i < |files|
        invariant 0 <= i <= |files|
        invariant LoadAll(translations, files[i..]) == LoadAll(old(translations), files)
      {
        var f := files[i];
        assert files[i..][1..] == files[i + 1..];
        if IsJson(f) || IsYaml(f) {
          var locale := LocaleOf(f.name);
          if IsJson(f) {
            if f.json.None? {
              return;
            }
            translations := translations[locale := f.json.value];
          } else {
            var obj := ReadYaml(f.content);
            translations := translations[locale := Obj(obj)];
          }
        }
        i := i + 1;
      }
    }

    /** `translate` on the loaded tables. */
    function TranslateLoaded(key: string, locale: string, params: map<string, string>): (r: string)
      reads this
      ensures r == Translate(translations, key, locale, params)
    {
      Translate(translations, key, locale, params)
    }

    /** `getAvailableLocales`: the locales loaded. */
    function AvailableLocales(): (r: set<string>)
      reads this
      ensures forall l :: l in r <==> l in translations
    {
      translations.Keys
    }
  }
}
