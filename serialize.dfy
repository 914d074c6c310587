/** The private serialisers of `AE.Bridge`: `rubify` writes a JavaScript value
    as Ruby source text, `stringify` as JSON-like text. Both escape strings
    with the same chain of four replacements. */
module Serialize {
  import opened Common

  /** The JavaScript values the serialisers distinguish. Object entries are
      listed in `for ... in` order; numbers are doubles. */
  datatype JsValue =
    | Undefined
    | Null
    | Bool(b: bool)
    | Number(n: Float)
    | Str(s: string)
    | Arr(items: seq<JsValue>)
    | Obj(entries: seq<(string, JsValue)>)
    | Function

  // ---------------------------------------------------------------------------
  // String escaping
  // ---------------------------------------------------------------------------

  /** `s.replace(/c/g, "\\" + c)`: a backslash before every `c`. */
  function PrefixAll(s: string, c: char): string
  {
    if s == [] then [] else (if s[0] == c then ['\\', c] else [s[0]]) + PrefixAll(s[1..], c)
  }

  /** The chain as written: backslashes first, then double quotes, single
      quotes and `#`. */
  function Escape(s: string): string
  {
    PrefixAll(PrefixAll(PrefixAll(PrefixAll(s, '\\'), '"'), '\''), '#')
  }

  /** The characters that get a backslash. */
  predicate IsEscaped(c: char)
  {
    c == '\\' || c == '"' || c == '\'' || c == '#'
  }

  /** A single left-to-right pass that puts a backslash before each of the
      four characters. */
  function EscapeOnce(s: string): string
  {
    if s == [] then [] else (if IsEscaped(s[0]) then ['\\', s[0]] else [s[0]]) + EscapeOnce(s[1..])
  }

  lemma {:induction false} PrefixAllAppend(a: string, b: string, c: char)
    ensures PrefixAll(a + b, c) == PrefixAll(a, c) + PrefixAll(b, c)
  {
    if a == [] {
      assert a + b == b;
    } else {
      assert (a + b)[0] == a[0] && (a + b)[1..] == a[1..] + b;
      PrefixAllAppend(a[1..], b, c);
    }
  }

  lemma EscapeAppend(a: string, b: string)
    ensures Escape(a + b) == Escape(a) + Escape(b)
  {
    var p1a, p1b := PrefixAll(a, '\\'), PrefixAll(b, '\\');
    PrefixAllAppend(a, b, '\\');
    var p2a, p2b := PrefixAll(p1a, '"'), PrefixAll(p1b, '"');
    PrefixAllAppend(p1a, p1b, '"');
    var p3a, p3b := PrefixAll(p2a, '\''), PrefixAll(p2b, '\'');
    PrefixAllAppend(p2a, p2b, '\'');
    PrefixAllAppend(p3a, p3b, '#');
  }

  lemma {:induction false} PrefixAllAbsent(s: string, c: char)
    requires c !in s
    ensures PrefixAll(s, c) == s
  {
    if s != [] {
      assert s[1..] == s[1..];
      assert s[0] != c;
      PrefixAllAbsent(s[1..], c);
    }
  }

  lemma PrefixAllSingle(c: char, x: char)
    ensures PrefixAll([c], x) == if c == x then ['\\', x] else [c]
  {
    assert [c][1..] == [];
  }

  /** The chain on one character. */
  lemma EscapeChar(c: char)
    ensures Escape([c]) == if IsEscaped(c) then ['\\', c] else [c]
  {
    PrefixAllSingle(c, '\\');
    var p1 := PrefixAll([c], '\\');
    if c == '"' {
      PrefixAllSingle(c, '"');
    } else {
      PrefixAllAbsent(p1, '"');
    }
    var p2 := PrefixAll(p1, '"');
    if c == '\'' {
      PrefixAllSingle(c, '\'');
    } else {
      PrefixAllAbsent(p2, '\'');
    }
    var p3 := PrefixAll(p2, '\'');
    if c == '#' {
      PrefixAllSingle(c, '#');
    } else {
      PrefixAllAbsent(p3, '#');
    }
  }

  /** Because backslashes are escaped first, the four passes never escape a
      backslash another pass inserted: the chain is a single pass. */
  lemma {:induction false} EscapeIsOnePass(s: string)
    ensures Escape(s) == EscapeOnce(s)
  {
    if s != [] {
      assert s == [s[0]] + s[1..];
      EscapeAppend([s[0]], s[1..]);
      EscapeChar(s[0]);
      EscapeIsOnePass(s[1..]);
    }
  }

  /** How Ruby reads the characters between the quotes of a double-quoted
      literal that only uses the four escapes. */
  function Unescape(e: string): string
  {
    if e == [] then []
    else if e[0] == '\\' && |e| >= 2 && IsEscaped(e[1]) then [e[1]] + Unescape(e[2..])
    else [e[0]] + Unescape(e[1..])
  }

  lemma {:induction false} UnescapeEscapeOnce(s: string)
    ensures Unescape(EscapeOnce(s)) == s
  {
    if s != [] {
      UnescapeEscapeOnce(s[1..]);
      var e := EscapeOnce(s);
      if IsEscaped(s[0]) {
        assert e[2..] == EscapeOnce(s[1..]);
      } else {
        assert e[1..] == EscapeOnce(s[1..]);
      }
    }
  }

  /** Ruby reads the escaped text back as the original string. */
  lemma EscapeRoundTrip(s: string)
    ensures Unescape(Escape(s)) == s
  {
    EscapeIsOnePass(s);
    UnescapeEscapeOnce(s);
  }

  /** The characters between the quotes end no literal and start no
      interpolation: every `"` and `#` has a backslash before it. */
  lemma {:induction false} EscapedQuotesArePrefixed(s: string)
    ensures forall k :: 0 <= k < |EscapeOnce(s)| && (EscapeOnce(s)[k] == '"' || EscapeOnce(s)[k] == '#') ==>
      k > 0 && EscapeOnce(s)[k - 1] == '\\'
  {
    if s != [] {
      EscapedQuotesArePrefixed(s[1..]);
      var head := if IsEscaped(s[0]) then ['\\', s[0]] else [s[0]];
      assert EscapeOnce(s) == head + EscapeOnce(s[1..]);
    }
  }

  // ---------------------------------------------------------------------------
  // rubify
  // ---------------------------------------------------------------------------

  /** `/^[a-zA-Z\_]+[\!\?\=]?$/`: letters and underscores, optionally ended by
      one of `!`, `?`, `=`. */
  predicate IsSymbolName(e: string)
  {
    var body := if |e| >= 2 && (e[|e| - 1] == '!' || e[|e| - 1] == '?' || e[|e| - 1] == '=') then e[..|e| - 1] else e;
    |body| >= 1 && forall k :: 0 <= k < |body| ==> ('a' <= body[k] <= 'z') || ('A' <= body[k] <= 'Z') || body[k] == '_'
  }

  /** `'"' + escaped + '"'`. */
  function Quoted(s: string): string
  {
    "\"" + Escape(s) + "\""
  }

  /** `rubify(object)`. `typeof object === 'null'` is never true, so `null`
      falls through every branch and gives the empty string, as a function
      does; `numberText` is `String(x)` for a finite number. */
  function Rubify(v: JsValue, numberText: real -> string): (r: string)
    ensures v.Undefined? ==> r == "nil"
    ensures v.Null? || v.Function? ==> r == ""
    ensures v.Str? ==> r == Quoted(v.s)
    ensures v.Number? && v.n.NaN? ==> r == "0.0/0.0"
    ensures v.Number? && v.n.Infinity? ==> r == if v.n.positive then "1.0/0.0" else "-1.0/0.0"
    ensures v.Arr? || v.Obj? ==> |r| >= 2
    ensures v.Arr? ==> r[0] == '[' && r[|r| - 1] == ']'
    ensures v.Obj? ==> r[0] == '{' && r[|r| - 1] == '}'
    decreases v, 1
  {
    match v
    case Undefined => "nil"
    case Null => ""
    case Function => ""
    case Bool(b) => if b then "true" else "false"
    case Number(n) =>
      (match n
       case NaN => "0.0/0.0"
       case Infinity(positive) => if positive then "1.0/0.0" else "-1.0/0.0"
       case Finite(x) => numberText(x))
    case Str(s) => Quoted(s)
    case Arr(items) => "[" + Join(RubifyItems(items, numberText), ", ") + "]"
    case Obj(entries) => "{" + Join(RubifyEntries(entries, numberText), ", ") + "}"
  }

  /** The array loop: elements that render as the empty string are dropped. */
  function RubifyItems(items: seq<JsValue>, numberText: real -> string): (r: seq<string>)
    ensures forall k :: 0 <= k < |r| ==> r[k] != ""
    ensures |r| <= |items|
    decreases items, 0
  {
    if items == [] then []
    else
      var first := Rubify(items[0], numberText);
      (if first != "" then [first] else []) + RubifyItems(items[1..], numberText)
  }

  /** The object loop: a key matching the symbol pattern becomes `:key`,
      another key `:"key"`; entries whose value renders empty are dropped. */
  function RubifyEntries(entries: seq<(string, JsValue)>, numberText: real -> string): (r: seq<string>)
    ensures |r| <= |entries|
    decreases entries, 0
  {
    if entries == [] then []
    else
      var entry := entries[0];
      assert entry in entries && entry.1 < entry;
      var key := ":" + (if IsSymbolName(entry.0) then entry.0 else Quoted(entry.0));
      var value := Rubify(entry.1, numberText);
      (if value != "" then [key + " => " + value] else []) + RubifyEntries(entries[1..], numberText)
  }

  /** Ruby reads the text `rubify` writes for a string back as that string. */
  lemma RubifyStringReadsBack(s: string, numberText: real -> string)
    ensures var r := Rubify(Str(s), numberText);
      |r| >= 2 && r[0] == '"' && r[|r| - 1] == '"' && Unescape(r[1..|r| - 1]) == s
  {
    var r := Rubify(Str(s), numberText);
    assert r[1..|r| - 1] == Escape(s);
    EscapeRoundTrip(s);
  }

  /** `null` and functions inside an array vanish from its rendering. */
  lemma RubifyDropsNull(items: seq<JsValue>, numberText: real -> string)
    ensures Rubify(Arr([Null] + items), numberText) == Rubify(Arr(items), numberText)
    ensures Rubify(Arr([Function] + items), numberText) == Rubify(Arr(items), numberText)
  {
    assert ([Null] + items)[1..] == items;
    assert RubifyItems([Null] + items, numberText) == RubifyItems(items, numberText);
    assert ([Function] + items)[1..] == items;
    assert RubifyItems([Function] + items, numberText) == RubifyItems(items, numberText);
  }

  /** A one-entry hash: a symbol-like key is written `:key`, any other key as
      a quoted symbol. */
  lemma RubifyKey(key: string, value: JsValue, numberText: real -> string)
    requires Rubify(value, numberText) != ""
    ensures IsSymbolName(key) ==>
      Rubify(Obj([(key, value)]), numberText) == "{" + (":" + key + " => " + Rubify(value, numberText)) + "}"
    ensures !IsSymbolName(key) ==>
      Rubify(Obj([(key, value)]), numberText) == "{" + (":" + Quoted(key) + " => " + Rubify(value, numberText)) + "}"
  {
    var entries := [(key, value)];
    var v := Rubify(value, numberText);
    assert entries[1..] == [];
    var line := ":" + (if IsSymbolName(key) then key else Quoted(key)) + " => " + v;
    assert RubifyEntries(entries, numberText) == [line];
    assert Join([line], ", ") == line;
  }

  // ---------------------------------------------------------------------------
  // stringify
  // ---------------------------------------------------------------------------

  /** `stringify(object)`; None stands for `undefined`. `typeof null` is
      "object", so `null` takes the object branch and has no keys: "{}". */
  function Stringify(v: JsValue, numberText: real -> string): (r: Option<string>)
    ensures r.None? <==> v.Undefined? || v.Function?
    ensures v.Null? ==> r == Some("{}")
    ensures v.Str? ==> r == Some(Quoted(v.s))
    decreases v, 1
  {
    match v
    case Undefined => None
    case Function => None
    case Null => Some("{}")
    case Bool(b) => Some(if b then "true" else "false")
    case Number(n) =>
      Some(match n
           case NaN => "NaN"
           case Infinity(positive) => if positive then "Infinity" else "-Infinity"
           case Finite(x) => numberText(x))
    case Str(s) => Some(Quoted(s))
    case Arr(items) => Some("[" + Join(StringifyItems(items, numberText), ", ") + "]")
    case Obj(entries) => Some("{" + Join(StringifyEntries(entries, numberText), ", ") + "}")
  }

  /** The array loop: undefined (and empty) renderings are dropped. */
  function StringifyItems(items: seq<JsValue>, numberText: real -> string): (r: seq<string>)
    ensures forall k :: 0 <= k < |r| ==> r[k] != ""
    ensures |r| <= |items|
    decreases items, 0
  {
    if items == [] then []
    else
      var first := Stringify(items[0], numberText);
      (if first.Some? && first.value != "" then [first.value] else []) + StringifyItems(items[1..], numberText)
  }

  /** The object loop: the key is stringified as a string, `key: value`. */
  function StringifyEntries(entries: seq<(string, JsValue)>, numberText: real -> string): (r: seq<string>)
    ensures |r| <= |entries|
    decreases entries, 0
  {
    if entries == [] then []
    else
      var entry := entries[0];
      assert entry in entries && entry.1 < entry;
      var value := Stringify(entry.1, numberText);
      (if value.Some? && value.value != "" then [Quoted(entry.0) + ": " + value.value] else [])
        + StringifyEntries(entries[1..], numberText)
  }

  /** `undefined` and functions vanish from a stringified array; `null` is kept as "{}". */
  lemma StringifyDropsUndefined(items: seq<JsValue>, numberText: real -> string)
    ensures Stringify(Arr([Undefined] + items), numberText) == Stringify(Arr(items), numberText)
    ensures Stringify(Arr([Null]), numberText) == Some("[{}]")
  {
    assert ([Undefined] + items)[1..] == items;
    assert StringifyItems([Undefined] + items, numberText) == StringifyItems(items, numberText);
    assert [Null][1..] == [];
    assert Stringify(Null, numberText) == Some("{}");
    assert StringifyItems([Null], numberText) == ["{}"] + StringifyItems([], numberText);
    assert Join(["{}"], ", ") == "{}";
    assert Stringify(Arr([Null]), numberText) == Some("[" + "{}" + "]");
    assert "[" + "{}" + "]" == "[{}]";
  }
}
