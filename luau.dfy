/** The Luau table writer: `to_lua_value` and `to_lua_table` of the Luau
    writer module, a pretty-printer from Python values to Luau source. */
module LuauWriter {
  import opened Common
  import opened Numerals

  /** A dictionary key: a string, or any other hashable value given by its `str`. */
  datatype Key = StrKey(name: string) | OtherKey(repr: string)

  /** The values the writer dispatches on, in the order it tests them. A
      float is kept as a real and rendered by a formatter standing for
      Python's `str` on floats; anything else is given by its `str`. */
  datatype Value =
    | Table(entries: seq<Entry>)
    | List(items: seq<Value>)
    | Str(s: string)
    | Bool(b: bool)
    | Int(i: int)
    | Float(x: real)
    | Other(repr: string)

  /** One key-value pair of a dictionary, in insertion order. */
  datatype Entry = Entry(key: Key, value: Value)

  predicate IsAsciiLetter(c: char) { 'a' <= c <= 'z' || 'A' <= c <= 'Z' }

  predicate IsIdentStart(c: char) { IsAsciiLetter(c) || c == '_' }

  predicate IsIdentChar(c: char) { IsIdentStart(c) || IsDigit(c) }

  /** `str.isidentifier`, restricted to ASCII. */
  predicate IsIdentifier(s: string)
  {
    |s| > 0 && IsIdentStart(s[0]) && forall i :: 1 <= i < |s| ==> IsIdentChar(s[i])
  }

  /** Double quotes around `s`, with no escaping. */
  function Quoted(s: string): string
  {
    "\"" + s + "\""
  }

  /** `str(k)`. */
  function KeyName(k: Key): string
  {
    match k
    case StrKey(name) => name
    case OtherKey(repr) => repr
  }

  /** A key as written in the table: bare when it is an identifier string,
      otherwise bracketed and quoted. */
  function KeyText(k: Key): string
  {
    if k.StrKey? && IsIdentifier(k.name) then k.name else "[" + Quoted(KeyName(k)) + "]"
  }

  /** `sep.join(parts)`. */
  function Join(parts: seq<string>, sep: string): string
  {
    if parts == [] then ""
    else if |parts| == 1 then parts[0]
    else Join(parts[..|parts| - 1], sep) + sep + parts[|parts| - 1]
  }

  /** `to_lua_value`, with `floatText` standing for `str` on floats. */
  function ToLuaValue(v: Value, floatText: real -> string): string
    decreases v, 1
  {
    match v
    case Table(entries) => ToLuaTable(entries, floatText)
    case List(items) => "{" + Join(RenderItems(items, floatText), ", ") + "}"
    case Str(s) => Quoted(s)
    case Bool(b) => if b then "true" else "false"
    case Int(i) => IntToString(i)
    case Float(x) => floatText(x)
    case Other(repr) => Quoted(repr)
  }

  /** The rendering of each list element, in order. */
  function RenderItems(items: seq<Value>, floatText: real -> string): seq<string>
    decreases items, 0
  {
    if items == [] then []
    else RenderItems(items[..|items| - 1], floatText) + [ToLuaValue(items[|items| - 1], floatText)]
  }

  /** The line `key = value,` of one entry. */
  function EntryLine(e: Entry, floatText: real -> string): string
    decreases e, 0
  {
    KeyText(e.key) + " = " + ToLuaValue(e.value, floatText) + ","
  }

  /** The `lines` that `to_lua_table` accumulates, one per entry. */
  function EntryLines(entries: seq<Entry>, floatText: real -> string): seq<string>
    decreases entries, 0
  {
    if entries == [] then []
    else EntryLines(entries[..|entries| - 1], floatText) + [EntryLine(entries[|entries| - 1], floatText)]
  }

  /** `to_lua_table`. */
  function ToLuaTable(entries: seq<Entry>, floatText: real -> string): string
    decreases entries, 1
  {
    "{\n  " + Join(EntryLines(entries, floatText), "\n  ") + "\n}"
  }

  /** The table wrapper: an opening brace line, the entry lines, a closing brace line. */
  lemma TableFrame(entries: seq<Entry>, floatText: real -> string)
    ensures var t := ToLuaTable(entries, floatText);
            |t| >= 6 && t[..4] == "{\n  " && t[|t| - 2..] == "\n}"
    ensures entries == [] ==> ToLuaTable(entries, floatText) == "{\n  \n}"
  {
    var t := ToLuaTable(entries, floatText);
    var body := Join(EntryLines(entries, floatText), "\n  ");
    assert t == "{\n  " + body + "\n}";
    assert t[..4] == "{\n  ";
    assert t[|t| - 2..] == "\n}";
  }

  /** `to_lua_table` writes exactly one line per entry, in insertion order. */
  lemma {:induction false} EntryLinesOnePerEntry(entries: seq<Entry>, floatText: real -> string)
    ensures |EntryLines(entries, floatText)| == |entries|
    ensures forall i :: 0 <= i < |entries| ==>
              EntryLines(entries, floatText)[i]
              == KeyText(entries[i].key) + " = " + ToLuaValue(entries[i].value, floatText) + ","
  {
    if entries != [] {
      EntryLinesOnePerEntry(entries[..|entries| - 1], floatText);
    }
  }

  /** A list's elements are rendered one by one, in order. */
  lemma {:induction false} ItemsRenderedInOrder(items: seq<Value>, floatText: real -> string)
    ensures |RenderItems(items, floatText)| == |items|
    ensures forall i :: 0 <= i < |items| ==> RenderItems(items, floatText)[i] == ToLuaValue(items[i], floatText)
  {
    if items != [] {
      ItemsRenderedInOrder(items[..|items| - 1], floatText);
    }
  }

  /** An empty list is `{}` and a one-element list is its element in braces. */
  lemma ListText(items: seq<Value>, floatText: real -> string)
    ensures items == [] ==> ToLuaValue(List(items), floatText) == "{}"
    ensures |items| == 1 ==> ToLuaValue(List(items), floatText) == "{" + ToLuaValue(items[0], floatText) + "}"
  {
    ItemsRenderedInOrder(items, floatText);
  }

  /** Strings, and values of unrecognised types through their `str`, are
      written between double quotes with their text copied verbatim. */
  lemma QuotedTextVerbatim(v: Value, floatText: real -> string)
    requires v.Str? || v.Other?
    ensures var t := ToLuaValue(v, floatText);
            var text := if v.Str? then v.s else v.repr;
            |t| == |text| + 2 && t[0] == '"' && t[|t| - 1] == '"' && t[1..|t| - 1] == text
  {
  }

  /** No escaping: a quote inside a string ends up bare inside the quotes. */
  lemma QuoteNotEscaped()
    ensures ToLuaValue(Str("a\"b"), x => "") == "\"a\"b\""
  {
  }

  /** A key is written bare exactly when it is a string that is an identifier. */
  lemma KeyBareIff(k: Key)
    ensures KeyText(k) == KeyName(k) <==> k.StrKey? && IsIdentifier(k.name)
  {
    if !(k.StrKey? && IsIdentifier(k.name)) {
      assert |KeyText(k)| == |KeyName(k)| + 4;
    }
  }

  /** Distinct string keys are written distinctly. */
  lemma KeyTextInjective(a: string, b: string)
    requires KeyText(StrKey(a)) == KeyText(StrKey(b))
    ensures a == b
  {
    var ta := KeyText(StrKey(a));
    if IsIdentifier(a) && !IsIdentifier(b) {
      BareNeverBracketed(a, b);
    } else if !IsIdentifier(a) && IsIdentifier(b) {
      BareNeverBracketed(b, a);
    } else if !IsIdentifier(a) {
      assert ta == "[\"" + a + "\"]";
      assert a == ta[2..|ta| - 2];
      assert b == ta[2..|ta| - 2];
    }
  }

  /** A bare key never looks like a bracketed one: it cannot start with `[`. */
  lemma BareNeverBracketed(x: string, y: string)
    ensures IsIdentifier(x) ==> x != "[" + Quoted(y) + "]"
  {
  }

  /** A string key and a non-string key with the same `str` are written alike:
      the integer key 1 and the string key "1" both become `["1"]`. */
  lemma KeyTextConflatesStr()
    ensures KeyText(StrKey("1")) == KeyText(OtherKey("1")) == "[\"1\"]"
  {
    assert !IsIdentStart('1');
  }

  /** An integer is written as a numeral that reads back as the integer. */
  lemma IntTextRoundTrip(i: int, floatText: real -> string)
    ensures ParseInt(ToLuaValue(Int(i), floatText)) == Some(i)
  {
    IntToStringRoundTrip(i);
  }

  /** A boolean is written `true`/`false` and never like an integer. */
  lemma BoolNeverNumeral(b: bool, i: int, floatText: real -> string)
    ensures ToLuaValue(Bool(b), floatText) == (if b then "true" else "false")
    ensures ToLuaValue(Bool(b), floatText) != ToLuaValue(Int(i), floatText)
  {
    IntToStringRoundTrip(i);
    assert !IsDigit('t') && !IsDigit('f');
  }

  /** The keys of the extractor's result record. */
  const ResultKeys: seq<string> :=
    ["beats", "notes", "tempo", "duration", "skipBeats", "ignoreFirstXBeats", "ignoreLastXBeats"]

  /** Every key of the result record is an identifier, so each is written bare. */
  lemma ResultKeysBare()
    ensures forall i :: 0 <= i < |ResultKeys| ==> KeyText(StrKey(ResultKeys[i])) == ResultKeys[i]
  {
    forall i | 0 <= i < |ResultKeys| ensures IsIdentifier(ResultKeys[i]) {
      var k := ResultKeys[i];
      assert forall j :: 0 <= j < |k| ==> IsAsciiLetter(k[j]);
    }
  }

  // Line structure

  /** `s.split("\n")`: the pieces between newlines, at least one. */
  function SplitLines(s: string): (r: seq<string>)
    ensures |r| > 0
  {
    if s == [] then [""]
    else
      var init, c := s[..|s| - 1], s[|s| - 1];
      var p := SplitLines(init);
      if c == '\n' then p + [""] else p[..|p| - 1] + [p[|p| - 1] + [c]]
  }

  /** Each line indented by two spaces. */
  function Indented(lines: seq<string>): (r: seq<string>)
    ensures |r| == |lines|
  {
    seq(|lines|, i requires 0 <= i < |lines| => "  " + lines[i])
  }

  lemma {:induction false} SplitNoNewline(x: string)
    requires '\n' !in x
    ensures SplitLines(x) == [x]
  {
    if x != [] {
      var init := x[..|x| - 1];
      assert '\n' !in init;
      SplitNoNewline(init);
      assert init + [x[|x| - 1]] == x;
    }
  }

  lemma SplitSnoc(s: string, c: char)
    ensures var p := SplitLines(s);
            SplitLines(s + [c]) == if c == '\n' then p + [""] else p[..|p| - 1] + [p[|p| - 1] + [c]]
  {
    assert (s + [c])[..|s|] == s;
  }

  /** Splitting at a joining newline splits each side separately. */
  lemma {:induction false} SplitAtNewline(a: string, b: string)
    ensures SplitLines(a + "\n" + b) == SplitLines(a) + SplitLines(b)
  {
    if b == [] {
      assert a + "\n" + b == a + ['\n'];
      SplitSnoc(a, '\n');
    } else {
      var init, c := b[..|b| - 1], b[|b| - 1];
      SplitAtNewline(a, init);
      assert b == init + [c];
      SplitAtNewlineStep(a, init, c);
    }
  }

  lemma SplitAtNewlineStep(a: string, init: string, c: char)
    requires SplitLines(a + "\n" + init) == SplitLines(a) + SplitLines(init)
    ensures SplitLines(a + "\n" + (init + [c])) == SplitLines(a) + SplitLines(init + [c])
  {
    var s0 := a + "\n" + init;
    assert a + "\n" + (init + [c]) == s0 + [c];
    var p, q := SplitLines(a), SplitLines(init);
    var pq := SplitLines(s0);
    assert pq == p + q;
    SplitSnoc(s0, c);
    SplitSnoc(init, c);
    ExtendLastLine(p, q, c);
    if c == '\n' {
      assert SplitLines(s0 + [c]) == pq + [""];
      assert SplitLines(init + [c]) == q + [""];
    } else {
      assert SplitLines(s0 + [c]) == pq[..|pq| - 1] + [pq[|pq| - 1] + [c]];
      assert SplitLines(init + [c]) == q[..|q| - 1] + [q[|q| - 1] + [c]];
    }
  }

  /** Appending a character to the last of the lines `p + q` appends it to the last of `q`. */
  lemma ExtendLastLine(p: seq<string>, q: seq<string>, c: char)
    requires |q| > 0
    ensures var pq := p + q;
            && pq + [""] == p + (q + [""])
            && pq[..|pq| - 1] + [pq[|pq| - 1] + [c]] == p + (q[..|q| - 1] + [q[|q| - 1] + [c]])
  {
    var pq := p + q;
    assert pq[..|pq| - 1] == p + q[..|q| - 1];
  }

  lemma IndentedSnoc(lines: seq<string>)
    requires |lines| > 0
    ensures Indented(lines) == Indented(lines[..|lines| - 1]) + ["  " + lines[|lines| - 1]]
  {
    var init := lines[..|lines| - 1];
    var r := Indented(init) + ["  " + lines[|lines| - 1]];
    forall i | 0 <= i < |lines| ensures Indented(lines)[i] == r[i] {
      if i < |init| {
        assert r[i] == Indented(init)[i] == "  " + init[i];
      }
    }
  }

  /** The entry lines joined with a newline and indent read back as the indented lines. */
  lemma {:induction false} SplitJoinedLines(lines: seq<string>)
    requires |lines| > 0
    requires forall i :: 0 <= i < |lines| ==> '\n' !in lines[i]
    ensures SplitLines("  " + Join(lines, "\n  ")) == Indented(lines)
  {
    var last := lines[|lines| - 1];
    assert '\n' !in "  " + last;
    SplitNoNewline("  " + last);
    if |lines| > 1 {
      var init := lines[..|lines| - 1];
      SplitJoinedLines(init);
      var j := Join(init, "\n  ");
      assert Join(lines, "\n  ") == j + "\n  " + last;
      assert "\n  " == "\n" + "  ";
      assert "  " + (j + ("\n" + "  ") + last) == ("  " + j) + "\n" + ("  " + last);
      SplitAtNewline("  " + j, "  " + last);
      IndentedSnoc(lines);
    }
  }

  /** The frame of a table around any body text, read line by line. */
  lemma SplitFrame(j: string)
    ensures SplitLines("{\n  " + j + "\n}") == ["{"] + SplitLines("  " + j) + ["}"]
  {
    assert "{\n  " + j + "\n}" == "{" + "\n" + ("  " + j) + "\n" + "}";
    SplitAtNewline("{" + "\n" + ("  " + j), "}");
    SplitAtNewline("{", "  " + j);
    SplitNoNewline("{");
    SplitNoNewline("}");
  }

  /** Read line by line, a table whose entry lines hold no newline (no nested
      table and no newline in a string) is an opening brace, one indented
      `key = value,` line per entry in order, and a closing brace. */
  lemma TableLines(entries: seq<Entry>, floatText: real -> string)
    requires entries != []
    requires forall i :: 0 <= i < |entries| ==> '\n' !in EntryLine(entries[i], floatText)
    ensures SplitLines(ToLuaTable(entries, floatText))
            == ["{"] + Indented(EntryLines(entries, floatText)) + ["}"]
  {
    var lines := EntryLines(entries, floatText);
    EntryLinesOnePerEntry(entries, floatText);
    SplitFrame(Join(lines, "\n  "));
    SplitJoinedLines(lines);
  }

  /** The lines of the empty table: braces around one indented empty line. */
  lemma EmptyTableSplit(floatText: real -> string)
    ensures SplitLines(ToLuaTable([], floatText)) == ["{", "  ", "}"]
  {
    var lines := EntryLines([], floatText);
    assert lines == [];
    var body := Join(lines, "\n  ");
    assert body == "";
    assert ToLuaTable([], floatText) == "{\n  " + body + "\n}";
    SplitFrame(body);
    assert "  " + body == "  ";
    SplitNoNewline("  ");
  }

  // Brace balance

  /** Occurrences of `c` in `s`. */
  function Count(s: string, c: char): nat
  {
    if s == [] then 0 else Count(s[..|s| - 1], c) + (if s[|s| - 1] == c then 1 else 0)
  }

  lemma {:induction false} CountAppend(a: string, b: string, c: char)
    ensures Count(a + b, c) == Count(a, c) + Count(b, c)
  {
    if b != [] {
      var init, last := b[..|b| - 1], b[|b| - 1];
      CountAppend(a, init, c);
      assert a + b == (a + init) + [last];
      assert (a + init + [last])[..|a + init|] == a + init;
      assert b[..|b| - 1] == init;
    } else {
      assert a + b == a;
    }
  }

  lemma {:induction false} CountAbsent(s: string, c: char)
    requires c !in s
    ensures Count(s, c) == 0
  {
    if s != [] {
      assert c !in s[..|s| - 1];
      CountAbsent(s[..|s| - 1], c);
    }
  }

  predicate NoBraces(s: string) { '{' !in s && '}' !in s }

  /** As many opening as closing braces. */
  predicate Balanced(s: string) { Count(s, '{') == Count(s, '}') }

  lemma BalancedAppend(a: string, b: string)
    requires Balanced(a) && Balanced(b)
    ensures Balanced(a + b)
  {
    CountAppend(a, b, '{');
    CountAppend(a, b, '}');
  }

  lemma NoBracesBalanced(s: string)
    requires NoBraces(s)
    ensures Balanced(s)
  {
    CountAbsent(s, '{');
    CountAbsent(s, '}');
  }

  lemma {:induction false} JoinBalanced(parts: seq<string>, sep: string)
    requires Balanced(sep)
    requires forall i :: 0 <= i < |parts| ==> Balanced(parts[i])
    ensures Balanced(Join(parts, sep))
  {
    if |parts| > 1 {
      JoinBalanced(parts[..|parts| - 1], sep);
      BalancedAppend(Join(parts[..|parts| - 1], sep), sep);
      BalancedAppend(Join(parts[..|parts| - 1], sep) + sep, parts[|parts| - 1]);
    } else if parts == [] {
      NoBracesBalanced("");
    }
  }

  /** No string, key, `str` text or float text inside `v` contains a brace. */
  predicate BraceFree(v: Value, floatText: real -> string)
    decreases v
  {
    match v
    case Table(entries) =>
      forall i :: 0 <= i < |entries| ==>
        NoBraces(KeyName(entries[i].key)) && BraceFree(entries[i].value, floatText)
    case List(items) => forall i :: 0 <= i < |items| ==> BraceFree(items[i], floatText)
    case Str(s) => NoBraces(s)
    case Bool(_) => true
    case Int(_) => true
    case Float(x) => NoBraces(floatText(x))
    case Other(repr) => NoBraces(repr)
  }

  /** Every brace the writer emits is closed: on brace-free data the text has
      as many opening as closing braces. */
  lemma {:induction false} ValueBalanced(v: Value, floatText: real -> string)
    requires BraceFree(v, floatText)
    ensures Balanced(ToLuaValue(v, floatText))
    decreases v, 1
  {
    match v
    case Table(entries) => TableBalanced(entries, floatText);
    case List(items) => ListBalanced(items, floatText);
    case Str(s) => QuotedBalanced(s);
    case Bool(b) => NoBracesBalanced(if b then "true" else "false");
    case Int(i) =>
      var t := IntToString(i);
      assert forall j :: 0 <= j < |t| ==> t[j] == '-' || IsDigit(t[j]);
      NoBracesBalanced(t);
    case Float(x) => NoBracesBalanced(floatText(x));
    case Other(repr) => QuotedBalanced(repr);
  }

  lemma QuotedBalanced(s: string)
    requires NoBraces(s)
    ensures Balanced(Quoted(s))
  {
    assert NoBraces(Quoted(s));
    NoBracesBalanced(Quoted(s));
  }

  lemma {:induction false} TableBalanced(entries: seq<Entry>, floatText: real -> string)
    requires forall i :: 0 <= i < |entries| ==>
               NoBraces(KeyName(entries[i].key)) && BraceFree(entries[i].value, floatText)
    ensures Balanced(ToLuaTable(entries, floatText))
    decreases entries, 0
  {
    var lines := EntryLines(entries, floatText);
    EntryLinesOnePerEntry(entries, floatText);
    forall i | 0 <= i < |lines| ensures Balanced(lines[i]) {
      EntryLineBalanced(entries[i], floatText);
    }
    NoBracesBalanced("\n  ");
    JoinBalanced(lines, "\n  ");
    var body := Join(lines, "\n  ");
    InBraces("\n  ", body, "\n");
    assert "{" + "\n  " + body + "\n" + "}" == ToLuaTable(entries, floatText);
  }

  lemma {:induction false} ListBalanced(items: seq<Value>, floatText: real -> string)
    requires forall i :: 0 <= i < |items| ==> BraceFree(items[i], floatText)
    ensures Balanced(ToLuaValue(List(items), floatText))
    decreases items, 0
  {
    var parts := RenderItems(items, floatText);
    ItemsRenderedInOrder(items, floatText);
    forall i | 0 <= i < |parts| ensures Balanced(parts[i]) {
      ValueBalanced(items[i], floatText);
    }
    NoBracesBalanced(", ");
    JoinBalanced(parts, ", ");
    var body := Join(parts, ", ");
    InBraces("", body, "");
    assert "{" + "" + body + "" + "}" == ToLuaValue(List(items), floatText);
  }

  lemma {:induction false} EntryLineBalanced(e: Entry, floatText: real -> string)
    requires NoBraces(KeyName(e.key)) && BraceFree(e.value, floatText)
    ensures Balanced(EntryLine(e, floatText))
    decreases e
  {
    var key := KeyText(e.key);
    assert NoBraces(key);
    NoBracesBalanced(key);
    NoBracesBalanced(" = ");
    NoBracesBalanced(",");
    ValueBalanced(e.value, floatText);
    BalancedAppend(key, " = ");
    BalancedAppend(key + " = ", ToLuaValue(e.value, floatText));
    BalancedAppend(key + " = " + ToLuaValue(e.value, floatText), ",");
  }

  /** Balanced text between brace-free padding, wrapped in one pair of braces, stays balanced. */
  lemma InBraces(pre: string, body: string, post: string)
    requires Balanced(body) && NoBraces(pre) && NoBraces(post)
    ensures Balanced("{" + pre + body + post + "}")
  {
    NoBracesBalanced(pre);
    NoBracesBalanced(post);
    BalancedAppend(pre, body);
    BalancedAppend(pre + body, post);
    var inner := pre + body + post;
    CountAppend("{", inner, '{');
    CountAppend("{", inner, '}');
    CountAppend("{" + inner, "}", '{');
    CountAppend("{" + inner, "}", '}');
    assert "{" + inner + "}" == "{" + pre + body + post + "}";
  }
}
