/** The second copy of the Luau writer, in the Essentia export script. It
    differs from the first in one place: it asks every key whether it is an
    identifier without first checking that the key is a string, so a
    non-string key raises an error instead of being bracketed. A rendering
    that raises is `None` here. */
module ExtractData {
  import opened Common
  import opened Numerals
  import opened LuauWriter

  /** The key of one line, or `None` when the key is not a string. */
  function ExportKeyText(k: Key): Option<string>
  {
    match k
    case StrKey(name) => Some(if IsIdentifier(name) then name else "[" + Quoted(name) + "]")
    case OtherKey(_) => None
  }

  /** `to_lua_value` of the export script. */
  function ExportValue(v: Value, floatText: real -> string): Option<string>
    decreases v, 1
  {
    match v
    case Table(entries) => ExportTable(entries, floatText)
    case List(items) =>
      (match ExportItems(items, floatText)
       case Some(parts) => Some("{" + Join(parts, ", ") + "}")
       case None => None)
    case Str(s) => Some(Quoted(s))
    case Bool(b) => Some(if b then "true" else "false")
    case Int(i) => Some(IntToString(i))
    case Float(x) => Some(floatText(x))
    case Other(repr) => Some(Quoted(repr))
  }

  function ExportItems(items: seq<Value>, floatText: real -> string): Option<seq<string>>
    decreases items, 0
  {
    if items == [] then Some([])
    else
      match (ExportItems(items[..|items| - 1], floatText), ExportValue(items[|items| - 1], floatText))
      case (Some(parts), Some(last)) => Some(parts + [last])
      case _ => None
  }

  function ExportLine(e: Entry, floatText: real -> string): Option<string>
    decreases e, 0
  {
    match (ExportKeyText(e.key), ExportValue(e.value, floatText))
    case (Some(key), Some(value)) => Some(key + " = " + value + ",")
    case _ => None
  }

  function ExportLines(entries: seq<Entry>, floatText: real -> string): Option<seq<string>>
    decreases entries, 0
  {
    if entries == [] then Some([])
    else
      match (ExportLines(entries[..|entries| - 1], floatText), ExportLine(entries[|entries| - 1], floatText))
      case (Some(lines), Some(line)) => Some(lines + [line])
      case _ => None
  }

  /** `to_lua_table` of the export script. */
  function ExportTable(entries: seq<Entry>, floatText: real -> string): Option<string>
    decreases entries, 1
  {
    match ExportLines(entries, floatText)
    case Some(lines) => Some("{\n  " + Join(lines, "\n  ") + "\n}")
    case None => None
  }

  /** Every dictionary key inside `v`, at any depth, is a string. */
  predicate StringKeysOnly(v: Value)
    decreases v, 1
  {
    match v
    case Table(entries) => StringKeyed(entries)
    case List(items) => AllStringKeysOnly(items)
    case _ => true
  }

  /** Every key of these entries, and of the values below them, is a string. */
  predicate StringKeyed(entries: seq<Entry>)
    decreases entries, 0
  {
    forall i :: 0 <= i < |entries| ==> EntryStringKeyed(entries[i])
  }

  predicate EntryStringKeyed(e: Entry)
    decreases e, 0
  {
    e.key.StrKey? && StringKeysOnly(e.value)
  }

  predicate AllStringKeysOnly(items: seq<Value>)
    decreases items, 0
  {
    forall i :: 0 <= i < |items| ==> StringKeysOnly(items[i])
  }

  /** The two writers agree wherever the export script does not fail, and
      it fails exactly on data holding a non-string key. */
  lemma {:induction false} ExportAgrees(v: Value, floatText: real -> string)
    ensures ExportValue(v, floatText) ==
            (if StringKeysOnly(v) then Some(ToLuaValue(v, floatText)) else None)
    decreases v, 1
  {
    match v
    case Table(entries) =>
      ExportLinesAgree(entries, floatText);
    case List(items) =>
      ExportItemsAgree(items, floatText);
    case _ =>
  }

  lemma {:induction false} ExportItemsAgree(items: seq<Value>, floatText: real -> string)
    ensures ExportItems(items, floatText) ==
            (if AllStringKeysOnly(items) then Some(RenderItems(items, floatText)) else None)
    decreases items, 0
  {
    if items != [] {
      var init, last := items[..|items| - 1], items[|items| - 1];
      ExportItemsAgree(init, floatText);
      ExportAgrees(last, floatText);
      assert AllStringKeysOnly(items) <==> AllStringKeysOnly(init) && StringKeysOnly(last) by {
        assert forall i :: 0 <= i < |init| ==> init[i] == items[i];
      }
    }
  }

  lemma {:induction false} ExportLinesAgree(entries: seq<Entry>, floatText: real -> string)
    ensures ExportLines(entries, floatText) ==
            (if StringKeyed(entries) then Some(EntryLines(entries, floatText)) else None)
    decreases entries, 0
  {
    if entries != [] {
      var init, last := entries[..|entries| - 1], entries[|entries| - 1];
      ExportLinesAgree(init, floatText);
      ExportLineAgrees(entries[|entries| - 1], floatText);
      StringKeyedSnoc(entries);
    }
  }

  lemma StringKeyedSnoc(entries: seq<Entry>)
    requires entries != []
    ensures var init, last := entries[..|entries| - 1], entries[|entries| - 1];
            StringKeyed(entries) <==> StringKeyed(init) && EntryStringKeyed(last)
  {
    var init := entries[..|entries| - 1];
    assert forall i :: 0 <= i < |init| ==> init[i] == entries[i];
  }

  lemma {:induction false} ExportLineAgrees(e: Entry, floatText: real -> string)
    ensures ExportLine(e, floatText) ==
            (if EntryStringKeyed(e) then Some(EntryLine(e, floatText)) else None)
    decreases e, 0
  {
    ExportAgrees(e.value, floatText);
  }

  /** The export script's table has the same frame and lines as the Luau writer's. */
  lemma ExportTableAgrees(entries: seq<Entry>, floatText: real -> string)
    requires StringKeyed(entries)
    ensures ExportTable(entries, floatText) == Some(ToLuaTable(entries, floatText))
  {
    ExportLinesAgree(entries, floatText);
  }

  /** A string key is written bare exactly when it is an identifier, as in the Luau writer. */
  lemma ExportKeyBareIff(name: string)
    ensures ExportKeyText(StrKey(name)) == Some(KeyText(StrKey(name)))
    ensures ExportKeyText(StrKey(name)) == Some(name) <==> IsIdentifier(name)
  {
    if !IsIdentifier(name) {
      assert |"[" + Quoted(name) + "]"| == |name| + 4;
    }
  }

  /** A dotted descriptor name is not an identifier, so it is bracketed. */
  lemma DottedNameBracketed()
    ensures ExportKeyText(StrKey("lowlevel.x")) == Some("[\"lowlevel.x\"]")
  {
    var name := "lowlevel.x";
    assert !IsIdentChar(name[8]);
    assert !IsIdentifier(name);
    assert "[" + Quoted(name) + "]" == "[\"lowlevel.x\"]";
  }

  /** A non-string key makes the export script fail. */
  lemma NonStringKeyFails(repr: string, v: Value, floatText: real -> string)
    ensures ExportTable([Entry(OtherKey(repr), v)], floatText) == None
  {
    var entries := [Entry(OtherKey(repr), v)];
    assert ExportLine(entries[0], floatText) == None;
    assert ExportLines(entries, floatText) == None;
  }
}
