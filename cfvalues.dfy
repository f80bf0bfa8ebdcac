/** `cfValueToString`: a CoreFoundation property value rendered as text and
    appended to a mutable string. Strings are appended as they are, numbers
    as `0x` and their 64-bit pattern in lower-case hexadecimal, arrays and
    dictionaries in brackets with their elements separated by `, `, and any
    other type as a `??type=0x…??` marker followed by its description. */
module CFValues {
  import opened CTypes
  import opened Text
  import opened CFormat

  /** A property value as the framework hands it over. A dictionary is the
      sequence of its key/value pairs in the order
      `CFDictionaryGetKeysAndValues` returns them. For any other type only
      its type identifier and its `%@` description are kept. */
  datatype CFValue =
    | CFString(chars: string)
    | CFNumber(n: int64)
    | CFArray(items: seq<CFValue>)
    | CFDictionary(entries: seq<CFEntry>)
    | CFOther(typeId: uint64, description: string)

  datatype CFEntry = CFEntry(key: CFValue, value: CFValue)

  /** The text `cfValueToString` appends for `v`. */
  function Render(v: CFValue): string
    decreases v, 1
  {
    match v
    case CFString(s) => s
    case CFNumber(n) => "0x" + LowerHex(TwosComplement64(n))
    case CFArray(items) => "[ " + RenderItems(items) + " ]"
    case CFDictionary(entries) => "{ " + RenderEntries(entries) + " }"
    case CFOther(t, d) => "??type=0x" + LowerHex(t) + "?? " + d
  }

  /** The text the array loop appends for `items`: each element's rendering,
      with `, ` in front of every element but the first. */
  function RenderItems(items: seq<CFValue>): string
    decreases items, 0
  {
    if items == [] then ""
    else
      RenderItems(items[..|items| - 1])
      + (if |items| > 1 then ", " else "")
      + Render(items[|items| - 1])
  }

  /** The text the dictionary loop appends for `entries`: `key=value` for
      each entry, with `, ` in front of every entry but the first. */
  function RenderEntries(entries: seq<CFEntry>): string
    decreases entries, 0
  {
    if entries == [] then ""
    else
      RenderEntries(entries[..|entries| - 1])
      + (if |entries| > 1 then ", " else "")
      + RenderEntry(entries[|entries| - 1])
  }

  /** One dictionary entry: the key's rendering, `=`, the value's. */
  function RenderEntry(e: CFEntry): string
    decreases e, 0
  {
    Render(e.key) + "=" + Render(e.value)
  }

  /** The renderings of `items`, one per element, in order. */
  function RenderAll(items: seq<CFValue>): (rs: seq<string>)
    ensures |rs| == |items|
  {
    seq(|items|, i requires 0 <= i < |items| => Render(items[i]))
  }

  /** The renderings of `entries`, one `key=value` per entry, in order. */
  function RenderAllEntries(entries: seq<CFEntry>): (rs: seq<string>)
    ensures |rs| == |entries|
  {
    seq(|entries|, i requires 0 <= i < |entries| => RenderEntry(entries[i]))
  }

  /** The array loop's output is the element renderings joined by `, `. */
  lemma {:induction false} RenderItemsJoin(items: seq<CFValue>)
    ensures RenderItems(items) == Join(RenderAll(items), ", ")
  {
    var n := |items|;
    if n > 1 {
      var front := items[..n - 1];
      RenderItemsJoin(front);
      assert RenderAll(items) == RenderAll(front) + [Render(items[n - 1])];
      JoinSnoc(RenderAll(front), Render(items[n - 1]), ", ");
    } else if n == 1 {
      assert RenderAll(items) == [Render(items[0])];
    }
  }

  /** The dictionary loop's output is the entry renderings joined by `, `. */
  lemma {:induction false} RenderEntriesJoin(entries: seq<CFEntry>)
    ensures RenderEntries(entries) == Join(RenderAllEntries(entries), ", ")
  {
    var n := |entries|;
    if n > 1 {
      var front := entries[..n - 1];
      RenderEntriesJoin(front);
      assert RenderAllEntries(entries) == RenderAllEntries(front) + [RenderEntry(entries[n - 1])];
      JoinSnoc(RenderAllEntries(front), RenderEntry(entries[n - 1]), ", ");
    } else if n == 1 {
      assert RenderAllEntries(entries) == [RenderEntry(entries[0])];
    }
  }

  /** An array of n elements renders as `[ `, the n element renderings
      joined by `, `, and ` ]`: n - 1 separators, and `[  ]` when empty. */
  lemma RenderArray(items: seq<CFValue>)
    ensures Render(CFArray(items)) == "[ " + Join(RenderAll(items), ", ") + " ]"
    ensures items == [] ==> Render(CFArray(items)) == "[  ]"
    ensures |items| > 0 ==>
      |Render(CFArray(items))| == 4 + SumLengths(RenderAll(items)) + 2 * (|items| - 1)
  {
    RenderItemsJoin(items);
    if |items| > 0 {
      JoinLength(RenderAll(items), ", ");
    }
  }

  /** A dictionary of n entries renders as `{ `, the n `key=value`
      renderings in the order the entries come, joined by `, `, and ` }`. */
  lemma RenderDictionary(entries: seq<CFEntry>)
    ensures Render(CFDictionary(entries)) == "{ " + Join(RenderAllEntries(entries), ", ") + " }"
    ensures forall i :: 0 <= i < |entries| ==>
      RenderAllEntries(entries)[i] == Render(entries[i].key) + "=" + Render(entries[i].value)
    ensures entries == [] ==> Render(CFDictionary(entries)) == "{  }"
    ensures |entries| > 0 ==>
      |Render(CFDictionary(entries))| == 4 + SumLengths(RenderAllEntries(entries)) + 2 * (|entries| - 1)
  {
    RenderEntriesJoin(entries);
    if |entries| > 0 {
      JoinLength(RenderAllEntries(entries), ", ");
    }
  }

  /** A string is appended as it is. */
  lemma RenderString(s: string)
    ensures Render(CFString(s)) == s
  {
  }

  /** A number is appended as `0x` and at most sixteen lower-case hexadecimal
      digits that read back as its 64-bit two's complement pattern; a
      negative number always takes all sixteen. */
  lemma RenderNumber(n: int64)
    ensures var r := Render(CFNumber(n));
      && 3 <= |r| <= 18 && r[..2] == "0x"
      && IsLowerHex(r[2..])
      && LowerHexValue(r[2..]) == TwosComplement64(n)
      && FromTwosComplement64(TwosComplement64(n)) == n
      && (n < 0 ==> |r| == 18)
  {
    var u := TwosComplement64(n);
    var r := Render(CFNumber(n));
    assert r[2..] == LowerHex(u);
    LowerHexRoundTrip(u);
    LowerHex64Length(u);
  }

  /** Any other type is appended as `??type=0x`, its type identifier in
      lower-case hexadecimal, `?? ` and its description. */
  lemma RenderOther(t: uint64, d: string)
    ensures var r := Render(CFOther(t, d));
      var k := |r| - |d| - 3;
      && 9 < k && r[..9] == "??type=0x"
      && IsLowerHex(r[9..k]) && LowerHexValue(r[9..k]) == t
      && r[k..|r| - |d|] == "?? " && r[|r| - |d|..] == d
  {
    var r := Render(CFOther(t, d));
    var k := |r| - |d| - 3;
    assert r[9..k] == LowerHex(t);
    LowerHexRoundTrip(t);
  }

  /** A `CFMutableStringRef`: text that can only be appended to. */
  class CFMutableString {
    var text: string

    constructor ()
      ensures text == ""
    {
      text := "";
    }

    method Append(s: string)
      modifies this
      ensures text == old(text) + s
    {
      text := text + s;
    }
  }

  /** `cfValueToString`: appends the rendering of `v` to `str`; what `str`
      held before is kept as a prefix. */
  method AppendValue(str: CFMutableString, v: CFValue)
    modifies str
    ensures str.text == old(str.text) + Render(v)
    decreases v, 1
  {
    match v
    case CFString(s) =>
      str.Append(s);
    case CFNumber(n) =>
      str.Append("0x" + LowerHex(TwosComplement64(n)));
    case CFArray(items) =>
      ghost var before := str.text;
      str.Append("[ ");
      AppendItems(str, items);
      str.Append(" ]");
      AppendAssoc(before, "[ ", RenderItems(items));
      AppendAssoc(before, "[ " + RenderItems(items), " ]");
    case CFDictionary(entries) =>
      ghost var before := str.text;
      str.Append("{ ");
      AppendEntries(str, entries);
      str.Append(" }");
      AppendAssoc(before, "{ ", RenderEntries(entries));
      AppendAssoc(before, "{ " + RenderEntries(entries), " }");
    case CFOther(t, d) =>
      str.Append("??type=0x" + LowerHex(t) + "?? " + d);
  }

  /** The array loop of `cfValueToString`. */
  method AppendItems(str: CFMutableString, items: seq<CFValue>)
    modifies str
    ensures str.text == old(str.text) + RenderItems(items)
    decreases items, 0
  {
    var k := 0;
    while k < |items|
      invariant 0 <= k <= |items|
      invariant str.text == old(str.text) + RenderItems(items[..k])
    {
      ghost var done := RenderItems(items[..k]);
      RenderItemsStep(items, k);
      if k > 0 {
        str.Append(", ");
      }
      AppendValue(str, items[k]);
      if k > 0 {
        AppendSep(old(str.text), done, ", ", Render(items[k]));
      } else {
        assert old(str.text) + done == old(str.text);
      }
      k := k + 1;
    }
    assert items[..k] == items;
  }

  /** The array loop's output grows by a separator, unless it is the first
      element, and the element's rendering. */
  lemma RenderItemsStep(items: seq<CFValue>, k: nat)
    requires k < |items|
    ensures k == 0 ==> RenderItems(items[..1]) == Render(items[0]) && RenderItems(items[..0]) == ""
    ensures k > 0 ==> RenderItems(items[..k + 1]) == (RenderItems(items[..k]) + ", ") + Render(items[k])
  {
    assert items[..k + 1][..k] == items[..k];
    if k == 0 {
      assert ("" + "") + Render(items[0]) == Render(items[0]);
    }
  }

  /** The dictionary loop of `cfValueToString`: each key, `=`, its value. */
  method AppendEntries(str: CFMutableString, entries: seq<CFEntry>)
    modifies str
    ensures str.text == old(str.text) + RenderEntries(entries)
    decreases entries, 0
  {
    var i := 0;
    while i < |entries|
      invariant 0 <= i <= |entries|
      invariant str.text == old(str.text) + RenderEntries(entries[..i])
    {
      ghost var done := RenderEntries(entries[..i]);
      RenderEntriesStep(entries, i);
      if i > 0 {
        str.Append(", ");
      }
      AppendEntry(str, entries[i]);
      if i > 0 {
        AppendSep(old(str.text), done, ", ", RenderEntry(entries[i]));
      } else {
        assert old(str.text) + done == old(str.text);
      }
      i := i + 1;
    }
    assert entries[..i] == entries;
  }

  lemma RenderEntriesStep(entries: seq<CFEntry>, i: nat)
    requires i < |entries|
    ensures i == 0 ==> RenderEntries(entries[..1]) == RenderEntry(entries[0]) && RenderEntries(entries[..0]) == ""
    ensures i > 0 ==> RenderEntries(entries[..i + 1]) == (RenderEntries(entries[..i]) + ", ") + RenderEntry(entries[i])
  {
    assert entries[..i + 1][..i] == entries[..i];
    if i == 0 {
      assert ("" + "") + RenderEntry(entries[0]) == RenderEntry(entries[0]);
    }
  }

  /** One entry of the dictionary loop: the key, `=`, the value. */
  method AppendEntry(str: CFMutableString, e: CFEntry)
    modifies str
    ensures str.text == old(str.text) + RenderEntry(e)
    decreases e, 0
  {
    ghost var before := str.text;
    AppendValue(str, e.key);
    str.Append("=");
    AppendValue(str, e.value);
    AppendSep(before, Render(e.key), "=", Render(e.value));
  }
}
