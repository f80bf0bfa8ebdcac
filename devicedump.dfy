/** `dumpDevices`: for every device, one line per known property name,
    the names left-justified in a column one wider than the longest name,
    each line numbered with the device's index. Absent properties are shown
    as `<notSet>` when unset properties are wanted and skipped otherwise. */
module DeviceDump {
  import opened Text
  import opened CFormat
  import opened CFValues

  /** What the dump shows for a property the device does not have. */
  const NotSet: string := "<notSet>"

  /** The line that opens the dump, followed by an empty line. */
  const Header: string := "Device Dump:\n\n"

  /** An `IOHIDDeviceRef` as the dump sees it: what `IOHIDDeviceGetProperty`
      returns for each property name, absent where it returns NULL. */
  datatype Device = Device(properties: map<string, CFValue>)

  /** The length of the longest name, 0 when there are none. */
  function MaxLength(names: seq<string>): nat
  {
    if names == [] then 0
    else
      var m := MaxLength(names[..|names| - 1]);
      if |names[|names| - 1]| > m then |names[|names| - 1]| else m
  }

  /** MaxLength is the longest length: no name is longer, and some name
      has exactly that length. */
  lemma {:induction false} MaxLengthIsMax(names: seq<string>)
    ensures forall i :: 0 <= i < |names| ==> |names[i]| <= MaxLength(names)
    ensures names != [] ==> exists i :: 0 <= i < |names| && |names[i]| == MaxLength(names)
  {
    if names != [] {
      var front := names[..|names| - 1];
      MaxLengthIsMax(front);
      if |names[|names| - 1]| <= MaxLength(front) && front != [] {
        var i :| 0 <= i < |front| && |front[i]| == MaxLength(front);
        assert names[i] == front[i];
      }
    }
  }

  /** The `colWidth` loop of `dumpDevices`: the running maximum of the name
      lengths, plus one. Every name is shorter than the column, and one
      name fills it all but its last character. */
  method ColumnWidth(names: seq<string>) returns (colWidth: nat)
    ensures colWidth == MaxLength(names) + 1
    ensures forall i :: 0 <= i < |names| ==> |names[i]| < colWidth
    ensures names != [] ==> exists i :: 0 <= i < |names| && |names[i]| + 1 == colWidth
    ensures names == [] ==> colWidth == 1
  {
    colWidth := 0;
    var i := 0;
    while i < |names|
      invariant 0 <= i <= |names|
      invariant colWidth == MaxLength(names[..i])
      invariant forall k :: 0 <= k < i ==> |names[k]| <= colWidth
      invariant i > 0 ==> exists k :: 0 <= k < i && |names[k]| == colWidth
    {
      assert names[..i + 1][..i] == names[..i];
      if |names[i]| > colWidth {
        colWidth := |names[i]|;
      }
      i := i + 1;
    }
    assert names[..i] == names;
    colWidth := colWidth + 1;
  }

  /** One line of a device's dump: the property name and the text shown
      for its value. */
  datatype Row = Row(name: string, value: string)

  /** What is shown for property `name`: the rendering of its value, or
      `<notSet>` when the device does not have it. */
  function ValueText(props: map<string, CFValue>, name: string): string
  {
    if name in props then Render(props[name]) else NotSet
  }

  /** The lines of one device's dump, in the order of `names`. */
  function Rows(props: map<string, CFValue>, names: seq<string>, showUnset: bool): (rows: seq<Row>)
    ensures forall r :: r in rows ==>
      && r.name in names
      && (r.name in props || showUnset)
      && r.value == ValueText(props, r.name)
  {
    if names == [] then []
    else
      var front := names[..|names| - 1];
      var n := names[|names| - 1];
      var rows := Rows(props, front, showUnset);
      assert forall r :: r in rows ==> r.name in names by {
        forall r | r in rows && r.name in front
          ensures r.name in names
        {
          var k :| 0 <= k < |front| && front[k] == r.name;
          assert names[k] == r.name;
        }
      }
      rows + (if n in props || showUnset then [Row(n, ValueText(props, n))] else [])
  }

  /** Every property name that is present, or every one at all when unset
      properties are shown, has its line. */
  lemma {:induction false} SelectedRowPresent(props: map<string, CFValue>, names: seq<string>,
                                              showUnset: bool, n: string)
    requires n in names && (n in props || showUnset)
    ensures Row(n, ValueText(props, n)) in Rows(props, names, showUnset)
  {
    var front := names[..|names| - 1];
    if n != names[|names| - 1] {
      var k :| 0 <= k < |names| && names[k] == n;
      assert front[k] == n;
      SelectedRowPresent(props, front, showUnset, n);
    }
  }

  /** A line is printed for a property exactly when the device has it or
      unset properties are shown, and an absent one reads `<notSet>`. */
  lemma RowSelection(props: map<string, CFValue>, names: seq<string>, showUnset: bool, n: string)
    requires n in names
    ensures (exists r :: r in Rows(props, names, showUnset) && r.name == n)
        <==> (n in props || showUnset)
    ensures n !in props && showUnset ==> Row(n, NotSet) in Rows(props, names, showUnset)
  {
    if n in props || showUnset {
      SelectedRowPresent(props, names, showUnset, n);
    }
  }

  /** The `%02ld %-*s: %s\n` line for device `i`. */
  function RowText(i: nat, width: nat, r: Row): string
  {
    ZeroPad(Decimal(i), 2) + " " + PadRight(r.name, width) + ": " + r.value + "\n"
  }

  lemma DecimalBelowHundred(i: nat)
    requires i < 100
    ensures |Decimal(i)| <= 2
  {
    if i >= 10 {
      assert |Decimal(i / 10)| == 1;
    }
  }

  /** Where the five pieces of a line sit, whatever they hold. */
  lemma LinePieces(idx: string, pad: string, value: string)
    requires |idx| == 2
    ensures var t := idx + " " + pad + ": " + value + "\n";
      && |t| == |pad| + 6 + |value|
      && t[..2] == idx && t[2] == ' '
      && t[3..3 + |pad|] == pad
      && t[3 + |pad|..5 + |pad|] == ": "
      && t[5 + |pad|..|t| - 1] == value && t[|t| - 1] == '\n'
  {
  }

  /** With fewer than a hundred devices and a column wider than the name,
      a line is the two-digit index, a space, the name padded with spaces
      to the column width, `: `, the value and a newline: the `: ` of every
      line of the dump stands in the same column. */
  lemma RowLayout(i: nat, width: nat, r: Row)
    requires i < 100 && |r.name| < width
    ensures var t := RowText(i, width, r);
      && |t| == width + 6 + |r.value|
      && t[..2] == ZeroPad(Decimal(i), 2) && t[2] == ' '
      && t[3..3 + width] == PadRight(r.name, width)
      && t[3 + width..5 + width] == ": "
      && t[5 + width..|t| - 1] == r.value && t[|t| - 1] == '\n'
  {
    DecimalBelowHundred(i);
    LinePieces(ZeroPad(Decimal(i), 2), PadRight(r.name, width), r.value);
  }

  /** With the column one wider than the longest name, the line of any of
      the names has its `: ` at the same place, just past the column. */
  lemma NameAligned(i: nat, names: seq<string>, r: Row)
    requires i < 100 && r.name in names
    ensures var w := MaxLength(names) + 1;
      RowText(i, w, r)[3 + w..5 + w] == ": "
  {
    MaxLengthIsMax(names);
    var k :| 0 <= k < |names| && names[k] == r.name;
    RowLayout(i, MaxLength(names) + 1, r);
  }

  /** The lines of device `i`, one after the other. */
  function RowsText(i: nat, width: nat, rows: seq<Row>): string
  {
    if rows == [] then ""
    else RowsText(i, width, rows[..|rows| - 1]) + RowText(i, width, rows[|rows| - 1])
  }

  /** Device `i`'s lines and the empty line after them. */
  function DeviceText(i: nat, d: Device, names: seq<string>, width: nat, showUnset: bool): string
  {
    RowsText(i, width, Rows(d.properties, names, showUnset)) + "\n"
  }

  /** The dump of every device, numbered from 0 in the order given. */
  function DevicesText(devices: seq<Device>, names: seq<string>, width: nat, showUnset: bool): string
  {
    if devices == [] then ""
    else
      DevicesText(devices[..|devices| - 1], names, width, showUnset)
      + DeviceText(|devices| - 1, devices[|devices| - 1], names, width, showUnset)
  }

  /** Everything `dumpDevices` prints. */
  function DumpText(devices: seq<Device>, names: seq<string>, showUnset: bool): string
  {
    Header + DevicesText(devices, names, MaxLength(names) + 1, showUnset)
  }

  /** One more name adds its line, if it is selected, at the end. */
  lemma RowsStep(props: map<string, CFValue>, names: seq<string>, j: nat, showUnset: bool)
    requires j < |names|
    ensures Rows(props, names[..j + 1], showUnset)
         == Rows(props, names[..j], showUnset)
            + (if names[j] in props || showUnset then [Row(names[j], ValueText(props, names[j]))] else [])
  {
    assert names[..j + 1][..j] == names[..j];
  }

  lemma RowsTextStep(i: nat, width: nat, rows: seq<Row>, r: Row)
    ensures RowsText(i, width, rows + [r]) == RowsText(i, width, rows) + RowText(i, width, r)
  {
    assert (rows + [r])[..|rows|] == rows;
  }

  lemma DevicesTextStep(devices: seq<Device>, i: nat, names: seq<string>, width: nat, showUnset: bool)
    requires i < |devices|
    ensures DevicesText(devices[..i + 1], names, width, showUnset)
         == DevicesText(devices[..i], names, width, showUnset)
            + DeviceText(i, devices[i], names, width, showUnset)
  {
    assert devices[..i + 1][..i] == devices[..i];
  }

  /** The property loop of `dumpDevices` for device `i`. */
  method DumpRows(i: nat, device: Device, names: seq<string>, colWidth: nat, showUnset: bool)
    returns (out: string)
    ensures out == RowsText(i, colWidth, Rows(device.properties, names, showUnset))
  {
    var props := device.properties;
    out := "";
    var j := 0;
    while j < |names|
      invariant 0 <= j <= |names|
      invariant out == RowsText(i, colWidth, Rows(props, names[..j], showUnset))
    {
      var name := names[j];
      RowsStep(props, names, j, showUnset);
      var valStr := NotSet;
      if name !in props {
        if !showUnset {
          assert Rows(props, names[..j], showUnset) + [] == Rows(props, names[..j], showUnset);
          j := j + 1;
          continue;
        }
      } else {
        var buf := new CFMutableString();
        AppendValue(buf, props[name]);
        assert "" + Render(props[name]) == Render(props[name]);
        valStr := buf.text;
      }
      RowsTextStep(i, colWidth, Rows(props, names[..j], showUnset), Row(name, valStr));
      out := out + RowText(i, colWidth, Row(name, valStr));
      j := j + 1;
    }
    assert names[..j] == names;
  }

  /** `dumpDevices`: returns what it prints to standard output. */
  method DumpDevices(devices: seq<Device>, names: seq<string>, showUnset: bool)
    returns (stdout: string)
    ensures stdout == DumpText(devices, names, showUnset)
  {
    var colWidth := ColumnWidth(names);
    stdout := Header;
    var i := 0;
    while i < |devices|
      invariant 0 <= i <= |devices|
      invariant stdout == Header + DevicesText(devices[..i], names, colWidth, showUnset)
    {
      var rows := DumpRows(i, devices[i], names, colWidth, showUnset);
      DevicesTextStep(devices, i, names, colWidth, showUnset);
      AppendAssoc(Header, DevicesText(devices[..i], names, colWidth, showUnset), rows + "\n");
      stdout := stdout + (rows + "\n");
      i := i + 1;
    }
    assert devices[..i] == devices;
  }
}
