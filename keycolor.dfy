/** The logic of `main`: the options folded into the settings, the choice
    between dumping the devices and setting the colour, and the colour
    write itself: which devices are written, through which element, with
    which four-byte report. */
module KeyColor {
  import opened CTypes
  import opened CFormat
  import opened CStdlib
  import opened ColorArg

  /** The options `getopt_long` hands back, in order: `-h`/`--help`,
      `-d`/`--dump`, `-v`/`--verbose`, `-c`/`--color N`,
      `-C`/`--rgb r,g,b`, and `?` for anything it does not accept. */
  datatype Opt = Help | Dump | Verbose | Color(arg: string) | RgbArg(arg: string) | Invalid

  /** `option_dump`, `option_verbose` and the three colour bytes. */
  datatype Settings = Settings(dump: bool, verbose: nat, color: Rgb)

  /** Either the program goes on with its settings, or `usage` has ended it
      with an exit code. */
  datatype Outcome = Proceed(settings: Settings) | Usage(exitCode: int)

  /** The settings before any option is read: everything zero. */
  const Initial: Settings := Settings(false, 0, Rgb(0, 0, 0))

  /** The options that end the program through `usage`. */
  predicate Stops(o: Opt)
  {
    o == Help || o == Invalid
  }

  /** One pass of the option loop. */
  function Step(out: Outcome, o: Opt): Outcome
  {
    match out
    case Usage(_) => out
    case Proceed(s) =>
      match o
      case Help => Usage(0)
      case Dump => Proceed(s.(dump := true))
      case Verbose => Proceed(s.(verbose := s.verbose + 1))
      case Color(a) =>
        var c := ToUint8(Atoi(a));
        Proceed(s.(color := Rgb(c, c, c)))
      case RgbArg(a) => Proceed(s.(color := ParsedColor(a)))
      case Invalid => Usage(1)
  }

  /** The option loop over the options read so far. */
  function Fold(opts: seq<Opt>): Outcome
  {
    if opts == [] then Proceed(Initial)
    else Step(Fold(opts[..|opts| - 1]), opts[|opts| - 1])
  }

  /** The settings the rest of `main` sees: four or more `-v` force the
      dump. */
  function ForceDump(s: Settings): Settings
  {
    if s.verbose >= 4 then s.(dump := true) else s
  }

  /** `main` up to the device work: no arguments at all is a usage error,
      otherwise the options are folded and the dump threshold applied. */
  function ParseArgs(argc: nat, opts: seq<Opt>): Outcome
  {
    if argc == 1 then Usage(1)
    else
      match Fold(opts)
      case Proceed(s) => Proceed(ForceDump(s))
      case Usage(e) => Usage(e)
  }

  /** Once `usage` has ended the program, later options change nothing. */
  lemma {:induction false} UsageSticks(opts: seq<Opt>, k: nat)
    requires k <= |opts| && Fold(opts[..k]).Usage?
    ensures Fold(opts) == Fold(opts[..k])
    decreases |opts| - k
  {
    if k == |opts| {
      assert opts[..k] == opts;
    } else {
      assert opts[..k + 1][..k] == opts[..k];
      UsageSticks(opts, k + 1);
    }
  }

  /** The option loop of `main`, with the corrected `parseColor` for
      `--rgb`. */
  method ParseOptions(argc: nat, opts: seq<Opt>) returns (outcome: Outcome)
    ensures outcome == ParseArgs(argc, opts)
  {
    if argc == 1 {
      return Usage(1);
    }
    var optionDump := false;
    var optionVerbose := 0;
    var colorRed: uint8, colorGreen: uint8, colorBlue: uint8 := 0, 0, 0;
    var k := 0;
    while k < |opts|
      invariant 0 <= k <= |opts|
      invariant Fold(opts[..k]) == Proceed(Settings(optionDump, optionVerbose, Rgb(colorRed, colorGreen, colorBlue)))
    {
      assert opts[..k + 1][..k] == opts[..k];
      match opts[k] {
        case Dump =>
          optionDump := true;
        case Verbose =>
          optionVerbose := optionVerbose + 1;
        case Help =>
          UsageSticks(opts, k + 1);
          return Usage(0);
        case Color(a) =>
          colorBlue := ToUint8(Atoi(a));
          colorGreen := colorBlue;
          colorRed := colorGreen;
        case RgbArg(a) =>
          colorRed, colorGreen, colorBlue := ParseColor(a, colorRed, colorGreen, colorBlue);
        case Invalid =>
          UsageSticks(opts, k + 1);
          return Usage(1);
      }
      k := k + 1;
    }
    assert opts[..k] == opts;
    if optionVerbose >= 4 {
      optionDump := true;
    }
    outcome := Proceed(Settings(optionDump, optionVerbose, Rgb(colorRed, colorGreen, colorBlue)));
  }

  /** The colour an option sets, if it sets one. */
  function ColorOf(o: Opt): Option<Rgb>
  {
    match o
    case Color(a) =>
      var c := ToUint8(Atoi(a));
      Some(Rgb(c, c, c))
    case RgbArg(a) => Some(ParsedColor(a))
    case _ => None
  }

  /** The colour of the last option that sets one; black when none does. */
  function LastColor(opts: seq<Opt>): Rgb
  {
    if opts == [] then Rgb(0, 0, 0)
    else if ColorOf(opts[|opts| - 1]).Some? then ColorOf(opts[|opts| - 1]).value
    else LastColor(opts[..|opts| - 1])
  }

  /** The program goes on exactly when no option is `-h` or unrecognised. */
  lemma {:induction false} FoldProceedsIff(opts: seq<Opt>)
    ensures Fold(opts).Proceed? <==> forall i :: 0 <= i < |opts| ==> !Stops(opts[i])
  {
    if opts != [] {
      var front := opts[..|opts| - 1];
      FoldProceedsIff(front);
      assert forall i :: 0 <= i < |front| ==> front[i] == opts[i];
      assert Fold(opts) == Step(Fold(front), opts[|opts| - 1]);
    }
  }

  /** Without `-h` or an unrecognised option, the fold sets `dump` exactly
      when `-d` was given, counts the `-v` options, and keeps the colour of
      the last colour option. */
  lemma {:induction false} FoldSettings(opts: seq<Opt>)
    requires forall i :: 0 <= i < |opts| ==> !Stops(opts[i])
    ensures Fold(opts) == Proceed(Settings(Dump in opts, multiset(opts)[Verbose], LastColor(opts)))
  {
    if opts != [] {
      var front := opts[..|opts| - 1];
      var last := opts[|opts| - 1];
      assert opts == front + [last];
      FoldSettings(front);
      assert !Stops(last);
      assert Fold(opts) == Step(Fold(front), last);
      assert multiset(opts) == multiset(front) + multiset{last};
      assert Dump in opts <==> Dump in front || last == Dump;
    }
  }

  /** The first `-h` or unrecognised option decides the exit code: 0 for
      `-h`, 1 otherwise, whatever follows it. */
  lemma FirstStopDecides(pre: seq<Opt>, o: Opt, post: seq<Opt>)
    requires forall i :: 0 <= i < |pre| ==> !Stops(pre[i])
    requires Stops(o)
    ensures Fold(pre + [o] + post) == Usage(if o == Help then 0 else 1)
  {
    var opts := pre + [o] + post;
    FoldSettings(pre);
    assert opts[..|pre|] == pre;
    assert opts[..|pre| + 1] == pre + [o];
    assert (pre + [o])[..|pre|] == pre;
    UsageSticks(opts, |pre| + 1);
  }

  /** A later colour option overwrites every earlier one. */
  lemma {:induction false} LaterColorWins(pre: seq<Opt>, o: Opt, post: seq<Opt>)
    requires ColorOf(o).Some?
    requires forall i :: 0 <= i < |post| ==> ColorOf(post[i]).None?
    ensures LastColor(pre + [o] + post) == ColorOf(o).value
    decreases |post|
  {
    var opts := pre + [o] + post;
    if post == [] {
      assert opts[|opts| - 1] == o;
    } else {
      var front := post[..|post| - 1];
      assert opts[..|opts| - 1] == pre + [o] + front;
      assert opts[|opts| - 1] == post[|post| - 1];
      assert ColorOf(opts[|opts| - 1]).None?;
      LaterColorWins(pre, o, front);
      assert LastColor(opts) == LastColor(pre + [o] + front);
    }
  }

  /** `-c N` sets all three components to `atoi(N)` narrowed to a byte. */
  lemma ColorOptionSetsAll(a: string, n: uint8)
    ensures var c := ToUint8(Atoi(a)); ColorOf(Color(a)) == Some(Rgb(c, c, c))
    ensures ColorOf(Color(Decimal(n))) == Some(Rgb(n, n, n))
  {
    AtoiOfDecimal(n);
  }

  /** What `main` goes on to do. */
  datatype Mode = DumpMode(showUnset: bool) | SetColorMode(report: seq<uint8>, notes: bool)

  /** The choice after the option loop: dump the devices, showing unset
      properties only past four `-v`; or set the colour, writing the NOTE
      lines only when `-v` was given. */
  function SelectMode(s: Settings): Mode
  {
    if s.dump then DumpMode(s.verbose > 4)
    else SetColorMode(OutputReport(s.color), s.verbose != 0)
  }

  /** Dump mode comes from `-d` or from four or more `-v`; the dump shows
      unset properties exactly when there are more than four `-v`; the
      colour report carries the last colour option. */
  lemma ModeSelection(argc: nat, opts: seq<Opt>)
    requires ParseArgs(argc, opts).Proceed?
    ensures var m := SelectMode(ParseArgs(argc, opts).settings);
      var v := multiset(opts)[Verbose];
      && (m.DumpMode? <==> Dump in opts || v >= 4)
      && (m.DumpMode? ==> (m.showUnset <==> v > 4))
      && (m.SetColorMode? ==> m.report == OutputReport(LastColor(opts)) && (m.notes <==> v > 0))
  {
    FoldProceedsIff(opts);
    FoldSettings(opts);
  }

  /** The byte that selects the key group; `main` always sends 0. */
  const WasdColor: uint8 := 0

  /** The four-byte output report `{ wasdColor, red, green, blue }`. */
  function OutputReport(c: Rgb): seq<uint8>
  {
    [WasdColor, c.red, c.green, c.blue]
  }

  /** The product ID of the Logitech G710+ keyboard. */
  const G710Plus: int32 := 0xc24d

  /** The element cookie for a product: 0x11d on the G710+, and 0 (not
      known) for every other product. */
  function ElementCookie(productId: int32): int32
  {
    if productId == G710Plus then 0x11d else 0
  }

  /** A lone `--rgb` option sets the colour `parseColor` reads from its
      argument and nothing else. */
  lemma RgbOptionAlone(arg: string)
    ensures ParseArgs(2, [RgbArg(arg)]) == Proceed(Settings(false, 0, ParsedColor(arg)))
  {
    var opts := [RgbArg(arg)];
    assert opts[..0] == [];
    assert Fold(opts) == Step(Proceed(Initial), RgbArg(arg));
  }

  /** `--rgb r,g,b` written with three decimal numbers in range gives the
      report `{ 0, r, g, b }`. */
  lemma RgbOptionReport(red: uint8, green: uint8, blue: uint8)
    ensures var arg := Decimal(red) + "," + Decimal(green) + "," + Decimal(blue);
      ParseArgs(2, [RgbArg(arg)]) == Proceed(Settings(false, 0, Rgb(red, green, blue)))
      && OutputReport(Rgb(red, green, blue)) == [0, red, green, blue]
  {
    ParsedColorOfDecimals(red, green, blue);
    RgbOptionAlone(Decimal(red) + "," + Decimal(green) + "," + Decimal(blue));
  }

  /** An element of a device's interface, as far as matching goes. */
  datatype HidElement = HidElement(cookie: int, id: nat)

  /** A device found by the manager: its `ProductID` property and its
      elements. */
  datatype HidDevice = HidDevice(productId: int32, elements: seq<HidElement>)

  /** What the colour loop does, device by device. */
  datatype Event =
    | SkippedUnknown(device: nat, productId: int32)
    | NoMatchingElements(device: nat)
    | SetValue(device: nat, element: HidElement, report: seq<uint8>)

  /** `IOHIDDeviceCopyMatchingElements` with a cookie as the only match
      criterion: the elements with that cookie, in order. */
  function Matching(elements: seq<HidElement>, cookie: int): (m: seq<HidElement>)
    ensures forall e :: e in m <==> e in elements && e.cookie == cookie
  {
    if elements == [] then []
    else
      var last := elements[|elements| - 1];
      Matching(elements[..|elements| - 1], cookie) + (if last.cookie == cookie then [last] else [])
  }

  /** The element loop: one write per element. */
  function Writes(d: nat, elements: seq<HidElement>, report: seq<uint8>): seq<Event>
  {
    if elements == [] then []
    else Writes(d, elements[..|elements| - 1], report) + [SetValue(d, elements[|elements| - 1], report)]
  }

  /** What the colour loop does for device `d`. */
  function DeviceEvents(d: nat, dev: HidDevice, report: seq<uint8>, verbose: bool): seq<Event>
  {
    var cookie := ElementCookie(dev.productId);
    if cookie == 0 then [SkippedUnknown(d, dev.productId)]
    else
      var m := Matching(dev.elements, cookie);
      if m == [] then (if verbose then [NoMatchingElements(d)] else [])
      else Writes(d, m, report)
  }

  /** The colour loop over all devices, numbered from 0. */
  function ColorEvents(devices: seq<HidDevice>, report: seq<uint8>, verbose: bool): seq<Event>
  {
    if devices == [] then []
    else
      ColorEvents(devices[..|devices| - 1], report, verbose)
      + DeviceEvents(|devices| - 1, devices[|devices| - 1], report, verbose)
  }

  /** Every event of device `d` names `d`; a write happens only on a G710+,
      only through an element of that device with cookie 0x11d, and always
      with the report given. */
  lemma DeviceEventsShape(d: nat, dev: HidDevice, report: seq<uint8>, verbose: bool)
    ensures forall e :: e in DeviceEvents(d, dev, report, verbose) ==>
      && e.device == d
      && (e.SetValue? ==>
            && dev.productId == G710Plus
            && e.element in dev.elements && e.element.cookie == 0x11d
            && e.report == report)
  {
    var cookie := ElementCookie(dev.productId);
    if cookie != 0 {
      WritesShape(d, Matching(dev.elements, cookie), report);
    }
  }

  lemma {:induction false} WritesShape(d: nat, elements: seq<HidElement>, report: seq<uint8>)
    ensures forall e :: e in Writes(d, elements, report) ==>
      e.SetValue? && e.device == d && e.element in elements && e.report == report
  {
    if elements != [] {
      var front := elements[..|elements| - 1];
      WritesShape(d, front, report);
      assert forall x :: x in front ==> x in elements;
    }
  }

  lemma {:induction false} WritesAll(d: nat, elements: seq<HidElement>, report: seq<uint8>, x: HidElement)
    requires x in elements
    ensures SetValue(d, x, report) in Writes(d, elements, report)
  {
    var front := elements[..|elements| - 1];
    if x != elements[|elements| - 1] {
      var k :| 0 <= k < |elements| && elements[k] == x;
      assert front[k] == x;
      WritesAll(d, front, report, x);
    }
  }

  /** Over all devices: every write goes to a G710+ in the list, through
      one of its elements with cookie 0x11d, with the report given. */
  lemma {:induction false} WritesOnlyG710Plus(devices: seq<HidDevice>, report: seq<uint8>, verbose: bool)
    ensures forall e :: e in ColorEvents(devices, report, verbose) ==>
      && e.device < |devices|
      && (e.SetValue? ==>
            && devices[e.device].productId == G710Plus
            && e.element in devices[e.device].elements && e.element.cookie == 0x11d
            && e.report == report)
  {
    if devices != [] {
      var n := |devices| - 1;
      var front := devices[..n];
      WritesOnlyG710Plus(front, report, verbose);
      DeviceEventsShape(n, devices[n], report, verbose);
      assert forall i :: 0 <= i < n ==> front[i] == devices[i];
    }
  }

  /** The events of device `d` are among those of every longer list. */
  lemma {:induction false} DeviceEventsIncluded(devices: seq<HidDevice>, report: seq<uint8>, verbose: bool,
                                                d: nat, e: Event)
    requires d < |devices| && e in DeviceEvents(d, devices[d], report, verbose)
    ensures e in ColorEvents(devices, report, verbose)
  {
    var n := |devices| - 1;
    if d < n {
      var front := devices[..n];
      assert front[d] == devices[d];
      DeviceEventsIncluded(front, report, verbose, d, e);
    }
  }

  /** Every element of a G710+ with cookie 0x11d is written with the
      report, and every device of any other product is reported as skipped
      and never written. */
  lemma ColorWrites(devices: seq<HidDevice>, report: seq<uint8>, verbose: bool, d: nat)
    requires d < |devices|
    ensures var dev := devices[d];
      var events := ColorEvents(devices, report, verbose);
      && (dev.productId == G710Plus ==>
            forall x :: x in dev.elements && x.cookie == 0x11d ==> SetValue(d, x, report) in events)
      && (dev.productId != G710Plus ==>
            && SkippedUnknown(d, dev.productId) in events
            && forall e :: e in events && e.SetValue? ==> e.device != d)
  {
    var dev := devices[d];
    if dev.productId == G710Plus {
      forall x | x in dev.elements && x.cookie == 0x11d
        ensures SetValue(d, x, report) in ColorEvents(devices, report, verbose)
      {
        WritesAll(d, Matching(dev.elements, 0x11d), report, x);
        DeviceEventsIncluded(devices, report, verbose, d, SetValue(d, x, report));
      }
    } else {
      DeviceEventsIncluded(devices, report, verbose, d, SkippedUnknown(d, dev.productId));
      WritesOnlyG710Plus(devices, report, verbose);
    }
  }

  /** The element loop of `main` for device `d`. */
  method WriteElements(d: nat, elements: seq<HidElement>, report: seq<uint8>) returns (events: seq<Event>)
    ensures events == Writes(d, elements, report)
  {
    events := [];
    var j := 0;
    while j < |elements|
      invariant 0 <= j <= |elements|
      invariant events == Writes(d, elements[..j], report)
    {
      assert elements[..j + 1][..j] == elements[..j];
      events := events + [SetValue(d, elements[j], report)];
      j := j + 1;
    }
    assert elements[..j] == elements;
  }

  /** The device loop of `main` when not dumping: returns what it does to
      each device, in order. */
  method SetColors(devices: seq<HidDevice>, color: Rgb, verbose: nat) returns (events: seq<Event>)
    ensures events == ColorEvents(devices, OutputReport(color), verbose != 0)
  {
    var report := OutputReport(color);
    events := [];
    var i := 0;
    while i < |devices|
      invariant 0 <= i <= |devices|
      invariant events == ColorEvents(devices[..i], report, verbose != 0)
    {
      assert devices[..i + 1][..i] == devices[..i];
      var productId := devices[i].productId;
      var cookieId := ElementCookie(productId);
      var deviceEvents: seq<Event>;
      if cookieId == 0 {
        deviceEvents := [SkippedUnknown(i, productId)];
      } else {
        var elements := Matching(devices[i].elements, cookieId);
        if elements == [] {
          deviceEvents := if verbose != 0 then [NoMatchingElements(i)] else [];
        } else {
          deviceEvents := WriteElements(i, elements, report);
        }
      }
      events := events + deviceEvents;
      i := i + 1;
    }
    assert devices[..i] == devices;
  }
}
