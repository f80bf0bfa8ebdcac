# logitech_keycolor in Dafny

`logitech_keycolor` is a small macOS command-line tool. It sets the backlight
colour of a Logitech G710+ keyboard by sending a four-byte HID output
report. With `--dump`, it lists the HID properties of every keyboard it
finds. Almost all of `main.c` calls IOKit and CoreFoundation. This
project models the part that is program logic and proves properties of it:

- **`parseColor`** (`colorarg.dfy`), which turns an `--rgb r,g,b` argument
  into three bytes. The model builds it from three pieces, each in its own
  module:
  - `strtok` as a scanner over the remaining text (`strtok.dfy`);
  - `atoi` (`cstdlib.dfy`);
  - the conversion to `uint8_t` by reduction modulo 256 (`ctypes.dfy`).

  The token loop writes through an array of three components, as the C
  code writes through `cc[]`. The zero-fill loop as written never
  advances `cIdx` (see Findings). The model proves the as-written loop
  never exits, and uses a corrected fill loop everywhere else.
- **`cfValueToString`** (`cfvalues.dfy`), which renders a property value
  as text. Values are strings, 64-bit numbers, arrays, dictionaries (key/value
  pairs in the order the framework hands them out) or any other type
  (kept as its type identifier and description).
  - `Render` is the text appended.
  - `AppendValue` is the recursive method that appends to a mutable string,
    with the array and dictionary loops of the C code.
- **`dumpDevices`** (`devicedump.dfy`):
  - the running maximum that gives the column width;
  - which property lines appear and what an absent property shows;
  - the `%02ld %-*s: %s` line layout;
  - the whole text printed, built by nested loops.

  The printf conversions used there (`%ld`, `%02ld`, `%-*s`, `%llx`) are
  modelled in `cformat.dfy` and `text.dfy`.
- **`main`** (`keycolor.dfy`):
  - the option loop, folded over the options `getopt_long` returns;
  - the verbosity thresholds;
  - the choice between dumping and setting the colour;
  - the product-ID-to-cookie rule;
  - the four-byte report;
  - the device and element loops that write it.

A call into IOKit or CoreFoundation that the logic depends on becomes an
input:
- the options `getopt_long` returns;
- the property values `IOHIDDeviceGetProperty` returns;
- each device's product ID and elements;
- the property names of the dump.

Output is returned as text, for the dump, or as a list of events, for the
colour loop.

Two points about the code shape the model:
- The dump prints the properties of each device, one line per property
  name (`logitech_keycolor/main.c:259-274`). It does not walk the
  device's elements.
- A boolean property has no branch of its own. It goes through the
  fallback `??type=0x…??` branch (`logitech_keycolor/main.c:198`), like any
  type that is not a string, number, array or dictionary.

## Model

| member | source | states |
|---|---|---|
| CTypes.ToUint8 | logitech_keycolor/main.c:72 | the `(uint8_t)` cast gives the value in 0..255 congruent to its operand modulo 256, and keeps any value already in range |
| CTypes.TwosComplement64 | logitech_keycolor/main.c:162-164 | the `int64_t` printed with `%llx` is read as its 64-bit two's complement pattern, which is congruent to it modulo 2^64 and below 2^63 exactly when the number is non-negative |
| CTypes.TwosComplementRoundTrip | logitech_keycolor/main.c:162-164 | the printed 64-bit pattern determines the signed number |
| CFormat.Decimal | logitech_keycolor/main.c:273 | `%ld` of a non-negative number prints at least one digit, only digits, no leading zero, and one digit exactly for numbers below 10 |
| CFormat.DecimalRoundTrip | logitech_keycolor/main.c:72 | reading printed decimal digits back gives the number, whatever non-digit follows |
| CFormat.LowerHexRoundTrip | logitech_keycolor/main.c:164 | the digits `%llx` prints read back as the number printed |
| CFormat.LowerHex64Length | logitech_keycolor/main.c:164 | a 64-bit pattern prints at most 16 hex digits, and exactly 16 when its top bit is set |
| Text.PadRightShape | logitech_keycolor/main.c:273 | `%-*s` puts the string first and fills the rest of the field with spaces |
| Text.ZeroPadShape | logitech_keycolor/main.c:273 | `%02ld` puts the digits last and fills the front of the field with zeros |
| CStdlib.AtoiReadsDecimal | logitech_keycolor/main.c:310 | `atoi` reads back any integer printed in decimal, with or without a minus sign, and stops at the first non-digit |
| CStdlib.AtoiSkipsSpace | logitech_keycolor/main.c:72 | leading white space does not change what `atoi` reads |
| CStdlib.AtoiNoDigits | logitech_keycolor/main.c:72 | a string that does not start with a sign, a digit or white space reads as 0 |
| Strtok.NextTokenResult | logitech_keycolor/main.c:71 | `strtok` returns NULL exactly when only delimiters are left; otherwise its token is non-empty and has no comma |
| Strtok.TokensAreTokens | logitech_keycolor/main.c:71 | every token of the loop is non-empty and free of delimiters |
| Strtok.TokensKeepText | logitech_keycolor/main.c:71 | the tokens laid end to end are the argument with its commas removed: no character is lost or invented |
| Strtok.TokensOfJoin | logitech_keycolor/main.c:71 | splitting comma-joined tokens gives back exactly those tokens |
| ColorArg.StoreTokens | logitech_keycolor/main.c:71-73 | the token loop stores `atoi` of the k-th token, narrowed to a byte, in component k for the first min(3, number of tokens) components and leaves the others as they were; `cIdx` ends as min(3, number of tokens) |
| ColorArg.OneComponentAsWritten | logitech_keycolor/main.c:66-77 | for `--rgb 255` the token loop stores `atoi("255")` and leaves `cIdx == 1`, and the as-written fill loop entered there still has `cIdx < 3` after any number of passes |
| ColorArg.ZeroFill | logitech_keycolor/main.c:75-77 | the fill loop with `cIdx` advancing zeroes every component from `cIdx` on and keeps the ones before |
| ColorArg.ParseColor | logitech_keycolor/main.c:66-78 | with the corrected fill loop, red, green and blue are the first three tokens read by `atoi` modulo 256, each missing one 0, whatever the components held before |
| ColorArg.ParsedColorOfJoin | logitech_keycolor/main.c:66-73 | for comma-joined tokens, the colour is the first three tokens through `atoi` and the byte cast, tokens past the third ignored, missing ones 0 |
| ColorArg.ParsedColorOfDecimals | logitech_keycolor/main.c:66-73 | the form the usage line advertises, `r,g,b` with three numbers in 0..255, parses to exactly those numbers |
| ColorArg.FillAsWrittenNeverExits | logitech_keycolor/main.c:75-77 | as written, the fill loop keeps `cIdx` where it was, so once entered its guard holds after any number of passes |
| CFValues.AppendValue | logitech_keycolor/main.c:157-199 | `cfValueToString` only appends: the buffer afterwards is its old contents followed by the rendering of the value |
| CFValues.AppendItems | logitech_keycolor/main.c:167-172 | the array loop appends every element's rendering, with `, ` before each but the first |
| CFValues.AppendEntries | logitech_keycolor/main.c:176-185 | the dictionary loop appends every entry, with `, ` before each but the first |
| CFValues.AppendEntry | logitech_keycolor/main.c:182-184 | a dictionary entry is appended as the key's rendering, `=`, and the value's rendering |
| CFValues.RenderItemsJoin | logitech_keycolor/main.c:168-172 | what the array loop appends equals the element renderings joined by `, ` |
| CFValues.RenderEntriesJoin | logitech_keycolor/main.c:180-185 | what the dictionary loop appends equals the `key=value` renderings joined by `, ` |
| CFValues.RenderArray | logitech_keycolor/main.c:165-173 | an array of n elements renders as `[ `, the element renderings joined by `, `, and ` ]`: its length counts n - 1 separators, and an empty array renders as `[  ]` |
| CFValues.RenderDictionary | logitech_keycolor/main.c:174-188 | a dictionary renders as `{ `, its `key=value` renderings in the order the entries come joined by `, `, and ` }`, with n - 1 separators, and as `{  }` when empty |
| CFValues.RenderString | logitech_keycolor/main.c:159-160 | a string is appended verbatim |
| CFValues.RenderNumber | logitech_keycolor/main.c:161-164 | a number renders as `0x` and 1 to 16 lower-case hex digits that read back as its two's complement pattern; a negative number takes all 16 |
| CFValues.RenderOther | logitech_keycolor/main.c:198 | any other type renders as `??type=0x`, hex digits that read back as its type identifier, `?? `, and its description |
| DeviceDump.MaxLengthIsMax | logitech_keycolor/main.c:244-251 | the running maximum is the longest name length: no name is longer and some name has that length |
| DeviceDump.ColumnWidth | logitech_keycolor/main.c:244-252 | the column width is the longest name length plus one: every name is shorter than the column and some name is exactly one shorter; the width is 1 when there are no names |
| DeviceDump.Rows | logitech_keycolor/main.c:259-274 | every line printed names a property of the list that the device has, or unset properties are shown, and carries the rendering of its value or `<notSet>` |
| DeviceDump.SelectedRowPresent | logitech_keycolor/main.c:259-274 | every property the device has, and with unset properties shown every property of the list, gets its line |
| DeviceDump.RowSelection | logitech_keycolor/main.c:260-273 | a property gets a line exactly when it is present or unset properties are shown, and an absent one shows `<notSet>` |
| DeviceDump.RowLayout | logitech_keycolor/main.c:273 | with fewer than 100 devices and a name shorter than the column, a line is the two-digit index, a space, the name padded to the column, `: `, the value and a newline |
| DeviceDump.NameAligned | logitech_keycolor/main.c:244-273 | with fewer than 100 devices and the column one wider than the longest name, every line has its `: ` at the same position |
| DeviceDump.DumpRows | logitech_keycolor/main.c:259-274 | the property loop prints the selected lines of the device in the order of the names |
| DeviceDump.DumpDevices | logitech_keycolor/main.c:254-276 | the output is the header, then each device's lines numbered by the device's position, each device followed by an empty line |
| KeyColor.UsageSticks | logitech_keycolor/main.c:306-317 | once `usage` has exited, no later option changes the outcome |
| KeyColor.ParseOptions | logitech_keycolor/main.c:295-325 | the option loop gives usage exit 1 with no arguments, stops at `-h` (exit 0) or an unrecognised option (exit 1), and otherwise folds the options into the settings and forces the dump at four or more `-v` |
| KeyColor.FoldProceedsIff | logitech_keycolor/main.c:306-317 | the program goes on past the option loop exactly when no option is `-h` or unrecognised |
| KeyColor.FoldSettings | logitech_keycolor/main.c:298-319 | without those, `dump` is set exactly when `-d` is given, `verbose` is the number of `-v`, and the colour is that of the last colour option |
| KeyColor.FirstStopDecides | logitech_keycolor/main.c:306-317 | the first `-h` or unrecognised option decides the exit code, 0 or 1, whatever follows it |
| KeyColor.LaterColorWins | logitech_keycolor/main.c:309-314 | a later `-c` or `-C` overwrites every earlier colour |
| KeyColor.ColorOptionSetsAll | logitech_keycolor/main.c:309-311 | `-c N` sets red, green and blue all to `atoi(N)` modulo 256, and to N itself for a number N in 0..255 |
| KeyColor.ModeSelection | logitech_keycolor/main.c:324-388 | dump mode comes from `-d` or at least four `-v`; the dump shows unset properties exactly with more than four `-v`; otherwise the report carries the last colour and NOTE lines appear exactly with some `-v` |
| KeyColor.RgbOptionAlone | logitech_keycolor/main.c:312-314 | a lone `--rgb` sets the colour `parseColor` reads from its argument and leaves dump and verbose off |
| KeyColor.RgbOptionReport | logitech_keycolor/main.c:429 | `--rgb r,g,b` with three numbers in range leads to the report `{ 0, r, g, b }` |
| KeyColor.Matching | logitech_keycolor/main.c:405-408 | the matching elements are exactly the device's elements with the cookie asked for |
| KeyColor.DeviceEventsShape | logitech_keycolor/main.c:391-441 | for one device, a write happens only on a G710+ (product 0xc24d), through one of its elements with cookie 0x11d, with the report |
| KeyColor.WritesShape | logitech_keycolor/main.c:421-441 | the element loop writes only elements of the matching list, each with the report |
| KeyColor.WritesAll | logitech_keycolor/main.c:421-441 | the element loop writes every element of the matching list |
| KeyColor.WritesOnlyG710Plus | logitech_keycolor/main.c:390-442 | over all devices, every write goes to a G710+ of the list, through one of its elements with cookie 0x11d, with the report |
| KeyColor.ColorWrites | logitech_keycolor/main.c:390-442 | every element with cookie 0x11d of every G710+ is written with the report; every other product is reported as skipped and never written |
| KeyColor.WriteElements | logitech_keycolor/main.c:421-441 | the element loop performs one write per matching element, in order |
| KeyColor.SetColors | logitech_keycolor/main.c:390-442 | the device loop: skip unknown products with a message, note devices without a matching element when verbose, and write the report through every matching element |

## Left out

- IOKit and CoreFoundation plumbing (`logitech_keycolor/main.c:327-386`,
  `444-445`): creating, opening and matching with the HID manager, copying
  the device set, allocating the device array, and the exits with codes 2
  to 6 on their failures. These are calls into a closed framework. The
  devices reach the model as inputs.
- `setMatchSelection` (`logitech_keycolor/main.c:42-64`). It only fills in a
  framework dictionary. The vendor and usage-page matching it sets up is not
  modelled. The cookie match of `IOHIDDeviceCopyMatchingElements` is
  modelled as a filter on the device's elements (`KeyColor.Matching`).
  - KeyColor.Matching: assumes the framework returns NULL, not an empty
    array, when no element matches.
- `getopt_long` and `usage` (`logitech_keycolor/main.c:80-100`, `298`).
  The model starts from the options `getopt_long` returns. Usage ends as
  an exit code; the usage text on standard error is not modelled.
- The `GUESS_UNKNOWN_TYPES` table (`logitech_keycolor/main.c:105-156`,
  `190-197`). It is dead code: line 102 defines `GUESS_UNKNOWN_TYPE`,
  without the final S.
- Floating-point CF numbers coerced to `int64_t` by `CFNumberGetValue` are
  not modelled. A number is its `int64_t` value.
- The `%@` description of a value of another type is not computed. It is
  carried as text inside `CFOther`.
- DeviceDump.DumpRows: the value buffer is created with a capacity of 1024
  characters (`logitech_keycolor/main.c:267`), which CoreFoundation
  documents as the most the string may hold. That limit is not modelled:
  a rendering longer than 1024 characters is shown in full.
- `CFStringGetCStringPtr` returning NULL (`logitech_keycolor/main.c:270`) is
  not modelled. The line shows the rendering itself.
- Strings are taken to hold no NUL character.
- The property names of the dump are an input. Their text comes from
  IOKit's `kIOHID…Key` constants, which are not part of this model.
- The return codes of `IOHIDDeviceSetValue` and their WARNING lines,
  `IOHIDValueCreateWithBytes` returning NULL, and NULL elements in the
  matching array (`logitech_keycolor/main.c:424-440`) are not modelled.
  Every matching element is written.
- A missing `ProductID` property is not modelled, since the C code then
  passes NULL to `CFNumberGetValue`. Each device carries its product ID.
- The `NOTE` line names the device by its index, not its pointer value.
- CStdlib.Atoi: keeps the exact value of the digits. In C, an out-of-range
  result is undefined behaviour; here it is reduced modulo 256 like any
  other value.
- KeyColor.ParseOptions: `option_verbose` is an unbounded counter. The C
  `int` would overflow only after more than 2^31 `-v` options.
- KeyColor.ParseOptions: uses the corrected `parseColor`. With the code as
  written, `--rgb` with fewer than three components never returns (see
  Findings).
- `logitech_keycolor/logitech_keycolor/main.c`, an older variant of the
  program, is not part of this model.

## Findings

| source | as written | input that shows it | evidently intended | confidence | as-written member | corrected member |
|---|---|---|---|---|---|---|
| logitech_keycolor/main.c:75-77 | `while (cIdx < 3) { *cc[cIdx] = 0; }` never changes `cIdx`, so on the C abstract machine the loop never ends once entered. Section 6.8.5 paragraph 6 of C11 lets an optimising compiler assume such a loop (non-constant guard, no I/O or volatile access) terminates, so an optimised build may behave otherwise | `--rgb 255`, or any argument with fewer than three non-empty tokens, since `strtok` skips empty fields (`--rgb 1,,2`, `--rgb ''`) | zero each missing component and advance, `*cc[cIdx++] = 0` | high, not executed | ColorArg.OneComponentAsWritten | ColorArg.ParseColor |
