/** `parseColor`: the `--rgb r,g,b` argument split on commas, each component
    converted with `atoi` and narrowed to `uint8_t`, stored through three
    out-pointers. */
module ColorArg {
  import opened CTypes
  import opened Text
  import opened CFormat
  import opened CStdlib
  import opened Strtok

  /** The delimiter set `parseColor` hands to `strtok`. */
  const Separators: set<char> := {','}

  datatype Rgb = Rgb(red: uint8, green: uint8, blue: uint8)

  /** Component `k` of the colour: the k-th token read by `atoi` and narrowed
      to `uint8_t`, or 0 when the argument has fewer tokens. */
  function Component(tokens: seq<string>, k: nat): uint8
  {
    if k < |tokens| then ToUint8(Atoi(tokens[k])) else 0
  }

  /** The colour `parseColor` stores for an argument. */
  function ParsedColor(arg: string): Rgb
  {
    var ts := Tokens(arg, Separators);
    Rgb(Component(ts, 0), Component(ts, 1), Component(ts, 2))
  }

  /** The token loop of `parseColor`: `strtok` is called until it returns
      NULL or three components are stored, each token read by `atoi` and
      narrowed to `uint8_t`. Returns `cIdx`, the number stored. */
  method StoreTokens(str: string, cc: array<uint8>) returns (cIdx: nat)
    requires cc.Length == 3
    modifies cc
    ensures cIdx == if |Tokens(str, Separators)| < 3 then |Tokens(str, Separators)| else 3
    ensures forall k :: 0 <= k < cIdx ==> cc[k] == Component(Tokens(str, Separators), k)
    ensures forall k :: cIdx <= k < 3 ==> cc[k] == old(cc[k])
  {
    ghost var ts := Tokens(str, Separators);
    cIdx := 0;
    var rest := str;
    var cp := NextToken(rest, Separators);
    while cp.Some? && cIdx < 3
      invariant cIdx <= 3 && cIdx <= |ts|
      invariant cp == NextToken(rest, Separators)
      invariant Tokens(rest, Separators) == ts[cIdx..]
      invariant forall k :: 0 <= k < cIdx ==> cc[k] == ToUint8(Atoi(ts[k]))
      invariant forall k :: cIdx <= k < 3 ==> cc[k] == old(cc[k])
      decreases |rest|
    {
      TokensStep(rest, ts, cIdx);
      cc[cIdx] := ToUint8(Atoi(cp.value.token));
      cIdx := cIdx + 1;
      rest := cp.value.rest;
      cp := NextToken(rest, Separators);
    }
    assert cIdx < 3 ==> Tokens(rest, Separators) == [];
  }

  /** One more call of `strtok` yields the next of the remaining tokens. */
  lemma TokensStep(rest: string, ts: seq<string>, i: nat)
    requires NextToken(rest, Separators).Some?
    requires i <= |ts| && Tokens(rest, Separators) == ts[i..]
    ensures var sc := NextToken(rest, Separators).value;
      i < |ts| && ts[i] == sc.token && Tokens(sc.rest, Separators) == ts[i + 1..]
  {
    var sc := NextToken(rest, Separators).value;
    assert ts[i..] == [sc.token] + Tokens(sc.rest, Separators);
    assert ts[i..][1..] == ts[i + 1..];
  }

  /** The zero-fill loop of `parseColor`, with `cIdx` advancing: every
      component from `cIdx` on is set to 0. */
  method ZeroFill(cc: array<uint8>, cIdx: nat)
    requires cc.Length == 3 && cIdx <= 3
    modifies cc
    ensures forall k :: 0 <= k < cIdx ==> cc[k] == old(cc[k])
    ensures forall k :: cIdx <= k < 3 ==> cc[k] == 0
  {
    var i := cIdx;
    while i < 3
      invariant cIdx <= i <= 3
      invariant forall k :: 0 <= k < cIdx ==> cc[k] == old(cc[k])
      invariant forall k :: cIdx <= k < i ==> cc[k] == 0
    {
      cc[i] := 0;
      i := i + 1;
    }
  }

  /** `parseColor` with the zero-fill loop advancing `cIdx`. The inputs
      `red`, `green`, `blue` are what the three pointers point at on entry;
      the outputs are what they point at on return. */
  method ParseColor(str: string, red: uint8, green: uint8, blue: uint8)
    returns (red': uint8, green': uint8, blue': uint8)
    ensures Rgb(red', green', blue') == ParsedColor(str)
  {
    var cc := new uint8[3];
    cc[0], cc[1], cc[2] := red, green, blue;
    var cIdx := StoreTokens(str, cc);
    ZeroFill(cc, cIdx);
    red', green', blue' := cc[0], cc[1], cc[2];
  }

  /** What an argument made of comma-joined tokens parses to: the first
      three tokens, read by `atoi` and narrowed to `uint8_t`, any further
      token ignored, any missing one zero. */
  lemma ParsedColorOfJoin(ts: seq<string>)
    requires forall k :: 0 <= k < |ts| ==> IsToken(ts[k], Separators)
    ensures var c := ParsedColor(Join(ts, ","));
      && c.red == (if 0 < |ts| then ToUint8(Atoi(ts[0])) else 0)
      && c.green == (if 1 < |ts| then ToUint8(Atoi(ts[1])) else 0)
      && c.blue == (if 2 < |ts| then ToUint8(Atoi(ts[2])) else 0)
  {
    TokensOfJoin(ts, ',', Separators);
  }

  lemma DecimalIsToken(n: nat)
    ensures IsToken(Decimal(n), Separators)
  {
    var d := Decimal(n);
    forall i | 0 <= i < |d|
      ensures d[i] !in Separators
    {
      assert IsDigit(d[i]);
    }
  }

  lemma AtoiOfDecimal(n: nat)
    ensures Atoi(Decimal(n)) == n
  {
    AtoiOfDigits(n, []);
    assert Decimal(n) + [] == Decimal(n);
  }

  /** The form the usage text advertises, `{0-255,0-255,0-255}`, parses
      to exactly the three numbers written. */
  lemma ParsedColorOfDecimals(red: uint8, green: uint8, blue: uint8)
    ensures ParsedColor(Decimal(red) + "," + Decimal(green) + "," + Decimal(blue))
         == Rgb(red, green, blue)
  {
    var ts := [Decimal(red), Decimal(green), Decimal(blue)];
    DecimalIsToken(red);
    DecimalIsToken(green);
    DecimalIsToken(blue);
    JoinThree(Decimal(red), Decimal(green), Decimal(blue), ",");
    ParsedColorOfJoin(ts);
    AtoiOfDecimal(red);
    AtoiOfDecimal(green);
    AtoiOfDecimal(blue);
  }

  /** The zero-fill loop of `parseColor` as written: the components the
      pointers reach, and `cIdx`. */
  datatype FillState = FillState(cc: seq<uint8>, cIdx: nat)

  /** One pass through the fill loop's body as written: it stores 0 through
      `cc[cIdx]` and never advances `cIdx`. */
  function FillBodyAsWritten(st: FillState): (r: FillState)
    requires st.cIdx < |st.cc|
    ensures |r.cc| == |st.cc| && r.cc[st.cIdx] == 0
  {
    FillState(st.cc[st.cIdx := 0], st.cIdx)
  }

  /** The fill loop as written, followed for at most `steps` passes. */
  function FillAsWritten(st: FillState, steps: nat): FillState
    requires |st.cc| == 3
    decreases steps
  {
    if steps == 0 || st.cIdx >= 3 then st
    else FillAsWritten(FillBodyAsWritten(st), steps - 1)
  }

  /** Once entered, the fill loop as written never leaves: however many
      passes are taken, `cIdx` is where it started and the guard
      `cIdx < 3` still holds. */
  lemma {:induction false} FillAsWrittenNeverExits(st: FillState, steps: nat)
    requires |st.cc| == 3 && st.cIdx < 3
    ensures FillAsWritten(st, steps).cIdx == st.cIdx < 3
    decreases steps
  {
    if steps > 0 {
      FillAsWrittenNeverExits(FillBodyAsWritten(st), steps - 1);
    }
  }

  /** `parseColor("255", …)` as written: the token loop leaves `cIdx == 1`,
      and from there the fill loop never leaves, however many passes it
      takes. */
  method OneComponentAsWritten(cc: array<uint8>) returns (cIdx: nat)
    requires cc.Length == 3
    modifies cc
    ensures cIdx == 1 && cc[0] == ToUint8(Atoi("255"))
    ensures forall steps: nat :: FillAsWritten(FillState(cc[..], cIdx), steps).cIdx < 3
  {
    OneToken("255");
    cIdx := StoreTokens("255", cc);
    forall steps: nat
      ensures FillAsWritten(FillState(cc[..], cIdx), steps).cIdx < 3
    {
      FillAsWrittenNeverExits(FillState(cc[..], cIdx), steps);
    }
  }

  /** An argument without a comma is a single token. */
  lemma OneToken(t: string)
    requires IsToken(t, Separators)
    ensures Tokens(t, Separators) == [t]
  {
    TokensOfJoin([t], ',', Separators);
  }
}
