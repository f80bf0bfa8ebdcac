/** `strtok` (section 7.24.5.8 of C11) as a scanner over the remaining text:
    each call skips the delimiters in front of it, takes the longest run of
    non-delimiters as the token, and resumes just past the delimiter that
    ended it. Empty tokens never occur. */
module Strtok {
  import opened CTypes
  import opened Text

  /** A token as `strtok` returns it: non-empty and free of delimiters. */
  predicate IsToken(t: string, delims: set<char>)
  {
    |t| > 0 && forall i :: 0 <= i < |t| ==> t[i] !in delims
  }

  /** Number of delimiters at the start of `s`. */
  function DelimsLength(s: string, delims: set<char>): (n: nat)
    ensures n <= |s|
    ensures forall i :: 0 <= i < n ==> s[i] in delims
    ensures n == |s| || s[n] !in delims
  {
    if s != [] && s[0] in delims then 1 + DelimsLength(s[1..], delims) else 0
  }

  /** Length of the longest prefix of `s` that holds no delimiter. */
  function TokenLength(s: string, delims: set<char>): (n: nat)
    ensures n <= |s|
    ensures forall i :: 0 <= i < n ==> s[i] !in delims
    ensures n == |s| || s[n] in delims
  {
    if s == [] || s[0] in delims then 0 else 1 + TokenLength(s[1..], delims)
  }

  /** The token one call returns, and the text the next call resumes on. */
  datatype Scan = Scan(token: string, rest: string)

  /** One call of `strtok`; None stands for the NULL result. */
  function NextToken(s: string, delims: set<char>): (r: Option<Scan>)
    ensures r.Some? ==> |r.value.rest| < |s|
  {
    var t := s[DelimsLength(s, delims)..];
    if t == [] then None
    else
      var n := TokenLength(t, delims);
      Some(Scan(t[..n], if n < |t| then t[n + 1..] else []))
  }

  /** NULL comes back exactly when nothing but delimiters is left, and
      otherwise the token is non-empty and free of delimiters. */
  lemma NextTokenResult(s: string, delims: set<char>)
    ensures NextToken(s, delims).Some? ==> IsToken(NextToken(s, delims).value.token, delims)
    ensures NextToken(s, delims).None? <==> forall i :: 0 <= i < |s| ==> s[i] in delims
  {
    var n := DelimsLength(s, delims);
    if n < |s| {
      assert s[n..][0] == s[n];
    }
  }

  /** Every token that successive calls return, in order. */
  function Tokens(s: string, delims: set<char>): (ts: seq<string>)
    decreases |s|
  {
    match NextToken(s, delims)
    case None => []
    case Some(sc) => [sc.token] + Tokens(sc.rest, delims)
  }

  /** Every token returned is non-empty and holds no delimiter. */
  lemma {:induction false} TokensAreTokens(s: string, delims: set<char>)
    ensures forall k :: 0 <= k < |Tokens(s, delims)| ==> IsToken(Tokens(s, delims)[k], delims)
    decreases |s|
  {
    NextTokenResult(s, delims);
    match NextToken(s, delims)
    case None =>
    case Some(sc) =>
      TokensAreTokens(sc.rest, delims);
  }

  /** `s` with every delimiter removed. */
  function Without(s: string, delims: set<char>): string
  {
    if s == [] then ""
    else (if s[0] in delims then "" else [s[0]]) + Without(s[1..], delims)
  }

  function Concat(ts: seq<string>): string
  {
    if ts == [] then "" else ts[0] + Concat(ts[1..])
  }

  lemma {:induction false} WithoutAppend(a: string, b: string, delims: set<char>)
    ensures Without(a + b, delims) == Without(a, delims) + Without(b, delims)
  {
    if a != [] {
      assert (a + b)[1..] == a[1..] + b;
      WithoutAppend(a[1..], b, delims);
    } else {
      assert a + b == b;
    }
  }

  lemma {:induction false} WithoutDelims(a: string, delims: set<char>)
    requires forall i :: 0 <= i < |a| ==> a[i] in delims
    ensures Without(a, delims) == ""
  {
    if a != [] {
      WithoutDelims(a[1..], delims);
    }
  }

  lemma {:induction false} WithoutNoDelims(a: string, delims: set<char>)
    requires forall i :: 0 <= i < |a| ==> a[i] !in delims
    ensures Without(a, delims) == a
  {
    if a != [] {
      WithoutNoDelims(a[1..], delims);
    }
  }

  lemma {:induction false} WithoutSkip(s: string, delims: set<char>)
    ensures Without(s, delims) == Without(s[DelimsLength(s, delims)..], delims)
  {
    if s != [] && s[0] in delims {
      WithoutSkip(s[1..], delims);
      assert s[1..][DelimsLength(s[1..], delims)..] == s[DelimsLength(s, delims)..];
    }
  }

  lemma {:induction false} WithoutToken(t: string, delims: set<char>)
    ensures var n := TokenLength(t, delims);
      Without(t, delims) == t[..n] + Without(if n < |t| then t[n + 1..] else [], delims)
  {
    if t != [] && t[0] !in delims {
      var n := TokenLength(t, delims);
      WithoutToken(t[1..], delims);
      assert t[1..][..n - 1] == t[1..n];
      assert t[..n] == [t[0]] + t[1..n];
      if n < |t| {
        assert t[1..][n..] == t[n + 1..];
      }
    }
  }

  /** One call consumes the skipped delimiters, the token and the delimiter
      after it: nothing but delimiters is lost. */
  lemma NextTokenKeeps(s: string, delims: set<char>)
    requires NextToken(s, delims).Some?
    ensures var sc := NextToken(s, delims).value;
      Without(s, delims) == sc.token + Without(sc.rest, delims)
  {
    WithoutSkip(s, delims);
    WithoutToken(s[DelimsLength(s, delims)..], delims);
  }

  /** The tokens, laid end to end, are the input without its delimiters. */
  lemma {:induction false} TokensKeepText(s: string, delims: set<char>)
    ensures Concat(Tokens(s, delims)) == Without(s, delims)
    decreases |s|
  {
    NextTokenResult(s, delims);
    match NextToken(s, delims)
    case None =>
      WithoutDelims(s, delims);
    case Some(sc) =>
      NextTokenKeeps(s, delims);
      TokensKeepText(sc.rest, delims);
  }

  lemma {:induction false} TokenLengthOf(tok: string, tail: string, delims: set<char>)
    requires forall i :: 0 <= i < |tok| ==> tok[i] !in delims
    requires tail == [] || tail[0] in delims
    ensures TokenLength(tok + tail, delims) == |tok|
  {
    if tok != [] {
      assert (tok + tail)[1..] == tok[1..] + tail;
      TokenLengthOf(tok[1..], tail, delims);
    }
  }

  /** Splitting what was joined with a delimiter gives back the tokens. */
  lemma {:induction false} TokensOfJoin(ts: seq<string>, d: char, delims: set<char>)
    requires d in delims
    requires forall k :: 0 <= k < |ts| ==> IsToken(ts[k], delims)
    ensures Tokens(Join(ts, [d]), delims) == ts
  {
    if |ts| == 1 {
      TokenLengthOf(ts[0], [], delims);
      assert ts[0] + [] == ts[0];
    } else if |ts| > 1 {
      var tail := Join(ts[1..], [d]);
      var s := ts[0] + [d] + tail;
      assert s == ts[0] + ([d] + tail);
      TokenLengthOf(ts[0], [d] + tail, delims);
      assert s[..|ts[0]|] == ts[0];
      assert s[|ts[0]| + 1..] == tail;
      TokensOfJoin(ts[1..], d, delims);
    }
  }
}
