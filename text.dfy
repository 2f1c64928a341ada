/** Character classes and small text routines shared by the parsers. */
module Text {
  import opened Wrappers

  /** The class `\s` of .NET regular expressions, which is also `Char.IsWhiteSpace`:
      the controls U+0009..U+000D and U+0085 and the Unicode separators (Zs, Zl, Zp). */
  predicate IsWhiteSpace(c: char) {
    || ('\t' <= c <= '\r')
    || c == ' '
    || c == '\U{0085}'
    || c == '\U{00A0}'
    || c == '\U{1680}'
    || ('\U{2000}' <= c <= '\U{200A}')
    || c == '\U{2028}'
    || c == '\U{2029}'
    || c == '\U{202F}'
    || c == '\U{205F}'
    || c == '\U{3000}'
  }

  predicate IsAsciiDigit(c: char) {
    '0' <= c <= '9'
  }

  /** The class `[a-zA-Z0-9_]`. */
  predicate IsWordChar(c: char) {
    ('a' <= c <= 'z') || ('A' <= c <= 'Z') || IsAsciiDigit(c) || c == '_'
  }

  predicate AllDigits(s: string) {
    forall k :: 0 <= k < |s| ==> IsAsciiDigit(s[k])
  }

  function DigitValue(c: char): (d: nat)
    requires IsAsciiDigit(c)
    ensures d < 10
  {
    c as int - '0' as int
  }

  function DigitChar(d: nat): (c: char)
    requires d < 10
    ensures IsAsciiDigit(c) && DigitValue(c) == d
  {
    ('0' as int + d) as char
  }

  /** Length of the longest prefix of `t` made of whitespace (a greedy `\s*`). */
  function SpaceRun(t: string): (n: nat)
    ensures n <= |t|
    ensures forall k :: 0 <= k < n ==> IsWhiteSpace(t[k])
    ensures n < |t| ==> !IsWhiteSpace(t[n])
  {
    if t != [] && IsWhiteSpace(t[0]) then 1 + SpaceRun(t[1..]) else 0
  }

  /** The whitespace run is fixed by where the whitespace stops. */
  lemma SpaceRunIs(t: string, n: nat)
    requires n <= |t| && (forall k :: 0 <= k < n ==> IsWhiteSpace(t[k]))
    requires n < |t| ==> !IsWhiteSpace(t[n])
    ensures SpaceRun(t) == n
  {
  }

  /** Length of the longest prefix of `t` made of word characters (a greedy `[a-zA-Z0-9_]*`). */
  function WordRun(t: string): (n: nat)
    ensures n <= |t|
    ensures forall k :: 0 <= k < n ==> IsWordChar(t[k])
    ensures n < |t| ==> !IsWordChar(t[n])
  {
    if t != [] && IsWordChar(t[0]) then 1 + WordRun(t[1..]) else 0
  }

  /** The value of a string of decimal digits, most significant first. */
  function DigitsValue(s: string): nat
    requires AllDigits(s)
  {
    if s == [] then 0 else DigitsValue(s[..|s| - 1]) * 10 + DigitValue(s[|s| - 1])
  }

  /** Decimal rendering of a natural number, as `ToString()` writes it. */
  function NatToDigits(n: nat): (s: string)
    ensures s != [] && AllDigits(s)
  {
    if n < 10 then [DigitChar(n)] else NatToDigits(n / 10) + [DigitChar(n % 10)]
  }

  lemma {:induction false} DigitsRoundTrip(n: nat)
    ensures DigitsValue(NatToDigits(n)) == n
  {
    if n >= 10 {
      var s := NatToDigits(n);
      assert s[..|s| - 1] == NatToDigits(n / 10);
      DigitsRoundTrip(n / 10);
    }
  }

  /** Decimal rendering of an integer, with a leading `-` when negative. */
  function IntToText(n: int): (s: string)
    ensures s != [] && !IsWhiteSpace(s[0]) && !IsWhiteSpace(s[|s| - 1])
    ensures s[0] == '-' || IsAsciiDigit(s[0])
  {
    if n < 0 then "-" + NatToDigits(-n) else NatToDigits(n)
  }

  /** An integer written as an optional sign followed by at least one ASCII digit. */
  function ParseInteger(s: string): Option<int> {
    if s != [] && (s[0] == '-' || s[0] == '+') then
      if |s| > 1 && AllDigits(s[1..]) then
        var magnitude: int := DigitsValue(s[1..]);
        Some(if s[0] == '-' then -magnitude else magnitude)
      else None
    else if s != [] && AllDigits(s) then Some(DigitsValue(s))
    else None
  }

  lemma IntegerRoundTrip(n: int)
    ensures ParseInteger(IntToText(n)) == Some(n)
  {
    if n < 0 {
      NegativeRoundTrip(n);
    } else {
      var s := NatToDigits(n);
      assert IntToText(n) == s && IsAsciiDigit(s[0]);
      DigitsRoundTrip(n);
    }
  }

  lemma NegativeRoundTrip(n: int)
    requires n < 0
    ensures ParseInteger("-" + NatToDigits(-n)) == Some(n)
  {
    var s := "-" + NatToDigits(-n);
    assert s[0] == '-' && s[1..] == NatToDigits(-n);
    DigitsRoundTrip(-n);
  }

  /** `String.TrimStart()`: drops the leading whitespace. */
  function TrimStart(s: string): (r: string)
    ensures |r| <= |s| && r == s[|s| - |r|..]
    ensures forall k :: 0 <= k < |s| - |r| ==> IsWhiteSpace(s[k])
    ensures r != [] ==> !IsWhiteSpace(r[0])
  {
    if s != [] && IsWhiteSpace(s[0]) then TrimStart(s[1..]) else s
  }

  /** `String.TrimEnd()`: drops the trailing whitespace. */
  function TrimEnd(s: string): (r: string)
    ensures |r| <= |s| && r == s[..|r|]
    ensures forall k :: |r| <= k < |s| ==> IsWhiteSpace(s[k])
    ensures r != [] ==> !IsWhiteSpace(r[|r| - 1])
  {
    if s != [] && IsWhiteSpace(s[|s| - 1]) then TrimEnd(s[..|s| - 1]) else s
  }

  /** `String.Trim()`: the longest infix of `s` that neither starts nor ends with whitespace. */
  function Trim(s: string): (r: string)
    ensures exists i :: InfixAt(s, i, r) && AllWhiteSpace(s[..i]) && AllWhiteSpace(s[i + |r|..])
    ensures r != [] ==> !IsWhiteSpace(r[0]) && !IsWhiteSpace(r[|r| - 1])
    ensures s != [] && !IsWhiteSpace(s[0]) && !IsWhiteSpace(s[|s| - 1]) ==> r == s
  {
    var t := TrimStart(s);
    var r := TrimEnd(t);
    TrimSplit(s, t, r);
    r
  }

  predicate AllWhiteSpace(s: string) {
    forall k :: 0 <= k < |s| ==> IsWhiteSpace(s[k])
  }

  /** Whitespace dropped from the front of `s` leaves `t`, and whitespace dropped from the back of
      `t` leaves `r`: then `r` sits in `s` between two runs of whitespace. */
  lemma TrimSplit(s: string, t: string, r: string)
    requires |t| <= |s| && t == s[|s| - |t|..] && forall k :: 0 <= k < |s| - |t| ==> IsWhiteSpace(s[k])
    requires |r| <= |t| && r == t[..|r|] && forall k :: |r| <= k < |t| ==> IsWhiteSpace(t[k])
    ensures var i := |s| - |t|; InfixAt(s, i, r) && AllWhiteSpace(s[..i]) && AllWhiteSpace(s[i + |r|..])
  {
    var i := |s| - |t|;
    forall k | i + |r| <= k < |s|
      ensures IsWhiteSpace(s[k])
    {
      assert s[k] == t[k - i];
    }
    assert s[i..i + |r|] == t[..|r|];
  }

  lemma {:induction false} TrimStartPadded(pad: string, u: string)
    requires AllWhiteSpace(pad) && (u != [] ==> !IsWhiteSpace(u[0]))
    ensures TrimStart(pad + u) == u
  {
    if pad != [] {
      assert (pad + u)[1..] == pad[1..] + u;
      TrimStartPadded(pad[1..], u);
    } else {
      assert pad + u == u;
    }
  }

  lemma {:induction false} TrimEndPadded(u: string, pad: string)
    requires AllWhiteSpace(pad) && (u != [] ==> !IsWhiteSpace(u[|u| - 1]))
    ensures TrimEnd(u + pad) == u
  {
    if pad != [] {
      assert (u + pad)[..|u + pad| - 1] == u + pad[..|pad| - 1];
      TrimEndPadded(u, pad[..|pad| - 1]);
    } else {
      assert u + pad == u;
    }
  }

  /** Trimming removes exactly the whitespace padding around a word. */
  lemma TrimPadded(before: string, u: string, after: string)
    requires AllWhiteSpace(before) && AllWhiteSpace(after)
    requires u != [] && !IsWhiteSpace(u[0]) && !IsWhiteSpace(u[|u| - 1])
    ensures Trim(before + u + after) == u
  {
    assert before + u + after == before + (u + after);
    TrimStartPadded(before, u + after);
    TrimEndPadded(u, after);
  }

  /** `r` occurs in `s` at index `i`. */
  predicate InfixAt(s: string, i: int, r: string) {
    0 <= i <= |s| - |r| && s[i..i + |r|] == r
  }

  /** `ToLower()` on ASCII letters; other characters are kept. */
  function LowerAscii(s: string): (r: string)
    ensures |r| == |s|
    ensures forall k :: 0 <= k < |s| ==> r[k] == LowerChar(s[k])
  {
    if s == [] then [] else [LowerChar(s[0])] + LowerAscii(s[1..])
  }

  function LowerChar(c: char): char {
    if 'A' <= c <= 'Z' then (c as int - 'A' as int + 'a' as int) as char else c
  }
}
