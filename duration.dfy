/** The fallback of the duration lookup: the engine's diagnostic banner is searched for the
    leftmost match of `Duration:\s*(\d{2}):(\d{2}):(\d{2}\.\d{2})`, and the three fields give
    hours * 3600 + minutes * 60 + seconds. Durations are kept in hundredths of a second, which the
    two decimals of the banner represent exactly. */
module Duration {
  import opened Wrappers
  import opened Text

  const Marker: string := "Duration:"

  /** `DD:DD:DD.DD` at the start of `t`. */
  predicate ClockShape(t: string) {
    && |t| >= 11
    && IsAsciiDigit(t[0]) && IsAsciiDigit(t[1]) && t[2] == ':'
    && IsAsciiDigit(t[3]) && IsAsciiDigit(t[4]) && t[5] == ':'
    && IsAsciiDigit(t[6]) && IsAsciiDigit(t[7]) && t[8] == '.'
    && IsAsciiDigit(t[9]) && IsAsciiDigit(t[10])
  }

  function TwoDigits(t: string, i: nat): nat
    requires i + 1 < |t| && IsAsciiDigit(t[i]) && IsAsciiDigit(t[i + 1])
  {
    DigitValue(t[i]) * 10 + DigitValue(t[i + 1])
  }

  /** The clock at the start of `t` in hundredths of a second. */
  function ClockCentiseconds(t: string): nat
    requires ClockShape(t)
  {
    (TwoDigits(t, 0) * 3600 + TwoDigits(t, 3) * 60 + TwoDigits(t, 6)) * 100 + TwoDigits(t, 9)
  }

  /** The pattern matches at `i` with its first field at `j`: the marker, whitespace up to `j`,
      then the clock. */
  ghost predicate PatternAt(s: string, i: int, j: int) {
    && 0 <= i && i + |Marker| <= j <= |s|
    && s[i..i + |Marker|] == Marker
    && (forall k :: i + |Marker| <= k < j ==> IsWhiteSpace(s[k]))
    && ClockShape(s[j..])
  }

  /** Where the first field of a match at `i` must start: after the greedy whitespace run,
      since a digit is not whitespace. */
  function FieldStart(s: string, i: nat): (j: nat)
    requires i + |Marker| <= |s|
    ensures i + |Marker| <= j <= |s|
  {
    i + |Marker| + SpaceRun(s[i + |Marker|..])
  }

  /** The pattern matches at `i`. */
  predicate BannerAt(s: string, i: nat) {
    i + |Marker| <= |s| && s[i..i + |Marker|] == Marker && ClockShape(s[FieldStart(s, i)..])
  }

  /** The greedy reading loses no match: the pattern matches at `i` exactly when it matches
      with the first field right after the whole whitespace run. */
  lemma BannerAtIffPattern(s: string, i: nat)
    ensures BannerAt(s, i) <==> exists j :: PatternAt(s, i, j)
  {
    if BannerAt(s, i) {
      var j := FieldStart(s, i);
      var t := s[i + |Marker|..];
      forall k | i + |Marker| <= k < j
        ensures IsWhiteSpace(s[k])
      {
        assert s[k] == t[k - i - |Marker|];
      }
      assert PatternAt(s, i, j);
    }
    if j :| PatternAt(s, i, j) {
      var t := s[i + |Marker|..];
      var n := SpaceRun(t);
      var m := j - i - |Marker|;
      assert FieldStart(s, i) == j;
    }
  }

  /** The leftmost match at or after `from`. */
  function FindBanner(s: string, from: nat): (r: Option<nat>)
    ensures r.Some? ==> from <= r.value && BannerAt(s, r.value)
    ensures r.Some? ==> forall i :: from <= i < r.value ==> !BannerAt(s, i)
    ensures r.None? ==> forall i :: from <= i ==> !BannerAt(s, i)
    decreases |s| - from
  {
    if from + |Marker| > |s| then None
    else if BannerAt(s, from) then Some(from)
    else FindBanner(s, from + 1)
  }

  /** The duration the fallback reports, in hundredths of a second: 0 when the engine could not
      be started (`stderr` is None) or its banner has no match, else the first match's clock. */
  function FallbackDuration(stderr: Option<string>): (r: nat)
    ensures stderr.None? ==> r == 0
    ensures stderr.Some? && (forall i :: !BannerAt(stderr.value, i)) ==> r == 0
  {
    match stderr
    case None => 0
    case Some(s) =>
      match FindBanner(s, 0)
      case None => 0
      case Some(i) => ClockCentiseconds(s[FieldStart(s, i)..])
  }

  /** The two-digit field the banner prints for `n`. */
  function Field(n: nat): (t: string)
    requires n < 100
    ensures |t| == 2 && IsAsciiDigit(t[0]) && IsAsciiDigit(t[1])
  {
    [DigitChar(n / 10), DigitChar(n % 10)]
  }

  /** The banner's clock for the given fields. */
  function Clock(hours: nat, minutes: nat, seconds: nat, hundredths: nat): (t: string)
    requires hours < 100 && minutes < 100 && seconds < 100 && hundredths < 100
    ensures ClockShape(t)
  {
    Field(hours) + ":" + Field(minutes) + ":" + Field(seconds) + "." + Field(hundredths)
  }

  lemma ClockValue(hours: nat, minutes: nat, seconds: nat, hundredths: nat, rest: string)
    requires hours < 100 && minutes < 100 && seconds < 100 && hundredths < 100
    ensures ClockShape(Clock(hours, minutes, seconds, hundredths) + rest)
    ensures ClockCentiseconds(Clock(hours, minutes, seconds, hundredths) + rest)
            == (hours * 3600 + minutes * 60 + seconds) * 100 + hundredths
  {
    var t := Clock(hours, minutes, seconds, hundredths) + rest;
    assert t[..11] == Clock(hours, minutes, seconds, hundredths);
    assert TwoDigits(t, 0) == hours;
    assert TwoDigits(t, 3) == minutes;
    assert TwoDigits(t, 6) == seconds;
    assert TwoDigits(t, 9) == hundredths;
  }

  lemma {:induction false} SpaceRunAppend(gap: string, t: string)
    requires forall k :: 0 <= k < |gap| ==> IsWhiteSpace(gap[k])
    requires t != [] && !IsWhiteSpace(t[0])
    ensures SpaceRun(gap + t) == |gap|
  {
    if gap != [] {
      assert (gap + t)[1..] == gap[1..] + t;
      SpaceRunAppend(gap[1..], t);
    } else {
      assert gap + t == t;
    }
  }

  /** A banner whose text before the marker holds no `D` reports the clock it prints: the parse
      undoes the printing for every clock, whatever whitespace separates it from the marker. */
  lemma BannerRoundTrip(before: string, gap: string, hours: nat, minutes: nat, seconds: nat,
                        hundredths: nat, after: string)
    requires forall k :: 0 <= k < |before| ==> before[k] != 'D'
    requires forall k :: 0 <= k < |gap| ==> IsWhiteSpace(gap[k])
    requires hours < 100 && minutes < 100 && seconds < 100 && hundredths < 100
    ensures FallbackDuration(Some(before + Marker + gap + Clock(hours, minutes, seconds, hundredths) + after))
            == (hours * 3600 + minutes * 60 + seconds) * 100 + hundredths
  {
    var clock := Clock(hours, minutes, seconds, hundredths) + after;
    var s := before + Marker + gap + clock;
    assert s == before + Marker + gap + Clock(hours, minutes, seconds, hundredths) + after;
    ClockValue(hours, minutes, seconds, hundredths, after);
    BannerAfter(before, gap, clock);
    NoBannerBefore(before, Marker + gap + clock);
    assert s == before + (Marker + gap + clock);
    FallbackAt(s, |before|);
  }

  /** The fallback reports the clock of the leftmost match. */
  lemma FallbackAt(s: string, i: nat)
    requires BannerAt(s, i) && forall j :: 0 <= j < i ==> !BannerAt(s, j)
    ensures FallbackDuration(Some(s)) == ClockCentiseconds(s[FieldStart(s, i)..])
  {
    var r := FindBanner(s, 0);
    assert r == Some(i);
  }

  /** The marker, whitespace and a clock make a match whose first field is the clock's. */
  lemma BannerAfter(before: string, gap: string, clock: string)
    requires forall k :: 0 <= k < |gap| ==> IsWhiteSpace(gap[k])
    requires ClockShape(clock)
    ensures var s := before + Marker + gap + clock;
      BannerAt(s, |before|) && s[FieldStart(s, |before|)..] == clock
  {
    var s := before + Marker + gap + clock;
    var i := |before|;
    assert s[i..i + |Marker|] == Marker;
    assert s[i + |Marker|..] == gap + clock;
    SpaceRunAppend(gap, clock);
  }

  /** Text without a `D` holds no match. */
  lemma NoBannerBefore(before: string, rest: string)
    requires forall k :: 0 <= k < |before| ==> before[k] != 'D'
    ensures forall j :: 0 <= j < |before| ==> !BannerAt(before + rest, j)
  {
    var s := before + rest;
    forall j | 0 <= j < |before|
      ensures !BannerAt(s, j)
    {
      assert s[j] == before[j];
    }
  }
}
