/** Reading the engine's encoder listing: every non-overlapping match of the pattern
    `V.....\s+([a-zA-Z0-9_]+)`, scanned left to right, yields its captured identifier. */
module EncoderList {
  import opened Wrappers
  import opened Text

  /** A match found at the start of a text: the captured identifier and the length of the match. */
  datatype EncoderMatch = EncoderMatch(name: string, length: nat)

  predicate IsIdentifier(s: string) {
    s != [] && forall k :: 0 <= k < |s| ==> IsWordChar(s[k])
  }

  /** The pattern matches `t[..e]` with its capture `t[w..e]`: a `V`, five characters other
      than a newline, whitespace up to `w`, then word characters up to `e`. */
  ghost predicate PatternAt(t: string, w: int, e: int) {
    && 7 <= w < e <= |t|
    && t[0] == 'V'
    && (forall k :: 1 <= k < 6 ==> t[k] != '\n')
    && (forall k :: 6 <= k < w ==> IsWhiteSpace(t[k]))
    && (forall k :: w <= k < e ==> IsWordChar(t[k]))
  }

  /** The match the .NET engine reports at the start of `t`, if any: greedy `\s+`, then the
      longest identifier. */
  function MatchAt(t: string): (r: Option<EncoderMatch>)
    ensures r.None? <==> forall w, e :: !PatternAt(t, w, e)
    ensures r.Some? ==> 8 <= r.value.length <= |t| && IsIdentifier(r.value.name)
  {
    if |t| >= 7 && t[0] == 'V' && (forall k :: 1 <= k < 6 ==> t[k] != '\n') && IsWhiteSpace(t[6]) then
      var w := 6 + SpaceRun(t[6..]);
      if w < |t| && IsWordChar(t[w]) then
        var n := WordRun(t[w..]);
        CaptureRun(t, w);
        Some(EncoderMatch(t[w..w + n], w + n))
      else
        assert forall w', e' :: !PatternAt(t, w', e') by {
          forall w', e' | PatternAt(t, w', e') ensures false { PatternStart(t, w', e'); }
        }
        None
    else
      assert forall w', e' :: !PatternAt(t, w', e') by {
        forall w', e' | PatternAt(t, w', e') ensures false { PatternStart(t, w', e'); }
      }
      None
  }

  /** Where the capture of any match must start: right after the greedy whitespace run. */
  lemma PatternStart(t: string, w: int, e: int)
    requires PatternAt(t, w, e)
    ensures IsWhiteSpace(t[6]) && w == 6 + SpaceRun(t[6..]) && IsWordChar(t[w])
  {
    assert t[6..][w - 6] == t[w];
  }

  /** The greedy identifier run starting at `w` is a match of the pattern. */
  lemma CaptureRun(t: string, w: int)
    requires |t| >= 7 && t[0] == 'V' && (forall k :: 1 <= k < 6 ==> t[k] != '\n') && IsWhiteSpace(t[6])
    requires w == 6 + SpaceRun(t[6..]) && w < |t| && IsWordChar(t[w])
    ensures var n := WordRun(t[w..]);
      n >= 1 && PatternAt(t, w, w + n) && (w + n < |t| ==> !IsWordChar(t[w + n]))
  {
    var n := WordRun(t[w..]);
    forall k | 6 <= k < w ensures IsWhiteSpace(t[k]) { assert t[6..][k - 6] == t[k]; }
    forall k | w <= k < w + n ensures IsWordChar(t[k]) { assert t[w..][k - w] == t[k]; }
    if w + n < |t| { assert t[w..][n] == t[w + n]; }
    assert t[w..][0] == t[w];
  }

  /** A match whose identifier cannot be extended is the one the engine reports. */
  lemma MatchAtCapture(t: string, w: int, e: int)
    requires PatternAt(t, w, e) && (e < |t| ==> !IsWordChar(t[e]))
    ensures MatchAt(t) == Some(EncoderMatch(t[w..e], e))
  {
    MatchAtIsLongest(t, w, e);
    var m := MatchAt(t).value;
    CaptureEnd(t, w, e, m.length);
  }

  /** Two matches with the same capture start whose identifiers cannot be extended end together. */
  lemma CaptureEnd(t: string, w: int, e: int, e': int)
    requires PatternAt(t, w, e) && (e < |t| ==> !IsWordChar(t[e]))
    requires PatternAt(t, w, e') && (e' < |t| ==> !IsWordChar(t[e']))
    ensures e == e'
  {
  }

  /** Every match of the pattern at the start of `t` starts its capture where the reported
      match does and ends no later: the engine reports the longest match. */
  lemma MatchAtIsLongest(t: string, w: int, e: int)
    requires PatternAt(t, w, e)
    ensures MatchAt(t).Some?
    ensures var m := MatchAt(t).value;
      && PatternAt(t, m.length - |m.name|, m.length)
      && w == m.length - |m.name| && e <= m.length
      && t[w..m.length] == m.name
  {
    PatternStart(t, w, e);
    CaptureRun(t, w);
    var n := WordRun(t[w..]);
  }

  /** All identifiers captured by scanning `s` from the left; after a match the scan resumes
      where the match ended, after a failed attempt one character further on. */
  function ScanEncoders(s: string): (names: seq<string>)
    ensures forall k :: 0 <= k < |names| ==> IsIdentifier(names[k])
    decreases |s|
  {
    if s == [] then []
    else
      match MatchAt(s)
      case Some(m) => [m.name] + ScanEncoders(s[m.length..])
      case None => ScanEncoders(s[1..])
  }

  /** Text without a `V` contributes no match. */
  lemma {:induction false} ScanSkipsText(a: string, b: string)
    requires forall k :: 0 <= k < |a| ==> a[k] != 'V'
    ensures ScanEncoders(a + b) == ScanEncoders(b)
  {
    if a != [] {
      assert (a + b)[0] == a[0];
      assert (a + b)[1..] == a[1..] + b;
      ScanSkipsText(a[1..], b);
    } else {
      assert a + b == b;
    }
  }

  /** Text where no match starts contributes no match. */
  lemma {:induction false} ScanSkipsQuiet(a: string, b: string)
    requires forall p :: 0 <= p < |a| ==> MatchAt(a[p..] + b).None?
    ensures ScanEncoders(a + b) == ScanEncoders(b)
  {
    if a != [] {
      assert a[0..] == a;
      ScanNoMatch(a + b);
      assert (a + b)[1..] == a[1..] + b;
      forall p | 0 <= p < |a[1..]| ensures MatchAt(a[1..][p..] + b).None? {
        assert a[1..][p..] == a[p + 1..];
      }
      ScanSkipsQuiet(a[1..], b);
    } else {
      assert a + b == b;
    }
  }

  /** One line of the listing: a six-character flag field, the encoder's name and a description. */
  datatype EncoderLine = EncoderLine(flags: string, name: string, description: string)

  /** The blanks after a name: the engine left-aligns names in twenty columns and writes one
      more blank before the description. */
  function Padding(name: string): (s: string)
    ensures |s| >= 1 && forall k :: 0 <= k < |s| ==> s[k] == ' '
    ensures |name| + |s| == if |name| < 20 then 21 else |name| + 1
  {
    seq(if |name| < 20 then 21 - |name| else 1, k => ' ')
  }

  /** A line as the engine writes it on Windows: its console runtime turns each newline into
      `\r\n`, and reading the whole output keeps the `\r`. */
  function RenderLine(l: EncoderLine): string {
    " " + l.flags + " " + l.name + Padding(l.name) + l.description + "\r\n"
  }

  function RenderListing(lines: seq<EncoderLine>): string {
    if lines == [] then "" else RenderLine(lines[0]) + RenderListing(lines[1..])
  }

  predicate IsVideo(l: EncoderLine) {
    |l.flags| > 0 && l.flags[0] == 'V'
  }

  predicate NoV(s: string) {
    forall k :: 0 <= k < |s| ==> s[k] != 'V'
  }

  /** The `V` at `p` of a description starts no match, whatever line comes next: it is among
      the last four characters (the line end's `\n` falls inside the pattern's `.....`, which
      takes the `\r`), or six places on there is a character other than whitespace, or the
      whitespace there ends, inside the description, at a character that starts no identifier. */
  predicate QuietAt(d: string, p: nat) {
    || p + 4 >= |d|
    || (&& p + 6 < |d|
        && (|| !IsWhiteSpace(d[p + 6])
            || (var w := p + 6 + SpaceRun(d[p + 6..]); w < |d| && !IsWordChar(d[w]))))
  }

  /** A description on one line whose every `V` is quiet. */
  predicate QuietDescription(d: string) {
    && (forall k :: 0 <= k < |d| ==> d[k] != '\n')
    && (forall p :: 0 <= p < |d| && d[p] == 'V' ==> QuietAt(d, p))
  }

  /** A listing line as the engine writes it; outside the description a `V` appears only as
      the video flag. */
  predicate WellFormedLine(l: EncoderLine) {
    && |l.flags| == 6
    && (forall k :: 1 <= k < 6 ==> l.flags[k] != '\n')
    && IsIdentifier(l.name)
    && QuietDescription(l.description)
    && (IsVideo(l) || (NoV(l.flags) && NoV(l.name)))
  }

  /** A quiet `V` starts no match, whatever follows the description's newline. */
  lemma QuietNoMatch(d: string, p: nat, rest: string)
    requires p < |d| && d[p] == 'V' && QuietAt(d, p)
    requires forall k :: 0 <= k < |d| ==> d[k] != '\n'
    ensures MatchAt(d[p..] + ("\r\n" + rest)).None?
  {
    var t := d[p..] + ("\r\n" + rest);
    if p + 4 >= |d| {
      assert t[|d| - p + 1] == '\n';
    } else if !IsWhiteSpace(d[p + 6]) {
      assert t[6] == d[p + 6];
    } else {
      var m := SpaceRun(d[p + 6..]);
      forall k | 6 <= k < 6 + m ensures IsWhiteSpace(t[k]) {
        assert t[k] == d[p + 6..][k - 6];
      }
      assert t[6 + m] == d[p + 6 + m];
      assert !IsWhiteSpace(t[6..][m]);
      SpaceRunIs(t[6..], m);
    }
  }

  /** A quiet description and its newline contribute no match, whatever follows. */
  lemma ScanSkipsDescription(d: string, rest: string)
    requires QuietDescription(d)
    ensures ScanEncoders(d + ("\r\n" + rest)) == ScanEncoders(rest)
  {
    var a := d + "\r\n";
    assert d + ("\r\n" + rest) == a + rest;
    forall p | 0 <= p < |a| ensures MatchAt(a[p..] + rest).None? {
      DescriptionQuietAt(d, rest, p);
    }
    ScanSkipsQuiet(a, rest);
  }

  /** No match starts anywhere in a quiet description or at its line end. */
  lemma DescriptionQuietAt(d: string, rest: string, p: nat)
    requires QuietDescription(d) && p < |d| + 2
    ensures MatchAt((d + "\r\n")[p..] + rest).None?
  {
    var t := (d + "\r\n")[p..] + rest;
    if p < |d| {
      assert t == d[p..] + ("\r\n" + rest);
      if d[p] == 'V' {
        QuietNoMatch(d, p, rest);
      } else {
        NoMatchWithoutV(t);
      }
    } else {
      assert t[0] == (d + "\r\n")[p];
      NoMatchWithoutV(t);
    }
  }

  lemma NoMatchWithoutV(t: string)
    requires t != [] && t[0] != 'V'
    ensures MatchAt(t).None?
  {
  }

  function VideoNames(lines: seq<EncoderLine>): seq<string> {
    if lines == [] then []
    else (if IsVideo(lines[0]) then [lines[0].name] else []) + VideoNames(lines[1..])
  }

  lemma ScanMiss(s: string)
    requires s != [] && s[0] != 'V'
    ensures ScanEncoders(s) == ScanEncoders(s[1..])
  {
    assert MatchAt(s).None? by {
      forall w, e ensures !PatternAt(s, w, e) { }
    }
  }

  lemma ScanHit(s: string, w: int, e: int)
    requires PatternAt(s, w, e) && (e < |s| ==> !IsWordChar(s[e]))
    ensures ScanEncoders(s) == [s[w..e]] + ScanEncoders(s[e..])
  {
    MatchAtCapture(s, w, e);
  }

  /** The flag field, a blank and the name of a video line form a match of the pattern. */
  lemma VideoLinePattern(flags: string, name: string, tail: string)
    requires |flags| == 6 && flags[0] == 'V' && (forall k :: 1 <= k < 6 ==> flags[k] != '\n')
    requires IsIdentifier(name) && tail != [] && tail[0] == ' '
    ensures var t := flags + " " + name + tail;
      PatternAt(t, 7, 7 + |name|) && !IsWordChar(t[7 + |name|])
      && t[7..7 + |name|] == name && t[7 + |name|..] == tail
  {
    var t := flags + " " + name + tail;
    var e := 7 + |name|;
    forall k | 7 <= k < e ensures IsWordChar(t[k]) { assert t[k] == name[k - 7]; }
    forall k | 1 <= k < 6 ensures t[k] != '\n' { assert t[k] == flags[k]; }
    assert t[0] == flags[0] && t[6] == ' ';
    assert t[e] == tail[0];
    assert t[7..e] == name;
    assert t[e..] == tail;
  }

  lemma ScanVideoLine(l: EncoderLine, rest: string)
    requires WellFormedLine(l) && IsVideo(l)
    ensures ScanEncoders(RenderLine(l) + rest) == [l.name] + ScanEncoders(rest)
  {
    var pad := Padding(l.name);
    var tail := pad + (l.description + ("\r\n" + rest));
    var t := l.flags + " " + l.name + tail;
    assert RenderLine(l) + rest == " " + t;
    calc {
      ScanEncoders(" " + t);
      { ScanMiss(" " + t); assert (" " + t)[1..] == t; }
      ScanEncoders(t);
      { VideoLinePattern(l.flags, l.name, tail); ScanHit(t, 7, 7 + |l.name|); }
      [l.name] + ScanEncoders(tail);
      { ScanSkipsText(pad, l.description + ("\r\n" + rest)); }
      [l.name] + ScanEncoders(l.description + ("\r\n" + rest));
      { ScanSkipsDescription(l.description, rest); }
      [l.name] + ScanEncoders(rest);
    }
  }

  lemma ScanOtherLine(l: EncoderLine, rest: string)
    requires WellFormedLine(l) && !IsVideo(l)
    ensures ScanEncoders(RenderLine(l) + rest) == ScanEncoders(rest)
  {
    var head := " " + l.flags + " " + l.name + Padding(l.name);
    assert NoV(head) by {
      forall k | 0 <= k < |head| ensures head[k] != 'V' {
        if 1 <= k < 7 { assert head[k] == l.flags[k - 1]; }
        else if 8 <= k < 8 + |l.name| { assert head[k] == l.name[k - 8]; }
        else if 8 + |l.name| <= k { assert head[k] == Padding(l.name)[k - 8 - |l.name|]; }
      }
    }
    assert RenderLine(l) + rest == head + (l.description + ("\r\n" + rest));
    ScanSkipsText(head, l.description + ("\r\n" + rest));
    ScanSkipsDescription(l.description, rest);
  }

  /** Reading a rendered listing gives back exactly the names of its video encoders, in order. */
  lemma {:induction false} ListingRoundTrip(lines: seq<EncoderLine>)
    requires forall k :: 0 <= k < |lines| ==> WellFormedLine(lines[k])
    ensures ScanEncoders(RenderListing(lines)) == VideoNames(lines)
  {
    if lines != [] {
      ListingRoundTrip(lines[1..]);
      if IsVideo(lines[0]) {
        ScanVideoLine(lines[0], RenderListing(lines[1..]));
      } else {
        ScanOtherLine(lines[0], RenderListing(lines[1..]));
      }
    }
  }

  /** The legend line for the video flag, followed by the one for the audio flag: `V` takes
      `ideo\r` as its five characters, `\s+` crosses the line end, and the audio flag `A` is
      taken for an encoder. */
  lemma LegendLineYieldsA(rest: string)
    ensures ScanEncoders(" V..... = Video\r\n A..... = Audio\r\n" + rest) == ["A"] + ScanEncoders(rest)
  {
    var after := "..... = Audio\r\n" + rest;
    var v := "V" + "ideo\r" + "\n " + "A" + after;
    var t := "V" + ("....." + (" = " + v));
    LegendShape(rest);
    LegendCharacters();
    calc {
      ScanEncoders(" " + t);
      { ScanMiss(" " + t); assert (" " + t)[1..] == t; }
      ScanEncoders(t);
      { LegendFlagsNoMatch(v); ScanNoMatch(t); assert t[1..] == "....." + (" = " + v); }
      ScanEncoders("....." + (" = " + v));
      { ScanSkipsText(".....", " = " + v); }
      ScanEncoders(" = " + v);
      { ScanSkipsText(" = ", v); }
      ScanEncoders(v);
      { assert after[0] == '.'; ScanTakesWord("ideo\r", "\n ", "A", after); }
      ["A"] + ScanEncoders(after);
      { ScanSkipsText("..... = Audio\r\n", rest); }
      ["A"] + ScanEncoders(rest);
    }
  }

  lemma LegendShape(rest: string)
    ensures " V..... = Video\r\n A..... = Audio\r\n" + rest
      == " " + ("V" + ("....." + (" = " + ("V" + "ideo\r" + "\n " + "A" + ("..... = Audio\r\n" + rest)))))
  {
  }

  lemma LegendCharacters()
    ensures NoV("..... = Audio\r\n") && IsIdentifier("A")
    ensures |"ideo\r"| == 5 && (forall k :: 0 <= k < 5 ==> "ideo\r"[k] != '\n')
    ensures forall k :: 0 <= k < |"\n "| ==> IsWhiteSpace("\n "[k])
  {
  }

  /** Where no match starts, the scan goes on one character later. */
  lemma ScanNoMatch(s: string)
    requires s != [] && MatchAt(s).None?
    ensures ScanEncoders(s) == ScanEncoders(s[1..])
  {
  }

  /** After the legend's `V.....` and its blank comes `=`, which starts no identifier. */
  lemma LegendFlagsNoMatch(v: string)
    ensures MatchAt("V" + ("....." + (" = " + v))).None?
  {
    var t := "V" + ("....." + (" = " + v));
    assert t[6..][0] == ' ' && t[6..][1] == '=';
    assert SpaceRun(t[6..]) == 1;
    assert !IsWordChar(t[7]);
  }

  /** An identifier with a hyphen is cut at the hyphen: `[a-zA-Z0-9_]+` stops there. */
  lemma HyphenatedNameIsCut(rest: string)
    ensures ScanEncoders(" V....D libvpx-vp9  x\r\n" + rest) == ["libvpx"] + ScanEncoders(rest)
  {
    var tail := "-vp9  x\r\n" + rest;
    var t := "V....D libvpx" + tail;
    assert " V....D libvpx-vp9  x\r\n" + rest == " " + t;
    calc {
      ScanEncoders(" " + t);
      { ScanMiss(" " + t); assert (" " + t)[1..] == t; }
      ScanEncoders(t);
      { HyphenPattern(tail); ScanHit(t, 7, 13); }
      ["libvpx"] + ScanEncoders(tail);
      { ScanSkipsText("-vp9  x\r\n", rest); }
      ["libvpx"] + ScanEncoders(rest);
    }
  }

  lemma HyphenPattern(tail: string)
    requires tail != [] && tail[0] == '-'
    ensures var t := "V....D libvpx" + tail;
      PatternAt(t, 7, 13) && !IsWordChar(t[13]) && t[7..13] == "libvpx" && t[13..] == tail
  {
    var t := "V....D libvpx" + tail;
    forall k | 0 <= k < 13 ensures t[k] == "V....D libvpx"[k] { }
    assert t[13] == tail[0];
    assert t[7..13] == "libvpx";
    assert t[13..] == tail;
  }

  /** A `V`, five characters on one line, whitespace and an identifier that cannot be
      extended: the scan takes the identifier and resumes after it. */
  lemma ScanTakesWord(five: string, gap: string, word: string, after: string)
    requires |five| == 5 && (forall k :: 0 <= k < 5 ==> five[k] != '\n')
    requires gap != [] && (forall k :: 0 <= k < |gap| ==> IsWhiteSpace(gap[k]))
    requires IsIdentifier(word) && (after != [] ==> !IsWordChar(after[0]))
    ensures ScanEncoders("V" + five + gap + word + after) == [word] + ScanEncoders(after)
  {
    var w := 6 + |gap|;
    WordPattern(five, gap, word, after);
    ScanHit("V" + five + gap + word + after, w, w + |word|);
  }

  lemma WordPattern(five: string, gap: string, word: string, after: string)
    requires |five| == 5 && (forall k :: 0 <= k < 5 ==> five[k] != '\n')
    requires gap != [] && (forall k :: 0 <= k < |gap| ==> IsWhiteSpace(gap[k]))
    requires IsIdentifier(word) && (after != [] ==> !IsWordChar(after[0]))
    ensures var t := "V" + five + gap + word + after; var w := 6 + |gap|; var e := w + |word|;
      && PatternAt(t, w, e) && (e < |t| ==> !IsWordChar(t[e]))
      && t[w..e] == word && t[e..] == after
  {
    var t := "V" + five + gap + word + after;
    var w := 6 + |gap|;
    var e := w + |word|;
    forall k | 1 <= k < 6 ensures t[k] != '\n' { assert t[k] == five[k - 1]; }
    forall k | 6 <= k < w ensures IsWhiteSpace(t[k]) { assert t[k] == gap[k - 6]; }
    forall k | w <= k < e ensures IsWordChar(t[k]) { assert t[k] == word[k - w]; }
    if e < |t| { assert t[e] == after[0]; }
    assert t[w..e] == word;
    assert t[e..] == after;
  }

  /** A `V` inside a description, five characters, a blank and a word: the word is taken for
      an encoder. The line of `wrapped_avframe`, described "AVFrame to AVPacket passthrough",
      adds `to`. */
  lemma DescriptionWordTaken(rest: string)
    ensures ScanEncoders("V" + "Frame" + " " + "to" + ("\r\n" + rest)) == ["to"] + ScanEncoders("\r\n" + rest)
  {
    ScanTakesWord("Frame", " ", "to", "\r\n" + rest);
  }

  /** A `V` that is not quiet makes its description not quiet. */
  lemma NotQuietAt(d: string, p: nat)
    requires p < |d| && d[p] == 'V' && !QuietAt(d, p)
    ensures !QuietDescription(d)
  {
  }

  /** The `wrapped_avframe` description is not quiet: the blank after `VFrame` is followed by
      `to`. */
  lemma AvFrameDescriptionNotQuiet()
    ensures !QuietDescription("AVFrame to AVPacket passthrough")
  {
    var d := "AVFrame to AVPacket passthrough";
    AvFrameCharacters();
    SpaceRunIs(d[7..], 1);
    NotQuietAt(d, 1);
  }

  lemma AvFrameCharacters()
    ensures var d := "AVFrame to AVPacket passthrough";
      |d| == 31 && d[1] == 'V' && d[7] == ' ' && d[8] == 't' && d[7..][0] == ' ' && d[7..][1] == 't'
  {
  }

  /** A description ending in `Video)`: its `V`, five characters and the whitespace across the
      line end reach the next line's video flag, and that `V` is taken for the name. */
  lemma VideoParenTakesNextFlag(x: string)
    requires x != [] && !IsWordChar(x[0])
    ensures ScanEncoders("V" + "ideo)" + "\r\n " + "V" + x) == ["V"] + ScanEncoders(x)
  {
    ScanTakesWord("ideo)", "\r\n ", "V", x);
  }

  /** A description ending in `Video`: the `.....` takes `ideo\r`, and again the next line's
      video flag is taken for the name. This follows the lines of `amv` ("AMV Video") and
      `utvideo` ("Ut Video"). */
  lemma VideoEndTakesNextFlag(x: string)
    requires x != [] && !IsWordChar(x[0])
    ensures ScanEncoders("V" + "ideo\r" + "\n " + "V" + x) == ["V"] + ScanEncoders(x)
  {
    LegendCharacters();
    ScanTakesWord("ideo\r", "\n ", "V", x);
  }

  /** The `amv` description is not quiet: its second `V` has only four characters after it. */
  lemma AmvDescriptionNotQuiet()
    ensures !QuietDescription("AMV Video")
  {
    var d := "AMV Video";
    assert d[4] == 'V' && |d| == 9;
    NotQuietAt(d, 4);
  }

  /** The `exr` line. */
  const ExrLine := EncoderLine("V....D", "exr", "OpenEXR image")

  /** After `dvvideo`, described "DV (Digital Video)", the `exr` line loses its name: the pair
      of line ends yields `V` and nothing else. */
  lemma ExrNameLost(rest: string)
    ensures ScanEncoders("V" + "ideo)" + "\r\n" + RenderLine(ExrLine) + rest) == ["V"] + ScanEncoders(rest)
  {
    var tail := "....D" + " " + "exr" + Padding("exr") + "OpenEXR image" + "\r\n";
    ExrShape(tail, rest);
    VideoParenTakesNextFlag(tail + rest);
    ScanSkipsText(tail, rest);
  }

  lemma ExrShape(tail: string, rest: string)
    requires tail == "....D" + " " + "exr" + Padding("exr") + "OpenEXR image" + "\r\n"
    ensures "V" + "ideo)" + "\r\n" + RenderLine(ExrLine) + rest == "V" + "ideo)" + "\r\n " + "V" + (tail + rest)
    ensures NoV(tail) && tail[0] == '.'
  {
    ExrCharacters();
    assert RenderLine(ExrLine) == " " + "V" + tail;
    forall k | 0 <= k < |tail| ensures tail[k] != 'V' {
      if k < 9 { assert tail[k] == "....D exr"[k]; }
      else if k < 9 + |Padding("exr")| { assert tail[k] == Padding("exr")[k - 9]; }
      else { assert tail[k] == ("OpenEXR image" + "\r\n")[k - 9 - |Padding("exr")|]; }
    }
  }

  /** On its own the `exr` line yields its name. */
  lemma ExrLineAlone(rest: string)
    ensures ScanEncoders(RenderLine(ExrLine) + rest) == ["exr"] + ScanEncoders(rest)
  {
    ExrCharacters();
    ScanVideoLine(ExrLine, rest);
  }

  lemma ExrCharacters()
    ensures NoV("....D exr") && NoV("OpenEXR image" + "\r\n") && NoV("OpenEXR image")
    ensures QuietDescription("OpenEXR image") && IsIdentifier("exr")
  {
  }

  /** The `dvvideo` description is not quiet: its last `V` is five characters from the end. */
  lemma DvDescriptionNotQuiet()
    ensures !QuietDescription("DV (Digital Video)")
  {
    var d := "DV (Digital Video)";
    assert d[12] == 'V' && |d| == 18;
  }

  /** The `libx264` line yields its name: both `V`s of its description have a letter six
      places on. */
  lemma Libx264LineRead(rest: string)
    ensures ScanEncoders(RenderLine(EncoderLine("V....D", "libx264", X264Description)) + rest)
      == ["libx264"] + ScanEncoders(rest)
  {
    X264Characters();
    TwoLetteredVs("libx264 H.264 / A", "C / MPEG-4 A", "C / MPEG-4 part 10 (codec h264)");
    ScanVideoLine(EncoderLine("V....D", "libx264", X264Description), rest);
  }

  /** "libx264 H.264 / AVC / MPEG-4 AVC / MPEG-4 part 10 (codec h264)", split at its `V`s. */
  const X264Description := "libx264 H.264 / A" + "V" + "C / MPEG-4 A" + "V" + "C / MPEG-4 part 10 (codec h264)"

  lemma X264Characters()
    ensures NoV("libx264 H.264 / A") && NoNewline("libx264 H.264 / A")
    ensures NoV("C / MPEG-4 A") && NoNewline("C / MPEG-4 A") && "C / MPEG-4 A"[5] == 'P'
    ensures NoV("C / MPEG-4 part 10 (codec h264)") && NoNewline("C / MPEG-4 part 10 (codec h264)")
    ensures "C / MPEG-4 part 10 (codec h264)"[5] == 'P' && IsIdentifier("libx264")
  {
  }

  predicate NoNewline(s: string) {
    forall k :: 0 <= k < |s| ==> s[k] != '\n'
  }

  /** A one-line description whose only `V`s are two, each with a character other than
      whitespace six places on, is quiet. */
  lemma TwoLetteredVs(a: string, b: string, c: string)
    requires NoV(a) && NoNewline(a) && NoV(b) && NoNewline(b) && NoV(c) && NoNewline(c)
    requires |b| > 5 && !IsWhiteSpace(b[5]) && |c| > 5 && !IsWhiteSpace(c[5])
    ensures QuietDescription(a + "V" + b + "V" + c)
  {
    var d := a + "V" + b + "V" + c;
    var i := |a|;
    var j := |a| + 1 + |b|;
    forall p | 0 <= p < |d| ensures d[p] != '\n' && (d[p] == 'V' ==> p == i || p == j) {
      if p < i { assert d[p] == a[p]; }
      else if i < p < j { assert d[p] == b[p - i - 1]; }
      else if j < p { assert d[p] == c[p - j - 1]; }
    }
    assert d[i + 6] == b[5];
    assert d[j + 6] == c[5];
  }
}
