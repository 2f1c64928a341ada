/** The argument strings handed to the engine, and how the engine's C runtime splits such a
    string back into arguments (blanks separate arguments, double quotes group characters;
    backslash escapes are not modelled). */
module CommandLine {

  /** One word of a command line: a literal flag or value, or a path written inside quotes. */
  datatype Arg = Flag(text: string) | Quoted(path: string)

  predicate IsBlank(c: char) {
    c == ' ' || c == '\t'
  }

  function Render(a: Arg): string {
    match a
    case Flag(t) => t
    case Quoted(p) => "\"" + p + "\""
  }

  /** The argument the engine should see for this word. */
  function Value(a: Arg): string {
    match a
    case Flag(t) => t
    case Quoted(p) => p
  }

  function Values(args: seq<Arg>): (vs: seq<string>)
    ensures |vs| == |args| && forall k :: 0 <= k < |args| ==> vs[k] == Value(args[k])
  {
    seq(|args|, k requires 0 <= k < |args| => Value(args[k]))
  }

  /** A flag is one non-empty run without blanks or quotes; a quoted path holds no quote. */
  predicate WellFormed(a: Arg) {
    match a
    case Flag(t) => t != [] && PlainFrom(t, 0)
    case Quoted(p) => forall k :: 0 <= k < |p| ==> p[k] != '"'
  }

  predicate AllWellFormed(args: seq<Arg>) {
    forall a :: a in args ==> WellFormed(a)
  }

  /** No blank and no quote from position `i` on (a flag is checked character by character). */
  predicate PlainFrom(t: string, i: nat)
    decreases |t| - i
  {
    i >= |t| || (!IsBlank(t[i]) && t[i] != '"' && PlainFrom(t, i + 1))
  }

  lemma {:induction false} PlainFromLower(t: string, i: nat)
    requires forall k :: i <= k < |t| ==> !IsBlank(t[k]) && t[k] != '"'
    ensures PlainFrom(t, i)
    decreases |t| - i
  {
    if i < |t| {
      PlainFromLower(t, i + 1);
    }
  }

  lemma {:induction false} PlainFromAll(t: string, i: nat)
    requires PlainFrom(t, i)
    ensures forall k :: i <= k < |t| ==> !IsBlank(t[k]) && t[k] != '"'
    decreases |t| - i
  {
    if i < |t| {
      PlainFromAll(t, i + 1);
    }
  }

  /** The words separated by single blanks, as the source's interpolated strings write them. */
  function Join(args: seq<Arg>): string {
    if args == [] then ""
    else if |args| == 1 then Render(args[0])
    else Render(args[0]) + " " + Join(args[1..])
  }

  /** Appending a blank and more words to a command line (one `StringBuilder.Append`). */
  lemma {:induction false} JoinAppend(a: seq<Arg>, b: seq<Arg>)
    requires a != [] && b != []
    ensures Join(a + b) == Join(a) + " " + Join(b)
  {
    assert (a + b)[0] == a[0];
    if |a| == 1 {
      assert (a + b)[1..] == b;
    } else {
      assert (a + b)[1..] == a[1..] + b;
      JoinAppend(a[1..], b);
    }
  }

  /** One argument read from the front of a command line and the number of characters it used. */
  datatype Token = Token(text: string, consumed: nat)

  /** Reads one argument: a quote toggles quoting and is dropped, an unquoted blank ends it. */
  function ReadArg(s: string, quoted: bool): (r: Token)
    ensures r.consumed <= |s|
    ensures s != [] && (quoted || !IsBlank(s[0])) ==> r.consumed > 0
  {
    if s == [] then Token("", 0)
    else if s[0] == '"' then
      var t := ReadArg(s[1..], !quoted);
      Token(t.text, t.consumed + 1)
    else if IsBlank(s[0]) && !quoted then Token("", 0)
    else
      var t := ReadArg(s[1..], quoted);
      Token([s[0]] + t.text, t.consumed + 1)
  }

  /** The arguments a command line stands for. */
  function SplitArgs(s: string): seq<string>
    decreases |s|
  {
    if s == [] then []
    else if IsBlank(s[0]) then SplitArgs(s[1..])
    else
      var t := ReadArg(s, false);
      [t.text] + SplitArgs(s[t.consumed..])
  }

  lemma {:induction false} ReadPlain(w: string, rest: string, quoted: bool)
    requires forall k :: 0 <= k < |w| ==> w[k] != '"' && (quoted || !IsBlank(w[k]))
    ensures ReadArg(w + rest, quoted)
            == Token(w + ReadArg(rest, quoted).text, |w| + ReadArg(rest, quoted).consumed)
  {
    if w == [] {
      assert w + rest == rest;
    } else {
      assert (w + rest)[0] == w[0];
      assert (w + rest)[1..] == w[1..] + rest;
      ReadPlain(w[1..], rest, quoted);
      assert [w[0]] + (w[1..] + ReadArg(rest, quoted).text) == w + ReadArg(rest, quoted).text;
    }
  }

  /** A rendered word followed by a blank, or by nothing, reads back as its value. */
  lemma ReadRendered(a: Arg, rest: string)
    requires WellFormed(a)
    requires rest == [] || IsBlank(rest[0])
    ensures ReadArg(Render(a) + rest, false) == Token(Value(a), |Render(a)|)
  {
    match a
    case Flag(t) =>
      PlainFromAll(t, 0);
      ReadPlain(t, rest, false);
      assert t + "" == t;
    case Quoted(p) =>
      var s := "\"" + p + "\"" + rest;
      assert s[1..] == p + ("\"" + rest);
      ReadPlain(p, "\"" + rest, true);
      assert ("\"" + rest)[1..] == rest;
      assert p + "" == p;
  }

  /** A well-formed word renders to text that starts with neither a blank nor nothing. */
  lemma RenderStart(a: Arg)
    requires WellFormed(a)
    ensures Render(a) != [] && !IsBlank(Render(a)[0])
  {
    match a
    case Flag(t) => PlainFromAll(t, 0);
    case Quoted(p) =>
  }

  /** A line that holds one well-formed word splits into its value. */
  lemma SplitOne(a: Arg)
    requires WellFormed(a)
    ensures SplitArgs(Render(a)) == [Value(a)]
  {
    var r := Render(a);
    RenderStart(a);
    ReadRendered(a, []);
    assert r + [] == r;
    assert r[|r|..] == [];
  }

  /** A well-formed word, a blank and more text split into the word's value and the rest's
      arguments. */
  lemma SplitFront(a: Arg, tail: string)
    requires WellFormed(a)
    ensures SplitArgs(Render(a) + " " + tail) == [Value(a)] + SplitArgs(tail)
  {
    var r := Render(a);
    var s := r + " " + tail;
    RenderStart(a);
    ReadRendered(a, " " + tail);
    assert s == r + (" " + tail);
    assert s[0] == r[0];
    assert s[|r|..] == " " + tail;
    assert (" " + tail)[1..] == tail;
  }

  /** Splitting a joined command line gives back exactly the words' values: each quoted path is
      one argument, whatever blanks it contains. */
  lemma {:induction false} SplitJoin(args: seq<Arg>)
    requires AllWellFormed(args)
    ensures SplitArgs(Join(args)) == Values(args)
  {
    if args != [] {
      assert WellFormed(args[0]) by { assert args[0] in args; }
      if |args| == 1 {
        SplitOne(args[0]);
      } else {
        assert forall x :: x in args[1..] ==> x in args;
        SplitJoin(args[1..]);
        SplitFront(args[0], Join(args[1..]));
        assert Values(args) == [Value(args[0])] + Values(args[1..]);
      }
    }
  }
}
