/**
 The parts of Python's `str` that the modelled code relies on: `strip`, `rstrip`,
 `splitlines`, `join`, `lower` and the ordering used by `sorted`.
 */
module PyText {

  /** The line boundaries recognised by `str.splitlines`. */
  predicate IsLineBreak(c: char) {
    || '\n' <= c <= '\r'
    || '\U{1c}' <= c <= '\U{1e}'
    || c == '\U{85}'
    || c == '\U{2028}'
    || c == '\U{2029}'
  }

  /** The characters `str.isspace` accepts, which are those `str.strip` removes. */
  predicate IsSpace(c: char) {
    || IsLineBreak(c)
    || c == '\t'
    || c == '\U{1f}'
    || c == ' '
    || c == '\U{a0}'
    || c == '\U{1680}'
    || '\U{2000}' <= c <= '\U{200a}'
    || c == '\U{202f}'
    || c == '\U{205f}'
    || c == '\U{3000}'
  }

  function LStrip(s: string): string {
    if s != "" && IsSpace(s[0]) then LStrip(s[1..]) else s
  }

  function RStrip(s: string): string {
    if s != "" && IsSpace(s[|s| - 1]) then RStrip(s[..|s| - 1]) else s
  }

  function Strip(s: string): string {
    RStrip(LStrip(s))
  }

  /** `not s.strip()` */
  predicate Blank(s: string) {
    forall c <- s :: IsSpace(c)
  }

  predicate StartsWith(s: string, prefix: string) {
    prefix <= s
  }

  /**
   `str.lower` on ASCII letters. No other character lowers to a letter of a name the
   modelled code compares with.
   */
  function Lower(s: string): string {
    seq(|s|, i requires 0 <= i < |s| => if 'A' <= s[i] <= 'Z' then s[i] - 'A' + 'a' else s[i])
  }

  predicate EndsLine(s: string) {
    s == "" || IsLineBreak(s[|s| - 1])
  }

  /** `str.splitlines`, reading one character at a time: a break ends the line it follows, and CR LF is one break. */
  function SplitLines(s: string): (lines: seq<string>)
    ensures lines == [] <==> s == ""
  {
    if s == "" then []
    else
      var front, c := s[..|s| - 1], s[|s| - 1];
      var lines := SplitLines(front);
      if IsLineBreak(c) then
        if !EndsLine(front) || (c == '\n' && front != "" && front[|front| - 1] == '\r') then lines else lines + [""]
      else if EndsLine(front) then lines + [[c]]
      else lines[..|lines| - 1] + [lines[|lines| - 1] + [c]]
  }

  /** `"\n".join(lines)` */
  function JoinLines(lines: seq<string>): string {
    if lines == [] then ""
    else if |lines| == 1 then lines[0]
    else JoinLines(lines[..|lines| - 1]) + "\n" + lines[|lines| - 1]
  }

  /** Every line followed by a line feed. */
  function Terminated(lines: seq<string>): string {
    if lines == [] then "" else Terminated(lines[..|lines| - 1]) + lines[|lines| - 1] + "\n"
  }

  predicate OneLine(s: string) {
    forall c <- s :: !IsLineBreak(c)
  }

  predicate Trimmed(s: string) {
    s == "" || (!IsSpace(s[0]) && !IsSpace(s[|s| - 1]))
  }

  /** A trimmed, non-empty, single line. */
  predicate Tidy(s: string) {
    s != "" && Trimmed(s) && OneLine(s)
  }

  /** Python compares strings by code point, left to right. */
  predicate Less(a: string, b: string) {
    b != "" && (a == "" || a[0] < b[0] || (a[0] == b[0] && Less(a[1..], b[1..])))
  }

  lemma {:induction false} LessIsStrictTotal(a: string, b: string)
    ensures !(Less(a, b) && Less(b, a))
    ensures Less(a, b) || Less(b, a) || a == b
    ensures !Less(a, a)
  {
    if a != "" {
      LessIsStrictTotal(a[1..], if b == "" then "" else b[1..]);
    }
  }

  lemma {:induction false} LessIsTransitive(a: string, b: string, c: string)
    requires Less(a, b) && Less(b, c)
    ensures Less(a, c)
  {
    if a != "" && a[0] == b[0] && b[0] == c[0] {
      LessIsTransitive(a[1..], b[1..], c[1..]);
    }
  }

  // ---- Stripping ----------------------------------------------------------------------

  lemma {:induction false} RStripShape(s: string)
    ensures RStrip(s) <= s && (RStrip(s) == "" || !IsSpace(RStrip(s)[|RStrip(s)| - 1]))
    ensures RStrip(s) == "" <==> Blank(s)
    ensures RStrip(s) == s <==> s == "" || !IsSpace(s[|s| - 1])
  {
    if s != "" && IsSpace(s[|s| - 1]) {
      var front := s[..|s| - 1];
      RStripShape(front);
      assert s == front + [s[|s| - 1]];
      assert forall c <- front :: c in s;
    } else if s != "" {
      assert s[|s| - 1] in s;
    }
  }

  lemma {:induction false} LStripShape(s: string)
    ensures |LStrip(s)| <= |s| && LStrip(s) == s[|s| - |LStrip(s)|..]
    ensures LStrip(s) != "" ==> !IsSpace(LStrip(s)[0])
    ensures LStrip(s) == "" <==> Blank(s)
  {
    if s != "" && IsSpace(s[0]) {
      LStripShape(s[1..]);
      assert s == [s[0]] + s[1..];
    } else if s != "" {
      assert s[0] in s;
    }
  }

  lemma PartOf(s: string, from: nat, to: nat)
    requires from <= to <= |s|
    ensures forall c <- s[from..to] :: c in s
  {
  }

  lemma StartsSolid(s: string)
    requires s != "" && !IsSpace(s[0])
    ensures !Blank(s)
  {
    hide IsSpace;
    assert s[0] in s;
  }

  lemma StripTrims(s: string)
    ensures Trimmed(Strip(s)) && |Strip(s)| <= |s| && forall c <- Strip(s) :: c in s
  {
    hide IsSpace, LStrip, RStrip, Blank;
    LStripShape(s);
    RStripShape(LStrip(s));
    var from := |s| - |LStrip(s)|;
    assert Strip(s) == s[from..from + |Strip(s)|];
    PartOf(s, from, from + |Strip(s)|);
  }

  lemma StripsToNothing(s: string)
    ensures Strip(s) == "" <==> Blank(s)
  {
    hide IsSpace, LStrip, RStrip, Blank;
    LStripShape(s);
    RStripShape(LStrip(s));
    if LStrip(s) != "" {
      StartsSolid(LStrip(s));
    }
  }

  lemma StripKeeps(s: string)
    requires Trimmed(s)
    ensures Strip(s) == s
  {
    hide IsSpace, RStrip, Blank;
    assert LStrip(s) == s;
    RStripShape(s);
  }

  /** Stripping leaves a trimmed part of the text, empty only when the text is blank, and leaves trimmed text alone. */
  lemma StripShape(s: string)
    ensures Trimmed(Strip(s)) && |Strip(s)| <= |s| && (forall c <- Strip(s) :: c in s)
    ensures Strip(s) == "" <==> Blank(s)
    ensures Trimmed(s) ==> Strip(s) == s
  {
    hide IsSpace, Strip, Blank, Trimmed;
    StripTrims(s);
    StripsToNothing(s);
    if Trimmed(s) {
      StripKeeps(s);
    }
  }

  // ---- Splitting what was joined -----------------------------------------------------------

  lemma {:induction false} JoinIsTerminated(lines: seq<string>)
    requires lines != []
    ensures JoinLines(lines) + "\n" == Terminated(lines)
  {
    if |lines| > 1 {
      JoinIsTerminated(lines[..|lines| - 1]);
    }
  }

  lemma NothingTerminated()
    ensures Terminated([]) == ""
  {
  }

  lemma TerminatedLast(lines: seq<string>, last: string)
    ensures Terminated(lines + [last]) == Terminated(lines) + (last + "\n")
  {
    assert (lines + [last])[..|lines|] == lines;
  }

  lemma {:induction false} TerminatedAppend(a: seq<string>, b: seq<string>)
    ensures Terminated(a + b) == Terminated(a) + Terminated(b)
  {
    hide Terminated;
    NothingTerminated();
    if b == [] {
      assert a + b == a;
    } else {
      var front, last := b[..|b| - 1], b[|b| - 1];
      TerminatedAppend(a, front);
      assert a + b == (a + front) + [last] && b == front + [last];
      TerminatedLast(a + front, last);
      TerminatedLast(front, last);
      assert Terminated(a) + Terminated(front) + (last + "\n") == Terminated(a) + (Terminated(front) + (last + "\n"));
    }
  }

  lemma LineParts(line: string)
    requires OneLine(line) && line != ""
    ensures OneLine(line[..|line| - 1]) && !IsLineBreak(line[|line| - 1]) && !EndsLine(line)
  {
    hide IsLineBreak;
    assert line[|line| - 1] in line && forall c <- line[..|line| - 1] :: c in line;
  }

  lemma EndOfAppended(text: string, line: string)
    requires line != ""
    ensures EndsLine(text + line) == EndsLine(line)
  {
    hide IsLineBreak;
  }

  /** A line appended after a break is a line of its own. */
  lemma {:induction false} SplitAppended(text: string, line: string)
    requires EndsLine(text) && OneLine(line) && line != ""
    ensures SplitLines(text + line) == SplitLines(text) + [line]
    decreases |line|
  {
    hide IsLineBreak, OneLine, EndsLine;
    var front, c := line[..|line| - 1], line[|line| - 1];
    LineParts(line);
    SplitExtended(text + front, c);
    assert text + line == text + front + [c];
    if front == "" {
      assert text + front == text && line == [c];
    } else {
      LineParts(front);
      EndOfAppended(text, front);
      SplitAppended(text, front);
      assert line == front + [c];
    }
  }

  /** One more character that is no break. */
  lemma SplitExtended(text: string, c: char)
    requires !IsLineBreak(c)
    ensures var lines := SplitLines(text);
            if EndsLine(text) then SplitLines(text + [c]) == lines + [[c]]
            else lines != [] && SplitLines(text + [c]) == lines[..|lines| - 1] + [lines[|lines| - 1] + [c]]
  {
    hide IsLineBreak;
    assert (text + [c])[..|text + [c]| - 1] == text;
  }

  /** A line feed after text that does not end a line adds no line. */
  lemma SplitEnded(text: string)
    ensures SplitLines(text + "\n") ==
            if !EndsLine(text) || (text != "" && text[|text| - 1] == '\r') then SplitLines(text)
            else SplitLines(text) + [""]
  {
    assert (text + "\n")[..|text + "\n"| - 1] == text;
  }

  /** Splitting inverts terminating, for lines without breaks in them. */
  lemma {:induction false} SplitTerminated(lines: seq<string>)
    requires forall l <- lines :: OneLine(l)
    ensures SplitLines(Terminated(lines)) == lines
    ensures lines != [] ==> Terminated(lines) != "" && Terminated(lines)[|Terminated(lines)| - 1] == '\n'
  {
    if lines != [] {
      var front, last := lines[..|lines| - 1], lines[|lines| - 1];
      SplitTerminated(front);
      var text := Terminated(front);
      assert lines == front + [last];
      SplitEnded(text + last);
      if last == "" {
        assert text + last == text;
      } else {
        SplitAppended(text, last);
        assert last[|last| - 1] in last;
        assert (text + last)[|text + last| - 1] == last[|last| - 1];
      }
    }
  }

  /** Splitting inverts joining, unless the last line is empty. */
  lemma SplitJoined(lines: seq<string>)
    requires lines != [] && (forall l <- lines :: OneLine(l)) && lines[|lines| - 1] != ""
    ensures SplitLines(JoinLines(lines)) == lines
    ensures var text, last := JoinLines(lines), lines[|lines| - 1];
            text != "" && text[|text| - 1] == last[|last| - 1]
  {
    var text, last := JoinLines(lines), lines[|lines| - 1];
    JoinIsTerminated(lines);
    SplitTerminated(lines);
    SplitEnded(text);
    assert last[|last| - 1] in last;
  }

  /** No line contains a break. */
  lemma {:induction false} LinesAreOneLine(s: string)
    ensures forall l <- SplitLines(s) :: OneLine(l)
  {
    if s != "" {
      var front, c := s[..|s| - 1], s[|s| - 1];
      LinesAreOneLine(front);
      var lines, all := SplitLines(front), SplitLines(s);
      forall l <- all ensures OneLine(l) {
        if l !in lines && l != "" {
          assert l == [c] || (!EndsLine(front) && l == lines[|lines| - 1] + [c] && OneLine(lines[|lines| - 1]));
        }
      }
    }
  }
}
