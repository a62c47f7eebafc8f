/**
 What the Markdown parser reads, told by the position of each line and not by the parser's
 state: a line belongs to the section of the last heading above it.
 */
module IntentSections {
  import opened Wrappers
  import opened PyText
  import opened Intent
  import opened IntentMarkdown

  /** The section a line opens, if it is a heading. */
  function Heading(line: string): Option<string> {
    if StartsWith(line, "## ") then Some(Lower(Strip(line[3..]))) else None
  }

  /** The last heading among the first n lines. */
  function SectionOf(lines: seq<string>, n: nat): Option<string>
    requires n <= |lines|
  {
    if n == 0 then None
    else if Heading(lines[n - 1]).Some? then Heading(lines[n - 1])
    else SectionOf(lines, n - 1)
  }

  /** The item a line contributes: what follows a bullet, or the line itself unless it is blank. */
  function Said(line: string): seq<string> {
    if StartsWith(line, "- ") then [Strip(line[2..])]
    else if Blank(line) then []
    else [Strip(line)]
  }

  /** The items of a section among the first n lines, in order, wherever its heading stands or is repeated. */
  function Contents(lines: seq<string>, name: string, n: nat): seq<string>
    requires n <= |lines|
  {
    if n == 0 then []
    else
      Contents(lines, name, n - 1)
      + (if Heading(lines[n - 1]).None? && SectionOf(lines, n - 1) == Some(name) then Said(lines[n - 1]) else [])
  }

  /** Line i says something above the first heading. */
  predicate Stray(lines: seq<string>, i: nat)
    requires i < |lines|
  {
    !Blank(lines[i]) && Heading(lines[i]).None? && SectionOf(lines, i).None?
  }

  /** The reading of the first n lines, told by position. */
  ghost predicate ReadSoFar(lines: seq<string>, n: nat)
    requires n <= |lines|
  {
    var r := ReadLines(START, lines[..n]);
    && (r.Ok? <==> forall i: nat | i < n :: !Stray(lines, i))
    && (r.Ok? ==>
          && r.value.current == SectionOf(lines, n)
          && forall name :: Items(r.value.sections, name) == Contents(lines, name, n))
  }

  lemma StepReads(st: State, lines: seq<string>, n: nat)
    requires st.Valid() && n < |lines| && st.current == SectionOf(lines, n)
    requires forall name :: Items(st.sections, name) == Contents(lines, name, n)
    ensures var r := StepLine(st, lines[n]);
            && (r.Ok? <==> !Stray(lines, n))
            && (r.Ok? ==>
                  && r.value.current == SectionOf(lines, n + 1)
                  && forall name :: Items(r.value.sections, name) == Contents(lines, name, n + 1))
  {
    hide Strip, Lower, Blank, StartsWith;
    var r := StepLine(st, lines[n]);
    if r.Ok? {
      forall name ensures Items(r.value.sections, name) == Contents(lines, name, n + 1) {
        assert Items(st.sections, name) == Contents(lines, name, n);
        assert Contents(lines, name, n) + [] == Contents(lines, name, n);
      }
    }
  }

  lemma {:induction false} PrefixReads(lines: seq<string>, n: nat)
    requires n <= |lines|
    ensures ReadSoFar(lines, n)
  {
    hide StepLine, Stray, SectionOf, Contents, Heading, Said;
    if n == 0 {
      assert lines[..0] == [];
      NothingRead(lines);
    } else {
      PrefixReads(lines, n - 1);
      assert lines[..n] == lines[..n - 1] + [lines[n - 1]];
      FailureStays(START, lines[..n - 1], [lines[n - 1]]);
      var before := ReadLines(START, lines[..n - 1]);
      if before.Ok? {
        ReadAppended(START, lines[..n - 1], [lines[n - 1]]);
        StepReads(before.value, lines, n - 1);
        ReadOne(before.value, lines[n - 1]);
      }
    }
  }

  lemma {:induction false} FailureStays(st: State, a: seq<string>, b: seq<string>)
    requires st.Valid()
    ensures ReadLines(st, a).Err? ==> ReadLines(st, a + b).Err?
    decreases |a|
  {
    hide StepLine;
    if a != [] && StepLine(st, a[0]).Ok? {
      assert (a + b)[1..] == a[1..] + b;
      FailureStays(StepLine(st, a[0]).value, a[1..], b);
    }
  }

  lemma NothingRead(lines: seq<string>)
    ensures SectionOf(lines, 0).None? && forall name :: Contents(lines, name, 0) == []
  {
  }

  lemma ReadOne(st: State, line: string)
    requires st.Valid()
    ensures ReadLines(st, [line]) == StepLine(st, line)
  {
    hide StepLine;
    assert [line][1..] == [];
  }

  /** The Intent says what the title line and the body say. */
  predicate SaysBody(r: Intent, title: string, body: seq<string>, id: string) {
    && r.goal == JoinLines(Contents(body, "goal", |body|))
    && r.requirements == Contents(body, "requirements", |body|)
    && r.constraints == Contents(body, "constraints", |body|)
    && r.acceptance == Contents(body, "acceptance", |body|)
    && r.title == (if Strip(title) == "" then "Intent" else Strip(title)) && r.intentId == id
  }

  /**
   What the parser makes of any text. With its lines stripped on the right, it fails for
   want of a title line, else for a line that says something above the first heading, else
   for an empty goal, and for nothing else; otherwise title, goal and lists are those the
   lines say, by position, all other sections being dropped.
   */
  lemma ParseDecides(markdown: string, intentId: string, newId: string)
    ensures var lines := LinesOf(markdown);
            var r := Parse(markdown, intentId, newId);
            if lines == [] || !StartsWith(lines[0], "# ") then r == Err(NoTitle)
            else
              var body := lines[1..];
              if exists i: nat :: i < |body| && Stray(body, i) then r == Err(ContentBeforeSection)
              else if Contents(body, "goal", |body|) == [] then r == Err(NoGoal)
              else
                r.Ok? && SaysBody(r.value, lines[0][2..], body, if intentId == "" then newId else intentId)
  {
    hide ReadLines, LinesOf, Strip, Lower, Stray, Contents, Heading, SectionOf, Said, Blank, Parse;
    var lines := LinesOf(markdown);
    ParsedIsTidy(markdown, intentId, newId);
    ParseIs(markdown, intentId, newId);
    if lines != [] && StartsWith(lines[0], "# ") {
      var body := lines[1..];
      PrefixReads(body, |body|);
      assert body[..|body|] == body;
      if ReadLines(START, body).Ok? {
        AssembleSays(lines[0], body, ReadLines(START, body).value.sections, intentId, newId);
      }
    }
  }

  lemma ParseIs(markdown: string, intentId: string, newId: string)
    ensures var lines, r := LinesOf(markdown), Parse(markdown, intentId, newId);
            if lines == [] || !StartsWith(lines[0], "# ") then r == Err(NoTitle)
            else
              var read := ReadLines(START, lines[1..]);
              if read.Err? then r == Err(ContentBeforeSection)
              else r == Assemble(lines[0], read.value.sections, intentId, newId)
  {
    hide ReadLines, LinesOf, Assemble;
  }

  lemma AssembleSays(titleLine: string, body: seq<string>, sections: Sections, intentId: string, newId: string)
    requires StartsWith(titleLine, "# ")
    requires Items(sections, "goal") == Contents(body, "goal", |body|)
    requires Items(sections, "requirements") == Contents(body, "requirements", |body|)
    requires Items(sections, "constraints") == Contents(body, "constraints", |body|)
    requires Items(sections, "acceptance") == Contents(body, "acceptance", |body|)
    ensures var r := Assemble(titleLine, sections, intentId, newId);
            if Contents(body, "goal", |body|) == [] then r == Err(NoGoal)
            else
              r == Err(InvalidIntent)
              || (r.Ok? && SaysBody(r.value, titleLine[2..], body, if intentId == "" then newId else intentId))
  {
    hide Contents, Strip, JoinLines, Items, Blank;
  }
}
