/**
 The Markdown form of an Intent: a line-by-line parser and its printer, and exactly
 which Intents survive being printed and parsed.
 */
module IntentMarkdown {
  import opened Wrappers
  import opened PyText
  import opened Intent

  datatype ParseError = NoTitle | ContentBeforeSection | NoGoal | InvalidIntent

  type Sections = map<string, seq<string>>

  /** The section being read, if any, and the items of every section so far. */
  datatype State = State(current: Option<string>, sections: Sections) {
    predicate Valid() {
      current.Some? ==> current.value in sections
    }
  }

  const START := State(None, map[])

  function Items(sections: Sections, name: string): seq<string> {
    if name in sections then sections[name] else []
  }

  /** One line below the title. */
  function StepLine(st: State, line: string): (r: Result<State, ParseError>)
    requires st.Valid()
    ensures if r.Ok? then r.value.Valid() else r.error == ContentBeforeSection
  {
    if StartsWith(line, "## ") then
      var name := Lower(Strip(line[3..]));
      Ok(State(Some(name), st.sections[name := Items(st.sections, name)]))
    else if st.current.None? then
      if Blank(line) then Ok(st) else Err(ContentBeforeSection)
    else
      var name := st.current.value;
      if StartsWith(line, "- ") then Ok(st.(sections := st.sections[name := st.sections[name] + [Strip(line[2..])]]))
      else if !Blank(line) then Ok(st.(sections := st.sections[name := st.sections[name] + [Strip(line)]]))
      else Ok(st)
  }

  function ReadLines(st: State, lines: seq<string>): (r: Result<State, ParseError>)
    requires st.Valid()
    ensures if r.Ok? then r.value.Valid() else r.error == ContentBeforeSection
    decreases |lines|
  {
    if lines == [] then Ok(st)
    else
      var next := StepLine(st, lines[0]);
      if next.Err? then next else ReadLines(next.value, lines[1..])
  }

  function LinesOf(markdown: string): seq<string> {
    var lines := SplitLines(Strip(markdown));
    seq(|lines|, i requires 0 <= i < |lines| => RStrip(lines[i]))
  }

  /** The Intent made from a title line and the sections below it. */
  function Assemble(titleLine: string, sections: Sections, intentId: string, newId: string): Result<Intent, ParseError>
    requires StartsWith(titleLine, "# ")
  {
    if Items(sections, "goal") == [] then Err(NoGoal)
    else
      var title := Strip(titleLine[2..]);
      var intent := Intent(
                      JoinLines(Items(sections, "goal")), Items(sections, "requirements"),
                      Items(sections, "constraints"), Items(sections, "acceptance"),
                      if title != "" then title else "Intent", if intentId != "" then intentId else newId, map[]);
      if intent.Valid() then Ok(intent) else Err(InvalidIntent)
  }

  /** `Intent.from_markdown` as a function; `newId` is the identifier used when none is supplied. */
  function Parse(markdown: string, intentId: string, newId: string): Result<Intent, ParseError> {
    var lines := LinesOf(markdown);
    if lines == [] || !StartsWith(lines[0], "# ") then Err(NoTitle)
    else
      var read := ReadLines(START, lines[1..]);
      if read.Err? then Err(read.error) else Assemble(lines[0], read.value.sections, intentId, newId)
  }

  /** `Intent.from_markdown` */
  method FromMarkdown(markdown: string, intentId: string, newId: string) returns (r: Result<Intent, ParseError>)
    ensures r == Parse(markdown, intentId, newId)
  {
    var lines := LinesOf(markdown);
    if lines == [] || !StartsWith(lines[0], "# ") {
      return Err(NoTitle);
    }
    var sections: Sections := map[];
    var current: Option<string> := None;
    for i := 1 to |lines|
      invariant State(current, sections).Valid()
      invariant ReadLines(START, lines[1..]) == ReadLines(State(current, sections), lines[i..])
    {
      var line := lines[i];
      assert lines[i..][0] == line && lines[i..][1..] == lines[i + 1..];
      if StartsWith(line, "## ") {
        var name := Lower(Strip(line[3..]));
        current := Some(name);
        if name !in sections {
          sections := sections[name := []];
        }
        assert sections == sections[name := Items(sections, name)];
        continue;
      }
      if current.None? {
        if !Blank(line) {
          return Err(ContentBeforeSection);
        }
        continue;
      }
      if StartsWith(line, "- ") {
        sections := sections[current.value := sections[current.value] + [Strip(line[2..])]];
      } else if !Blank(line) {
        sections := sections[current.value := sections[current.value] + [Strip(line)]];
      }
    }
    r := Assemble(lines[0], sections, intentId, newId);
  }

  // ---- The printer ---------------------------------------------------------------------

  function Bullets(items: seq<string>): seq<string> {
    seq(|items|, i requires 0 <= i < |items| => "- " + items[i])
  }

  function SectionLines(heading: string, items: seq<string>): seq<string> {
    if items == [] then [] else ["", "## " + heading, ""] + Bullets(items)
  }

  /** The lines of a document whose goal takes the given lines. */
  function DocumentLines(i: Intent, goal: seq<string>): seq<string> {
    ["# " + i.title, "", "## Goal", ""] + goal + SectionLines("Requirements", i.requirements)
    + SectionLines("Constraints", i.constraints) + SectionLines("Acceptance", i.acceptance)
  }

  /** `Intent.to_markdown` as a function. */
  function Markdown(i: Intent): string {
    JoinLines(DocumentLines(i, [i.goal])) + "\n"
  }

  /** `Intent.to_markdown` */
  method ToMarkdown(i: Intent) returns (r: string)
    ensures r == Markdown(i)
  {
    hide SectionLines, JoinLines;
    var lines := ["# " + i.title, "", "## Goal", "", i.goal];
    var parts := [("Requirements", i.requirements), ("Constraints", i.constraints), ("Acceptance", i.acceptance)];
    for k := 0 to |parts|
      invariant lines == ["# " + i.title, "", "## Goal", ""] + [i.goal]
                         + (if k > 0 then SectionLines("Requirements", i.requirements) else [])
                         + (if k > 1 then SectionLines("Constraints", i.constraints) else [])
                         + (if k > 2 then SectionLines("Acceptance", i.acceptance) else [])
    {
      lines := AppendSection(lines, parts[k].0, parts[k].1);
    }
    r := JoinLines(lines) + "\n";
  }

  /** One turn of the printer's loop over the optional sections. */
  method AppendSection(before: seq<string>, heading: string, values: seq<string>) returns (lines: seq<string>)
    ensures lines == before + SectionLines(heading, values)
  {
    lines := before;
    if values != [] {
      lines := lines + ["", "## " + heading, ""];
      ghost var start := lines;
      for n := 0 to |values|
        invariant lines == start + Bullets(values[..n])
      {
        lines := lines + ["- " + values[n]];
        assert Bullets(values[..n + 1]) == Bullets(values[..n]) + ["- " + values[n]];
      }
      assert values[..|values|] == values;
    }
  }

  // ---- What parsing yields -------------------------------------------------------------

  /** Every item is a trimmed, non-empty, single line. */
  ghost predicate TidySections(sections: Sections) {
    forall name <- sections, item <- sections[name] :: Tidy(item)
  }

  /** A line as `LinesOf` leaves it. */
  predicate Line(l: string) {
    OneLine(l) && RStrip(l) == l
  }

  lemma LinesOfAreLines(markdown: string)
    ensures forall l <- LinesOf(markdown) :: Line(l)
  {
    var lines := SplitLines(Strip(markdown));
    LinesAreOneLine(Strip(markdown));
    forall l <- LinesOf(markdown) ensures Line(l) {
      var raw :| raw in lines && l == RStrip(raw);
      RStripShape(raw);
      RStripShape(l);
      assert forall c <- l :: c in raw;
    }
  }

  /** What a non-blank piece of a line contributes is tidy. */
  lemma StripIsTidy(l: string, from: nat)
    requires OneLine(l) && from <= |l| && !Blank(l[from..])
    ensures Tidy(Strip(l[from..]))
  {
    StripShape(l[from..]);
    assert forall c <- l[from..] :: c in l;
  }

  lemma BulletIsNotBlank(l: string)
    requires Line(l) && StartsWith(l, "- ")
    ensures !Blank(l[2..])
  {
    RStripShape(l);
    assert l[|l| - 1] == l[2..][|l| - 3] && l[2..][|l| - 3] in l[2..];
  }

  lemma StepKeepsTidy(st: State, line: string)
    requires st.Valid() && TidySections(st.sections) && Line(line) && StepLine(st, line).Ok?
    ensures TidySections(StepLine(st, line).value.sections)
  {
    hide Strip, Blank, Lower, Line, OneLine, Tidy, RStrip;
    if !StartsWith(line, "## ") && st.current.Some? {
      if StartsWith(line, "- ") {
        assert OneLine(line) by { LineIsOneLine(line); }
        BulletIsNotBlank(line);
        StripIsTidy(line, 2);
      } else if !Blank(line) {
        assert OneLine(line) by { LineIsOneLine(line); }
        assert line[0..] == line;
        StripIsTidy(line, 0);
      }
    }
  }

  lemma LineIsOneLine(l: string)
    requires Line(l)
    ensures OneLine(l)
  {
  }

  lemma {:induction false} ReadKeepsTidy(st: State, lines: seq<string>)
    requires st.Valid() && TidySections(st.sections) && (forall l <- lines :: Line(l)) && ReadLines(st, lines).Ok?
    ensures TidySections(ReadLines(st, lines).value.sections)
    decreases |lines|
  {
    hide StepLine, Line, TidySections;
    if lines != [] {
      StepKeepsTidy(st, lines[0]);
      ReadKeepsTidy(StepLine(st, lines[0]).value, lines[1..]);
    }
  }

  /** The tidy lines a goal is made of. */
  ghost predicate GoalOf(goal: string, lines: seq<string>) {
    lines != [] && goal == JoinLines(lines) && forall l <- lines :: Tidy(l)
  }

  ghost predicate TidyIntent(i: Intent) {
    Tidy(i.title) && forall item <- i.requirements + i.constraints + i.acceptance :: Tidy(item)
  }

  lemma ItemsAreTidy(sections: Sections, name: string)
    requires TidySections(sections)
    ensures forall item <- Items(sections, name) :: Tidy(item)
  {
    hide Tidy;
  }

  lemma TidyIsNotBlank(s: string)
    requires Tidy(s)
    ensures !Blank(s) && Strip(s) == s && RStrip(s) == s
  {
    StripShape(s);
    RStripShape(s);
    assert s[0] in s;
  }

  lemma JoinedIsNotBlank(lines: seq<string>)
    requires lines != [] && forall l <- lines :: Tidy(l)
    ensures !Blank(JoinLines(lines)) && SplitLines(JoinLines(lines)) == lines
  {
    var last := lines[|lines| - 1];
    assert Tidy(last);
    SplitJoined(lines);
    var text := JoinLines(lines);
    assert text[|text| - 1] in text;
  }

  /**
   Whatever the text, a parsed Intent has a tidy title, tidy items and a goal made of tidy
   lines; and the checks of the Intent constructor never reject what the parser built.
   */
  lemma ParsedIsTidy(markdown: string, intentId: string, newId: string)
    ensures var r := Parse(markdown, intentId, newId);
            && (r.Ok? ==> TidyIntent(r.value) && GoalOf(r.value.goal, SplitLines(r.value.goal)))
            && r != Err(InvalidIntent)
  {
    hide ReadLines, LinesOf, Strip, Tidy, Lower, JoinLines, SplitLines, TidySections, Blank;
    var lines := LinesOf(markdown);
    if lines != [] && StartsWith(lines[0], "# ") && ReadLines(START, lines[1..]).Ok? {
      LinesOfAreLines(markdown);
      var sections := ReadLines(START, lines[1..]).value.sections;
      assert TidySections(START.sections) by { NoSectionsAreTidy(); }
      ReadKeepsTidy(START, lines[1..]);
      AssembledIsTidy(lines[0], sections, intentId, newId);
    }
  }

  lemma NoSectionsAreTidy()
    ensures TidySections(map[])
  {
  }

  lemma AssembledIsTidy(titleLine: string, sections: Sections, intentId: string, newId: string)
    requires Line(titleLine) && StartsWith(titleLine, "# ") && TidySections(sections)
    ensures var r := Assemble(titleLine, sections, intentId, newId);
            && (r.Ok? ==> TidyIntent(r.value) && GoalOf(r.value.goal, SplitLines(r.value.goal)))
            && r != Err(InvalidIntent)
  {
    hide Strip, Tidy, JoinLines, SplitLines, TidySections, Blank, Line, Items;
    var goal := Items(sections, "goal");
    ItemsAreTidy(sections, "goal");
    ItemsAreTidy(sections, "requirements");
    ItemsAreTidy(sections, "constraints");
    ItemsAreTidy(sections, "acceptance");
    TitleIsTidy(titleLine);
    if goal != [] {
      JoinedIsNotBlank(goal);
      forall item | Tidy(item) ensures !Blank(item) {
        TidyIsNotBlank(item);
      }
    }
  }

  lemma TitleIsTidy(titleLine: string)
    requires Line(titleLine) && StartsWith(titleLine, "# ")
    ensures Strip(titleLine[2..]) != "" ==> Tidy(Strip(titleLine[2..]))
    ensures Tidy("Intent")
  {
    StripShape(titleLine[2..]);
    if !Blank(titleLine[2..]) {
      StripIsTidy(titleLine, 2);
    }
  }

  // ---- What printing yields ------------------------------------------------------------

  /** The tail of a printed document: its optional sections. */
  function TailLines(i: Intent): seq<string> {
    SectionLines("Requirements", i.requirements) + SectionLines("Constraints", i.constraints)
    + SectionLines("Acceptance", i.acceptance)
  }

  lemma BulletsAreLines(items: seq<string>)
    requires forall item <- items :: Tidy(item)
    ensures forall l <- Bullets(items) :: Line(l)
    ensures items != [] ==> forall l <- Bullets(items) :: Solid(l)
  {
    forall l <- Bullets(items) ensures Line(l) && Solid(l) {
      var item :| item in items && l == "- " + item;
      PrefixedIsLine("- ", item);
    }
  }

  /** Not empty, and not ending in a space. */
  predicate Solid(l: string) {
    l != "" && !IsSpace(l[|l| - 1])
  }

  lemma PrefixedIsLine(prefix: string, text: string)
    requires OneLine(prefix) && Tidy(text)
    ensures Line(prefix + text) && Solid(prefix + text)
  {
    var l := prefix + text;
    assert l[|l| - 1] == text[|text| - 1];
    RStripShape(l);
  }

  lemma SectionIsLines(heading: string, items: seq<string>)
    requires Tidy(heading) && forall item <- items :: Tidy(item)
    ensures forall l <- SectionLines(heading, items) :: Line(l)
    ensures var lines := SectionLines(heading, items); items != [] ==> lines != [] && Solid(lines[|lines| - 1])
  {
    hide Tidy, Line, Solid, Bullets;
    BulletsAreLines(items);
    assert OneLine("## ");
    PrefixedIsLine("## ", heading);
    EmptyIsLine();
    if items != [] {
      assert |Bullets(items)| == |items| by { BulletsCount(items); }
    }
  }

  lemma EmptyIsLine()
    ensures Line("")
  {
  }

  lemma BulletsCount(items: seq<string>)
    ensures |Bullets(items)| == |items|
  {
  }

  lemma HeadingsAreTidy()
    ensures Tidy("Goal") && Tidy("Requirements") && Tidy("Constraints") && Tidy("Acceptance")
  {
  }

  lemma DocumentIsLines(i: Intent, goal: seq<string>)
    requires TidyIntent(i) && GoalOf(i.goal, goal)
    ensures var lines := DocumentLines(i, goal);
            && lines != [] && (forall l <- lines :: Line(l)) && Solid(lines[|lines| - 1])
            && lines[0] != "" && !IsSpace(lines[0][0])
  {
    hide Tidy, Line, Solid, SectionLines, JoinLines;
    HeadingsAreTidy();
    EmptyIsLine();
    assert OneLine("# ") && OneLine("## ");
    PrefixedIsLine("# ", i.title);
    PrefixedIsLine("## ", "Goal");
    assert "## " + "Goal" == "## Goal";
    forall l <- goal ensures Line(l) && Solid(l) {
      PrefixedIsLine("", l);
      assert "" + l == l;
    }
    SectionIsLines("Requirements", i.requirements);
    SectionIsLines("Constraints", i.constraints);
    SectionIsLines("Acceptance", i.acceptance);
    EmptySections(i);
  }

  lemma EmptySections(i: Intent)
    ensures i.requirements == [] ==> SectionLines("Requirements", i.requirements) == []
    ensures i.constraints == [] ==> SectionLines("Constraints", i.constraints) == []
    ensures i.acceptance == [] ==> SectionLines("Acceptance", i.acceptance) == []
  {
  }

  /** Text that starts and ends a line properly is read back line by line. */
  lemma JoinedLines(lines: seq<string>)
    requires lines != [] && (forall l <- lines :: Line(l)) && Solid(lines[|lines| - 1])
    requires lines[0] != "" && !IsSpace(lines[0][0])
    ensures LinesOf(JoinLines(lines) + "\n") == lines
  {
    hide JoinLines, SplitLines, Strip, RStrip, LinesOf, IsSpace, IsLineBreak, OneLine;
    var text := JoinLines(lines);
    SplitJoined(lines);
    JoinStarts(lines);
    assert Trimmed(text);
    StripOneBreak(text);
    LinesAlready(text + "\n", lines);
  }

  lemma LinesAlready(markdown: string, lines: seq<string>)
    requires SplitLines(Strip(markdown)) == lines && forall l <- lines :: Line(l)
    ensures LinesOf(markdown) == lines
  {
    hide Strip, SplitLines, RStrip, OneLine;
    forall i | 0 <= i < |lines| ensures LinesOf(markdown)[i] == lines[i] {
      assert Line(lines[i]);
    }
  }

  lemma StripOneBreak(text: string)
    requires text != "" && Trimmed(text)
    ensures Strip(text + "\n") == text
  {
    var s := text + "\n";
    assert s[0] == text[0];
    assert LStrip(s) == s;
    assert s[..|s| - 1] == text;
    RStripShape(text);
  }

  lemma {:induction false} JoinStarts(lines: seq<string>)
    requires lines != [] && lines[0] != ""
    ensures JoinLines(lines) != "" && JoinLines(lines)[0] == lines[0][0]
  {
    if |lines| > 1 {
      JoinStarts(lines[..|lines| - 1]);
    }
  }

  /** Printing one goal text, or its lines one by one, is the same. */
  lemma PrintedByLine(i: Intent, goal: seq<string>)
    requires goal != [] && i.goal == JoinLines(goal)
    ensures Markdown(i) == JoinLines(DocumentLines(i, goal)) + "\n"
  {
    hide SectionLines, Terminated, JoinLines;
    var head := ["# " + i.title, "", "## Goal", ""];
    var tail := TailLines(i);
    assert DocumentLines(i, [i.goal]) == head + ([i.goal] + tail);
    assert DocumentLines(i, goal) == head + (goal + tail);
    TerminatedAppend(head, [i.goal] + tail);
    TerminatedAppend([i.goal], tail);
    TerminatedAppend(head, goal + tail);
    TerminatedAppend(goal, tail);
    JoinIsTerminated(goal);
    JoinIsTerminated([i.goal]);
    assert JoinLines([i.goal]) == i.goal by { JoinOne(i.goal); }
    JoinIsTerminated(DocumentLines(i, [i.goal]));
    JoinIsTerminated(DocumentLines(i, goal));
  }

  lemma JoinOne(line: string)
    ensures JoinLines([line]) == line
  {
  }

  /** A tidy Intent's printed form is read back as exactly its document lines. */
  lemma PrintedLines(i: Intent, goal: seq<string>)
    requires TidyIntent(i) && GoalOf(i.goal, goal)
    ensures LinesOf(Markdown(i)) == DocumentLines(i, goal)
  {
    hide Markdown, DocumentLines, LinesOf, JoinLines, TidyIntent, Line, Solid;
    DocumentIsLines(i, goal);
    PrintedByLine(i, goal);
    JoinedLines(DocumentLines(i, goal));
  }

  // ---- Reading a printed document ---------------------------------------------------------

  lemma {:induction false} ReadAppended(st: State, a: seq<string>, b: seq<string>)
    requires st.Valid() && ReadLines(st, a).Ok?
    ensures ReadLines(st, a + b) == ReadLines(ReadLines(st, a).value, b)
    decreases |a|
  {
    hide StepLine;
    if a == [] {
      assert a + b == b;
    } else {
      assert (a + b)[1..] == a[1..] + b;
      ReadAppended(StepLine(st, a[0]).value, a[1..], b);
    }
  }

  /** The items added to the section being read. */
  function Added(st: State, items: seq<string>): (r: State)
    requires st.Valid() && st.current.Some?
    ensures r.Valid() && r.current == st.current
  {
    st.(sections := st.sections[st.current.value := st.sections[st.current.value] + items])
  }

  lemma AddedNothing(st: State)
    requires st.Valid() && st.current.Some?
    ensures Added(st, []) == st
  {
    var name := st.current.value;
    assert st.sections[name] + [] == st.sections[name];
    assert Added(st, []).sections == st.sections;
  }

  lemma AddedTwice(st: State, a: seq<string>, b: seq<string>)
    requires st.Valid() && st.current.Some?
    ensures Added(Added(st, a), b) == Added(st, a + b)
  {
    var name := st.current.value;
    assert (st.sections[name] + a) + b == st.sections[name] + (a + b);
    assert Added(Added(st, a), b).sections == Added(st, a + b).sections;
  }

  lemma StepBullet(st: State, item: string)
    requires st.Valid() && st.current.Some? && Tidy(item)
    ensures StepLine(st, "- " + item) == Ok(Added(st, [item]))
  {
    hide Tidy, Strip, Lower;
    TidyIsNotBlank(item);
    var line := "- " + item;
    assert line[0] == '-' && line[1] == ' ' && line[2..] == item && line[..2] == "- ";
  }

  lemma {:induction false} ReadBullets(st: State, items: seq<string>)
    requires st.Valid() && st.current.Some? && forall item <- items :: Tidy(item)
    ensures ReadLines(st, Bullets(items)) == Ok(Added(st, items))
    decreases |items|
  {
    hide Tidy, StepLine, Added;
    if items == [] {
      AddedNothing(st);
    } else {
      StepBullet(st, items[0]);
      assert Bullets(items)[0] == "- " + items[0] && Bullets(items)[1..] == Bullets(items[1..]);
      ReadBullets(Added(st, [items[0]]), items[1..]);
      AddedTwice(st, [items[0]], items[1..]);
      assert [items[0]] + items[1..] == items;
    }
  }

  /** The section a heading opens. */
  function Opened(st: State, heading: string): (r: State)
    ensures r.Valid()
  {
    State(Some(Lower(heading)), st.sections[Lower(heading) := Items(st.sections, Lower(heading))])
  }

  lemma ReadHeading(st: State, heading: string)
    requires st.Valid() && Tidy(heading)
    ensures ReadLines(st, ["", "## " + heading, ""]) == Ok(Opened(st, heading))
  {
    hide Tidy, Strip, Lower;
    TidyIsNotBlank(heading);
    var line := "## " + heading;
    assert StartsWith(line, "## ") && line[3..] == heading;
    assert StepLine(st, line) == Ok(Opened(st, heading));
    var lines := ["", line, ""];
    assert lines[1..] == [line, ""] && lines[1..][1..] == [""] && lines[1..][1..][1..] == [];
    assert ReadLines(Opened(st, heading), [""]) == Ok(Opened(st, heading));
  }

  lemma ReadSection(st: State, heading: string, items: seq<string>)
    requires st.Valid() && st.current.Some? && Tidy(heading) && forall item <- items :: Tidy(item)
    ensures ReadLines(st, SectionLines(heading, items)) ==
            Ok(if items == [] then st else Added(Opened(st, heading), items))
  {
    hide Tidy, Lower, Bullets;
    if items != [] {
      ReadHeading(st, heading);
      ReadAppended(st, ["", "## " + heading, ""], Bullets(items));
      ReadBullets(Opened(st, heading), items);
    }
  }

  // ---- Which Intents survive ---------------------------------------------------------------

  /** A goal line the parser takes as it stands. */
  predicate PlainLine(l: string) {
    !StartsWith(l, "## ") && !StartsWith(l, "- ")
  }

  lemma StepPlain(st: State, line: string)
    requires st.Valid() && st.current.Some? && Tidy(line) && PlainLine(line)
    ensures StepLine(st, line) == Ok(Added(st, [line]))
  {
    hide Tidy, Strip, Lower;
    TidyIsNotBlank(line);
  }

  lemma {:induction false} ReadPlain(st: State, lines: seq<string>)
    requires st.Valid() && st.current.Some? && forall l <- lines :: Tidy(l) && PlainLine(l)
    ensures ReadLines(st, lines) == Ok(Added(st, lines))
    decreases |lines|
  {
    hide Tidy, PlainLine, StepLine, Added;
    if lines == [] {
      AddedNothing(st);
    } else {
      StepPlain(st, lines[0]);
      ReadPlain(Added(st, [lines[0]]), lines[1..]);
      AddedTwice(st, [lines[0]], lines[1..]);
      assert [lines[0]] + lines[1..] == lines;
    }
  }

  /** The number of characters in some lines. */
  function Size(lines: seq<string>): nat {
    if lines == [] then 0 else Size(lines[..|lines| - 1]) + |lines[|lines| - 1]|
  }

  lemma {:induction false} SizeFirst(lines: seq<string>)
    requires lines != []
    ensures Size(lines) == |lines[0]| + Size(lines[1..])
  {
    if |lines| > 1 {
      SizeFirst(lines[..|lines| - 1]);
      assert lines[1..][..|lines| - 2] == lines[..|lines| - 1][1..];
    }
  }

  /** Tidy lines add at most their own characters to the goal, and fewer if one of them is a heading or a bullet. */
  lemma {:induction false} GoalShrinks(st: State, lines: seq<string>)
    requires st.Valid() && st.current.Some? && forall l <- lines :: Tidy(l)
    ensures var r := ReadLines(st, lines);
            && r.Ok? && r.value.current.Some?
            && Size(Items(r.value.sections, "goal")) <= Size(Items(st.sections, "goal")) + Size(lines)
            && ((exists l <- lines :: !PlainLine(l)) ==>
                  Size(Items(r.value.sections, "goal")) < Size(Items(st.sections, "goal")) + Size(lines))
    decreases |lines|
  {
    hide Tidy, StepLine;
    if lines != [] {
      StepShrinks(st, lines[0]);
      SizeFirst(lines);
      GoalShrinks(StepLine(st, lines[0]).value, lines[1..]);
    }
  }

  lemma StepShrinks(st: State, line: string)
    requires st.Valid() && st.current.Some? && Tidy(line)
    ensures var r := StepLine(st, line);
            && r.Ok? && r.value.current.Some?
            && Size(Items(r.value.sections, "goal")) <= Size(Items(st.sections, "goal")) + |line|
            && (!PlainLine(line) ==> Size(Items(r.value.sections, "goal")) < Size(Items(st.sections, "goal")) + |line|)
  {
    hide Tidy, Strip, Lower, Size, Blank;
    TidyIsNotBlank(line);
    if !StartsWith(line, "## ") {
      var item := if StartsWith(line, "- ") then Strip(line[2..]) else Strip(line);
      assert StartsWith(line, "- ") ==> |item| < |line| by {
        if StartsWith(line, "- ") {
          StripShape(line[2..]);
        }
      }
      SizeOneMore(st.sections[st.current.value], item);
    }
  }

  lemma SizeOneMore(lines: seq<string>, line: string)
    ensures Size(lines + [line]) == Size(lines) + |line|
  {
    assert (lines + [line])[..|lines|] == lines;
  }

  /** The state once the title and the "Goal" heading have been read. */
  const IN_GOAL := State(Some("goal"), map["goal" := []])

  lemma LowerHeadings()
    ensures Lower("Goal") == "goal" && Lower("Requirements") == "requirements"
    ensures Lower("Constraints") == "constraints" && Lower("Acceptance") == "acceptance"
  {
  }

  /** Reading the optional sections of a printed document sets them and leaves the goal alone. */
  lemma ReadTail(st: State, i: Intent)
    requires st.Valid() && st.current.Some? && TidyIntent(i)
    ensures var r := ReadLines(st, TailLines(i));
            && r.Ok? && Items(r.value.sections, "goal") == Items(st.sections, "goal")
            && (st.sections.Keys == {"goal"} ==>
                  && Items(r.value.sections, "requirements") == i.requirements
                  && Items(r.value.sections, "constraints") == i.constraints
                  && Items(r.value.sections, "acceptance") == i.acceptance)
  {
    hide Tidy, ReadLines, SectionLines, Lower;
    HeadingsAreTidy();
    LowerHeadings();
    var a, b, d := SectionLines("Requirements", i.requirements), SectionLines("Constraints", i.constraints),
                   SectionLines("Acceptance", i.acceptance);
    ReadSection(st, "Requirements", i.requirements);
    var st1 := ReadLines(st, a).value;
    ReadSection(st1, "Constraints", i.constraints);
    var st2 := ReadLines(st1, b).value;
    ReadSection(st2, "Acceptance", i.acceptance);
    ReadAppended(st, a, b);
    ReadAppended(st, a + b, d);
  }

  /** What parsing a printed tidy Intent comes to: reading the goal's lines, then assembling. */
  lemma ParsePrinted(i: Intent, goal: seq<string>, intentId: string, newId: string)
    requires TidyIntent(i) && GoalOf(i.goal, goal)
    ensures var st := ReadLines(IN_GOAL, goal);
            && st.Ok? && st.value.current.Some?
            && var end := ReadLines(st.value, TailLines(i));
            && end.Ok?
            && Parse(Markdown(i), intentId, newId) == Assemble("# " + i.title, end.value.sections, intentId, newId)
  {
    hide Tidy, ReadLines, TailLines, Markdown, LinesOf, GoalOf, Assemble, SectionLines;
    PrintedLines(i, goal);
    var lines := DocumentLines(i, goal);
    var head := ["", "## " + "Goal", ""];
    GoalLines(i, goal);
    HeadingsAreTidy();
    ReadHeading(START, "Goal");
    LowerHeadings();
    GoalShrinks(IN_GOAL, goal);
    var st := ReadLines(IN_GOAL, goal).value;
    ReadTail(st, i);
    ReadAppended(START, head, goal + TailLines(i));
    ReadAppended(IN_GOAL, goal, TailLines(i));
  }

  lemma GoalLines(i: Intent, goal: seq<string>)
    ensures DocumentLines(i, goal)[0] == "# " + i.title && StartsWith("# " + i.title, "# ")
    ensures DocumentLines(i, goal)[1..] == ["", "## " + "Goal", ""] + (goal + TailLines(i))
    ensures GoalOf(i.goal, goal) ==> forall l <- goal :: Tidy(l)
  {
    hide SectionLines, Tidy;
    assert "## " + "Goal" == "## Goal";
    var head := ["", "## Goal", ""];
    assert DocumentLines(i, goal) == ["# " + i.title] + (head + (goal + TailLines(i)));
  }

  /** An Intent as parsing it back should give it: the identifier is supplied, the provenance is not printed. */
  function Reread(i: Intent, intentId: string, newId: string): Intent {
    i.(intentId := if intentId != "" then intentId else newId, provenance := map[])
  }

  /**
   What a writer has to respect: one trimmed line for the title and each item, and plain trimmed lines for the
   goal.
   */
  ghost predicate Printable(i: Intent) {
    && TidyIntent(i) && GoalOf(i.goal, SplitLines(i.goal))
    && forall l <- SplitLines(i.goal) :: PlainLine(l)
  }

  /** The round trip: an Intent is parsed back from its printed form exactly when it is printable. */
  lemma RoundTrip(i: Intent, intentId: string, newId: string)
    ensures Parse(Markdown(i), intentId, newId) == Ok(Reread(i, intentId, newId)) <==> Printable(i)
  {
    hide Parse, Markdown, PlainLine, TidyIntent, GoalOf;
    if Printable(i) {
      PrintableSurvives(i, intentId, newId);
    } else if Parse(Markdown(i), intentId, newId) == Ok(Reread(i, intentId, newId)) {
      SurvivorIsPrintable(i, intentId, newId);
    }
  }

  lemma PrintableSurvives(i: Intent, intentId: string, newId: string)
    requires Printable(i)
    ensures Parse(Markdown(i), intentId, newId) == Ok(Reread(i, intentId, newId))
  {
    hide Parse, Markdown, ReadLines, Tidy, SplitLines, TailLines, Strip, JoinLines, PlainLine, Blank;
    var goal := SplitLines(i.goal);
    ParsePrinted(i, goal, intentId, newId);
    ReadPlain(IN_GOAL, goal);
    var st := ReadLines(IN_GOAL, goal).value;
    assert [] + goal == goal;
    assert st.sections == map["goal" := goal];
    ReadTail(st, i);
    AssembleTidy(i, ReadLines(st, TailLines(i)).value.sections, goal, intentId, newId);
  }

  lemma AssembleTidy(i: Intent, sections: Sections, goal: seq<string>, intentId: string, newId: string)
    requires TidyIntent(i) && GoalOf(i.goal, goal) && Items(sections, "goal") == goal
    requires Items(sections, "requirements") == i.requirements && Items(sections, "constraints") == i.constraints
    requires Items(sections, "acceptance") == i.acceptance
    ensures Assemble("# " + i.title, sections, intentId, newId) == Ok(Reread(i, intentId, newId))
  {
    hide Tidy, SplitLines, Strip, JoinLines, Blank, Items;
    TidyIsNotBlank(i.title);
    assert i.title != "" by { TidyIsNotEmpty(i.title); }
    assert ("# " + i.title)[2..] == i.title;
    JoinedIsNotBlank(goal);
    forall item | Tidy(item) ensures !Blank(item) {
      TidyIsNotBlank(item);
    }
  }

  lemma TidyIsNotEmpty(s: string)
    requires Tidy(s)
    ensures s != ""
  {
  }

  lemma TidyLinesAreLines(lines: seq<string>)
    requires forall l <- lines :: Tidy(l)
    ensures forall l <- lines :: Line(l)
  {
    forall l <- lines ensures Line(l) {
      TidyIsNotBlank(l);
    }
  }

  lemma SurvivorIsPrintable(i: Intent, intentId: string, newId: string)
    requires Parse(Markdown(i), intentId, newId) == Ok(Reread(i, intentId, newId))
    ensures Printable(i)
  {
    hide Parse, Markdown, ReadLines, Tidy, SplitLines, TailLines, Strip, JoinLines, PlainLine;
    ParsedIsTidy(Markdown(i), intentId, newId);
    var goal := SplitLines(i.goal);
    ParsePrinted(i, goal, intentId, newId);
    GoalShrinks(IN_GOAL, goal);
    var st := ReadLines(IN_GOAL, goal).value;
    ReadTail(st, i);
    var items := Items(st.sections, "goal");
    assert JoinLines(items) == i.goal;
    TidyLinesAreLines(goal);
    ReadKeepsTidy(IN_GOAL, goal);
    ItemsAreTidy(st.sections, "goal");
    JoinedIsNotBlank(items);
    assert Size(Items(IN_GOAL.sections, "goal")) == 0;
  }

  /**
   What was parsed from any text survives printing exactly when no line of its goal reads as a heading or a
   bullet.
   */
  lemma ParsedSurvives(markdown: string, intentId: string, newId: string)
    requires Parse(markdown, intentId, newId).Ok?
    ensures var i := Parse(markdown, intentId, newId).value;
            Parse(Markdown(i), intentId, newId) == Ok(i) <==> forall l <- SplitLines(i.goal) :: PlainLine(l)
  {
    hide Markdown, PlainLine, TidyIntent, GoalOf, SplitLines, ReadLines, LinesOf;
    var i := Parse(markdown, intentId, newId).value;
    ParsedIsTidy(markdown, intentId, newId);
    RoundTrip(i, intentId, newId);
    assert Reread(i, intentId, newId) == i;
  }
}
