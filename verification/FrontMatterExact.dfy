// Exactly which proposals read back. JSON leaves three characters that `str.splitlines` ends a
// line at as they are, so a title or a path may stand on several of the reader's lines.
module FrontMatterExact {
  import opened Prelude
  import opened Strings
  import opened FrontMatter

  // ---- printing ----

  lemma {:induction false} PrintEnds(lines: seq<string>)
    ensures Ended(Print(lines))
  {
    if lines != [] {
      PrintEnds(lines[1..]);
    }
  }

  lemma {:induction false} PrintConcat(a: seq<string>, b: seq<string>)
    ensures Print(a + b) == Print(a) + Print(b)
  {
    if a == [] {
      assert a + b == b && "" + Print(b) == Print(b);
    } else {
      assert (a + b)[1..] == a[1..] + b && (a + b)[0] == a[0];
      PrintConcat(a[1..], b);
      assert a[0] + "\n" + (Print(a[1..]) + Print(b)) == a[0] + "\n" + Print(a[1..]) + Print(b);
    }
  }

  // ---- the reader ----

  // What the title and the touched paths are printed in, as the reader splits it.
  function EarlyLines(f: Front): seq<string> {
    SplitLines(Print(LinesBefore(f)))
  }

  // The line ends the front matter, or begins the dependencies.
  predicate Poses(line: string) {
    Strip(line) == "---" || StartsWith(RightStripped(line), DEPENDS)
  }

  ghost predicate NonePoses(lines: seq<string>) {
    forall k :: 0 <= k < |lines| ==> !Poses(lines[k])
  }

  lemma StripAfterRight(s: string)
    ensures Strip(RightStripped(s)) == Strip(s)
  {
    hide StripLeft, StripRight;
    var a, b := StripParts(s);
    var m := Strip(s);
    if m == "" {
      StripRightPast("", s, IsSpace);
      AllSpaceStrips("");
      assert "" + s == s && s == a + b;
    } else {
      StripRightPast(a + m, b, IsSpace);
      StripPadding(a, m, "");
      assert a + m + "" == a + m;
    }
  }

  lemma PosesByShape(line: string)
    ensures !Poses(line) <==> ShapeOf(line).Line? && ShapeOf(line).opening == Elsewhere
  {
    StripAfterRight(line);
  }

  lemma NonePosesByShape(lines: seq<string>)
    ensures NonePoses(lines) <==> AllElsewhere(Shapes(lines))
  {
    EachAt(ShapeOf, lines);
    forall k | 0 <= k < |lines| ensures !Poses(lines[k]) <==>
        ShapeOf(lines[k]).Line? && ShapeOf(lines[k]).opening == Elsewhere {
      PosesByShape(lines[k]);
    }
    hide Poses, ShapeOf, Shapes;
    assert Shapes(lines) == Each(ShapeOf, lines) by { SameShapes(lines); }
  }

  lemma SameShapes(lines: seq<string>)
    ensures Shapes(lines) == Each(ShapeOf, lines)
  {}

  // A line that is neither an item nor soft ends a list at once.
  const END := Line(None, false, Elsewhere)

  lemma {:induction false} ListEndsThere(a: seq<Shape>, rest: seq<Shape>)
    requires rest != [] && Ends(rest[0])
    ensures ReadShapes(a + rest, true) == ReadShapes(a + [END], true)
  {
    if a == [] {
      assert a + rest == rest && a + [END] == [END];
    } else {
      assert (a + rest)[1..] == a[1..] + rest && (a + [END])[1..] == a[1..] + [END];
      ListEndsThere(a[1..], rest);
    }
  }

  // Once a line poses, what is read no longer depends on what follows.
  lemma {:induction false} StuckBefore(a: seq<Shape>, rest: seq<Shape>)
    requires !AllElsewhere(a) && rest != [] && Ends(rest[0])
    ensures ReadShapes(a + rest, false) == ReadShapes(a + [END], false)
  {
    assert (a + rest)[1..] == a[1..] + rest && (a + [END])[1..] == a[1..] + [END];
    if a[0].Line? {
      if a[0].opening == Elsewhere {
        StuckBefore(a[1..], rest);
      } else if a[0].opening == BlockList {
        ListEndsThere(a[1..], rest);
      }
    }
  }

  ghost predicate AllPositive(ns: seq<int>) {
    forall n :: n in ns ==> n > 0
  }

  // What the reader finds in a proposal: the dependencies, or what stands before them.
  lemma ReadsOrSticks(early: seq<Shape>, depends: seq<Shape>, late: seq<Shape>, ns: seq<int>)
    requires DependsOf(depends, ns) && Ends(depends[0]) && late != [] && Ends(late[0])
    ensures ReadShapes(early + (depends + late), false)
         == if AllElsewhere(early) then ns else ReadShapes(early + [END], false)
  {
    if AllElsewhere(early) {
      ReadsBlock(early, depends, late, ns);
    } else {
      assert (depends + late)[0] == depends[0];
      StuckBefore(early, depends + late);
    }
  }

  // ---- the lines of a rendered proposal ----

  function TurnsLine(f: Front): string {
    "estimated_turns: " + IntText(f.estimatedTurns)
  }

  function LateLines(f: Front): seq<string> {
    ["gate_expectation: " + f.gateExpectation] + ListLines("baseline_red", Mapped(JsonText, f.baselineRed)) + ["---"]
  }

  lemma SevenParts(rule: string, before: seq<string>, depends: seq<string>, turns: string, gate: string,
                   red: seq<string>)
    ensures [rule] + (before + depends + ([turns, gate] + red)) + [rule]
         == ([rule] + before) + depends + ([turns] + ([gate] + red + [rule]))
  {}

  lemma LinesInParts(f: Front)
    ensures ["---"] + InnerLines(f) + ["---"]
         == (["---"] + LinesBefore(f)) + DependsLines(f.dependsOn) + ([TurnsLine(f)] + LateLines(f))
  {
    hide LinesBefore, DependsLines, ListLines, IntText;
    SevenParts("---", LinesBefore(f), DependsLines(f.dependsOn), TurnsLine(f), "gate_expectation: " + f.gateExpectation,
               ListLines("baseline_red", Mapped(JsonText, f.baselineRed)));
  }

  lemma RenderInParts(f: Front, rest: string)
    ensures Render(f) + rest
         == "---" + "\n" + (Print(LinesBefore(f))
              + (Print(DependsLines(f.dependsOn)) + (TurnsLine(f) + "\n" + (Print(LateLines(f)) + rest))))
  {
    hide LinesBefore, DependsLines, TurnsLine, LateLines, InnerLines;
    var a, b, c := LinesBefore(f), DependsLines(f.dependsOn), LateLines(f);
    LinesInParts(f);
    PrintConcat((["---"] + a) + b, [TurnsLine(f)] + c);
    PrintConcat(["---"] + a, b);
    PrintCons("---", a, "");
    PrintCons(TurnsLine(f), c, rest);
    Regroup("---" + "\n" + Print(a), Print(["---"] + a), Print(b), Print([TurnsLine(f)] + c), rest, Print(a));
  }

  lemma Regroup(first: string, head: string, b: string, c: string, rest: string, a: string)
    requires first == "---" + "\n" + a && head + "" == "---" + "\n" + (a + "")
    ensures head + b + c + rest == "---" + "\n" + (a + (b + (c + rest)))
  {
    assert head + "" == head && a + "" == a;
  }

  lemma ItemIsOneLine(n: int)
    ensures OneLine(ItemLine(IntText(n)))
  {}

  lemma DependsAreOneLine(ns: seq<int>)
    ensures AllOneLine(DependsLines(ns))
  {
    assert OneLine("depends_on: []") && OneLine(DEPENDS);
    hide OneLine, ItemLine, IntText;
    DependsLinesAre(ns);
    var lines := DependsLines(ns);
    forall k | 0 <= k < |lines| ensures OneLine(lines[k]) {
      if k > 0 {
        assert lines[k] == ItemLine(IntText(ns[k - 1]));
        ItemIsOneLine(ns[k - 1]);
      }
    }
  }

  lemma PrintedLines(lines: seq<string>)
    requires AllOneLine(lines)
    ensures SplitLines(Print(lines)) == lines
  {
    forall line, after | OneLine(line) ensures SplitLines(line + "\n" + after) == [line] + SplitLines(after) {
      SplitLinesCons(line, after);
    }
    PrintSplits(SplitLines, line => line, lines, "");
    assert Print(lines) + "" == Print(lines);
    assert Mapped(line => line, lines) == lines;
  }

  lemma SplitInParts(a: string, b: string, depends: seq<string>, turns: string, rest: string)
    requires Ended(a) && b == Print(depends) && AllOneLine(depends) && OneLine(turns)
    ensures SplitLines("---" + "\n" + (a + (b + (turns + "\n" + rest))))
         == ["---"] + (SplitLines(a) + (depends + ([turns] + SplitLines(rest))))
  {
    hide SplitLines, Print, IsBreak;
    assert OneLine("---") by { DashesAreOneLine(); }
    SplitLinesCons("---", a + (b + (turns + "\n" + rest)));
    LinesConcat(a, b + (turns + "\n" + rest));
    PrintEnds(depends);
    LinesConcat(b, turns + "\n" + rest);
    PrintedLines(depends);
    SplitLinesCons(turns, rest);
  }

  lemma DashesAreOneLine()
    ensures OneLine("---")
  {}

  lemma ReadsLines(early: seq<string>, depends: seq<string>, late: seq<string>)
    ensures DependsOnLines(["---"] + (early + (depends + late)))
              == ReadShapes(Shapes(early) + (Shapes(depends) + Shapes(late)), false)
  {
    StripOfStripped("---");
    assert (["---"] + (early + (depends + late)))[1..] == early + (depends + late);
    EachConcat(ShapeOf, early, depends + late);
    EachConcat(ShapeOf, depends, late);
  }

  lemma DependsKeyEnds(ns: seq<int>)
    ensures DependsLines(ns) != [] && Ends(Shapes(DependsLines(ns))[0])
  {
    DependsLinesAre(ns);
    EachAt(ShapeOf, DependsLines(ns));
    KeyEnds("depends_on: []");
    KeyEnds(DEPENDS);
  }

  lemma TurnsLineEnds(f: Front, more: seq<string>)
    ensures OneLine(TurnsLine(f)) && Shapes([TurnsLine(f)] + more) != [] && Ends(Shapes([TurnsLine(f)] + more)[0])
  {
    KeyLine("estimated_turns: ", IntText(f.estimatedTurns));
    KeyEnds(TurnsLine(f));
    EachCons(ShapeOf, TurnsLine(f), more);
  }

  // What the dispatcher's reader finds in any rendered proposal.
  lemma WhatIsRead(f: Front, rest: string)
    requires AllPositive(f.dependsOn)
    ensures DependsOn(Render(f) + rest)
         == if NonePoses(EarlyLines(f)) then f.dependsOn else ReadShapes(Shapes(EarlyLines(f)) + [END], false)
  {
    hide Print, LinesBefore, DependsLines, TurnsLine, LateLines, Render, SplitLines, DependsOnLines, Shapes, ReadShapes;
    var depends, late := DependsLines(f.dependsOn), [TurnsLine(f)] + SplitLines(Print(LateLines(f)) + rest);
    RenderInParts(f, rest);
    PrintEnds(LinesBefore(f));
    DependsAreOneLine(f.dependsOn);
    TurnsLineEnds(f, SplitLines(Print(LateLines(f)) + rest));
    SplitInParts(Print(LinesBefore(f)), Print(depends), depends, TurnsLine(f), Print(LateLines(f)) + rest);
    ReadsLines(EarlyLines(f), depends, late);
    DependsShapes(f.dependsOn);
    DependsKeyEnds(f.dependsOn);
    ReadsOrSticks(Shapes(EarlyLines(f)), Shapes(depends), Shapes(late), f.dependsOn);
    NonePosesByShape(EarlyLines(f));
  }

  // The reader recovers the dependencies, whatever they are, exactly when no line of the title
  // or the touched paths ends the front matter or begins the dependencies itself.
  lemma ReadsBackExactly(f: Front, rest: string)
    ensures (forall ns :: AllPositive(ns) ==> DependsOn(Render(f.(dependsOn := ns)) + rest) == ns) <==>
              NonePoses(EarlyLines(f))
  {
    forall ns | AllPositive(ns)
      ensures DependsOn(Render(f.(dependsOn := ns)) + rest)
           == if NonePoses(EarlyLines(f)) then ns else ReadShapes(Shapes(EarlyLines(f)) + [END], false)
    {
      WhatIsRead(f.(dependsOn := ns), rest);
      assert EarlyLines(f.(dependsOn := ns)) == EarlyLines(f);
    }
    assert AllPositive([]) && AllPositive([1]);
  }

  // ---- stripping it ----

  // The lines between the two rules, as `strip_front_matter` splits them.
  function KeptLines(f: Front): seq<string> {
    SplitKeep(Print(InnerLines(f)))
  }

  ghost predicate NoRule(lines: seq<string>) {
    forall k :: 0 <= k < |lines| ==> Strip(lines[k]) != "---"
  }

  lemma KeptInParts(f: Front, body: string)
    ensures SplitKeep(Render(f) + body) == ["---" + "\n"] + (KeptLines(f) + (["---" + "\n"] + SplitKeep(body)))
  {
    hide SplitKeep, InnerLines, IsBreak;
    var inner := InnerLines(f);
    PrintConcat(["---"] + inner, ["---"]);
    PrintCons("---", inner, "");
    PrintCons("---", [], body);
    Regroup("---" + "\n" + Print(inner), Print(["---"] + inner), Print(["---"]), "", body, Print(inner));
    assert Print([]) == "" && "" + body == body && ["---"] + [] == ["---"];
    assert Print(["---"]) + "" + body == Print(["---"]) + body && Print(["---"]) + ("" + body) == Print(["---"]) + body;
    assert Render(f) + body == "---" + "\n" + (Print(inner) + ("---" + "\n" + body));
    DashesAreOneLine();
    SplitKeepCons("---", Print(inner) + ("---" + "\n" + body));
    PrintEnds(inner);
    KeptConcat(Print(inner), "---" + "\n" + body);
    SplitKeepCons("---", body);
  }

  lemma {:induction false} FirstRule(lines: seq<string>, k: nat, m: nat)
    requires k <= m < |lines| && Strip(lines[m]) == "---"
    ensures RuleFrom(lines, k).Some? && k <= RuleFrom(lines, k).value <= m
    decreases m - k
  {
    if k < m && Strip(lines[k]) != "---" { FirstRule(lines, k + 1, m); }
  }

  lemma {:induction false} ConcatLength(a: seq<string>, b: seq<string>)
    ensures |Concat(a + b)| == |Concat(a)| + |Concat(b)|
  {
    if a == [] {
      assert a + b == b;
    } else {
      assert (a + b)[1..] == a[1..] + b;
      ConcatLength(a[1..], b);
    }
  }

  // Dropping blank lines drops no more than what stands before a line that is not blank.
  lemma {:induction false} DropStopsAt(a: seq<string>, line: string, b: seq<string>)
    requires Strip(line) != ""
    ensures |Concat(DropBlank(a + ([line] + b)))| >= |line| + |Concat(b)|
  {
    hide Strip;
    var all := a + ([line] + b);
    if a == [] {
      assert all == [line] + b && all[1..] == b;
    } else if Strip(a[0]) == "" {
      assert all[1..] == a[1..] + ([line] + b);
      DropStopsAt(a[1..], line, b);
    } else {
      ConcatLength(a, [line] + b);
      ConcatLength([line], b);
      assert [line][1..] == [] && line + "" == line;
    }
  }

  lemma StripsEarly(lines: seq<string>, kept: seq<string>, rule: string, rest: seq<string>)
    requires lines == [rule] + (kept + ([rule] + rest)) && Strip(rule) == "---" && !NoRule(kept)
    ensures RuleFrom(lines, 1).Some?
    ensures |Concat(DropBlank(lines[RuleFrom(lines, 1).value + 1..]))| > |Concat(rest)|
  {
    hide Strip, Concat, DropBlank;
    var k :| 0 <= k < |kept| && Strip(kept[k]) == "---";
    assert lines[k + 1] == kept[k];
    FirstRule(lines, 1, k + 1);
    var v := RuleFrom(lines, 1).value;
    assert lines[v + 1..] == kept[v..] + ([rule] + rest);
    DropStopsAt(kept[v..], rule, rest);
    RuleIsLong(rule);
  }

  lemma RuleIsLong(rule: string)
    requires Strip(rule) == "---"
    ensures |rule| > 0
  {
    var a, b := StripParts(rule);
  }

  lemma StripsExactly(lines: seq<string>, kept: seq<string>, rule: string, rest: seq<string>)
    requires lines == [rule] + (kept + ([rule] + rest)) && Strip(rule) == "---" && NoRule(kept)
    ensures RuleFrom(lines, 1).Some? && lines[RuleFrom(lines, 1).value + 1..] == rest
  {
    hide Strip;
    var m := |kept| + 1;
    assert lines[m] == rule && lines[m + 1..] == rest;
    forall j | 1 <= j < m ensures Strip(lines[j]) != "---" {
      assert lines[j] == kept[j - 1];
    }
    RuleFound(lines, 1, m);
  }

  lemma Stripped(text: string, kept: seq<string>, rule: string, body: string)
    requires SplitKeep(text) == [rule] + (kept + ([rule] + SplitKeep(body))) && Strip(rule) == "---"
    ensures StripFrontMatter(text) == Unblanked(body) <==> NoRule(kept)
  {
    hide Strip, SplitKeep, Concat, DropBlank, NoRule, RuleFrom;
    var lines := SplitKeep(text);
    ConcatSplitKeep(body);
    if NoRule(kept) {
      StripsExactly(lines, kept, rule, SplitKeep(body));
    } else {
      StripsEarly(lines, kept, rule, SplitKeep(body));
      var blank := OnlyBlankDropped(SplitKeep(body));
    }
  }

  // Stripping leaves the body without its leading blank lines exactly when no line between the
  // two rules is a rule itself.
  lemma BodySurvivesExactly(f: Front, body: string)
    ensures StripFrontMatter(Render(f) + body) == Unblanked(body) <==> NoRule(KeptLines(f))
  {
    hide StripFrontMatter, Render, KeptLines, SplitKeep, Unblanked, NoRule;
    KeptInParts(f, body);
    StripOfStripped("---");
    StripBreak("---");
    Stripped(Render(f) + body, KeptLines(f), "---" + "\n", body);
  }

  // ---- texts without a separator are safe ----

  lemma EarlyLinesAreSafe(f: Front)
    requires PlainTexts(f)
    ensures NonePoses(EarlyLines(f))
  {
    hide LinesBefore, NonePoses, Poses, IsInner;
    BeforeIsPast(f);
    InnerLinesAreInner(f);
    PastAreOneLine(LinesBefore(f));
    PrintedLines(LinesBefore(f));
    PastShapes(LinesBefore(f));
    NonePosesByShape(LinesBefore(f));
  }

  lemma PastAreOneLine(lines: seq<string>)
    requires AllPast(lines)
    ensures AllOneLine(lines)
  {}

  lemma KeptLinesAreSafe(f: Front)
    requires PlainTexts(f)
    ensures NoRule(KeptLines(f))
  {
    InnerLinesAreInner(f);
    KeptAre(InnerLines(f));
  }

  lemma EmptyKeeps()
    ensures SplitKeep("") == []
  {}

  lemma KeptAre(inner: seq<string>)
    requires AllInner(inner)
    ensures NoRule(SplitKeep(Print(inner)))
  {
    hide Strip, SplitKeep, OneLine;
    EmptyKeeps();
    forall line, after | OneLine(line) ensures SplitKeep(line + "\n" + after) == [AddBreak(line)] + SplitKeep(after) {
      SplitKeepCons(line, after);
    }
    PrintSplits(SplitKeep, AddBreak, inner, "");
    assert Print(inner) + "" == Print(inner);
    forall k | 0 <= k < |inner| ensures Strip(AddBreak(inner[k])) != "---" {
      StripBreak(inner[k]);
      InnerIsNoRule(inner[k]);
    }
  }

  // The dispatcher's reader recovers exactly the dependencies a proposal was written with, and
  // stripping leaves its body without its leading blank lines, when neither the title nor a path
  // holds a separator that JSON leaves as it is.
  lemma SafeProposalSurvives(f: Front, at: Outside, rest: string)
    requires Accepted(f, at) && SafeTexts(f)
    ensures DependsOn(Render(f) + rest) == f.dependsOn
    ensures StripFrontMatter(Render(f) + rest) == Unblanked(rest)
  {
    AcceptedArePlain(f, at);
    EarlyLinesAreSafe(f);
    KeptLinesAreSafe(f);
    WhatIsRead(f, rest);
    BodySurvivesExactly(f, rest);
  }
}
