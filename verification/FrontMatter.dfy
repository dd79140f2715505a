// The front matter of a proposal: written by harness/stages/propose.py, read by the dispatcher's
// reader in harness/__main__.py and stripped again for the implement stage.
module FrontMatter {
  import opened Prelude
  import opened Strings

  // ---- values ----

  datatype Front = Front(
    issue: int,
    upstreamIssue: Option<int>,
    title: string,
    kind: string,
    slices: int,
    risk: string,
    touchedPaths: seq<string>,
    dependsOn: seq<int>,
    estimatedTurns: int,
    gateExpectation: string,
    baselineRed: seq<string>)

  const KINDS := ["fix", "chore", "test", "docs"]
  const RISKS := ["low", "medium", "high"]
  const GATE_EXPECTATIONS := ["green", "known-red"]

  // No character `json.dumps` leaves as it is and `str.splitlines` ends a line at.
  ghost predicate NoSeparator(s: string) {
    '\U{85}' !in s && '\U{2028}' !in s && '\U{2029}' !in s
  }

  const GATE_NAMES := [
    "npx prisma generate",
    "npm run lint",
    "npm run typecheck",
    "backend: npm run typecheck",
    "bash scripts/check-prisma-drift.sh",
    "npm run test:unit",
    "npm run build"]
  const MAX_TITLE_CHARS := 120
  const MAX_SLICES := 5
  const MAX_TOUCHED_PATHS := 40

  // What the proposal is checked against: the product's paths, the open work items and the turns
  // one call may take.
  datatype Outside = Outside(paths: set<string>, openItems: set<int>, maxTurns: int)

  // `validate_proposal` finds nothing wrong.
  ghost predicate Accepted(f: Front, at: Outside) {
    && f.issue > 0 && f.issue in at.openItems
    && (f.upstreamIssue.Some? ==> f.upstreamIssue.value > 0)
    && Strip(f.title) != "" && |Strip(f.title)| <= MAX_TITLE_CHARS
    && f.kind in KINDS && 1 <= f.slices <= MAX_SLICES && f.risk in RISKS
    && f.touchedPaths != [] && |f.touchedPaths| <= MAX_TOUCHED_PATHS
    && (forall p :: p in f.touchedPaths ==> Strip(p) != "" && Strip(p) in at.paths)
    && (forall n :: n in f.dependsOn ==> n > 0)
    && 1 <= f.estimatedTurns <= at.maxTurns
    && f.gateExpectation in GATE_EXPECTATIONS
    && (forall g :: g in f.baselineRed ==> g in GATE_NAMES)
    && (f.gateExpectation == "known-red" ==> f.baselineRed != [])
  }

  lemma AcceptedBounds(f: Front, at: Outside)
    requires Accepted(f, at)
    ensures 1 <= |Strip(f.title)| <= 120 && 1 <= f.slices <= 5 && 1 <= |f.touchedPaths| <= 40
  {}

  // Neither the title nor a path holds a separator, which `validate_proposal` never asks.
  ghost predicate SafeTexts(f: Front) {
    NoSeparator(f.title) && forall p :: p in f.touchedPaths ==> NoSeparator(p)
  }

  // Every line is printed as one.
  ghost predicate PlainTexts(f: Front) {
    && SafeTexts(f) && (forall g :: g in f.baselineRed ==> NoSeparator(g))
    && f.kind in KINDS && f.risk in RISKS && f.gateExpectation in GATE_EXPECTATIONS
  }

  lemma AcceptedArePlain(f: Front, at: Outside)
    requires Accepted(f, at) && SafeTexts(f)
    ensures PlainTexts(f)
  {
    GatesHoldNone();
  }

  lemma AsciiHoldsNone(s: string)
    requires forall k :: 0 <= k < |s| ==> s[k] <= '~'
    ensures NoSeparator(s)
  {}

  lemma ScriptGatesHoldNone()
    ensures NoSeparator("npm run lint") && NoSeparator("npm run typecheck") && NoSeparator("npm run test:unit")
              && NoSeparator("npm run build")
  {
    hide NoSeparator;
    AsciiHoldsNone("npm run lint");
    AsciiHoldsNone("npm run typecheck");
    AsciiHoldsNone("npm run test:unit");
    AsciiHoldsNone("npm run build");
  }

  lemma OtherGatesHoldNone()
    ensures NoSeparator("npx prisma generate") && NoSeparator("backend: npm run typecheck")
              && NoSeparator("bash scripts/check-prisma-drift.sh")
  {
    hide NoSeparator;
    AsciiHoldsNone("npx prisma generate");
    AsciiHoldsNone("backend: npm run typecheck");
    AsciiHoldsNone("bash scripts/check-prisma-drift.sh");
  }

  lemma GatesHoldNone()
    ensures forall g :: g in GATE_NAMES ==> NoSeparator(g)
  {
    hide NoSeparator;
    ScriptGatesHoldNone();
    OtherGatesHoldNone();
  }

  // ---- the writer ----

  function HexDigit(n: nat): char
    requires n < 16
  {
    if n < 10 then DigitChar(n) else 'a' + ((n - 10) as char)
  }

  // One character of a JSON string, as `json.dumps(ensure_ascii=False)` writes it.
  function Escape(c: char): string {
    if c == '"' then "\\\""
    else if c == '\\' then "\\\\"
    else if c == '\n' then "\\n"
    else if c == '\r' then "\\r"
    else if c == '\t' then "\\t"
    else if c == '\U{08}' then "\\b"
    else if c == '\U{0C}' then "\\f"
    else if c < ' ' then "\\u00" + [HexDigit(c as nat / 16), HexDigit(c as nat % 16)]
    else [c]
  }

  // The characters with a short form, and the one form each has.
  lemma ShortForms()
    ensures Escape('\n') == "\\n" && Escape('\r') == "\\r" && Escape('\t') == "\\t"
    ensures Escape('"') == ['\\', '"'] && Escape('\\') == ['\\', '\\']
    ensures Escape('\U{08}') == "\\b" && Escape('\U{0C}') == "\\f"
  {}

  function EscapeAll(s: string): string {
    if s == "" then "" else Escape(s[0]) + EscapeAll(s[1..])
  }

  function JsonText(s: string): string {
    "\"" + EscapeAll(s) + "\""
  }

  // `str(n)`
  function IntText(n: int): (t: string)
    ensures t != "" && OneLine(t) && !IsSpace(t[|t| - 1])
    ensures n >= 0 ==> AllDigits(t) && NumberOf(t) == n
    ensures n < 0 ==> t[0] == '-' && t != "-" && AllDigits(t[1..]) && NumberOf(t[1..]) == -n
  {
    if n >= 0 then Digits(n) else "-" + Digits(-n)
  }

  function OptionalInt(n: Option<int>): string {
    match n
    case Some(x) => IntText(x)
    case None => "null"
  }

  function ItemLine(text: string): string {
    "  - " + text
  }

  // `_yaml_list`
  function ListLines(key: string, items: seq<string>): seq<string> {
    if items == [] then [key + ": []"] else [key + ":"] + Mapped(ItemLine, items)
  }

  function HeadLines(f: Front): seq<string> {
    ["issue: " + IntText(f.issue),
     "upstream_issue: " + OptionalInt(f.upstreamIssue),
     "title: " + JsonText(f.title),
     "kind: " + f.kind,
     "slices: " + IntText(f.slices),
     "risk: " + f.risk]
  }

  function LinesBefore(f: Front): seq<string> {
    HeadLines(f) + ListLines("touched_paths", Mapped(JsonText, f.touchedPaths))
  }

  function TailLines(f: Front): seq<string> {
    ["estimated_turns: " + IntText(f.estimatedTurns), "gate_expectation: " + f.gateExpectation]
  }

  function LinesAfter(f: Front): seq<string> {
    TailLines(f) + ListLines("baseline_red", Mapped(JsonText, f.baselineRed))
  }

  function DependsLines(ns: seq<int>): seq<string> {
    ListLines("depends_on", Mapped(IntText, ns))
  }

  function InnerLines(f: Front): seq<string> {
    LinesBefore(f) + DependsLines(f.dependsOn) + LinesAfter(f)
  }

  function Print(lines: seq<string>): string {
    if lines == [] then "" else lines[0] + "\n" + Print(lines[1..])
  }

  // `render_front_matter`
  function Render(f: Front): string {
    Print(["---"] + InnerLines(f) + ["---"])
  }

  // ---- the reader ----

  predicate IsBracket(c: char) {
    c == '[' || c == ']'
  }

  function Numbers(tokens: seq<string>): seq<int> {
    if tokens == [] then []
    else
      var t := Strip(tokens[0]);
      (if t != "" && AllDigits(t) then [NumberOf(t)] else []) + Numbers(tokens[1..])
  }

  function RightStripped(s: string): string {
    StripRight(s, IsSpace)
  }

  const DEPENDS := "depends_on:"

  // What a line may open, outside a block list.
  datatype Opening = Elsewhere | Inline(numbers: seq<int>) | BlockList

  // A line as the reader sees it: the rule that ends the front matter, or a line with the
  // numbers it holds as a list item, whether it may stand inside a list, and what it opens.
  datatype Shape = Rule | Line(item: Option<seq<int>>, soft: bool, opening: Opening)

  function OpeningOf(line: string): Opening {
    if !StartsWith(line, DEPENDS) then Elsewhere
    else
      var value := Strip(Uncommented(line[|DEPENDS|..]));
      if StartsWith(value, "[") then Inline(Numbers(SplitAt(StripRight(StripLeft(value, IsBracket), IsBracket), ',')))
      else if value == "" then BlockList
      else Inline(Numbers([value]))
  }

  function ItemOf(stripped: string): Option<seq<int>> {
    if StartsWith(stripped, "- ") then Some(Numbers([Uncommented(stripped[2..])])) else None
  }

  function ShapeOf(raw: string): Shape {
    var line := RightStripped(raw);
    var stripped := Strip(line);
    if stripped == "---" then Rule
    else Line(ItemOf(stripped), stripped == "" || StartsWith(line, " "), OpeningOf(line))
  }

  // What the reader finds from a line on, in a block list or before one.
  function ReadShapes(shapes: seq<Shape>, inBlock: bool): seq<int> {
    if shapes == [] then []
    else match shapes[0]
      case Rule => []
      case Line(item, soft, opening) =>
        if inBlock then
          if item.Some? then item.value + ReadShapes(shapes[1..], true)
          else if soft then ReadShapes(shapes[1..], true)
          else []
        else match opening
          case Elsewhere => ReadShapes(shapes[1..], false)
          case BlockList => ReadShapes(shapes[1..], true)
          case Inline(numbers) => numbers
  }

  function Shapes(lines: seq<string>): seq<Shape> {
    Each(ShapeOf, lines)
  }

  function DependsOnLines(lines: seq<string>): seq<int> {
    if lines == [] || Strip(lines[0]) != "---" then [] else ReadShapes(Shapes(lines[1..]), false)
  }

  function DependsOn(text: string): seq<int> {
    DependsOnLines(SplitLines(text))
  }

  // A text that does not begin with a rule has no front matter: it waits on nothing, and strips to
  // itself.
  lemma NoFrontMatter(text: string)
    requires var lines := SplitLines(text); lines == [] || Strip(lines[0]) != "---"
    ensures DependsOn(text) == []
  {}

  // The tokens of a list are read one by one, and what is no number is passed over.
  lemma {:induction false} NumbersConcat(a: seq<string>, b: seq<string>)
    ensures Numbers(a + b) == Numbers(a) + Numbers(b)
  {
    hide Strip;
    if a == [] {
      assert a + b == b;
    } else {
      assert (a + b)[1..] == a[1..] + b;
      NumbersConcat(a[1..], b);
    }
  }

  lemma OneNumber(token: string)
    ensures var t := Strip(token);
            Numbers([token]) == if t != "" && AllDigits(t) then [NumberOf(t)] else []
  {
    assert [token][1..] == [];
  }

  // What one line gives: its numbers, whether reading ends there, and whether a list is open after it.
  datatype Step = Step(numbers: seq<int>, done: bool, inBlock: bool)

  function StepOf(shape: Shape, inBlock: bool): Step {
    match shape
    case Rule => Step([], true, inBlock)
    case Line(item, soft, opening) =>
      if inBlock then
        if item.Some? then Step(item.value, false, true) else Step([], !soft, true)
      else match opening
        case Elsewhere => Step([], false, false)
        case BlockList => Step([], false, true)
        case Inline(numbers) => Step(numbers, true, false)
  }

  lemma ReadsStep(shapes: seq<Shape>, inBlock: bool)
    requires shapes != []
    ensures var step := StepOf(shapes[0], inBlock);
            ReadShapes(shapes, inBlock) == step.numbers + if step.done then []
                else ReadShapes(shapes[1..], step.inBlock)
  {}

  // One turn of the reader's loop.
  method ReadOne(raw: string, inBlock: bool) returns (step: Step)
    ensures step == StepOf(ShapeOf(raw), inBlock)
  {
    var line := RightStripped(raw);
    if Strip(line) == "---" {
      return Step([], true, inBlock);
    }
    if inBlock {
      var stripped := Strip(line);
      if StartsWith(stripped, "- ") {
        return Step(Numbers([Uncommented(stripped[2..])]), false, true);
      }
      return Step([], stripped != "" && !StartsWith(line, " "), true);
    }
    if !StartsWith(line, DEPENDS) {
      return Step([], false, false);
    }
    var value := Strip(Uncommented(line[|DEPENDS|..]));
    if StartsWith(value, "[") {
      return Step(Numbers(SplitAt(StripRight(StripLeft(value, IsBracket), IsBracket), ',')), true, false);
    }
    if value == "" {
      return Step([], false, true);
    }
    return Step(Numbers([value]), true, false);
  }

  // `_front_matter_depends_on`
  method FrontMatterDependsOn(text: string) returns (found: seq<int>)
    ensures found == DependsOn(text)
  {
    found := ReadFront(SplitLines(text));
  }

  method ReadFront(lines: seq<string>) returns (found: seq<int>)
    ensures found == DependsOnLines(lines)
  {
    found := [];
    if lines != [] && Strip(lines[0]) == "---" {
      EachAt(ShapeOf, lines[1..]);
      found := ReadBlock(lines[1..], Shapes(lines[1..]));
    }
  }

  // What is found so far, with what the shapes from the k-th on still give, is all there is.
  ghost predicate Reading(shapes: seq<Shape>, k: nat, inBlock: bool, found: seq<int>, all: seq<int>)
    requires k <= |shapes|
  {
    found + ReadShapes(shapes[k..], inBlock) == all
  }

  lemma ReadingStarts(shapes: seq<Shape>, all: seq<int>)
    requires all == ReadShapes(shapes, false)
    ensures Reading(shapes, 0, false, [], all)
  {
    assert shapes[0..] == shapes && [] + all == all;
  }

  lemma ReadingStep(shapes: seq<Shape>, k: nat, inBlock: bool, found: seq<int>, all: seq<int>)
    requires k < |shapes| && Reading(shapes, k, inBlock, found, all)
    ensures var step := StepOf(shapes[k], inBlock);
            if step.done then found + step.numbers == all
            else Reading(shapes, k + 1, step.inBlock, found + step.numbers, all)
  {
    hide ReadShapes;
    var step := StepOf(shapes[k], inBlock);
    ReadsStep(shapes[k..], inBlock);
    assert shapes[k..][1..] == shapes[k + 1..];
    var left := if step.done then [] else ReadShapes(shapes[k + 1..], step.inBlock);
    assert found + (step.numbers + left) == found + step.numbers + left;
  }

  lemma ReadingEnds(shapes: seq<Shape>, inBlock: bool, found: seq<int>, all: seq<int>)
    requires Reading(shapes, |shapes|, inBlock, found, all)
    ensures found == all
  {}

  method ReadBlock(lines: seq<string>, ghost shapes: seq<Shape>) returns (found: seq<int>)
    requires |shapes| == |lines| && forall k :: 0 <= k < |lines| ==> shapes[k] == ShapeOf(lines[k])
    ensures found == ReadShapes(shapes, false)
  {
    hide ShapeOf, OpeningOf, StepOf, Reading, ReadShapes;
    found := [];
    ghost var all := ReadShapes(shapes, false);
    ReadingStarts(shapes, all);
    var inBlock, k := false, 0;
    while k < |lines|
      invariant 0 <= k <= |lines|
      invariant Reading(shapes, k, inBlock, found, all)
    {
      ReadingStep(shapes, k, inBlock, found, all);
      var step := ReadOne(lines[k], inBlock);
      found := found + step.numbers;
      if step.done {
        return;
      }
      inBlock, k := step.inBlock, k + 1;
    }
    ReadingEnds(shapes, inBlock, found, all);
  }

  // ---- every line between the rules is read past ----

  // A line of the block: a key at its start, or an item under one.
  ghost predicate IsInner(line: string) {
    && OneLine(line) && line != ""
    && (IsKey(line) || exists text: string :: text != "" && !IsSpace(text[|text| - 1]) && line == ItemLine(text))
  }

  ghost predicate IsKey(line: string) {
    line != "" && !IsSpace(line[0]) && line[0] != '-'
  }

  lemma FirstKept(line: string)
    requires line != "" && !IsSpace(line[0])
    ensures RightStripped(line) != "" && RightStripped(line)[0] == line[0]
    ensures Strip(line) == RightStripped(line)
  {
    StripRightKeeps(line, IsSpace);
  }

  lemma ItemStripped(text: string)
    requires text != "" && !IsSpace(text[|text| - 1])
    ensures Strip(ItemLine(text)) == "- " + text && RightStripped(ItemLine(text)) == ItemLine(text)
  {
    var m := "- " + text;
    assert ItemLine(text) == "  " + m + "";
    StripPadding("  ", m, "");
  }

  lemma InnerIsNoRule(line: string)
    requires IsInner(line)
    ensures Strip(line) != "---" && Strip(RightStripped(line)) != "---"
  {
    if IsKey(line) {
      FirstKept(line);
      FirstKept(RightStripped(line));
    } else {
      var text: string :| text != "" && !IsSpace(text[|text| - 1]) && line == ItemLine(text);
      ItemStripped(text);
      assert ("- " + text)[1] == ' ';
    }
  }

  // A line of the block that does not begin the dependencies.
  ghost predicate IsPast(line: string) {
    IsInner(line) && (IsKey(line) ==> line[0] != 'd')
  }

  ghost predicate AllPast(lines: seq<string>) {
    forall k :: 0 <= k < |lines| ==> IsPast(lines[k])
  }

  lemma AllPastConcat(a: seq<string>, b: seq<string>)
    requires AllPast(a) && AllPast(b)
    ensures AllPast(a + b)
  {}

  lemma ShapeParts(raw: string, line: string, stripped: string)
    requires RightStripped(raw) == line && Strip(line) == stripped && stripped != "---"
    ensures ShapeOf(raw) == Line(ItemOf(stripped), stripped == "" || StartsWith(line, " "), OpeningOf(line))
  {}

  lemma OpensNothing(line: string)
    requires line != "" && line[0] != 'd'
    ensures OpeningOf(line) == Elsewhere
  {}

  lemma ItemParts(raw: string, stripped: string)
    requires RightStripped(raw) == raw && Strip(raw) == stripped && stripped != "---"
    requires raw != "" && raw[0] == ' '
    ensures ShapeOf(raw) == Line(ItemOf(stripped), true, Elsewhere)
  {
    ShapeParts(raw, raw, stripped);
    OpensNothing(raw);
    assert raw[..1] == " ";
  }

  lemma ItemShapeOf(text: string)
    requires text != "" && !IsSpace(text[|text| - 1])
    ensures ShapeOf(ItemLine(text)) == Line(ItemOf("- " + text), true, Elsewhere)
  {
    ItemStripped(text);
    assert ("- " + text)[1] == ' ';
    ItemParts(ItemLine(text), "- " + text);
  }

  lemma ItemOfText(text: string)
    ensures ItemOf("- " + text) == Some(Numbers([Uncommented(text)]))
  {
    assert ("- " + text)[..2] == "- " && ("- " + text)[2..] == text;
  }

  lemma KeyShapeOf(line: string)
    requires IsKey(line)
    ensures ShapeOf(line) == Line(None, false, OpeningOf(RightStripped(line)))
    ensures line[0] != 'd' ==> OpeningOf(RightStripped(line)) == Elsewhere
  {
    FirstKept(line);
    FirstKept(RightStripped(line));
  }

  // Such a line is read past.
  lemma PastShape(line: string)
    requires IsPast(line)
    ensures ShapeOf(line).Line? && ShapeOf(line).opening == Elsewhere
  {
    if IsKey(line) {
      KeyShapeOf(line);
    } else {
      var text: string :| text != "" && !IsSpace(text[|text| - 1]) && line == ItemLine(text);
      ItemShapeOf(text);
    }
  }

  ghost predicate AllElsewhere(shapes: seq<Shape>) {
    forall k :: 0 <= k < |shapes| ==> shapes[k].Line? && shapes[k].opening == Elsewhere
  }

  lemma PastShapes(lines: seq<string>)
    requires AllPast(lines)
    ensures AllElsewhere(Shapes(lines))
  {
    forall k | 0 <= k < |lines| ensures ShapeOf(lines[k]).Line? && ShapeOf(lines[k]).opening == Elsewhere {
      PastShape(lines[k]);
    }
    EachAt(ShapeOf, lines);
  }

  lemma {:induction false} ReadsPast(shapes: seq<Shape>, rest: seq<Shape>)
    requires AllElsewhere(shapes)
    ensures ReadShapes(shapes + rest, false) == ReadShapes(rest, false)
  {
    if shapes == [] {
      assert shapes + rest == rest;
    } else {
      assert (shapes + rest)[1..] == shapes[1..] + rest;
      ReadsPast(shapes[1..], rest);
    }
  }

  lemma NumberReadsBack(n: int)
    requires n > 0
    ensures Numbers([Uncommented(IntText(n))]) == [n]
  {
    var t := IntText(n);
    NoComment(t);
    assert IsDigit(t[0]) && IsDigit(t[|t| - 1]);
    StripOfStripped(t);
    assert Numbers([t][1..]) == [];
  }

  // The shapes of a list of items, each holding one of the numbers.
  ghost predicate ItemsOf(shapes: seq<Shape>, ns: seq<int>) {
    |shapes| == |ns| && forall k :: 0 <= k < |ns| ==> shapes[k].Line? && shapes[k].item == Some([ns[k]])
  }

  lemma ItemShape(n: int)
    requires n > 0
    ensures ShapeOf(ItemLine(IntText(n))).Line? && ShapeOf(ItemLine(IntText(n))).item == Some([n])
  {
    ItemShapeOf(IntText(n));
    ItemOfText(IntText(n));
    NumberReadsBack(n);
  }

  lemma ItemsEach(shapeOf: string -> Shape, lines: seq<string>, ns: seq<int>)
    requires |lines| == |ns|
    requires forall k :: 0 <= k < |ns| ==> shapeOf(lines[k]).Line? && shapeOf(lines[k]).item == Some([ns[k]])
    ensures ItemsOf(Each(shapeOf, lines), ns)
  {
    EachAt(shapeOf, lines);
  }

  lemma ItemShapes(ns: seq<int>)
    requires forall n :: n in ns ==> n > 0
    ensures ItemsOf(Shapes(Mapped(ItemLine, Mapped(IntText, ns))), ns)
  {
    var lines := Mapped(ItemLine, Mapped(IntText, ns));
    forall k | 0 <= k < |ns| ensures ShapeOf(lines[k]).Line? && ShapeOf(lines[k]).item == Some([ns[k]]) {
      assert ns[k] in ns && lines[k] == ItemLine(IntText(ns[k]));
      ItemShape(ns[k]);
    }
    ItemsEach(ShapeOf, lines, ns);
  }

  // A line that ends a list.
  ghost predicate Ends(shape: Shape) {
    shape.Line? && shape.item.None? && !shape.soft
  }

  // A block list gives back its numbers, and the key after it ends it.
  lemma {:induction false} ReadsList(ns: seq<int>, shapes: seq<Shape>, rest: seq<Shape>)
    requires ItemsOf(shapes, ns) && rest != [] && Ends(rest[0])
    ensures ReadShapes(shapes + rest, true) == ns
  {
    if ns == [] {
      assert shapes + rest == rest;
    } else {
      assert (shapes + rest)[1..] == shapes[1..] + rest && ns == [ns[0]] + ns[1..];
      ReadsList(ns[1..], shapes[1..], rest);
    }
  }

  // The shapes of the dependencies' lines: an empty inline list, or a block list.
  ghost predicate DependsOf(shapes: seq<Shape>, ns: seq<int>) {
    && shapes != [] && shapes[0].Line?
    && if ns == [] then |shapes| == 1 && shapes[0].opening == Inline([])
       else shapes[0].opening == BlockList && ItemsOf(shapes[1..], ns)
  }

  lemma DependsLinesAre(ns: seq<int>)
    ensures DependsLines(ns) == if ns == [] then ["depends_on: []"]
              else [DEPENDS] + Mapped(ItemLine, Mapped(IntText, ns))
  {
    assert "depends_on" + ": []" == "depends_on: []" && "depends_on" + ":" == DEPENDS;
  }

  lemma DependsShapes(ns: seq<int>)
    requires forall n :: n in ns ==> n > 0
    ensures DependsOf(Shapes(DependsLines(ns)), ns)
  {
    DependsLinesAre(ns);
    if ns == [] {
      EmptyListLine();
      EachCons(ShapeOf, "depends_on: []", []);
      assert ["depends_on: []"] + [] == ["depends_on: []"];
    } else {
      OpenListLine();
      ItemShapes(ns);
      EachCons(ShapeOf, DEPENDS, Mapped(ItemLine, Mapped(IntText, ns)));
    }
  }

  lemma ReadsDepends(shapes: seq<Shape>, ns: seq<int>, rest: seq<Shape>)
    requires DependsOf(shapes, ns) && rest != [] && Ends(rest[0])
    ensures ReadShapes(shapes + rest, false) == ns
  {
    assert (shapes + rest)[1..] == shapes[1..] + rest;
    if ns != [] {
      ReadsList(ns, shapes[1..], rest);
    }
  }

  lemma EmptyListLine()
    ensures ShapeOf("depends_on: []").Line? && ShapeOf("depends_on: []").opening == Inline([])
  {
    var line := "depends_on: []";
    StripOfStripped(line);
    KeyShapeOf(line);
    EmptyValue();
    assert StartsWith(line, DEPENDS) && line[|DEPENDS|..] == " []";
  }

  lemma EmptyValue()
    ensures Strip(Uncommented(" []")) == "[]"
              && Numbers(SplitAt(StripRight(StripLeft("[]", IsBracket), IsBracket), ',')) == []
  {
    assert '#' !in " []";
    NoComment(" []");
    StripPadding(" ", "[]", "");
    assert " " + "[]" + "" == " []";
    StripLeftPast("[]", "", IsBracket);
    assert "[]" + "" == "[]";
    assert Strip("") == "" && [""][1..] == [];
  }

  lemma OpenListLine()
    ensures ShapeOf(DEPENDS).Line? && ShapeOf(DEPENDS).opening == BlockList
  {
    StripOfStripped(DEPENDS);
    KeyShapeOf(DEPENDS);
    assert DEPENDS[|DEPENDS|..] == "";
  }

  // ---- the lines written are such lines ----

  lemma {:induction false} EscapedIsOneLine(s: string)
    requires NoSeparator(s)
    ensures OneLine(EscapeAll(s))
  {
    if s != "" {
      EscapedIsOneLine(s[1..]);
      var c := s[0];
      assert c in s && OneLine(Escape(c));
    }
  }

  lemma KeyLine(key: string, value: string)
    requires OneLine(key) && OneLine(value) && IsKey(key)
    ensures IsInner(key + value) && IsKey(key + value) && (key + value)[0] == key[0]
  {}

  lemma ListIsInner(key: string, items: seq<string>)
    requires OneLine(key) && IsKey(key)
    requires forall k :: 0 <= k < |items| ==> OneLine(items[k]) && items[k] != "" && !IsSpace(items[k][|items[k]| - 1])
    ensures forall k :: 0 <= k < |ListLines(key, items)| ==>
              IsInner(ListLines(key, items)[k])
                  && (IsKey(ListLines(key, items)[k]) ==> ListLines(key, items)[k][0] == key[0])
  {
    KeyLine(key, ": []");
    KeyLine(key, ":");
    var lines := ListLines(key, items);
    forall k | 0 <= k < |lines| ensures IsInner(lines[k]) && (IsKey(lines[k]) ==> lines[k][0] == key[0]) {
      if items != [] && k > 0 {
        assert lines[k] == ItemLine(items[k - 1]);
      }
    }
  }

  lemma JsonItems(texts: seq<string>)
    requires forall t :: t in texts ==> NoSeparator(t)
    ensures var items := Mapped(JsonText, texts);
            forall k :: 0 <= k < |items| ==> OneLine(items[k]) && items[k] != "" && !IsSpace(items[k][|items[k]| - 1])
  {
    forall k | 0 <= k < |texts| ensures OneLine(JsonText(texts[k])) {
      assert texts[k] in texts;
      EscapedIsOneLine(texts[k]);
    }
  }

  lemma WordIsOneLine(w: string, words: seq<string>)
    requires w in words && (words == KINDS || words == RISKS || words == GATE_EXPECTATIONS)
    ensures OneLine(w)
  {}

  lemma PastKey(key: string, value: string)
    requires OneLine(key) && OneLine(value) && IsKey(key) && key[0] != 'd'
    ensures IsPast(key + value)
  {
    KeyLine(key, value);
  }

  lemma NumbersArePast(f: Front)
    ensures IsPast("issue: " + IntText(f.issue)) && IsPast("upstream_issue: " + OptionalInt(f.upstreamIssue))
    ensures IsPast("slices: " + IntText(f.slices))
  {
    hide IsPast, IntText, OptionalInt;
    UpstreamIsPast(f.upstreamIssue);
    NumberIsPast("issue: ", f.issue);
    NumberIsPast("slices: ", f.slices);
  }

  lemma NumberIsPast(key: string, n: int)
    requires OneLine(key) && IsKey(key) && key[0] != 'd'
    ensures IsPast(key + IntText(n))
  {
    hide IsPast;
    PastKey(key, IntText(n));
  }

  lemma UpstreamIsPast(n: Option<int>)
    ensures IsPast("upstream_issue: " + OptionalInt(n))
  {
    hide IsPast;
    PastKey("upstream_issue: ", OptionalInt(n));
  }

  lemma WordsArePast(f: Front)
    requires PlainTexts(f)
    ensures IsPast("title: " + JsonText(f.title)) && IsPast("kind: " + f.kind) && IsPast("risk: " + f.risk)
  {
    EscapedIsOneLine(f.title);
    PastKey("title: ", JsonText(f.title));
    WordIsOneLine(f.kind, KINDS);
    PastKey("kind: ", f.kind);
    WordIsOneLine(f.risk, RISKS);
    PastKey("risk: ", f.risk);
  }

  lemma HeadIsPast(f: Front)
    requires PlainTexts(f)
    ensures AllPast(HeadLines(f))
  {
    hide IsPast, IntText, OptionalInt, JsonText;
    NumbersArePast(f);
    WordsArePast(f);
  }

  lemma BeforeIsPast(f: Front)
    requires PlainTexts(f)
    ensures AllPast(LinesBefore(f))
  {
    HeadIsPast(f);
    JsonItems(f.touchedPaths);
    ListIsInner("touched_paths", Mapped(JsonText, f.touchedPaths));
    AllPastConcat(HeadLines(f), ListLines("touched_paths", Mapped(JsonText, f.touchedPaths)));
  }

  lemma TailIsPast(f: Front)
    requires PlainTexts(f)
    ensures AllPast(TailLines(f)) && IsKey(TailLines(f)[0])
  {
    KeyLine("estimated_turns: ", IntText(f.estimatedTurns));
    WordIsOneLine(f.gateExpectation, GATE_EXPECTATIONS);
    KeyLine("gate_expectation: ", f.gateExpectation);
  }

  lemma AfterIsPast(f: Front)
    requires PlainTexts(f)
    ensures AllPast(LinesAfter(f)) && |LinesAfter(f)| > 0 && IsKey(LinesAfter(f)[0])
  {
    TailIsPast(f);
    JsonItems(f.baselineRed);
    ListIsInner("baseline_red", Mapped(JsonText, f.baselineRed));
    AllPastConcat(TailLines(f), ListLines("baseline_red", Mapped(JsonText, f.baselineRed)));
    assert LinesAfter(f)[0] == TailLines(f)[0];
  }

  ghost predicate AllInner(lines: seq<string>) {
    forall k :: 0 <= k < |lines| ==> IsInner(lines[k])
  }

  lemma InnerLinesAreInner(f: Front)
    requires PlainTexts(f)
    ensures AllInner(InnerLines(f))
  {
    hide IsPast, IsInner, DependsLines, LinesBefore, LinesAfter, IsKey;
    BeforeIsPast(f);
    AfterIsPast(f);
    PastAreInner(LinesBefore(f));
    PastAreInner(LinesAfter(f));
    DependsAreInner(f.dependsOn);
    AllInnerConcat(LinesBefore(f), DependsLines(f.dependsOn), LinesAfter(f));
  }

  lemma PastAreInner(lines: seq<string>)
    requires AllPast(lines)
    ensures AllInner(lines)
  {}

  lemma DependsAreInner(ns: seq<int>)
    ensures AllInner(DependsLines(ns))
  {
    ListIsInner("depends_on", Mapped(IntText, ns));
  }

  lemma AllInnerConcat(a: seq<string>, b: seq<string>, c: seq<string>)
    requires AllInner(a) && AllInner(b) && AllInner(c)
    ensures AllInner(a + b + c)
  {}

  // ---- round trips ----

  function AddBreak(line: string): string {
    line + "\n"
  }

  ghost predicate AllOneLine(lines: seq<string>) {
    forall k :: 0 <= k < |lines| ==> OneLine(lines[k])
  }

  // A splitter that takes a line off the front takes all printed lines off.
  lemma {:induction false} PrintSplits(split: string -> seq<string>, mark: string -> string, lines: seq<string>,
                                       rest: string)
    requires forall line, after :: OneLine(line) ==> split(line + "\n" + after) == [mark(line)] + split(after)
    requires AllOneLine(lines)
    ensures split(Print(lines) + rest) == Mapped(mark, lines) + split(rest)
  {
    if lines == [] {
      assert Print(lines) + rest == rest;
    } else {
      var line, more := lines[0], lines[1..];
      assert lines == [line] + more;
      PrintCons(line, more, rest);
      PrintSplits(split, mark, more, rest);
      MappedCons(mark, line, more);
    }
  }

  lemma PrintCons(line: string, more: seq<string>, rest: string)
    ensures Print([line] + more) + rest == line + "\n" + (Print(more) + rest)
  {
    assert ([line] + more)[1..] == more;
  }

  lemma KeyEnds(line: string)
    requires IsKey(line)
    ensures Ends(ShapeOf(line))
  {
    KeyShapeOf(line);
  }

  lemma ReadsBlock(a: seq<Shape>, b: seq<Shape>, c: seq<Shape>, ns: seq<int>)
    requires AllElsewhere(a) && DependsOf(b, ns) && c != [] && Ends(c[0])
    ensures ReadShapes(a + (b + c), false) == ns
  {
    ReadsPast(a, b + c);
    ReadsDepends(b, ns, c);
  }

  // ---- stripping it ----

  function RuleFrom(lines: seq<string>, k: nat): (r: Option<nat>)
    requires k <= |lines|
    ensures r.Some? ==> k <= r.value < |lines|
    decreases |lines| - k
  {
    if k == |lines| then None else if Strip(lines[k]) == "---" then Some(k) else RuleFrom(lines, k + 1)
  }

  function DropBlank(lines: seq<string>): seq<string> {
    if lines != [] && Strip(lines[0]) == "" then DropBlank(lines[1..]) else lines
  }

  // The text without its leading blank lines.
  function Unblanked(text: string): string {
    Concat(DropBlank(SplitKeep(text)))
  }

  // `strip_front_matter`
  function StripFrontMatter(text: string): string {
    var lines := SplitKeep(text);
    if lines == [] || Strip(lines[0]) != "---" then text
    else match RuleFrom(lines, 1)
      case Some(k) => Concat(DropBlank(lines[k + 1..]))
      case None => text
  }

  method StripFront(text: string) returns (body: string)
    ensures body == StripFrontMatter(text)
  {
    var lines := SplitKeep(text);
    if lines == [] || Strip(lines[0]) != "---" {
      return text;
    }
    var index := 1;
    while index < |lines|
      invariant 1 <= index <= |lines|
      invariant RuleFrom(lines, 1) == RuleFrom(lines, index)
    {
      if Strip(lines[index]) == "---" {
        var rest := lines[index + 1..];
        while rest != [] && Strip(rest[0]) == ""
          invariant DropBlank(rest) == DropBlank(lines[index + 1..])
          decreases |rest|
        {
          rest := rest[1..];
        }
        return Concat(rest);
      }
      index := index + 1;
    }
    return text;
  }

  lemma {:induction false} RuleFound(lines: seq<string>, k: nat, m: nat)
    requires k <= m < |lines| && Strip(lines[m]) == "---"
    requires forall j :: k <= j < m ==> Strip(lines[j]) != "---"
    ensures RuleFrom(lines, k) == Some(m)
    decreases m - k
  {
    if k < m { RuleFound(lines, k + 1, m); }
  }

  lemma NothingToStrip(text: string)
    requires var lines := SplitKeep(text); lines == [] || Strip(lines[0]) != "---"
    ensures StripFrontMatter(text) == text
  {}

  // What is dropped is blank, and what is left begins with a line that is not.
  lemma {:induction false} OnlyBlankDropped(lines: seq<string>) returns (blank: string)
    ensures Concat(lines) == blank + Concat(DropBlank(lines)) && All(blank, IsSpace)
    ensures DropBlank(lines) != [] ==> Strip(DropBlank(lines)[0]) != ""
  {
    hide Strip, All;
    if lines != [] && Strip(lines[0]) == "" {
      blank := OnlyBlankDropped(lines[1..]);
      BlankIsSpace(lines[0], blank);
      Regroup(lines[0], blank, Concat(DropBlank(lines[1..])));
      blank := lines[0] + blank;
    } else {
      blank := "";
      NoneGone("", IsSpace);
      assert ""[..0] == "" && "" + Concat(lines) == Concat(lines);
    }
  }

  lemma BlankIsSpace(line: string, more: string)
    requires Strip(line) == "" && All(more, IsSpace)
    ensures All(line + more, IsSpace)
  {
    hide IsSpace, Strip;
    var a, b := StripParts(line);
    assert line == a + b;
  }

  lemma Regroup(a: string, b: string, c: string)
    ensures a + (b + c) == a + b + c
  {}

  lemma UnblankedIsTheBody(body: string) returns (blank: string)
    ensures body == blank + Unblanked(body) && All(blank, IsSpace)
    ensures Unblanked(body) != "" ==> Strip(DropBlank(SplitKeep(body))[0]) != ""
  {
    ConcatSplitKeep(body);
    blank := OnlyBlankDropped(SplitKeep(body));
  }
}
