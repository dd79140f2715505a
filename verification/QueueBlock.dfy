// The queue block on the pinned issue, from harness/links.py.
module QueueBlock {
  import opened Prelude
  import opened Strings

  const QUEUE_START := "<!-- queue:start -->"
  const QUEUE_END := "<!-- queue:end -->"
  const START_INERT := "&lt;!-- queue:start --&gt;"
  const END_INERT := "&lt;!-- queue:end --&gt;"

  // ---- replacing ----

  ghost predicate Absent(text: string, m: string) {
    forall i :: !At(text, m, i)
  }

  // `str.replace`, for a marker that is not empty.
  function ReplaceAll(text: string, m: string, r: string): string
    requires m != ""
    decreases |text|
  {
    match Find(text, m, 0)
    case None => text
    case Some(i) => text[..i] + r + ReplaceAll(text[i + |m|..], m, r)
  }

  // A marker begins with the one '<' it holds, and holds neither '&' nor a line break.
  ghost predicate IsMarker(m: string) {
    |m| > 0 && m[0] == '<' && forall k :: 0 < k < |m| ==> m[k] != '<' && m[k] != '&' && m[k] != '\n'
  }

  ghost predicate IsInert(r: string) {
    |r| > 0 && r[0] == '&' && forall k :: 0 <= k < |r| ==> r[k] != '<'
  }

  lemma MarkersAndInert()
    ensures IsMarker(QUEUE_START) && IsMarker(QUEUE_END) && IsInert(START_INERT) && IsInert(END_INERT)
  {}

  lemma Mismatch(text: string, m: string, i: nat, k: nat)
    requires i + |m| <= |text| && k < |m| && text[i + k] != m[k]
    ensures !At(text, m, i)
  {
    assert text[i..i + |m|][k] == text[i + k];
  }

  // A marker inside the middle text is in the whole, and the other way round.
  lemma AtMiddle(a: string, t: string, b: string, m: string, i: int)
    requires |a| <= i && i + |m| <= |a| + |t|
    ensures At(a + t + b, m, i) <==> At(t, m, i - |a|)
  {
    assert (a + t + b)[i..i + |m|] == t[i - |a|..i - |a| + |m|];
  }

  // No marker is made by putting inert text between two texts without it.
  lemma AbsentAcross(a: string, r: string, b: string, m: string)
    requires IsMarker(m) && IsInert(r) && Absent(a, m) && Absent(b, m)
    ensures Absent(a + r + b, m)
  {
    var text := a + r + b;
    forall i ensures !At(text, m, i) {
      if i < 0 || i + |m| > |text| {
      } else if i + |m| <= |a| {
        AtMiddle("", a, r + b, m, i);
        assert "" + a + (r + b) == text;
      } else if i < |a| {
        Mismatch(text, m, i, |a| - i);
      } else if i < |a| + |r| {
        Mismatch(text, m, i, 0);
      } else {
        AtMiddle(a + r, b, "", m, i);
        assert (a + r) + b + "" == text;
      }
    }
  }

  lemma AbsentBefore(text: string, m: string, i: nat)
    requires i <= |text| && forall j :: 0 <= j < i ==> !At(text, m, j)
    requires |m| > 0
    ensures Absent(text[..i], m)
  {
    forall j ensures !At(text[..i], m, j) {
      if 0 <= j && j + |m| <= i {
        AtMiddle("", text[..i], text[i..], m, j);
        assert "" + text[..i] + text[i..] == text;
      }
    }
  }

  lemma AbsentAfter(text: string, m: string, i: nat)
    requires i <= |text| && Absent(text, m)
    ensures Absent(text[i..], m) && Absent(text[..i], m)
  {
    forall j ensures !At(text[i..], m, j) && !At(text[..i], m, j) {
      if 0 <= j && j + |m| <= |text[i..]| {
        AtMiddle(text[..i], text[i..], "", m, i + j);
        assert text[..i] + text[i..] + "" == text;
      }
      if 0 <= j && j + |m| <= i {
        AtMiddle("", text[..i], text[i..], m, j);
        assert "" + text[..i] + text[i..] == text;
      }
    }
  }

  // Replacing a marker by inert text leaves none of it, and brings back no other.
  lemma {:induction false} ReplaceAllRemoves(text: string, m: string, r: string)
    requires IsMarker(m) && IsInert(r)
    ensures Absent(ReplaceAll(text, m, r), m)
    decreases |text|
  {
    match Find(text, m, 0)
    case None =>
    case Some(i) =>
      ReplaceAllRemoves(text[i + |m|..], m, r);
      AbsentBefore(text, m, i);
      AbsentAcross(text[..i], r, ReplaceAll(text[i + |m|..], m, r), m);
  }

  lemma {:induction false} ReplaceAllKeepsOut(text: string, m: string, r: string, other: string)
    requires IsMarker(m) && IsMarker(other) && IsInert(r) && Absent(text, other)
    ensures Absent(ReplaceAll(text, m, r), other)
    decreases |text|
  {
    match Find(text, m, 0)
    case None =>
    case Some(i) =>
      AbsentAfter(text, other, i + |m|);
      AbsentAfter(text, other, i);
      ReplaceAllKeepsOut(text[i + |m|..], m, r, other);
      AbsentAcross(text[..i], r, ReplaceAll(text[i + |m|..], m, r), other);
  }

  // ---- the block ----

  // `_defused`
  function Defused(body: string): (d: string)
    ensures Absent(d, QUEUE_START) && Absent(d, QUEUE_END)
  {
    MarkersAndInert();
    var once := ReplaceAll(body, QUEUE_START, START_INERT);
    ReplaceAllRemoves(body, QUEUE_START, START_INERT);
    ReplaceAllRemoves(once, QUEUE_END, END_INERT);
    ReplaceAllKeepsOut(once, QUEUE_END, END_INERT, QUEUE_START);
    ReplaceAll(once, QUEUE_END, END_INERT)
  }

  method Defuse(text: string) returns (body: string)
    ensures body == Defused(text)
  {
    body := text;
    var markers := [(QUEUE_START, START_INERT), (QUEUE_END, END_INERT)];
    for k := 0 to |markers|
      invariant body == if k == 0 then text
                        else if k == 1 then ReplaceAll(text, QUEUE_START, START_INERT)
                        else Defused(text)
    {
      body := ReplaceAll(body, markers[k].0, markers[k].1);
    }
  }

  function Join(lines: seq<string>, separator: string): string {
    if lines == [] then "" else if |lines| == 1 then lines[0] else lines[0] + separator + Join(lines[1..], separator)
  }

  // `queue_block`
  function Block(lines: seq<string>): string {
    QUEUE_START + "\n" + Defused(Strip(Join(lines, "\n"))) + "\n" + QUEUE_END
  }

  lemma {:induction false} JoinSplits(lines: seq<string>)
    requires lines != [] && forall l :: l in lines ==> '\n' !in l
    ensures SplitAt(Join(lines, "\n"), '\n') == lines
  {
    var first := lines[0];
    assert first in lines && lines == [first] + lines[1..];
    if |lines| == 1 {
      SplitAtFirst(first, "", '\n');
    } else {
      JoinSplits(lines[1..]);
      SplitAtFirst(first, Join(lines[1..], "\n"), '\n');
      assert first + "\n" + Join(lines[1..], "\n") == first + ['\n'] + Join(lines[1..], "\n");
    }
  }

  lemma NothingToDefuse(body: string)
    requires Absent(body, QUEUE_START) && Absent(body, QUEUE_END)
    ensures Defused(body) == body
  {}

  // Rows that hold no marker and no line break are published as they are, one a line, between the
  // markers.
  lemma RowsArePublished(lines: seq<string>)
    requires lines != [] && forall l :: l in lines ==> '\n' !in l
    requires var text := Join(lines, "\n"); Strip(text) == text && Absent(text, QUEUE_START) && Absent(text, QUEUE_END)
    ensures SplitAt(Block(lines), '\n') == [QUEUE_START] + lines + [QUEUE_END]
  {
    hide Defused, Strip, Join, SplitAt;
    var text := Join(lines, "\n");
    NothingToDefuse(text);
    JoinSplits(lines);
    MarkersAndInert();
    NoBreak(QUEUE_START);
    NoBreak(QUEUE_END);
    SplitAtFirst(QUEUE_START, text + "\n" + QUEUE_END, '\n');
    assert Block(lines) == QUEUE_START + ['\n'] + (text + "\n" + QUEUE_END);
    LastPiece(text, QUEUE_END);
    assert text + "\n" + QUEUE_END == text + ['\n'] + QUEUE_END;
    assert [QUEUE_START] + (lines + [QUEUE_END]) == [QUEUE_START] + lines + [QUEUE_END];
  }

  lemma NoBreak(m: string)
    requires IsMarker(m)
    ensures '\n' !in m
  {}

  lemma {:induction false} LastPiece(text: string, end: string)
    requires '\n' !in end
    ensures SplitAt(text + ['\n'] + end, '\n') == SplitAt(text, '\n') + [end]
  {
    if text == "" {
      SplitAtFirst("", end, '\n');
      SplitAtFirst(end, "", '\n');
    } else {
      LastPiece(text[1..], end);
      assert (text + ['\n'] + end)[1..] == text[1..] + ['\n'] + end;
    }
  }

  // `replace_queue_block`: None when either marker is missing.
  function Replaced(text: string, block: string): Option<string> {
    match Find(text, QUEUE_START, 0)
    case None => None
    case Some(start) =>
      match Find(text, QUEUE_END, start + |QUEUE_START|)
      case None => None
      case Some(end) => Some(text[..start] + block + text[end + |QUEUE_END|..])
  }

  // ---- what the splice promises ----

  // The span the splice would replace: from the first start marker to the end of the first end
  // marker after it.
  ghost predicate Span(text: string, from: nat, to: nat) {
    && from + |QUEUE_START| + |QUEUE_END| <= to <= |text|
    && At(text, QUEUE_START, from) && (forall j :: 0 <= j < from ==> !At(text, QUEUE_START, j))
    && At(text, QUEUE_END, to - |QUEUE_END|)
    && forall j :: from + |QUEUE_START| <= j < to - |QUEUE_END| ==> !At(text, QUEUE_END, j)
  }

  lemma SpanIsFound(text: string, from: nat, to: nat)
    requires Span(text, from, to)
    ensures Find(text, QUEUE_START, 0) == Some(from)
              && Find(text, QUEUE_END, from + |QUEUE_START|) == Some(to - |QUEUE_END|)
  {}

  // A splice happens exactly when there is such a span, and rewrites nothing outside it.
  lemma SpliceIsConservative(text: string, block: string)
    ensures Replaced(text, block).Some? <==> exists from: nat, to: nat :: Span(text, from, to)
    ensures forall from: nat, to: nat :: Span(text, from, to) ==>
              Replaced(text, block) == Some(text[..from] + block + text[to..])
  {
    if Replaced(text, block).Some? {
      var from, to := FoundSpan(text, block);
    }
    forall from: nat, to: nat | Span(text, from, to)
        ensures Replaced(text, block) == Some(text[..from] + block + text[to..]) {
      ReplacedSpan(text, from, to, block);
    }
  }

  // ---- the published block ----

  // Between the markers of the block no marker begins but the one that closes it.
  lemma TailHoldsOneEnd(inner: string, m: string, j: int)
    requires Absent(inner, m) && (m == QUEUE_START || m == QUEUE_END)
    ensures At("\n" + inner + "\n" + QUEUE_END, m, j) <==> m == QUEUE_END && j == |inner| + 2
  {
    MarkersAndInert();
    var tail := "\n" + inner + "\n" + QUEUE_END;
    var last := |inner| + 1;
    assert tail[last] == '\n' && tail[0] == '\n';
    if j < 0 || j + |m| > |tail| {
    } else if j == 0 || j == last {
      Mismatch(tail, m, j, 0);
    } else if j + |m| <= last {
      AtMiddle("\n", inner, "\n" + QUEUE_END, m, j);
      assert "\n" + inner + ("\n" + QUEUE_END) == tail;
    } else if j < last {
      Mismatch(tail, m, j, last - j);
    } else {
      assert tail[j..] == QUEUE_END;
    }
  }

  // A marker does not begin inside another.
  lemma NoOverlap(text: string, m: string, k: string, i: nat, j: nat)
    requires IsMarker(m) && IsMarker(k) && At(text, k, j) && i < j < i + |m|
    ensures !At(text, m, i)
  {
    assert text[j..j + |k|][0] == text[j] == k[0];
    if i + |m| <= |text| {
      Mismatch(text, m, i, j - i);
    }
  }

  lemma NotInside(m: string, tail: string, k: string, i: nat)
    requires IsMarker(m) && IsMarker(k) && 0 < i < |m|
    ensures !At(m + tail, k, i)
  {
    if i + |k| <= |m + tail| {
      Mismatch(m + tail, k, i, 0);
    }
  }

  // Whatever the rows say, the published block holds one pair of markers: its own.
  lemma BlockHoldsOnePair(lines: seq<string>, i: int)
    ensures At(Block(lines), QUEUE_START, i) <==> i == 0
    ensures At(Block(lines), QUEUE_END, i) <==> i == |Block(lines)| - |QUEUE_END|
  {
    MarkersAndInert();
    var inner := Defused(Strip(Join(lines, "\n")));
    var tail := "\n" + inner + "\n" + QUEUE_END;
    var block := Block(lines);
    assert block == QUEUE_START + tail;
    if i >= |QUEUE_START| {
      TailHoldsOneEnd(inner, QUEUE_START, i - |QUEUE_START|);
      TailHoldsOneEnd(inner, QUEUE_END, i - |QUEUE_START|);
      AtTail(QUEUE_START, tail, QUEUE_START, i);
      AtTail(QUEUE_START, tail, QUEUE_END, i);
    } else if i > 0 {
      NotInside(QUEUE_START, tail, QUEUE_START, i);
      NotInside(QUEUE_START, tail, QUEUE_END, i);
    } else if i == 0 {
      assert block[0..|QUEUE_START|] == QUEUE_START;
      assert block[11] == 's' && QUEUE_END[11] == 'e';
      Mismatch(block, QUEUE_END, 0, 11);
    }
  }

  lemma AtTail(a: string, b: string, m: string, i: int)
    requires |a| <= i
    ensures At(a + b, m, i) <==> At(b, m, i - |a|)
  {
    if i + |m| <= |a + b| {
      AtMiddle(a, b, "", m, i);
      assert a + b + "" == a + b;
    }
  }

  lemma NoStartBefore(before: string, block: string, after: string, j: nat)
    requires Absent(before, QUEUE_START) && j < |before|
    requires At(before + block + after, QUEUE_START, |before|)
    ensures !At(before + block + after, QUEUE_START, j)
  {
    var text := before + block + after;
    MarkersAndInert();
    if j + |QUEUE_START| <= |before| {
      AtMiddle("", before, block + after, QUEUE_START, j);
      assert "" + before + (block + after) == text;
    } else {
      NoOverlap(text, QUEUE_START, QUEUE_START, j, |before|);
    }
  }

  lemma NoEndInside(before: string, lines: seq<string>, after: string, j: nat)
    requires |before| + |QUEUE_START| <= j < |before| + |Block(lines)| - |QUEUE_END|
    ensures !At(before + Block(lines) + after, QUEUE_END, j)
  {
    hide Block;
    BlockHoldsOnePair(lines, j - |before|);
    AtMiddle(before, Block(lines), after, QUEUE_END, j);
  }

  // Published between any two texts, the block is the span the next splice replaces.
  lemma BlockIsTheSpan(before: string, lines: seq<string>, after: string)
    requires Absent(before, QUEUE_START)
    ensures Span(before + Block(lines) + after, |before|, |before| + |Block(lines)|)
  {
    hide Block;
    MarkersAndInert();
    var block := Block(lines);
    var text := before + block + after;
    BlockHoldsOnePair(lines, 0);
    BlockHoldsOnePair(lines, |block| - |QUEUE_END|);
    AtMiddle(before, block, after, QUEUE_START, |before|);
    AtMiddle(before, block, after, QUEUE_END, |before| + |block| - |QUEUE_END|);
    forall j: nat | j < |before| ensures !At(text, QUEUE_START, j) {
      NoStartBefore(before, block, after, j);
    }
    forall j | |before| + |QUEUE_START| <= j < |before| + |block| - |QUEUE_END| ensures !At(text, QUEUE_END, j) {
      NoEndInside(before, lines, after, j);
    }
  }

  lemma ReplacedSpan(text: string, from: nat, to: nat, block: string)
    requires Span(text, from, to)
    ensures Replaced(text, block) == Some(text[..from] + block + text[to..])
  {
    hide Find, At;
    SpanIsFound(text, from, to);
  }

  lemma FoundSpan(text: string, block: string) returns (from: nat, to: nat)
    requires Replaced(text, block).Some?
    ensures Span(text, from, to)
  {
    hide Find;
    from := Find(text, QUEUE_START, 0).value;
    to := Find(text, QUEUE_END, from + |QUEUE_START|).value + |QUEUE_END|;
  }

  // Splicing a second block after a first is splicing the second alone, whatever rows the first
  // held; and the first stands in the text as one span, with the text around it unchanged.
  lemma SpliceIsStable(text: string, lines: seq<string>, next: string) returns (from: nat, to: nat)
    requires Replaced(text, Block(lines)).Some?
    ensures Span(text, from, to)
    ensures Replaced(text, Block(lines)) == Some(text[..from] + Block(lines) + text[to..])
    ensures Span(Replaced(text, Block(lines)).value, from, from + |Block(lines)|)
    ensures Replaced(Replaced(text, Block(lines)).value, next) == Replaced(text, next)
  {
    hide Replaced, Block, Absent;
    from, to := FoundSpan(text, Block(lines));
    hide At;
    ReplacedSpan(text, from, to, Block(lines));
    ReplacedSpan(text, from, to, next);
    AbsentBefore(text, QUEUE_START, from);
    BlockIsTheSpan(text[..from], lines, text[to..]);
    var once := text[..from] + Block(lines) + text[to..];
    ReplacedSpan(once, from, from + |Block(lines)|, next);
    assert once[..from] == text[..from] && once[from + |Block(lines)|..] == text[to..];
  }
}
