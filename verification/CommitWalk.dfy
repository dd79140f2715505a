// The harness's own commits at the top of a branch, read from `git log` by harness/clone.py.
module CommitWalk {
  import opened Prelude
  import opened Strings
  import opened ProtectedPaths

  const RECORD := '\U{1E}'
  const FIELD := '\U{1F}'
  const SCAN_COMMITS := 100
  const HARNESS_EMAILS := {"harness@brightboost-harness", "harness@localhost"}

  // ---- the walk ----

  datatype Commit = Commit(sha: string, email: string, paths: seq<string>)

  datatype Walk = Walk(commits: seq<Commit>, stoppedAt: string, capped: bool)

  predicate ByHarness(c: Commit) {
    Lower(c.email) in HARNESS_EMAILS
  }

  lemma OurEmails(c: Commit)
    ensures ByHarness(c) <==> Lower(c.email) == "harness@brightboost-harness" || Lower(c.email) == "harness@localhost"
  {}

  // How many commits from the tip the harness authored, without a break.
  function HarnessPrefix(cs: seq<Commit>): (n: nat)
    ensures n <= |cs|
  {
    Leading(Mapped(ByHarness, cs))
  }

  // A run of `n` commits from the tip, cut at the cap; the commit after it, when it was not cut;
  // and whether it was.
  function WalkOver(cs: seq<Commit>, n: nat): Walk
    requires n <= |cs|
  {
    if n > SCAN_COMMITS then Walk(cs[..SCAN_COMMITS], "", true)
    else Walk(cs[..n], if n < |cs| then cs[n].sha else "", false)
  }

  function WalkOf(cs: seq<Commit>): Walk {
    WalkOver(cs, HarnessPrefix(cs))
  }

  function PathsIn(lines: seq<string>): seq<string> {
    if lines == [] then [] else (if Strip(lines[0]) != "" then [Strip(lines[0])] else []) + PathsIn(lines[1..])
  }

  // The text before and after the first `c`: `str.partition`.
  function Before(s: string, c: char): string {
    if s == "" || s[0] == c then "" else [s[0]] + Before(s[1..], c)
  }

  function Beyond(s: string, c: char): string {
    if s == "" then "" else if s[0] == c then s[1..] else Beyond(s[1..], c)
  }

  lemma {:induction false} Partition(a: string, c: char, b: string)
    requires c !in a
    ensures Before(a + [c] + b, c) == a && Beyond(a + [c] + b, c) == b
  {
    if a == "" {
      assert (a + [c] + b)[1..] == b;
    } else {
      assert (a + [c] + b)[1..] == a[1..] + [c] + b;
      Partition(a[1..], c, b);
    }
  }

  // One record of the log: the head's two fields, then the paths.
  function ReadRecord(record: string): Commit {
    var lines := SplitLines(record);
    var head := if lines == [] then "" else lines[0];
    Commit(Strip(Before(head, FIELD)), Strip(Beyond(head, FIELD)), if lines == [] then [] else PathsIn(lines[1..]))
  }

  function ReadLog(out: string): seq<Commit> {
    Mapped(ReadRecord, SplitAt(out, RECORD)[1..])
  }

  // The loop of `parse_harness_walk`, told which commits the harness authored.
  method WalkCommits(cs: seq<Commit>, ours: seq<bool>) returns (walk: Walk)
    requires |ours| == |cs|
    ensures walk == WalkOver(cs, Leading(ours))
  {
    var commits: seq<Commit> := [];
    var k := 0;
    while k < |cs|
      invariant 0 <= k <= |cs| && k <= SCAN_COMMITS
      invariant commits == cs[..k] && forall j :: 0 <= j < k ==> ours[j]
    {
      if !ours[k] {
        assert Leading(ours) == k;
        return Walk(commits, cs[k].sha, false);
      }
      if |commits| >= SCAN_COMMITS {
        assert Leading(ours) > k;
        return Walk(commits, "", true);
      }
      commits := commits + [cs[k]];
      k := k + 1;
    }
    assert Leading(ours) == |cs|;
    return Walk(commits, "", false);
  }

  // `parse_harness_walk`
  method ParseHarnessWalk(out: string) returns (walk: Walk)
    ensures walk == WalkOf(ReadLog(out))
    ensures |walk.commits| <= 100 && (walk.capped <==> HarnessPrefix(ReadLog(out)) > 100)
  {
    var cs := ReadLog(out);
    walk := WalkCommits(cs, Mapped(ByHarness, cs));
  }

  // `CommitWalk.protected`
  function ProtectedOf(commits: seq<Commit>): seq<(string, string)> {
    if commits == [] then []
    else Mapped(p => (commits[0].sha, p), ProtectedIn(commits[0].paths)) + ProtectedOf(commits[1..])
  }

  // ---- what git prints ----

  // One commit as the walk's `git log` prints it: a head line, and after a blank one its paths.
  function PrintPaths(paths: seq<string>): string {
    if paths == [] then "" else paths[0] + "\n" + PrintPaths(paths[1..])
  }

  function PrintRest(paths: seq<string>): string {
    if paths == [] then "" else "\n" + PrintPaths(paths)
  }

  function PrintBody(c: Commit): string {
    c.sha + [FIELD] + c.email + "\n" + PrintRest(c.paths)
  }

  function PrintRecords(records: seq<string>): string {
    if records == [] then "" else [RECORD] + records[0] + PrintRecords(records[1..])
  }

  function PrintLog(cs: seq<Commit>): string {
    PrintRecords(Mapped(PrintBody, cs))
  }

  ghost predicate Printable(s: string) {
    OneLine(s) && RECORD !in s && FIELD !in s && Strip(s) == s
  }

  // Git quotes the control characters of a path, the record separator with them; it prints a
  // character beyond ASCII as it is, so a path may still stand on several lines. It prints an
  // author's email raw, so of that nothing is asked.
  ghost predicate PrintableCommit(c: Commit) {
    Printable(c.sha) && forall p :: p in c.paths ==> RECORD !in p
  }

  // The lines one printed path is read as: itself, unless it holds a line separator.
  function LinesOf(path: string): seq<string> {
    PathsIn(SplitLines(path + "\n"))
  }

  function AllLinesOf(paths: seq<string>): seq<string> {
    if paths == [] then [] else LinesOf(paths[0]) + AllLinesOf(paths[1..])
  }

  // The commit as the walk holds it.
  function AsRead(c: Commit): Commit {
    c.(paths := AllLinesOf(c.paths))
  }

  lemma AsReadKeepsHead(c: Commit)
    ensures AsRead(c).sha == c.sha && AsRead(c).email == c.email
  {}

  lemma {:induction false} PathsInConcat(a: seq<string>, b: seq<string>)
    ensures PathsIn(a + b) == PathsIn(a) + PathsIn(b)
  {
    hide Strip;
    if a == [] {
      assert a + b == b;
    } else {
      assert (a + b)[1..] == a[1..] + b;
      PathsInConcat(a[1..], b);
    }
  }

  lemma {:induction false} PathsReadBack(paths: seq<string>)
    ensures PathsIn(SplitLines(PrintPaths(paths))) == AllLinesOf(paths)
    ensures (forall p :: p in paths ==> RECORD !in p) ==> RECORD !in PrintPaths(paths)
  {
    hide Strip, SplitLines;
    if paths == [] {
      NoLines();
    } else {
      var first, rest := paths[0] + "\n", PrintPaths(paths[1..]);
      LinesConcat(first, rest);
      PathsInConcat(SplitLines(first), SplitLines(rest));
      PathsReadBack(paths[1..]);
      assert paths == [paths[0]] + paths[1..] && paths[0] in paths;
    }
  }

  lemma HeadReadsBack(head: string, rest: string)
    requires OneLine(head)
    ensures ReadRecord(head + "\n" + rest)
         == Commit(Strip(Before(head, FIELD)), Strip(Beyond(head, FIELD)), PathsIn(SplitLines(rest)))
  {
    SplitLinesCons(head, rest);
  }

  lemma BlankLineIgnored(lines: seq<string>)
    ensures PathsIn([""] + lines) == PathsIn(lines)
  {
    assert ([""] + lines)[1..] == lines && Strip("") == "";
  }

  lemma BodyReadsBack(paths: seq<string>)
    requires forall p :: p in paths ==> RECORD !in p
    ensures PathsIn(SplitLines(PrintRest(paths))) == AllLinesOf(paths) && RECORD !in PrintRest(paths)
  {
    PathsReadBack(paths);
    hide PathsIn, SplitLines, PrintPaths, AllLinesOf;
    if paths == [] {
      assert PrintRest(paths) == PrintPaths(paths) by { NothingPrinted(); }
    } else {
      var printed := PrintPaths(paths);
      SplitLinesCons("", printed);
      assert "" + "\n" + printed == "\n" + printed;
      BlankLineIgnored(SplitLines(printed));
    }
  }

  lemma NothingPrinted()
    ensures PrintPaths([]) == ""
  {}

  // ---- what is read of an author ----

  // The email the reader finds on a head line: it ends at the first line break, the record
  // separator being one, and is stripped.
  function EmailRead(email: string): string {
    Strip(email[..LineEnd(email, 0)])
  }

  predicate TakenForOurs(c: Commit) {
    Lower(EmailRead(c.email)) in HARNESS_EMAILS
  }

  // The commit below the harness's run, if the walk goes that far, is not taken for the harness's.
  predicate EndIsSeen(cs: seq<Commit>) {
    var n := HarnessPrefix(cs);
    n > 100 || n == |cs| || !TakenForOurs(cs[n])
  }

  lemma OurEmailIsPrintable(c: Commit)
    requires ByHarness(c)
    ensures Printable(c.email) && c.email != ""
  {
    var e := c.email;
    OursAreVisible();
    forall k | 0 <= k < |e| ensures '-' <= e[k] <= 'z' {
      assert LowerChar(e[k]) == Lower(e)[k];
    }
    VisibleIsPrintable(e);
  }

  lemma OursAreVisible()
    ensures forall e, k :: e in HARNESS_EMAILS && 0 <= k < |e| ==> '-' <= e[k] <= 'z'
    ensures "" !in HARNESS_EMAILS
  {}

  lemma VisibleIsPrintable(s: string)
    requires forall k :: 0 <= k < |s| ==> '-' <= s[k] <= 'z'
    ensures Printable(s)
  {
    StripOfStripped(s);
  }

  lemma RecordReadsBack(c: Commit)
    requires PrintableCommit(c) && Printable(c.email)
    ensures ReadRecord(PrintBody(c)) == AsRead(c) && RECORD !in PrintBody(c)
  {
    var head := c.sha + [FIELD] + c.email;
    var rest := PrintRest(c.paths);
    assert PrintBody(c) == head + "\n" + rest;
    assert OneLine(head);
    HeadReadsBack(head, rest);
    Partition(c.sha, FIELD, c.email);
    BodyReadsBack(c.paths);
  }

  lemma {:induction false} BeforePart(a: string, c: char, b: string)
    requires b == "" || b[0] == c
    ensures Before(a + b, c) == Before(a, c)
  {
    if a == "" {
      assert a + b == b;
    } else {
      assert (a + b)[1..] == a[1..] + b;
      BeforePart(a[1..], c, b);
    }
  }

  lemma {:induction false} SplitHead(s: string, c: char)
    ensures SplitAt(s, c)[0] == Before(s, c)
  {
    if s != "" && s[0] != c {
      SplitHead(s[1..], c);
    }
  }

  lemma {:induction false} BeforeIsPrefix(s: string, c: char)
    ensures Before(s, c) <= s && c !in Before(s, c)
    ensures Before(s, c) == s || s[|Before(s, c)|] == c
  {
    if s != "" && s[0] != c {
      BeforeIsPrefix(s[1..], c);
    }
  }

  // The first line of a record is its head, cut where the email breaks.
  lemma HeadLine(record: string, head: string, email: string, rest: string)
    requires record == Before(head + email + "\n" + rest, RECORD) && OneLine(head) && head != ""
    ensures SplitLines(record) != [] && SplitLines(record)[0] == head + email[..LineEnd(email, 0)]
  {
    hide Before;
    var s := head + email + "\n" + rest;
    var e := |head| + LineEnd(email, 0);
    BeforeIsPrefix(s, RECORD);
    assert IsBreak(s[e]) && s[..e] == head + email[..LineEnd(email, 0)];
    assert forall k :: 0 <= k < e ==> !IsBreak(s[k]) by {
      forall k | 0 <= k < e ensures !IsBreak(s[k]) {
        assert s[k] == if k < |head| then head[k] else email[k - |head|];
      }
    }
    assert IsBreak(RECORD) && |record| >= e && record[..e] == s[..e];
    assert LineEnd(record, 0) == e by {
      assert forall k :: 0 <= k < e ==> record[k] == s[k];
    }
  }

  lemma HeadIsRead(c: Commit)
    requires Printable(c.sha)
    ensures var read := ReadRecord(Before(PrintBody(c), RECORD));
            read.sha == c.sha && read.email == EmailRead(c.email)
  {
    var head, rest := c.sha + [FIELD], PrintRest(c.paths);
    var email := c.email[..LineEnd(c.email, 0)];
    var record := Before(PrintBody(c), RECORD);
    hide SplitLines, Strip, Before, Beyond, PathsIn;
    assert PrintBody(c) == head + c.email + "\n" + rest;
    HeadLine(record, head, c.email, rest);
    Partition(c.sha, FIELD, email);
    assert Strip(c.sha) == c.sha;
  }

  // ---- the records of a printed log ----

  lemma JoinFirst(first: string, rest: string)
    requires RECORD !in first && (rest == "" || rest[0] == RECORD)
    ensures SplitAt(first + rest, RECORD) == [first] + SplitAt(rest, RECORD)[1..]
  {
    SplitAtFirst(first, "", RECORD);
    if rest == "" {
      assert first + rest == first;
    } else {
      var after := rest[1..];
      assert rest == "" + [RECORD] + after && first + rest == first + [RECORD] + after;
      SplitAtFirst("", after, RECORD);
      SplitAtFirst(first, after, RECORD);
    }
  }

  // Records without the separator are split off a log one by one, whatever follows them.
  lemma {:induction false} FrontSplits(records: seq<string>, rest: string)
    requires (forall r :: r in records ==> RECORD !in r) && (rest == "" || rest[0] == RECORD)
    ensures SplitAt(PrintRecords(records) + rest, RECORD)[1..] == records + SplitAt(rest, RECORD)[1..]
  {
    hide SplitAt;
    if records == [] {
      assert PrintRecords(records) + rest == rest;
    } else {
      var first, later := records[0], PrintRecords(records[1..]) + rest;
      assert first in records && records == [first] + records[1..];
      FrontSplits(records[1..], rest);
      LaterBegins(records[1..], rest);
      OneRecordOff(first, later);
      FirstPrinted(records, rest);
      Associate([first], records[1..], SplitAt(rest, RECORD)[1..]);
    }
  }

  lemma FirstPrinted(records: seq<string>, rest: string)
    requires records != []
    ensures PrintRecords(records) + rest == [RECORD] + (records[0] + (PrintRecords(records[1..]) + rest))
  {}

  lemma OneRecordOff(first: string, later: string)
    requires RECORD !in first && (later == "" || later[0] == RECORD)
    ensures SplitAt([RECORD] + (first + later), RECORD)[1..] == [first] + SplitAt(later, RECORD)[1..]
  {
    hide SplitAt;
    JoinFirst(first, later);
    SplitAtFirst("", first + later, RECORD);
    assert "" + [RECORD] + (first + later) == [RECORD] + (first + later);
  }

  lemma LaterBegins(records: seq<string>, rest: string)
    requires rest == "" || rest[0] == RECORD
    ensures var later := PrintRecords(records) + rest; later == "" || later[0] == RECORD
  {}

  lemma {:induction false} PrintsInTwo(a: seq<string>, b: seq<string>)
    ensures PrintRecords(a + b) == PrintRecords(a) + PrintRecords(b)
  {
    if a == [] {
      assert a + b == b;
    } else {
      assert (a + b)[1..] == a[1..] + b;
      PrintsInTwo(a[1..], b);
    }
  }

  // After records without the separator the next one is read up to its first separator.
  lemma NextRecord(front: seq<string>, next: string, more: seq<string>)
    requires forall r :: r in front ==> RECORD !in r
    ensures var records := SplitAt(PrintRecords(front + ([next] + more)), RECORD)[1..];
            |records| > |front| && records[..|front|] == front && records[|front|] == Before(next, RECORD)
  {
    var rest := PrintRecords([next] + more);
    var body := next + PrintRecords(more);
    PrintsInTwo(front, [next] + more);
    FrontSplits(front, rest);
    assert ([next] + more)[1..] == more && rest == "" + [RECORD] + body;
    SplitAtFirst("", body, RECORD);
    SplitHead(body, RECORD);
    BeforePart(next, RECORD, PrintRecords(more));
  }

  // The records of the harness's own commits, which hold no separator.
  lemma OurRecords(cs: seq<Commit>, n: nat)
    requires n <= |cs| && forall k :: 0 <= k < n ==> PrintableCommit(cs[k]) && ByHarness(cs[k])
    ensures forall r :: r in Mapped(PrintBody, cs)[..n] ==> RECORD !in r
    ensures forall k :: 0 <= k < n ==> ReadRecord(Mapped(PrintBody, cs)[k]) == AsRead(cs[k])
  {
    hide PrintableCommit, ByHarness, Printable, PrintBody, ReadRecord, AsRead;
    var records := Mapped(PrintBody, cs);
    forall k | 0 <= k < n ensures RECORD !in records[k] && ReadRecord(records[k]) == AsRead(cs[k]) {
      OurEmailIsPrintable(cs[k]);
      RecordReadsBack(cs[k]);
    }
  }

  // The harness's run is read as it was printed, and of the commit below it the sha and the email
  // a reader finds.
  lemma RunIsRead(cs: seq<Commit>)
    requires forall c :: c in cs ==> PrintableCommit(c)
    ensures var n := HarnessPrefix(cs);
            var read := ReadLog(PrintLog(cs));
            && n <= |read| && (forall k :: 0 <= k < n ==> read[k] == AsRead(cs[k]))
            && (n == |cs| ==> |read| == n)
            && (n < |cs| ==> |read| > n && read[n].sha == cs[n].sha && read[n].email == EmailRead(cs[n].email))
  {
    hide PrintableCommit, ByHarness, PrintBody, ReadRecord, AsRead, SplitAt, PrintRecords, EmailRead;
    var n, records := HarnessPrefix(cs), Mapped(PrintBody, cs);
    forall k | 0 <= k < n ensures ByHarness(cs[k]) { assert Mapped(ByHarness, cs)[k]; }
    OurRecords(cs, n);
    var parts := SplitAt(PrintLog(cs), RECORD)[1..];
    if n == |cs| {
      FrontSplits(records, "");
      NothingAfter(records);
    } else {
      NextRecord(records[..n], records[n], records[n + 1..]);
      assert records == records[..n] + ([records[n]] + records[n + 1..]);
      HeadIsRead(cs[n]) by { PrintableSha(cs[n]); }
    }
    assert parts[..n] == records[..n];
    forall k | 0 <= k < n ensures parts[k] == records[k] { assert parts[..n][k] == records[..n][k]; }
  }

  lemma PrintableSha(c: Commit)
    requires PrintableCommit(c)
    ensures Printable(c.sha)
  {}

  lemma NothingAfter(records: seq<string>)
    ensures PrintRecords(records) + "" == PrintRecords(records) && SplitAt("", RECORD)[1..] == []
  {}

  // So the prefix read is the run itself exactly when its end is not taken for ours.
  lemma PrefixRead(cs: seq<Commit>)
    requires forall c :: c in cs ==> PrintableCommit(c)
    ensures var n := HarnessPrefix(cs);
            var m := HarnessPrefix(ReadLog(PrintLog(cs)));
            m >= n && (m == n <==> n == |cs| || !TakenForOurs(cs[n]))
  {
    hide PrintableCommit, ReadLog, PrintLog, AsRead;
    RunIsRead(cs);
    var n, read := HarnessPrefix(cs), ReadLog(PrintLog(cs));
    var ours, seen := Mapped(ByHarness, cs), Mapped(ByHarness, read);
    forall k | 0 <= k < n ensures seen[k] {
      assert ours[k];
      AsReadKeepsHead(cs[k]);
    }
  }

  // The walk of what git printed is the walk of the commits themselves, each path as its lines,
  // exactly when the end of the run is seen.
  lemma WalkReadsWhatWasPrinted(cs: seq<Commit>)
    requires forall c :: c in cs ==> PrintableCommit(c)
    ensures WalkOf(ReadLog(PrintLog(cs))) == WalkOf(Mapped(AsRead, cs)) <==> EndIsSeen(cs)
  {
    hide PrintableCommit, ReadLog, PrintLog, AsRead, HarnessPrefix, TakenForOurs;
    RunIsRead(cs);
    PrefixRead(cs);
    SamePrefix(cs);
    var n, read, told := HarnessPrefix(cs), ReadLog(PrintLog(cs)), Mapped(AsRead, cs);
    assert read[..n] == told[..n];
    if n > SCAN_COMMITS {
      assert read[..SCAN_COMMITS] == read[..n][..SCAN_COMMITS];
      assert told[..SCAN_COMMITS] == told[..n][..SCAN_COMMITS];
    } else if n < |cs| {
      assert AsRead(cs[n]).sha == cs[n].sha by { AsReadKeepsHead(cs[n]); }
    }
  }

  lemma OneLineAlone(line: string)
    requires OneLine(line) && line != ""
    ensures SplitLines(line) == [line]
  {}

  lemma {:induction false} BeforeAll(s: string, c: char)
    requires c !in s
    ensures Before(s, c) == s && Beyond(s, c) == ""
  {
    if s != "" {
      BeforeAll(s[1..], c);
      assert s == [s[0]] + s[1..];
    }
  }

  lemma HeadAlone(sha: string, email: string)
    requires Printable(sha) && Printable(email)
    ensures ReadRecord(sha + [FIELD] + email) == Commit(sha, email, []) && RECORD !in sha + [FIELD] + email
  {
    hide SplitLines, Strip, Before, Beyond;
    OneLineAlone(sha + [FIELD] + email);
    Partition(sha, FIELD, email);
  }

  lemma ShaAlone(sha: string)
    requires Printable(sha)
    ensures ReadRecord(sha + "\n") == Commit(sha, "", []) && RECORD !in sha + "\n"
  {
    hide SplitLines, Before, Beyond;
    HeadReadsBack(sha, "");
    BeforeAll(sha, FIELD);
    NoLines();
    assert sha + "\n" + "" == sha + "\n" && Strip("") == "";
  }

  lemma NoSeparatorIsOurs(c: Commit)
    requires RECORD in c.email
    ensures !ByHarness(c)
  {
    if ByHarness(c) {
      OurEmailIsPrintable(c);
      assert false;
    }
  }

  lemma EmailReadTo(email: string, forged: string)
    requires OneLine(email) && Strip(email) == email
    ensures EmailRead(email + [RECORD] + forged) == email
  {
    var e := email + [RECORD] + forged;
    assert IsBreak(e[|email|]) && e[..|email|] == email;
    assert forall k :: 0 <= k < |email| ==> e[k] == email[k];
  }

  // A stranger's email that holds the separator behind one of the harness's is printed as two
  // records: one of the harness's, and one whose sha is the rest of the email.
  lemma ForgedIsRead(sha: string, email: string, forged: string)
    requires Printable(sha) && Printable(email) && Printable(forged)
    ensures ReadLog(PrintLog([Commit(sha, email + [RECORD] + forged, [])]))
         == [Commit(sha, email, []), Commit(forged, "", [])]
  {
    hide ReadRecord, SplitAt;
    var c := Commit(sha, email + [RECORD] + forged, []);
    var first, second := sha + [FIELD] + email, forged + "\n";
    HeadAlone(sha, email);
    ShaAlone(forged);
    assert PrintBody(c) == first + ([RECORD] + second);
    assert [PrintBody(c)][1..] == [] && [first, second][1..] == [second] && [second][1..] == [];
    assert PrintLog([c]) == PrintRecords([first, second]) by {
      assert PrintRecords([second]) == [RECORD] + second;
      assert PrintRecords([PrintBody(c)]) == [RECORD] + PrintBody(c);
      assert Mapped(PrintBody, [c]) == [PrintBody(c)];
    }
    FrontSplits([first, second], "");
    NothingAfter([first, second]);
    assert Mapped(ReadRecord, [first, second]) == [ReadRecord(first), ReadRecord(second)];
  }

  const FORGED := Commit("a", "harness@localhost" + [RECORD] + "y", [])

  // It does go wrong: the walk takes a stranger's commit for the harness's, and says the run ends
  // at what is no commit of the branch.
  lemma SeparatorForgesACommit()
    ensures HarnessPrefix([FORGED]) == 0 && PrintableCommit(FORGED) && !EndIsSeen([FORGED])
    ensures WalkOf(ReadLog(PrintLog([FORGED]))) == Walk([Commit("a", "harness@localhost", [])], "y", false)
  {
    hide Strip, ReadLog, PrintLog;
    var ours, end := Commit("a", "harness@localhost", []), Commit("y", "", []);
    assert Lower(ours.email) == ours.email && Lower("") == "";
    OurEmailIsPrintable(ours);
    VisibleIsPrintable("a");
    VisibleIsPrintable("y");
    assert FORGED.email[17] == RECORD;
    NoSeparatorIsOurs(FORGED);
    EmailReadTo(ours.email, "y");
    ForgedIsRead("a", ours.email, "y");
    assert Mapped(ByHarness, [ours, end]) == [true, false];
    assert [true, false][1..] == [false];
    assert [ours, end][..1] == [ours];
    assert Mapped(ByHarness, [FORGED]) == [false];
  }

  // ---- an empty answer on an uncapped walk vouches for the run ----

  // The commit touches a protected path.
  ghost predicate Touches(c: Commit) {
    exists p :: p in c.paths && IsProtected(p)
  }

  lemma {:induction false} ProtectedOfEmpty(commits: seq<Commit>)
    ensures ProtectedOf(commits) == [] <==> forall k :: 0 <= k < |commits| ==> !Touches(commits[k])
  {
    if commits != [] {
      ProtectedOfEmpty(commits[1..]);
      var first := ProtectedIn(commits[0].paths);
      FilteredEmpty(IsProtected, commits[0].paths);
      assert |Mapped(p => (commits[0].sha, p), first)| == |first|;
      assert forall k :: 0 < k < |commits| ==> commits[k] == commits[1..][k - 1];
    }
  }

  // One of the lines its paths print as is protected.
  ghost predicate Shows(c: Commit) {
    exists p, line :: p in c.paths && line in SplitLines(p + "\n") && IsProtected(line)
  }

  lemma {:induction false} PathsInMembers(lines: seq<string>, path: string)
    ensures path in PathsIn(lines) <==> path != "" && exists line :: line in lines && Strip(line) == path
  {
    hide Strip;
    if lines != [] {
      PathsInMembers(lines[1..], path);
      assert lines == [lines[0]] + lines[1..];
    }
  }

  lemma {:induction false} AllLinesMembers(paths: seq<string>, line: string)
    ensures line in AllLinesOf(paths) <==> exists p :: p in paths && line in LinesOf(p)
  {
    hide LinesOf;
    if paths != [] {
      AllLinesMembers(paths[1..], line);
      assert paths == [paths[0]] + paths[1..];
    }
  }

  lemma LineShows(p: string, line: string)
    requires line in SplitLines(p + "\n") && IsProtected(line)
    ensures Strip(line) in LinesOf(p) && IsProtected(Strip(line))
  {
    hide SplitLines;
    PathsInMembers(SplitLines(p + "\n"), Strip(line));
    StrippedIsProtectedAlike(line);
  }

  lemma ShownLine(p: string, path: string) returns (line: string)
    requires path in LinesOf(p) && IsProtected(path)
    ensures line in SplitLines(p + "\n") && IsProtected(line)
  {
    hide SplitLines, IsProtected, Strip;
    PathsInMembers(SplitLines(p + "\n"), path);
    line :| line in SplitLines(p + "\n") && Strip(line) == path;
    StrippedIsProtectedAlike(line);
  }

  lemma TouchesAsRead(c: Commit)
    ensures Touches(AsRead(c)) <==> Shows(c)
  {
    hide IsProtected, SplitLines, LinesOf, AllLinesOf;
    if Touches(AsRead(c)) {
      var path :| path in AllLinesOf(c.paths) && IsProtected(path);
      AllLinesMembers(c.paths, path);
      var p :| p in c.paths && path in LinesOf(p);
      var line := ShownLine(p, path);
    }
    if Shows(c) {
      var p, line :| p in c.paths && line in SplitLines(p + "\n") && IsProtected(line);
      LineShows(p, line);
      AllLinesMembers(c.paths, Strip(line));
    }
  }

  // A protected path always shows, and on a commit whose paths are one line each nothing else does.
  lemma ShowsWhatItTouches(c: Commit)
    ensures Touches(c) ==> Shows(c)
    ensures (forall p :: p in c.paths ==> OneLine(p)) ==> (Shows(c) <==> Touches(c))
  {
    hide IsProtected, SplitLines, OneLine;
    if Touches(c) {
      var p :| p in c.paths && IsProtected(p);
      StripBreak(p);
      StrippedIsProtectedAlike(p);
      StrippedIsProtectedAlike(p + "\n");
      ALineIsProtected(p + "\n");
    }
    if Shows(c) && forall p :: p in c.paths ==> OneLine(p) {
      var p, line :| p in c.paths && line in SplitLines(p + "\n") && IsProtected(line);
      SplitLinesCons(p, "");
      NoLines();
      assert p + "\n" + "" == p + "\n" && [p] + [] == [p];
      assert line == p;
    }
  }

  // A walk of what git printed that is not capped holds the harness's whole run at the tip,
  // whatever the emails are; it holds no more, and names where the run ends, exactly when that end
  // is not taken for the harness's. It reports nothing only when no commit of the run touches a
  // protected path; and where the end is seen, exactly when no line of the run's paths is
  // protected, which with one line a path is the same.
  lemma EmptyAnswerVouches(cs: seq<Commit>)
    requires forall c :: c in cs ==> PrintableCommit(c)
    ensures var n := HarnessPrefix(cs);
            var walk := WalkOf(ReadLog(PrintLog(cs)));
            !walk.capped ==>
              && n <= |walk.commits| && walk.commits[..n] == Mapped(AsRead, cs)[..n]
              && (|walk.commits| == n && walk.stoppedAt == (if n < |cs| then cs[n].sha else "") <==> EndIsSeen(cs))
              && (ProtectedOf(walk.commits) == [] ==> forall k :: 0 <= k < n ==> !Touches(cs[k]))
              && (EndIsSeen(cs) ==>
                    (ProtectedOf(walk.commits) == [] <==> forall k :: 0 <= k < n ==> !Shows(cs[k])))
              && (EndIsSeen(cs) && (forall k, p :: 0 <= k < n && p in cs[k].paths ==> OneLine(p)) ==>
                    (ProtectedOf(walk.commits) == [] <==> forall k :: 0 <= k < n ==> !Touches(cs[k])))
  {
    hide Touches, Shows, ProtectedOf, ReadLog, PrintLog, HarnessPrefix, TakenForOurs, PrintableCommit, AsRead;
    RunIsRead(cs);
    PrefixRead(cs);
    var n, read := HarnessPrefix(cs), ReadLog(PrintLog(cs));
    var walk := WalkOf(read);
    ProtectedOfEmpty(walk.commits);
    forall k | 0 <= k < n
      ensures Touches(AsRead(cs[k])) <==> Shows(cs[k])
      ensures Touches(cs[k]) ==> Shows(cs[k])
      ensures (forall p :: p in cs[k].paths ==> OneLine(p)) ==> (Shows(cs[k]) <==> Touches(cs[k]))
    {
      TouchesAsRead(cs[k]);
      ShowsWhatItTouches(cs[k]);
    }
  }

  const BEHIND := "x\U{2028}.github/y"
  const LEADING := ".github/y"

  lemma BehindIsFree()
    ensures !IsProtected(BEHIND)
  {
    assert Slashed(BEHIND) == BEHIND && LeftForm(BEHIND) == BEHIND;
    ProtectedIff(BEHIND);
    NoStart(BEHIND, 0);
    forall r ensures !At(BEHIND, PROTECTED, r) {
      if 0 <= r && r + 9 <= |BEHIND| { NotAt(BEHIND, r); }
    }
  }

  lemma LeadingIsProtected()
    ensures IsProtected(LEADING)
  {
    assert Slashed(LEADING) == LEADING && LeftForm(LEADING) == LEADING;
    assert LEADING[..8] == PROTECTED[1..];
    ProtectedIff(LEADING);
  }

  lemma BehindLines()
    ensures SplitLines(BEHIND + "\n") == ["x", LEADING]
  {
    assert OneLine("x") && OneLine(LEADING) && BEHIND + "\n" == "x" + ['\U{2028}'] + (LEADING + "\n");
    hide SplitLines;
    BreakCons("x", '\U{2028}', LEADING + "\n");
    SplitLinesCons(LEADING, "");
    NoLines();
    assert LEADING + "\n" + "" == LEADING + "\n";
  }

  // The other way it may report too much, and never too little: a path that holds a line
  // separator before what looks like a protected path is none itself.
  lemma SeparatorIsReported()
    ensures !IsProtected(BEHIND) && Shows(Commit("sha", "email", [BEHIND]))
  {
    hide IsProtected, SplitLines;
    BehindIsFree();
    LeadingIsProtected();
    BehindLines();
    assert LEADING in SplitLines(BEHIND + "\n");
  }

  lemma SamePrefix(cs: seq<Commit>)
    ensures HarnessPrefix(Mapped(AsRead, cs)) == HarnessPrefix(cs)
  {
    assert Mapped(ByHarness, Mapped(AsRead, cs)) == Mapped(ByHarness, cs);
  }
}
