// The quiet check of harness/quiet.py, which compares samples of the usage some way apart.
module QuietWait {
  import opened Prelude
  import opened Ledgers

  // One ping: when it came back, what usage it told of (None for none), and whether it was refused.
  datatype Sample = Sample(at: int, usage: Option<map<Key, Json>>, refused: bool)

  datatype Verdict = QuietPair | Rose | Reset | RefusedPing | Unread

  // `_levels`: what a usage window reports as a number, if it does.
  function Level(s: Sample, name: Key): Option<real> {
    if s.usage.Some? && Get(s.usage.value, name).Object? then Fraction(Get(s.usage.value[name].fields, Utilization))
        else None
  }

  lemma LevelIs(s: Sample, name: Key, x: real)
    ensures Level(s, name) == Some(x) <==>
              exists usage, reading ::
                s.usage == Some(usage) && name in usage && usage[name] == Object(reading)
                && Fraction(Get(reading, Utilization)) == Some(x)
  {}

  predicate HasLevels(s: Sample) {
    Level(s, FiveHour).Some? || Level(s, SevenDay).Some?
  }

  function FiveHourReset(s: Sample): Json {
    if s.usage.Some? && Get(s.usage.value, FiveHour).Object? then Get(s.usage.value[FiveHour].fields, ResetsAt)
        else Null
  }

  // Whatever the sample says of when the session ends, if it tells of the session at all.
  lemma SessionEndIs(s: Sample)
    ensures forall usage, reading ::
              s.usage == Some(usage) && FiveHour in usage && usage[FiveHour] == Object(reading) ==>
                FiveHourReset(s) == Get(reading, ResetsAt)
    ensures (forall usage :: s.usage == Some(usage) ==> !Get(usage, FiveHour).Object?) ==> FiveHourReset(s) == Null
  {}

  predicate Common(a: Sample, b: Sample, name: Key) {
    Level(a, name).Some? && Level(b, name).Some?
  }

  predicate Higher(a: Sample, b: Sample, name: Key) {
    Common(a, b, name) && Level(b, name).value > Level(a, name).value
  }

  // `compare`
  function Compare(first: Sample, second: Sample): Verdict {
    if first.refused || second.refused then RefusedPing
    else if !Common(first, second, FiveHour) && !Common(first, second, SevenDay) then Unread
    else if Common(first, second, FiveHour) && FiveHourReset(first) != FiveHourReset(second) then Reset
    else if Higher(first, second, FiveHour) || Higher(first, second, SevenDay) then Rose
    else QuietPair
  }

  // There is always one round; past that, as many as fit in the wait, and no round more would.
  lemma RoundsFit(interval: int, maxWait: int)
    requires interval > 0
    ensures var n := Rounds(interval, maxWait);
            && maxWait < (n + 1) * interval && (n == 1 || n * interval <= maxWait)
            && forall k :: 1 < k <= n ==> k * interval <= maxWait
  {
    var n := Rounds(interval, maxWait);
    assert maxWait == interval * (maxWait / interval) + maxWait % interval;
    if maxWait / interval < 1 {
      if maxWait / interval < 0 { Smaller(maxWait / interval, -1, interval); }
    }
    forall k | 1 < k <= n ensures k * interval <= maxWait {
      Smaller(k, n, interval);
    }
  }

  lemma Smaller(a: int, b: int, m: int)
    requires a <= b && m > 0
    ensures a * m <= b * m
  {}

  // What the world gives the check: the n-th ping, the partner's spending steps in an interval,
  // and the clock after the n-th round, less the clock at the start.
  datatype World = World(ping: nat -> Sample, steps: (int, int) -> seq<string>, elapsed: nat -> int)

  datatype Outcome = Outcome(quiet: bool, samples: seq<Sample>, steps: seq<string>, refused: Option<Sample>)

  function Rounds(interval: int, maxWait: int): (n: nat)
    requires interval > 0
    ensures n >= 1
  {
    Max(1, maxWait / interval)
  }

  // Which sample the j-th is compared with: the first, until a pair could be compared; then the
  // later of the last such pair.
  function BaseAt(w: World, j: nat): (i: nat)
    requires j > 0
    ensures i < j
  {
    if j == 1 then 0
    else if Compare(w.ping(BaseAt(w, j - 1)), w.ping(j - 1)) != Unread then j - 1
    else BaseAt(w, j - 1)
  }

  // That is the last sample before it that could be compared with its own base, or the first;
  // everything between the two was unread.
  lemma {:induction false} BaseIsTheLastRead(w: World, j: nat)
    requires j > 0
    ensures var i := BaseAt(w, j);
            && (i > 0 ==> Compare(w.ping(BaseAt(w, i)), w.ping(i)) != Unread)
            && forall k :: i < k < j ==> Compare(w.ping(i), w.ping(k)) == Unread
  {
    hide Compare;
    if j > 1 { BaseIsTheLastRead(w, j - 1); }
  }

  // No window the two share is higher in the second, and the shared session is the same one.
  ghost predicate NoRise(a: Sample, b: Sample) {
    && (Common(a, b, FiveHour) || Common(a, b, SevenDay))
    && !Higher(a, b, FiveHour) && !Higher(a, b, SevenDay)
    && (Common(a, b, FiveHour) ==> FiveHourReset(a) == FiveHourReset(b))
    && !a.refused && !b.refused
  }

  // Some window the two share is higher in the second, in the same session.
  ghost predicate Climbed(a: Sample, b: Sample) {
    && (Higher(a, b, FiveHour) || Higher(a, b, SevenDay))
    && (Common(a, b, FiveHour) ==> FiveHourReset(a) == FiveHourReset(b))
    && !a.refused && !b.refused
  }

  lemma RiseIs(a: Sample, b: Sample, name: Key)
    ensures Higher(a, b, name) <==> exists x, y :: Level(a, name) == Some(x) && Level(b, name) == Some(y) && x < y
    ensures Common(a, b, name) <==> exists x, y :: Level(a, name) == Some(x) && Level(b, name) == Some(y)
  {
    hide Level;
    if Common(a, b, name) {
      assert Level(a, name) == Some(Level(a, name).value) && Level(b, name) == Some(Level(b, name).value);
    }
  }

  // A first sample is reason to say quiet when it reports nothing of either window and was not
  // refused.
  lemma FirstSampleAlone(w: World)
    ensures QuietAt(w, 0) <==>
              !w.ping(0).refused && Level(w.ping(0), FiveHour) == None && Level(w.ping(0), SevenDay) == None
  {}

  lemma VerdictsMean(a: Sample, b: Sample)
    ensures Compare(a, b) == QuietPair <==> NoRise(a, b)
    ensures Compare(a, b) == Rose <==> Climbed(a, b)
    ensures Compare(a, b) == RefusedPing <==> a.refused || b.refused
  {}

  // The partner was in its spending steps while the j-th sample climbed over its base.
  ghost predicate Excused(w: World, j: nat)
    requires j > 0
  {
    var a, b := w.ping(BaseAt(w, j)), w.ping(j);
    Climbed(a, b) && w.steps(a.at, b.at) != []
  }

  // The j-th sample is reason to say quiet: the first, when it reports nothing; a later one, when
  // it did not rise over its base or the partner was spending while it did.
  ghost predicate QuietAt(w: World, j: nat) {
    if j == 0 then !HasLevels(w.ping(0)) && !w.ping(0).refused
    else NoRise(w.ping(BaseAt(w, j)), w.ping(j)) || Excused(w, j)
  }

  // The check goes on past the j-th sample.
  ghost predicate GoesOn(w: World, maxWait: int, j: nat) {
    !w.ping(j).refused && !QuietAt(w, j) && (j > 0 ==> w.elapsed(j) < maxWait)
  }

  // `wait_until_quiet`: it stops at the first sample that is refused or reason to say quiet, or
  // out of rounds or time, and says quiet exactly when it has reason to.
  method WaitUntilQuiet(w: World, interval: int, maxWait: int) returns (o: Outcome)
    requires interval > 0
    ensures 1 <= |o.samples| <= 1 + Rounds(interval, maxWait)
    ensures forall k :: 0 <= k < |o.samples| ==> o.samples[k] == w.ping(k)
    ensures var last := |o.samples| - 1;
            && (forall k :: 0 <= k < last ==> GoesOn(w, maxWait, k))
            && (GoesOn(w, maxWait, last) ==> last == Rounds(interval, maxWait))
            && (GoesOn(w, maxWait, last) ==>
                  last >= 1 && maxWait < (last + 1) * interval && (last == 1 || last * interval <= maxWait))
            && (last > 1 ==> last * interval <= maxWait)
            && (o.quiet <==> QuietAt(w, last))
            && (o.refused == if w.ping(last).refused then Some(w.ping(last)) else None)
            && (o.steps == if last > 0 && Excused(w, last) then w.steps(w.ping(BaseAt(w, last)).at, w.ping(last).at)
                           else [])
  {
    hide Compare, Rounds, BaseAt, QuietAt, Excused, GoesOn, HasLevels;
    RoundsFit(interval, maxWait);
    FirstRound(w, maxWait);
    var first := w.ping(0);
    var samples := [first];
    if first.refused {
      return Outcome(false, samples, [], Some(first));
    }
    if !HasLevels(first) {
      return Outcome(true, samples, [], None);
    }
    var round := 0;
    FirstBase(w);
    while round < Rounds(interval, maxWait)
      invariant 0 <= round <= Rounds(interval, maxWait) && |samples| == round + 1
      invariant forall k :: 0 <= k < |samples| ==> samples[k] == w.ping(k)
      invariant forall k :: 0 <= k < |samples| ==> GoesOn(w, maxWait, k)
      invariant !QuietAt(w, round) && (round > 0 ==> !Excused(w, round)) && !w.ping(round).refused
      invariant first == w.ping(BaseAt(w, round + 1)) && !first.refused
      decreases Rounds(interval, maxWait) - round
    {
      round := round + 1;
      var second := w.ping(round);
      samples := samples + [second];
      OneRound(w, maxWait, round);
      var verdict := Compare(first, second);
      if verdict == QuietPair {
        return Outcome(true, samples, [], None);
      }
      if verdict == RefusedPing {
        return Outcome(false, samples, [], Some(second));
      }
      if verdict == Rose {
        var steps := w.steps(first.at, second.at);
        if steps != [] {
          return Outcome(true, samples, steps, None);
        }
      }
      NextBase(w, round);
      // The base moves on unless there was nothing to compare.
      if verdict != Unread {
        first := second;
      }
      if w.elapsed(round) >= maxWait {
        break;
      }
    }
    return Outcome(false, samples, [], None);
  }

  // What the verdict on a sample and its base says of the round.
  lemma OneRound(w: World, maxWait: int, j: nat)
    requires j > 0 && !w.ping(BaseAt(w, j)).refused
    ensures var a, b := w.ping(BaseAt(w, j)), w.ping(j);
            var verdict := Compare(a, b);
            && (b.refused <==> verdict == RefusedPing)
            && (Excused(w, j) <==> verdict == Rose && w.steps(a.at, b.at) != [])
            && (QuietAt(w, j) <==> verdict == QuietPair || Excused(w, j))
            && (GoesOn(w, maxWait, j) <==> !b.refused && !QuietAt(w, j) && w.elapsed(j) < maxWait)
  {
    VerdictsMean(w.ping(BaseAt(w, j)), w.ping(j));
  }

  lemma FirstRound(w: World, maxWait: int)
    ensures QuietAt(w, 0) <==> !HasLevels(w.ping(0)) && !w.ping(0).refused
    ensures GoesOn(w, maxWait, 0) <==> !w.ping(0).refused && !QuietAt(w, 0)
  {}

  lemma FirstBase(w: World)
    ensures BaseAt(w, 1) == 0
  {}

  lemma NextBase(w: World, j: nat)
    requires j > 0
    ensures BaseAt(w, j + 1) == if Compare(w.ping(BaseAt(w, j)), w.ping(j)) != Unread then j else BaseAt(w, j)
  {}
}
