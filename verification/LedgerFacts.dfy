// What the ledger answers, said of what it stores: the readings of the usage, the records of owed
// items, the weekly roll.
module LedgerFacts {
  import opened Prelude
  import opened Strings
  import opened RunWindow
  import opened Ledgers

  // ---- values ----

  lemma FalsyValues(value: Json)
    ensures !Truthy(value) <==>
              || value == Null || value == Bool(false) || value == Int(0) || value == Float(0.0)
              || value == Str(Plain("")) || value == List([]) || value == Object(map[]) || value == Named(map[])
  {}

  lemma NumbersRead(value: Json, x: real)
    ensures Fraction(value) == Some(x) <==> value == Float(x) || exists n: int :: value == Int(n) && x == n as real
  {
    if Fraction(value) == Some(x) && value.Int? {
      assert value == Int(value.n) && x == value.n as real;
    }
  }

  // ---- the usage in one shape ----

  // A usage window that is an object is kept, with its utilization as a number or nothing and its
  // reset, under the one name or the other; a window that is not goes.
  lemma NormalisedWindow(usage: map<Key, Json>, now: Text, name: Key)
    requires name == FiveHour || name == SevenDay
    ensures var u := NormaliseUsage(usage, now);
            && (name in u <==> name in usage && usage[name].Object?)
            && forall fields :: name in usage && usage[name] == Object(fields) ==>
                 && u[name].Object? && u[name].fields.Keys == {Utilization, ResetsAt}
                 && (u[name].fields[Utilization].Float? || u[name].fields[Utilization] == Null)
                 && Fraction(u[name].fields[Utilization]) == Fraction(Get(fields, Utilization))
                 && u[name].fields[ResetsAt]
                 == if ResetsAt in fields then fields[ResetsAt] else Get(fields, ResetsAtCli)
  {}

  // When it was observed is kept as text, or is now; and it is left out when there is no saying.
  lemma NormalisedStamp(usage: map<Key, Json>, now: Text)
    ensures var u, said := NormaliseUsage(usage, now), Get(usage, ObservedAtKey);
            var text := if said.Str? then said.text else Plain("not text");
            && (Truthy(said) ==> ObservedAtKey in u && u[ObservedAtKey] == Str(text))
            && (!Truthy(said) && now != Plain("") ==> ObservedAtKey in u && u[ObservedAtKey] == Str(now))
            && (!Truthy(said) && now == Plain("") ==> ObservedAtKey !in u)
  {}

  // Whatever else it says stays as it is.
  lemma NormalisedRest(usage: map<Key, Json>, now: Text, key: Key)
    requires key != FiveHour && key != SevenDay && key != ObservedAtKey
    ensures var u := NormaliseUsage(usage, now);
            (key in u <==> key in usage) && (key in usage ==> u[key] == usage[key])
  {}

  // ---- the session's reading ----

  // The usage as stored has this reading of the window.
  ghost predicate Observes(w: Window, name: Key, reading: map<Key, Json>) {
    exists fields :: w.usage == Object(fields) && name in fields && fields[name] == Object(reading)
  }

  // It was observed before the ledger's own window began.
  ghost predicate FromBefore(w: Window) {
    exists fields, at, start ::
      w.usage == Object(fields) && Get(fields, ObservedAtKey) == Str(Iso(at))
      && w.periodStart == Iso(start) && at < start
  }

  // The session is still the one that was read: its reset is not known, or still to come.
  ghost predicate SameSession(reading: map<Key, Json>, now: int) {
    forall end :: Get(reading, ResetsAt) == Str(Iso(end)) ==> now < end
  }

  lemma ObservesIs(w: Window, name: Key, reading: map<Key, Json>)
    ensures w.UsageWindow(name) == Some(reading) <==> Observes(w, name, reading)
  {}

  lemma FromBeforeIs(w: Window)
    ensures w.UsagePredates() <==> FromBefore(w)
  {
    if w.UsagePredates() {
      var fields := w.usage.fields;
      assert w.usage == Object(fields);
    }
  }

  // What the usage says of the session at an instant: the utilization read last, unless it is from
  // before the window or of a session that has ended.
  lemma SessionIs(w: Window, now: int, s: real)
    ensures w.SessionUtilization(Some(now)) == Some(s) <==>
              !FromBefore(w) && exists reading ::
                && Observes(w, FiveHour, reading) && SameSession(reading, now)
                && Fraction(Get(reading, Utilization)) == Some(s)
  {
    FromBeforeIs(w);
    forall reading ensures w.UsageWindow(FiveHour) == Some(reading) <==> Observes(w, FiveHour, reading) {
      ObservesIs(w, FiveHour, reading);
    }
  }

  // As it was observed, whichever session it is of.
  lemma SessionAsObserved(w: Window, s: real)
    ensures w.SessionUtilization(None) == Some(s) <==>
              !FromBefore(w) && exists reading ::
                Observes(w, FiveHour, reading) && Fraction(Get(reading, Utilization)) == Some(s)
  {
    FromBeforeIs(w);
    forall reading ensures w.UsageWindow(FiveHour) == Some(reading) <==> Observes(w, FiveHour, reading) {
      ObservesIs(w, FiveHour, reading);
    }
  }

  // The reset a usage window was observed with: its text, or words for a value that is no text.
  lemma ResetIs(w: Window, name: Key, t: Text)
    ensures w.ObservedReset(name) == Some(t) <==>
              exists reading ::
                Observes(w, name, reading) && Truthy(Get(reading, ResetsAt))
                && (if Get(reading, ResetsAt).Str? then Get(reading, ResetsAt) == Str(t) else t == Plain("not text"))
  {
    forall reading ensures w.UsageWindow(name) == Some(reading) <==> Observes(w, name, reading) {
      ObservesIs(w, name, reading);
    }
  }

  // ---- the weekly roll ----

  // The week turned over: the reset known before is past, and another is now observed.
  ghost predicate TurnedOver(before: Window, after: Window, now: int, reset: int) {
    && before.ObservedReset(SevenDay) == Some(Iso(reset)) && reset <= now
    && after.ObservedReset(SevenDay).Some? && after.ObservedReset(SevenDay) != Some(Iso(reset))
  }

  // An observation is stored normalised, and begins the window again at the old reset, with no
  // calls, exactly when the week turned over; what is no observation changes nothing.
  lemma RollsExactly(w: Window, usage: Json, now: int)
    ensures var after := Observed(w, usage, now);
            if !usage.Object? || usage.fields == map[] then after == w
            else
              && after.usage == Object(NormaliseUsage(usage.fields, Iso(now)))
              && (forall reset :: TurnedOver(w, after, now, reset) ==>
                    after.periodStart == Iso(reset) && after.calls == 0)
              && ((forall reset :: !TurnedOver(w, after, now, reset)) ==>
                    after.periodStart == w.periodStart && after.calls == w.calls)
  {
    hide NormaliseUsage, Window.ObservedReset;
    if usage.Object? && usage.fields != map[] {
      var stored, after := w.(usage := Object(NormaliseUsage(usage.fields, Iso(now)))), Observed(w, usage, now);
      SameReset(stored, after);
      var previous := w.ObservedReset(SevenDay);
      if previous.Some? && previous.value.Iso? {
        assert TurnedOver(w, after, now, previous.value.instant) <==>
                 previous.value.instant <= now && stored.ObservedReset(SevenDay).Some?
                 && stored.ObservedReset(SevenDay) != previous;
      }
    }
  }

  lemma SameReset(a: Window, b: Window)
    requires a.usage == b.usage
    ensures a.ObservedReset(SevenDay) == b.ObservedReset(SevenDay)
  {}

  // ---- owed items ----

  // An item is owed at an instant from the record's beginning up to, and not at, its end.
  lemma OwedIs(w: Window, now: int, item: int)
    ensures item in w.OwedItems(now) <==>
              exists record :: w.owed == Some(record) && record.since <= now < record.until && item in record.items
  {}

  // What `owe` leaves, by which of the two ends is later.
  lemma OweMeans(current: Option<Owed>, items: set<int>, since: int, until: int)
    ensures var after := OweRecord(current, items, since, until);
            && (items == {} ==> after == current)
            && (items != {} && current.Some? && current.value.until > until ==> after == current)
            && (items != {} && current.Some? && current.value.until == until ==>
                  && after.Some? && after.value.since == current.value.since && after.value.until == until
                  && Elements(after.value.items) == Elements(current.value.items) + items)
            && (items != {} && (current == None || current.value.until < until) ==>
                  && after.Some? && after.value.since == since && after.value.until == until
                  && Elements(after.value.items) == items)
  {}

  // ---- questions asked in a day ----

  lemma AskedInADay(asks: Option<Asks>, today: string)
    ensures asks == None ==> AskedOn(asks, today) == 0
    ensures forall a :: asks == Some(a) ==> AskedOn(asks, today) == (if a.date == today then a.count else 0)
  {}
}
