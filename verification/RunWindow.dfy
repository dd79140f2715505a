// The run window of harness/config.py. Time is whole seconds, with 0 on a Monday 00:00 UTC.
module RunWindow {
  import opened Prelude
  import opened Strings

  const DAY := 86400
  const DAY_MINUTES := 1440
  const HOUR := 3600
  const WINDOW_DAYS: seq<string> := ["mon", "tue", "wed", "thu", "fri", "sat", "sun"]

  // One end of the window: a minute of the UTC day, or of the UTC week.
  datatype Endpoint = Endpoint(minute: nat, daily: bool)

  // Both ends, when they agree on the period; a configuration without one is always open.
  datatype Span = Span(start: nat, end: nat, daily: bool)

  function PeriodMinutes(daily: bool): (m: nat) {
    if daily then DAY_MINUTES else 7 * DAY_MINUTES
  }

  function Clock(text: string): (r: Option<nat>)
    ensures r.Some? ==> r.value < DAY_MINUTES
  {
    if |text| == 5 && IsDigit(text[0]) && IsDigit(text[1]) && text[2] == ':' && IsDigit(text[3]) && IsDigit(text[4])
       && DigitValue(text[0]) * 10 + DigitValue(text[1]) < 24 && DigitValue(text[3]) < 6
    then Some((DigitValue(text[0]) * 10 + DigitValue(text[1])) * 60 + DigitValue(text[3]) * 10 + DigitValue(text[4]))
    else None
  }

  function DayIndex(day: string): (r: Option<nat>)
    ensures r.Some? ==> r.value < 7 && WINDOW_DAYS[r.value] == day
    ensures r.None? ==> day !in WINDOW_DAYS
  {
    if day == "mon" then Some(0) else if day == "tue" then Some(1) else if day == "wed" then Some(2)
    else if day == "thu" then Some(3) else if day == "fri" then Some(4) else if day == "sat" then Some(5)
    else if day == "sun" then Some(6) else None
  }

  // `_window_minute`: a weekday or "daily" and a clock, in any case and with any space around it.
  function WindowMinute(point: string): (r: Option<Endpoint>)
    ensures r.Some? ==> r.value.minute < PeriodMinutes(r.value.daily)
  {
    var text := Lower(Strip(point));
    if |text| == 11 && text[..6] == "daily " then
      match Clock(text[6..])
      case Some(m) => Some(Endpoint(m, true))
      case None => None
    else if |text| == 9 && text[3] == ' ' then
      match (DayIndex(text[..3]), Clock(text[4..]))
      case (Some(d), Some(m)) => Some(Endpoint(d * DAY_MINUTES + m, false))
      case _ => None
    else None
  }

  function SpanOf(start: string, end: string): (r: Option<Span>)
    ensures r.Some? ==> r.value.start < PeriodMinutes(r.value.daily) && r.value.end < PeriodMinutes(r.value.daily)
  {
    match (WindowMinute(start), WindowMinute(end))
    case (Some(s), Some(e)) => if s.daily == e.daily then Some(Span(s.minute, e.minute, s.daily)) else None
    case _ => None
  }

  ghost predicate Proper(w: Span) {
    w.start < PeriodMinutes(w.daily) && w.end < PeriodMinutes(w.daily)
  }

  function Period(w: Span): (p: int)
    ensures p == DAY || p == 7 * DAY
  {
    PeriodMinutes(w.daily) * 60
  }

  function Weekday(now: int): (d: int)
    ensures 0 <= d < 7
  {
    (now / DAY) % 7
  }

  function MinuteOfDay(now: int): (m: int)
    ensures 0 <= m < DAY_MINUTES
  {
    (now % DAY) / 60
  }

  // `in_run_window`
  predicate InRunWindow(window: Option<Span>, now: int) {
    match window
    case None => true
    case Some(w) => InSpan(w, now)
  }

  predicate InSpan(w: Span, now: int) {
    var current := if w.daily then MinuteOfDay(now) else Weekday(now) * DAY_MINUTES + MinuteOfDay(now);
    if w.start <= w.end then w.start <= current < w.end
    else w.start <= current || current < w.end
  }

  // `is_daily_window`
  predicate IsDailyWindow(window: Option<Span>) {
    window.Some? && window.value.daily
  }

  // `window_openings`: the opening that `now` follows or is, and the one it precedes.
  function Openings(w: Span, now: int): (int, int) {
    var midnight := now - now % DAY;
    var opening :=
      if w.daily then midnight + w.start * 60
      else midnight - Weekday(now) * DAY + w.start * 60;
    var latest := if now < opening then opening - Period(w) else opening;
    (latest, latest + Period(w))
  }

  // `window_length`
  function WindowLength(w: Span): (n: int)
    ensures 0 <= n < Period(w)
  {
    ((w.end - w.start) % PeriodMinutes(w.daily)) * 60
  }

  // ---- the three functions agree ----

  // An instant at which the window opens.
  ghost predicate IsOpening(w: Span, t: int) {
    (t - w.start * 60) % Period(w) == 0
  }

  // `now` measured from the start of its own day or week.
  function Offset(w: Span, now: int): (o: int)
    ensures 0 <= o < Period(w)
  {
    now % Period(w)
  }

  lemma OffsetInMinutes(w: Span, now: int)
    ensures (if w.daily then MinuteOfDay(now) else Weekday(now) * DAY_MINUTES + MinuteOfDay(now)) == Offset(w, now) / 60
    ensures (if w.daily then now - now % DAY else now - now % DAY - Weekday(now) * DAY) == now - Offset(w, now)
  {
    if !w.daily {
      var d, r := now / DAY, now % DAY;
      assert now == DAY * d + r;
      var k, i := d / 7, d % 7;
      assert d == 7 * k + i;
      assert now == (7 * DAY) * k + (i * DAY + r);
      ModOf(now, 7 * DAY, k, i * DAY + r);
    }
  }

  // `r` is the remainder of any number it differs from by a multiple of `m`.
  lemma ModOf(n: int, m: int, k: int, r: int)
    requires 0 <= r < m && n == m * k + r
    ensures n % m == r
  {
    assert n == m * (n / m) + n % m;
    assert m * (n / m - k) == r - n % m;
    if n / m > k {
      MulGe(m, n / m - k);
    } else if n / m < k {
      MulGe(m, k - n / m);
    }
  }

  lemma MulGe(m: int, k: int)
    requires m > 0 && k >= 1
    ensures m * k >= m
  {}

  // Two openings less than a period apart are one.
  lemma OpeningUnique(w: Span, a: int, b: int)
    requires IsOpening(w, a) && IsOpening(w, b) && a <= b < a + Period(w)
    ensures a == b
  {
    var p := Period(w);
    var x, y := a - w.start * 60, b - w.start * 60;
    ModOf(y, p, x / p, y - x);
  }

  // The opening is at or before `now`, the next strictly after, both are openings of the
  // window, and the window is open exactly for its length after each opening.
  lemma WindowFunctionsAgree(w: Span, now: int)
    requires Proper(w)
    ensures Openings(w, now).0 <= now < Openings(w, now).1 == Openings(w, now).0 + Period(w)
    ensures IsOpening(w, Openings(w, now).0) && IsOpening(w, Openings(w, now).1)
    ensures InSpan(w, now) <==> now < Openings(w, now).0 + WindowLength(w)
  {
    LatestIs(w, now);
    OpensThere(w, now);
    LengthIs(w);
    OffsetInMinutes(w, now);
    hide Openings, WindowLength, IsOpening, Offset;
  }

  // The latest opening, by how far `now` is into its day or week.
  lemma LatestIs(w: Span, now: int)
    ensures var o, s := Offset(w, now), w.start * 60;
            && Openings(w, now).0 == (if o < s then now - o + s - Period(w) else now - o + s)
            && Openings(w, now).1 == Openings(w, now).0 + Period(w)
  {
    OffsetInMinutes(w, now);
  }

  lemma OpensThere(w: Span, now: int)
    ensures IsOpening(w, Openings(w, now).0) && IsOpening(w, Openings(w, now).1)
  {
    LatestIs(w, now);
    hide Openings;
    var p, base := Period(w), now - Offset(w, now);
    assert base == p * (now / p);
    ModOf(base, p, now / p, 0);
    ModOf(base - p, p, now / p - 1, 0);
    ModOf(base + p, p, now / p + 1, 0);
  }

  // The length, without the modulus.
  lemma LengthIs(w: Span)
    requires Proper(w)
    ensures WindowLength(w)
         == (if w.start <= w.end then w.end - w.start else w.end - w.start + PeriodMinutes(w.daily)) * 60
  {
    var n := if w.start <= w.end then w.end - w.start else w.end - w.start + PeriodMinutes(w.daily);
    ModOf(w.end - w.start, PeriodMinutes(w.daily), if w.start <= w.end then 0 else -1, n);
  }

  // Equal ends give a window of length 0 that never opens.
  lemma EqualEndsNeverOpen(w: Span, now: int)
    requires Proper(w) && w.start == w.end
    ensures WindowLength(w) == 0 && !InSpan(w, now)
  {
    WindowFunctionsAgree(w, now);
  }

  // The latest opening is the only opening within a period before `now`.
  lemma LatestOpening(w: Span, t: int, now: int)
    requires Proper(w) && IsOpening(w, t) && t <= now < t + Period(w)
    ensures Openings(w, now).0 == t
  {
    WindowFunctionsAgree(w, now);
    var o := Openings(w, now).0;
    if o <= t { OpeningUnique(w, o, t); } else { OpeningUnique(w, t, o); }
  }

  // Looking back from an open instant: the window was open all the way to `s`, or it opened
  // after `s` at an opening where it was open too.
  lemma OpenLookingBack(w: Span, s: int, u: int)
    requires Proper(w) && s <= u && InSpan(w, u)
    ensures InSpan(w, s) || (s < Openings(w, u).0 <= u && InSpan(w, Openings(w, u).0))
  {
    WindowFunctionsAgree(w, u);
    var o := Openings(w, u).0;
    var from := if s < o then o else s;
    LatestOpening(w, o, from);
    WindowFunctionsAgree(w, from);
  }

  // The next opening after `now` is the only one in the day that follows `now`.
  lemma NextOpeningIsTheFirst(w: Span, now: int, t: int)
    requires Proper(w) && IsOpening(w, t) && now < t <= now + DAY
    ensures t == Openings(w, now).1
  {
    WindowFunctionsAgree(w, now);
    var o := Openings(w, now);
    if t < o.1 { OpeningUnique(w, o.0, t); } else { OpeningUnique(w, o.1, t); }
  }

  // ---- the endpoint text ----

  function ClockText(m: nat): string
    requires m < DAY_MINUTES
  {
    [DigitChar(m / 60 / 10), DigitChar(m / 60 % 10), ':', DigitChar(m % 60 / 10), DigitChar(m % 60 % 10)]
  }

  // The text `_window_minute` reads, in its plainest spelling.
  function Render(e: Endpoint): string
    requires e.minute < PeriodMinutes(e.daily)
  {
    (if e.daily then "daily" else WINDOW_DAYS[e.minute / DAY_MINUTES]) + " " + ClockText(e.minute % DAY_MINUTES)
  }

  lemma TwoDigits(n: nat)
    requires n < 100
    ensures DigitValue(DigitChar(n / 10)) * 10 + DigitValue(DigitChar(n % 10)) == n
  {}

  lemma ClockReadsBack(m: nat)
    requires m < DAY_MINUTES
    ensures Clock(ClockText(m)) == Some(m)
  {
    TwoDigits(m / 60);
    TwoDigits(m % 60);
  }

  lemma DayReadsBack(d: nat)
    requires d < 7
    ensures DayIndex(WINDOW_DAYS[d]) == Some(d) && |WINDOW_DAYS[d]| == 3 && !IsSpace(WINDOW_DAYS[d][0])
  {}

  lemma RenderParts(e: Endpoint)
    requires e.minute < PeriodMinutes(e.daily)
    ensures var t, clock := Render(e), ClockText(e.minute % DAY_MINUTES);
            if e.daily then |t| == 11 && t[..6] == "daily " && t[6..] == clock
            else |t| == 9 && t[..3] == WINDOW_DAYS[e.minute / DAY_MINUTES] && t[3] == ' ' && t[4..] == clock
    ensures !IsSpace(Render(e)[0]) && !IsSpace(Render(e)[|Render(e)| - 1])
  {
    if !e.daily { DayReadsBack(e.minute / DAY_MINUTES); }
  }

  lemma ParsesBack(point: string, e: Endpoint)
    requires e.minute < PeriodMinutes(e.daily) && Lower(Strip(point)) == Render(e)
    ensures WindowMinute(point) == Some(e)
  {
    hide Strip, Lower, Render, Clock, DayIndex;
    RenderParts(e);
    ClockReadsBack(e.minute % DAY_MINUTES);
    if !e.daily { DayReadsBack(e.minute / DAY_MINUTES); }
  }

  lemma ClockIsItsText(text: string)
    requires Clock(text).Some?
    ensures ClockText(Clock(text).value) == text
  {
    var h, mm := DigitValue(text[0]) * 10 + DigitValue(text[1]), DigitValue(text[3]) * 10 + DigitValue(text[4]);
    assert Clock(text).value / 60 == h && Clock(text).value % 60 == mm;
  }

  lemma SplitMinute(d: nat, m: nat)
    requires m < DAY_MINUTES
    ensures (d * DAY_MINUTES + m) / DAY_MINUTES == d && (d * DAY_MINUTES + m) % DAY_MINUTES == m
  {}

  lemma OnlyItsTextParses(point: string, e: Endpoint)
    requires WindowMinute(point) == Some(e)
    ensures Lower(Strip(point)) == Render(e)
  {
    hide Strip, Lower, Clock, DayIndex, ClockText;
    var text := Lower(Strip(point));
    if |text| == 11 && text[..6] == "daily " {
      ClockIsItsText(text[6..]);
      assert text == text[..6] + text[6..] && "daily " == "daily" + " ";
    } else {
      ClockIsItsText(text[4..]);
      SplitMinute(DayIndex(text[..3]).value, Clock(text[4..]).value);
      assert text == text[..3] + [text[3]] + text[4..];
    }
  }

  // An endpoint is read from its own text, whatever its case and surrounding space, and from no
  // other.
  lemma EndpointTextIsExact(point: string, e: Endpoint)
    ensures WindowMinute(point) == Some(e) <==> e.minute < PeriodMinutes(e.daily) && Lower(Strip(point)) == Render(e)
  {
    if WindowMinute(point) == Some(e) {
      OnlyItsTextParses(point, e);
    }
    if e.minute < PeriodMinutes(e.daily) && Lower(Strip(point)) == Render(e) {
      ParsesBack(point, e);
    }
  }

  // ---- the configured endpoints ----

  // An endpoint that does not parse, or a weekday beside a daily one, leaves the window open at
  // every instant and not a daily one; a daily window is two daily endpoints.
  lemma UnpairedIsOpen(start: string, end: string, now: int)
    ensures var a, b := WindowMinute(start), WindowMinute(end);
            && (SpanOf(start, end).Some? <==> a.Some? && b.Some? && a.value.daily == b.value.daily)
            && (SpanOf(start, end).Some? ==>
                  SpanOf(start, end).value == Span(a.value.minute, b.value.minute, a.value.daily)
                      && Proper(SpanOf(start, end).value))
            && (SpanOf(start, end).None? ==> InRunWindow(SpanOf(start, end), now) && !IsDailyWindow(SpanOf(start, end)))
            && (IsDailyWindow(SpanOf(start, end)) <==> a.Some? && b.Some? && a.value.daily && b.value.daily)
  {}
}
