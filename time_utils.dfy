/**
 * Recurring weekly time windows (js/modules/timeUtils.js): containment of
 * the current instant, the user-facing rendering and shape validation.
 *
 * Hours are whole minutes of the day (8.5 hours is 510), so the source's
 * fractional-hour arithmetic is exact here. The clock is an argument.
 */
module TimeUtils {
  import opened Text

  const MinutesPerHour := 60
  const MinutesPerDay := 24 * MinutesPerHour

  /** Days of the week (0 is Sunday) and the half-open range [startMinute, endMinute). */
  datatype TimeWindow = TimeWindow(days: seq<int>, startMinute: int, endMinute: int)

  /** The local instant of a check: `getDay()` and `getHours() * 60 + getMinutes()`. */
  datatype Clock = Clock(day: int, minute: int)

  const DayNames: seq<string> := ["Domingo", "Segunda", "Terça", "Quarta", "Quinta", "Sexta", "Sábado"]

  predicate Covers(w: TimeWindow, now: Clock) {
    now.day in w.days && w.startMinute <= now.minute < w.endMinute
  }

  /** `timeWindows.some(...)`: whether some window in the list covers `now`. */
  function SomeCovers(windows: seq<TimeWindow>, now: Clock): (r: bool)
    ensures r <==> exists i :: 0 <= i < |windows| && Covers(windows[i], now)
  {
    if |windows| == 0 then false
    else Covers(windows[0], now) || SomeCovers(windows[1..], now)
  }

  /** An empty list means "always inside"; otherwise some window must cover `now`. */
  function IsWithinTimeWindow(windows: seq<TimeWindow>, now: Clock): (r: bool)
    ensures |windows| == 0 ==> r
    ensures |windows| > 0 ==> (r <==> exists i :: 0 <= i < |windows| && Covers(windows[i], now))
  {
    |windows| == 0 || SomeCovers(windows, now)
  }

  /** Windows are half-open: the start minute is inside, the end minute is not. */
  lemma WindowIsHalfOpen(w: TimeWindow, day: int)
    requires day in w.days && w.startMinute < w.endMinute
    ensures IsWithinTimeWindow([w], Clock(day, w.startMinute))
    ensures !IsWithinTimeWindow([w], Clock(day, w.endMinute))
  {
    assert Covers([w][0], Clock(day, w.startMinute));
  }

  /** Adding a window to a non-empty list never turns "inside" into "outside". */
  lemma AddingWindowKeepsInside(windows: seq<TimeWindow>, w: TimeWindow, now: Clock)
    requires |windows| > 0 && IsWithinTimeWindow(windows, now)
    ensures IsWithinTimeWindow(windows + [w], now)
  {
    var i :| 0 <= i < |windows| && Covers(windows[i], now);
    assert (windows + [w])[i] == windows[i];
  }

  /** ... but adding the first window can: the empty list is inside at every instant. */
  lemma FirstWindowCanRestrict()
    ensures IsWithinTimeWindow([], Clock(6, 600))
    ensures !IsWithinTimeWindow([TimeWindow([1, 2, 3, 4, 5], 480, 1020)], Clock(6, 600))
  {
    assert 6 !in [1, 2, 3, 4, 5];
  }

  /** `dayNames[d]`; an index outside the table is `undefined`, which `join` renders as "". */
  function DayName(d: int): (name: string) {
    if 0 <= d < |DayNames| then DayNames[d] else ""
  }

  /**
   * The minutes after the colon: "00" when the fraction is zero, otherwise
   * `Math.round(fraction * 60).toString().padStart(2, '0')`.
   */
  function MinutesText(minutes: int): (text: string) {
    if minutes != 0 then PadStart(IntToString(minutes), 2, '0') else "00"
  }

  /** Minutes 0 to 59 always take exactly two digits, whose value is the minutes. */
  lemma MinutesTextDigits(minutes: int)
    requires 0 <= minutes < MinutesPerHour
    ensures |MinutesText(minutes)| == 2 && AllDigits(MinutesText(minutes))
    ensures DecimalValue(MinutesText(minutes)) == minutes
  {
    var t := MinutesText(minutes);
    if minutes >= 10 {
      assert t == NatToString(minutes) == NatToString(minutes / 10) + [Digit(minutes % 10)];
      NatToStringRoundTrip(minutes);
    } else if minutes > 0 {
      assert t == "0" + [Digit(minutes)];
      assert t[..1] == "0" && "0"[..0] == "";
    } else {
      assert t[..1] == "0" && "0"[..0] == "";
    }
  }

  /**
   * `Math.floor(h) + ":" + minutes`, where the minutes are the fractional
   * part of the hour times 60. JavaScript's `h % 1` keeps the sign of `h`,
   * so a negative hour gives negative minutes.
   */
  function FormatHour(m: int): (text: string) {
    var fraction := if m >= 0 then m % MinutesPerHour else -((-m) % MinutesPerHour);
    IntToString(m / MinutesPerHour) + ":" + MinutesText(fraction)
  }

  /** A non-negative hour renders as its whole hours, a colon and exactly two digits of minutes. */
  lemma FormatHourDigits(m: int)
    requires m >= 0
    ensures var s := FormatHour(m);
            var h := NatToString(m / MinutesPerHour);
            |s| == |h| + 3 && s[..|h|] == h && s[|h|] == ':' &&
            AllDigits(s[|h| + 1..]) && DecimalValue(s[|h| + 1..]) == m % MinutesPerHour
  {
    var h := NatToString(m / MinutesPerHour);
    var t := MinutesText(m % MinutesPerHour);
    MinutesTextDigits(m % MinutesPerHour);
    var s := h + ":" + t;
    assert FormatHour(m) == s;
    assert s[|h| + 1..] == t;
    assert s[..|h|] == h;
  }

  /** A whole hour renders with ":00". */
  lemma FormatWholeHour(m: int)
    requires m >= 0 && m % MinutesPerHour == 0
    ensures FormatHour(m) == NatToString(m / MinutesPerHour) + ":00"
  {
  }

  lemma FormatHourExamples()
    ensures FormatHour(480) == "8:00"
    ensures FormatHour(1020) == "17:00"
    ensures FormatHour(545) == "9:05"
    ensures FormatHour(1410) == "23:30"
  {
    assert MinutesText(5) == "05";
    assert MinutesText(30) == NatToString(3) + [Digit(0)] == "30";
    assert NatToString(17) == NatToString(1) + [Digit(7)] == "17";
    assert NatToString(23) == NatToString(2) + [Digit(3)] == "23";
  }

  /** `days.map(d => dayNames[d])`. */
  function DayList(days: seq<int>): (names: seq<string>)
    ensures |names| == |days| && forall i :: 0 <= i < |days| ==> names[i] == DayName(days[i])
  {
    seq(|days|, i requires 0 <= i < |days| => DayName(days[i]))
  }

  /** One window: "<days joined by ', '> das <start> às <end>". */
  function FormatWindow(w: TimeWindow): (text: string) {
    Join(DayList(w.days), ", ") + " das " + FormatHour(w.startMinute) + " às " + FormatHour(w.endMinute)
  }

  /** `timeWindows.map(formatWindow)`. */
  function Segments(windows: seq<TimeWindow>): (segments: seq<string>)
    ensures |segments| == |windows|
    ensures forall i :: 0 <= i < |windows| ==> segments[i] == FormatWindow(windows[i])
  {
    seq(|windows|, i requires 0 <= i < |windows| => FormatWindow(windows[i]))
  }

  /** The text of a list of windows: "Sempre bloqueado" when empty, else one segment per window joined by "<br>". */
  function FormatTimeWindows(windows: seq<TimeWindow>): (s: string)
    ensures |windows| == 0 ==> s == "Sempre bloqueado"
    ensures |windows| == 1 ==> s == FormatWindow(windows[0])
  {
    if |windows| == 0 then "Sempre bloqueado"
    else Join(Segments(windows), "<br>")
  }

  /** The segments appear in list order: one more window adds "<br>" and its own segment at the end. */
  lemma {:induction false} FormatTimeWindowsAppend(windows: seq<TimeWindow>, more: seq<TimeWindow>)
    requires |windows| > 0 && |more| > 0
    ensures FormatTimeWindows(windows + more) ==
            FormatTimeWindows(windows) + "<br>" + FormatTimeWindows(more)
  {
    assert Segments(windows + more) == Segments(windows) + Segments(more);
    JoinAppend(Segments(windows), Segments(more), "<br>");
  }

  lemma WeekdayNamesExample()
    ensures Join(DayList([1, 2, 3, 4, 5]), ", ") == "Segunda, Terça, Quarta, Quinta, Sexta"
  {
    assert DayList([1, 2, 3, 4, 5]) == ["Segunda", "Terça", "Quarta", "Quinta", "Sexta"];
    JoinWeekdayNames();
  }

  lemma JoinWeekdayNames()
    ensures Join(["Segunda", "Terça", "Quarta", "Quinta", "Sexta"], ", ") == "Segunda, Terça, Quarta, Quinta, Sexta"
  {
    var names := ["Segunda", "Terça", "Quarta", "Quinta", "Sexta"];
    assert names[..1] == ["Segunda"];
    assert names[..2][..1] == names[..1];
    assert Join(names[..2], ", ") == "Segunda, Terça";
    assert names[..3][..2] == names[..2];
    assert Join(names[..3], ", ") == "Segunda, Terça, Quarta";
    assert names[..4][..3] == names[..3];
    assert Join(names[..4], ", ") == "Segunda, Terça, Quarta, Quinta";
  }

  /** The text the source shows for an exception open on weekdays from 8:00 to 17:00. */
  lemma FormatTimeWindowsExample()
    ensures FormatTimeWindows([TimeWindow([1, 2, 3, 4, 5], 480, 1020)]) ==
            "Segunda, Terça, Quarta, Quinta, Sexta" + " das " + "8:00" + " às " + "17:00"
  {
    var w := TimeWindow([1, 2, 3, 4, 5], 480, 1020);
    assert FormatTimeWindows([w]) == Join(DayList(w.days), ", ") + " das " + FormatHour(480) + " às " + FormatHour(1020);
    WeekdayNamesExample();
    FormatHourExamples();
  }

  /**
   * `validateTimeWindow`: at least one day, a start in [0, 24) hours, an
   * end in (0, 24] hours and the start before the end.
   */
  predicate ValidateTimeWindow(w: TimeWindow) {
    |w.days| > 0 &&
    0 <= w.startMinute < MinutesPerDay &&
    0 < w.endMinute <= MinutesPerDay &&
    w.startMinute < w.endMinute
  }

  /** Two of the four range checks are implied by the others. */
  lemma ValidateTimeWindowMinimal(w: TimeWindow)
    ensures ValidateTimeWindow(w) <==>
            |w.days| > 0 && 0 <= w.startMinute < w.endMinute <= MinutesPerDay
  {
  }

  /** A valid window is never empty: it covers its own start minute on its first day. */
  lemma ValidWindowIsInhabited(w: TimeWindow)
    requires ValidateTimeWindow(w)
    ensures IsWithinTimeWindow([w], Clock(w.days[0], w.startMinute))
  {
    assert Covers([w][0], Clock(w.days[0], w.startMinute));
  }

  /** A valid window only covers minutes of one day. */
  lemma ValidWindowWithinDay(w: TimeWindow, now: Clock)
    requires ValidateTimeWindow(w) && Covers(w, now)
    ensures 0 <= now.minute < MinutesPerDay
  {
  }
}
