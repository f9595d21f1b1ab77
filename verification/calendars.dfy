/** `clickup_to_ical/ical/calendar.py`: the duration text of X-PUBLISHED-TTL and the VCALENDAR
    block around the events. */
module Calendars {
  import opened Base
  import opened Text
  import opened ContentLine
  import opened Events

  // ---------------------------------------------------------------------------
  // Durations
  // ---------------------------------------------------------------------------

  /** The seconds part of a normalised `timedelta`, always below one day. */
  type DaySeconds = s: int | 0 <= s < 86400

  /** A `timedelta` as Python normalises it: any number of days (negative included) and the
      seconds within the day; microseconds play no part here. */
  datatype TimeDelta = TimeDelta(days: int, seconds: DaySeconds)

  /** The whole hours of the sub-day seconds; the minutes and seconds below split what is
      left over the same way, by sixty. */
  function Hours(td: TimeDelta): nat {
    td.seconds / 3600
  }

  function Minutes(td: TimeDelta): nat {
    td.seconds % 3600 / 60
  }

  function Secs(td: TimeDelta): nat {
    td.seconds % 3600 % 60
  }

  /** One component of the time part: two digits and the unit when positive, else nothing. */
  function Part(v: nat, unit: char): string {
    if v > 0 then ZeroPad(v, 2) + [unit] else ""
  }

  /** The duration text of a timedelta: `P`, the day count only when positive, `T`, then hours, minutes
      and seconds, each only when positive. There is no `D` after the days, and a zero or
      negative day count with no seconds gives `PT`. */
  function DurationText(td: TimeDelta): string {
    "P" + (if td.days > 0 then NatToString(td.days) else "") + "T" + TimeText(td)
  }

  function TimeText(td: TimeDelta): string {
    Part(Hours(td), 'H') + Part(Minutes(td), 'M') + Part(Secs(td), 'S')
  }

  /** The split of the seconds into the three components is exact and each component is in
      range, so no component ever needs more than two digits. */
  lemma DurationComponents(td: TimeDelta)
    ensures Hours(td) < 24 && Minutes(td) < 60 && Secs(td) < 60
    ensures Hours(td) * 3600 + Minutes(td) * 60 + Secs(td) == td.seconds
  {
  }

  /** The number of leading decimal digits. */
  function LeadingDigits(s: string): (k: nat)
    ensures k <= |s| && AllDigits(s[..k]) && (k < |s| ==> !IsDigit(s[k]))
  {
    if |s| == 0 || !IsDigit(s[0]) then 0
    else
      var k := 1 + LeadingDigits(s[1..]);
      assert s[..k] == [s[0]] + s[1..][..k - 1];
      k
  }

  /** Reads an optional two-digit component ending in `unit`; an absent one counts as zero. */
  function ReadPart(t: string, unit: char): (nat, string) {
    if |t| >= 3 && IsDigit(t[0]) && IsDigit(t[1]) && t[2] == unit
    then (DigitsValue(t[..2]), t[3..])
    else (0, t)
  }

  /** An independent reader for the durations `DurationText` writes. */
  function ParseDuration(s: string): Option<TimeDelta> {
    if |s| == 0 || s[0] != 'P' then None
    else
      var r := s[1..];
      var k := LeadingDigits(r);
      if k == |r| || r[k] != 'T' then None
      else ToDelta(DigitsValue(r[..k]), ReadTime(r[k + 1..]))
  }

  /** Reads the part after `T`: hours, minutes and seconds, each optional, and nothing else. */
  function ReadTime(t: string): Option<(nat, nat, nat)> {
    var (h, r1) := ReadPart(t, 'H');
    var (m, r2) := ReadPart(r1, 'M');
    var (sec, r3) := ReadPart(r2, 'S');
    if r3 != "" then None else Some((h, m, sec))
  }

  /** A day count and in-range components as a `timedelta`. */
  function ToDelta(days: nat, hms: Option<(nat, nat, nat)>): Option<TimeDelta> {
    match hms
    case None => None
    case Some((h, m, sec)) =>
      if h >= 24 || m >= 60 || sec >= 60 then None
      else Some(TimeDelta(days, h * 3600 + m * 60 + sec))
  }

  lemma {:induction false} LeadingDigitsOf(d: string, rest: string)
    requires AllDigits(d) && |rest| > 0 && !IsDigit(rest[0])
    ensures LeadingDigits(d + rest) == |d|
    decreases |d|
  {
    if |d| > 0 {
      assert (d + rest)[1..] == d[1..] + rest;
      LeadingDigitsOf(d[1..], rest);
    } else {
      assert d + rest == rest;
    }
  }

  /** A component is read back from in front of whatever follows it, provided what follows
      is not itself a component with the same unit. */
  lemma ReadPartOf(v: nat, unit: char, rest: string)
    requires v < 100 && !IsDigit(unit)
    requires rest == "" || (|rest| >= 3 && rest[2] != unit)
    ensures ReadPart(Part(v, unit) + rest, unit) == (v, rest)
  {
    if v > 0 {
      assert Pow10(2) == 100;
      ZeroPadExact(v, 2);
      var t := Part(v, unit) + rest;
      assert t[..2] == ZeroPad(v, 2);
      assert t[3..] == rest;
    } else {
      assert Part(v, unit) + rest == rest;
    }
  }

  /** What follows a component: nothing, or a later component. */
  lemma PartShape(v: nat, unit: char)
    requires v < 100
    ensures Part(v, unit) == "" || (|Part(v, unit)| == 3 && Part(v, unit)[2] == unit)
  {
    if v > 0 {
      assert Pow10(2) == 100;
      ZeroPadExact(v, 2);
    }
  }

  lemma PartsShape(a: string, b: string, unitA: char, unitB: char)
    requires a == "" || (|a| == 3 && a[2] == unitA)
    requires b == "" || (|b| == 3 && b[2] == unitB)
    ensures var t := a + b;
      t == "" || (|t| >= 3 && (t[2] == unitA || t[2] == unitB))
  {
    if a == "" {
      assert a + b == b;
    } else {
      assert (a + b)[2] == a[2];
    }
  }

  /** Reading a written duration gives back the seconds, and the days when they are
      positive; a zero or negative day count reads back as zero. */
  lemma DurationRoundTrip(td: TimeDelta)
    ensures ParseDuration(DurationText(td))
         == Some(TimeDelta(if td.days > 0 then td.days else 0, td.seconds))
  {
    var days := if td.days > 0 then td.days else 0;
    var d := if td.days > 0 then NatToString(td.days) else "";
    assert DigitsValue(d) == days by {
      if td.days > 0 {
        NatToStringValue(td.days);
      }
    }
    assert DurationText(td) == "P" + d + "T" + TimeText(td);
    ReadDays(d, TimeText(td));
    DurationComponents(td);
    ReadTimeParts(Hours(td), Minutes(td), Secs(td));
    ToDeltaOf(days, td);
  }

  /** The components of a `timedelta` make it up again. */
  lemma ToDeltaOf(days: nat, td: TimeDelta)
    ensures ToDelta(days, Some((Hours(td), Minutes(td), Secs(td)))) == Some(TimeDelta(days, td.seconds))
  {
    DurationComponents(td);
  }

  /** The day count is read up to the `T`. */
  lemma ReadDays(d: string, t: string)
    requires AllDigits(d)
    ensures ParseDuration("P" + d + "T" + t) == ToDelta(DigitsValue(d), ReadTime(t))
  {
    var s := "P" + d + "T" + t;
    var r := d + ("T" + t);
    assert s[1..] == r;
    LeadingDigitsOf(d, "T" + t);
    assert r[..|d|] == d;
    assert r[|d|] == 'T';
    assert r[|d| + 1..] == t;
  }

  /** The time components are read back in turn. */
  lemma ReadTimeParts(h: nat, m: nat, sc: nat)
    requires h < 24 && m < 60 && sc < 60
    ensures ReadTime(Part(h, 'H') + Part(m, 'M') + Part(sc, 'S')) == Some((h, m, sc))
  {
    var ph, pm, ps := Part(h, 'H'), Part(m, 'M'), Part(sc, 'S');
    PartShape(m, 'M');
    PartShape(sc, 'S');
    PartsShape(pm, ps, 'M', 'S');
    assert ph + pm + ps == ph + (pm + ps);
    ReadPartOf(h, 'H', pm + ps);
    assert ps == ps + "";
    ReadPartOf(m, 'M', ps);
    ReadPartOf(sc, 'S', "");
  }

  /** A component below ten gets a leading zero. */
  lemma PartSmall(v: nat, unit: char)
    requires 0 < v < 10
    ensures Part(v, unit) == ['0', DigitChar(v), unit]
  {
    assert NatToString(v) == [DigitChar(v)];
    assert Zeros(1) == "0";
  }

  /** One day, two hours and five seconds: the day count has no `D` after it. */
  lemma DurationExample()
    ensures DurationText(TimeDelta(1, 7205)) == "P1T02H05S"
  {
    var td := TimeDelta(1, 7205);
    assert Hours(td) == 2 && Minutes(td) == 0 && Secs(td) == 5;
    PartSmall(2, 'H');
    PartSmall(5, 'S');
    assert NatToString(1) == "1";
  }

  /** A zero `timedelta` gives the bare `PT`, and a negative day count is dropped. */
  lemma DurationDegenerate()
    ensures DurationText(TimeDelta(0, 0)) == "PT"
    ensures DurationText(TimeDelta(-1, 3600)) == "PT01H"
  {
    var td := TimeDelta(-1, 3600);
    assert Hours(td) == 1 && Minutes(td) == 0 && Secs(td) == 0;
    PartSmall(1, 'H');
  }

  // ---------------------------------------------------------------------------
  // The calendar
  // ---------------------------------------------------------------------------

  /** A calendar and its events. The class attribute `calendar_timezone` is not a dataclass field and is
      always None, so the calendar has no time zone to carry. */
  datatype Calendar = Calendar(
    version: string,
    prodid: string,
    calMethod: Option<string>,
    calscale: Option<string>,
    name: Option<string>,
    description: Option<string>,
    ttl: Option<TimeDelta>,
    events: seq<Event>)

  const BeginCalendar: string := "BEGIN:VCALENDAR"
  const EndCalendar: string := "END:VCALENDAR"

  /** The calendar properties, in the order they are emitted; CALSCALE is written twice. */
  const CalendarNames: seq<string> :=
    ["VERSION", "PRODID", "METHOD", "CALSCALE", "X-MICROSOFT-CALSCALE", "X-WR-CALNAME",
     "X-WR-CALDESC", "X-PUBLISHED-TTL"]

  /** The values those properties are rendered from, position by position. */
  function CalendarFields(c: Calendar): (r: seq<Option<string>>)
    ensures |r| == |CalendarNames|
  {
    [Some(c.version), Some(c.prodid), c.calMethod, c.calscale, c.calscale, c.name, c.description,
     if c.ttl.Some? then Some(DurationText(c.ttl.value)) else None]
  }

  /** The property lines before the events. */
  function PropertyLines(c: Calendar): seq<string> {
    TextLines(CalendarNames, CalendarFields(c))
  }

  /** The text of each event, or the error of the first one that fails. */
  function EventTexts(es: seq<Event>): Result<seq<string>, RenderError> {
    if |es| == 0 then Ok([])
    else
      match EventText(es[0])
      case Err(err) => Err(err)
      case Ok(t) =>
        match EventTexts(es[1..])
        case Err(err) => Err(err)
        case Ok(ts) => Ok([t] + ts)
  }

  /** The calendar's text, or the error of the first event that fails to render. */
  function CalendarText(c: Calendar): Result<string, RenderError> {
    match EventTexts(c.events)
    case Err(err) => Err(err)
    case Ok(ts) => Ok(BeginCalendar + "\n" + Join(PropertyLines(c) + ts, "\n") + "\n" + EndCalendar)
  }

  /** Every event renders exactly when the calendar does; then the texts are the events'
      texts, one per event, in order. */
  lemma {:induction false} EventTextsSpec(es: seq<Event>)
    ensures EventTexts(es).Ok? <==> forall i :: 0 <= i < |es| ==> EventLines(es[i]).Ok?
    ensures EventTexts(es).Ok? ==>
      |EventTexts(es).value| == |es|
      && forall i :: 0 <= i < |es| ==> EventTexts(es).value[i] == EventText(es[i]).value
    decreases |es|
  {
    if |es| > 0 {
      EventTextsSpec(es[1..]);
      assert forall i :: 1 <= i < |es| ==> es[i] == es[1..][i - 1];
    }
  }

  /** The calendar renders exactly when each of its events does. */
  lemma CalendarRenders(c: Calendar)
    ensures CalendarText(c).Ok? <==> forall i :: 0 <= i < |c.events| ==> EventLines(c.events[i]).Ok?
  {
    EventTextsSpec(c.events);
  }

  lemma CalendarNamesPlain()
    ensures Distinct(CalendarNames)
    ensures forall i :: 0 <= i < |CalendarNames| ==> Plain(CalendarNames[i])
  {
  }

  /** VERSION and PRODID come first, then each optional property whose field is set, in the
      fixed order of `CalendarNames`; CALSCALE is followed by X-MICROSOFT-CALSCALE. Nothing is
      ever called X-WR-TIMEZONE. */
  lemma PropertyNames(c: Calendar)
    ensures Names(PropertyLines(c)) == Select(CalendarNames, SetFlags(CalendarFields(c)))
    ensures "X-WR-TIMEZONE" !in Names(PropertyLines(c))
  {
    CalendarNamesPlain();
    TextLinesNames(CalendarNames, CalendarFields(c));
    SelectFrom(CalendarNames, SetFlags(CalendarFields(c)), "X-WR-TIMEZONE");
  }

  /** Select only picks names from the list. */
  lemma {:induction false} SelectFrom(ns: seq<string>, fs: seq<bool>, x: string)
    requires |ns| == |fs| && x !in ns
    ensures x !in Select(ns, fs)
    decreases |ns|
  {
    if |ns| > 0 {
      SelectFrom(ns[1..], fs[1..], x);
    }
  }

  /** Each property appears with its field's value verbatim exactly when the field is set;
      X-PUBLISHED-TTL carries the duration text. */
  lemma PropertyValue(c: Calendar, k: nat)
    requires k < |CalendarNames|
    ensures Values(PropertyLines(c), CalendarNames[k]) == OptList(CalendarFields(c)[k])
  {
    CalendarNamesPlain();
    TextLinesValue(CalendarNames, CalendarFields(c), k);
  }

  /** CALSCALE and X-MICROSOFT-CALSCALE always agree: both absent, or both the same value. */
  lemma CalScaleTwice(c: Calendar)
    ensures Values(PropertyLines(c), "CALSCALE") == OptList(c.calscale)
    ensures Values(PropertyLines(c), "X-MICROSOFT-CALSCALE") == OptList(c.calscale)
  {
    PropertyValue(c, 3);
    PropertyValue(c, 4);
  }

  /** Nothing is ever read under X-WR-TIMEZONE. */
  lemma NoTimezone(c: Calendar)
    ensures Values(PropertyLines(c), "X-WR-TIMEZONE") == []
  {
    CalendarNamesPlain();
    TextLinesAbsent(CalendarNames, CalendarFields(c), "X-WR-TIMEZONE");
  }

  /** A calendar with only the two mandatory properties and no events. */
  lemma MinimalCalendar(version: string, prodid: string)
    ensures CalendarText(Calendar(version, prodid, None, None, None, None, None, []))
         == Ok(BeginCalendar + "\n" + ("VERSION:" + version) + "\n" + ("PRODID:" + prodid)
               + "\n" + EndCalendar)
  {
    var c := Calendar(version, prodid, None, None, None, None, None, []);
    var a, b := "VERSION:" + version, "PRODID:" + prodid;
    PropertyLinesStart(c);
    NoLines(CalendarNames[2..], CalendarFields(c)[2..]);
    assert PropertyLines(c) == [a, b];
    assert EventTexts(c.events) == Ok([]);
    assert [a, b] + [] == [a, b];
    assert Join([a, b], "\n") == a + "\n" + b;
    var j := Join(PropertyLines(c) + [], "\n");
    assert j == a + "\n" + b;
    assert CalendarText(c) == Ok(BeginCalendar + "\n" + j + "\n" + EndCalendar);
    Assoc(BeginCalendar + "\n", a, "\n", b, "\n", EndCalendar);
  }

  lemma Assoc(p: string, q: string, r: string, s: string, t: string, u: string)
    ensures p + (q + r + s) + t + u == p + q + r + s + t + u
  {
  }

  /** Unset values produce no lines. */
  lemma {:induction false} NoLines(ns: seq<string>, vs: seq<Option<string>>)
    requires |ns| == |vs| && forall i :: 0 <= i < |vs| ==> vs[i].None?
    ensures TextLines(ns, vs) == []
    decreases |ns|
  {
    if |ns| > 0 {
      NoLines(ns[1..], vs[1..]);
    }
  }

  /** The blocks of lines the events contribute once the calendar is split at line breaks. */
  function EventBlocks(es: seq<Event>): (r: seq<seq<string>>)
    requires forall i :: 0 <= i < |es| ==> EventLines(es[i]).Ok?
    ensures |r| == |es|
  {
    if |es| == 0 then []
    else [[BeginEvent] + EventLines(es[0]).value + [EndEvent]] + EventBlocks(es[1..])
  }

  /** With no line break inside any value, splitting `str(calendar)` at line breaks gives
      BEGIN:VCALENDAR, the property lines, each event's block in order, and END:VCALENDAR. */
  lemma CalendarSplit(c: Calendar)
    requires NoBreaks(PropertyLines(c))
    requires forall i :: 0 <= i < |c.events| ==>
      EventLines(c.events[i]).Ok? && NoBreaks(EventLines(c.events[i]).value)
    ensures CalendarText(c).Ok?
    ensures Split(CalendarText(c).value, '\n')
         == [BeginCalendar] + PropertyLines(c) + Concat(EventBlocks(c.events)) + [EndCalendar]
  {
    CalendarRenders(c);
    CalendarTextFramed(c);
    BodyBlocks(c);
    Reframe(BeginCalendar, Concat(SplitEach(PropertyLines(c) + EventTexts(c.events).value, '\n')),
            PropertyLines(c), Concat(EventBlocks(c.events)), EndCalendar);
  }

  lemma Reframe<T>(b: T, x: seq<T>, p: seq<T>, q: seq<T>, e: T)
    requires x == p + q
    ensures [b] + x + [e] == [b] + p + q + [e]
  {
  }

  lemma CalendarTextFramed(c: Calendar)
    requires forall i :: 0 <= i < |c.events| ==> EventLines(c.events[i]).Ok?
    ensures CalendarText(c).Ok?
    ensures Split(CalendarText(c).value, '\n')
         == [BeginCalendar] + Concat(SplitEach(PropertyLines(c) + EventTexts(c.events).value, '\n'))
          + [EndCalendar]
  {
    CalendarRenders(c);
    var p := PropertyLines(c);
    var ts := EventTexts(c.events).value;
    assert CalendarText(c).value == BeginCalendar + "\n" + Join(p + ts, "\n") + "\n" + EndCalendar;
    assert |p + ts| >= 1 by {
      PropertyLinesStart(c);
    }
    BoundariesFree();
    SplitFramed(BeginCalendar, p + ts, EndCalendar, '\n');
  }

  lemma BoundariesFree()
    ensures '\n' !in BeginCalendar && '\n' !in EndCalendar
  {
  }

  lemma BodyBlocks(c: Calendar)
    requires NoBreaks(PropertyLines(c))
    requires forall i :: 0 <= i < |c.events| ==>
      EventLines(c.events[i]).Ok? && NoBreaks(EventLines(c.events[i]).value)
    ensures EventTexts(c.events).Ok?
    ensures Concat(SplitEach(PropertyLines(c) + EventTexts(c.events).value, '\n'))
         == PropertyLines(c) + Concat(EventBlocks(c.events))
  {
    EventTextsSpec(c.events);
    var p := PropertyLines(c);
    var ts := EventTexts(c.events).value;
    SplitEachAppend(p, ts, '\n');
    ConcatAppend(SplitEach(p, '\n'), SplitEach(ts, '\n'));
    ConcatSplitFree(p, '\n');
    BlocksSplit(c.events, ts);
  }

  /** VERSION and PRODID always open the property lines. */
  lemma PropertyLinesStart(c: Calendar)
    ensures |PropertyLines(c)| >= 2
    ensures PropertyLines(c)[..2] == ["VERSION:" + c.version, "PRODID:" + c.prodid]
    ensures PropertyLines(c)[2..] == TextLines(CalendarNames[2..], CalendarFields(c)[2..])
  {
    var ns, fs := CalendarNames, CalendarFields(c);
    var rest := TextLines(ns[2..], fs[2..]);
    assert ns[1..][0] == "PRODID" && fs[1..][0] == Some(c.prodid);
    assert ns[1..][1..] == ns[2..] && fs[1..][1..] == fs[2..];
    assert "VERSION" + ":" + c.version == "VERSION:" + c.version;
    assert "PRODID" + ":" + c.prodid == "PRODID:" + c.prodid;
    assert TextLines(ns[1..], fs[1..]) == ["PRODID:" + c.prodid] + rest;
    assert PropertyLines(c) == ["VERSION:" + c.version] + (["PRODID:" + c.prodid] + rest);
  }

  /** Each event text splits into its block. */
  lemma {:induction false} BlocksSplit(es: seq<Event>, ts: seq<string>)
    requires forall i :: 0 <= i < |es| ==> EventLines(es[i]).Ok? && NoBreaks(EventLines(es[i]).value)
    requires |ts| == |es| && forall i :: 0 <= i < |es| ==> ts[i] == EventText(es[i]).value
    ensures Concat(SplitEach(ts, '\n')) == Concat(EventBlocks(es))
    decreases |es|
  {
    if |es| > 0 {
      EventTextSplit(es[0]);
      assert SplitEach(ts, '\n')[1..] == SplitEach(ts[1..], '\n');
      BlocksSplit(es[1..], ts[1..]);
    }
  }
}
