/** `clickup_to_ical/ical/event.py`: date-time property lines, ORGANIZER/ATTENDEE lines and
    the VEVENT block. Values are placed on their lines verbatim: nothing is escaped, folded or
    terminated with CRLF. */
module Events {
  import opened Base
  import opened Text
  import opened DateTimes
  import opened ContentLine

  // ---------------------------------------------------------------------------
  // Date-time lines
  // ---------------------------------------------------------------------------

  /** `YYYYMMDDThhmmss`, every field zero-filled to its width. */
  function Stamp(dt: DateTime): string {
    ZeroPad(dt.year, 4) + ZeroPad(dt.month, 2) + ZeroPad(dt.day, 2) + "T"
    + ZeroPad(dt.hour, 2) + ZeroPad(dt.minute, 2) + ZeroPad(dt.second, 2)
  }

  /** The value part of a date-time line: the stamp, with `Z` appended for UTC. */
  function DateTimeValue(dt: DateTime): string {
    if dt.zone == Utc then Stamp(dt) + "Z" else Stamp(dt)
  }

  /** The parameters of a date-time line: none, or the zone and a `VALUE=DATE` marker. */
  function DateTimeParams(dt: DateTime): seq<string> {
    match dt.zone
    case Named(z) => ["TZID=" + z, "VALUE=DATE"]
    case _ => []
  }

  /** A date-time property line: the name, the zone parameters if any, and the stamp. */
  function DateTimeLine(name: string, dt: DateTime): string {
    match dt.zone
    case Naive => name + ":" + Stamp(dt)
    case Utc => name + ":" + Stamp(dt) + "Z"
    case Named(z) => name + ";TZID=" + z + ";VALUE=DATE:" + Stamp(dt)
  }

  /** A zone name that can stand in a parameter without quoting. */
  predicate PlainZone(dt: DateTime) {
    dt.zone.Named? ==> Plain(dt.zone.name)
  }

  /** The stamp of a valid date-time is 15 characters: four digits of year, two each of month
      and day, `T`, two each of hour, minute and second, and each group reads back as its
      field. */
  lemma StampLayout(dt: DateTime)
    requires Valid(dt)
    ensures |Stamp(dt)| == 15
    ensures Stamp(dt)[8] == 'T'
    ensures forall i :: 0 <= i < 15 && i != 8 ==> IsDigit(Stamp(dt)[i])
    ensures DigitsValue(Stamp(dt)[0..4]) == dt.year
    ensures DigitsValue(Stamp(dt)[4..6]) == dt.month
    ensures DigitsValue(Stamp(dt)[6..8]) == dt.day
    ensures DigitsValue(Stamp(dt)[9..11]) == dt.hour
    ensures DigitsValue(Stamp(dt)[11..13]) == dt.minute
    ensures DigitsValue(Stamp(dt)[13..15]) == dt.second
  {
    assert Pow10(2) == 100 && Pow10(4) == 10000;
    ZeroPadExact(dt.year, 4);
    ZeroPadExact(dt.month, 2);
    ZeroPadExact(dt.day, 2);
    ZeroPadExact(dt.hour, 2);
    ZeroPadExact(dt.minute, 2);
    ZeroPadExact(dt.second, 2);
    StampPieces(ZeroPad(dt.year, 4), ZeroPad(dt.month, 2), ZeroPad(dt.day, 2),
                ZeroPad(dt.hour, 2), ZeroPad(dt.minute, 2), ZeroPad(dt.second, 2));
  }

  /** Where each group of a stamp sits. */
  lemma StampPieces(y: string, mo: string, d: string, h: string, mi: string, s: string)
    requires |y| == 4 && |mo| == 2 && |d| == 2 && |h| == 2 && |mi| == 2 && |s| == 2
    requires AllDigits(y) && AllDigits(mo) && AllDigits(d)
    requires AllDigits(h) && AllDigits(mi) && AllDigits(s)
    ensures var t := y + mo + d + "T" + h + mi + s;
      && |t| == 15 && t[8] == 'T'
      && t[0..4] == y && t[4..6] == mo && t[6..8] == d
      && t[9..11] == h && t[11..13] == mi && t[13..15] == s
      && forall i :: 0 <= i < 15 && i != 8 ==> IsDigit(t[i])
  {
    var t := y + mo + d + "T" + h + mi + s;
    assert t[0..4] == y && t[4..6] == mo && t[6..8] == d;
    assert t[9..11] == h && t[11..13] == mi && t[13..15] == s;
    forall i | 0 <= i < 15 && i != 8
      ensures IsDigit(t[i])
    {
      if i < 4 { assert t[i] == y[i]; }
      else if i < 6 { assert t[i] == mo[i - 4]; }
      else if i < 8 { assert t[i] == d[i - 6]; }
      else if i < 11 { assert t[i] == h[i - 9]; }
      else if i < 13 { assert t[i] == mi[i - 11]; }
      else { assert t[i] == s[i - 13]; }
    }
  }

  /** The stamp of a valid date-time holds no delimiter and no line break. */
  lemma StampPlain(dt: DateTime)
    requires Valid(dt)
    ensures Plain(Stamp(dt)) && '\n' !in Stamp(dt)
  {
    StampLayout(dt);
    var s := Stamp(dt);
    forall i | 0 <= i < |s|
      ensures s[i] != ':' && s[i] != ';' && s[i] != '\n'
    {
      if i != 8 {
        assert IsDigit(s[i]);
      }
    }
  }

  /** A date-time line is the name, the zone parameters and the value in content-line form:
      `NAME:<stamp>` without a zone, `NAME:<stamp>Z` in UTC, and
      `NAME;TZID=<zone>;VALUE=DATE:<stamp>` in any other zone. */
  lemma DateTimeLineParses(name: string, dt: DateTime)
    requires Plain(name) && PlainZone(dt)
    ensures Parse(DateTimeLine(name, dt)) == Some(Line(name, DateTimeParams(dt), DateTimeValue(dt)))
  {
    DateTimeLineCompose(name, dt);
    if dt.zone.Named? {
      assert Plain("TZID=" + dt.zone.name) by {
        assert "TZID=" + dt.zone.name == "TZID=" + dt.zone.name;
      }
    }
    ParseCompose(name, DateTimeParams(dt), DateTimeValue(dt));
  }

  /** The three forms of a date-time line are one content-line shape. */
  lemma DateTimeLineCompose(name: string, dt: DateTime)
    ensures DateTimeLine(name, dt) == Compose(name, DateTimeParams(dt), DateTimeValue(dt))
  {
    match dt.zone
    case Naive =>
    case Utc =>
      assert Stamp(dt) + "Z" == DateTimeValue(dt);
    case Named(z) =>
      ZonedCompose(name, z, Stamp(dt));
  }

  lemma ZonedCompose(name: string, z: string, v: string)
    ensures name + ";TZID=" + z + ";VALUE=DATE:" + v
         == Compose(name, ["TZID=" + z, "VALUE=DATE"], v)
  {
    var parts := [name, "TZID=" + z, "VALUE=DATE"];
    assert [name] + ["TZID=" + z, "VALUE=DATE"] == parts;
    assert parts[1..][1..] == ["VALUE=DATE"];
    assert Join(parts[1..], ";") == ("TZID=" + z) + ";" + "VALUE=DATE";
  }

  /** Whatever the zone is called, a date-time line is called by its property name. */
  lemma DateTimeLineName(name: string, dt: DateTime)
    requires Plain(name)
    ensures NameOf(DateTimeLine(name, dt)) == name
  {
    DateTimeLineCompose(name, dt);
    NameOfCompose(name, DateTimeParams(dt), DateTimeValue(dt));
  }

  // ---------------------------------------------------------------------------
  // Organizer and attendee lines
  // ---------------------------------------------------------------------------

  /** An organizer or attendee: an address and an optional display name. */
  datatype User = User(uri: string, name: Option<string>)

  /** A user line for a role: `ROLE:uri`, or `ROLE;CN=<name>:uri` when a name is set. */
  function UserLine(u: User, role: string): string {
    role + (if u.name.None? then "" else ";CN=" + u.name.value) + ":" + u.uri
  }

  function UserParams(u: User): seq<string> {
    if u.name.None? then [] else ["CN=" + u.name.value]
  }

  /** A user line carries the role as its name, a CN parameter exactly when a display name is
      set (an empty one included), and the address as its value. */
  lemma UserLineParses(u: User, role: string)
    requires Plain(role) && (u.name.Some? ==> Plain(u.name.value))
    ensures Parse(UserLine(u, role)) == Some(Line(role, UserParams(u), u.uri))
  {
    if u.name.Some? {
      assert Plain("CN=" + u.name.value) by {
        assert "CN=" + u.name.value == "CN=" + u.name.value;
      }
      assert Join([role] + UserParams(u), ";") == role + ";" + ("CN=" + u.name.value);
    }
    assert UserLine(u, role) == Compose(role, UserParams(u), u.uri);
    ParseCompose(role, UserParams(u), u.uri);
  }

  /** An empty display name still produces the CN parameter. */
  lemma EmptyNameKeepsCN(uri: string, role: string)
    ensures UserLine(User(uri, Some("")), role) == role + ";CN=:" + uri
    ensures UserLine(User(uri, None), role) == role + ":" + uri
  {
  }

  /** Whatever the display name holds, a user line is called by its role. */
  lemma UserLineName(u: User, role: string)
    requires Plain(role)
    ensures NameOf(UserLine(u, role)) == role
  {
    if u.name.Some? {
      assert Join([role] + UserParams(u), ";") == role + ";" + ("CN=" + u.name.value);
    }
    assert UserLine(u, role) == Compose(role, UserParams(u), u.uri);
    NameOfCompose(role, UserParams(u), u.uri);
  }

  // ---------------------------------------------------------------------------
  // Events
  // ---------------------------------------------------------------------------

  datatype Event = Event(
    uid: string,
    dtstamp: DateTime,
    dtstart: DateTime,
    dtend: Option<DateTime>,
    created: Option<DateTime>,
    lastModified: Option<DateTime>,
    url: Option<string>,
    location: Option<string>,
    summary: Option<string>,
    description: Option<string>,
    sequence: Option<int>,
    transp: Option<string>,
    status: Option<string>,
    priority: Option<int>,
    organizer: Option<User>,
    attendees: seq<User>)

  /** The AttributeError `Event.__str__` raises when LAST-MODIFIED is set but `created` is not. */
  datatype RenderError = MissingCreated

  /** `NAME:value` when the value is set, nothing otherwise. */
  function TextLine(name: string, v: Option<string>): seq<string> {
    if v.Some? then [name + ":" + v.value] else []
  }

  /** A date-time line when the field is set, nothing otherwise. */
  function DateTimePiece(name: string, v: Option<DateTime>): seq<string> {
    if v.Some? then [DateTimeLine(name, v.value)] else []
  }

  /** A user line when the user is set, nothing otherwise. */
  function UserPiece(role: string, v: Option<User>): seq<string> {
    if v.Some? then [UserLine(v.value, role)] else []
  }

  function AttendeeLines(us: seq<User>): (r: seq<string>)
    ensures |r| == |us|
    ensures forall i :: 0 <= i < |us| ==> r[i] == UserLine(us[i], "ATTENDEE")
  {
    if |us| == 0 then [] else [UserLine(us[0], "ATTENDEE")] + AttendeeLines(us[1..])
  }

  /** The free-text and integer properties, in the order they are emitted. */
  const FieldNamesList: seq<string> :=
    ["URL", "LOCATION", "SUMMARY", "DESCRIPTION", "SEQUENCE", "TRANSP", "STATUS", "PRIORITY"]

  /** The decimal text of an optional integer. */
  function IntText(v: Option<int>): Option<string> {
    if v.Some? then Some(IntToString(v.value)) else None
  }

  /** The values those properties are rendered from, position by position; integers are
      rendered in decimal. */
  function FieldsOf(e: Event): (r: seq<Option<string>>)
    ensures |r| == |FieldNamesList|
  {
    [e.url, e.location, e.summary, e.description, IntText(e.sequence), e.transp, e.status,
     IntText(e.priority)]
  }

  /** One `NAME:value` line per set value, in order: the optional lines from URL through
      PRIORITY, each added only when its field is set. */
  function TextLines(ns: seq<string>, vs: seq<Option<string>>): seq<string>
    requires |ns| == |vs|
  {
    if |ns| == 0 then [] else TextLine(ns[0], vs[0]) + TextLines(ns[1..], vs[1..])
  }

  /** UID, DTSTAMP and DTSTART: always present. */
  function HeaderLines(e: Event): seq<string> {
    TextLine("UID", Some(e.uid))
    + DateTimePiece("DTSTAMP", Some(e.dtstamp))
    + DateTimePiece("DTSTART", Some(e.dtstart))
  }

  /** What LAST-MODIFIED is rendered from: `created`, and only when `last_modified` is set. */
  function LastModifiedSource(e: Event): Option<DateTime> {
    if e.lastModified.Some? then e.created else None
  }

  /** DTEND, CREATED and LAST-MODIFIED; the last renders `created`, not `last_modified`. */
  function DateLines(e: Event): seq<string> {
    DateTimePiece("DTEND", e.dtend)
    + DateTimePiece("CREATED", e.created)
    + DateTimePiece("LAST-MODIFIED", LastModifiedSource(e))
  }

  /** URL through PRIORITY. */
  function FieldLines(e: Event): seq<string> {
    TextLines(FieldNamesList, FieldsOf(e))
  }

  /** ORGANIZER, then one ATTENDEE per attendee in list order. */
  function PeopleLines(e: Event): seq<string> {
    UserPiece("ORGANIZER", e.organizer) + AttendeeLines(e.attendees)
  }

  /** The lines `Event.__str__` collects, or the error it raises. */
  function EventLines(e: Event): Result<seq<string>, RenderError> {
    if e.lastModified.Some? && e.created.None? then Err(MissingCreated)
    else Ok(HeaderLines(e) + DateLines(e) + FieldLines(e) + PeopleLines(e))
  }

  const BeginEvent: string := "BEGIN:VEVENT"
  const EndEvent: string := "END:VEVENT"

  /** `str(event)`: the lines between the begin and end markers, joined by `\n`. */
  function EventText(e: Event): Result<string, RenderError> {
    match EventLines(e)
    case Ok(lines) => Ok(BeginEvent + "\n" + Join(lines, "\n") + "\n" + EndEvent)
    case Err(err) => Err(err)
  }

  // ---------------------------------------------------------------------------
  // Line names
  // ---------------------------------------------------------------------------

  const DateNamesList: seq<string> := ["DTEND", "CREATED", "LAST-MODIFIED"]

  /** The optional properties, in the order they are emitted. */
  const OptionalNames: seq<string> := DateNamesList + FieldNamesList + ["ORGANIZER"]

  /** Whether each value is set. */
  function SetFlags<T>(vs: seq<Option<T>>): (r: seq<bool>)
    ensures |r| == |vs|
  {
    if |vs| == 0 then [] else [vs[0].Some?] + SetFlags(vs[1..])
  }

  /** Whether the event sets the field behind each of `OptionalNames`, position by position. */
  function Flags(e: Event): (r: seq<bool>)
    ensures |r| == |OptionalNames|
  {
    [e.dtend.Some?, e.created.Some?, e.lastModified.Some?]
    + SetFlags(FieldsOf(e)) + [e.organizer.Some?]
  }

  /** The names whose flag is set, in their order. */
  function Select(ns: seq<string>, flags: seq<bool>): seq<string>
    requires |ns| == |flags|
  {
    if |ns| == 0 then [] else (if flags[0] then [ns[0]] else []) + Select(ns[1..], flags[1..])
  }

  function Repeat(x: string, n: nat): (r: seq<string>)
    ensures |r| == n && forall i :: 0 <= i < n ==> r[i] == x
  {
    if n == 0 then [] else [x] + Repeat(x, n - 1)
  }

  /** `[n]` when the flag is set, `[]` otherwise. */
  function If(f: bool, n: string): seq<string> {
    if f then [n] else []
  }

  lemma TextLineName(name: string, v: Option<string>)
    requires Plain(name)
    ensures Names(TextLine(name, v)) == If(v.Some?, name)
  {
    if v.Some? {
      assert name + ":" + v.value == name + [':'] + v.value;
      NameOfPrefix(name, ':', v.value);
      NamesSingle(name + ":" + v.value);
    }
  }

  lemma DateTimePieceName(name: string, v: Option<DateTime>)
    requires Plain(name)
    ensures Names(DateTimePiece(name, v)) == If(v.Some?, name)
  {
    if v.Some? {
      DateTimeLineName(name, v.value);
      NamesSingle(DateTimeLine(name, v.value));
    }
  }

  lemma UserPieceName(role: string, v: Option<User>)
    requires Plain(role)
    ensures Names(UserPiece(role, v)) == If(v.Some?, role)
  {
    if v.Some? {
      UserLineName(v.value, role);
      NamesSingle(UserLine(v.value, role));
    }
  }

  lemma {:induction false} AttendeeNames(us: seq<User>)
    ensures Names(AttendeeLines(us)) == Repeat("ATTENDEE", |us|)
    decreases |us|
  {
    if |us| > 0 {
      UserLineName(us[0], "ATTENDEE");
      AttendeeNames(us[1..]);
      NamesSingle(UserLine(us[0], "ATTENDEE"));
      NamesAppend([UserLine(us[0], "ATTENDEE")], AttendeeLines(us[1..]));
    }
  }

  /** Table-driven lines are called by the names whose value is set, in table order. */
  lemma {:induction false} TextLinesNames(ns: seq<string>, vs: seq<Option<string>>)
    requires |ns| == |vs| && forall i :: 0 <= i < |ns| ==> Plain(ns[i])
    ensures Names(TextLines(ns, vs)) == Select(ns, SetFlags(vs))
    decreases |ns|
  {
    if |ns| > 0 {
      TextLineName(ns[0], vs[0]);
      TextLinesNames(ns[1..], vs[1..]);
      NamesAppend(TextLine(ns[0], vs[0]), TextLines(ns[1..], vs[1..]));
      assert SetFlags(vs)[1..] == SetFlags(vs[1..]);
    }
  }

  lemma Names3(p1: seq<string>, p2: seq<string>, p3: seq<string>)
    ensures Names(p1 + p2 + p3) == Names(p1) + Names(p2) + Names(p3)
  {
    NamesAppend(p1, p2);
    NamesAppend(p1 + p2, p3);
  }

  lemma Names4(p1: seq<string>, p2: seq<string>, p3: seq<string>, p4: seq<string>)
    ensures Names(p1 + p2 + p3 + p4) == Names(p1) + Names(p2) + Names(p3) + Names(p4)
  {
    Names3(p1, p2, p3);
    NamesAppend(p1 + p2 + p3, p4);
  }

  lemma HeaderNames(e: Event)
    ensures Names(HeaderLines(e)) == ["UID", "DTSTAMP", "DTSTART"]
  {
    TextLineName("UID", Some(e.uid));
    DateTimePieceName("DTSTAMP", Some(e.dtstamp));
    DateTimePieceName("DTSTART", Some(e.dtstart));
    Names3(TextLine("UID", Some(e.uid)), DateTimePiece("DTSTAMP", Some(e.dtstamp)),
           DateTimePiece("DTSTART", Some(e.dtstart)));
  }

  lemma DateNames(e: Event)
    ensures Names(DateLines(e))
         == If(e.dtend.Some?, "DTEND") + If(e.created.Some?, "CREATED")
          + If(LastModifiedSource(e).Some?, "LAST-MODIFIED")
  {
    DateTimePieceName("DTEND", e.dtend);
    DateTimePieceName("CREATED", e.created);
    DateTimePieceName("LAST-MODIFIED", LastModifiedSource(e));
    Names3(DateTimePiece("DTEND", e.dtend), DateTimePiece("CREATED", e.created),
           DateTimePiece("LAST-MODIFIED", LastModifiedSource(e)));
  }

  lemma FieldNames(e: Event)
    ensures Names(FieldLines(e)) == Select(FieldNamesList, SetFlags(FieldsOf(e)))
  {
    TextLinesNames(FieldNamesList, FieldsOf(e));
  }

  lemma PeopleNames(e: Event)
    ensures Names(PeopleLines(e))
         == If(e.organizer.Some?, "ORGANIZER") + Repeat("ATTENDEE", |e.attendees|)
  {
    UserPieceName("ORGANIZER", e.organizer);
    AttendeeNames(e.attendees);
    NamesAppend(UserPiece("ORGANIZER", e.organizer), AttendeeLines(e.attendees));
  }

  lemma {:induction false} SelectAppend(ns1: seq<string>, fs1: seq<bool>, ns2: seq<string>, fs2: seq<bool>)
    requires |ns1| == |fs1| && |ns2| == |fs2|
    ensures Select(ns1 + ns2, fs1 + fs2) == Select(ns1, fs1) + Select(ns2, fs2)
    decreases |ns1|
  {
    if |ns1| == 0 {
      assert ns1 + ns2 == ns2 && fs1 + fs2 == fs2;
    } else {
      assert (ns1 + ns2)[1..] == ns1[1..] + ns2;
      assert (fs1 + fs2)[1..] == fs1[1..] + fs2;
      SelectAppend(ns1[1..], fs1[1..], ns2, fs2);
    }
  }

  lemma Select1(n: string, f: bool)
    ensures Select([n], [f]) == If(f, n)
  {
    assert [n][1..] == [] && [f][1..] == [];
  }

  lemma Select3(a: string, b: string, c: string, fa: bool, fb: bool, fc: bool)
    ensures Select([a, b, c], [fa, fb, fc]) == If(fa, a) + If(fb, b) + If(fc, c)
  {
    Select1(c, fc);
    assert [a, b, c][1..] == [b, c] && [fa, fb, fc][1..] == [fb, fc];
    assert [b, c][1..] == [c] && [fb, fc][1..] == [fc];
  }

  /** The optional names an event carries, group by group. */
  lemma SelectOptional(e: Event)
    ensures Select(OptionalNames, Flags(e))
         == (If(e.dtend.Some?, "DTEND") + If(e.created.Some?, "CREATED")
             + If(e.lastModified.Some?, "LAST-MODIFIED"))
          + Select(FieldNamesList, SetFlags(FieldsOf(e)))
          + If(e.organizer.Some?, "ORGANIZER")
  {
    var df := [e.dtend.Some?, e.created.Some?, e.lastModified.Some?];
    var ff := SetFlags(FieldsOf(e));
    var of := [e.organizer.Some?];
    SelectAppend(DateNamesList, df, FieldNamesList, ff);
    SelectAppend(DateNamesList + FieldNamesList, df + ff, ["ORGANIZER"], of);
    Select3("DTEND", "CREATED", "LAST-MODIFIED", e.dtend.Some?, e.created.Some?, e.lastModified.Some?);
    Select1("ORGANIZER", e.organizer.Some?);
  }

  lemma Regroup(h: seq<string>, d: seq<string>, f: seq<string>, o: seq<string>, r: seq<string>)
    ensures h + d + f + (o + r) == h + (d + f + o) + r
  {
  }

  /** `Event.__str__` fails exactly when LAST-MODIFIED is set without `created`. Otherwise its
      lines are called UID, DTSTAMP, DTSTART, then each optional property whose field is set,
      in the fixed order of `OptionalNames`, then one ATTENDEE per attendee. */
  lemma EventLineNames(e: Event)
    ensures EventLines(e).Err? <==> e.lastModified.Some? && e.created.None?
    ensures EventLines(e).Ok? ==>
      Names(EventLines(e).value)
      == ["UID", "DTSTAMP", "DTSTART"] + Select(OptionalNames, Flags(e)) + Repeat("ATTENDEE", |e.attendees|)
  {
    if EventLines(e).Ok? {
      HeaderNames(e);
      DateNames(e);
      assert LastModifiedSource(e).Some? == e.lastModified.Some?;
      FieldNames(e);
      PeopleNames(e);
      SelectOptional(e);
      Names4(HeaderLines(e), DateLines(e), FieldLines(e), PeopleLines(e));
      Regroup(Names(HeaderLines(e)), Names(DateLines(e)), Names(FieldLines(e)),
              If(e.organizer.Some?, "ORGANIZER"), Repeat("ATTENDEE", |e.attendees|));
    }
  }

  // ---------------------------------------------------------------------------
  // Values carried by the event lines
  // ---------------------------------------------------------------------------

  function OptList<T>(v: Option<T>): seq<T> {
    if v.Some? then [v.value] else []
  }

  /** The value a TEXT property line contributes under `name`. */
  function TextValue(line: string, v: Option<string>, name: string): seq<string> {
    if line == name && v.Some? then [v.value] else []
  }

  /** The value a date-time line contributes under `name`. */
  function DateValue(line: string, v: Option<DateTime>, name: string): seq<string> {
    if line == name && v.Some? then [DateTimeValue(v.value)] else []
  }

  /** The value a user line contributes under `name`: the address, never the display name. */
  function UserValue(role: string, v: Option<User>, name: string): seq<string> {
    if role == name && v.Some? then [v.value.uri] else []
  }

  function Uris(us: seq<User>): (r: seq<string>)
    ensures |r| == |us| && forall i :: 0 <= i < |us| ==> r[i] == us[i].uri
  {
    if |us| == 0 then [] else [us[0].uri] + Uris(us[1..])
  }

  /** No two positions hold the same name. */
  predicate Distinct(ns: seq<string>) {
    forall i, j :: 0 <= i < j < |ns| ==> ns[i] != ns[j]
  }

  /** A display name that can stand in a parameter without quoting. */
  predicate PlainUser(u: User) {
    u.name.Some? ==> Plain(u.name.value)
  }

  /** Zones and display names the reader can take apart; other values are unrestricted. */
  predicate PlainEvent(e: Event) {
    && PlainZone(e.dtstamp) && PlainZone(e.dtstart)
    && (e.dtend.Some? ==> PlainZone(e.dtend.value))
    && (e.created.Some? ==> PlainZone(e.created.value))
    && (e.organizer.Some? ==> PlainUser(e.organizer.value))
    && forall i :: 0 <= i < |e.attendees| ==> PlainUser(e.attendees[i])
  }

  lemma TextLineValues(line: string, v: Option<string>, name: string)
    requires Plain(line)
    ensures Values(TextLine(line, v), name) == TextValue(line, v, name)
  {
    if v.Some? {
      assert line + ":" + v.value == Compose(line, [], v.value);
      ParseCompose(line, [], v.value);
      ValuesOne(line + ":" + v.value, Line(line, [], v.value), name);
    }
  }

  lemma DateTimePieceValues(line: string, v: Option<DateTime>, name: string)
    requires Plain(line) && (v.Some? ==> PlainZone(v.value))
    ensures Values(DateTimePiece(line, v), name) == DateValue(line, v, name)
  {
    if v.Some? {
      DateTimeLineParses(line, v.value);
      ValuesOne(DateTimeLine(line, v.value),
                Line(line, DateTimeParams(v.value), DateTimeValue(v.value)), name);
    }
  }

  lemma UserPieceValues(role: string, v: Option<User>, name: string)
    requires Plain(role) && (v.Some? ==> PlainUser(v.value))
    ensures Values(UserPiece(role, v), name) == UserValue(role, v, name)
  {
    if v.Some? {
      UserLineParses(v.value, role);
      ValuesOne(UserLine(v.value, role), Line(role, UserParams(v.value), v.value.uri), name);
    }
  }

  lemma {:induction false} AttendeeValues(us: seq<User>, name: string)
    requires forall i :: 0 <= i < |us| ==> PlainUser(us[i])
    ensures Values(AttendeeLines(us), name) == if name == "ATTENDEE" then Uris(us) else []
    decreases |us|
  {
    if |us| > 0 {
      var line := UserLine(us[0], "ATTENDEE");
      UserLineParses(us[0], "ATTENDEE");
      assert AttendeeLines(us) == [line] + AttendeeLines(us[1..]);
      ValuesAppend([line], AttendeeLines(us[1..]), name);
      ValuesOne(line, Line("ATTENDEE", UserParams(us[0]), us[0].uri), name);
      AttendeeValues(us[1..], name);
    }
  }

  /** A name outside the table finds nothing among table-driven lines. */
  lemma {:induction false} TextLinesAbsent(ns: seq<string>, vs: seq<Option<string>>, name: string)
    requires |ns| == |vs| && forall i :: 0 <= i < |ns| ==> Plain(ns[i])
    requires name !in ns
    ensures Values(TextLines(ns, vs), name) == []
    decreases |ns|
  {
    if |ns| > 0 {
      TextLineValues(ns[0], vs[0], name);
      TextLinesAbsent(ns[1..], vs[1..], name);
      ValuesAppend(TextLine(ns[0], vs[0]), TextLines(ns[1..], vs[1..]), name);
    }
  }

  /** Among table-driven lines with distinct names, the k-th name finds exactly the k-th value
      when it is set, and nothing when it is not. */
  lemma {:induction false} TextLinesValue(ns: seq<string>, vs: seq<Option<string>>, k: nat)
    requires |ns| == |vs| && k < |ns| && Distinct(ns)
    requires forall i :: 0 <= i < |ns| ==> Plain(ns[i])
    ensures Values(TextLines(ns, vs), ns[k]) == OptList(vs[k])
    decreases |ns|
  {
    TextLineValues(ns[0], vs[0], ns[k]);
    ValuesAppend(TextLine(ns[0], vs[0]), TextLines(ns[1..], vs[1..]), ns[k]);
    if k == 0 {
      TextLinesAbsent(ns[1..], vs[1..], ns[0]);
    } else {
      TextLinesValue(ns[1..], vs[1..], k - 1);
    }
  }

  lemma HeaderValues(e: Event, name: string)
    requires PlainZone(e.dtstamp) && PlainZone(e.dtstart)
    ensures Values(HeaderLines(e), name)
         == TextValue("UID", Some(e.uid), name) + DateValue("DTSTAMP", Some(e.dtstamp), name)
          + DateValue("DTSTART", Some(e.dtstart), name)
  {
    TextLineValues("UID", Some(e.uid), name);
    DateTimePieceValues("DTSTAMP", Some(e.dtstamp), name);
    DateTimePieceValues("DTSTART", Some(e.dtstart), name);
    Values3(TextLine("UID", Some(e.uid)), DateTimePiece("DTSTAMP", Some(e.dtstamp)),
            DateTimePiece("DTSTART", Some(e.dtstart)), name);
  }

  lemma DateValues(e: Event, name: string)
    requires (e.dtend.Some? ==> PlainZone(e.dtend.value)) && (e.created.Some? ==> PlainZone(e.created.value))
    ensures Values(DateLines(e), name)
         == DateValue("DTEND", e.dtend, name) + DateValue("CREATED", e.created, name)
          + DateValue("LAST-MODIFIED", LastModifiedSource(e), name)
  {
    DateTimePieceValues("DTEND", e.dtend, name);
    DateTimePieceValues("CREATED", e.created, name);
    DateTimePieceValues("LAST-MODIFIED", LastModifiedSource(e), name);
    Values3(DateTimePiece("DTEND", e.dtend), DateTimePiece("CREATED", e.created),
            DateTimePiece("LAST-MODIFIED", LastModifiedSource(e)), name);
  }

  lemma PeopleValues(e: Event, name: string)
    requires e.organizer.Some? ==> PlainUser(e.organizer.value)
    requires forall i :: 0 <= i < |e.attendees| ==> PlainUser(e.attendees[i])
    ensures Values(PeopleLines(e), name)
         == UserValue("ORGANIZER", e.organizer, name)
          + (if name == "ATTENDEE" then Uris(e.attendees) else [])
  {
    UserPieceValues("ORGANIZER", e.organizer, name);
    AttendeeValues(e.attendees, name);
    ValuesAppend(UserPiece("ORGANIZER", e.organizer), AttendeeLines(e.attendees), name);
  }

  lemma FieldNamesPlain()
    ensures Distinct(FieldNamesList)
    ensures forall i :: 0 <= i < |FieldNamesList| ==> Plain(FieldNamesList[i])
  {
  }

  /** What the reader finds under any name in a rendered event, group by group: one value per
      set field, in order, each exactly as stored; LAST-MODIFIED holds the creation stamp;
      ATTENDEE lists the addresses in order. */
  lemma EventValues(e: Event, name: string)
    requires EventLines(e).Ok? && PlainEvent(e)
    ensures Values(EventLines(e).value, name)
         == (TextValue("UID", Some(e.uid), name) + DateValue("DTSTAMP", Some(e.dtstamp), name)
             + DateValue("DTSTART", Some(e.dtstart), name))
          + (DateValue("DTEND", e.dtend, name) + DateValue("CREATED", e.created, name)
             + DateValue("LAST-MODIFIED", LastModifiedSource(e), name))
          + Values(FieldLines(e), name)
          + (UserValue("ORGANIZER", e.organizer, name)
             + (if name == "ATTENDEE" then Uris(e.attendees) else []))
  {
    HeaderValues(e, name);
    DateValues(e, name);
    PeopleValues(e, name);
    Values4(HeaderLines(e), DateLines(e), FieldLines(e), PeopleLines(e), name);
  }

  /** Each TEXT and integer property appears with its field's value verbatim, nothing escaped,
      exactly when the field is set, whatever the rest of the event holds; SEQUENCE and
      PRIORITY carry the decimal form. */
  lemma EventFieldValue(e: Event, k: nat)
    requires EventLines(e).Ok? && k < |FieldNamesList|
    ensures Values(EventLines(e).value, FieldNamesList[k]) == OptList(FieldsOf(e)[k])
  {
    var name := FieldNamesList[k];
    FieldNamesPlain();
    FieldNamesApart(k);
    TextLinesValue(FieldNamesList, FieldsOf(e), k);
    assert name !in Names(HeaderLines(e)) by {
      HeaderNames(e);
    }
    assert name !in Names(DateLines(e)) by {
      DateNames(e);
    }
    assert name !in Names(PeopleLines(e)) by {
      PeopleNames(e);
    }
    OnlyThird(HeaderLines(e), DateLines(e), FieldLines(e), PeopleLines(e), name);
  }

  /** The names of the lines outside URL through PRIORITY. */
  const OtherNames: seq<string> :=
    ["UID", "DTSTAMP", "DTSTART", "DTEND", "CREATED", "LAST-MODIFIED", "ORGANIZER", "ATTENDEE"]

  lemma FieldNamesApart(k: nat)
    requires k < |FieldNamesList|
    ensures FieldNamesList[k] !in OtherNames
  {
  }

  lemma OnlyThird(h: seq<string>, d: seq<string>, f: seq<string>, p: seq<string>, name: string)
    requires name !in Names(h) && name !in Names(d) && name !in Names(p)
    ensures Values(h + d + f + p, name) == Values(f, name)
  {
    ValuesAbsent(h, name);
    ValuesAbsent(d, name);
    ValuesAbsent(p, name);
    Values4(h, d, f, p, name);
  }

  // ---------------------------------------------------------------------------
  // The VEVENT text
  // ---------------------------------------------------------------------------

  /** No line holds a line break of its own. */
  predicate NoBreaks(lines: seq<string>) {
    forall i :: 0 <= i < |lines| ==> '\n' !in lines[i]
  }

  lemma EventTextJoin(e: Event)
    requires EventLines(e).Ok?
    ensures EventText(e).value == Join([BeginEvent] + EventLines(e).value + [EndEvent], "\n")
  {
    var lines := EventLines(e).value;
    assert |HeaderLines(e)| == 3;
    JoinAppend([BeginEvent], lines, "\n");
    JoinAppend([BeginEvent] + lines, [EndEvent], "\n");
  }

  /** Splitting `str(event)` at line breaks gives back BEGIN, the property lines and END
      exactly when no property line holds a line break of its own. */
  lemma EventTextSplit(e: Event)
    requires EventLines(e).Ok?
    ensures Split(EventText(e).value, '\n') == [BeginEvent] + EventLines(e).value + [EndEvent]
        <==> NoBreaks(EventLines(e).value)
  {
    var lines := EventLines(e).value;
    var all := [BeginEvent] + lines + [EndEvent];
    EventTextJoin(e);
    if NoBreaks(lines) {
      forall i | 0 <= i < |all|
        ensures '\n' !in all[i]
      {
        if 0 < i < |all| - 1 {
          assert all[i] == lines[i - 1];
        }
      }
      SplitJoin(all, '\n');
    }
    if Split(EventText(e).value, '\n') == all {
      SplitPiecesFree(EventText(e).value, '\n');
      forall i | 0 <= i < |lines|
        ensures '\n' !in lines[i]
      {
        assert lines[i] == all[i + 1];
      }
    }
  }

  /** Values are not escaped, so a description holding a line break splits its line in two. */
  lemma DescriptionBreaksText(e: Event)
    requires EventLines(e).Ok? && e.description.Some? && '\n' in e.description.value
    ensures !NoBreaks(EventLines(e).value)
    ensures Split(EventText(e).value, '\n') != [BeginEvent] + EventLines(e).value + [EndEvent]
  {
    var lines := EventLines(e).value;
    EventFieldValue(e, 3);
    assert Values(lines, "DESCRIPTION") == [e.description.value];
    BreakInValue(lines, "DESCRIPTION");
    EventTextSplit(e);
  }

  lemma BreakInValue(lines: seq<string>, name: string)
    requires |Values(lines, name)| > 0 && '\n' in Values(lines, name)[0]
    ensures !NoBreaks(lines)
  {
    ValueCharInLine(lines, name, 0, '\n');
  }
}
