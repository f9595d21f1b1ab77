/** `clickup_to_ical/web/__init__.py`: the decisions `get_calendar` takes for one request —
    whom the token identifies, which tasks and dates become events, and what each event
    holds — and the calendar it answers with.

    Flask, logging and the foreign libraries are not part of this model: the request is a
    record of optional strings, the stores are snapshots, and `uuid3` and the markdown to text
    conversion are functions passed in. */
module Route {
  import opened Base
  import opened Seqs
  import opened Text
  import opened Host
  import opened DateTimes
  import opened ContentLine
  import opened Events
  import opened Calendars
  import opened ThreadingDicts
  import opened Stores

  // ---------------------------------------------------------------------------
  // Requests and replies
  // ---------------------------------------------------------------------------

  /** The parts of the request the route reads: the Authorization header, if sent, and the
      query arguments. */
  datatype Request = Request(authorization: Option<string>, args: map<string, string>)

  /** The query argument of that name, if the request carries one. */
  function Arg(r: Request, name: string): Option<string> {
    if name in r.args then Some(r.args[name]) else None
  }

  /** The route's answer: a status and a body, or an exception that escapes the handler
      (Flask turns it into a server error). */
  datatype Reply = Reply(status: int, body: string) | Crashed(failure: Failure)

  /** The exceptions building an event can raise: converting a missing creation date to a
      number, and OverflowError when the end time leaves years 1..9999. */
  datatype Failure = NoCreationDate | EndOutOfRange

  /** The functions the route calls in foreign libraries, and the package version. */
  datatype Foreign = Foreign(uuid: string -> string, plainText: string -> string, version: string)

  // ---------------------------------------------------------------------------
  // Authorization
  // ---------------------------------------------------------------------------

  const NoKeyMessage: string := "Unauthorized: No auth key provided in header"
  const UnknownKeyMessage: string := "Unauthorized: Key not recognized"

  datatype Authorization = Denied(message: string) | Granted(user: UserId)

  /** The token: the Authorization header when the request sends one, even an empty one,
      and otherwise the `token` query argument. */
  function AuthKey(r: Request): (key: Option<string>)
    ensures r.authorization.Some? ==> key == r.authorization
    ensures r.authorization.None? ==> key == Arg(r, "token")
  {
    if r.authorization.Some? then r.authorization else Arg(r, "token")
  }

  /** A missing or empty token is refused before the store is consulted; a token the auth
      store maps to nothing (absent, or mapped to null) is not recognised. */
  function Authorize(r: Request, auth: ThreadingDict<string, Option<UserId>>): (a: Authorization)
    ensures a == Denied(NoKeyMessage) <==> AuthKey(r).None? || AuthKey(r) == Some("")
    ensures a == Denied(UnknownKeyMessage) <==>
      AuthKey(r).Some? && AuthKey(r) != Some("") && GetItem(auth, AuthKey(r).value).Err?
    ensures a.Granted? <==> AuthKey(r).Some? && AuthKey(r) != Some("") && GetItem(auth, AuthKey(r).value).Ok?
    ensures a.Granted? ==> GetItem(auth, AuthKey(r).value) == Ok(a.user)
  {
    var key := AuthKey(r);
    if key.None? || key.value == "" then Denied(NoKeyMessage)
    else
      match Get(auth, key.value, None)
      case None => Denied(UnknownKeyMessage)
      case Some(u) => Granted(u)
  }

  /** An Authorization header that is sent shadows the `token` argument, even when it is
      empty and the argument would be recognised. */
  lemma HeaderShadowsToken(r: Request, auth: ThreadingDict<string, Option<UserId>>)
    requires r.authorization == Some("")
    ensures Authorize(r, auth) == Denied(NoKeyMessage)
  {
  }

  // ---------------------------------------------------------------------------
  // Query switches
  // ---------------------------------------------------------------------------

  /** `date_type_filter`: every date without `date_types`, otherwise the names whose lower
      case is one of the comma-separated entries, each stripped and lower-cased. */
  datatype DateFilter = AllDates | OnlyDates(allowed: seq<string>)

  function Entries(pieces: seq<string>): (r: seq<string>)
    ensures |r| == |pieces|
    ensures forall i :: 0 <= i < |pieces| ==> r[i] == Lower(Strip(pieces[i]))
  {
    seq(|pieces|, i requires 0 <= i < |pieces| => Lower(Strip(pieces[i])))
  }

  function ParseDateTypes(arg: Option<string>): DateFilter {
    match arg
    case None => AllDates
    case Some(s) => OnlyDates(Entries(Split(s, ',')))
  }

  predicate Allowed(f: DateFilter, name: string) {
    match f
    case AllDates => true
    case OnlyDates(allowed) => Lower(name) in allowed
  }

  /** A name passes exactly when it matches, ignoring case, one of the comma-separated
      entries with its surrounding whitespace removed. */
  lemma DateFilterSpec(s: string, name: string)
    ensures Allowed(ParseDateTypes(Some(s)), name) <==>
      exists i :: 0 <= i < |Split(s, ',')| && Lower(Strip(Split(s, ',')[i])) == Lower(name)
  {
    assert ParseDateTypes(Some(s)) == OnlyDates(Entries(Split(s, ',')));
    EntriesHave(Split(s, ','), Lower(name));
  }

  lemma EntriesHave(pieces: seq<string>, x: string)
    ensures x in Entries(pieces) <==> exists i :: 0 <= i < |pieces| && Lower(Strip(pieces[i])) == x
  {
    var es := Entries(pieces);
    if x in es {
      var i :| 0 <= i < |es| && es[i] == x;
      assert Lower(Strip(pieces[i])) == x;
    }
    forall i | 0 <= i < |pieces| && Lower(Strip(pieces[i])) == x
      ensures x in es
    {
      assert es[i] == x;
    }
  }

  /** The filter does not see case: a name passes exactly when its lower-cased form does. */
  lemma DateFilterIgnoresCase(f: DateFilter, name: string)
    ensures Allowed(f, name) <==> Allowed(f, Lower(name))
  {
    LowerTwice(name);
  }

  /** No entry can hold a comma, so a date name with a comma never passes a `date_types`
      filter. */
  lemma CommaNeverAllowed(s: string, name: string)
    requires ',' in name
    ensures !Allowed(ParseDateTypes(Some(s)), name)
  {
    var pieces := Split(s, ',');
    LowerHas(name, ',');
    SplitPiecesFree(s, ',');
    forall i | 0 <= i < |pieces|
      ensures ',' !in Lower(Strip(pieces[i]))
    {
      StripWithin(pieces[i], ',');
      LowerHas(Strip(pieces[i]), ',');
    }
  }

  /** `only_assigned`, default "true", lower-cased before the comparison. */
  predicate OnlyAssigned(r: Request) {
    IsTrue(Lower(Arg(r, "only_assigned").GetOr("true")))
  }

  /** `include_closed`, default "false", compared as written. */
  predicate IncludeClosed(r: Request) {
    IsTrue(Arg(r, "include_closed").GetOr("false"))
  }

  /** Without arguments the route serves the user's own tasks and skips closed ones; a
      capitalised `TRUE` still switches `only_assigned` on, but a capitalised `True` leaves
      `include_closed` off. */
  lemma SwitchDefaults(r: Request)
    ensures "only_assigned" !in r.args ==> OnlyAssigned(r)
    ensures "include_closed" !in r.args ==> !IncludeClosed(r)
    ensures Arg(r, "only_assigned") == Some("TRUE") ==> OnlyAssigned(r)
    ensures Arg(r, "include_closed") == Some("True") ==> !IncludeClosed(r)
  {
    assert Lower("true") == "true";
    assert Lower("TRUE") == "true";
  }

  /** The task list the route starts from: the user's own under their id, or every task
      under None; either is empty when the index has no such key. */
  function AssignedTasks(r: Request, user: UserId, tasks: ThreadingDict<Option<UserId>, seq<Task>>): (ts: seq<Task>)
    ensures OnlyAssigned(r) ==> ts == Get(tasks, Some(user), [])
    ensures !OnlyAssigned(r) ==> ts == Get(tasks, None, [])
  {
    Get(tasks, if OnlyAssigned(r) then Some(user) else None, [])
  }

  /** When the task store holds the index of a fetch, the route starts from exactly the
      tasks the index files under the chosen key. */
  lemma AssignedFromFetch(r: Request, user: UserId, fetched: seq<Task>, freq: Option<int>)
    ensures var tasks := ThreadingDict(Group(fetched), freq);
      AssignedTasks(r, user, tasks) == Under(fetched, if OnlyAssigned(r) then Some(user) else None)
  {
    GroupUnder(fetched, if OnlyAssigned(r) then Some(user) else None);
  }

  /** The tasks the route walks through: the open ones, or all of them with `include_closed`,
      in list order. */
  function Visible(ts: seq<Task>, includeClosed: bool): (r: seq<Task>)
    ensures |r| <= |ts|
    ensures forall i :: 0 <= i < |r| ==> r[i] in ts && (includeClosed || r[i].open)
    ensures forall t :: t in ts && (includeClosed || t.open) ==> t in r
    ensures includeClosed ==> r == ts
    decreases |ts|
  {
    if |ts| == 0 then []
    else if includeClosed || ts[0].open then [ts[0]] + Visible(ts[1..], includeClosed)
    else Visible(ts[1..], includeClosed)
  }

  /** Which tasks the route walks through, position by position. */
  function OpenMarks(ts: seq<Task>, includeClosed: bool): (m: seq<bool>)
    ensures |m| == |ts|
    ensures forall i :: 0 <= i < |ts| ==> (m[i] <==> includeClosed || ts[i].open)
  {
    seq(|ts|, i requires 0 <= i < |ts| => includeClosed || ts[i].open)
  }

  /** The route walks the kept tasks in list order, each as often as it is listed: the
      result is the list at exactly the positions of the open tasks, or at every position
      with `include_closed`. */
  lemma {:induction false} VisibleOrder(ts: seq<Task>, includeClosed: bool)
    ensures KeptAt(Visible(ts, includeClosed), ts, OpenMarks(ts, includeClosed))
    decreases |ts|
  {
    var m := OpenMarks(ts, includeClosed);
    if |ts| == 0 {
      KeptNone(ts, m);
    } else {
      VisibleOrder(ts[1..], includeClosed);
      assert OpenMarks(ts[1..], includeClosed) == m[1..];
      KeptCons(Visible(ts[1..], includeClosed), ts, m);
    }
  }

  // ---------------------------------------------------------------------------
  // One event per chosen date
  // ---------------------------------------------------------------------------

  /** The date name without a leading `__`, when it has one. */
  function RealName(name: string): (r: string)
    ensures StartsWith(name, "__") ==> name == "__" + r
    ensures !StartsWith(name, "__") ==> r == name
  {
    if StartsWith(name, "__") then name[2..] else name
  }

  /** Only one leading `__` is dropped. */
  lemma RealNameOnce(x: string)
    ensures RealName("____" + x) == "__" + x
    ensures StartsWith("_" + x, "__") <==> StartsWith(x, "_")
  {
    assert ("____" + x)[..2] == "__";
    assert ("____" + x)[2..] == "__" + x;
    if |x| > 0 {
      var y := "_" + x;
      assert y[..2] == "_" + x[..1];
      if y[..2] == "__" {
        assert x[..1] == y[..2][1..];
      }
      if x[..1] == "_" {
        assert y[..2] == "__";
      }
    }
  }

  /** The member with the given id as the route's id-keyed dictionary of members finds it:
      a later member overwrites an earlier one with the same id, so the last one wins. */
  function MemberById(ms: seq<Member>, id: UserId): (r: Option<Member>)
    ensures r.None? <==> forall i :: 0 <= i < |ms| ==> ms[i].id != id
    ensures r.Some? ==> r.value.id == id
    ensures r.Some? ==> exists i :: 0 <= i < |ms| && ms[i] == r.value && (forall j :: i < j < |ms| ==> ms[j].id != id)
    decreases |ms|
  {
    if |ms| == 0 then None
    else if ms[|ms| - 1].id == id then Some(ms[|ms| - 1])
    else MemberById(ms[..|ms| - 1], id)
  }

  /** The organizer: the creator, when they are a member with a non-empty email. */
  function Organizer(t: Task): (u: Option<User>)
    ensures u.Some? <==> MemberById(t.members, t.creator).Some? && MemberById(t.members, t.creator).value.email != ""
    ensures u.Some? ==> u.value.name == Some(MemberById(t.members, t.creator).value.username)
    ensures u.Some? ==> u.value.uri == "mailto:" + MemberById(t.members, t.creator).value.email
  {
    match MemberById(t.members, t.creator)
    case Some(m) => if m.email != "" then Some(User("mailto:" + m.email, Some(m.username))) else None
    case None => None
  }

  function AsAttendee(m: Member): User {
    User("mailto:" + m.email, Some(m.username))
  }

  /** One attendee per assignee, in order, each named and addressed by mail. */
  function Attendees(t: Task): (us: seq<User>)
    ensures |us| == |t.assigneeMembers|
    ensures forall i :: 0 <= i < |us| ==>
      us[i].uri == "mailto:" + t.assigneeMembers[i].email && us[i].name == Some(t.assigneeMembers[i].username)
  {
    seq(|t.assigneeMembers|, i requires 0 <= i < |t.assigneeMembers| => AsAttendee(t.assigneeMembers[i]))
  }

  /** The description: the markdown converted to text when there is a non-empty one. */
  function TaskDescription(t: Task, f: Foreign): (d: Option<string>)
    ensures d.Some? <==> t.markdown.Some? && |t.markdown.value| > 0
    ensures d.Some? ==> d.value == f.plainText(t.markdown.value)
  {
    if t.markdown.Some? && |t.markdown.value| > 0 then Some(f.plainText(t.markdown.value)) else None
  }

  /** The end-time offset: the configured length for the real name, or zero. */
  function EventLength(lengths: ThreadingDict<string, int>, realName: string): int {
    Get(lengths, realName, 0)
  }

  /** The event for one date of a task. */
  function DateEvent(t: Task, name: string, dt: DateTime, lengths: ThreadingDict<string, int>, f: Foreign): (r: Result<Event, Failure>)
    requires Valid(dt)
    ensures r.Ok? <==> t.created.Some? && 0 <= Seconds(dt) + EventLength(lengths, RealName(name)) < SecondsLimit()
    ensures r.Err? && t.created.None? ==> r.error == NoCreationDate
    ensures r.Ok? ==> r.value.dtend.Some? && Valid(r.value.dtend.value) && r.value.dtend.value.zone == dt.zone
    ensures r.Ok? ==> Seconds(r.value.dtend.value) == Seconds(dt) + EventLength(lengths, RealName(name))
    ensures r.Ok? ==> r.value.dtstart == dt && r.value.lastModified.None?
    ensures r.Ok? ==> r.value.dtstamp == t.created.value
    ensures r.Ok? ==> r.value.uid == f.uuid(t.id + "-" + name)
    ensures r.Ok? ==> r.value.url == t.url && r.value.priority == t.priority
    ensures r.Ok? ==> r.value.summary == Some(t.name + " - " + RealName(name))
    ensures r.Ok? ==> r.value.description == TaskDescription(t, f)
    ensures r.Ok? ==> r.value.organizer == Organizer(t) && r.value.attendees == Attendees(t)
    ensures r.Ok? ==> r.value.created.None? && r.value.location.None? && r.value.sequence.None?
                      && r.value.transp.None? && r.value.status.None?
  {
    if t.created.None? then Err(NoCreationDate)
    else
      match AddSeconds(dt, EventLength(lengths, RealName(name)))
      case Err(_) => Err(EndOutOfRange)
      case Ok(dtend) =>
        Ok(Event(
          uid := f.uuid(t.id + "-" + name),
          dtstamp := t.created.value,
          dtstart := dt,
          dtend := Some(dtend),
          created := None,
          lastModified := None,
          url := t.url,
          location := None,
          summary := Some(t.name + " - " + RealName(name)),
          description := TaskDescription(t, f),
          sequence := None,
          transp := None,
          status := None,
          priority := t.priority,
          organizer := Organizer(t),
          attendees := Attendees(t)))
  }

  predicate ValidDates(dates: seq<(string, DateTime)>) {
    forall i :: 0 <= i < |dates| ==> Valid(dates[i].1)
  }

  /** The dates of a task that pass the filter, in dictionary order. */
  function Chosen(dates: seq<(string, DateTime)>, filter: DateFilter): (r: seq<(string, DateTime)>)
    ensures forall i :: 0 <= i < |r| ==> r[i] in dates && Allowed(filter, r[i].0)
    ensures forall d :: d in dates && Allowed(filter, d.0) ==> d in r
    ensures filter == AllDates ==> r == dates
    decreases |dates|
  {
    if |dates| == 0 then []
    else if Allowed(filter, dates[0].0) then [dates[0]] + Chosen(dates[1..], filter)
    else Chosen(dates[1..], filter)
  }

  lemma ChosenValid(dates: seq<(string, DateTime)>, filter: DateFilter)
    requires ValidDates(dates)
    ensures ValidDates(Chosen(dates, filter))
  {
    var cs := Chosen(dates, filter);
    forall i | 0 <= i < |cs|
      ensures Valid(cs[i].1)
    {
      var j :| 0 <= j < |dates| && dates[j] == cs[i];
    }
  }

  /** Which dates pass the filter, position by position. */
  function AllowedMarks(dates: seq<(string, DateTime)>, filter: DateFilter): (m: seq<bool>)
    ensures |m| == |dates|
    ensures forall i :: 0 <= i < |dates| ==> (m[i] <==> Allowed(filter, dates[i].0))
  {
    seq(|dates|, i requires 0 <= i < |dates| => Allowed(filter, dates[i].0))
  }

  /** The chosen dates keep the dictionary's order and multiplicity: they are the dates at
      exactly the positions whose names pass the filter. */
  lemma {:induction false} ChosenOrder(dates: seq<(string, DateTime)>, filter: DateFilter)
    ensures KeptAt(Chosen(dates, filter), dates, AllowedMarks(dates, filter))
    decreases |dates|
  {
    var m := AllowedMarks(dates, filter);
    if |dates| == 0 {
      KeptNone(dates, m);
    } else {
      ChosenOrder(dates[1..], filter);
      assert AllowedMarks(dates[1..], filter) == m[1..];
      KeptCons(Chosen(dates[1..], filter), dates, m);
    }
  }

  /** A date name with no configured length gives an event that ends when it starts. */
  lemma NoLengthEndsAtStart(t: Task, name: string, dt: DateTime, lengths: ThreadingDict<string, int>, f: Foreign)
    requires Valid(dt) && t.created.Some? && RealName(name) !in lengths.data
    ensures DateEvent(t, name, dt, lengths, f).Ok?
    ensures DateEvent(t, name, dt, lengths, f).value.dtend == Some(dt)
  {
    AddZero(dt);
  }

  /** Each chosen date's own outcome, in order. */
  function PerDate(t: Task, cs: seq<(string, DateTime)>, lengths: ThreadingDict<string, int>, f: Foreign): (rs: seq<Result<Event, Failure>>)
    requires ValidDates(cs)
    ensures |rs| == |cs|
    ensures forall i :: 0 <= i < |cs| ==> rs[i] == DateEvent(t, cs[i].0, cs[i].1, lengths, f)
  {
    seq(|cs|, i requires 0 <= i < |cs| => DateEvent(t, cs[i].0, cs[i].1, lengths, f))
  }

  /** The events of the chosen dates, date by date, or the first failure. */
  function Build(t: Task, cs: seq<(string, DateTime)>, lengths: ThreadingDict<string, int>, f: Foreign): Result<seq<Event>, Failure>
    requires ValidDates(cs)
  {
    Collect(PerDate(t, cs, lengths, f))
  }

  /** Building fails exactly when one of the dates does. */
  lemma BuildOk(t: Task, cs: seq<(string, DateTime)>, lengths: ThreadingDict<string, int>, f: Foreign)
    requires ValidDates(cs)
    ensures Build(t, cs, lengths, f).Ok? <==> forall i :: 0 <= i < |cs| ==> DateEvent(t, cs[i].0, cs[i].1, lengths, f).Ok?
  {
    CollectOk(PerDate(t, cs, lengths, f));
  }

  /** A successful build gives one event per date, in order, each built from that date. */
  lemma BuildEach(t: Task, cs: seq<(string, DateTime)>, lengths: ThreadingDict<string, int>, f: Foreign)
    requires ValidDates(cs) && Build(t, cs, lengths, f).Ok?
    ensures |Build(t, cs, lengths, f).value| == |cs|
    ensures forall i :: 0 <= i < |cs| ==>
      Ok(Build(t, cs, lengths, f).value[i]) == DateEvent(t, cs[i].0, cs[i].1, lengths, f)
  {
    CollectEach(PerDate(t, cs, lengths, f));
  }

  /** The events of one task: one per date that passes the filter, in dictionary order. */
  function DatesEvents(t: Task, dates: seq<(string, DateTime)>, filter: DateFilter,
                       lengths: ThreadingDict<string, int>, f: Foreign): Result<seq<Event>, Failure>
    requires ValidDates(dates)
  {
    ChosenValid(dates, filter);
    Build(t, Chosen(dates, filter), lengths, f)
  }

  /** Every event built renders, as none of them sets LAST-MODIFIED, and each is stamped
      with the task's creation date. */
  lemma BuildRenders(t: Task, cs: seq<(string, DateTime)>, lengths: ThreadingDict<string, int>, f: Foreign)
    requires ValidDates(cs)
    requires Build(t, cs, lengths, f).Ok?
    ensures forall i :: 0 <= i < |Build(t, cs, lengths, f).value| ==>
      Build(t, cs, lengths, f).value[i].lastModified.None?
      && t.created.Some? && Build(t, cs, lengths, f).value[i].dtstamp == t.created.value
  {
    BuildEach(t, cs, lengths, f);
  }

  /** What every fetched task satisfies: its dates are valid date-times, and its creation
      date, when it has one, is a valid UTC date-time (the milliseconds since the epoch are
      converted in UTC). */
  predicate ValidTask(t: Task) {
    ValidDates(t.dates) && (t.created.Some? ==> Valid(t.created.value) && t.created.value.zone == Utc)
  }

  predicate ValidTasks(ts: seq<Task>) {
    forall i :: 0 <= i < |ts| ==> ValidTask(ts[i])
  }

  /** The route's work for one task: the events of its dates. */
  function EventsOf(filter: DateFilter, lengths: ThreadingDict<string, int>, f: Foreign): Task --> Result<seq<Event>, Failure>
  {
    (t: Task) requires ValidDates(t.dates) => DatesEvents(t, t.dates, filter, lengths, f)
  }

  /** All events, task by task and within a task date by date, or the first failure. */
  function TasksEvents(ts: seq<Task>, filter: DateFilter, lengths: ThreadingDict<string, int>, f: Foreign): Result<seq<Event>, Failure>
    requires ValidTasks(ts)
  {
    Gather(Map(ts, EventsOf(filter, lengths, f)))
  }

  /** The events of two runs of tasks are those of the first run followed by those of the
      second: tasks contribute their events in list order. */
  lemma TasksEventsAppend(a: seq<Task>, b: seq<Task>, filter: DateFilter,
                          lengths: ThreadingDict<string, int>, f: Foreign)
    requires ValidTasks(a) && ValidTasks(b)
    ensures ValidTasks(a + b)
    ensures TasksEvents(a + b, filter, lengths, f).Ok? <==>
      TasksEvents(a, filter, lengths, f).Ok? && TasksEvents(b, filter, lengths, f).Ok?
    ensures TasksEvents(a + b, filter, lengths, f).Ok? ==>
      TasksEvents(a + b, filter, lengths, f).value
      == TasksEvents(a, filter, lengths, f).value + TasksEvents(b, filter, lengths, f).value
  {
    var g := EventsOf(filter, lengths, f);
    MapAppend(a, b, g);
    GatherAppend(Map(a, g), Map(b, g));
  }

  /** Every event the route builds renders, since none of them sets LAST-MODIFIED, and its
      DTSTAMP is a valid UTC date-time, so it is written with a trailing `Z`. */
  lemma TasksEventsRender(ts: seq<Task>, filter: DateFilter, lengths: ThreadingDict<string, int>, f: Foreign)
    requires ValidTasks(ts)
    requires TasksEvents(ts, filter, lengths, f).Ok?
    ensures forall j :: 0 <= j < |TasksEvents(ts, filter, lengths, f).value| ==>
      TasksEvents(ts, filter, lengths, f).value[j].lastModified.None?
      && Valid(TasksEvents(ts, filter, lengths, f).value[j].dtstamp)
      && TasksEvents(ts, filter, lengths, f).value[j].dtstamp.zone == Utc
  {
    var rs := Map(ts, EventsOf(filter, lengths, f));
    forall j | 0 <= j < |Gather(rs).value|
      ensures Gather(rs).value[j].lastModified.None?
      ensures Valid(Gather(rs).value[j].dtstamp) && Gather(rs).value[j].dtstamp.zone == Utc
    {
      GatherFrom(rs, j);
      var i, k :| 0 <= i < |rs| && rs[i].Ok? && 0 <= k < |rs[i].value| && Gather(rs).value[j] == rs[i].value[k];
      ChosenValid(ts[i].dates, filter);
      BuildRenders(ts[i], Chosen(ts[i].dates, filter), lengths, f);
    }
  }

  // ---------------------------------------------------------------------------
  // The calendar and the reply
  // ---------------------------------------------------------------------------

  const CalendarTitle: string := "ClickupToIcal Calendar"

  function Prodid(version: string): string {
    "-//CLICKUP-TO-ICAL-CONVERTER//github.com/RedRem95/clickup_to_ical//" + version + "//"
  }

  /** A boolean as the log writes it: `True` or `False`. */
  function BoolText(b: bool): string {
    if b then "True" else "False"
  }

  function Quoted(xs: seq<string>): (r: seq<string>)
    ensures |r| == |xs|
    ensures forall i :: 0 <= i < |xs| ==> r[i] == "\"" + xs[i] + "\""
  {
    seq(|xs|, i requires 0 <= i < |xs| => "\"" + xs[i] + "\"")
  }

  /** The request log, one `key: value` entry per decision, in the order they are taken. */
  function LogLines(user: UserId, filter: DateFilter, onlyAssigned: bool, includeClosed: bool): seq<string> {
    ["user id: " + IntToString(user),
     "event types: " + (match filter
                        case AllDates => "all"
                        case OnlyDates(a) => "[" + Join(Quoted(a), ", ") + "]"),
     "assignees: " + (if onlyAssigned then IntToString(user) else "all"),
     "closed included: " + BoolText(includeClosed)]
  }

  /** The calendar description: the title, then the request log. */
  function CalendarDescription(log: seq<string>): string {
    CalendarTitle + "\n" + Join(log, "\n")
  }

  function RouteCalendar(version: string, description: string, events: seq<Event>): Calendar {
    Calendar(
      version := "2.0",
      prodid := Prodid(version),
      calMethod := None,
      calscale := None,
      name := Some(CalendarTitle),
      description := Some(description),
      ttl := None,
      events := events)
  }

  /** The index snapshot holds well-formed date-times only, as Python's datetime objects are. */
  predicate ValidIndex(tasks: ThreadingDict<Option<UserId>, seq<Task>>) {
    forall k :: k in tasks.data ==> ValidTasks(tasks.data[k])
  }

  lemma VisibleValid(ts: seq<Task>, includeClosed: bool)
    requires ValidTasks(ts)
    ensures ValidTasks(Visible(ts, includeClosed))
  {
    var vs := Visible(ts, includeClosed);
    forall i | 0 <= i < |vs|
      ensures ValidDates(vs[i].dates)
    {
      var j :| 0 <= j < |ts| && ts[j] == vs[i];
    }
  }

  /** The events of a granted request. */
  function RequestEvents(r: Request, user: UserId, tasks: ThreadingDict<Option<UserId>, seq<Task>>,
                         lengths: ThreadingDict<string, int>, f: Foreign): Result<seq<Event>, Failure>
    requires ValidIndex(tasks)
  {
    var ts := AssignedTasks(r, user, tasks);
    assert ValidTasks(ts) by {
      var key := if OnlyAssigned(r) then Some(user) else None;
      if key !in tasks.data {
        assert ts == [];
      }
    }
    VisibleValid(ts, IncludeClosed(r));
    TasksEvents(Visible(ts, IncludeClosed(r)), ParseDateTypes(Arg(r, "date_types")), lengths, f)
  }

  /** The calendar served for a granted request and its events. */
  function RequestCalendar(r: Request, user: UserId, events: seq<Event>, f: Foreign): Calendar {
    var log := LogLines(user, ParseDateTypes(Arg(r, "date_types")), OnlyAssigned(r), IncludeClosed(r));
    RouteCalendar(f.version, CalendarDescription(log), events)
  }

  /** The reply to a calendar request: 401 with the refusal, a crash when an event cannot be
      built, otherwise 200 with the rendered calendar. */
  function GetCalendar(r: Request, auth: ThreadingDict<string, Option<UserId>>,
                       tasks: ThreadingDict<Option<UserId>, seq<Task>>,
                       lengths: ThreadingDict<string, int>, f: Foreign): (reply: Reply)
    requires ValidIndex(tasks)
    ensures reply.Reply? && reply.status == 401 <==> Authorize(r, auth).Denied?
    ensures reply.Reply? && reply.status == 401 ==> reply.body == Authorize(r, auth).message
    ensures reply.Crashed? <==>
      Authorize(r, auth).Granted? && RequestEvents(r, Authorize(r, auth).user, tasks, lengths, f).Err?
    ensures reply.Reply? && reply.status != 401 ==> reply.status == 200
    ensures reply.Reply? && reply.status == 200 ==>
      Authorize(r, auth).Granted? && RequestEvents(r, Authorize(r, auth).user, tasks, lengths, f).Ok?
      && CalendarText(RequestCalendar(r, Authorize(r, auth).user,
                                      RequestEvents(r, Authorize(r, auth).user, tasks, lengths, f).value, f))
         == Ok(reply.body)
  {
    match Authorize(r, auth)
    case Denied(message) => Reply(401, message)
    case Granted(user) =>
      match RequestEvents(r, user, tasks, lengths, f)
      case Err(e) => Crashed(e)
      case Ok(events) =>
        var c := RequestCalendar(r, user, events, f);
        RequestEventsRender(r, user, tasks, lengths, f);
        CalendarRenders(c);
        Reply(200, CalendarText(c).value)
  }

  /** Every event the route builds renders, since none of them sets LAST-MODIFIED. */
  lemma RequestEventsRender(r: Request, user: UserId, tasks: ThreadingDict<Option<UserId>, seq<Task>>,
                            lengths: ThreadingDict<string, int>, f: Foreign)
    requires ValidIndex(tasks)
    requires RequestEvents(r, user, tasks, lengths, f).Ok?
    ensures forall i :: 0 <= i < |RequestEvents(r, user, tasks, lengths, f).value| ==>
      EventLines(RequestEvents(r, user, tasks, lengths, f).value[i]).Ok?
      && RequestEvents(r, user, tasks, lengths, f).value[i].dtstamp.zone == Utc
  {
    var ts := AssignedTasks(r, user, tasks);
    assert ValidTasks(ts) by {
      var key := if OnlyAssigned(r) then Some(user) else None;
      if key !in tasks.data {
        assert ts == [];
      }
    }
    VisibleValid(ts, IncludeClosed(r));
    TasksEventsRender(Visible(ts, IncludeClosed(r)), ParseDateTypes(Arg(r, "date_types")), lengths, f);
  }

  // ---------------------------------------------------------------------------
  // What the served calendar and its events hold
  // ---------------------------------------------------------------------------

  /** The served calendar announces version 2.0, the converter's product id for this
      release, the fixed title and the request log; it sets no method, scale or TTL. */
  lemma RouteProperties(version: string, description: string, events: seq<Event>)
    ensures var lines := PropertyLines(RouteCalendar(version, description, events));
      Values(lines, "VERSION") == ["2.0"]
      && Values(lines, "PRODID") == [Prodid(version)]
      && Values(lines, "X-WR-CALNAME") == [CalendarTitle]
      && Values(lines, "X-WR-CALDESC") == [description]
  {
    var c := RouteCalendar(version, description, events);
    PropertyValue(c, 0);
    PropertyValue(c, 1);
    PropertyValue(c, 5);
    PropertyValue(c, 6);
  }

  lemma RouteOmits(version: string, description: string, events: seq<Event>)
    ensures var lines := PropertyLines(RouteCalendar(version, description, events));
      Values(lines, "METHOD") == [] && Values(lines, "CALSCALE") == []
      && Values(lines, "X-PUBLISHED-TTL") == []
  {
    var c := RouteCalendar(version, description, events);
    PropertyValue(c, 2);
    PropertyValue(c, 3);
    PropertyValue(c, 7);
  }

  /** The request log is written into X-WR-CALDESC unescaped, so the served calendar always
      has a property line that spans several physical lines. */
  lemma DescriptionSpills(version: string, log: seq<string>, events: seq<Event>)
    ensures !NoBreaks(PropertyLines(RouteCalendar(version, CalendarDescription(log), events)))
  {
    var description := CalendarDescription(log);
    RouteProperties(version, description, events);
    assert description[|CalendarTitle|] == '\n';
    BreakInValue(PropertyLines(RouteCalendar(version, description, events)), "X-WR-CALDESC");
  }

  /** The SUMMARY line of a rendered event holds the summary, when set. */
  lemma SummaryValue(e: Event)
    requires EventLines(e).Ok?
    ensures Values(EventLines(e).value, "SUMMARY") == OptList(e.summary)
  {
    assert FieldNamesList[2] == "SUMMARY";
    assert FieldsOf(e)[2] == e.summary;
    EventFieldValue(e, 2);
  }

  /** The DESCRIPTION line of a rendered event holds the description, when set. */
  lemma DescriptionValue(e: Event)
    requires EventLines(e).Ok?
    ensures Values(EventLines(e).value, "DESCRIPTION") == OptList(e.description)
  {
    assert FieldNamesList[3] == "DESCRIPTION";
    assert FieldsOf(e)[3] == e.description;
    EventFieldValue(e, 3);
  }

  /** A date's rendered event is summarised as `<task name> - <real name>` and describes the
      task with its converted markdown, when it has any. */
  lemma DateEventLines(t: Task, name: string, dt: DateTime, lengths: ThreadingDict<string, int>, f: Foreign)
    requires Valid(dt) && t.created.Some?
    requires 0 <= Seconds(dt) + EventLength(lengths, RealName(name)) < SecondsLimit()
    ensures DateEvent(t, name, dt, lengths, f).Ok?
    ensures var e := DateEvent(t, name, dt, lengths, f).value;
      EventLines(e).Ok?
      && Values(EventLines(e).value, "SUMMARY") == [t.name + " - " + RealName(name)]
      && Values(EventLines(e).value, "DESCRIPTION") == OptList(TaskDescription(t, f))
  {
    var e := DateEvent(t, name, dt, lengths, f).value;
    EventLineNames(e);
    SummaryValue(e);
    DescriptionValue(e);
  }
}
