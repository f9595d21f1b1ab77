# clickup_to_ical in Dafny

A model of the two sequential cores of `clickup_to_ical`, a small web service that serves a
user's ClickUp tasks as an iCalendar feed, with proofs about them:

- **iCalendar text** (`ical/event.py`, `ical/calendar.py`): the date-time, user and event
  lines, the VEVENT block, the duration text of X-PUBLISHED-TTL and the VCALENDAR block. The
  model renders exactly what the code renders. An independent content-line reader
  (`ContentLine.Parse`, `Names`, `Values`) reads the rendered lines back, and the properties
  are stated through it: which lines appear, in which order, and what each one holds.
- **The refreshable store** (`web/utils.py` `ThreadingDict`) as a sequence of atomic steps:
  `set`, `get`, `__getitem__`, `frequency` and one iteration of the refresh loop. The
  producers of `web/stores.py` appear as their outcomes (raised, returned None, returned a
  map), together with the refresh intervals and the index of tasks by assignee that
  `_update_tasks` builds. Stores and maps are immutable values here, so neither `get` nor
  `set` can change the other's arguments.
- **The request logic** of `get_calendar` (`web/__init__.py`):
  - the token and the two 401 answers;
  - the `date_types` filter;
  - the `only_assigned` and `include_closed` switches against `TRUE_VALUES` (`host.py`);
  - the closed-task filter;
  - the `__` prefix of date names;
  - summary, organizer, attendees, description and end time of each event;
  - the calendar the route answers with.

Files and modules:

- `base.dfy`, module `Base`: `Option` and `Result`.
- `seqs.dfy`, module `Seqs`: order-preserving selection, mapping, and collecting a run of
  results into one.
- `text.dfy`, module `Text`: digits, padding, join and split, lower-casing and strip.
- `datetimes.dfy`, module `DateTimes`: date-times and `dt + timedelta(seconds=n)`.
- `contentline.dfy`, module `ContentLine`: the reader used to state the properties.
- `events.dfy`, module `Events`.
- `calendars.dfy`, module `Calendars`.
- `host.dfy`, module `Host`.
- `store.dfy`, module `ThreadingDicts`.
- `stores.dfy`, module `Stores`.
- `route.dfy`, module `Route`.

The program departs from RFC 5545 in these ways, and the model follows the program:

- There is no line folding, no CRLF and no escaping. Lines are joined with `\n`, and a value
  that holds a line break breaks its line. `Events.DescriptionBreaksText` and
  `Route.DescriptionSpills` prove this.
- The duration has no `D` after the day count.
- The TZID form carries `VALUE=DATE`.
- LAST-MODIFIED renders `created`, not `last_modified`. `Event.__str__` raises when
  `last_modified` is set and `created` is not, and the model treats that case as an error.
- X-WR-TIMEZONE is never written.

## Model

| member | source | states |
|---|---|---|
| Events.StampLayout | clickup_to_ical/ical/event.py:9 | the stamp of a valid date-time is 15 characters: 4-digit year, 2-digit month, day, `T`, hour, minute, second, each group reading back as its field |
| Events.StampPlain | clickup_to_ical/ical/event.py:9 | a stamp holds no `:`, `;` or line break |
| Events.DateTimeLineParses | clickup_to_ical/ical/event.py:8-15 | the line reads back as `NAME:<stamp>` when naive, `NAME:<stamp>Z` in UTC, `NAME;TZID=<zone>;VALUE=DATE:<stamp>` otherwise |
| Events.DateTimeLineName | clickup_to_ical/ical/event.py:8-15 | whatever the zone, the line is named by the property name |
| Events.UserLineParses | clickup_to_ical/ical/event.py:23-24 | a user line reads back with the role as name, a CN parameter exactly when a name is set, and the uri as value |
| Events.EmptyNameKeepsCN | clickup_to_ical/ical/event.py:23-24 | an empty name still writes `;CN=`; no name writes `ROLE:uri` |
| Events.UserLineName | clickup_to_ical/ical/event.py:23-24 | a user line is named by its role whatever the display name holds |
| Events.EventLineNames | clickup_to_ical/ical/event.py:46-77 | rendering fails exactly when LAST-MODIFIED is set without `created`; otherwise the names are UID, DTSTAMP, DTSTART, then each optional property exactly when set, in the fixed order, then one ATTENDEE per attendee |
| Events.EventValues | clickup_to_ical/ical/event.py:46-77 | under every name the reader finds the set fields verbatim, in order; LAST-MODIFIED holds the `created` stamp; ATTENDEE holds the attendees' uris in order |
| Events.EventFieldValue | clickup_to_ical/ical/event.py:59-74 | each text or number field from URL to PRIORITY appears once with its value when set, and not at all otherwise |
| Events.AttendeeValues | clickup_to_ical/ical/event.py:77 | the attendee lines carry exactly the attendees' uris, in list order, under ATTENDEE |
| Events.EventTextJoin | clickup_to_ical/ical/event.py:79 | the event text is BEGIN:VEVENT, the lines and END:VEVENT joined by `\n` |
| Events.EventTextSplit | clickup_to_ical/ical/event.py:79 | splitting the event text at line breaks gives the block back exactly when no line holds a break of its own |
| Events.DescriptionBreaksText | clickup_to_ical/ical/event.py:65-79 | a description holding `\n` is not escaped and breaks the block's line structure |
| Calendars.DurationComponents | clickup_to_ical/ical/calendar.py:11-13 | hours < 24, minutes < 60, seconds < 60, and they add up to the seconds field |
| Calendars.DurationRoundTrip | clickup_to_ical/ical/calendar.py:10-19 | reading the duration text back gives the seconds, and the day count when positive (zero or negative days are dropped) |
| Calendars.DurationExample | clickup_to_ical/ical/calendar.py:10-19 | one day, two hours and five seconds gives `P1T02H05S` |
| Calendars.DurationDegenerate | clickup_to_ical/ical/calendar.py:15-19 | a zero timedelta gives `PT`; a negative day count is dropped (`PT01H`) |
| Calendars.EventTextsSpec | clickup_to_ical/ical/calendar.py:53 | the event texts exist exactly when every event renders, one per event, in order |
| Calendars.CalendarRenders | clickup_to_ical/ical/calendar.py:53-55 | a calendar renders exactly when all its events do |
| Calendars.PropertyNames | clickup_to_ical/ical/calendar.py:34-51 | the property lines are VERSION, PRODID, then each optional property exactly when set, in order, and never X-WR-TIMEZONE |
| Calendars.PropertyValue | clickup_to_ical/ical/calendar.py:35-51 | each calendar property holds its field verbatim, the TTL as its duration text |
| Calendars.CalScaleTwice | clickup_to_ical/ical/calendar.py:41-43 | CALSCALE and X-MICROSOFT-CALSCALE both carry the calendar scale, or are both absent |
| Calendars.NoTimezone | clickup_to_ical/ical/calendar.py:48-49 | no X-WR-TIMEZONE line is ever written, since the time zone is a class attribute fixed at None |
| Calendars.PropertyLinesStart | clickup_to_ical/ical/calendar.py:35-38 | the first two lines are always `VERSION:` and `PRODID:` |
| Calendars.MinimalCalendar | clickup_to_ical/ical/calendar.py:34-55 | with no options and no events the text is exactly `BEGIN:VCALENDAR\nVERSION:v\nPRODID:p\nEND:VCALENDAR` |
| Calendars.CalendarSplit | clickup_to_ical/ical/calendar.py:53-55 | when every event renders and no line holds a break, the calendar renders and its text splits into BEGIN, the property lines, each event's block in list order, and END |
| DateTimes.AddSeconds | clickup_to_ical/web/__init__.py:99 | adding seconds succeeds exactly within years 1..9999, keeps the zone and moves the instant by that many seconds |
| DateTimes.AddTwice | clickup_to_ical/web/__init__.py:99 | adding `a` then `b` seconds is adding `a + b` |
| Host.TrueSpellings | clickup_to_ical/host.py:1 | only `true`, `1`, `yes`, `y`, `on` count as true, case-sensitively |
| ThreadingDicts.Create | clickup_to_ical/web/utils.py:10-34 | a new store is empty; its frequency is the producer's interval, or None without a producer |
| ThreadingDicts.GetItem | clickup_to_ical/web/utils.py:41-45 | `__getitem__` raises KeyError for the key exactly when the lookup yields None, a present key mapped to None included |
| ThreadingDicts.GetAfterSet | clickup_to_ical/web/utils.py:36-49 | after `set(m)` every lookup answers from `m` alone; no key of the old snapshot survives |
| ThreadingDicts.GetItemAgreesWithGet | clickup_to_ical/web/utils.py:41-49 | `__getitem__` succeeds exactly when `get(k, None)` is not None, and agrees with it |
| ThreadingDicts.RefreshStep | clickup_to_ical/web/utils.py:19-26 | a raised exception or a None result keeps the store; any map, empty included, replaces the snapshot |
| ThreadingDicts.RunKeepsLatest | clickup_to_ical/web/utils.py:18-28 | after any run of ticks the store holds the latest returned map, or its earlier snapshot if none was returned |
| ThreadingDicts.NeverReturned | clickup_to_ical/web/utils.py:18-28 | a store whose producer never returns a map stays empty |
| Stores.GroupUnder | clickup_to_ical/web/stores.py:45-50 | the index holds under every key exactly the tasks filed there, in fetch order, and has the key exactly when something is filed there |
| Stores.UnderNone | clickup_to_ical/web/stores.py:46-47 | every fetched task is filed under None, in fetch order |
| Stores.UnderAssignee | clickup_to_ical/web/stores.py:48-49 | an assignee has tasks exactly when some task lists them, and only such tasks are filed there |
| Stores.GroupKeys | clickup_to_ical/web/stores.py:45-50 | the keys are None when something was fetched, plus every assignee seen; an empty fetch gives an empty map |
| Stores.TasksProducerIndex | clickup_to_ical/web/stores.py:36-50 | the fetch asks for closed tasks only when TASKS_CLOSED is a true spelling, and its index files every task as the reference says |
| Stores.AuthStore | clickup_to_ical/web/stores.py:20 | the auth store starts empty and refreshes every 300 seconds |
| Stores.LengthStore | clickup_to_ical/web/stores.py:33 | the default-length store starts empty and refreshes every 300 seconds |
| Stores.TaskStore | clickup_to_ical/web/stores.py:53 | the task store starts empty and refreshes at the configured rate |
| Stores.AuthWithoutFile | clickup_to_ical/web/stores.py:11-20 | without AUTH_FILE the auth store stays empty through every tick |
| Stores.LengthsWithoutFile | clickup_to_ical/web/stores.py:23-33 | without DEFAULT_LENGTH every tick empties the default-length store |
| Route.Authorize | clickup_to_ical/web/__init__.py:23-31 | a missing or empty token gives "No auth key provided"; a token the store maps to nothing gives "Key not recognized"; otherwise the user the store maps it to |
| Route.HeaderShadowsToken | clickup_to_ical/web/__init__.py:23-27 | an empty header is refused even when a `token` argument is given |
| Route.DateFilterSpec | clickup_to_ical/web/__init__.py:35-46 | with `date_types` a name passes exactly when its lower case equals some comma-split entry, stripped and lower-cased |
| Route.DateFilterIgnoresCase | clickup_to_ical/web/__init__.py:42-46 | the filter answers the same for a name and its lower-cased form |
| Route.CommaNeverAllowed | clickup_to_ical/web/__init__.py:42-46 | a date name holding a comma never passes a `date_types` filter |
| Route.SwitchDefaults | clickup_to_ical/web/__init__.py:48-55 | `only_assigned` defaults to true and is lower-cased (`TRUE` is true); `include_closed` defaults to false and is not (`True` is false) |
| Route.AssignedFromFetch | clickup_to_ical/web/__init__.py:48-53 | over an index of a fetch, the route starts from exactly the tasks filed under the chosen key |
| Route.Visible | clickup_to_ical/web/__init__.py:55-66 | closed tasks are skipped unless `include_closed` is set; every kept task is from the list, and every open one is kept |
| Route.VisibleOrder | clickup_to_ical/web/__init__.py:66 | the tasks walked are the list at exactly the positions of the open tasks (every position with `include_closed`), in list order and as often as listed |
| Route.RealName | clickup_to_ical/web/__init__.py:92 | a leading `__` is dropped, any other name is kept |
| Route.RealNameOnce | clickup_to_ical/web/__init__.py:92 | only one leading `__` is dropped, and a single `_` is kept |
| Route.MemberById | clickup_to_ical/web/__init__.py:67 | the member with the id that comes last in the list, or none when no member has it |
| Route.Organizer | clickup_to_ical/web/__init__.py:76-82 | the organizer is the creator exactly when they are a member with a non-empty email, addressed `mailto:` that email and named by their username |
| Route.Attendees | clickup_to_ical/web/__init__.py:84-89 | one attendee per assignee, in order, with `mailto:` uri and username |
| Route.DateEvent | clickup_to_ical/web/__init__.py:93-104 | the event fails exactly without a creation date or when the end leaves the year range; otherwise its uid is the uuid of `<task id>-<date name>` (the raw name), DTSTAMP the creation date, DTSTART the date, DTEND DTSTART plus the configured length of the real name or 0, URL and PRIORITY the task's, SUMMARY `<task name> - <real name>`, the description, organizer and attendees those built for the task, and nothing else is set |
| Route.NoLengthEndsAtStart | clickup_to_ical/web/__init__.py:99 | a date name with no configured length gives an event whose DTEND equals its DTSTART |
| Route.Chosen | clickup_to_ical/web/__init__.py:91 | every chosen date is a date of the task that passes the filter, every such date is chosen, and all of them are without `date_types` |
| Route.ChosenOrder | clickup_to_ical/web/__init__.py:91 | the chosen dates are the task's dates at exactly the positions whose names pass the filter, in dictionary order and each once |
| Route.BuildOk | clickup_to_ical/web/__init__.py:91-105 | a task's events fail exactly when one of its chosen dates does |
| Route.BuildEach | clickup_to_ical/web/__init__.py:91-105 | one event per chosen date, in order, each built from that date |
| Route.TasksEventsAppend | clickup_to_ical/web/__init__.py:66-105 | the events of two runs of tasks are those of the first run followed by those of the second, and they fail exactly when one run does |
| Route.TasksEventsRender | clickup_to_ical/web/__init__.py:66-105 | none of the route's events sets LAST-MODIFIED, and each DTSTAMP is a valid UTC date-time |
| Route.RequestEventsRender | clickup_to_ical/web/__init__.py:66-107 | every event of a request renders, so the calendar always renders, and each event's DTSTAMP is in UTC |
| Route.GetCalendar | clickup_to_ical/web/__init__.py:18-107 | 401 with the authorization message exactly when refused; a crash exactly when an event cannot be built; otherwise 200 whose body is the rendered calendar of the request's events |
| Route.RouteProperties | clickup_to_ical/web/__init__.py:59-64 | the served calendar has VERSION 2.0, the converter's PRODID for the release, the fixed title and the request log as description |
| Route.RouteOmits | clickup_to_ical/web/__init__.py:59-64 | the served calendar has no METHOD, CALSCALE or X-PUBLISHED-TTL |
| Route.DescriptionSpills | clickup_to_ical/web/__init__.py:63 | the request log is written unescaped, so the calendar description always spans several physical lines |
| Route.SummaryValue | clickup_to_ical/ical/event.py:63-64 | a renderable event's SUMMARY lines carry exactly its summary: one line when set, none when unset |
| Route.DescriptionValue | clickup_to_ical/ical/event.py:65-66 | a renderable event's DESCRIPTION lines carry exactly its description: one line when set, none when unset |
| Route.DateEventLines | clickup_to_ical/web/__init__.py:93-104 | a date with a creation date and an end in range gives an event, and its rendered event has SUMMARY `<task name> - <real name>` and the task's converted description, if any |

## Left out

- Threads, the lock, `time.sleep` and the endless daemon loop are left out. The refresh loop
  is a sequence of single steps (`Run`), and nothing is claimed about atomicity or timing.
- ThreadingDicts.Create: the refresh thread runs its first iteration right after the store
  is built. The model starts from the empty store and counts that iteration as the first
  tick.
- Reading files, JSON decoding and environment variables are left out. A producer's file
  read is its outcome: absent, unreadable (any exception), or the decoded map. A decoded
  JSON value that is not an object of the expected shape is not modelled.
- Stores.LengthProducer: event lengths are whole seconds. JSON floats and `null` values in
  the default-length file are not modelled.
- Stores.TasksInterval: CLICKUP_CALL_RATE is taken as already parsed. The `int()` parse of
  the variable, and the error it raises at import time, are not modelled.
- The ClickUp client (`get_tasks_all`) and the task accessors are left out. The fetch is a
  function parameter. A task is a record of what its accessors yield, with these types:
  - `assignees`: a list of user ids (`seq<UserId>`);
  - `is_open()`: a boolean;
  - `get_members()` and `get_assignees()`: lists of members (id, username, email);
  - `get_all_dates()`: the (name, date-time) pairs in dictionary order;
  - `url`: an optional string (`Option<string>`);
  - `priority`: an optional integer (`Option<int>`), written in decimal on PRIORITY;
  - `creator`: a user id;
  - `get_name()`: a string (the record's `name`).

  None of these is defined in the code this model covers, so their types are assumptions.
- The task records built from JSON in `clickup/data.py` are not part of this model.
- Foreign libraries are left out:
  - `uuid.uuid3` and markdown-to-text conversion (markdown and BeautifulSoup) are function
    parameters.
  - The conversion of `date_created` from epoch milliseconds is left out: the task already
    carries the converted date-time. `Route.ValidTask` requires it to be a valid UTC
    date-time, as the conversion in UTC always gives. None stands for a missing
    `date_created`, which makes the route raise.
- Route.GetCalendar: a request that crashes is `Crashed`. Flask's 500 page is not
  modelled. The Flask request and response objects, the MIME type, `request_from` and
  logging are left out as well.
- pytz zones are left out. A zone is an abstract tag (naive, UTC, or named), and
  `str(tzinfo)` is the name.
- Text.Lower covers only ASCII letters, and Text.Strip covers only the whitespace within
  the first 256 code points. Python's full Unicode case mapping and whitespace set are not
  modelled.
- Sub-second precision of date-times is left out. No rendered text shows it.
- Events.EventValues: it is stated for events whose names, zones and user parameters hold
  no `:` or `;`. A line with such a character cannot be read back into its parts.
- `__version__` is not part of this model. It is a parameter (`Foreign.version`).
- `clickup_to_ical/explore.py`, `host.py` `main` and `setup.py` are left out. They are
  command-line printing, server start-up and packaging.
