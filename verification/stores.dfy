/** `clickup_to_ical/web/stores.py`: the three refreshable stores the web route reads, the
    producers that refill them, and the index of tasks by assignee.

    The producers' file reads, environment lookups and the ClickUp client are not part of this
    model: what they yield is passed in, and only the outcome they give the refresh loop is
    kept. */
module Stores {
  import opened Base
  import opened Host
  import opened DateTimes
  import opened ThreadingDicts

  // ---------------------------------------------------------------------------
  // Tasks as the route and the index see them
  // ---------------------------------------------------------------------------

  /** A ClickUp user id. */
  type UserId = int

  /** A workspace member: the fields the route reads. */
  datatype Member = Member(id: UserId, username: string, email: string)

  /** A fetched task, through the accessors the index and the route call on it:
      `assignees` is the attribute the index groups by, `assigneeMembers` what
      `get_assignees()` returns, `members` what `get_members()` returns, `open` what
      `is_open()` returns, and `dates` the items of `get_all_dates()` in dictionary order.
      `created` is `date_created` already turned into a UTC date-time (`Route.ValidTask`
      states this), or None when the task has no creation date. */
  datatype Task = Task(
    id: string,
    name: string,
    url: Option<string>,
    priority: Option<int>,
    created: Option<DateTime>,
    markdown: Option<string>,
    creator: UserId,
    members: seq<Member>,
    assignees: seq<UserId>,
    assigneeMembers: seq<Member>,
    open: bool,
    dates: seq<(string, DateTime)>)

  // ---------------------------------------------------------------------------
  // The index built by `_update_tasks`
  // ---------------------------------------------------------------------------

  /** Tasks by key: None holds every task, `Some(a)` the tasks assigned to `a`. */
  type TaskIndex = map<Option<UserId>, seq<Task>>

  /** The list under `k`, empty when the key is absent, as a dictionary that starts every
      key with an empty list reads. */
  function Lookup(d: TaskIndex, k: Option<UserId>): seq<Task> {
    if k in d then d[k] else []
  }

  /** The task added at the end of the list under `k`. */
  function Append(d: TaskIndex, k: Option<UserId>, t: Task): (r: TaskIndex)
    ensures r.Keys == d.Keys + {k}
    ensures Lookup(r, k) == Lookup(d, k) + [t]
    ensures forall j :: j != k ==> Lookup(r, j) == Lookup(d, j)
  {
    d[k := Lookup(d, k) + [t]]
  }

  /** The task added at the end of the list under each of `keys`, one key after the other. */
  function AppendAll(d: TaskIndex, keys: seq<UserId>, t: Task): TaskIndex
    decreases |keys|
  {
    if |keys| == 0 then d else AppendAll(Append(d, Some(keys[0]), t), keys[1..], t)
  }

  /** One pass of the loop body: the task goes under None, then under each assignee. */
  function AddTask(d: TaskIndex, t: Task): TaskIndex {
    AppendAll(Append(d, None, t), t.assignees, t)
  }

  /** The dictionary `_update_tasks` returns for the fetched tasks, in fetch order. */
  function Group(ts: seq<Task>): TaskIndex
    decreases |ts|
  {
    if |ts| == 0 then map[] else AddTask(Group(ts[..|ts| - 1]), ts[|ts| - 1])
  }

  // The reference: which tasks belong under a key, counted independently of the loop.

  function Count(a: UserId, xs: seq<UserId>): (n: nat)
    ensures n > 0 <==> a in xs
    decreases |xs|
  {
    if |xs| == 0 then 0 else (if xs[0] == a then 1 else 0) + Count(a, xs[1..])
  }

  function Copies(t: Task, n: nat): (r: seq<Task>)
    ensures |r| == n
    ensures forall i :: 0 <= i < n ==> r[i] == t
  {
    if n == 0 then [] else [t] + Copies(t, n - 1)
  }

  /** How often a task is filed under a key: once under None, and under `Some(a)` once per
      occurrence of `a` in its assignees. */
  function Occurrences(k: Option<UserId>, t: Task): nat {
    match k
    case None => 1
    case Some(a) => Count(a, t.assignees)
  }

  /** The tasks filed under `k`, in fetch order, each repeated as often as it occurs. */
  function Under(ts: seq<Task>, k: Option<UserId>): seq<Task>
    decreases |ts|
  {
    if |ts| == 0 then [] else Copies(ts[0], Occurrences(k, ts[0])) + Under(ts[1..], k)
  }

  lemma {:induction false} AppendAllAt(d: TaskIndex, keys: seq<UserId>, t: Task, k: Option<UserId>)
    ensures k in AppendAll(d, keys, t) <==> k in d || (k.Some? && k.value in keys)
    ensures Lookup(AppendAll(d, keys, t), k)
         == Lookup(d, k) + (if k.Some? then Copies(t, Count(k.value, keys)) else [])
    decreases |keys|
  {
    if |keys| > 0 {
      var d' := Append(d, Some(keys[0]), t);
      AppendAllAt(d', keys[1..], t, k);
      assert keys == [keys[0]] + keys[1..];
      if k == Some(keys[0]) {
        assert Copies(t, Count(k.value, keys)) == [t] + Copies(t, Count(k.value, keys[1..]));
      }
    }
  }

  /** Adding one task files it under every key it belongs to, as often as it belongs there. */
  lemma AddTaskAt(d: TaskIndex, t: Task, k: Option<UserId>)
    ensures k in AddTask(d, t) <==> k in d || Occurrences(k, t) > 0
    ensures Lookup(AddTask(d, t), k) == Lookup(d, k) + Copies(t, Occurrences(k, t))
  {
    AppendAllAt(Append(d, None, t), t.assignees, t, k);
    if k.None? {
      assert Copies(t, 1) == [t];
    }
  }

  lemma {:induction false} UnderSnoc(ts: seq<Task>, t: Task, k: Option<UserId>)
    ensures Under(ts + [t], k) == Under(ts, k) + Copies(t, Occurrences(k, t))
    decreases |ts|
  {
    if |ts| == 0 {
      assert ts + [t] == [t];
    } else {
      assert (ts + [t])[1..] == ts[1..] + [t];
      UnderSnoc(ts[1..], t, k);
    }
  }

  /** The index agrees with the reference: under every key it holds exactly the tasks filed
      there, in fetch order, and it has a key exactly when something is filed under it. */
  lemma {:induction false} GroupUnder(ts: seq<Task>, k: Option<UserId>)
    ensures Lookup(Group(ts), k) == Under(ts, k)
    ensures k in Group(ts) <==> |Under(ts, k)| > 0
    decreases |ts|
  {
    if |ts| > 0 {
      var init, last := ts[..|ts| - 1], ts[|ts| - 1];
      assert ts == init + [last];
      GroupUnder(init, k);
      AddTaskAt(Group(init), last, k);
      UnderSnoc(init, last, k);
    }
  }

  /** Every fetched task is filed under None, in fetch order. */
  lemma {:induction false} UnderNone(ts: seq<Task>)
    ensures Under(ts, None) == ts
    decreases |ts|
  {
    if |ts| > 0 {
      UnderNone(ts[1..]);
      assert Copies(ts[0], 1) == [ts[0]];
    }
  }

  /** Something is filed under an assignee exactly when some task lists them, and only such
      tasks are filed there. */
  lemma {:induction false} UnderAssignee(ts: seq<Task>, a: UserId)
    ensures |Under(ts, Some(a))| > 0 <==> exists i :: 0 <= i < |ts| && a in ts[i].assignees
    ensures forall j :: 0 <= j < |Under(ts, Some(a))| ==> a in Under(ts, Some(a))[j].assignees
    decreases |ts|
  {
    if |ts| > 0 {
      UnderAssignee(ts[1..], a);
      var c := Copies(ts[0], Count(a, ts[0].assignees));
      assert Under(ts, Some(a)) == c + Under(ts[1..], Some(a));
      if a in ts[0].assignees {
        assert 0 < |ts| && a in ts[0].assignees;
      }
      forall i | 0 <= i < |ts[1..]| && a in ts[1..][i].assignees
        ensures exists i :: 0 <= i < |ts| && a in ts[i].assignees
      {
        assert ts[1..][i] == ts[i + 1];
      }
      forall i | 0 <= i < |ts| && a in ts[i].assignees && i > 0
        ensures |Under(ts[1..], Some(a))| > 0
      {
        assert ts[1..][i - 1] == ts[i];
      }
    }
  }

  /** The keys of the index: None exactly when at least one task was fetched, and every
      assignee of any fetched task. An empty fetch gives an empty dictionary. */
  lemma GroupKeys(ts: seq<Task>, k: Option<UserId>)
    ensures k == None ==> (k in Group(ts) <==> |ts| > 0)
    ensures k.Some? ==>
      (k in Group(ts) <==> exists i :: 0 <= i < |ts| && k.value in ts[i].assignees)
  {
    GroupUnder(ts, k);
    if k.None? {
      UnderNone(ts);
    } else {
      UnderAssignee(ts, k.value);
    }
  }

  // ---------------------------------------------------------------------------
  // Producers and intervals
  // ---------------------------------------------------------------------------

  /** Reading and decoding a JSON file: its content, or the exception either step raises. */
  datatype FileRead<T> = Loaded(content: T) | Unreadable

  /** The auth and default-length stores refresh every five minutes. */
  const AuthInterval: int := 60 * 5
  const LengthInterval: int := 60 * 5

  /** The task store's interval: the configured CLICKUP_CALL_RATE in seconds, fifteen
      minutes unless configured. */
  function TasksInterval(callRate: Option<int>): (r: int)
    ensures callRate.None? ==> r == 900
    ensures callRate.Some? ==> r == callRate.value
  {
    callRate.GetOr(60 * 15)
  }

  /** Tokens to user ids; a JSON `null` value is kept as None. */
  type AuthMap = map<string, Option<UserId>>

  /** `_update_auth`: None when AUTH_FILE is unset, otherwise the decoded file. */
  function AuthProducer(authFile: Option<FileRead<AuthMap>>): (o: Outcome<string, Option<UserId>>)
    ensures o.Returned? <==> authFile.Some? && authFile.value.Loaded?
    ensures o.Returned? ==> o.snapshot == authFile.value.content
    ensures o.ReturnedNone? <==> authFile.None?
  {
    match authFile
    case None => ReturnedNone
    case Some(Unreadable) => Raised
    case Some(Loaded(m)) => Returned(m)
  }

  /** `_update_default_length`: the empty map when DEFAULT_LENGTH is unset, otherwise the
      decoded file of event lengths in seconds by date name. */
  function LengthProducer(lengthFile: Option<FileRead<map<string, int>>>): (o: Outcome<string, int>)
    ensures !o.ReturnedNone?
    ensures lengthFile.None? ==> o == Returned(map[])
    ensures o.Raised? <==> lengthFile == Some(Unreadable)
  {
    match lengthFile
    case None => Returned(map[])
    case Some(Unreadable) => Raised
    case Some(Loaded(m)) => Returned(m)
  }

  /** `_update_tasks`: fetch with the two switches read from TASKS_CLOSED and TASKS_SUBTASKS
      (compared with `TRUE_VALUES` as written, not lower-cased), then index the result. The
      fetch, a call into the ClickUp client, is a parameter: given the two switches it yields
      the tasks or None when it raises. */
  function TasksProducer(closedVar: Option<string>, subtasksVar: Option<string>,
                         fetch: (bool, bool) -> Option<seq<Task>>): (o: Outcome<Option<UserId>, seq<Task>>)
    ensures !o.ReturnedNone?
  {
    match fetch(IsTrue(closedVar.GetOr("")), IsTrue(subtasksVar.GetOr("")))
    case None => Raised
    case Some(ts) => Returned(Group(ts))
  }

  /** The task producer asks for closed tasks only when TASKS_CLOSED is one of the true
      spellings, and on success files every fetched task as the index promises. */
  lemma TasksProducerIndex(closedVar: Option<string>, subtasksVar: Option<string>,
                           fetch: (bool, bool) -> Option<seq<Task>>, k: Option<UserId>)
    ensures var closed := closedVar.Some? && IsTrue(closedVar.value);
      var subtasks := subtasksVar.Some? && IsTrue(subtasksVar.value);
      var o := TasksProducer(closedVar, subtasksVar, fetch);
      (o.Raised? <==> fetch(closed, subtasks).None?)
      && (o.Returned? ==> Lookup(o.snapshot, k) == Under(fetch(closed, subtasks).value, k))
  {
    TrueSpellings("");
    var closed := IsTrue(closedVar.GetOr(""));
    var subtasks := IsTrue(subtasksVar.GetOr(""));
    if fetch(closed, subtasks).Some? {
      GroupUnder(fetch(closed, subtasks).value, k);
    }
  }

  /** The stores as the module builds them: empty, with their refresh intervals. */
  function AuthStore(): (s: ThreadingDict<string, Option<UserId>>)
    ensures |s.data| == 0 && s.frequency == Some(300)
  {
    Create(Some(AuthInterval))
  }

  function LengthStore(): (s: ThreadingDict<string, int>)
    ensures |s.data| == 0 && s.frequency == Some(300)
  {
    Create(Some(LengthInterval))
  }

  function TaskStore(callRate: Option<int>): (s: ThreadingDict<Option<UserId>, seq<Task>>)
    ensures |s.data| == 0 && s.frequency == Some(TasksInterval(callRate))
  {
    Create(Some(TasksInterval(callRate)))
  }

  /** Without AUTH_FILE the auth store never leaves its initial empty snapshot, so every
      token is unknown. */
  lemma AuthWithoutFile(ticks: nat)
    ensures |Run(AuthStore(), seq(ticks, _ => AuthProducer(None))).data| == 0
  {
    NeverReturned<string, Option<UserId>>(Some(AuthInterval), seq(ticks, _ => AuthProducer(None)));
  }

  /** Without DEFAULT_LENGTH every tick empties the default-length store, whatever it held. */
  lemma LengthsWithoutFile(s: ThreadingDict<string, int>)
    ensures |RefreshStep(s, LengthProducer(None)).data| == 0
  {
  }
}
