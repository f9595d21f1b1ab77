/** `clickup_to_ical/web/utils.py`: `ThreadingDict`, a key-value snapshot that a background
    loop keeps replacing with the result of a producer function.

    The lock and the daemon thread are not part of this model: each operation is one atomic
    step on an immutable value, and the refresh loop is the sequence of its iterations. */
module ThreadingDicts {
  import opened Base

  /** The refreshable store: the current snapshot and the refresh interval in seconds, which
      is None for a store built without a producer. */
  datatype ThreadingDict<K(==), V> = ThreadingDict(data: map<K, V>, frequency: Option<int>)

  /** The `KeyError` raised by `__getitem__`, with the key it could not find. */
  datatype KeyError<K> = KeyError(key: K)

  /** What one call of the producer does: raise, return None, or return a map. */
  datatype Outcome<K(==), V> = Raised | ReturnedNone | Returned(snapshot: map<K, V>)

  /** A new store: empty whether or not a producer is given; its frequency is the producer's
      refresh interval, or None without a producer. */
  function Create<K(==), V>(interval: Option<int>): (s: ThreadingDict<K, V>)
    ensures |s.data| == 0
    ensures s.frequency == interval
  {
    ThreadingDict(map[], interval)
  }

  /** Storing a map: the snapshot is cleared and refilled, so it becomes `data` exactly. */
  function Set<K(==), V>(s: ThreadingDict<K, V>, data: map<K, V>): (r: ThreadingDict<K, V>)
    ensures r.data.Keys == data.Keys
    ensures forall k :: k in data ==> r.data[k] == data[k]
    ensures r.frequency == s.frequency
  {
    ThreadingDict(data, s.frequency)
  }

  /** Reading a key: its value when present, the default otherwise. */
  function Get<K(==), V>(s: ThreadingDict<K, V>, k: K, default: V): (r: V)
    ensures k in s.data ==> r == s.data[k]
    ensures k !in s.data ==> r == default
  {
    if k in s.data then s.data[k] else default
  }

  /** Indexing: the read with a None default, raising KeyError when that yields None, so a
      key that is present but holds None raises too. */
  function GetItem<K(==), V>(s: ThreadingDict<K, Option<V>>, k: K): (r: Result<V, KeyError<K>>)
    ensures r.Ok? <==> k in s.data && s.data[k].Some?
    ensures r.Ok? ==> s.data[k] == Some(r.value)
    ensures r.Err? ==> r.error == KeyError(k)
  {
    match Get(s, k, None)
    case None => Err(KeyError(k))
    case Some(v) => Ok(v)
  }

  /** After `set(m)`, reading any key answers from `m` alone: nothing of the previous
      snapshot survives. */
  lemma GetAfterSet<K, V>(s: ThreadingDict<K, V>, m: map<K, V>, k: K, default: V)
    ensures Get(Set(s, m), k, default) == if k in m then m[k] else default
    ensures k in s.data && k !in m ==> Get(Set(s, m), k, default) == default
  {
  }

  /** `__getitem__` succeeds exactly when `get` with a None default finds a value, and then
      agrees with it. */
  lemma GetItemAgreesWithGet<K, V>(s: ThreadingDict<K, Option<V>>, k: K)
    ensures GetItem(s, k).Ok? <==> Get(s, k, None) != None
    ensures GetItem(s, k).Ok? ==> Get(s, k, None) == Some(GetItem(s, k).value)
  {
  }

  /** One iteration of the refresh loop: a raised exception is logged and a None result
      ignored, both keeping the snapshot; any map, the empty one included, replaces it. */
  function RefreshStep<K(==), V>(s: ThreadingDict<K, V>, o: Outcome<K, V>): (r: ThreadingDict<K, V>)
    ensures r.frequency == s.frequency
    ensures o.Returned? ==> r.data == o.snapshot
    ensures !o.Returned? ==> r == s
  {
    match o
    case Returned(m) => Set(s, m)
    case _ => s
  }

  /** The refresh loop over a run of producer outcomes, in the order the ticks happen. */
  function Run<K(==), V>(s: ThreadingDict<K, V>, outcomes: seq<Outcome<K, V>>): (r: ThreadingDict<K, V>)
    ensures r.frequency == s.frequency
    decreases |outcomes|
  {
    if |outcomes| == 0 then s else Run(RefreshStep(s, outcomes[0]), outcomes[1..])
  }

  /** The map of the latest tick whose producer returned one, if any. */
  function LatestSnapshot<K(==), V>(outcomes: seq<Outcome<K, V>>): Option<map<K, V>>
    decreases |outcomes|
  {
    if |outcomes| == 0 then None
    else if outcomes[|outcomes| - 1].Returned? then Some(outcomes[|outcomes| - 1].snapshot)
    else LatestSnapshot(outcomes[..|outcomes| - 1])
  }

  /** A further tick extends the run by one refresh step. */
  lemma {:induction false} RunSnoc<K, V>(s: ThreadingDict<K, V>, outcomes: seq<Outcome<K, V>>, o: Outcome<K, V>)
    ensures Run(s, outcomes + [o]) == RefreshStep(Run(s, outcomes), o)
    decreases |outcomes|
  {
    if |outcomes| > 0 {
      assert (outcomes + [o])[1..] == outcomes[1..] + [o];
      RunSnoc(RefreshStep(s, outcomes[0]), outcomes[1..], o);
    }
  }

  /** After any run of ticks the store holds the map of the latest successful one, or what it
      held before when every tick raised or returned None. */
  lemma {:induction false} RunKeepsLatest<K, V>(s: ThreadingDict<K, V>, outcomes: seq<Outcome<K, V>>)
    ensures Run(s, outcomes).data == LatestSnapshot(outcomes).GetOr(s.data)
    decreases |outcomes|
  {
    if |outcomes| > 0 {
      var init := outcomes[..|outcomes| - 1];
      var last := outcomes[|outcomes| - 1];
      assert outcomes == init + [last];
      RunSnoc(s, init, last);
      RunKeepsLatest(s, init);
    }
  }

  /** A store whose producer never returns a map stays at its initial empty snapshot. */
  lemma NeverReturned<K, V>(interval: Option<int>, outcomes: seq<Outcome<K, V>>)
    requires forall i :: 0 <= i < |outcomes| ==> !outcomes[i].Returned?
    ensures |Run(Create<K, V>(interval), outcomes).data| == 0
  {
    assert LatestSnapshot(outcomes) == None by {
      NoneReturned(outcomes);
    }
    RunKeepsLatest(Create<K, V>(interval), outcomes);
  }

  lemma {:induction false} NoneReturned<K, V>(outcomes: seq<Outcome<K, V>>)
    requires forall i :: 0 <= i < |outcomes| ==> !outcomes[i].Returned?
    ensures LatestSnapshot(outcomes) == None
    decreases |outcomes|
  {
    if |outcomes| > 0 {
      NoneReturned(outcomes[..|outcomes| - 1]);
    }
  }
}
