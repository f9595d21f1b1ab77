/** Generic sequence helpers the request logic is built from: order-preserving selection
    stated through kept positions, element-wise mapping, and collecting a run of results
    into one result that fails at the first failure. */
module Seqs {
  import opened Base

  // ---------------------------------------------------------------------------
  // Ordered selection
  // ---------------------------------------------------------------------------

  /** `r` is `xs` at the strictly increasing positions `idx`. */
  ghost predicate Picks<T>(r: seq<T>, xs: seq<T>, idx: seq<int>) {
    |idx| == |r|
    && (forall k :: 0 <= k < |idx| ==> 0 <= idx[k] < |xs| && r[k] == xs[idx[k]])
    && (forall k, l :: 0 <= k < l < |idx| ==> idx[k] < idx[l])
  }

  /** `r` is `xs` kept at exactly the positions `keep` marks, in order and each once: an
      ordered subsequence, with nothing repeated, reordered or dropped among the kept. */
  ghost predicate KeptAt<T>(r: seq<T>, xs: seq<T>, keep: seq<bool>) {
    |keep| == |xs|
    && exists idx :: (Picks(r, xs, idx) && forall i :: 0 <= i < |xs| ==> (i in idx <==> keep[i]))
  }

  /** Every position moved one place on. */
  function Shift(idx: seq<int>): (s: seq<int>)
    ensures |s| == |idx|
    ensures forall k :: 0 <= k < |idx| ==> s[k] == idx[k] + 1
  {
    seq(|idx|, k requires 0 <= k < |idx| => idx[k] + 1)
  }

  /** Nothing is kept from nothing. */
  lemma KeptNone<T>(xs: seq<T>, keep: seq<bool>)
    requires |xs| == 0 && |keep| == 0
    ensures KeptAt([], xs, keep)
  {
    assert Picks([], xs, []);
  }

  /** A shifted position is one past a position of the original, and never the first. */
  lemma ShiftMembers(idx: seq<int>)
    requires forall k :: 0 <= k < |idx| ==> 0 <= idx[k]
    ensures forall i :: 0 < i ==> (i in Shift(idx) <==> i - 1 in idx)
    ensures 0 !in Shift(idx)
  {
    var s := Shift(idx);
    forall i | 0 < i
      ensures i in s <==> i - 1 in idx
    {
      if i - 1 in idx {
        var k :| 0 <= k < |idx| && idx[k] == i - 1;
        assert s[k] == i;
      }
    }
  }

  /** Positions in the tail, one further on, are positions in the whole. */
  lemma PicksShift<T>(r: seq<T>, xs: seq<T>, idx: seq<int>)
    requires |xs| > 0 && Picks(r, xs[1..], idx)
    ensures Picks(r, xs, Shift(idx))
  {
  }

  /** The head comes before every shifted position of the tail. */
  lemma PicksFront<T>(r: seq<T>, xs: seq<T>, idx: seq<int>)
    requires |xs| > 0 && Picks(r, xs[1..], idx)
    ensures Picks([xs[0]] + r, xs, [0] + Shift(idx))
  {
    PicksShift(r, xs, idx);
  }

  /** One step of an order-preserving filter: the head is kept in front of what the tail
      keeps exactly when its mark is set. */
  lemma KeptCons<T>(r: seq<T>, xs: seq<T>, keep: seq<bool>)
    requires |xs| > 0 && |keep| == |xs| && KeptAt(r, xs[1..], keep[1..])
    ensures KeptAt(if keep[0] then [xs[0]] + r else r, xs, keep)
  {
    var rest := xs[1..];
    var idx :| Picks(r, rest, idx) && forall i :: 0 <= i < |rest| ==> (i in idx <==> keep[1..][i]);
    ShiftMembers(idx);
    var s := Shift(idx);
    assert forall i :: 0 < i < |xs| ==> (i in s <==> keep[i]) by {
      forall i | 0 < i < |xs|
        ensures i in s <==> keep[i]
      {
        assert keep[1..][i - 1] == keep[i];
      }
    }
    if keep[0] {
      PicksFront(r, xs, idx);
      var w := [0] + s;
      assert forall i :: 0 < i ==> (i in w <==> i in s);
      assert forall i :: 0 <= i < |xs| ==> (i in w <==> keep[i]);
    } else {
      PicksShift(r, xs, idx);
      assert forall i :: 0 <= i < |xs| ==> (i in s <==> keep[i]);
    }
  }

  // ---------------------------------------------------------------------------
  // Mapping
  // ---------------------------------------------------------------------------

  /** A partial function applied to each element, in order. */
  function Map<A, B>(xs: seq<A>, g: A --> B): (ys: seq<B>)
    requires forall i :: 0 <= i < |xs| ==> g.requires(xs[i])
    ensures |ys| == |xs|
    ensures forall i :: 0 <= i < |xs| ==> ys[i] == g(xs[i])
  {
    seq(|xs|, i requires 0 <= i < |xs| => g(xs[i]))
  }

  /** Mapping a concatenation maps each part. */
  lemma MapAppend<A, B>(a: seq<A>, b: seq<A>, g: A --> B)
    requires forall i :: 0 <= i < |a| ==> g.requires(a[i])
    requires forall i :: 0 <= i < |b| ==> g.requires(b[i])
    ensures forall i :: 0 <= i < |a + b| ==> g.requires((a + b)[i])
    ensures Map(a + b, g) == Map(a, g) + Map(b, g)
  {
    forall i | 0 <= i < |a + b|
      ensures g.requires((a + b)[i])
    {
      if i >= |a| {
        assert (a + b)[i] == b[i - |a|];
      }
    }
    var x, y, z := Map(a, g), Map(b, g), Map(a + b, g);
    forall i | 0 <= i < |z|
      ensures z[i] == (x + y)[i]
    {
      if i >= |a| {
        assert (a + b)[i] == b[i - |a|];
      }
    }
  }

  // ---------------------------------------------------------------------------
  // Collecting results
  // ---------------------------------------------------------------------------

  /** The values of a run of results in order, or the first failure among them. */
  function Collect<T, E>(rs: seq<Result<T, E>>): Result<seq<T>, E>
    decreases |rs|
  {
    if |rs| == 0 then Ok([])
    else
      match rs[0]
      case Err(e) => Err(e)
      case Ok(v) =>
        match Collect(rs[1..])
        case Err(e) => Err(e)
        case Ok(vs) => Ok([v] + vs)
  }

  /** Collecting fails exactly when one of the results is a failure. */
  lemma {:induction false} CollectOk<T, E>(rs: seq<Result<T, E>>)
    ensures Collect(rs).Ok? <==> forall i :: 0 <= i < |rs| ==> rs[i].Ok?
    decreases |rs|
  {
    if |rs| > 0 {
      var rest := rs[1..];
      CollectOk(rest);
      if rs[0].Ok? && !Collect(rest).Ok? {
        var i :| 0 <= i < |rest| && !rest[i].Ok?;
        assert rest[i] == rs[i + 1];
      }
      if Collect(rs).Ok? {
        forall i | 0 <= i < |rs|
          ensures rs[i].Ok?
        {
          if i > 0 {
            assert rs[i] == rest[i - 1];
          }
        }
      }
    }
  }

  /** A successful collection holds one value per result, in order. */
  lemma {:induction false} CollectEach<T, E>(rs: seq<Result<T, E>>)
    requires Collect(rs).Ok?
    ensures |Collect(rs).value| == |rs|
    ensures forall i :: 0 <= i < |rs| ==> Ok(Collect(rs).value[i]) == rs[i]
    decreases |rs|
  {
    if |rs| > 0 {
      var rest := rs[1..];
      CollectEach(rest);
      var vs := Collect(rs).value;
      assert vs == [rs[0].value] + Collect(rest).value;
      forall i | 0 <= i < |rs|
        ensures Ok(vs[i]) == rs[i]
      {
        if i > 0 {
          assert vs[i] == Collect(rest).value[i - 1];
          assert rs[i] == rest[i - 1];
        }
      }
    }
  }

  /** The values of a run of results concatenated in order, or the first failure among them. */
  function Gather<T, E>(rs: seq<Result<seq<T>, E>>): Result<seq<T>, E>
    decreases |rs|
  {
    if |rs| == 0 then Ok([])
    else
      match rs[0]
      case Err(e) => Err(e)
      case Ok(v) =>
        match Gather(rs[1..])
        case Err(e) => Err(e)
        case Ok(w) => Ok(v + w)
  }

  /** Gathering two runs gathers each and concatenates: the outcome succeeds exactly when both
      halves do. */
  lemma {:induction false} GatherAppend<T, E>(x: seq<Result<seq<T>, E>>, y: seq<Result<seq<T>, E>>)
    ensures Gather(x + y).Ok? <==> Gather(x).Ok? && Gather(y).Ok?
    ensures Gather(x + y).Ok? ==> Gather(x + y).value == Gather(x).value + Gather(y).value
    decreases |x|
  {
    if |x| == 0 {
      assert x + y == y;
    } else {
      assert (x + y)[1..] == x[1..] + y;
      assert (x + y)[0] == x[0];
      GatherAppend(x[1..], y);
      if x[0].Ok? && Gather(x[1..] + y).Ok? {
        var v, u, w := x[0].value, Gather(x[1..]).value, Gather(y).value;
        assert v + (u + w) == (v + u) + w;
      }
    }
  }

  /** Every value of a successful gather comes from some successful result of the run. */
  lemma {:induction false} GatherFrom<T, E>(rs: seq<Result<seq<T>, E>>, j: int)
    requires Gather(rs).Ok? && 0 <= j < |Gather(rs).value|
    ensures exists i, k :: 0 <= i < |rs| && rs[i].Ok? && 0 <= k < |rs[i].value|
                           && Gather(rs).value[j] == rs[i].value[k]
    decreases |rs|
  {
    var v := rs[0].value;
    if j < |v| {
      assert Gather(rs).value[j] == rs[0].value[j];
    } else {
      GatherFrom(rs[1..], j - |v|);
      var i, k :| 0 <= i < |rs[1..]| && rs[1..][i].Ok? && 0 <= k < |rs[1..][i].value|
                  && Gather(rs[1..]).value[j - |v|] == rs[1..][i].value[k];
      assert rs[i + 1] == rs[1..][i];
    }
  }
}
