// sensors_poll_context_t::pollEvents (libsensors/sensors.cpp) as functions over the drivers'
// progress: rounds over the drivers, and the calls of poll() between them.
module Polls {

  const NUM_DRIVERS: nat := 4
  const WAKE: nat := 4
  const NUM_FDS: nat := 5

  // ---------------------------------------------------------------- drivers

  /** A driver hands out its records one after the other; how many it has at hand at its
      k-th call, and whether it says that some are waiting, is up to the device. */
  datatype Device<E> = Device(records: nat -> E, atHand: nat -> nat, waiting: nat -> bool)

  /** Records given so far, calls of readEvents, calls of hasPendingEvents. */
  datatype Progress = Progress(given: nat, calls: nat, asked: nat)

  function Least(m: nat, n: nat): nat {
    if m < n then m else n
  }

  /** The next `nb` records of a driver. */
  function Next<E>(records: nat -> E, given: nat, nb: nat): (out: seq<E>)
    ensures |out| == nb && forall i :: 0 <= i < nb ==> out[i] == records(given + i)
  {
    seq(nb, i requires 0 <= i => records(given + i))
  }

  function Times(d: nat, nb: nat): (ds: seq<nat>)
    ensures |ds| == nb && forall i :: 0 <= i < nb ==> ds[i] == d
  {
    seq(nb, _ => d)
  }

  /** readEvents with room for `count` records. */
  function Give<E>(v: Device<E>, p: Progress, count: nat): (r: (Progress, seq<E>))
    ensures |r.1| <= count
  {
    var nb := Least(v.atHand(p.calls), count);
    (p.(given := p.given + nb, calls := p.calls + 1), Next(v.records, p.given, nb))
  }

  /** One driver's turn: it is asked if it is flagged or says that records are waiting. */
  function Turn<E>(v: Device<E>, p: Progress, flag: bool, count: nat): (r: (Progress, seq<E>))
    ensures |r.1| <= count
  {
    if flag then Give(v, p, count)
    else
      var p1 := p.(asked := p.asked + 1);
      if v.waiting(p.asked) then Give(v, p1, count) else (p1, [])
  }

  // ---------------------------------------------------------------- the context

  /** The drivers' progress, and POLLIN for each descriptor. */
  datatype Context = Context(progress: seq<Progress>, flags: seq<bool>)

  predicate Fits<E>(devices: seq<Device<E>>, c: Context) {
    |devices| == |c.progress| == NUM_DRIVERS && |c.flags| == NUM_FDS
  }

  /** Driver `i` has its turn; its flag goes if it gives fewer than it was asked for. */
  function TurnOf<E>(devices: seq<Device<E>>, c: Context, i: nat, count: nat): (r: (Context, seq<E>))
    requires Fits(devices, c) && i < NUM_DRIVERS
    ensures Fits(devices, r.0) && |r.1| <= count
  {
    var t := Turn(devices[i], c.progress[i], c.flags[i], count);
    (Context(c.progress[i := t.0], c.flags[i := c.flags[i] && |t.1| == count]), t.1)
  }

  datatype Served<E> = Served(context: Context, from: seq<nat>, out: seq<E>)

  /** A round over the drivers from `i` on, as long as there is room. */
  function Round<E>(devices: seq<Device<E>>, c: Context, i: nat, count: nat): (r: Served<E>)
    requires Fits(devices, c) && i <= NUM_DRIVERS
    ensures Fits(devices, r.context) && |r.from| == |r.out| <= count
    decreases NUM_DRIVERS - i
  {
    if count == 0 || i == NUM_DRIVERS then Served(c, [], [])
    else
      var t := TurnOf(devices, c, i, count);
      var rest := Round(devices, t.0, i + 1, count - |t.1|);
      Served(rest.context, Times(i, |t.1|) + rest.from, t.1 + rest.out)
  }

  /** One turn of a round. */
  lemma RoundTurn<E>(devices: seq<Device<E>>, c: Context, i: nat, count: nat)
    requires Fits(devices, c) && i <= NUM_DRIVERS
    ensures count == 0 || i == NUM_DRIVERS ==> Round(devices, c, i, count) == Served(c, [], [])
    ensures count != 0 && i < NUM_DRIVERS ==>
      var t := TurnOf(devices, c, i, count);
      var rest := Round(devices, t.0, i + 1, count - |t.1|);
      Round(devices, c, i, count) == Served(rest.context, Times(i, |t.1|) + rest.from, t.1 + rest.out)
  {
    hide TurnOf;
  }

  // ---------------------------------------------------------------- pollEvents

  /** How poll() comes back: with an error number, or with one readiness flag per descriptor. */
  datatype Answer = Failed(errno: int) | Ready(flags: seq<bool>)

  /** A call of poll(): its timeout, 0 or -1 for none, and its answer. */
  datatype Call = Call(timeout: int, answer: Answer)

  /** What the caller sees; a call still waiting in poll() has not come back. */
  datatype Outcome = Returned(nbEvents: nat) | PollError(errno: int) | Blocked

  datatype Run<E> = Run(outcome: Outcome, context: Context, from: seq<nat>, out: seq<E>, calls: seq<Call>)

  predicate Readable(polls: seq<Answer>) {
    forall k :: 0 <= k < |polls| && polls[k].Ready? ==> |polls[k].flags| == NUM_FDS
  }

  function Count(flags: seq<bool>): (n: nat)
    ensures n > 0 <==> true in flags
  {
    if flags == [] then 0 else (if flags[0] then 1 else 0) + Count(flags[1..])
  }

  /** pollEvents after `nb` records, with room for `count` more, when poll() is going to
      give these answers. The wake pipe is read as soon as it is ready. */
  function PollEvents<E>(devices: seq<Device<E>>, c: Context, nb: nat, count: nat, polls: seq<Answer>): (r: Run<E>)
    requires Fits(devices, c) && Readable(polls)
    ensures Fits(devices, r.context) && |r.from| == |r.out| <= count && |r.calls| <= |polls|
    decreases |polls|
  {
    var s := Round(devices, c, 0, count);
    var nb', count' := nb + |s.out|, count - |s.out|;
    var timeout := if nb' != 0 then 0 else -1;
    if count' == 0 then Run(Returned(nb'), s.context, s.from, s.out, [])
    else if polls == [] then Run(Blocked, s.context, s.from, s.out, [])
    else
      var call := Call(timeout, polls[0]);
      match polls[0]
      case Failed(errno) => Run(PollError(errno), s.context, s.from, s.out, [call])
      case Ready(flags) =>
        var n := Count(flags);
        if n == 0 && timeout < 0 then Run(Blocked, s.context, s.from, s.out, [call])
        else
          var c' := s.context.(flags := flags[WAKE := false]);
          if n == 0 then Run(Returned(nb'), c', s.from, s.out, [call])
          else
            var rest := PollEvents(devices, c', nb', count', polls[1..]);
            Run(rest.outcome, rest.context, s.from + rest.from, s.out + rest.out, [call] + rest.calls)
  }

  predicate FoundSome(call: Call) {
    call.answer.Ready? && true in call.answer.flags
  }

  predicate FoundNone(call: Call) {
    call.answer.Ready? && true !in call.answer.flags
  }

  /** One round of pollEvents and the poll() after it. */
  lemma PollRound<E>(devices: seq<Device<E>>, c: Context, nb: nat, count: nat, polls: seq<Answer>)
    requires Fits(devices, c) && Readable(polls)
    ensures var r, s := PollEvents(devices, c, nb, count, polls), Round(devices, c, 0, count);
      var nb' := nb + |s.out|;
      && (|s.out| == count ==> r == Run(Returned(nb'), s.context, s.from, s.out, []))
      && (|s.out| < count && polls == [] ==> r == Run(Blocked, s.context, s.from, s.out, []))
      && (|s.out| < count && polls != [] ==>
        var call := Call(if nb' != 0 then 0 else -1, polls[0]);
        && (polls[0].Failed? ==> r == Run(PollError(polls[0].errno), s.context, s.from, s.out, [call]))
        && (polls[0].Ready? ==>
          var c' := s.context.(flags := polls[0].flags[WAKE := false]);
          && (FoundNone(call) && nb' == 0 ==> r == Run(Blocked, s.context, s.from, s.out, [call]))
          && (FoundNone(call) && nb' != 0 ==> r == Run(Returned(nb'), c', s.from, s.out, [call]))
          && (FoundSome(call) ==>
            var rest := PollEvents(devices, c', nb', count - |s.out|, polls[1..]);
            r == Run(rest.outcome, rest.context, s.from + rest.from, s.out + rest.out, [call] + rest.calls))))
  {
    hide Round;
  }

  /** The run `whole` is `out` and `calls` followed by the run `rest`. */
  ghost predicate Continues<E>(whole: Run<E>, out: seq<E>, calls: seq<Call>, rest: Run<E>) {
    && whole.outcome == rest.outcome && whole.context == rest.context
    && whole.out == out + rest.out && whole.calls == calls + rest.calls
  }

  lemma ContinuesAll<E>(whole: Run<E>)
    ensures Continues(whole, [], [], whole)
  {
  }

  lemma GoesOn<E>(whole: Run<E>, out: seq<E>, calls: seq<Call>, rest: Run<E>, more: seq<E>, call: Call, rest': Run<E>)
    requires Continues(whole, out, calls, rest)
    requires rest.outcome == rest'.outcome && rest.context == rest'.context
    requires rest.out == more + rest'.out && rest.calls == [call] + rest'.calls
    ensures Continues(whole, out + more, calls + [call], rest')
  {
  }

  /** The run ends here. */
  ghost predicate Is<E>(whole: Run<E>, outcome: Outcome, c: Context, out: seq<E>, calls: seq<Call>) {
    whole.outcome == outcome && whole.context == c && whole.out == out && whole.calls == calls
  }

  lemma Ended<E>(whole: Run<E>, out: seq<E>, calls: seq<Call>, rest: Run<E>)
    requires Continues(whole, out, calls, rest)
    ensures Is(whole, rest.outcome, rest.context, out + rest.out, calls + rest.calls)
  {
  }

  /** A run that has come to its k-th answer, one round and one poll() further. */
  lemma RoundOn<E>(whole: Run<E>, out: seq<E>, calls: seq<Call>, devices: seq<Device<E>>, c: Context, nb: nat,
                   count: nat, polls: seq<Answer>, k: nat)
    requires Fits(devices, c) && Readable(polls) && k <= |polls|
    requires Continues(whole, out, calls, PollEvents(devices, c, nb, count, polls[k..]))
    ensures var s := Round(devices, c, 0, count);
      var nb' := nb + |s.out|;
      && (|s.out| == count ==> Is(whole, Returned(nb'), s.context, out + s.out, calls))
      && (|s.out| < count && k == |polls| ==> Is(whole, Blocked, s.context, out + s.out, calls))
      && (|s.out| < count && k < |polls| ==>
        var call := Call(if nb' != 0 then 0 else -1, polls[k]);
        && (polls[k].Failed? ==> Is(whole, PollError(polls[k].errno), s.context, out + s.out, calls + [call]))
        && (polls[k].Ready? ==>
          var c' := s.context.(flags := polls[k].flags[WAKE := false]);
          && (FoundNone(call) && nb' == 0 ==> Is(whole, Blocked, s.context, out + s.out, calls + [call]))
          && (FoundNone(call) && nb' != 0 ==> Is(whole, Returned(nb'), c', out + s.out, calls + [call]))
          && (FoundSome(call) ==> Continues(whole, out + s.out, calls + [call],
                PollEvents(devices, c', nb', count - |s.out|, polls[k + 1..])))))
  {
    hide Continues, PollEvents, Round, Is;
    var s, rest := Round(devices, c, 0, count), PollEvents(devices, c, nb, count, polls[k..]);
    PollRound(devices, c, nb, count, polls[k..]);
    Ended(whole, out, calls, rest);
    if |s.out| < count && k < |polls| && polls[k].Ready? && true in polls[k].flags {
      assert polls[k..][1..] == polls[k + 1..];
      var call := Call(if nb + |s.out| != 0 then 0 else -1, polls[k]);
      var c' := s.context.(flags := polls[k].flags[WAKE := false]);
      GoesOn(whole, out, calls, rest, s.out, call, PollEvents(devices, c', nb + |s.out|, count - |s.out|, polls[k + 1..]));
    } else {
      assert calls + [] == calls;
    }
  }

  // ---------------------------------------------------------------- merging

  /** Each record of `out` is the next one of the driver that `from` names for it; the
      drivers go from having given `before` to having given `after`. */
  ghost predicate Merge<E>(records: seq<nat -> E>, before: seq<nat>, after: seq<nat>, from: seq<nat>, out: seq<E>)
    decreases |out|
  {
    && |records| == |before| == |after| && |from| == |out|
    && if out == [] then before == after
       else
         var n := |out| - 1;
         var d := from[n];
         && d < |after| && after[d] > 0 && out[n] == records[d](after[d] - 1)
         && Merge(records, before, after[d := after[d] - 1], from[..n], out[..n])
  }

  /** The records that came from driver `d`. */
  function From<E>(d: nat, from: seq<nat>, out: seq<E>): seq<E>
    requires |from| == |out|
  {
    if out == [] then []
    else
      var n := |out| - 1;
      From(d, from[..n], out[..n]) + if from[n] == d then [out[n]] else []
  }

  function Total(counts: seq<nat>): nat {
    if counts == [] then 0 else counts[0] + Total(counts[1..])
  }

  /** A merge stays one when driver `d` gives its next `nb` records. */
  lemma {:induction false} MergeMore<E>(records: seq<nat -> E>, before: seq<nat>, mid: seq<nat>, d: nat, nb: nat,
                                        from: seq<nat>, out: seq<E>)
    requires Merge(records, before, mid, from, out) && d < |mid|
    ensures |records| == |mid|
    ensures Merge(records, before, mid[d := mid[d] + nb], from + Times(d, nb), out + Next(records[d], mid[d], nb))
    decreases nb
  {
    var after, from', out' := mid[d := mid[d] + nb], from + Times(d, nb), out + Next(records[d], mid[d], nb);
    if nb == 0 {
      assert after == mid && from' == from && out' == out;
    } else {
      MergeMore(records, before, mid, d, nb - 1, from, out);
      var n := |out'| - 1;
      assert after[d := after[d] - 1] == mid[d := mid[d] + (nb - 1)];
      assert from'[..n] == from + Times(d, nb - 1);
      assert out'[..n] == out + Next(records[d], mid[d], nb - 1);
      assert from'[n] == d && out'[n] == records[d](after[d] - 1);
    }
  }

  /** In a merge each driver's records are exactly those it gave, in its own order. */
  lemma {:induction false} EachInOrder<E>(records: seq<nat -> E>, before: seq<nat>, after: seq<nat>,
                                          from: seq<nat>, out: seq<E>, d: nat)
    requires Merge(records, before, after, from, out) && d < |records|
    ensures before[d] <= after[d]
    ensures From(d, from, out) == Next(records[d], before[d], after[d] - before[d])
    decreases |out|
  {
    if out != [] {
      var n := |out| - 1;
      var e := from[n];
      EachInOrder(records, before, after[e := after[e] - 1], from[..n], out[..n], d);
    }
  }

  lemma {:induction false} TotalUpdate(counts: seq<nat>, d: nat, n: nat)
    requires d < |counts|
    ensures Total(counts[d := n]) == Total(counts) - counts[d] + n
    decreases |counts|
  {
    if d == 0 {
      assert counts[d := n][1..] == counts[1..];
    } else {
      TotalUpdate(counts[1..], d - 1, n);
      assert counts[d := n][1..] == counts[1..][d - 1 := n];
    }
  }

  /** A merge holds every record that was given, and no others. */
  lemma {:induction false} NoneLost<E>(records: seq<nat -> E>, before: seq<nat>, after: seq<nat>, from: seq<nat>, out: seq<E>)
    requires Merge(records, before, after, from, out)
    ensures Total(after) == Total(before) + |out|
    decreases |out|
  {
    if out != [] {
      var n := |out| - 1;
      var e := from[n];
      NoneLost(records, before, after[e := after[e] - 1], from[..n], out[..n]);
      TotalUpdate(after, e, after[e] - 1);
    }
  }

  lemma MergeNothing<E>(records: seq<nat -> E>, given: seq<nat>)
    requires |records| == |given|
    ensures Merge(records, given, given, [], [])
  {
  }

  lemma {:induction false} MergeTrans<E>(records: seq<nat -> E>, before: seq<nat>, mid: seq<nat>, after: seq<nat>,
                                         from: seq<nat>, out: seq<E>, from': seq<nat>, out': seq<E>)
    requires Merge(records, before, mid, from, out) && Merge(records, mid, after, from', out')
    ensures Merge(records, before, after, from + from', out + out')
    decreases |out'|
  {
    if out' == [] {
      assert from + from' == from && out + out' == out;
    } else {
      var n := |out'| - 1;
      var d := from'[n];
      MergeTrans(records, before, mid, after[d := after[d] - 1], from, out, from'[..n], out'[..n]);
      assert (from + from')[..|out| + n] == from + from'[..n];
      assert (out + out')[..|out| + n] == out + out'[..n];
    }
  }

  function Records<E>(devices: seq<Device<E>>): (r: seq<nat -> E>)
    ensures |r| == |devices| && forall i :: 0 <= i < |devices| ==> r[i] == devices[i].records
  {
    seq(|devices|, i requires 0 <= i < |devices| => devices[i].records)
  }

  function Given(c: Context): (g: seq<nat>)
    ensures |g| == |c.progress| && forall i :: 0 <= i < |g| ==> g[i] == c.progress[i].given
  {
    seq(|c.progress|, i requires 0 <= i < |c.progress| => c.progress[i].given)
  }

  lemma TurnMerges<E>(devices: seq<Device<E>>, c: Context, i: nat, count: nat)
    requires Fits(devices, c) && i < NUM_DRIVERS
    ensures var t := TurnOf(devices, c, i, count);
      Merge(Records(devices), Given(c), Given(t.0), Times(i, |t.1|), t.1)
  {
    hide Merge;
    var t := TurnOf(devices, c, i, count);
    var g := Given(c);
    MergeNothing(Records(devices), g);
    MergeMore(Records(devices), g, g, i, |t.1|, [], []);
    assert Given(t.0) == g[i := g[i] + |t.1|];
    assert [] + Times(i, |t.1|) == Times(i, |t.1|);
    assert [] + Next(devices[i].records, g[i], |t.1|) == t.1;
  }

  /** What a round writes is a merge of what the drivers gave in it. */
  lemma {:induction false} RoundMerges<E>(devices: seq<Device<E>>, c: Context, i: nat, count: nat)
    requires Fits(devices, c) && i <= NUM_DRIVERS
    ensures var r := Round(devices, c, i, count);
      Merge(Records(devices), Given(c), Given(r.context), r.from, r.out)
    decreases NUM_DRIVERS - i
  {
    hide Merge, TurnOf, Given, Records, Times;
    if count == 0 || i == NUM_DRIVERS {
      MergeNothing(Records(devices), Given(c));
    } else {
      var t := TurnOf(devices, c, i, count);
      var rest := Round(devices, t.0, i + 1, count - |t.1|);
      TurnMerges(devices, c, i, count);
      RoundMerges(devices, t.0, i + 1, count - |t.1|);
      MergeTrans(Records(devices), Given(c), Given(t.0), Given(rest.context), Times(i, |t.1|), t.1, rest.from, rest.out);
    }
  }

  /** What pollEvents writes, however it ends, is a merge of what the drivers gave. */
  lemma {:induction false} PollMerges<E>(devices: seq<Device<E>>, c: Context, nb: nat, count: nat, polls: seq<Answer>)
    requires Fits(devices, c) && Readable(polls)
    ensures var r := PollEvents(devices, c, nb, count, polls);
      Merge(Records(devices), Given(c), Given(r.context), r.from, r.out)
    decreases |polls|
  {
    hide Merge, Round, Records;
    var s := Round(devices, c, 0, count);
    RoundMerges(devices, c, 0, count);
    if |s.out| < count && polls != [] && polls[0].Ready? {
      var c' := s.context.(flags := polls[0].flags[WAKE := false]);
      assert Given(c') == Given(s.context);
      if Count(polls[0].flags) > 0 {
        var rest := PollEvents(devices, c', nb + |s.out|, count - |s.out|, polls[1..]);
        PollMerges(devices, c', nb + |s.out|, count - |s.out|, polls[1..]);
        MergeTrans(Records(devices), Given(c), Given(c'), Given(rest.context), s.from, s.out, rest.from, rest.out);
      }
    }
  }

  // ---------------------------------------------------------------- who is asked

  /** How many records came from drivers before `d`. */
  function Before(d: nat, from: seq<nat>): (n: nat)
    ensures n <= |from|
  {
    if from == [] then 0
    else
      var n := |from| - 1;
      Before(d, from[..n]) + if from[n] < d then 1 else 0
  }

  lemma {:induction false} FromAppend<E>(d: nat, from: seq<nat>, out: seq<E>, from': seq<nat>, out': seq<E>)
    requires |from| == |out| && |from'| == |out'|
    ensures From(d, from + from', out + out') == From(d, from, out) + From(d, from', out')
    ensures Before(d, from + from') == Before(d, from) + Before(d, from')
    decreases |out'|
  {
    if out' == [] {
      assert from + from' == from && out + out' == out;
    } else {
      var n := |out'| - 1;
      FromAppend(d, from, out, from'[..n], out'[..n]);
      assert (from + from')[..|out| + n] == from + from'[..n];
      assert (out + out')[..|out| + n] == out + out'[..n];
    }
  }

  lemma {:induction false} FromTimes<E>(d: nat, i: nat, out: seq<E>)
    ensures From(d, Times(i, |out|), out) == if i == d then out else []
    ensures Before(d, Times(i, |out|)) == if i < d then |out| else 0
    decreases |out|
  {
    if out != [] {
      var n := |out| - 1;
      FromTimes(d, i, out[..n]);
      assert Times(i, |out|)[..n] == Times(i, n);
      assert out == out[..n] + [out[n]];
    }
  }

  lemma TurnLeavesOthers<E>(devices: seq<Device<E>>, c: Context, i: nat, count: nat, d: nat)
    requires Fits(devices, c) && i < NUM_DRIVERS && d < NUM_DRIVERS
    ensures var t := TurnOf(devices, c, i, count);
      && (d != i ==> t.0.progress[d] == c.progress[d] && t.0.flags[d] == c.flags[d])
      && (d == i ==>
        && (t.0.progress[d], t.1) == Turn(devices[d], c.progress[d], c.flags[d], count)
        && t.0.flags[d] == (c.flags[d] && |t.1| == count))
  {
    hide Turn;
  }

  /** What a turn adds to the records of driver `d`. */
  lemma RoundFrom<E>(i: nat, t: seq<E>, from: seq<nat>, out: seq<E>, d: nat)
    requires |from| == |out|
    ensures From(d, Times(i, |t|) + from, t + out) == if d == i then t + From(d, from, out) else From(d, from, out)
    ensures Before(d, Times(i, |t|) + from) == (if i < d then |t| else 0) + Before(d, from)
  {
    hide From, Before, Times;
    FromTimes(d, i, t);
    FromAppend(d, Times(i, |t|), t, from, out);
    assert [] + From(d, from, out) == From(d, from, out);
  }

  lemma FromNothing<E>(d: nat)
    ensures From<E>(d, [], []) == [] && Before(d, []) == 0
  {
  }

  /** A round from driver `i` on leaves the drivers before it alone. */
  lemma {:induction false} RoundStartsAt<E>(devices: seq<Device<E>>, c: Context, i: nat, count: nat, d: nat)
    requires Fits(devices, c) && d < i <= NUM_DRIVERS
    ensures var r := Round(devices, c, i, count);
      && r.context.progress[d] == c.progress[d] && r.context.flags[d] == c.flags[d]
      && From(d, r.from, r.out) == [] && Before(d, r.from) == 0
    decreases NUM_DRIVERS - i
  {
    hide Turn, Times, TurnOf, Round, From, Before;
    RoundTurn(devices, c, i, count);
    if count != 0 && i < NUM_DRIVERS {
      var t := TurnOf(devices, c, i, count);
      var rest := Round(devices, t.0, i + 1, count - |t.1|);
      RoundStartsAt(devices, t.0, i + 1, count - |t.1|, d);
      TurnLeavesOthers(devices, c, i, count, d);
      RoundFrom(i, t.1, rest.from, rest.out, d);
    } else {
      FromNothing<E>(d);
    }
  }

  /** A driver with this much room: without room nothing happens; with room it is called
      exactly if it is flagged or, when asked, says that records are waiting, and then gives
      its next records, as many as it has at hand and there is room for. */
  ghost predicate Asked<E>(v: Device<E>, p: Progress, flag: bool, room: int, p': Progress, flag': bool, out: seq<E>) {
    && room >= 0
    && (room == 0 ==> p' == p && flag' == flag && out == [])
    && (room > 0 ==>
      var called := flag || v.waiting(p.asked);
      && p'.asked == p.asked + (if flag then 0 else 1)
      && p'.calls == p.calls + (if called then 1 else 0)
      && p'.given == p.given + |out|
      && |out| == (if !called then 0 else if v.atHand(p.calls) < room then v.atHand(p.calls) else room)
      && (forall i :: 0 <= i < |out| ==> out[i] == v.records(p.given + i))
      && flag' == (flag && |out| == room))
  }

  lemma TurnAsks<E>(v: Device<E>, p: Progress, flag: bool, room: nat)
    requires room > 0
    ensures var t := Turn(v, p, flag, room);
      Asked(v, p, flag, room, t.0, flag && |t.1| == room, t.1)
  {
  }

  lemma NotAsked<E>(v: Device<E>, p: Progress, flag: bool)
    ensures Asked(v, p, flag, 0, p, flag, [])
  {
  }

  /** In a round each driver has its turn with the room that the drivers before it left; its
      records, its progress and its flag afterwards are those of that turn. */
  lemma {:induction false} EachAsked<E>(devices: seq<Device<E>>, c: Context, i: nat, count: nat, d: nat)
    requires Fits(devices, c) && i <= d < NUM_DRIVERS
    ensures var r := Round(devices, c, i, count);
      Asked(devices[d], c.progress[d], c.flags[d], count - Before(d, r.from),
            r.context.progress[d], r.context.flags[d], From(d, r.from, r.out))
    decreases NUM_DRIVERS - i
  {
    hide Turn, Times, TurnOf, Round, From, Before, Asked;
    RoundTurn(devices, c, i, count);
    if count != 0 {
      var t := TurnOf(devices, c, i, count);
      var rest := Round(devices, t.0, i + 1, count - |t.1|);
      RoundFrom(i, t.1, rest.from, rest.out, d);
      TurnLeavesOthers(devices, c, i, count, d);
      if d == i {
        RoundStartsAt(devices, t.0, i + 1, count - |t.1|, d);
        TurnAsks(devices[d], c.progress[d], c.flags[d], count);
        assert t.1 + [] == t.1;
      } else {
        EachAsked(devices, t.0, i + 1, count - |t.1|, d);
      }
    } else {
      FromNothing<E>(d);
      NotAsked(devices[d], c.progress[d], c.flags[d]);
    }
  }

  lemma RoundGrows<E>(devices: seq<Device<E>>, c: Context, count: nat, d: nat)
    requires Fits(devices, c) && d < NUM_DRIVERS
    ensures var r := Round(devices, c, 0, count);
      && r.context.progress[d].calls >= c.progress[d].calls
      && (c.flags[d] && |r.out| < count ==> r.context.progress[d].calls > c.progress[d].calls)
  {
    hide Round, From, Before;
    EachAsked(devices, c, 0, count, d);
  }

  /** No call takes anything back: a driver's counters never go down. */
  lemma {:induction false} CountersGrow<E>(devices: seq<Device<E>>, c: Context, nb: nat, count: nat, polls: seq<Answer>, d: nat)
    requires Fits(devices, c) && Readable(polls) && d < NUM_DRIVERS
    ensures PollEvents(devices, c, nb, count, polls).context.progress[d].calls >= c.progress[d].calls
    decreases |polls|
  {
    hide PollEvents, Round;
    PollRound(devices, c, nb, count, polls);
    RoundGrows(devices, c, count, d);
    var s := Round(devices, c, 0, count);
    if |s.out| < count && polls != [] && polls[0].Ready? && true in polls[0].flags {
      var c' := s.context.(flags := polls[0].flags[WAKE := false]);
      CountersGrow(devices, c', nb + |s.out|, count - |s.out|, polls[1..], d);
    }
  }

  /** The first round of a call fills it, or its calls are among the call's. */
  lemma FirstRoundStays<E>(devices: seq<Device<E>>, c: Context, nb: nat, count: nat, polls: seq<Answer>, d: nat)
    requires Fits(devices, c) && Readable(polls) && d < NUM_DRIVERS
    ensures var r, s := PollEvents(devices, c, nb, count, polls), Round(devices, c, 0, count);
      && r.context.progress[d].calls >= s.context.progress[d].calls
      && (|s.out| == count ==> |r.out| == count)
  {
    hide PollEvents, Round;
    PollRound(devices, c, nb, count, polls);
    var s := Round(devices, c, 0, count);
    if |s.out| < count && polls != [] && polls[0].Ready? && true in polls[0].flags {
      CountersGrow(devices, s.context.(flags := polls[0].flags[WAKE := false]), nb + |s.out|, count - |s.out|, polls[1..], d);
    }
  }

  /** Every driver that some poll() of a call reports ready is called afterwards, unless the
      room runs out first. */
  lemma {:induction false} ReadyIsCalled<E>(devices: seq<Device<E>>, c: Context, nb: nat, count: nat, polls: seq<Answer>,
                                            j: nat, d: nat)
    requires Fits(devices, c) && Readable(polls) && d < NUM_DRIVERS
    requires var r := PollEvents(devices, c, nb, count, polls);
      j < |r.calls| && r.calls[j].answer.Ready? && d < |r.calls[j].answer.flags| && r.calls[j].answer.flags[d]
    ensures var r := PollEvents(devices, c, nb, count, polls);
      |r.out| == count || r.context.progress[d].calls > c.progress[d].calls
    decreases |polls|
  {
    hide PollEvents, Round;
    PollRound(devices, c, nb, count, polls);
    RoundGrows(devices, c, count, d);
    var s, r := Round(devices, c, 0, count), PollEvents(devices, c, nb, count, polls);
    var flags := polls[0].flags;
    assert flags[d] && j == 0 ==> true in flags;
    var c' := s.context.(flags := flags[WAKE := false]);
    var rest := PollEvents(devices, c', nb + |s.out|, count - |s.out|, polls[1..]);
    if j == 0 {
      PollRound(devices, c', nb + |s.out|, count - |s.out|, polls[1..]);
      RoundGrows(devices, c', count - |s.out|, d);
      FirstRoundStays(devices, c', nb + |s.out|, count - |s.out|, polls[1..], d);
    } else {
      ReadyIsCalled(devices, c', nb + |s.out|, count - |s.out|, polls[1..], j - 1, d);
    }
  }

  // ---------------------------------------------------------------- how a call ends

  function Answers(calls: seq<Call>): seq<Answer> {
    if calls == [] then [] else [calls[0].answer] + Answers(calls[1..])
  }

  /** How a call of pollEvents ends, told from its calls of poll(): every one but the last
      found something ready; `delivered` says whether there was something to return when
      the last one was made. */
  predicate Ends(outcome: Outcome, calls: seq<Call>, delivered: bool, total: nat, full: bool, more: bool) {
    && (forall k :: 0 <= k < |calls| - 1 ==> FoundSome(calls[k]))
    && if calls == [] || FoundSome(calls[|calls| - 1])
       then outcome == (if full then Returned(total) else Blocked) && (!full ==> !more)
       else
         var last := calls[|calls| - 1];
         && !full
         && last.timeout == (if delivered then 0 else -1)
         && outcome == match last.answer
            case Failed(errno) => PollError(errno)
            case Ready(_) => if delivered then Returned(total) else Blocked
  }

  lemma EndsMore(call: Call, outcome: Outcome, calls: seq<Call>, delivered: bool, total: nat, full: bool, more: bool)
    requires Ends(outcome, calls, delivered, total, full, more) && FoundSome(call)
    ensures Ends(outcome, [call] + calls, delivered, total, full, more)
  {
    var all := [call] + calls;
    forall k | 0 <= k < |all| - 1
      ensures FoundSome(all[k])
    {
      assert k > 0 ==> all[k] == calls[k - 1];
    }
  }

  lemma AnswersMore(call: Call, calls: seq<Call>, polls: seq<Answer>)
    requires polls != [] && call.answer == polls[0]
    requires |calls| < |polls| && Answers(calls) == polls[1..][..|calls|]
    ensures Answers([call] + calls) == polls[..|[call] + calls|]
  {
    assert ([call] + calls)[1..] == calls;
    assert polls[..1 + |calls|] == [polls[0]] + polls[1..][..|calls|];
  }

  lemma EndsAtOnce<E>(devices: seq<Device<E>>, c: Context, nb: nat, count: nat, polls: seq<Answer>)
    requires Fits(devices, c) && Readable(polls)
    requires |Round(devices, c, 0, count).out| < count && polls != [] && polls[0].Ready? ==> true !in polls[0].flags
    ensures var r := PollEvents(devices, c, nb, count, polls);
      && Answers(r.calls) == polls[..|r.calls|]
      && Ends(r.outcome, r.calls, nb + |r.out| != 0, nb + |r.out|, |r.out| == count, |r.calls| < |polls|)
  {
    hide Round, PollEvents;
    PollRound(devices, c, nb, count, polls);
    var r := PollEvents(devices, c, nb, count, polls);
    if r.calls != [] {
      assert polls[..1] == [polls[0]] && r.calls[1..] == [];
    }
  }

  /** Each outcome occurs exactly when the calls of poll() say so: filled up, failed, found
      nothing ready, or not come back. */
  lemma {:induction false} HowItEnds<E>(devices: seq<Device<E>>, c: Context, nb: nat, count: nat, polls: seq<Answer>)
    requires Fits(devices, c) && Readable(polls)
    ensures var r := PollEvents(devices, c, nb, count, polls);
      && Answers(r.calls) == polls[..|r.calls|]
      && Ends(r.outcome, r.calls, nb + |r.out| != 0, nb + |r.out|, |r.out| == count, |r.calls| < |polls|)
    decreases |polls|
  {
    hide Round, PollEvents, Ends, Answers;
    PollRound(devices, c, nb, count, polls);
    var s := Round(devices, c, 0, count);
    if |s.out| < count && polls != [] && polls[0].Ready? && true in polls[0].flags {
      var c' := s.context.(flags := polls[0].flags[WAKE := false]);
      var rest := PollEvents(devices, c', nb + |s.out|, count - |s.out|, polls[1..]);
      HowItEnds(devices, c', nb + |s.out|, count - |s.out|, polls[1..]);
      var call := Call(if nb + |s.out| != 0 then 0 else -1, polls[0]);
      EndsMore(call, rest.outcome, rest.calls, nb + |s.out| + |rest.out| != 0, nb + |s.out| + |rest.out|,
               |rest.out| == count - |s.out|, |rest.calls| < |polls[1..]|);
      AnswersMore(call, rest.calls, polls);
    } else {
      EndsAtOnce(devices, c, nb, count, polls);
    }
  }

  /** poll() is called without waiting exactly if something has been given before: what a
      call with only the answers before this one would have written. */
  lemma {:induction false} TimeoutsTell<E>(devices: seq<Device<E>>, c: Context, nb: nat, count: nat, polls: seq<Answer>, j: nat)
    requires Fits(devices, c) && Readable(polls) && j < |PollEvents(devices, c, nb, count, polls).calls|
    ensures var before := PollEvents(devices, c, nb, count, polls[..j]);
      && PollEvents(devices, c, nb, count, polls).calls[j].timeout == (if nb + |before.out| == 0 then -1 else 0)
    decreases |polls|
  {
    hide Round, PollEvents;
    PollRound(devices, c, nb, count, polls);
    PollRound(devices, c, nb, count, polls[..j]);
    var s := Round(devices, c, 0, count);
    if j > 0 {
      var c' := s.context.(flags := polls[0].flags[WAKE := false]);
      TimeoutsTell(devices, c', nb + |s.out|, count - |s.out|, polls[1..], j - 1);
      assert polls[..j][1..] == polls[1..][..j - 1] && polls[..j][0] == polls[0];
    }
  }

  /** Records that the drivers gave and the caller is not told of: what comes back is less
      than what was taken. */
  predicate Hides<E>(c: Context, r: Run<E>) {
    && !r.outcome.Blocked?
    && Total(Given(r.context)) - Total(Given(c)) != if r.outcome.Returned? then r.outcome.nbEvents else 0
  }

  /** A call hides records exactly if it ends in a poll() that fails when made without
      waiting, which is when there already was something to return. */
  lemma HidesIff<E>(devices: seq<Device<E>>, c: Context, count: nat, polls: seq<Answer>)
    requires Fits(devices, c) && Readable(polls)
    ensures var r := PollEvents(devices, c, 0, count, polls);
      && (Hides(c, r) <==> r.calls != [] && r.calls[|r.calls| - 1].timeout == 0 && r.calls[|r.calls| - 1].answer.Failed?)
      && (Hides(c, r) <==> r.outcome.PollError? && r.out != [])
  {
    hide PollEvents, Merge, Total, Given;
    var r := PollEvents(devices, c, 0, count, polls);
    HowItEnds(devices, c, 0, count, polls);
    PollMerges(devices, c, 0, count, polls);
    NoneLost(Records(devices), Given(c), Given(r.context), r.from, r.out);
  }

  /** A call that comes back without an error has something to return if anything was asked
      for, and returns less than asked only when nothing is ready. */
  lemma {:induction false} ReturnsSomething<E>(devices: seq<Device<E>>, c: Context, count: nat, polls: seq<Answer>)
    requires Fits(devices, c) && Readable(polls)
    ensures var r := PollEvents(devices, c, 0, count, polls);
      r.outcome.Returned? ==>
        && r.outcome.nbEvents == |r.out| <= count
        && (count > 0 ==> r.outcome.nbEvents > 0)
        && (r.outcome.nbEvents < count ==> r.calls != [] && FoundNone(r.calls[|r.calls| - 1]))
  {
    hide PollEvents;
    HowItEnds(devices, c, 0, count, polls);
  }

  /** Nobody flagged, nobody waiting: a round gives nothing and leaves the flags. */
  lemma {:induction false} IdleRound<E>(devices: seq<Device<E>>, c: Context, i: nat, count: nat)
    requires Fits(devices, c) && i <= NUM_DRIVERS
    requires forall d :: i <= d < NUM_DRIVERS ==> !c.flags[d] && !devices[d].waiting(c.progress[d].asked)
    ensures var r := Round(devices, c, i, count);
      && r.out == [] && r.context.flags == c.flags
      && forall d :: 0 <= d < NUM_DRIVERS ==> r.context.progress[d].given == c.progress[d].given
    decreases NUM_DRIVERS - i
  {
    hide Round;
    RoundTurn(devices, c, i, count);
    if count != 0 && i < NUM_DRIVERS {
      var t := TurnOf(devices, c, i, count);
      assert t.1 == [] && t.0.flags == c.flags;
      IdleRound(devices, t.0, i + 1, count);
    }
  }

  /** Drivers that number their records, have one at hand whenever they are asked, and never
      say that any are waiting. */
  function Counters(): (devices: seq<Device<nat>>)
    ensures |devices| == NUM_DRIVERS
  {
    seq(NUM_DRIVERS, _ => Device((i: nat) => i, _ => 1, _ => false))
  }

  function Fresh(): (c: Context)
    ensures Fits(Counters(), c)
  {
    Context(seq(NUM_DRIVERS, _ => Progress(0, 0, 0)), seq(NUM_FDS, _ => false))
  }

  lemma StartsIdle()
    ensures var r := Round(Counters(), Fresh(), 0, 2);
      r.out == [] && r.context.progress[0].given == 0 && Fits(Counters(), r.context)
  {
    hide Round;
    IdleRound(Counters(), Fresh(), 0, 2);
  }

  /** The first driver, flagged, gives its next record, and is not flagged any more. */
  lemma FirstGives(c: Context)
    requires Fits(Counters(), c) && c.flags[0]
    ensures var t := TurnOf(Counters(), c, 0, 2);
      t.1 == [c.progress[0].given] && t.0.flags == c.flags[0 := false]
  {
    assert Next((i: nat) => i, c.progress[0].given, 1) == [c.progress[0].given];
  }

  lemma NobodyWaiting(d: nat, asked: nat)
    requires d < NUM_DRIVERS
    ensures !Counters()[d].waiting(asked)
  {
  }

  /** With only the first driver flagged, a round gives that driver's next record. */
  lemma OneRecord(c: Context)
    requires Fits(Counters(), c) && c.flags[0] && (forall d :: 0 < d < NUM_DRIVERS ==> !c.flags[d])
    ensures Round(Counters(), c, 0, 2).out == [c.progress[0].given]
  {
    hide Round, TurnOf, Counters, Times;
    RoundTurn(Counters(), c, 0, 2);
    FirstGives(c);
    var t := TurnOf(Counters(), c, 0, 2);
    forall d | 1 <= d < NUM_DRIVERS
      ensures !t.0.flags[d] && !Counters()[d].waiting(t.0.progress[d].asked)
    {
      NobodyWaiting(d, t.0.progress[d].asked);
    }
    IdleRound(Counters(), t.0, 1, 1);
  }

  /** Such an input: poll() reports the first driver ready, which gives the first of two
      records asked for, and then fails. */
  lemma LostRecord()
    ensures var r := PollEvents(Counters(), Fresh(), 0, 2, [Ready([true, false, false, false, false]), Failed(5)]);
      r.outcome == PollError(5) && r.out == [0] && Hides(Fresh(), r)
  {
    hide PollEvents, Round, Counters, Fresh, Hides, TurnOf;
    var flags := [true, false, false, false, false];
    var polls := [Ready(flags), Failed(5)];
    StartsIdle();
    assert flags[0] && flags[WAKE := false] == flags;
    var c1 := Round(Counters(), Fresh(), 0, 2).context.(flags := flags);
    OneRecord(c1);
    PollRound(Counters(), Fresh(), 0, 2, polls);
    PollRound(Counters(), c1, 0, 2, polls[1..]);
    HidesIff(Counters(), Fresh(), 2, polls);
  }
}
