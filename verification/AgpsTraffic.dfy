// The stream of requests the connectivity service sees from one AGPS state machine,
// over all runs, those with dropAllSubscribers included.
module AgpsTraffic {
  import opened Agps
  import opened LinkedLists
  import opened Seqs
  import opened Wrappers
  import I = AgpsInvariants

  /** The log as the connectivity service sees it: its callbacks and its own events. */
  function Traffic(log: seq<Output>): seq<Output> {
    if log == [] then []
    else if log[0].Told? || log[0].TurnedAway? then Traffic(log[1..])
    else [log[0]] + Traffic(log[1..])
  }

  predicate Closes(o: Output) {
    o == Called(ReleaseConn) || o == Heard(Released) || o == Heard(Denied)
  }

  /** Two REQUESTs are separated by a RELEASE or by a RELEASED or DENIED event, and two
      RELEASEs have a REQUEST between them. */
  ghost predicate Disciplined(t: seq<Output>) {
    && (forall i, j :: 0 <= i < j < |t| && t[i] == Called(RequestConn) && t[j] == Called(RequestConn) ==>
      exists k :: i < k < j && Closes(t[k]))
    && (forall i, j :: 0 <= i < j < |t| && t[i] == Called(ReleaseConn) && t[j] == Called(ReleaseConn) ==>
      exists k :: i < k < j && t[k] == Called(RequestConn))
  }

  /** A REQUEST has not been closed since. */
  predicate Outstanding(t: seq<Output>) {
    if t == [] then false
    else
      var last := t[|t| - 1];
      last == Called(RequestConn) || (!Closes(last) && Outstanding(t[..|t| - 1]))
  }

  /** A REQUEST has come since the last RELEASE. */
  predicate Requested(t: seq<Output>) {
    if t == [] then false
    else
      var last := t[|t| - 1];
      last == Called(RequestConn) || (last != Called(ReleaseConn) && Requested(t[..|t| - 1]))
  }

  /** Each REQUEST came when none was outstanding, each RELEASE after a REQUEST. */
  predicate InOrder(t: seq<Output>) {
    if t == [] then true
    else
      var before, last := t[..|t| - 1], t[|t| - 1];
      && InOrder(before)
      && (last == Called(RequestConn) ==> !Outstanding(before))
      && (last == Called(ReleaseConn) ==> Requested(before))
  }

  /** What the states promise the connectivity service. */
  ghost predicate TrafficInv(m: Machine) {
    var t := Traffic(m.log);
    && (m.state == ReleasedState ==> m.subs == [])
    && (m.state == ReleasedState || m.state == ReleasingState ==> !Outstanding(t))
    && (m.state == PendingState || m.state == AcquiredState ==> Requested(t))
    && InOrder(t)
  }

  /** The traffic a step must cause, told from the states around it: REQUEST on entering
      the pending state, RELEASE when UNSUBSCRIBE ends the wanted and the held state. */
  function StepTraffic(before: State, after: State, op: Op): seq<Output> {
    var requests := before != PendingState && after == PendingState;
    var releases := op.UnsubscribeRsrc? && (before == PendingState || before == AcquiredState) && after != before;
    if op.Service? && FromService(op.status) then
      if requests then [Heard(op.status), Called(RequestConn)] else [Heard(op.status)]
    else if requests then [Called(RequestConn)]
    else if releases then [Called(ReleaseConn)]
    else []
  }

  // ---------------------------------------------------------------- traffic of each step

  lemma TrafficCons(o: Output, log: seq<Output>)
    ensures Traffic([o] + log) == if o.Told? || o.TurnedAway? then Traffic(log) else [o] + Traffic(log)
  {
    assert ([o] + log)[1..] == log;
  }

  lemma {:induction false} TrafficAppend(a: seq<Output>, b: seq<Output>)
    ensures Traffic(a + b) == Traffic(a) + Traffic(b)
  {
    if a == [] {
      assert a + b == b;
    } else {
      hide Traffic;
      TrafficAppend(a[1..], b);
      TrafficCons(a[0], a[1..]);
      TrafficCons(a[0], a[1..] + b);
      Unsplit(a, b);
    }
  }

  lemma {:induction false} NoticesAreNoTraffic(subs: seq<Subscriber>, n: Notification)
    ensures Traffic(Sent(subs, Notifier(n))) == []
  {
    if subs != [] {
      NoticesAreNoTraffic(subs[1..], n);
      var sent := NotifySubscriber(n, subs[0]).sent;
      TrafficAppend(sent, Sent(subs[1..], Notifier(n)));
      assert sent == [] || sent[1..] == [];
    }
  }

  lemma NotifyTraffic(m: Machine, n: Notification)
    ensures Traffic(NotifySubscribers(m, n).log) == Traffic(m.log)
  {
    NoticesAreNoTraffic(m.subs, n);
    TrafficAppend(m.log, Sent(m.subs, Notifier(n)));
    assert Traffic(m.log) + [] == Traffic(m.log);
  }

  /** The guard in sendRsrcRequest lets a call through when it fits the list. */
  lemma CallTraffic(m: Machine, action: Request)
    requires HasActive(m) == (action == RequestConn)
    ensures Traffic(SendRsrcRequest(m, action).log) == Traffic(m.log) + [Called(action)]
  {
    TrafficAppend(m.log, [Called(action)]);
    assert [Called(action)][1..] == [];
  }

  lemma MessageTraffic(log: seq<Output>, uid: nat, waits: bool, status: RsrcStatus)
    ensures Traffic(log + MessageTo(uid, waits, status)) == Traffic(log)
  {
    var message := MessageTo(uid, waits, status);
    TrafficAppend(log, message);
    assert message == [] || message[1..] == [];
    assert Traffic(log) + [] == Traffic(log);
  }

  lemma TurnedAwayTraffic(log: seq<Output>, key: Key)
    ensures Traffic(log + [TurnedAway(key)]) == Traffic(log)
  {
    TrafficAppend(log, [TurnedAway(key)]);
    assert [TurnedAway(key)][1..] == [];
    assert Traffic(log) + [] == Traffic(log);
  }

  lemma RetireTraffic(m: Machine, k: nat)
    requires k < |m.subs|
    ensures Traffic(Retire(m, k).log) == Traffic(m.log)
    ensures Retire(m, k).state == m.state
  {
    if !m.subs[k].waits {
      NotifyTraffic(m, Notification(Only(m.subs[k].key), Unsubscribe, true));
    }
  }

  lemma LeaveTraffic(m: Machine, k: nat)
    requires k < |m.subs| && (m.state == PendingState || m.state == AcquiredState)
    ensures var r := LeaveActive(m, k);
      && (r.state == m.state || r.state == ReleasedState || r.state == ReleasingState)
      && (r.state == ReleasedState ==> r.subs == [])
      && Traffic(r.log) == Traffic(m.log) + if r.state == m.state then [] else [Called(ReleaseConn)]
  {
    var r := Retire(m, k);
    RetireTraffic(m, k);
    if !HasSubscribers(r) {
      CallTraffic(r.(state := ReleasedState), ReleaseConn);
    } else if !HasActive(r) {
      CallTraffic(r.(state := ReleasingState), ReleaseConn);
    } else {
      assert Traffic(r.log) + [] == Traffic(r.log);
    }
  }

  lemma JoinTraffic(m: Machine, c: Client)
    requires m.state == ReleasedState ==> m.subs == []
    ensures var r := OnRsrcEvent(m, Joins(c));
      && r.state == (if m.state == ReleasedState then PendingState else m.state)
      && Traffic(r.log) == Traffic(m.log) + if m.state == ReleasedState then [Called(RequestConn)] else []
  {
    if m.state == ReleasedState {
      var r := AddSubscriber(m, c);
      assert Find(m.subs, Only(c.key)) == 0;
      assert r.subs[0] == Subscriber(m.added, c.key, c.waits, false);
      I.FindIsAny(r.subs, Active);
      CallTraffic(r.(state := PendingState), RequestConn);
    } else if m.state == AcquiredState {
      MessageTraffic(m.log, EntryOf(m, c.key), c.waits, Granted);
    }
    assert Traffic(m.log) + [] == Traffic(m.log);
  }

  lemma HearsTraffic(m: Machine, status: RsrcStatus)
    requires FromService(status) && (m.state == ReleasedState ==> m.subs == [])
    ensures var r := OnRsrcEvent(m, Hears(status));
      && (r.state == ReleasedState ==> r.subs == [])
      && (r.state != m.state ==>
        (m.state == PendingState && (r.state == AcquiredState || (r.state == ReleasedState && status == Denied)))
        || (m.state == AcquiredState && r.state == ReleasedState && status == Released)
        || (m.state == ReleasingState && r.state != AcquiredState && status != Granted))
      && Traffic(r.log) ==
        Traffic(m.log) + if m.state != PendingState && r.state == PendingState then [Called(RequestConn)] else []
  {
    hide Traffic, Sent, Spared, Find;
    assert Traffic(m.log) + [] == Traffic(m.log);
    match m.state
    case ReleasedState =>
    case PendingState =>
      NotifyTraffic(m.(state := AcquiredState), Notification(Active, Granted, false));
      NotifyTraffic(m.(state := ReleasedState), Notification(All, Denied, true));
      I.SparedNone(m.subs, Notification(All, Denied, true));
      I.AllOrNothing(Spared(m.subs, Notification(All, Denied, true)));
    case AcquiredState =>
      NotifyTraffic(m.(state := ReleasedState), Notification(All, Released, true));
      I.SparedNone(m.subs, Notification(All, Released, true));
      I.AllOrNothing(Spared(m.subs, Notification(All, Released, true)));
    case ReleasingState =>
      var n := Notification(Inactive, status, true);
      var r := NotifySubscribers(m, n);
      NotifyTraffic(m, n);
      I.SparedNone(m.subs, n);
      I.AllOrNothing(r.subs);
      I.FindIsAny(r.subs, Active);
      if status != Granted && HasSubscribers(r) {
        CallTraffic(r.(state := PendingState), RequestConn);
      }
  }

  lemma HeardTraffic(log: seq<Output>, status: RsrcStatus)
    ensures Traffic(log + [Heard(status)]) == Traffic(log) + [Heard(status)]
  {
    TrafficAppend(log, [Heard(status)]);
    assert [Heard(status)][1..] == [];
  }

  lemma ServiceTraffic(m: Machine, status: RsrcStatus)
    requires m.state == ReleasedState ==> m.subs == []
    ensures var r := Step(m, Service(status));
      && (r.state == ReleasedState ==> r.subs == [])
      && Traffic(r.log) == Traffic(m.log) + StepTraffic(m.state, r.state, Service(status))
  {
    hide OnRsrcEvent, Traffic;
    assert Traffic(m.log) + [] == Traffic(m.log);
    if FromService(status) {
      var m1 := m.(log := m.log + [Heard(status)]);
      HeardTraffic(m.log, status);
      HearsTraffic(m1, status);
      assert Traffic(m.log) + [Heard(status)] + [Called(RequestConn)] == Traffic(m.log) + [Heard(status), Called(RequestConn)];
      assert Traffic(m.log) + [Heard(status)] + [] == Traffic(m.log) + [Heard(status)];
    }
  }

  lemma UnsubscribeTraffic(m: Machine, key: Key)
    requires m.state == ReleasedState ==> m.subs == []
    ensures var r := Step(m, UnsubscribeRsrc(key));
      && (r.state == ReleasedState ==> r.subs == [])
      && Traffic(r.log) == Traffic(m.log) + StepTraffic(m.state, r.state, UnsubscribeRsrc(key))
  {
    hide Traffic, Retire, Settle;
    assert Traffic(m.log) + [] == Traffic(m.log);
    var k := Find(m.subs, Only(key));
    if k < |m.subs| {
      if m.state == ReleasingState {
        RetireTraffic(m, k);
      } else {
        LeaveTraffic(m, k);
      }
    }
  }

  /** In every reachable state, the calls the states make get through the guard in
      sendRsrcRequest, and nothing else reaches the connectivity service. */
  lemma GuardAlwaysTrue(m: Machine, op: Op)
    requires m.state == ReleasedState ==> m.subs == []
    ensures Step(m, op).state == ReleasedState ==> Step(m, op).subs == []
    ensures Traffic(Step(m, op).log) == Traffic(m.log) + StepTraffic(m.state, Step(m, op).state, op)
  {
    hide OnRsrcEvent, Traffic, MessageTo;
    assert Traffic(m.log) + [] == Traffic(m.log);
    match op
    case SubscribeRsrc(c) =>
      if m.single && HasSubscribers(m) {
        TurnedAwayTraffic(m.log, c.key);
      } else {
        JoinTraffic(m, c);
      }
    case UnsubscribeRsrc(key) => UnsubscribeTraffic(m, key);
    case Service(status) => ServiceTraffic(m, status);
    case DropAll =>
  }

  // ---------------------------------------------------------------- discipline

  lemma {:induction false} ClosedSince(t: seq<Output>, i: nat)
    requires !Outstanding(t) && i < |t| && t[i] == Called(RequestConn)
    ensures exists k :: i < k < |t| && Closes(t[k])
  {
    var n := |t| - 1;
    if !Closes(t[n]) {
      ClosedSince(t[..n], i);
      var k :| i < k < n && Closes(t[..n][k]);
      assert Closes(t[k]);
    }
  }

  lemma {:induction false} RequestedSince(t: seq<Output>, i: nat)
    requires Requested(t) && i < |t| && t[i] == Called(ReleaseConn)
    ensures exists k :: i < k < |t| && t[k] == Called(RequestConn)
  {
    var n := |t| - 1;
    if t[n] != Called(RequestConn) {
      RequestedSince(t[..n], i);
      var k :| i < k < n && t[..n][k] == Called(RequestConn);
      assert t[k] == Called(RequestConn);
    }
  }

  /** Traffic in order is disciplined. */
  lemma {:induction false} InOrderIsDisciplined(t: seq<Output>)
    requires InOrder(t)
    ensures Disciplined(t)
  {
    if t != [] {
      var n := |t| - 1;
      InOrderIsDisciplined(t[..n]);
      forall i, j | 0 <= i < j < |t| && t[i] == Called(RequestConn) && t[j] == Called(RequestConn)
        ensures exists k :: i < k < j && Closes(t[k])
      {
        if j == n {
          ClosedSince(t[..n], i);
        }
        var k :| i < k < j && Closes(t[..n][k]);
        assert Closes(t[k]);
      }
      forall i, j | 0 <= i < j < |t| && t[i] == Called(ReleaseConn) && t[j] == Called(ReleaseConn)
        ensures exists k :: i < k < j && t[k] == Called(RequestConn)
      {
        if j == n {
          RequestedSince(t[..n], i);
        }
        var k :| i < k < j && t[..n][k] == Called(RequestConn);
        assert t[k] == Called(RequestConn);
      }
    }
  }

  lemma Snoc(t: seq<Output>, o: Output)
    ensures Outstanding(t + [o]) == (o == Called(RequestConn) || (!Closes(o) && Outstanding(t)))
    ensures Requested(t + [o]) == (o == Called(RequestConn) || (o != Called(ReleaseConn) && Requested(t)))
    ensures InOrder(t + [o]) == (
      InOrder(t)
      && (o == Called(RequestConn) ==> !Outstanding(t))
      && (o == Called(ReleaseConn) ==> Requested(t)))
  {
    assert (t + [o])[..|t|] == t;
  }

  /** The moves between states, and what causes them. */
  predicate Moves(before: State, after: State, op: Op) {
    || before == after
    || (before == ReleasedState && after == PendingState && op.SubscribeRsrc?)
    || (before == PendingState && after == AcquiredState && op == Service(Granted))
    || (before == PendingState && after == ReleasedState && op == Service(Denied))
    || (before == AcquiredState && after == ReleasedState && op == Service(Released))
    || (before == ReleasingState && after != AcquiredState && (op == Service(Denied) || op == Service(Released)))
    || (before == ReleasingState && after == ReleasedState && op.UnsubscribeRsrc?)
    || ((before == PendingState || before == AcquiredState) && op.UnsubscribeRsrc?
        && (after == ReleasedState || after == ReleasingState))
  }

  lemma MovesKeep(t: seq<Output>, before: State, after: State, op: Op)
    requires InOrder(t) && Moves(before, after, op)
    requires before == ReleasedState || before == ReleasingState ==> !Outstanding(t)
    requires before == PendingState || before == AcquiredState ==> Requested(t)
    ensures var t' := t + StepTraffic(before, after, op);
      && InOrder(t')
      && (after == ReleasedState || after == ReleasingState ==> !Outstanding(t'))
      && (after == PendingState || after == AcquiredState ==> Requested(t'))
  {
    hide Outstanding, Requested, InOrder;
    var more := StepTraffic(before, after, op);
    if more == [] {
      assert t + more == t;
    } else {
      Snoc(t, more[0]);
      if |more| == 1 {
        assert more == [more[0]];
      } else {
        Snoc(t + [more[0]], more[1]);
        assert t + more == t + [more[0]] + [more[1]];
      }
    }
  }

  lemma StepMoves(m: Machine, op: Op)
    requires m.state == ReleasedState ==> m.subs == []
    ensures Moves(m.state, Step(m, op).state, op)
  {
    match op
    case SubscribeRsrc(c) => JoinTraffic(m, c);
    case UnsubscribeRsrc(key) =>
      var k := Find(m.subs, Only(key));
      if k < |m.subs| {
        RetireTraffic(m, k);
        if m.state == PendingState || m.state == AcquiredState {
          LeaveTraffic(m, k);
        }
      }
    case Service(status) =>
      if FromService(status) {
        HearsTraffic(m.(log := m.log + [Heard(status)]), status);
      }
    case DropAll =>
  }

  lemma TrafficStep(m: Machine, op: Op)
    requires TrafficInv(m)
    ensures TrafficInv(Step(m, op))
  {
    var r, t := Step(m, op), Traffic(m.log);
    GuardAlwaysTrue(m, op);
    StepMoves(m, op);
    MovesKeep(t, m.state, r.state, op);
  }

  /** Over every run, dropAllSubscribers or not: two REQUESTs are always separated by a
      RELEASE or a RELEASED/DENIED event, two RELEASEs by a REQUEST. */
  lemma {:induction false} TrafficDisciplined(single: bool, ops: seq<Op>)
    ensures TrafficInv(Run(Init(single), ops))
    ensures Disciplined(Traffic(Run(Init(single), ops).log))
  {
    if ops != [] {
      var n := |ops| - 1;
      TrafficDisciplined(single, ops[..n]);
      TrafficStep(Run(Init(single), ops[..n]), ops[n]);
    }
    InOrderIsDisciplined(Traffic(Run(Init(single), ops).log));
  }
}
