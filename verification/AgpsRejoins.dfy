// Clients that subscribe again while their old entry is still waiting for the close: when
// SUBSCRIBE gives a client an active entry, and what an inactive entry is still told.
module AgpsRejoins {
  import opened Agps
  import opened AgpsInvariants
  import opened LinkedLists
  import opened Wrappers

  ghost predicate HasActiveEntry(subs: seq<Subscriber>, key: Key) {
    exists i :: 0 <= i < |subs| && subs[i].key == key && !subs[i].inactive
  }

  lemma {:induction false} KeyedOnce(subs: seq<Subscriber>, bound: nat, i: nat, j: nat)
    requires Keyed(subs, bound) && i < |subs| && j < |subs| && subs[i].key == subs[j].key
    ensures i == j
    decreases |subs|
  {
    if i == 0 && j > 0 {
      AnyAt(subs[1..], Only(subs[0].key), j - 1);
    } else if j == 0 && i > 0 {
      AnyAt(subs[1..], Only(subs[0].key), i - 1);
    } else if i > 0 {
      KeyedOnce(subs[1..], subs[0].uid, i - 1, j - 1);
    }
  }

  lemma {:induction false} NoneKeyed(subs: seq<Subscriber>, key: Key)
    requires !Any(subs, Only(key))
    ensures !HasActiveEntry(subs, key)
  {
    if HasActiveEntry(subs, key) {
      var i: nat :| i < |subs| && subs[i].key == key && !subs[i].inactive;
      AnyAt(subs, Only(key), i);
    }
  }

  /** After SUBSCRIBE a client has an active entry exactly if it had one, or had none at all
      and was not turned away: an entry that waits for the close swallows the request. */
  lemma SubscribedIff(m: Machine, c: Client)
    requires Inv(m)
    ensures HasActiveEntry(Step(m, SubscribeRsrc(c)).subs, c.key) <==>
      var k := Find(m.subs, Only(c.key));
      if k < |m.subs| then !m.subs[k].inactive else !(m.single && HasSubscribers(m))
  {
    var k, r := Find(m.subs, Only(c.key)), Step(m, SubscribeRsrc(c));
    FindIsAny(m.subs, Only(c.key));
    if k < |m.subs| {
      assert r.subs == m.subs;
      if HasActiveEntry(r.subs, c.key) {
        var i: nat :| i < |m.subs| && m.subs[i].key == c.key && !m.subs[i].inactive;
        KeyedOnce(m.subs, m.added, i, k);
      }
    } else if m.single && HasSubscribers(m) {
      NoneKeyed(m.subs, c.key);
    } else {
      assert r.subs[0].key == c.key && !r.subs[0].inactive;
    }
  }

  /** While the resource is wanted or given back, SUBSCRIBE does nothing at all exactly if
      the client is listed, active or not, on a machine open to several. */
  lemma RejoinIgnored(m: Machine, c: Client)
    requires m.state == PendingState || m.state == ReleasingState
    ensures Step(m, SubscribeRsrc(c)) == m <==> !m.single && Find(m.subs, Only(c.key)) < |m.subs|
  {
    var message := [TurnedAway(c.key)];
    assert |m.log + message| == |m.log| + 1;
  }

  lemma JoinSeen(m: Machine, c: Client, u: nat)
    requires Inv(m) && Lookup(m.subs, u).Some? && m.state != ReleasedState
    ensures var r := Step(m, SubscribeRsrc(c));
      && Lookup(r.subs, u) == Lookup(m.subs, u)
      && History(r.log, u) == History(m.log, u)
         + if !m.single && m.state == AcquiredState && EntryOf(m, c.key) == u then [Opened] else []
  {
    assert Line(m, u) && m.subs != [];
    assert History(m.log, u) + [] == History(m.log, u);
    if m.single {
      var message := [TurnedAway(c.key)];
      HistoryAppend(m.log, message, u);
      assert message[1..] == [];
    } else {
      AddLookup(m, c, u);
      if m.state == AcquiredState {
        AcquiredJoinKeeps(m, c);
        AddLookup(m.(log := AcquiredOn(m, Joins(c)).log), c, u);
      }
    }
  }

  lemma LeaveSeen(m: Machine, key: Key, u: nat)
    requires Inv(m) && Lookup(m.subs, u).Some? && Lookup(m.subs, u).value.inactive && m.state != ReleasedState
    ensures var r := Step(m, UnsubscribeRsrc(key));
      Lookup(r.subs, u).Some? ==> Lookup(r.subs, u).value.inactive && History(r.log, u) == History(m.log, u)
  {
    var k := Find(m.subs, Only(key));
    if k < |m.subs| {
      assert Line(m, u);
      RetireLine(m, k, u);
      CallKeeps(Retire(m, k).(state := ReleasedState), ReleaseConn, u);
      CallKeeps(Retire(m, k).(state := ReleasingState), ReleaseConn, u);
    }
  }

  lemma GrantSeen(m: Machine, u: nat)
    requires Inv(m) && m.state == PendingState && Lookup(m.subs, u).Some? && Lookup(m.subs, u).value.inactive
    ensures var r := PendingOn(m, Hears(Granted));
      r.subs == m.subs && History(r.log, u) == History(m.log, u)
  {
    hide History, Sent, Find, Spared;
    assert Line(m, u);
    GrantKeeps(m);
  }

  lemma ServiceSeen(m: Machine, status: RsrcStatus, u: nat)
    requires Inv(m) && Lookup(m.subs, u).Some? && Lookup(m.subs, u).value.inactive && FromService(status)
    ensures var r := Step(m, Service(status));
      Lookup(r.subs, u).Some? ==> Lookup(r.subs, u) == Lookup(m.subs, u) && History(r.log, u) == History(m.log, u)
  {
    hide History, Lookup, Sent, Find, Spared, Keyed;
    var m1 := m.(log := m.log + [Heard(status)]);
    SilentKeeps(m, Heard(status));
    HeardSeen(m.log, status, u);
    match m.state
    case ReleasedState =>
    case PendingState =>
      if status == Granted { GrantSeen(m1, u); }
      if status == Denied { DeletingLine(m1, Notification(All, Denied, true), u); }
    case AcquiredState =>
      if status == Released { DeletingLine(m1, Notification(All, Released, true), u); }
    case ReleasingState =>
      if status != Granted { DeletingLine(m1, Notification(Inactive, status, true), u); }
  }

  /** An inactive entry stays inactive while it is listed, and is told nothing more until
      the close, unless its client subscribes again just while the resource is held. */
  lemma InactiveStays(m: Machine, op: Op, u: nat)
    requires Inv(m) && op != DropAll && Lookup(m.subs, u).Some? && Lookup(m.subs, u).value.inactive
    ensures var r := Step(m, op);
      Lookup(r.subs, u).Some? ==>
        && Lookup(r.subs, u).value.inactive
        && History(r.log, u) == History(m.log, u)
           + if op.SubscribeRsrc? && !m.single && m.state == AcquiredState && EntryOf(m, op.client.key) == u then [Opened] else []
  {
    assert Line(m, u) && m.subs != [];
    assert History(m.log, u) + [] == History(m.log, u);
    match op
    case SubscribeRsrc(c) => JoinSeen(m, c, u);
    case UnsubscribeRsrc(key) => LeaveSeen(m, key, u);
    case Service(status) =>
      if FromService(status) {
        ServiceSeen(m, status, u);
      }
  }

  // ---------------------------------------------------------------- the engine's machines

  /** How the engine uses its machines: clients that wait for the close come only to one
      that takes a single subscriber. */
  predicate AsConfigured(single: bool, ops: seq<Op>) {
    single || forall i :: 0 <= i < |ops| && ops[i].SubscribeRsrc? ==> !ops[i].client.waits
  }

  predicate NobodyWaits(subs: seq<Subscriber>) {
    subs == [] || (!subs[0].waits && !subs[0].inactive && NobodyWaits(subs[1..]))
  }

  lemma {:induction false} NobodyWaitsAt(subs: seq<Subscriber>, k: nat)
    requires NobodyWaits(subs) && k < |subs|
    ensures !subs[k].waits && !subs[k].inactive
  {
    if k > 0 {
      NobodyWaitsAt(subs[1..], k - 1);
    }
  }

  lemma {:induction false} SparedNobodyWaits(subs: seq<Subscriber>, n: Notification)
    requires NobodyWaits(subs)
    ensures NobodyWaits(Spared(subs, n))
  {
    if subs != [] {
      SparedNobodyWaits(subs[1..], n);
      assert ([subs[0]] + Spared(subs[1..], n))[1..] == Spared(subs[1..], n);
    }
  }

  lemma RetireNobodyWaits(m: Machine, k: nat)
    requires NobodyWaits(m.subs) && k < |m.subs|
    ensures NobodyWaits(Retire(m, k).subs)
  {
    hide Spared;
    NobodyWaitsAt(m.subs, k);
    SparedNobodyWaits(m.subs, Notification(Only(m.subs[k].key), Unsubscribe, true));
  }

  lemma ServiceNobodyWaits(m: Machine, status: RsrcStatus)
    requires NobodyWaits(m.subs)
    ensures NobodyWaits(OnRsrcEvent(m, Hears(status)).subs)
  {
    hide Spared, Find, NobodyWaits, Sent;
    SparedNobodyWaits(m.subs, Notification(All, status, true));
    SparedNobodyWaits(m.subs, Notification(Inactive, status, true));
  }

  lemma JoinNobodyWaits(m: Machine, c: Client)
    requires NobodyWaits(m.subs) && !c.waits
    ensures NobodyWaits(OnRsrcEvent(m, Joins(c)).subs)
  {
    hide Find;
    var r := [Subscriber(m.added, c.key, c.waits, false)] + m.subs;
    assert r[1..] == m.subs;
  }

  lemma StepNobodyWaits(m: Machine, op: Op)
    requires NobodyWaits(m.subs) && (op.SubscribeRsrc? ==> !op.client.waits)
    ensures NobodyWaits(Step(m, op).subs)
  {
    hide Find, Retire;
    match op
    case SubscribeRsrc(c) => JoinNobodyWaits(m, c);
    case UnsubscribeRsrc(key) =>
      var k := Find(m.subs, Only(key));
      if k < |m.subs| {
        RetireNobodyWaits(m, k);
      }
    case Service(status) => ServiceNobodyWaits(m.(log := m.log + [Heard(status)]), status);
    case DropAll =>
  }

  lemma {:induction false} RunNobodyWaits(ops: seq<Op>)
    requires AsConfigured(false, ops)
    ensures NobodyWaits(Run(Init(false), ops).subs)
  {
    hide Step;
    if ops != [] {
      var n := |ops| - 1;
      RunNobodyWaits(ops[..n]);
      StepNobodyWaits(Run(Init(false), ops[..n]), ops[n]);
    }
  }

  /** A client that is not turned away has an active entry if it had one or had none. */
  lemma JoinsActive(m: Machine, c: Client)
    requires !(m.single && HasSubscribers(m))
    requires var k := Find(m.subs, Only(c.key));
      k < |m.subs| ==> !m.subs[k].inactive
    ensures HasActiveEntry(Step(m, SubscribeRsrc(c)).subs, c.key)
  {
    hide Find;
    var r, k := Step(m, SubscribeRsrc(c)), Find(m.subs, Only(c.key));
    if k < |m.subs| {
      assert r.subs == m.subs && !r.subs[k].inactive;
    } else {
      assert r.subs[0].key == c.key && !r.subs[0].inactive;
    }
  }

  /** Over every run of a machine as the engine configures it, dropAllSubscribers or not: a
      client that subscribes has an active entry afterwards, or is told at once that it is
      turned away, which happens exactly when the only place is taken. */
  lemma NeverSwallowed(single: bool, ops: seq<Op>, c: Client)
    requires AsConfigured(single, ops + [SubscribeRsrc(c)])
    ensures var m := Run(Init(single), ops);
      var r := Step(m, SubscribeRsrc(c));
      if single && HasSubscribers(m) then r == m.(log := m.log + [TurnedAway(c.key)])
      else HasActiveEntry(r.subs, c.key)
  {
    hide Run, Find, HasActiveEntry, OnRsrcEvent;
    var all, m := ops + [SubscribeRsrc(c)], Run(Init(single), ops);
    RunKeepsSingle(single, ops);
    if !single {
      assert forall i :: 0 <= i < |ops| ==> all[i] == ops[i];
      RunNobodyWaits(ops);
      var k := Find(m.subs, Only(c.key));
      if k < |m.subs| {
        NobodyWaitsAt(m.subs, k);
      }
      JoinsActive(m, c);
    } else if !HasSubscribers(m) {
      JoinsActive(m, c);
    }
  }

  // ---------------------------------------------------------------- another configuration

  lemma Then(m: Machine, ops: seq<Op>, op: Op)
    ensures Run(m, ops + [op]) == Step(Run(m, ops), op)
  {
    assert (ops + [op])[..|ops|] == ops;
  }

  lemma RunNothing()
    ensures Run(Init(false), []) == Init(false)
  {
  }

  lemma FirstJoins(c: Client)
    ensures Step(Init(false), SubscribeRsrc(c)) ==
      Machine(false, PendingState, [Subscriber(0, c.key, c.waits, false)], [Called(RequestConn)], 1)
  {
  }

  lemma SecondJoins(m: Machine, c: Client)
    requires !m.single && m.state == PendingState && |m.subs| == 1 && m.subs[0].key != c.key
    ensures Step(m, SubscribeRsrc(c)) ==
      m.(subs := [Subscriber(m.added, c.key, c.waits, false), m.subs[0]], added := m.added + 1)
  {
    assert m.subs[1..] == [] && [Subscriber(m.added, c.key, c.waits, false)] + m.subs
      == [Subscriber(m.added, c.key, c.waits, false), m.subs[0]];
  }

  lemma FirstGoes(m: Machine)
    requires m.state == PendingState && |m.subs| == 2 && m.subs[0].key != m.subs[1].key
    requires m.subs[1].waits && !m.subs[0].inactive
    ensures Step(m, UnsubscribeRsrc(m.subs[1].key)) == m.(subs := [m.subs[0], m.subs[1].(inactive := true)])
  {
    assert m.subs[1..] == [m.subs[1]] && Find(m.subs, Only(m.subs[1].key)) == 1;
    assert m.subs[1 := m.subs[1].(inactive := true)] == [m.subs[0], m.subs[1].(inactive := true)];
  }

  /** Two clients want the resource, and the first one, which waits for the close, leaves. */
  lemma FirstLeaves(client: Client, other: Client) returns (ops: seq<Op>)
    requires client.waits && client.key != other.key
    ensures ops == [SubscribeRsrc(client), SubscribeRsrc(other), UnsubscribeRsrc(client.key)]
    ensures Run(Init(false), ops) ==
      Machine(false, PendingState, [Subscriber(1, other.key, other.waits, false), Subscriber(0, client.key, true, true)],
              [Called(RequestConn)], 2)
  {
    hide Run, Step;
    RunNothing();
    Then(Init(false), [], SubscribeRsrc(client));
    Then(Init(false), [SubscribeRsrc(client)], SubscribeRsrc(other));
    Then(Init(false), [SubscribeRsrc(client), SubscribeRsrc(other)], UnsubscribeRsrc(client.key));
    ops := [SubscribeRsrc(client), SubscribeRsrc(other), UnsubscribeRsrc(client.key)];
    assert [] + [SubscribeRsrc(client)] == [SubscribeRsrc(client)];
    assert [SubscribeRsrc(client)] + [SubscribeRsrc(other)] == [SubscribeRsrc(client), SubscribeRsrc(other)];
    assert [SubscribeRsrc(client), SubscribeRsrc(other)] + [UnsubscribeRsrc(client.key)] == ops;
    FirstJoins(client);
    var m1 := Step(Init(false), SubscribeRsrc(client));
    SecondJoins(m1, other);
    FirstGoes(Step(m1, SubscribeRsrc(other)));
  }

  /** What GRANTED tells these two. */
  lemma GrantedTells(m: Machine)
    requires |m.subs| == 2 && m.subs[0].uid == 1 && m.subs[1].uid == 0 && !m.subs[0].inactive && m.subs[1].inactive
    requires m.log == [Called(RequestConn)] && m.state == PendingState
    ensures var r := Step(m, Service(Granted));
      && r.state == AcquiredState && r.subs == m.subs && r.added == m.added
      && History(r.log, 0) == [] && History(r.log, 1) == [Opened]
  {
    var n := Notification(Active, Granted, false);
    var told := [Told(1, Opened)];
    assert m.subs[1..] == [m.subs[1]] && [m.subs[1]][1..] == [];
    assert Sent([m.subs[1]], Notifier(n)) == [];
    assert Sent(m.subs, Notifier(n)) == told;
    var before := [Called(RequestConn)] + [Heard(Granted)];
    assert Step(m, Service(Granted)).log == before + told;
    assert [Called(RequestConn)][1..] == [] && [Heard(Granted)][1..] == [] && told[1..] == [];
    forall u: nat
      ensures History(before + told, u) == if u == 1 then [Opened] else []
    {
      HistoryAppend([Called(RequestConn)], [Heard(Granted)], u);
      HistoryAppend(before, told, u);
    }
  }

  /** What would happen on a machine open to several if one of them waited for the close: a
      client subscribes, unsubscribes and subscribes again while another keeps the resource
      wanted; GRANTED tells the other one, and the client, whose last word was SUBSCRIBE,
      is told nothing. */
  lemma LostSubscription(client: Client, other: Client) returns (ops: seq<Op>)
    requires client.waits && client.key != other.key
    ensures ops == [SubscribeRsrc(client), SubscribeRsrc(other), UnsubscribeRsrc(client.key),
                    SubscribeRsrc(client), Service(Granted)]
    ensures var m := Run(Init(false), ops);
      && m.state == AcquiredState && m.added == 2
      && m.subs == [Subscriber(1, other.key, other.waits, false), Subscriber(0, client.key, true, true)]
      && History(m.log, 0) == [] && History(m.log, 1) == [Opened]
  {
    hide Run;
    var before := FirstLeaves(client, other);
    var m := Run(Init(false), before);
    Then(Init(false), before, SubscribeRsrc(client));
    Then(Init(false), before + [SubscribeRsrc(client)], Service(Granted));
    ops := before + [SubscribeRsrc(client)] + [Service(Granted)];
    assert m.subs[1..] == [m.subs[1]] && [m.subs[1]][1..] == [];
    assert Find(m.subs, Only(client.key)) == 1;
    GrantedTells(m);
  }
}
