// What each operation comes to in any state that a run without dropAllSubscribers reaches:
// the new state, the new list, and what every entry is told.
module AgpsOutcomes {
  import opened Agps
  import opened AgpsInvariants
  import opened LinkedLists
  import opened Wrappers

  // ---------------------------------------------------------------- lists

  /** The entries that are not waiting for the close. */
  function ActiveOnes(subs: seq<Subscriber>): seq<Subscriber> {
    if subs == [] then []
    else if subs[0].inactive then ActiveOnes(subs[1..])
    else [subs[0]] + ActiveOnes(subs[1..])
  }

  lemma {:induction false} SparedActive(subs: seq<Subscriber>, status: RsrcStatus)
    requires status == Released || status == Denied
    ensures Spared(subs, Notification(Inactive, status, true)) == ActiveOnes(subs)
  {
    if subs != [] {
      SparedActive(subs[1..], status);
    }
  }

  lemma {:induction false} NoKeySpared(subs: seq<Subscriber>, key: Key)
    requires !Any(subs, Only(key))
    ensures Spared(subs, Notification(Only(key), Unsubscribe, true)) == subs
  {
    if subs != [] {
      NoKeySpared(subs[1..], key);
      assert subs == [subs[0]] + subs[1..];
    }
  }

  lemma {:induction false} SparedOthers(subs: seq<Subscriber>, bound: nat, k: nat)
    requires Keyed(subs, bound) && k < |subs|
    ensures Spared(subs, Notification(Only(subs[k].key), Unsubscribe, true)) == Without(subs, k)
  {
    if k == 0 {
      NoKeySpared(subs[1..], subs[0].key);
    } else {
      SparedOthers(subs[1..], subs[0].uid, k - 1);
      if subs[0].key == subs[k].key {
        AnyAt(subs[1..], Only(subs[0].key), k - 1);
      }
      assert Without(subs, k) == [subs[0]] + Without(subs[1..], k - 1);
    }
  }

  lemma {:induction false} FindsKey(subs: seq<Subscriber>, bound: nat, k: nat)
    requires Keyed(subs, bound) && k < |subs|
    ensures Find(subs, Only(subs[k].key)) == k
  {
    if k > 0 {
      FindsKey(subs[1..], subs[0].uid, k - 1);
      if subs[0].key == subs[k].key {
        AnyAt(subs[1..], Only(subs[0].key), k - 1);
      }
    }
  }

  lemma {:induction false} UidOf(subs: seq<Subscriber>, u: nat)
    requires Lookup(subs, u).Some?
    ensures Lookup(subs, u).value.uid == u
  {
    if subs[0].uid != u {
      UidOf(subs[1..], u);
    }
  }

  lemma {:induction false} OneUid(subs: seq<Subscriber>, bound: nat, k: nat, u: nat)
    requires Keyed(subs, bound) && k < |subs|
    ensures Lookup(subs, u).Some? && Lookup(subs, u).value.key == subs[k].key <==> u == subs[k].uid
  {
    KeyedHas(subs, bound, k);
    if Lookup(subs, u).Some? {
      OneKey(subs, bound, k, u);
      UidOf(subs, u);
    }
  }

  // ---------------------------------------------------------------- the service's events

  /** DENIED while the resource is wanted, and RELEASED while it is held, end everything:
      nobody is left on the list, and everybody who was is told, once and for all. */
  lemma ServiceEnds(single: bool, ops: seq<Op>, status: RsrcStatus, u: nat)
    requires DropAll !in ops
    ensures var m := Run(Init(single), ops);
      var r := Step(m, Service(status));
      (m.state == PendingState && status == Denied) || (m.state == AcquiredState && status == Released) ==>
        && r.state == ReleasedState && r.subs == [] && r.added == m.added
        && History(r.log, u) == History(m.log, u)
           + if Lookup(m.subs, u) == None then [] else if status == Denied then [Refused] else [Closed]
  {
    hide Run, History, Lookup, Sent, Find, Spared, Keyed;
    RunKeeps(single, ops);
    var m := Run(Init(single), ops);
    var n := Notification(All, status, true);
    HeardSeen(m.log, status, u);
    if (m.state == PendingState && status == Denied) || (m.state == AcquiredState && status == Released) {
      DeletingLine(m.(log := m.log + [Heard(status)]), n, u);
      SparedNone(m.subs, n);
      AllOrNothing(Spared(m.subs, n));
    }
  }

  /** RELEASED or DENIED while the resource is given back: those who waited for it are told
      and gone, the others stay as they were, and the resource is wanted again for them. */
  lemma ServiceCloses(single: bool, ops: seq<Op>, status: RsrcStatus, u: nat)
    requires DropAll !in ops && (status == Released || status == Denied)
    ensures var m := Run(Init(single), ops);
      var r, entry := Step(m, Service(status)), Lookup(m.subs, u);
      m.state == ReleasingState ==>
        && r.subs == ActiveOnes(m.subs) && r.added == m.added
        && r.state == (if r.subs == [] then ReleasedState else PendingState)
        && Lookup(r.subs, u) == (if entry.Some? && entry.value.inactive then None else entry)
        && History(r.log, u) == History(m.log, u)
           + if entry == None || !entry.value.inactive then [] else if status == Denied then [Refused] else [Closed]
  {
    hide Run, History, Lookup, Sent, Find, Spared, Keyed, ActiveOnes;
    RunKeeps(single, ops);
    var m := Run(Init(single), ops);
    var n := Notification(Inactive, status, true);
    HeardSeen(m.log, status, u);
    if m.state == ReleasingState {
      var m1 := m.(log := m.log + [Heard(status)]);
      var told := NotifySubscribers(m1, n);
      DeletingLine(m1, n, u);
      SparedActive(m.subs, status);
      CallKeeps(told.(state := PendingState), RequestConn, u);
      assert History(m.log, u) + [] == History(m.log, u);
    }
  }

  /** GRANTED while the resource is wanted: it is held, the list stays, and exactly the
      active entries are told. */
  lemma ServiceGrants(single: bool, ops: seq<Op>, u: nat)
    requires DropAll !in ops
    ensures var m := Run(Init(single), ops);
      var r, entry := Step(m, Service(Granted)), Lookup(m.subs, u);
      m.state == PendingState ==>
        && r.state == AcquiredState && r.subs == m.subs && r.added == m.added
        && History(r.log, u) == History(m.log, u) + if entry.Some? && !entry.value.inactive then [Opened] else []
  {
    hide Run, History, Lookup, Sent, Find, Keyed;
    RunKeeps(single, ops);
    var m := Run(Init(single), ops);
    var n := Notification(Active, Granted, false);
    HeardSeen(m.log, Granted, u);
    SentHistory(m.subs, n, m.added, u);
    HistoryAppend(m.log + [Heard(Granted)], Sent(m.subs, Notifier(n)), u);
    assert History(m.log, u) + [] == History(m.log, u);
  }

  /** Every other event of the service is heard and has no effect. */
  lemma ServiceIgnored(m: Machine, status: RsrcStatus)
    requires status == Granted || status == Released || status == Denied
    requires match m.state
      case ReleasedState => true
      case PendingState => status == Released
      case AcquiredState => status != Released
      case ReleasingState => status == Granted
    ensures Step(m, Service(status)) == m.(log := m.log + [Heard(status)])
  {
  }

  // ---------------------------------------------------------------- clients

  lemma RetireOutcome(m: Machine, k: nat, u: nat)
    requires Keyed(m.subs, m.added) && k < |m.subs|
    ensures var s, r := m.subs[k], Retire(m, k);
      && r.subs == (if s.waits then m.subs[k := s.(inactive := true)] else m.subs[..k] + m.subs[k + 1..])
      && r.added == m.added && r.state == m.state
      && History(r.log, u) == History(m.log, u) + (if !s.waits && u == s.uid then [Closed] else [])
  {
    hide History, Lookup, Sent, Find, Spared, Keyed;
    assert History(m.log, u) + [] == History(m.log, u);
    if !m.subs[k].waits {
      DeletingLine(m, Notification(Only(m.subs[k].key), Unsubscribe, true), u);
      SparedOthers(m.subs, m.added, k);
      OneUid(m.subs, m.added, k, u);
      KeyedHas(m.subs, m.added, k);
    }
  }

  /** UNSUBSCRIBE of a listed client: if it waits for the close its entry turns inactive and
      nobody is told anything; otherwise its entry goes and is told that it is closed. The
      resource is given back when the last active entry goes. */
  lemma UnsubscribeSettles(single: bool, ops: seq<Op>, k: nat, u: nat)
    requires DropAll !in ops && k < |Run(Init(single), ops).subs|
    ensures var m := Run(Init(single), ops);
      var s := m.subs[k];
      var r := Step(m, UnsubscribeRsrc(s.key));
      && r.subs == (if s.waits then m.subs[k := s.(inactive := true)] else m.subs[..k] + m.subs[k + 1..])
      && r.added == m.added
      && History(r.log, u) == History(m.log, u) + (if !s.waits && u == s.uid then [Closed] else [])
      && r.state == if r.subs == [] then ReleasedState else if Any(r.subs, Active) then m.state else ReleasingState
  {
    hide Run, History, Lookup, Sent, Find, Spared, Keyed, Any;
    RunKeeps(single, ops);
    var m := Run(Init(single), ops);
    FindsKey(m.subs, m.added, k);
    var after := Retire(m, k);
    RetireOutcome(m, k, u);
    FindIsAny(after.subs, Active);
    CallKeeps(after.(state := ReleasedState), ReleaseConn, u);
    CallKeeps(after.(state := ReleasingState), ReleaseConn, u);
    assert m.subs != [];
    if m.state == ReleasingState {
      ReleasingLeaveKeeps(m, k);
    }
  }

  /** UNSUBSCRIBE of a client that is not listed does nothing. */
  lemma UnsubscribeUnknown(m: Machine, key: Key)
    ensures (forall i :: 0 <= i < |m.subs| ==> m.subs[i].key != key) ==> Step(m, UnsubscribeRsrc(key)) == m
  {
  }

  /** SUBSCRIBE of a client that is not turned away: an unlisted one gets an entry of its
      own in front; while the resource is held its entry is told so, otherwise nobody is
      told anything. */
  lemma SubscribeSettles(single: bool, ops: seq<Op>, c: Client, u: nat)
    requires DropAll !in ops && !(single && Run(Init(single), ops).subs != [])
    ensures var m := Run(Init(single), ops);
      var r, listed := Step(m, SubscribeRsrc(c)), Any(m.subs, Only(c.key));
      && r.state == (if m.state == ReleasedState then PendingState else m.state)
      && r.subs == (if listed then m.subs else [Subscriber(m.added, c.key, c.waits, false)] + m.subs)
      && r.added == (if listed then m.added else m.added + 1)
      && History(r.log, u) == History(m.log, u)
         + if m.state == AcquiredState && Lookup(r.subs, u).Some? && Lookup(r.subs, u).value.key == c.key then [Opened] else []
  {
    hide Run, History, Sent, Find;
    RunKeeps(single, ops);
    var m := Run(Init(single), ops);
    RunKeepsSingle(single, ops);
    FindIsAny(m.subs, Only(c.key));
    assert History(m.log, u) + [] == History(m.log, u);
    CallKeeps(AddSubscriber(m, c).(state := PendingState), RequestConn, u);
    AddLookup(m, c, u);
    if m.state == AcquiredState {
      AcquiredJoinKeeps(m, c);
      var k, r := Find(m.subs, Only(c.key)), Step(m, SubscribeRsrc(c));
      assert Keyed(r.subs, r.added);
      OneUid(r.subs, r.added, if k < |m.subs| then k else 0, u);
    }
  }
}
