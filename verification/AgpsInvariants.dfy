// What every run of the AGPS state machine keeps: the state tells what the list holds,
// who has been granted the resource, and what every entry, past and present, was told.
module AgpsInvariants {
  import opened Agps
  import opened LinkedLists
  import opened Seqs
  import opened Wrappers

  // ---------------------------------------------------------------- the invariant

  /** What entry `u` was told, in order. */
  function History(log: seq<Output>, u: nat): seq<Answer> {
    if log == [] then []
    else if log[0].Told? && log[0].uid == u then [log[0].answer] + History(log[1..], u)
    else History(log[1..], u)
  }

  /** The list entry with identity `u`, if it is on the list. */
  function Lookup(subs: seq<Subscriber>, u: nat): Option<Subscriber> {
    if subs == [] then None else if subs[0].uid == u then Some(subs[0]) else Lookup(subs[1..], u)
  }

  predicate Any(subs: seq<Subscriber>, target: Target) {
    subs != [] && (ForMe(target, subs[0]) || Any(subs[1..], target))
  }

  /** Each client is listed once, the newest entry first with identities below `bound`,
      and only entries that wait for the close are ever inactive. */
  predicate Keyed(subs: seq<Subscriber>, bound: nat) {
    subs == [] || (
      && subs[0].uid < bound
      && (subs[0].inactive ==> subs[0].waits)
      && !Any(subs[1..], Only(subs[0].key))
      && Keyed(subs[1..], subs[0].uid))
  }

  /** The state tells what the list holds. */
  predicate Shaped(state: State, subs: seq<Subscriber>) {
    match state
    case ReleasedState => subs == []
    case PendingState => Any(subs, Active)
    case AcquiredState => Any(subs, Active)
    case ReleasingState => Any(subs, Inactive)
  }

  /** Told nothing but that the resource is open. */
  predicate Living(h: seq<Answer>) {
    forall i :: 0 <= i < |h| ==> h[i] == Opened
  }

  /** Told exactly one terminal answer, and nothing after it. */
  predicate Finished(h: seq<Answer>) {
    |h| > 0 && h[|h| - 1] != Opened && forall i :: 0 <= i < |h| - 1 ==> h[i] == Opened
  }

  /** The ledger line of identity `u`: told nothing before it exists, nothing terminal
      while it is listed, one terminal answer by the time it is not. */
  predicate LedgerLine(added: nat, u: nat, entry: Option<Subscriber>, h: seq<Answer>) {
    if u >= added then entry == None && h == [] else if entry.Some? then Living(h) else Finished(h)
  }

  /** Who has been told that the resource is open, state by state. */
  predicate GrantLine(state: State, entry: Option<Subscriber>, h: seq<Answer>) {
    entry.Some? ==>
      match state
      case ReleasedState => true
      case PendingState => h == []
      case AcquiredState => !entry.value.inactive ==> Opened in h
      case ReleasingState => !entry.value.inactive ==> h == []
  }

  predicate Line(m: Machine, u: nat) {
    && LedgerLine(m.added, u, Lookup(m.subs, u), History(m.log, u))
    && GrantLine(m.state, Lookup(m.subs, u), History(m.log, u))
  }

  ghost predicate Inv(m: Machine) {
    && Keyed(m.subs, m.added)
    && Shaped(m.state, m.subs)
    && forall u: nat :: Line(m, u)
  }

  // ---------------------------------------------------------------- lists

  lemma {:induction false} FindIsAny(subs: seq<Subscriber>, target: Target)
    ensures Find(subs, target) < |subs| <==> Any(subs, target)
  {
    if subs != [] {
      FindIsAny(subs[1..], target);
    }
  }

  lemma {:induction false} KeyedBelow(subs: seq<Subscriber>, bound: nat, u: nat)
    requires Keyed(subs, bound) && u >= bound
    ensures Lookup(subs, u) == None
  {
    if subs != [] {
      KeyedBelow(subs[1..], subs[0].uid, u);
    }
  }

  lemma {:induction false} KeyedWeaken(subs: seq<Subscriber>, bound: nat, bound': nat)
    requires Keyed(subs, bound) && bound <= bound'
    ensures Keyed(subs, bound')
  {
  }

  lemma {:induction false} KeyedHas(subs: seq<Subscriber>, bound: nat, k: nat)
    requires Keyed(subs, bound) && k < |subs|
    ensures Lookup(subs, subs[k].uid) == Some(subs[k]) && subs[k].uid < bound
    ensures subs[k].inactive ==> subs[k].waits
  {
    if k > 0 {
      KeyedHas(subs[1..], subs[0].uid, k - 1);
    }
  }

  lemma {:induction false} ActiveMeans(subs: seq<Subscriber>, u: nat)
    requires !Any(subs, Active) && Lookup(subs, u).Some?
    ensures Lookup(subs, u).value.inactive
  {
    if subs[0].uid != u {
      ActiveMeans(subs[1..], u);
    }
  }

  lemma {:induction false} SparedAny(subs: seq<Subscriber>, n: Notification, target: Target)
    requires !Any(subs, target)
    ensures !Any(Spared(subs, n), target)
  {
    if subs != [] {
      SparedAny(subs[1..], n, target);
      if !NotifySubscriber(n, subs[0]).found {
        assert Spared(subs, n)[1..] == Spared(subs[1..], n);
      }
    }
  }

  /** A deletion takes the entries it is for off the list and leaves the others. */
  lemma {:induction false} SparedLookup(subs: seq<Subscriber>, n: Notification, bound: nat, u: nat)
    requires Keyed(subs, bound)
    ensures Keyed(Spared(subs, n), bound)
    ensures Lookup(Spared(subs, n), u) ==
      match Lookup(subs, u)
      case Some(s) => if NotifySubscriber(n, s).found then None else Some(s)
      case None => None
  {
    if subs != [] {
      SparedLookup(subs[1..], n, subs[0].uid, u);
      KeyedBelow(subs[1..], subs[0].uid, subs[0].uid);
      var r := Spared(subs[1..], n);
      if NotifySubscriber(n, subs[0]).found {
        assert Spared(subs, n) == r;
        KeyedWeaken(r, subs[0].uid, bound);
        if u == subs[0].uid {
          KeyedBelow(r, subs[0].uid, u);
        }
      } else {
        SparedAny(subs[1..], n, Only(subs[0].key));
        assert Spared(subs, n) == [subs[0]] + r;
        assert Spared(subs, n)[1..] == r;
      }
    }
  }

  /** Whoever a deletion is for is gone afterwards. */
  lemma {:induction false} SparedNone(subs: seq<Subscriber>, n: Notification)
    requires n.postNotifyDelete && n.status != Subscribe && n.status != StatusMax
    ensures !Any(Spared(subs, n), n.target)
  {
    if subs != [] {
      SparedNone(subs[1..], n);
      if !NotifySubscriber(n, subs[0]).found {
        assert Spared(subs, n)[1..] == Spared(subs[1..], n);
      }
    }
  }

  /** With nobody inactive, everybody is active; with nobody at all, the list is empty. */
  lemma {:induction false} AllOrNothing(subs: seq<Subscriber>)
    ensures subs != [] ==> Any(subs, Active) || Any(subs, Inactive)
    ensures !Any(subs, All) ==> subs == []
  {
  }

  lemma {:induction false} NoneInactive(subs: seq<Subscriber>, u: nat)
    requires !Any(subs, Inactive) && Lookup(subs, u).Some?
    ensures !Lookup(subs, u).value.inactive
  {
    if subs[0].uid != u {
      NoneInactive(subs[1..], u);
    }
  }

  lemma {:induction false} AnyAt(subs: seq<Subscriber>, target: Target, k: nat)
    requires k < |subs| && ForMe(target, subs[k])
    ensures Any(subs, target)
  {
    if k > 0 {
      AnyAt(subs[1..], target, k - 1);
    }
  }

  lemma {:induction false} SparedMisses(subs: seq<Subscriber>, n: Notification)
    requires !Any(subs, n.target)
    ensures Spared(subs, n) == subs
  {
    if subs != [] {
      SparedMisses(subs[1..], n);
    }
  }

  /** Deleting an active entry by its key leaves the inactive ones. */
  lemma {:induction false} SparedInactive(subs: seq<Subscriber>, n: Notification, bound: nat, k: nat)
    requires Keyed(subs, bound) && k < |subs| && !subs[k].inactive && n.target == Only(subs[k].key)
    requires Any(subs, Inactive)
    ensures Any(Spared(subs, n), Inactive)
  {
    var r := Spared(subs[1..], n);
    if k == 0 {
      SparedMisses(subs[1..], n);
      assert Spared(subs, n) == r || Spared(subs, n) == [subs[0]] + r;
      assert ([subs[0]] + r)[1..] == r;
    } else {
      AnyAt(subs[1..], Only(subs[k].key), k - 1);
      if subs[0].inactive {
        assert Spared(subs, n)[0] == subs[0];
      } else {
        SparedInactive(subs[1..], n, subs[0].uid, k - 1);
        assert Spared(subs, n)[1..] == r;
      }
    }
  }

  /** Making one waiting entry inactive changes that entry and no other. */
  lemma {:induction false} SetInactive(subs: seq<Subscriber>, bound: nat, k: nat, u: nat)
    requires Keyed(subs, bound) && k < |subs| && subs[k].waits
    ensures var r := subs[k := subs[k].(inactive := true)];
      && Keyed(r, bound)
      && Any(r, Inactive)
      && (forall key :: Any(r, Only(key)) <==> Any(subs, Only(key)))
      && Lookup(r, u) ==
        match Lookup(subs, u)
        case Some(s) => Some(if u == subs[k].uid then s.(inactive := true) else s)
        case None => None
  {
    var r := subs[k := subs[k].(inactive := true)];
    if k == 0 {
      assert r[1..] == subs[1..];
    } else {
      SetInactive(subs[1..], subs[0].uid, k - 1, u);
      KeyedHas(subs[1..], subs[0].uid, k - 1);
      assert r[1..] == subs[1..][k - 1 := subs[k].(inactive := true)];
    }
  }

  // ---------------------------------------------------------------- histories

  /** What one log item tells entry `u`. */
  function Heading(o: Output, u: nat): seq<Answer> {
    if o.Told? && o.uid == u then [o.answer] else []
  }

  lemma HistoryCons(o: Output, log: seq<Output>, u: nat)
    ensures History([o] + log, u) == Heading(o, u) + History(log, u)
  {
    assert ([o] + log)[1..] == log;
    assert [] + History(log, u) == History(log, u);
  }

  lemma {:induction false} HistoryAppend(a: seq<Output>, b: seq<Output>, u: nat)
    ensures History(a + b, u) == History(a, u) + History(b, u)
  {
    if a == [] {
      assert a + b == b && [] + History(b, u) == History(b, u);
    } else {
      hide History, Heading;
      HistoryAppend(a[1..], b, u);
      HistoryCons(a[0], a[1..], u);
      HistoryCons(a[0], a[1..] + b, u);
      Unsplit(a, b);
      Regroup(Heading(a[0], u), History(a[1..], u), History(b, u));
    }
  }

  lemma HeardSeen(log: seq<Output>, status: RsrcStatus, u: nat)
    ensures History(log + [Heard(status)], u) == History(log, u)
  {
    HistoryAppend(log, [Heard(status)], u);
    assert [Heard(status)][1..] == [];
  }

  /** What one notification tells one entry. */
  function NoticeTo(n: Notification, s: Subscriber): seq<Answer> {
    var answer := AnswerFor(n.status, s.waits);
    if ForMe(n.target, s) && answer.Some? then [answer.value] else []
  }

  /** A notification adds to each history what concerns that entry, and nothing else. */
  lemma {:induction false} SentHistory(subs: seq<Subscriber>, n: Notification, bound: nat, u: nat)
    requires Keyed(subs, bound)
    ensures History(Sent(subs, Notifier(n)), u) ==
      match Lookup(subs, u)
      case Some(s) => NoticeTo(n, s)
      case None => []
  {
    if subs != [] {
      SentHistory(subs[1..], n, subs[0].uid, u);
      KeyedBelow(subs[1..], subs[0].uid, subs[0].uid);
      var sent := NotifySubscriber(n, subs[0]).sent;
      HistoryAppend(sent, Sent(subs[1..], Notifier(n)), u);
      assert sent == [] || sent[1..] == [];
    }
  }

  // ---------------------------------------------------------------- each operation

  /** A deleting notification, seen by one entry. */
  lemma DeletingLine(m: Machine, n: Notification, u: nat)
    requires Keyed(m.subs, m.added) && n.postNotifyDelete && n.status != Subscribe && n.status != StatusMax
    ensures var r, entry := NotifySubscribers(m, n), Lookup(m.subs, u);
      && Lookup(r.subs, u) == (if entry.Some? && ForMe(n.target, entry.value) then None else entry)
      && History(r.log, u) == History(m.log, u) + if entry.Some? then NoticeTo(n, entry.value) else []
  {
    SparedLookup(m.subs, n, m.added, u);
    SentHistory(m.subs, n, m.added, u);
    HistoryAppend(m.log, Sent(m.subs, Notifier(n)), u);
  }

  lemma HistoryGrows(h: seq<Answer>, answer: Answer)
    requires Living(h)
    ensures answer == Opened ==> Living(h + [answer]) && Opened in h + [answer]
    ensures answer != Opened ==> Finished(h + [answer])
    ensures h + [] == h
  {
    assert (h + [answer])[|h|] == answer;
  }

  /** Deleting with a terminal answer keeps each ledger line. */
  lemma DeletingKeeps(m: Machine, n: Notification, u: nat)
    requires Keyed(m.subs, m.added) && n.postNotifyDelete
    requires n.status == Released || n.status == Denied || n.status == Unsubscribe
    requires var entry := Lookup(m.subs, u);
      entry.Some? && ForMe(n.target, entry.value) ==> AnswerFor(n.status, entry.value.waits).Some?
    requires LedgerLine(m.added, u, Lookup(m.subs, u), History(m.log, u))
    ensures var r := NotifySubscribers(m, n);
      && LedgerLine(r.added, u, Lookup(r.subs, u), History(r.log, u))
      && (Lookup(r.subs, u).Some? ==>
        Lookup(r.subs, u) == Lookup(m.subs, u) && History(r.log, u) == History(m.log, u))
  {
    DeletingLine(m, n, u);
    var entry := Lookup(m.subs, u);
    if entry.Some? && ForMe(n.target, entry.value) {
      HistoryGrows(History(m.log, u), AnswerFor(n.status, entry.value.waits).value);
    } else {
      assert History(m.log, u) + [] == History(m.log, u);
    }
  }

  lemma AddLookup(m: Machine, c: Client, u: nat)
    requires Keyed(m.subs, m.added)
    ensures var r := AddSubscriber(m, c);
      && Keyed(r.subs, r.added)
      && Lookup(r.subs, u) ==
        (if r.added > m.added && u == m.added then Some(Subscriber(u, c.key, c.waits, false)) else Lookup(m.subs, u))
      && (Any(m.subs, Active) ==> Any(r.subs, Active))
      && (Any(m.subs, Inactive) ==> Any(r.subs, Inactive))
      && (m.subs == [] ==> Any(r.subs, Active))
  {
    var r := AddSubscriber(m, c);
    FindIsAny(m.subs, Only(c.key));
    if r != m {
      assert r.subs[1..] == m.subs;
    }
  }

  lemma CallKeeps(m: Machine, action: Request, u: nat)
    ensures History(SendRsrcRequest(m, action).log, u) == History(m.log, u)
  {
    HistoryAppend(m.log, [Called(action)], u);
    assert [Called(action)][1..] == [];
  }

  lemma {:induction false} LookupAny(subs: seq<Subscriber>, u: nat)
    requires Lookup(subs, u).Some?
    ensures Any(subs, Only(Lookup(subs, u).value.key))
  {
    if subs[0].uid != u {
      LookupAny(subs[1..], u);
    }
  }

  /** Entries with the same key are the same entry. */
  lemma {:induction false} OneKey(subs: seq<Subscriber>, bound: nat, k: nat, u: nat)
    requires Keyed(subs, bound) && k < |subs| && Lookup(subs, u).Some?
    ensures Lookup(subs, u).value.key == subs[k].key ==> Lookup(subs, u).value == subs[k]
  {
    if subs[0].uid == u {
      if k > 0 && subs[0].key == subs[k].key {
        AnyAt(subs[1..], Only(subs[0].key), k - 1);
      }
    } else if k == 0 {
      LookupAny(subs[1..], u);
    } else {
      OneKey(subs[1..], subs[0].uid, k - 1, u);
    }
  }

  /** UNSUBSCRIBE's common part, seen by one entry: those that stay were told nothing. */
  lemma RetireLine(m: Machine, k: nat, u: nat)
    requires Keyed(m.subs, m.added) && k < |m.subs|
    requires LedgerLine(m.added, u, Lookup(m.subs, u), History(m.log, u))
    ensures var r := Retire(m, k);
      && r.state == m.state && r.added == m.added
      && Keyed(r.subs, r.added)
      && LedgerLine(r.added, u, Lookup(r.subs, u), History(r.log, u))
      && (Lookup(r.subs, u).Some? ==>
        && Lookup(m.subs, u).Some?
        && (!Lookup(r.subs, u).value.inactive ==> Lookup(r.subs, u) == Lookup(m.subs, u))
        && History(r.log, u) == History(m.log, u))
  {
    if m.subs[k].waits {
      SetInactive(m.subs, m.added, k, u);
    } else {
      var n := Notification(Only(m.subs[k].key), Unsubscribe, true);
      if Lookup(m.subs, u).Some? {
        OneKey(m.subs, m.added, k, u);
      }
      SparedLookup(m.subs, n, m.added, u);
      DeletingKeeps(m, n, u);
    }
  }

  lemma LeaveActiveLine(m: Machine, k: nat, u: nat)
    requires Keyed(m.subs, m.added) && k < |m.subs| && Line(m, u)
    requires m.state == PendingState || m.state == AcquiredState
    ensures Line(LeaveActive(m, k), u)
  {
    var r := Retire(m, k);
    RetireLine(m, k, u);
    FindIsAny(r.subs, Active);
    CallKeeps(r.(state := ReleasedState), ReleaseConn, u);
    CallKeeps(r.(state := ReleasingState), ReleaseConn, u);
    if !HasActive(r) && Lookup(r.subs, u).Some? {
      ActiveMeans(r.subs, u);
    }
  }

  lemma LeaveActiveKeeps(m: Machine, k: nat)
    requires Inv(m) && k < |m.subs| && (m.state == PendingState || m.state == AcquiredState)
    ensures Inv(LeaveActive(m, k))
  {
    var r := Retire(m, k);
    assert Line(m, 0);
    RetireLine(m, k, 0);
    FindIsAny(r.subs, Active);
    AllOrNothing(r.subs);
    forall u: nat
      ensures Line(LeaveActive(m, k), u)
    {
      LeaveActiveLine(m, k, u);
    }
  }

  /** UNSUBSCRIBE while releasing leaves an inactive entry behind, so the branch that
      would move to the released state is never taken. */
  lemma ReleasingLeaveKeeps(m: Machine, k: nat)
    requires Inv(m) && m.state == ReleasingState && k < |m.subs|
    ensures HasSubscribers(Retire(m, k)) && ReleasingOn(m, Leaves(k)).state == ReleasingState
    ensures Inv(ReleasingOn(m, Leaves(k)))
  {
    var r := Retire(m, k);
    assert Line(m, 0);
    RetireLine(m, k, 0);
    KeyedHas(m.subs, m.added, k);
    if m.subs[k].waits {
      SetInactive(m.subs, m.added, k, 0);
    } else {
      SparedInactive(m.subs, Notification(Only(m.subs[k].key), Unsubscribe, true), m.added, k);
    }
    forall u: nat
      ensures Line(r, u)
    {
      assert Line(m, u);
      RetireLine(m, k, u);
    }
  }

  lemma GrantLineKept(m: Machine, u: nat)
    requires Keyed(m.subs, m.added) && m.state == PendingState && Line(m, u)
    ensures var r := PendingOn(m, Hears(Granted));
      && Line(r, u)
      && (Lookup(m.subs, u).Some? ==>
        History(r.log, u) == if Lookup(m.subs, u).value.inactive then [] else [Opened])
  {
    hide Sent, Lookup, Keyed, History, Find, Spared;
    var n := Notification(Active, Granted, false);
    SentHistory(m.subs, n, m.added, u);
    HistoryAppend(m.log, Sent(m.subs, Notifier(n)), u);
    assert History(m.log, u) + [] == History(m.log, u);
    HistoryGrows([], Opened);
  }

  /** The broadcast of GRANTED answers each active entry, none of which was answered before. */
  lemma GrantKeeps(m: Machine)
    requires Inv(m) && m.state == PendingState
    ensures Inv(PendingOn(m, Hears(Granted)))
    ensures forall u: nat {:trigger Lookup(m.subs, u)} :: Lookup(m.subs, u).Some? ==>
      && Opened !in History(m.log, u)
      && History(PendingOn(m, Hears(Granted)).log, u) == if Lookup(m.subs, u).value.inactive then [] else [Opened]
  {
    forall u: nat
      ensures Line(PendingOn(m, Hears(Granted)), u)
      ensures Lookup(m.subs, u).Some? ==>
        && Opened !in History(m.log, u)
        && History(PendingOn(m, Hears(Granted)).log, u) == if Lookup(m.subs, u).value.inactive then [] else [Opened]
    {
      GrantLineKept(m, u);
    }
  }

  /** The service's last word answers and deletes everybody. */
  lemma DropsAll(m: Machine, status: RsrcStatus)
    requires Inv(m) && (status == Released || status == Denied)
    ensures Inv(NotifySubscribers(m.(state := ReleasedState), Notification(All, status, true)))
  {
    var m' := m.(state := ReleasedState);
    var n := Notification(All, status, true);
    SparedNone(m.subs, n);
    AllOrNothing(Spared(m.subs, n));
    forall u: nat
      ensures Line(NotifySubscribers(m', n), u)
    {
      assert Line(m, u);
      DeletingKeeps(m', n, u);
    }
  }

  lemma ReleasingHearsLine(m: Machine, status: RsrcStatus, u: nat)
    requires Keyed(m.subs, m.added) && m.state == ReleasingState && (status == Released || status == Denied)
    requires Line(m, u)
    ensures Line(ReleasingOn(m, Hears(status)), u)
  {
    var n := Notification(Inactive, status, true);
    var r := NotifySubscribers(m, n);
    SparedNone(m.subs, n);
    DeletingKeeps(m, n, u);
    CallKeeps(r.(state := PendingState), RequestConn, u);
    if Lookup(r.subs, u).Some? {
      NoneInactive(r.subs, u);
    }
  }

  /** The close arrives: inactive entries are answered and deleted, the others are asked
      for again. */
  lemma ReleasingHearsKeeps(m: Machine, status: RsrcStatus)
    requires Inv(m) && m.state == ReleasingState && (status == Released || status == Denied)
    ensures Inv(ReleasingOn(m, Hears(status)))
  {
    var n := Notification(Inactive, status, true);
    var r := NotifySubscribers(m, n);
    SparedNone(m.subs, n);
    SparedLookup(m.subs, n, m.added, 0);
    AllOrNothing(r.subs);
    forall u: nat
      ensures Line(ReleasingOn(m, Hears(status)), u)
    {
      ReleasingHearsLine(m, status, u);
    }
  }

  lemma JoinLine(m: Machine, c: Client, u: nat)
    requires Keyed(m.subs, m.added) && m.state != AcquiredState && Line(m, u)
    requires m.state == ReleasedState ==> m.subs == []
    ensures Line(OnRsrcEvent(m, Joins(c)), u)
  {
    AddLookup(m, c, u);
    CallKeeps(AddSubscriber(m, c).(state := PendingState), RequestConn, u);
  }

  lemma JoinKeeps(m: Machine, c: Client)
    requires Inv(m) && m.state != AcquiredState
    ensures Inv(OnRsrcEvent(m, Joins(c)))
  {
    AddLookup(m, c, 0);
    forall u: nat
      ensures Line(OnRsrcEvent(m, Joins(c)), u)
    {
      JoinLine(m, c, u);
    }
  }

  lemma AcquiredJoinLine(m: Machine, c: Client, u: nat)
    requires Keyed(m.subs, m.added) && m.state == AcquiredState && Line(m, u)
    requires Find(m.subs, Only(c.key)) < |m.subs| && u == EntryOf(m, c.key) ==> Lookup(m.subs, u).Some?
    ensures var r := AcquiredOn(m, Joins(c));
      && Line(r, u)
      && History(r.log, u) == History(m.log, u) + if u == EntryOf(m, c.key) then [Opened] else []
  {
    var message := MessageTo(EntryOf(m, c.key), c.waits, Granted);
    assert message == [Told(EntryOf(m, c.key), Opened)] && message[1..] == [];
    AddLookup(m.(log := m.log + message), c, u);
    HistoryAppend(m.log, message, u);
    if u == EntryOf(m, c.key) {
      assert History(message, u) == [Opened];
      HistoryGrows(History(m.log, u), Opened);
    } else {
      assert History(message, u) == [];
      assert History(m.log, u) + [] == History(m.log, u);
    }
  }

  /** A SUBSCRIBE while the resource is held is answered at once; only a client already
      listed can be answered twice. */
  lemma AcquiredJoinKeeps(m: Machine, c: Client)
    requires Inv(m) && m.state == AcquiredState
    ensures Inv(AcquiredOn(m, Joins(c)))
    ensures forall u: nat ::
      History(AcquiredOn(m, Joins(c)).log, u) == History(m.log, u) + if u == EntryOf(m, c.key) then [Opened] else []
  {
    AddLookup(m, c, 0);
    if Find(m.subs, Only(c.key)) < |m.subs| {
      KeyedHas(m.subs, m.added, Find(m.subs, Only(c.key)));
    }
    forall u: nat
      ensures Line(AcquiredOn(m, Joins(c)), u)
      ensures History(AcquiredOn(m, Joins(c)).log, u) ==
        History(m.log, u) + if u == EntryOf(m, c.key) then [Opened] else []
    {
      AcquiredJoinLine(m, c, u);
    }
  }

  /** Log items that tell no entry anything keep the invariant. */
  lemma SilentKeeps(m: Machine, item: Output)
    requires Inv(m) && !item.Told?
    ensures Inv(m.(log := m.log + [item]))
  {
    forall u: nat
      ensures Line(m.(log := m.log + [item]), u)
    {
      assert Line(m, u);
      HistoryAppend(m.log, [item], u);
      assert [item][1..] == [];
    }
  }

  // ---------------------------------------------------------------- runs

  lemma ServiceKeeps(m: Machine, status: RsrcStatus)
    requires Inv(m) && FromService(status)
    ensures Inv(Step(m, Service(status)))
  {
    SilentKeeps(m, Heard(status));
    var m1 := m.(log := m.log + [Heard(status)]);
    match m.state
    case ReleasedState =>
    case PendingState =>
      if status == Granted { GrantKeeps(m1); }
      if status == Denied { DropsAll(m1, status); }
    case AcquiredState =>
      if status == Released { DropsAll(m1, status); }
    case ReleasingState =>
      if status != Granted { ReleasingHearsKeeps(m1, status); }
  }

  /** Every operation but dropAllSubscribers keeps the invariant. */
  lemma StepKeeps(m: Machine, op: Op)
    requires Inv(m) && op != DropAll
    ensures Inv(Step(m, op))
  {
    match op
    case SubscribeRsrc(c) =>
      if m.single && HasSubscribers(m) {
        SilentKeeps(m, TurnedAway(c.key));
      } else if m.state == AcquiredState {
        AcquiredJoinKeeps(m, c);
      } else {
        JoinKeeps(m, c);
      }
    case UnsubscribeRsrc(key) =>
      var k := Find(m.subs, Only(key));
      if k < |m.subs| {
        if m.state == ReleasingState {
          ReleasingLeaveKeeps(m, k);
        } else {
          LeaveActiveKeeps(m, k);
        }
      }
    case Service(status) =>
      if FromService(status) {
        ServiceKeeps(m, status);
      }
  }

  /** The invariant holds after any run without dropAllSubscribers. */
  lemma {:induction false} RunKeeps(single: bool, ops: seq<Op>)
    requires DropAll !in ops
    ensures Inv(Run(Init(single), ops))
  {
    if ops != [] {
      var n := |ops| - 1;
      RunKeeps(single, ops[..n]);
      StepKeeps(Run(Init(single), ops[..n]), ops[n]);
    }
  }

  lemma StepKeepsSingle(m: Machine, op: Op)
    ensures Step(m, op).single == m.single
  {
    hide Find, Spared, Sent;
  }

  lemma {:induction false} RunKeepsSingle(single: bool, ops: seq<Op>)
    ensures Run(Init(single), ops).single == single
  {
    hide Step;
    if ops != [] {
      RunKeepsSingle(single, ops[..|ops| - 1]);
      StepKeepsSingle(Run(Init(single), ops[..|ops| - 1]), ops[|ops| - 1]);
    }
  }

  /** In every such run the state says what the list holds: nothing exactly in the
      released state, somebody active while the resource is wanted or held, somebody
      inactive while it is being given back. */
  lemma StateTellsList(single: bool, ops: seq<Op>)
    requires DropAll !in ops
    ensures var m := Run(Init(single), ops);
      && (m.state == ReleasedState <==> m.subs == [])
      && (m.state == PendingState || m.state == AcquiredState ==> HasActive(m))
      && (m.state == ReleasingState ==> Any(m.subs, Inactive))
  {
    RunKeeps(single, ops);
    FindIsAny(Run(Init(single), ops).subs, Active);
  }

  /** In every such run the broadcast of GRANTED tells each active entry exactly once, and
      tells nobody who was told before. */
  lemma GrantedOnce(single: bool, ops: seq<Op>, u: nat)
    requires DropAll !in ops
    ensures var m := Run(Init(single), ops);
      m.state == PendingState && Lookup(m.subs, u).Some? ==>
        && History(m.log, u) == []
        && History(Step(m, Service(Granted)).log, u) == if Lookup(m.subs, u).value.inactive then [] else [Opened]
  {
    RunKeeps(single, ops);
    var m := Run(Init(single), ops);
    if m.state == PendingState {
      assert Line(m, u);
      SilentKeeps(m, Heard(Granted));
      GrantKeeps(m.(log := m.log + [Heard(Granted)]));
    }
  }

  /** The identities handed out so far that are not on the list. */
  ghost function Missing(subs: seq<Subscriber>, bound: nat): set<nat> {
    set u: nat | u < bound && Lookup(subs, u) == None
  }

  /** Of the identities below a bound, as many are missing as the list falls short. */
  lemma {:induction false} CountGone(subs: seq<Subscriber>, bound: nat)
    requires Keyed(subs, bound)
    ensures |Missing(subs, bound)| + |subs| == bound
    decreases bound
  {
    if bound == 0 {
      assert Missing(subs, 0) == {};
    } else {
      var last := bound - 1;
      KeyedBelow(if subs != [] && subs[0].uid == last then subs[1..] else subs, last, last);
      if subs != [] && subs[0].uid == last {
        CountGone(subs[1..], last);
        assert Missing(subs, bound) == Missing(subs[1..], last);
      } else {
        CountGone(subs, last);
        assert Missing(subs, bound) == Missing(subs, last) + {last};
      }
    }
  }

  /** The ledger of every such run: the entries ever added are those still listed and
      those removed; the former had no terminal answer, the latter exactly one. */
  lemma NoticeLedger(single: bool, ops: seq<Op>)
    requires DropAll !in ops
    ensures var m := Run(Init(single), ops);
      var removed := Missing(m.subs, m.added);
      && |removed| + |m.subs| == m.added
      && (forall u: nat :: u in removed ==> Finished(History(m.log, u)))
      && (forall u: nat :: Lookup(m.subs, u).Some? ==> u < m.added && Living(History(m.log, u)))
  {
    RunKeeps(single, ops);
    var m := Run(Init(single), ops);
    forall u: nat
      ensures u in Missing(m.subs, m.added) ==> Finished(History(m.log, u))
      ensures Lookup(m.subs, u).Some? ==> u < m.added && Living(History(m.log, u))
    {
      assert Line(m, u);
    }
    CountGone(m.subs, m.added);
  }

  lemma TailFinished(h: seq<Answer>, told: seq<Answer>)
    requires Living(h) && Finished(h + told)
    ensures Finished(told)
  {
    assert told == [] ==> h + told == h;
    assert forall i :: 0 <= i < |told| ==> told[i] == (h + told)[|h| + i];
  }

  lemma ToldTail(m: Machine, r: Machine, more: seq<Output>, u: nat)
    requires Inv(m) && Inv(r) && r.log == m.log + more
    requires Lookup(m.subs, u).Some? && Lookup(r.subs, u) == None && m.added <= r.added
    ensures exists told :: Finished(told) && History(r.log, u) == History(m.log, u) + told
  {
    assert Line(m, u) && Line(r, u);
    HistoryAppend(m.log, more, u);
    TailFinished(History(m.log, u), History(more, u));
  }

  lemma CallGrows(m: Machine, action: Request) returns (more: seq<Output>)
    ensures SendRsrcRequest(m, action).log == m.log + more && SendRsrcRequest(m, action).added == m.added
  {
    if !HasActive(m) == (action == ReleaseConn) {
      more := [Called(action)];
    } else {
      more := [];
      assert m.log + more == m.log;
    }
  }

  lemma JoinGrows(m: Machine, c: Client) returns (more: seq<Output>)
    ensures OnRsrcEvent(m, Joins(c)).log == m.log + more && m.added <= OnRsrcEvent(m, Joins(c)).added
  {
    assert m.log + [] == m.log;
    if m.state == ReleasedState {
      more := CallGrows(AddSubscriber(m, c).(state := PendingState), RequestConn);
    } else if m.state == AcquiredState {
      more := MessageTo(EntryOf(m, c.key), c.waits, Granted);
    } else {
      more := [];
    }
  }

  lemma RetireGrows(m: Machine, k: nat) returns (more: seq<Output>)
    requires k < |m.subs|
    ensures Retire(m, k).log == m.log + more && Retire(m, k).added == m.added
  {
    if m.subs[k].waits {
      more := [];
      assert m.log + more == m.log;
    } else {
      more := Sent(m.subs, Notifier(Notification(Only(m.subs[k].key), Unsubscribe, true)));
    }
  }

  lemma LeaveGrows(m: Machine, k: nat) returns (more: seq<Output>)
    requires k < |m.subs|
    ensures OnRsrcEvent(m, Leaves(k)).log == m.log + more && m.added <= OnRsrcEvent(m, Leaves(k)).added
  {
    hide Retire, Find, Sent, Spared;
    if m.state == ReleasedState {
      more := NotifySubscriber(Notification(Only(m.subs[k].key), Unsubscribe, false), m.subs[k]).sent;
    } else {
      var r, call := Retire(m, k), [];
      var before := RetireGrows(m, k);
      if m.state != ReleasingState && !HasSubscribers(r) {
        call := CallGrows(r.(state := ReleasedState), ReleaseConn);
      } else if m.state != ReleasingState && !HasActive(r) {
        call := CallGrows(r.(state := ReleasingState), ReleaseConn);
      }
      more := before + call;
      assert m.log + before + call == m.log + more;
      assert r.log + [] == r.log;
    }
  }

  lemma HearsGrows(m: Machine, status: RsrcStatus) returns (more: seq<Output>)
    ensures OnRsrcEvent(m, Hears(status)).log == m.log + more && m.added <= OnRsrcEvent(m, Hears(status)).added
  {
    hide Sent, Spared, Find, Notifier;
    assert m.log + [] == m.log;
    more := [];
    if m.state == PendingState && status == Granted {
      more := Sent(m.subs, Notifier(Notification(Active, Granted, false)));
    } else if (m.state == PendingState && status == Denied) || (m.state == AcquiredState && status == Released) {
      more := Sent(m.subs, Notifier(Notification(All, status, true)));
    } else if m.state == ReleasingState && (status == Denied || status == Released) {
      var n := Notification(Inactive, status, true);
      var r := NotifySubscribers(m, n);
      var told, call := Sent(m.subs, Notifier(n)), [];
      if HasSubscribers(r) {
        call := CallGrows(r.(state := PendingState), RequestConn);
      }
      more := told + call;
      assert m.log + told + call == m.log + more;
      assert r.log + [] == r.log;
    }
  }

  /** Nothing already in the log is ever changed. */
  lemma LogGrows(m: Machine, op: Op) returns (more: seq<Output>)
    ensures Step(m, op).log == m.log + more && m.added <= Step(m, op).added
  {
    hide OnRsrcEvent, MessageTo;
    assert m.log + [] == m.log;
    match op
    case SubscribeRsrc(c) =>
      if m.single && HasSubscribers(m) {
        more := [TurnedAway(c.key)];
      } else {
        more := JoinGrows(m, c);
      }
    case UnsubscribeRsrc(key) =>
      var k := Find(m.subs, Only(key));
      if k < |m.subs| {
        more := LeaveGrows(m, k);
      } else {
        more := [];
      }
    case Service(status) =>
      if FromService(status) {
        var m1 := m.(log := m.log + [Heard(status)]);
        var rest := HearsGrows(m1, status);
        more := [Heard(status)] + rest;
        assert m.log + [Heard(status)] + rest == m.log + more;
      } else {
        more := [];
      }
    case DropAll => more := [];
  }

  /** The terminal answer comes in the very step that removes the entry. */
  lemma ToldWhenRemoved(m: Machine, op: Op, u: nat)
    requires Inv(m) && op != DropAll
    requires Lookup(m.subs, u).Some? && Lookup(Step(m, op).subs, u) == None
    ensures exists told :: Finished(told) && History(Step(m, op).log, u) == History(m.log, u) + told
  {
    StepKeeps(m, op);
    var more := LogGrows(m, op);
    ToldTail(m, Step(m, op), more, u);
  }

  /** dropAllSubscribers empties the list without moving the state, so the state goes on
      telling what the list holds exactly when there was nothing to drop. */
  lemma DropBreaksShape(m: Machine)
    requires Inv(m)
    ensures Shaped(Step(m, DropAll).state, Step(m, DropAll).subs) <==> m.state == ReleasedState
  {
  }
}
