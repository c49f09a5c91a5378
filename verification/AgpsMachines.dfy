// AgpsStateMachine as an object over the linked list, proved to follow module Agps
// transition by transition.
module AgpsMachines {
  import opened LinkedLists
  import opened Wrappers
  import opened Agps

  class AgpsStateMachine {
    const enforceSingleSubscriber: bool
    var statePtr: State
    const subscribers: LinkedList<Subscriber>
    var log: seq<Output>  // everything sent to subscribers and exchanged with the service
    var added: nat        // clones made so far, the identity of the next one

    ghost predicate Valid()
      reads this, subscribers, subscribers.Repr
    {
      this !in subscribers.Repr && subscribers.Valid()
    }

    ghost function Repr(): set<object>
      reads this, subscribers
    {
      {this} + subscribers.Repr
    }

    /** The machine as a value. */
    ghost function Value(): Machine
      reads this, subscribers
    {
      Machine(enforceSingleSubscriber, statePtr, subscribers.Contents, log, added)
    }

    /** A pointer to the subscriber at position `k` of the list. */
    ghost predicate Entry(s: ListElement?<Subscriber>, k: nat)
      requires Valid()
      reads this, subscribers, subscribers.Repr
    {
      s != null && k < |subscribers.Contents| && s == subscribers.elements[k]
    }

    constructor (enforceSingleSubscriber: bool)
      ensures Valid() && fresh(Repr())
      ensures Value() == Init(enforceSingleSubscriber)
    {
      this.enforceSingleSubscriber := enforceSingleSubscriber;
      statePtr := ReleasedState;
      subscribers := new LinkedList<Subscriber>();
      log, added := [], 0;
    }

    // -------------------------------------------------------------- helpers

    /** The list element the target names: linked_list_search with hasSubscriber. */
    method SearchFor(target: Target) returns (found: ListElement?<Subscriber>)
      requires Valid()
      ensures var k := Find(Value().subs, target);
        if k < |Value().subs| then Entry(found, k) else found == null
    {
      var sent;
      found, sent := subscribers.Locate(Seeker(target));
    }

    method HasActiveSubscribers() returns (active: bool)
      requires Valid()
      ensures active == HasActive(Value())
    {
      var s := SearchFor(Active);
      active := s != null;
    }

    method HasAnySubscribers() returns (some: bool)
      requires Valid()
      ensures some == HasSubscribers(Value())
    {
      var empty := subscribers.Empty();
      some := !empty;
    }

    method SendRequest(action: Request)
      requires Valid()
      modifies this`log
      ensures Valid()
      ensures Value() == SendRsrcRequest(old(Value()), action)
    {
      var s := SearchFor(Active);
      if (s == null) == (action == ReleaseConn) {
        log := log + [Called(action)];
      }
    }

    method Add(c: Client)
      requires Valid()
      modifies Repr()
      ensures Valid() && fresh(Repr() - old(Repr()))
      ensures Value() == AddSubscriber(old(Value()), c)
    {
      var s := SearchFor(Only(c.key));
      if s == null {
        var status := subscribers.Add(Subscriber(added, c.key, c.waits, false), true, true);
        added := added + 1;
      }
    }

    /** One deleting search that deletes: what it leaves is still to be deleted from, and
        what it sends goes before what the rest will be sent. */
    static lemma {:induction false} SearchDeletes(xs: seq<Subscriber>, n: Notification, k: nat)
      requires n.postNotifyDelete && k < |xs| && NotifySubscriber(n, xs[k]).found
      requires forall j :: 0 <= j < k ==> !NotifySubscriber(n, xs[j]).found
      ensures Spared(Without(xs, k), n) == Spared(xs, n)
      ensures Sent(xs[..k + 1], Notifier(n)) + Sent(Without(xs, k), Notifier(n)) == Sent(xs, Notifier(n))
    {
      var r := Without(xs, k);
      if k == 0 {
        assert xs[..1] == [xs[0]] && r == xs[1..];
      } else {
        SearchDeletes(xs[1..], n, k - 1);
        assert NotifySubscriber(n, xs[0]).sent == [];
        assert xs[..k + 1][1..] == xs[1..][..k];
        assert r[0] == xs[0] && r[1..] == Without(xs[1..], k - 1);
      }
    }

    /** The last deleting search finds nobody to delete and sends nothing. */
    static lemma {:induction false} SearchEnds(xs: seq<Subscriber>, n: Notification)
      requires forall j :: 0 <= j < |xs| ==> !NotifySubscriber(n, xs[j]).found
      ensures Spared(xs, n) == xs
    {
      if xs != [] {
        SearchEnds(xs[1..], n);
      }
    }

    /** The bookkeeping of one deleting search. */
    static lemma DeletedOne(before: seq<Output>, xs: seq<Subscriber>, n: Notification, k: nat,
                            sent: seq<Output>, left: seq<Subscriber>)
      requires n.postNotifyDelete && k == FirstMatch(xs, Notifier(n))
      requires sent == Sent(xs[..if k < |xs| then k + 1 else k], Notifier(n))
      requires left == if k < |xs| then Without(xs, k) else xs
      ensures k < |xs| ==>
        && Spared(left, n) == Spared(xs, n)
        && before + sent + Sent(left, Notifier(n)) == before + Sent(xs, Notifier(n))
      ensures k == |xs| ==> left == Spared(xs, n) && before + sent == before + Sent(xs, Notifier(n))
    {
      assert forall j {:trigger xs[j]} :: 0 <= j < |xs| ==> Notifier(n)(xs[j]) == NotifySubscriber(n, xs[j]);
      if k < |xs| {
        SearchDeletes(xs, n, k);
        assert before + sent + Sent(left, Notifier(n)) == before + (sent + Sent(left, Notifier(n)));
      } else {
        SearchEnds(xs, n);
        assert xs[..k] == xs;
      }
    }

    /** One round of the deleting search: tells and unlinks the first subscriber the
        notification is for; `s` is null once there is none. */
    method DeleteNext(n: Notification) returns (s: ListElement?<Subscriber>)
      requires Valid() && n.postNotifyDelete
      modifies this`log, subscribers.Repr
      ensures Valid() && Repr() == old(Repr())
      ensures s != null ==>
        && |subscribers.Contents| < |old(subscribers.Contents)|
        && Spared(subscribers.Contents, n) == Spared(old(subscribers.Contents), n)
        && log + Sent(subscribers.Contents, Notifier(n)) == old(log) + Sent(old(subscribers.Contents), Notifier(n))
      ensures s == null ==>
        && subscribers.Contents == Spared(old(subscribers.Contents), n)
        && log == old(log) + Sent(old(subscribers.Contents), Notifier(n))
    {
      ghost var xs, before := subscribers.Contents, log;
      ghost var k := FirstMatch(xs, Notifier(n));
      var status, sent, released;
      status, s, sent, released := subscribers.Search(Notifier(n), true, true);
      log := log + sent;
      DeletedOne(before, xs, n, k, sent, subscribers.Contents);
    }

    method NotifyAndDelete(n: Notification)
      requires Valid() && n.postNotifyDelete
      modifies Repr()
      ensures Valid() && Repr() == old(Repr())
      ensures Value() == NotifySubscribers(old(Value()), n)
    {
      ghost var xs := subscribers.Contents;
      var s := DeleteNext(n);
      while s != null
        invariant Valid() && Repr() == old(Repr()) && statePtr == old(statePtr) && added == old(added)
        invariant s != null ==>
          && Spared(subscribers.Contents, n) == Spared(xs, n)
          && log + Sent(subscribers.Contents, Notifier(n)) == old(log) + Sent(xs, Notifier(n))
        invariant s == null ==>
          && subscribers.Contents == Spared(xs, n)
          && log == old(log) + Sent(xs, Notifier(n))
        decreases s != null, |subscribers.Contents|
      {
        s := DeleteNext(n);
      }
    }

    /** A search that deletes nothing reaches everybody. */
    static lemma {:induction false} SearchTellsAll(xs: seq<Subscriber>, n: Notification)
      requires !n.postNotifyDelete
      ensures FirstMatch(xs, Notifier(n)) == |xs| && xs[..|xs|] == xs
    {
      if xs != [] {
        SearchTellsAll(xs[1..], n);
      }
    }

    /** Tells every subscriber the notification is for, once, in list order; a deleting
        notification also takes each of them off the list, one search per deletion. */
    method Notify(n: Notification)
      requires Valid()
      modifies Repr()
      ensures Valid() && Repr() == old(Repr())
      ensures Value() == NotifySubscribers(old(Value()), n)
    {
      if n.postNotifyDelete {
        NotifyAndDelete(n);
      } else {
        SearchTellsAll(subscribers.Contents, n);
        var s, sent := subscribers.Locate(Notifier(n));
        log := log + sent;
      }
    }

    // -------------------------------------------------------------- the four states

    method OnReleasedJoins(c: Client)
      requires Valid() && statePtr == ReleasedState
      modifies Repr()
      ensures Valid() && fresh(Repr() - old(Repr()))
      ensures Value() == ReleasedOn(old(Value()), Joins(c))
    {
      Add(c);
      ghost var r := Value();
      statePtr := PendingState;
      assert Value() == r.(state := PendingState);
      SendRequest(RequestConn);
    }

    method OnReleasedLeaves(s: ListElement<Subscriber>, ghost k: nat)
      requires Valid() && statePtr == ReleasedState
      requires Entry(s, k)
      modifies this
      ensures Valid()
      ensures Value() == ReleasedOn(old(Value()), Leaves(k))
    {
      var reply := NotifySubscriber(Notification(Only(s.data.key), Unsubscribe, false), s.data);
      log := log + reply.sent;
    }

    /** The part of UNSUBSCRIBE the other three states share. */
    method RetireEntry(s: ListElement<Subscriber>, ghost k: nat)
      requires Valid() && Entry(s, k)
      modifies Repr()
      ensures Valid() && Repr() == old(Repr())
      ensures Value() == Retire(old(Value()), k)
    {
      if s.data.waits {
        subscribers.Overwrite(s, s.data.(inactive := true), k);
      } else {
        Notify(Notification(Only(s.data.key), Unsubscribe, true));
      }
    }

    method SettleState()
      requires Valid()
      modifies this
      ensures Valid()
      ensures Value() == Settle(old(Value()))
    {
      ghost var r := Value();
      var some := HasAnySubscribers();
      if !some {
        statePtr := ReleasedState;
        assert Value() == r.(state := ReleasedState);
        SendRequest(ReleaseConn);
      } else {
        var active := HasActiveSubscribers();
        if !active {
          statePtr := ReleasingState;
          assert Value() == r.(state := ReleasingState);
          SendRequest(ReleaseConn);
        }
      }
    }

    method OnActiveLeaves(s: ListElement<Subscriber>, ghost k: nat)
      requires Valid() && (statePtr == PendingState || statePtr == AcquiredState)
      requires Entry(s, k)
      modifies Repr()
      ensures Valid() && Repr() == old(Repr())
      ensures Value() == LeaveActive(old(Value()), k)
    {
      RetireEntry(s, k);
      SettleState();
    }

    method OnReleasingLeaves(s: ListElement<Subscriber>, ghost k: nat)
      requires Valid() && statePtr == ReleasingState
      requires Entry(s, k)
      modifies Repr()
      ensures Valid() && Repr() == old(Repr())
      ensures Value() == ReleasingOn(old(Value()), Leaves(k))
    {
      RetireEntry(s, k);
      var some := HasAnySubscribers();
      if !some {
        statePtr := ReleasedState;
      }
    }

    method OnAcquiredJoins(c: Client)
      requires Valid() && statePtr == AcquiredState
      modifies Repr()
      ensures Valid() && fresh(Repr() - old(Repr()))
      ensures Value() == AcquiredOn(old(Value()), Joins(c))
    {
      var s := SearchFor(Only(c.key));  // only to name the entry the answer is about
      var uid := if s != null then s.data.uid else added;
      ghost var m := Value();
      log := log + MessageTo(uid, c.waits, Granted);
      assert Value() == m.(log := m.log + MessageTo(EntryOf(m, c.key), c.waits, Granted));
      Add(c);
    }

    method OnReleasingHears(status: RsrcStatus)
      requires Valid() && statePtr == ReleasingState
      modifies Repr()
      ensures Valid() && Repr() == old(Repr())
      ensures Value() == ReleasingOn(old(Value()), Hears(status))
    {
      if status == Denied || status == Released {
        Notify(Notification(Inactive, status, true));
        ghost var r := Value();
        var some := HasAnySubscribers();
        if some {
          statePtr := PendingState;
          assert Value() == r.(state := PendingState);
          SendRequest(RequestConn);
        } else {
          statePtr := ReleasedState;
        }
      }
    }

    method OnPendingHears(status: RsrcStatus)
      requires Valid() && statePtr == PendingState
      modifies Repr()
      ensures Valid() && Repr() == old(Repr())
      ensures Value() == PendingOn(old(Value()), Hears(status))
    {
      ghost var m := Value();
      if status == Granted {
        statePtr := AcquiredState;
        assert Value() == m.(state := AcquiredState);
        Notify(Notification(Active, status, false));
      } else if status == Denied {
        statePtr := ReleasedState;
        assert Value() == m.(state := ReleasedState);
        Notify(Notification(All, status, true));
      }
    }

    method OnAcquiredHears(status: RsrcStatus)
      requires Valid() && statePtr == AcquiredState
      modifies Repr()
      ensures Valid() && Repr() == old(Repr())
      ensures Value() == AcquiredOn(old(Value()), Hears(status))
    {
      ghost var m := Value();
      if status == Released {
        statePtr := ReleasedState;
        assert Value() == m.(state := ReleasedState);
        Notify(Notification(All, status, true));
      }
    }

    method OnHears(status: RsrcStatus)
      requires Valid()
      modifies Repr()
      ensures Valid() && Repr() == old(Repr())
      ensures Value() == Agps.OnRsrcEvent(old(Value()), Hears(status))
    {
      match statePtr
      case ReleasedState =>
      case PendingState => OnPendingHears(status);
      case AcquiredState => OnAcquiredHears(status);
      case ReleasingState => OnReleasingHears(status);
    }

    // -------------------------------------------------------------- what callers use

    /** An event of the connectivity service. */
    method OnRsrcEvent(status: RsrcStatus)
      requires Valid()
      modifies Repr()
      ensures Valid() && Repr() == old(Repr())
      ensures Value() == Step(old(Value()), Service(status))
    {
      if status == Granted || status == Released || status == Denied {
        log := log + [Heard(status)];
        OnHears(status);
      }
    }

    method SubscribeClient(c: Client)
      requires Valid()
      modifies Repr()
      ensures Valid() && fresh(Repr() - old(Repr()))
      ensures Value() == Step(old(Value()), SubscribeRsrc(c))
    {
      var some := HasAnySubscribers();
      if enforceSingleSubscriber && some {
        log := log + [TurnedAway(c.key)];
      } else {
        match statePtr
        case ReleasedState => OnReleasedJoins(c);
        case AcquiredState => OnAcquiredJoins(c);
        case PendingState => Add(c);
        case ReleasingState => Add(c);
      }
    }

    /** False when the client is not listed. */
    method UnsubscribeClient(key: Key) returns (known: bool)
      requires Valid()
      modifies Repr()
      ensures Valid() && Repr() == old(Repr())
      ensures Value() == Step(old(Value()), UnsubscribeRsrc(key))
      ensures known <==> Find(old(Value()).subs, Only(key)) < |old(Value()).subs|
    {
      ghost var k := Find(Value().subs, Only(key));
      var s := SearchFor(Only(key));
      if s == null {
        return false;
      }
      match statePtr {
        case ReleasedState => OnReleasedLeaves(s, k);
        case PendingState => OnActiveLeaves(s, k);
        case AcquiredState => OnActiveLeaves(s, k);
        case ReleasingState => OnReleasingLeaves(s, k);
      }
      return true;
    }

    /** The list is emptied and its subscribers are freed; nobody is told. */
    method DropAllSubscribers()
      requires Valid()
      modifies Repr()
      ensures Valid() && Repr() == old(Repr())
      ensures Value() == Step(old(Value()), DropAll)
    {
      var released := subscribers.Flush();
    }
  }
}
