// The AGPS resource state machine of gps/libloc_api_50001/loc_eng_agps.cpp and
// loc_eng_agps.h as transition functions over values. Module AgpsMachines proves that
// the object with its linked list follows them.
module Agps {
  import opened LinkedLists
  import opened Wrappers

  // ---------------------------------------------------------------- subscribers

  /** What two subscribers must share to count as the same one. */
  datatype Key = ByNumber(id: int) | ByAddress(address: string)

  /** What a caller hands to subscribe: only a WIFI subscriber waits for the close. */
  datatype Client = Client(key: Key, waits: bool)

  /** A list entry. `uid` stands for the identity of the cloned object. */
  datatype Subscriber = Subscriber(uid: nat, key: Key, waits: bool, inactive: bool)

  const INADDR_NONE: int := 0xFFFF_FFFF

  /** A request from the BIT daemon, by IPv4 address or else by the 16 IPv6 bytes. */
  datatype BitRequest = BitRequest(ipv4: int, ipv6: string)

  /** C's strncmp(a, b, n) == 0. */
  function SameText(a: string, b: string, n: nat): bool
    requires n <= |a| && n <= |b|
  {
    n == 0 || (a[0] == b[0] && (a[0] == '\0' || SameText(a[1..], b[1..], n - 1)))
  }

  function BitEquals(a: BitRequest, b: BitRequest): bool
    requires |a.ipv6| == |b.ipv6| == 16
  {
    a.ipv4 == b.ipv4 && (a.ipv4 != INADDR_NONE || SameText(a.ipv6, b.ipv6, 16))
  }

  function UpToNul(a: string): string {
    if a == "" || a[0] == '\0' then "" else [a[0]] + UpToNul(a[1..])
  }

  function BitKey(a: BitRequest): Key {
    if a.ipv4 != INADDR_NONE then ByNumber(a.ipv4) else ByAddress(UpToNul(a.ipv6))
  }

  lemma {:induction false} SameTextIsSameUpToNul(a: string, b: string)
    requires |a| == |b|
    ensures SameText(a, b, |a|) <==> UpToNul(a) == UpToNul(b)
  {
    if a != "" {
      SameTextIsSameUpToNul(a[1..], b[1..]);
      var u, v := UpToNul(a), UpToNul(b);
      if a[0] != '\0' && b[0] != '\0' {
        assert u[0] == a[0] && u[1..] == UpToNul(a[1..]);
        assert v[0] == b[0] && v[1..] == UpToNul(b[1..]);
      }
    }
  }

  /** Equality of BIT subscribers is equality of keys, hence an equivalence. */
  lemma BitEqualsIsSameKey(a: BitRequest, b: BitRequest)
    requires |a.ipv6| == |b.ipv6| == 16
    ensures BitEquals(a, b) <==> BitKey(a) == BitKey(b)
  {
    SameTextIsSameUpToNul(a.ipv6, b.ipv6);
  }

  /** C's strncmp: the texts agree up to their first NUL. */
  lemma {:induction false} SameTextMeans(a: string, b: string, n: nat)
    requires n <= |a| && n <= |b|
    ensures SameText(a, b, n) <==>
      forall i :: 0 <= i < n && (forall j :: 0 <= j < i ==> a[j] != '\0') ==> a[i] == b[i]
    decreases n
  {
    if n > 0 && a[0] == b[0] && a[0] != '\0' {
      SameTextMeans(a[1..], b[1..], n - 1);
      var p, q := a[1..], b[1..];
      if SameText(p, q, n - 1) {
        forall i | 0 <= i < n && (forall j :: 0 <= j < i ==> a[j] != '\0')
          ensures a[i] == b[i]
        {
          if i > 0 {
            assert forall j :: 0 <= j < i - 1 ==> p[j] == a[j + 1];
            assert p[i - 1] == q[i - 1];
          }
        }
      } else {
        var i :| 0 <= i < n - 1 && (forall j :: 0 <= j < i ==> p[j] != '\0') && p[i] != q[i];
        assert a[i + 1] != b[i + 1] && forall j :: 0 < j < i + 1 ==> a[j] == p[j - 1];
      }
    }
  }

  /** Two BIT requests are the same one exactly if their numbers agree and, without a number,
      their addresses agree up to the first NUL. */
  lemma BitEqualsMeans(a: BitRequest, b: BitRequest)
    requires |a.ipv6| == |b.ipv6| == 16
    ensures BitEquals(a, b) <==>
      && a.ipv4 == b.ipv4
      && (a.ipv4 == 0xFFFF_FFFF ==>
        forall i :: 0 <= i < 16 && (forall j :: 0 <= j < i ==> a.ipv6[j] != '\0') ==> a.ipv6[i] == b.ipv6[i])
  {
    hide SameText;
    SameTextMeans(a.ipv6, b.ipv6, 16);
  }

  // ---------------------------------------------------------------- notices

  datatype RsrcStatus = Subscribe | Unsubscribe | Granted | Released | Denied | StatusMax

  /** What the subscriber's side is told. */
  datatype Answer = Opened | Refused | Closed

  datatype Request = RequestConn | ReleaseConn

  /** What happens around the machine, in order: answers to subscribers, callbacks to the
      connectivity service, and the service's events. An answer names the list
      entry it is for; a caller that is denied at the door has no entry, only a key. */
  datatype Output =
    | Told(uid: nat, answer: Answer)
    | TurnedAway(key: Key)
    | Called(request: Request)
    | Heard(event: RsrcStatus)

  datatype Target = Only(key: Key) | All | Active | Inactive

  datatype Notification = Notification(target: Target, status: RsrcStatus, postNotifyDelete: bool)

  predicate ForMe(target: Target, s: Subscriber) {
    match target
    case Only(key) => s.key == key
    case All => true
    case Active => !s.inactive
    case Inactive => s.inactive
  }

  /** The message sent for a status; a WIFI subscriber hears nothing about UNSUBSCRIBE. */
  function AnswerFor(status: RsrcStatus, waits: bool): Option<Answer> {
    match status
    case Unsubscribe => if waits then None else Some(Closed)
    case Released => Some(Closed)
    case Denied => Some(Refused)
    case Granted => Some(Opened)
    case Subscribe => None
    case StatusMax => None
  }

  function MessageTo(uid: nat, waits: bool, status: RsrcStatus): seq<Output> {
    match AnswerFor(status, waits)
    case Some(answer) => [Told(uid, answer)]
    case None => []
  }

  /** The notifySubscriber callback: tell the subscriber if the notification is for it. */
  function NotifySubscriber(n: Notification, s: Subscriber): Reply<Output> {
    var notify := ForMe(n.target, s) && n.status != Subscribe && n.status != StatusMax;
    Reply(notify && n.postNotifyDelete,
          if notify then MessageTo(s.uid, s.waits, n.status) else [])
  }

  function Notifier(n: Notification): Subscriber -> Reply<Output> {
    (s: Subscriber) => NotifySubscriber(n, s)
  }

  /** The hasSubscriber callback. */
  function Seeker(target: Target): Subscriber -> Reply<Output> {
    (s: Subscriber) => Reply(ForMe(target, s), [])
  }

  /** Position of the first entry a target names, or the length. */
  function Find(subs: seq<Subscriber>, target: Target): (k: nat)
    ensures k <= |subs|
    ensures k < |subs| ==> ForMe(target, subs[k])
  {
    FirstMatch(subs, Seeker(target))
  }

  /** The entries a notification does not delete. */
  function Spared(subs: seq<Subscriber>, n: Notification): seq<Subscriber> {
    if subs == [] then []
    else if NotifySubscriber(n, subs[0]).found then Spared(subs[1..], n)
    else [subs[0]] + Spared(subs[1..], n)
  }

  // ---------------------------------------------------------------- the machine

  datatype State = ReleasedState | PendingState | AcquiredState | ReleasingState

  datatype Machine = Machine(
    single: bool,
    state: State,
    subs: seq<Subscriber>,  // front of the list first
    log: seq<Output>,
    added: nat)             // entries ever put on the list

  /** What a state's onRsrcEvent receives; `k` is the entry that unsubscribes. */
  datatype Event = Joins(client: Client) | Leaves(k: nat) | Hears(status: RsrcStatus)

  predicate HasSubscribers(m: Machine) {
    m.subs != []
  }

  predicate HasActive(m: Machine) {
    Find(m.subs, Active) < |m.subs|
  }

  function NotifySubscribers(m: Machine, n: Notification): Machine {
    m.(subs := if n.postNotifyDelete then Spared(m.subs, n) else m.subs,
       log := m.log + Sent(m.subs, Notifier(n)))
  }

  function AddSubscriber(m: Machine, c: Client): Machine {
    if Find(m.subs, Only(c.key)) < |m.subs| then m
    else m.(subs := [Subscriber(m.added, c.key, c.waits, false)] + m.subs, added := m.added + 1)
  }

  function SendRsrcRequest(m: Machine, action: Request): Machine {
    if !HasActive(m) == (action == ReleaseConn) then m.(log := m.log + [Called(action)]) else m
  }

  /** The entry that stands for a client: the one it already has, or the next one. */
  function EntryOf(m: Machine, key: Key): nat {
    var k := Find(m.subs, Only(key));
    if k < |m.subs| then m.subs[k].uid else m.added
  }

  function ReleasedOn(m: Machine, e: Event): Machine
    requires e.Leaves? ==> e.k < |m.subs|
  {
    match e
    case Joins(c) =>
      SendRsrcRequest(AddSubscriber(m, c).(state := PendingState), RequestConn)
    case Leaves(k) =>
      var s := m.subs[k];
      m.(log := m.log + NotifySubscriber(Notification(Only(s.key), Unsubscribe, false), s).sent)
    case Hears(_) => m
  }

  /** The common part of UNSUBSCRIBE: a waiting subscriber turns inactive, any other is
      told and deleted. */
  function Retire(m: Machine, k: nat): Machine
    requires k < |m.subs|
  {
    if m.subs[k].waits then m.(subs := m.subs[k := m.subs[k].(inactive := true)])
    else NotifySubscribers(m, Notification(Only(m.subs[k].key), Unsubscribe, true))
  }

  /** Gives the resource back once nobody active is left. */
  function Settle(r: Machine): Machine {
    if !HasSubscribers(r) then SendRsrcRequest(r.(state := ReleasedState), ReleaseConn)
    else if !HasActive(r) then SendRsrcRequest(r.(state := ReleasingState), ReleaseConn)
    else r
  }

  /** UNSUBSCRIBE while the resource is wanted or held. */
  function LeaveActive(m: Machine, k: nat): Machine
    requires k < |m.subs|
  {
    Settle(Retire(m, k))
  }

  function PendingOn(m: Machine, e: Event): Machine
    requires e.Leaves? ==> e.k < |m.subs|
  {
    match e
    case Joins(c) => AddSubscriber(m, c)
    case Leaves(k) => LeaveActive(m, k)
    case Hears(Granted) => NotifySubscribers(m.(state := AcquiredState), Notification(Active, Granted, false))
    case Hears(Denied) => NotifySubscribers(m.(state := ReleasedState), Notification(All, Denied, true))
    case Hears(_) => m
  }

  function AcquiredOn(m: Machine, e: Event): Machine
    requires e.Leaves? ==> e.k < |m.subs|
  {
    match e
    case Joins(c) =>
      AddSubscriber(m.(log := m.log + MessageTo(EntryOf(m, c.key), c.waits, Granted)), c)
    case Leaves(k) => LeaveActive(m, k)
    case Hears(Released) => NotifySubscribers(m.(state := ReleasedState), Notification(All, Released, true))
    case Hears(_) => m
  }

  function ReleasingOn(m: Machine, e: Event): Machine
    requires e.Leaves? ==> e.k < |m.subs|
  {
    match e
    case Joins(c) => AddSubscriber(m, c)
    case Leaves(k) =>
      var r := Retire(m, k);
      if HasSubscribers(r) then r else r.(state := ReleasedState)
    case Hears(status) =>
      if status != Denied && status != Released then m else
      var r := NotifySubscribers(m, Notification(Inactive, status, true));
      if HasSubscribers(r) then SendRsrcRequest(r.(state := PendingState), RequestConn)
      else r.(state := ReleasedState)
  }

  function OnRsrcEvent(m: Machine, e: Event): Machine
    requires e.Leaves? ==> e.k < |m.subs|
  {
    match m.state
    case ReleasedState => ReleasedOn(m, e)
    case PendingState => PendingOn(m, e)
    case AcquiredState => AcquiredOn(m, e)
    case ReleasingState => ReleasingOn(m, e)
  }

  // ---------------------------------------------------------------- what callers do

  datatype Op = SubscribeRsrc(client: Client) | UnsubscribeRsrc(key: Key) | Service(status: RsrcStatus) | DropAll

  predicate FromService(status: RsrcStatus) {
    status == Granted || status == Released || status == Denied
  }

  function Step(m: Machine, op: Op): Machine {
    match op
    case SubscribeRsrc(c) =>
      if m.single && HasSubscribers(m)
      then m.(log := m.log + [TurnedAway(c.key)])
      else OnRsrcEvent(m, Joins(c))
    case UnsubscribeRsrc(key) =>
      var k := Find(m.subs, Only(key));
      if k < |m.subs| then OnRsrcEvent(m, Leaves(k)) else m
    case Service(status) =>
      if FromService(status) then OnRsrcEvent(m.(log := m.log + [Heard(status)]), Hears(status)) else m
    case DropAll => m.(subs := [])
  }

  function Init(single: bool): Machine {
    Machine(single, ReleasedState, [], [], 0)
  }

  function Run(m: Machine, ops: seq<Op>): Machine {
    if ops == [] then m else Step(Run(m, ops[..|ops| - 1]), ops[|ops| - 1])
  }
}
