// What holds of the network-initiated request protocol in every interleaving.
module NiProofs {
  import opened Wrappers
  import opened NiProtocol

  // ---------------------------------------------------------------- counting

  lemma {:induction false} CountAppend<T>(xs: seq<T>, x: T, y: T)
    ensures Count(xs + [x], y) == Count(xs, y) + if x == y then 1 else 0
  {
    if xs == [] {
      assert [x][1..] == [] && xs + [x] == [x];
    } else {
      CountAppend(xs[1..], x, y);
      assert (xs + [x])[1..] == xs[1..] + [x];
    }
  }

  lemma {:induction false} DeliveredAppend(xs: seq<Answer>, x: Answer, p: nat)
    ensures Delivered(xs + [x], p) == Delivered(xs, p) + if x.request == p then 1 else 0
  {
    if xs == [] {
      assert [x][1..] == [] && xs + [x] == [x];
    } else {
      DeliveredAppend(xs[1..], x, p);
      assert (xs + [x])[1..] == xs[1..] + [x];
    }
  }

  lemma {:induction false} QueueAppend(q: seq<Message>, m: Message, p: nat)
    ensures QueuedRequests(q + [m], p) == QueuedRequests(q, p) + if m == RequestNi(p) then 1 else 0
    ensures QueuedAnswers(q + [m], p) ==
      QueuedAnswers(q, p) + if m.InformNiResponse? && m.answer.request == p then 1 else 0
  {
    if q == [] {
      assert [m][1..] == [] && q + [m] == [m];
    } else {
      QueueAppend(q[1..], m, p);
      assert (q + [m])[1..] == q[1..] + [m];
    }
  }

  lemma {:induction false} HeldUpdate(workers: seq<Worker>, w: nat, worker: Worker, p: nat)
    requires w < |workers|
    ensures Held(workers[w := worker], p) == Held(workers, p) - Holds(workers[w], p) + Holds(worker, p)
  {
    if w == 0 {
      assert workers[0 := worker][1..] == workers[1..];
    } else {
      HeldUpdate(workers[1..], w - 1, worker, p);
      assert workers[w := worker][1..] == workers[1..][w - 1 := worker];
    }
  }

  lemma {:induction false} HeldAppend(workers: seq<Worker>, worker: Worker, p: nat)
    ensures Held(workers + [worker], p) == Held(workers, p) + Holds(worker, p)
  {
    if workers == [] {
      assert [worker][1..] == [] && workers + [worker] == [worker];
    } else {
      HeldAppend(workers[1..], worker, p);
      assert (workers + [worker])[1..] == workers[1..] + [worker];
    }
  }

  function Waits1(worker: Worker): nat {
    if worker.pc == Waits then 1 else 0
  }

  lemma {:induction false} WaitingUpdate(workers: seq<Worker>, w: nat, worker: Worker)
    requires w < |workers|
    ensures Waiting(workers[w := worker]) == Waiting(workers) - Waits1(workers[w]) + Waits1(worker)
  {
    if w == 0 {
      assert workers[0 := worker][1..] == workers[1..];
    } else {
      WaitingUpdate(workers[1..], w - 1, worker);
      assert workers[w := worker][1..] == workers[1..][w - 1 := worker];
    }
  }

  lemma {:induction false} WaitingAppend(workers: seq<Worker>, worker: Worker)
    ensures Waiting(workers + [worker]) == Waiting(workers) + Waits1(worker)
  {
    if workers == [] {
      assert [worker][1..] == [] && workers + [worker] == [worker];
    } else {
      WaitingAppend(workers[1..], worker);
      assert (workers + [worker])[1..] == workers[1..] + [worker];
    }
  }

  // ---------------------------------------------------------------- before the callback

  /** Until there is a callback nothing happens but requests that come and are dropped. */
  predicate Unborn(s: State) {
    !s.registered ==>
      && s == Init().(queue := s.queue, submitted := s.submitted, dropped := s.dropped)
      && forall i :: 0 <= i < |s.queue| ==> s.queue[i].RequestNi?
  }

  lemma StaysRegistered(s: State, a: Act)
    requires s.registered
    ensures Next(s, a).registered
  {
    hide Quiet;
  }

  lemma NextKeepsUnborn(s: State, a: Act)
    requires Unborn(s)
    ensures Unborn(Next(s, a))
  {
    hide Quiet;
    if s.registered {
      StaysRegistered(s, a);
    } else if Enabled(s, a) {
      assert a.Register? || a.Submit? || a.Dispatch?;
    }
  }

  // ---------------------------------------------------------------- conservation

  /** Each request is at one place: still queued, accepted, refused or dropped; and each accepted
      pointer is in the slot, in a worker's hands, in a queued response or delivered. */
  predicate Conserved(s: State, p: nat) {
    && QueuedRequests(s.queue, p) + Count(s.accepted, p) + Count(s.refused, p) + Count(s.dropped, p)
       == (if p < s.submitted then 1 else 0)
    && InSlot(s.slot, p) + Held(s.workers, p) + QueuedAnswers(s.queue, p) + Delivered(s.delivered, p)
       == Count(s.accepted, p)
    && Count(s.freed, p) == Count(s.refused, p) + Delivered(s.delivered, p)
  }

  lemma RequestConserves(s: State, q: nat, p: nat)
    requires Conserved(s, p) && s.queue != [] && s.queue[0] == RequestNi(q)
    ensures Conserved(DispatchOne(s), p)
  {
    hide Held, Delivered, Count;
    CountAppend(s.refused, q, p);
    CountAppend(s.freed, q, p);
    CountAppend(s.accepted, q, p);
    CountAppend(s.dropped, q, p);
    assert QueuedRequests(s.queue, p) == (if q == p then 1 else 0) + QueuedRequests(s.queue[1..], p);
    assert QueuedAnswers(s.queue, p) == QueuedAnswers(s.queue[1..], p);
  }

  lemma AnswerConserves(s: State, answer: Answer, p: nat)
    requires Conserved(s, p) && s.queue != [] && s.queue[0] == InformNiResponse(answer)
    ensures Conserved(DispatchOne(s), p)
  {
    hide Held;
    DeliveredAppend(s.delivered, answer, p);
    CountAppend(s.freed, answer.request, p);
    assert QueuedRequests(s.queue, p) == QueuedRequests(s.queue[1..], p);
    assert QueuedAnswers(s.queue, p) == (if answer.request == p then 1 else 0) + QueuedAnswers(s.queue[1..], p);
  }

  lemma DispatchConserves(s: State, p: nat)
    requires Conserved(s, p) && s.queue != []
    ensures Conserved(DispatchOne(s), p)
  {
    match s.queue[0]
    case RequestNi(q) => RequestConserves(s, q, p);
    case InformNiResponse(answer) => AnswerConserves(s, answer, p);
  }

  lemma TakeConserves(s: State, w: nat, timedOut: bool, p: nat)
    requires Conserved(s, p) && Enabled(s, Take(w, timedOut))
    ensures Conserved(TakeSlot(s, w, timedOut), p)
  {
    HeldUpdate(s.workers, w, TakeSlot(s, w, timedOut).workers[w], p);
  }

  /** A worker that moves on with what it holds. */
  lemma HoldingOn(s: State, w: nat, r: State, p: nat)
    requires Conserved(s, p) && w < |s.workers| == |r.workers|
    requires r == s.(workers := s.workers[w := r.workers[w]], reqID := r.reqID)
    requires Holds(r.workers[w], p) == Holds(s.workers[w], p)
    ensures Conserved(r, p)
  {
    HeldUpdate(s.workers, w, r.workers[w], p);
  }

  lemma SendConserves(s: State, w: nat, p: nat)
    requires Conserved(s, p) && Enabled(s, Send(w))
    ensures Conserved(Next(s, Send(w)), p)
  {
    HeldUpdate(s.workers, w, s.workers[w].(pc := Done), p);
    match s.workers[w].pc.answer
    case None => assert s.queue + [] == s.queue;
    case Some(answer) => QueueAppend(s.queue, InformNiResponse(answer), p);
  }

  lemma NextConserves(s: State, a: Act, p: nat)
    requires Conserved(s, p) && Unborn(s)
    ensures Conserved(Next(s, a), p)
  {
    hide QueuedRequests, QueuedAnswers, Held, Delivered, Count, TakeSlot, DispatchOne, Quiet;
    if Enabled(s, a) {
      match a
      case Register =>
      case Submit => QueueAppend(s.queue, RequestNi(s.submitted), p);
      case Dispatch => DispatchConserves(s, p);
      case Name =>
      case Spawn => HeldAppend(s.workers, Worker(s.handler.request, Waits), p);
      case ReadId(_, _) =>
      case ReadSlot(_) =>
      case Set(_) =>
      case Take(w, timedOut) => TakeConserves(s, w, timedOut, p);
      case Load(w) => HoldingOn(s, w, Next(s, a), p);
      case Store(w) => HoldingOn(s, w, Next(s, a), p);
      case Send(w) => SendConserves(s, w, p);
    }
  }

  // ---------------------------------------------------------------- slot and workers

  /** A worker's business: while it waits the slot is its own; what it sends is its own. */
  predicate OwnWork(slot: Option<nat>, worker: Worker) {
    match worker.pc
    case Waits => slot == Some(worker.request)
    case Took(answer) => answer.Some? && answer.value.request == worker.request
    case Loaded(answer, _) => answer.Some? && answer.value.request == worker.request
    case Stored(answer) => answer.Some? && answer.value.request == worker.request
    case Done => true
  }

  function Busy(handler: Handler): nat {
    if handler == Idle then 0 else 1
  }

  /** The slot is filled exactly while one worker has not taken it or is yet to be started,
      and every accepted request has a worker of its own. */
  ghost predicate SlotKept(s: State) {
    && Waiting(s.workers) + Busy(s.handler) == (if s.slot.Some? then 1 else 0)
    && (s.handler != Idle ==> s.slot == Some(s.handler.request))
    && (forall i :: 0 <= i < |s.workers| ==> OwnWork(s.slot, s.workers[i]))
    && |s.accepted| == |s.workers| + Busy(s.handler)
    && (forall i :: 0 <= i < |s.workers| ==> s.workers[i].request == s.accepted[i])
    && (s.handler != Idle ==> s.accepted[|s.workers|] == s.handler.request)
  }

  lemma {:induction false} NoneWaits(workers: seq<Worker>, i: nat)
    requires Waiting(workers) == 0 && i < |workers|
    ensures workers[i].pc != Waits
  {
    if i > 0 {
      NoneWaits(workers[1..], i - 1);
    }
  }

  lemma {:induction false} OneWaits(workers: seq<Worker>, i: nat, j: nat)
    requires Waiting(workers) <= 1 && i < j < |workers|
    ensures workers[i].pc != Waits || workers[j].pc != Waits
  {
    if i > 0 {
      OneWaits(workers[1..], i - 1, j - 1);
    } else if workers[0].pc == Waits {
      NoneWaits(workers[1..], j - 1);
    }
  }

  lemma DispatchKeepsSlot(s: State)
    requires SlotKept(s) && s.handler == Idle && s.queue != []
    ensures SlotKept(DispatchOne(s))
  {
    if s.queue[0].RequestNi? && s.slot == None {
      forall i | 0 <= i < |s.workers|
        ensures s.workers[i].pc != Waits
      {
        NoneWaits(s.workers, i);
      }
    }
  }

  lemma SpawnKeepsSlot(s: State)
    requires SlotKept(s) && s.handler.Named?
    ensures SlotKept(Next(s, Spawn))
  {
    WaitingAppend(s.workers, Worker(s.handler.request, Waits));
  }

  lemma TakeKeepsSlot(s: State, w: nat, timedOut: bool)
    requires SlotKept(s) && Enabled(s, Take(w, timedOut))
    ensures SlotKept(TakeSlot(s, w, timedOut))
  {
    var r := TakeSlot(s, w, timedOut);
    WaitingUpdate(s.workers, w, r.workers[w]);
    forall i | 0 <= i < |s.workers| && i != w
      ensures s.workers[i].pc != Waits
    {
      if i < w { OneWaits(s.workers, i, w); } else { OneWaits(s.workers, w, i); }
    }
  }

  lemma SameSlot(s: State, r: State)
    requires SlotKept(s) && r.workers == s.workers && r.slot == s.slot && r.accepted == s.accepted
    requires r.handler == s.handler || (s.handler.Saved? && r.handler.Named? && r.handler.request == s.handler.request)
    ensures SlotKept(r)
  {
  }

  /** A worker past the locked section moves on. */
  lemma MoveKeepsSlot(s: State, a: Act, w: nat)
    requires SlotKept(s) && Enabled(s, a) && (a == Load(w) || a == Store(w) || a == Send(w))
    ensures SlotKept(Next(s, a))
  {
    hide Waiting;
    WaitingUpdate(s.workers, w, Next(s, a).workers[w]);
  }

  lemma NextKeepsSlot(s: State, a: Act)
    requires SlotKept(s) && Unborn(s)
    ensures SlotKept(Next(s, a))
  {
    hide SlotKept, TakeSlot, DispatchOne, Quiet;
    if Enabled(s, a) {
      match a
      case Register => SameSlot(s, Next(s, a));
      case Submit => SameSlot(s, Next(s, a));
      case Dispatch => DispatchKeepsSlot(s);
      case Name => SameSlot(s, Next(s, a));
      case Spawn => SpawnKeepsSlot(s);
      case ReadId(_, _) => SameSlot(s, Next(s, a));
      case ReadSlot(_) => SameSlot(s, Next(s, a));
      case Set(_) => SameSlot(s, Next(s, a));
      case Take(w, timedOut) => TakeKeepsSlot(s, w, timedOut);
      case Load(w) => MoveKeepsSlot(s, a, w);
      case Store(w) => MoveKeepsSlot(s, a, w);
      case Send(w) => MoveKeepsSlot(s, a, w);
    }
  }

  // ---------------------------------------------------------------- ids

  function Stores(workers: seq<Worker>): nat {
    if workers == [] then 0 else (if HasStored(workers[0]) then 1 else 0) + Stores(workers[1..])
  }

  ghost predicate AllQuiet(notices: seq<Notice>) {
    forall k :: 0 <= k < |notices| ==> notices[k].quiet
  }

  ghost predicate Sequential(notices: seq<Notice>) {
    forall k :: 0 <= k < |notices| ==> notices[k].id == k
  }

  ghost predicate Distinct(notices: seq<Notice>) {
    forall j, k :: 0 <= j < k < |notices| ==> notices[j].id != notices[k].id
  }

  /** reqID never runs ahead of the workers that stored it; as long as every notice found
      them all done it is exact, and at most the newest worker is still under way. */
  ghost predicate IdsKept(s: State) {
    && |s.notices| == |s.workers| + (if s.handler.Named? then 1 else 0)
    && s.reqID <= Stores(s.workers)
    && (forall i :: 0 <= i < |s.workers| && s.workers[i].pc.Loaded? ==> s.workers[i].pc.value <= Stores(s.workers))
    && (AllQuiet(s.notices) <==> Sequential(s.notices))
    && (AllQuiet(s.notices) <==> Distinct(s.notices))
    && (AllQuiet(s.notices) ==>
      && s.reqID == Stores(s.workers)
      && (forall i :: 0 <= i < |s.workers| - 1 ==> HasStored(s.workers[i]))
      && (forall i :: 0 <= i < |s.workers| && s.workers[i].pc.Loaded? ==> s.workers[i].pc.value == s.reqID)
      && (s.handler.Named? ==> Quiet(s.workers)))
  }

  lemma {:induction false} StoresQuiet(workers: seq<Worker>)
    ensures Stores(workers) <= |workers|
    ensures Stores(workers) == |workers| <==> Quiet(workers)
  {
    if workers != [] {
      StoresQuiet(workers[1..]);
      assert forall i :: 0 < i < |workers| ==> workers[i] == workers[1..][i - 1];
      assert forall i :: 0 <= i < |workers| - 1 ==> workers[1..][i] == workers[i + 1];
    }
  }

  function Stored1(worker: Worker): nat {
    if HasStored(worker) then 1 else 0
  }

  lemma {:induction false} StoresUpdate(workers: seq<Worker>, w: nat, worker: Worker)
    requires w < |workers|
    ensures Stores(workers[w := worker]) == Stores(workers) - Stored1(workers[w]) + Stored1(worker)
  {
    if w == 0 {
      assert workers[0 := worker][1..] == workers[1..];
    } else {
      StoresUpdate(workers[1..], w - 1, worker);
      assert workers[w := worker][1..] == workers[1..][w - 1 := worker];
    }
  }

  lemma {:induction false} StoresAppend(workers: seq<Worker>, worker: Worker)
    ensures Stores(workers + [worker]) == Stores(workers) + Stored1(worker)
  {
    if workers == [] {
      assert [worker][1..] == [] && workers + [worker] == [worker];
    } else {
      StoresAppend(workers[1..], worker);
      assert (workers + [worker])[1..] == workers[1..] + [worker];
    }
  }

  lemma SameIds(s: State, r: State)
    requires IdsKept(s) && r.workers == s.workers && r.notices == s.notices && r.reqID == s.reqID
    requires r.handler.Named? == s.handler.Named?
    ensures IdsKept(r)
  {
  }

  lemma SpawnKeepsIds(s: State)
    requires IdsKept(s) && s.handler.Named?
    ensures IdsKept(Next(s, Spawn))
  {
    StoresAppend(s.workers, Worker(s.handler.request, Waits));
  }

  /** A worker that moves without storing. */
  lemma WorkerKeepsIds(s: State, w: nat, worker: Worker)
    requires IdsKept(s) && w < |s.workers| && HasStored(worker) == HasStored(s.workers[w])
    requires worker.pc.Loaded? ==> worker.pc.value == s.reqID
    ensures IdsKept(s.(workers := s.workers[w := worker]))
  {
    StoresUpdate(s.workers, w, worker);
  }

  lemma StoreKeepsIds(s: State, w: nat)
    requires IdsKept(s) && Enabled(s, Store(w))
    ensures IdsKept(Next(s, Store(w)))
  {
    StoresUpdate(s.workers, w, Next(s, Store(w)).workers[w]);
  }

  /** An id read too early is that of an earlier notice. */
  lemma NameKeepsDistinct(s: State)
    requires IdsKept(s) && s.handler.Saved?
    ensures var r := Next(s, Name);
      AllQuiet(r.notices) <==> Distinct(r.notices)
  {
    StoresQuiet(s.workers);
    var n, r := |s.notices|, Next(s, Name);
    assert forall k :: 0 <= k < n ==> r.notices[k] == s.notices[k];
    if !AllQuiet(s.notices) {
      assert !Distinct(s.notices);
    } else if !Quiet(s.workers) {
      assert r.notices[s.reqID].id == r.notices[n].id;
    }
  }

  lemma NameKeepsIds(s: State)
    requires IdsKept(s) && s.handler.Saved?
    ensures IdsKept(Next(s, Name))
  {
    StoresQuiet(s.workers);
    var n, r := |s.notices|, Next(s, Name);
    assert forall k :: 0 <= k < n ==> r.notices[k] == s.notices[k];
    assert AllQuiet(r.notices) <==> AllQuiet(s.notices) && r.notices[n].quiet;
    assert Sequential(r.notices) <==> Sequential(s.notices) && r.notices[n].id == n;
    NameKeepsDistinct(s);
  }

  lemma NextKeepsIds(s: State, a: Act)
    requires IdsKept(s) && Unborn(s)
    ensures IdsKept(Next(s, a))
  {
    hide IdsKept;
    if Enabled(s, a) {
      match a
      case Register => SameIds(s, Next(s, a));
      case Submit => SameIds(s, Next(s, a));
      case Dispatch => SameIds(s, Next(s, a));
      case Name => NameKeepsIds(s);
      case Spawn => SpawnKeepsIds(s);
      case ReadId(_, _) => SameIds(s, Next(s, a));
      case ReadSlot(_) => SameIds(s, Next(s, a));
      case Set(_) => SameIds(s, Next(s, a));
      case Take(w, timedOut) =>
        WorkerKeepsIds(s, w, TakeSlot(s, w, timedOut).workers[w]);
        SameIds(s.(workers := TakeSlot(s, w, timedOut).workers), TakeSlot(s, w, timedOut));
      case Load(w) => WorkerKeepsIds(s, w, Next(s, a).workers[w]);
      case Store(w) => StoreKeepsIds(s, w);
      case Send(w) =>
        WorkerKeepsIds(s, w, Next(s, a).workers[w]);
        SameIds(s.(workers := Next(s, a).workers), Next(s, a));
    }
  }

  // ---------------------------------------------------------------- whose answer

  /** The notices are about the accepted requests in turn; every answer under way was asked
      for a request once accepted, and the one that has arrived is for the slot exactly if it
      arrived while that request was there. */
  ghost predicate AskedFor(s: State) {
    && |s.notices| <= |s.accepted|
    && (forall k :: 0 <= k < |s.notices| ==> s.notices[k].request == s.accepted[k])
    && (forall i :: 0 <= i < |s.testing| ==> Count(s.accepted, s.testing[i].request) > 0)
    && (forall i :: 0 <= i < |s.armed| ==> Count(s.accepted, s.armed[i].request) > 0)
    && (s.respRecvd ==> Count(s.accepted, s.respFor) > 0 && (s.respTimely <==> s.slot == Some(s.respFor)))
  }

  lemma {:induction false} CountIn<T>(xs: seq<T>, i: nat)
    requires i < |xs|
    ensures Count(xs, xs[i]) > 0
  {
    if i > 0 {
      CountIn(xs[1..], i - 1);
    }
  }

  lemma NameKeepsAsked(s: State)
    requires AskedFor(s) && SlotKept(s) && IdsKept(s) && s.handler.Saved?
    ensures AskedFor(Next(s, Name))
  {
    hide Count, Quiet, Waiting, Stores, OwnWork;
    assert |s.notices| == |s.workers| < |s.accepted|;
  }

  lemma ReadKeepsAsked(s: State, k: nat, response: Response)
    requires AskedFor(s) && Enabled(s, ReadId(k, response))
    ensures AskedFor(Next(s, ReadId(k, response)))
  {
    CountIn(s.accepted, k);
  }

  lemma DispatchKeepsAsked(s: State)
    requires AskedFor(s) && (forall p: nat :: Conserved(s, p)) && s.queue != []
    ensures AskedFor(DispatchOne(s))
  {
    hide Count, Held, Delivered, QueuedAnswers;
    match s.queue[0]
    case InformNiResponse(_) =>
    case RequestNi(p) =>
      assert Conserved(s, p) && Conserved(s, s.respFor);
      forall q: nat
        ensures Count(s.accepted + [p], q) >= Count(s.accepted, q)
      {
        CountAppend(s.accepted, p, q);
      }
  }

  lemma SameAsked(s: State, r: State)
    requires AskedFor(s) && r.notices == s.notices && r.accepted == s.accepted && r.slot == s.slot
    requires r.testing == s.testing && r.armed == s.armed
    requires r.respRecvd == s.respRecvd && r.respFor == s.respFor && r.respTimely == s.respTimely
    ensures AskedFor(r)
  {
  }

  /** A responder that gets from one group to the next, or is done. */
  lemma PassesOn(s: State, a: Act)
    requires AskedFor(s) && (a.ReadSlot? || a.Set? || a.Take?)
    ensures AskedFor(Next(s, a))
  {
    hide Count;
  }

  lemma NextKeepsAsked(s: State, a: Act)
    requires AskedFor(s) && Unborn(s) && SlotKept(s) && IdsKept(s) && (forall p: nat :: Conserved(s, p))
    ensures AskedFor(Next(s, a))
  {
    hide AskedFor, SlotKept, IdsKept, Conserved, DispatchOne, Quiet;
    if Enabled(s, a) {
      match a
      case Register => SameAsked(s, Next(s, a));
      case Submit => SameAsked(s, Next(s, a));
      case Dispatch => DispatchKeepsAsked(s);
      case Name => NameKeepsAsked(s);
      case Spawn => SameAsked(s, Next(s, a));
      case ReadId(k, response) => ReadKeepsAsked(s, k, response);
      case ReadSlot(_) => PassesOn(s, a);
      case Set(_) => PassesOn(s, a);
      case Take(_, _) => PassesOn(s, a);
      case Load(_) => SameAsked(s, Next(s, a));
      case Store(_) => SameAsked(s, Next(s, a));
      case Send(_) => SameAsked(s, Next(s, a));
    }
  }

  // ---------------------------------------------------------------- every interleaving

  ghost predicate Inv(s: State) {
    Unborn(s) && SlotKept(s) && AskedFor(s) && IdsKept(s) && forall p: nat :: Conserved(s, p)
  }

  lemma NextKeeps(s: State, a: Act)
    requires Inv(s)
    ensures Inv(Next(s, a))
  {
    hide Unborn, SlotKept, AskedFor, IdsKept, Conserved, Next;
    NextKeepsUnborn(s, a);
    NextKeepsSlot(s, a);
    NextKeepsAsked(s, a);
    NextKeepsIds(s, a);
    forall p: nat
      ensures Conserved(Next(s, a), p)
    {
      NextConserves(s, a, p);
    }
  }

  lemma InitConserved(p: nat)
    ensures Conserved(Init(), p)
  {
  }

  lemma InitSlot(s: State)
    requires s.slot == None && s.handler == Idle && s.workers == [] && s.accepted == []
    ensures SlotKept(s)
  {
  }

  lemma InitAsked(s: State)
    requires s.testing == [] && s.armed == [] && s.notices == [] && !s.respRecvd
    ensures AskedFor(s)
  {
  }

  lemma InitIds()
    ensures IdsKept(Init())
  {
    assert Init().workers == [] && Init().notices == [];
  }

  lemma InitInv()
    ensures Inv(Init())
  {
    hide Conserved, SlotKept, AskedFor, IdsKept;
    InitSlot(Init());
    InitAsked(Init());
    InitIds();
    forall p: nat
      ensures Conserved(Init(), p)
    {
      InitConserved(p);
    }
  }

  lemma {:induction false} RunKeeps(acts: seq<Act>)
    ensures Inv(Run(acts))
  {
    hide Next, Inv;
    if acts == [] {
      InitInv();
    } else {
      RunKeeps(acts[..|acts| - 1]);
      NextKeeps(Run(acts[..|acts| - 1]), acts[|acts| - 1]);
    }
  }

  // ---------------------------------------------------------------- main results

  /** In every interleaving a filled slot whose worker is started belongs to exactly one
      worker that has not taken it yet; an empty one to none. */
  lemma SlotHasOneWorker(acts: seq<Act>)
    ensures var s := Run(acts);
      && (s.handler == Idle ==> Waiting(s.workers) == if s.slot.Some? then 1 else 0)
      && (s.handler != Idle ==> Waiting(s.workers) == 0 && s.slot == Some(s.handler.request))
      && (forall i :: 0 <= i < |s.workers| && s.workers[i].pc == Waits ==> s.slot == Some(s.workers[i].request))
  {
    RunKeeps(acts);
  }

  /** Every answer a worker holds, and so every answer it sends, carries the request it was
      started for. */
  lemma AnswersCarryOwnRequest(acts: seq<Act>, w: nat)
    requires w < |Run(acts).workers|
    ensures var worker := Run(acts).workers[w];
      worker.pc.Took? || worker.pc.Loaded? || worker.pc.Stored? ==>
        worker.pc.answer.Some? && worker.pc.answer.value.request == worker.request
    ensures w < |Run(acts).accepted| && Run(acts).workers[w].request == Run(acts).accepted[w]
  {
    RunKeeps(acts);
  }

  /** Nothing is under way any more. */
  predicate Quiescent(s: State) {
    && s.queue == [] && s.handler == Idle && s.testing == [] && s.armed == []
    && forall i :: 0 <= i < |s.workers| ==> s.workers[i].pc == Done
  }

  lemma {:induction false} DoneHoldsNothing(workers: seq<Worker>, p: nat)
    requires forall i :: 0 <= i < |workers| ==> workers[i].pc == Done
    ensures Held(workers, p) == 0 && Waiting(workers) == 0
  {
    if workers != [] {
      DoneHoldsNothing(workers[1..], p);
    }
  }

  /** Exactly once: when nothing is under way, every request submitted was either accepted
      and answered by exactly one message, or refused and answered by none, or dropped; and
      its pointer was freed exactly once, exactly if it was not dropped. */
  lemma ExactlyOnce(acts: seq<Act>, p: nat)
    requires Quiescent(Run(acts))
    ensures var s := Run(acts);
      && s.slot == None
      && Delivered(s.delivered, p) == Count(s.accepted, p)
      && Count(s.accepted, p) + Count(s.refused, p) + Count(s.dropped, p) == (if p < s.submitted then 1 else 0)
      && Count(s.freed, p) == (if p < s.submitted && Count(s.dropped, p) == 0 then 1 else 0)
  {
    RunKeeps(acts);
    var s := Run(acts);
    assert Conserved(s, p);
    DoneHoldsNothing(s.workers, p);
  }

  /** At every moment no pointer has been freed twice, none is answered twice, and none is
      answered or still held once it has been freed. */
  lemma AtMostOnce(acts: seq<Act>, p: nat)
    ensures var s := Run(acts);
      && Count(s.freed, p) <= 1 && Delivered(s.delivered, p) <= 1
      && (Count(s.freed, p) == 1 ==>
        InSlot(s.slot, p) == 0 && Held(s.workers, p) == 0 && QueuedRequests(s.queue, p) == 0 && QueuedAnswers(s.queue, p) == 0)
  {
    RunKeeps(acts);
    assert Conserved(Run(acts), p);
  }

  // ---------------------------------------------------------------- progress

  predicate Internal(a: Act) {
    !a.Register? && !a.Submit? && !a.ReadId?
  }

  function QueueWeight(queue: seq<Message>): nat {
    if queue == [] then 0 else (if queue[0].RequestNi? then 10 else 1) + QueueWeight(queue[1..])
  }

  function PcWeight(pc: Pc): nat {
    match pc
    case Waits => 7
    case Took(_) => 6
    case Loaded(_, _) => 5
    case Stored(_) => 4
    case Done => 0
  }

  function WorkersWeight(workers: seq<Worker>): nat {
    if workers == [] then 0 else PcWeight(workers[0].pc) + WorkersWeight(workers[1..])
  }

  function HandlerWeight(handler: Handler): nat {
    match handler
    case Idle => 0
    case Saved(_) => 9
    case Named(_, _) => 8
  }

  /** What is left to do. */
  function Work(s: State): nat {
    QueueWeight(s.queue) + HandlerWeight(s.handler) + WorkersWeight(s.workers) + 2 * |s.testing| + |s.armed|
  }

  lemma {:induction false} QueueWeightAppend(q: seq<Message>, m: Message)
    ensures QueueWeight(q + [m]) == QueueWeight(q) + if m.RequestNi? then 10 else 1
  {
    if q == [] {
      assert [m][1..] == [] && q + [m] == [m];
    } else {
      QueueWeightAppend(q[1..], m);
      assert (q + [m])[1..] == q[1..] + [m];
    }
  }

  lemma {:induction false} WeightUpdate(workers: seq<Worker>, w: nat, worker: Worker)
    requires w < |workers|
    ensures WorkersWeight(workers[w := worker]) == WorkersWeight(workers) - PcWeight(workers[w].pc) + PcWeight(worker.pc)
  {
    if w == 0 {
      assert workers[0 := worker][1..] == workers[1..];
    } else {
      WeightUpdate(workers[1..], w - 1, worker);
      assert workers[w := worker][1..] == workers[1..][w - 1 := worker];
    }
  }

  lemma {:induction false} WeightAppend(workers: seq<Worker>, worker: Worker)
    ensures WorkersWeight(workers + [worker]) == WorkersWeight(workers) + PcWeight(worker.pc)
  {
    if workers == [] {
      assert [worker][1..] == [] && workers + [worker] == [worker];
    } else {
      WeightAppend(workers[1..], worker);
      assert (workers + [worker])[1..] == workers[1..] + [worker];
    }
  }

  lemma DispatchShrinks(s: State)
    requires Enabled(s, Dispatch)
    ensures Work(DispatchOne(s)) < Work(s)
  {
    hide WorkersWeight;
  }

  lemma SendShrinks(s: State, w: nat)
    requires Enabled(s, Send(w))
    ensures Work(Next(s, Send(w))) < Work(s)
  {
    WeightUpdate(s.workers, w, s.workers[w].(pc := Done));
    match s.workers[w].pc.answer
    case None => assert s.queue + [] == s.queue;
    case Some(answer) => QueueWeightAppend(s.queue, InformNiResponse(answer));
  }

  /** Every internal step does some of the work. */
  lemma WorkShrinks(s: State, a: Act)
    requires Internal(a) && Enabled(s, a)
    ensures Work(Next(s, a)) < Work(s)
  {
    hide Quiet, WorkersWeight, DispatchOne;
    match a
    case Dispatch => DispatchShrinks(s);
    case Name =>
    case Spawn => WeightAppend(s.workers, Worker(s.handler.request, Waits));
    case ReadSlot(_) =>
    case Set(_) =>
    case Take(w, timedOut) => WeightUpdate(s.workers, w, TakeSlot(s, w, timedOut).workers[w]);
    case Load(w) => WeightUpdate(s.workers, w, Next(s, a).workers[w]);
    case Store(w) => WeightUpdate(s.workers, w, Next(s, a).workers[w]);
    case Send(w) => SendShrinks(s, w);
  }

  /** Nothing gets stuck: unless nothing is under way, some thread can move. */
  lemma NeverStuck(s: State)
    ensures !Quiescent(s) <==> exists a :: Internal(a) && Enabled(s, a)
  {
    if !Quiescent(s) {
      if s.handler.Saved? {
        assert Enabled(s, Name);
      } else if s.handler.Named? {
        assert Enabled(s, Spawn);
      } else if s.queue != [] {
        assert Enabled(s, Dispatch);
      } else if s.testing != [] {
        assert Enabled(s, ReadSlot(0));
      } else if s.armed != [] {
        assert Enabled(s, Set(0));
      } else {
        var w :| 0 <= w < |s.workers| && s.workers[w].pc != Done;
        assert Enabled(s, Take(w, true)) || Enabled(s, Load(w)) || Enabled(s, Store(w)) || Enabled(s, Send(w));
      }
    }
  }

  /** So every run can be brought to rest, by as many internal steps as there is work. */
  lemma {:induction false} RunEnds(acts: seq<Act>) returns (more: seq<Act>)
    ensures |more| <= Work(Run(acts)) && forall i :: 0 <= i < |more| ==> Internal(more[i])
    ensures Quiescent(Run(acts + more))
    decreases Work(Run(acts))
  {
    hide Next, Enabled, Work, Quiescent;
    NeverStuck(Run(acts));
    if Quiescent(Run(acts)) {
      more := [];
      assert acts + [] == acts;
    } else {
      var a :| Internal(a) && Enabled(Run(acts), a);
      WorkShrinks(Run(acts), a);
      assert (acts + [a])[..|acts|] == acts;
      var rest := RunEnds(acts + [a]);
      more := [a] + rest;
      assert acts + [a] + rest == acts + more;
    }
  }

  // ---------------------------------------------------------------- whose answer, which id

  /** A user's answer that a worker takes was given to the notification of its request
      exactly if that request was in the slot when the responder stored the answer. */
  lemma OwnAnswerIffTimely(acts: seq<Act>, w: nat)
    requires Enabled(Run(acts), Take(w, false))
    ensures var s := Run(acts);
      var taken := Next(s, Take(w, false)).workers[w];
      && taken.pc.answer.Some?
      && (taken.pc.answer.value.askedFor == Some(taken.request) <==> s.respTimely)
  {
    RunKeeps(acts);
    var s := Run(acts);
    assert OwnWork(s.slot, s.workers[w]);
  }

  /** The notification ids of a run are 0, 1, 2, ... exactly if every id was read when all
      earlier workers had stored theirs. */
  lemma IdsSequentialIffQuiet(acts: seq<Act>)
    ensures Sequential(Run(acts).notices) <==> AllQuiet(Run(acts).notices)
  {
    RunKeeps(acts);
  }

  /** No two notifications of a run carry the same id exactly under the same condition. */
  lemma IdsUniqueIffQuiet(acts: seq<Act>)
    ensures Distinct(Run(acts).notices) <==> AllQuiet(Run(acts).notices)
  {
    RunKeeps(acts);
  }

  lemma {:induction false} OneLeft(workers: seq<Worker>)
    requires workers != [] && forall i :: 0 <= i < |workers| - 1 ==> HasStored(workers[i])
    ensures Stores(workers) == |workers| - 1 + Stored1(workers[|workers| - 1])
  {
    if |workers| > 1 {
      OneLeft(workers[1..]);
    } else {
      assert workers[1..] == [];
    }
  }

  lemma {:induction false} SomeWaits(workers: seq<Worker>) returns (i: nat)
    requires Waiting(workers) > 0
    ensures i < |workers| && workers[i].pc == Waits
  {
    if workers[0].pc == Waits {
      i := 0;
    } else {
      var j := SomeWaits(workers[1..]);
      i := j + 1;
    }
  }

  lemma {:induction false} CountTwice<T>(xs: seq<T>, i: nat, j: nat)
    requires i < j < |xs| && xs[i] == xs[j]
    ensures Count(xs, xs[i]) >= 2
  {
    if i == 0 {
      CountIn(xs[1..], j - 1);
    } else {
      CountTwice(xs[1..], i - 1, j - 1);
    }
  }

  lemma DistinctAccepted(s: State, i: nat, j: nat)
    requires (forall p: nat :: Conserved(s, p)) && i < j < |s.accepted|
    ensures s.accepted[i] != s.accepted[j]
  {
    assert Conserved(s, s.accepted[i]);
    if s.accepted[i] == s.accepted[j] {
      CountTwice(s.accepted, i, j);
    }
  }

  /** As long as ids have been unique, a responder that goes on after its second read does
      so for the right request exactly if at that moment the deferred thread is not in the
      middle of accepting another one and the id it read first is still the current one. */
  lemma SecondReadRightIff(acts: seq<Act>, i: nat, k: nat)
    requires var s := Run(acts);
      && AllQuiet(s.notices) && Enabled(s, ReadSlot(i)) && s.slot.Some?
      && k < |s.notices| && k < |s.workers| && s.testing[i].request == s.notices[k].request
    ensures var s := Run(acts);
      s.slot == Some(s.testing[i].request) <==> s.handler == Idle && s.notices[k].id == s.reqID
  {
    hide Run, Conserved, Waiting, Stores, Unborn;
    RunKeeps(acts);
    var s := Run(acts);
    OneLeft(s.workers);
    StoresQuiet(s.workers);
    var last := |s.workers| - 1;
    assert s.notices[k].id == k && s.notices[k].request == s.accepted[k] && s.reqID == Stores(s.workers);
    if s.handler == Idle {
      var j := SomeWaits(s.workers);
      assert OwnWork(s.slot, s.workers[j]) && !HasStored(s.workers[j]);
      assert j == last && s.slot == Some(s.accepted[last]) && s.reqID == last;
      if k < last { DistinctAccepted(s, k, last); }
    } else {
      DistinctAccepted(s, k, |s.workers|);
    }
  }

  // ---------------------------------------------------------------- runs where it goes wrong

  lemma Do(acts: seq<Act>, a: Act) returns (r: seq<Act>)
    ensures r == acts + [a] && Run(r) == Next(Run(acts), a)
  {
    r := acts + [a];
    assert r[..|acts|] == acts;
  }

  lemma RunNothing()
    ensures Run([]) == Init()
  {
  }

  lemma DoRegister() returns (r: seq<Act>)
    ensures Run(r) == Init().(registered := true)
  {
    hide Run;
    RunNothing();
    r := Do([], Register);
  }

  /** A request comes and fills the empty slot. */
  lemma DoFill(acts: seq<Act>) returns (r: seq<Act>)
    requires var s := Run(acts);
      s.registered && s.queue == [] && s.handler == Idle && s.slot == None
    ensures acts <= r
    ensures var s := Run(acts);
      Run(r) == s.(slot := Some(s.submitted), submitted := s.submitted + 1, accepted := s.accepted + [s.submitted],
                   handler := Saved(s.submitted))
  {
    hide Run;
    r := Do(acts, Submit);
    assert Run(r).queue == [RequestNi(Run(acts).submitted)];
    r := Do(r, Dispatch);
  }

  /** The handler reads the id, starts the worker and shows the notification. */
  lemma DoShow(acts: seq<Act>) returns (r: seq<Act>)
    requires Run(acts).handler.Saved?
    ensures acts <= r
    ensures var s := Run(acts);
      var p := s.handler.request;
      Run(r) == s.(handler := Idle, notices := s.notices + [Notice(p, s.reqID, Quiet(s.workers))],
                   workers := s.workers + [Worker(p, Waits)])
  {
    hide Run, Quiet;
    r := Do(acts, Name);
    r := Do(r, Spawn);
  }

  /** A lone worker times out. */
  lemma DoTimeout(acts: seq<Act>) returns (r: seq<Act>)
    requires Run(acts).slot == Some(0) && Run(acts).workers == [Worker(0, Waits)]
    ensures acts <= r
    ensures Run(r) == Run(acts).(slot := None, resp := NoResponse, respRecvd := false,
                                 workers := [Worker(0, Took(Some(Answer(NoResponse, 0, None))))])
  {
    hide Run;
    r := Do(acts, Take(0, true));
  }

  /** It increments reqID. */
  lemma DoStore(acts: seq<Act>) returns (r: seq<Act>)
    requires Run(acts).workers == [Worker(0, Took(Some(Answer(NoResponse, 0, None))))]
    ensures acts <= r
    ensures Run(r) == Run(acts).(reqID := Run(acts).reqID + 1,
                                 workers := [Worker(0, Stored(Some(Answer(NoResponse, 0, None))))])
  {
    hide Run;
    r := Do(acts, Load(0));
    assert Run(r).workers == [Worker(0, Loaded(Some(Answer(NoResponse, 0, None)), Run(acts).reqID))];
    r := Do(r, Store(0));
  }

  /** Its response is sent and delivered. */
  lemma DoDeliver(acts: seq<Act>) returns (r: seq<Act>)
    requires Run(acts).workers == [Worker(0, Stored(Some(Answer(NoResponse, 0, None))))]
    requires Run(acts).queue == [] && Run(acts).handler == Idle
    ensures acts <= r
    ensures var s, answer := Run(acts), Answer(NoResponse, 0, None);
      Run(r) == s.(workers := [Worker(0, Done)], delivered := s.delivered + [answer], freed := s.freed + [0])
  {
    hide Run;
    r := Do(acts, Send(0));
    assert Run(r).queue == [InformNiResponse(Answer(NoResponse, 0, None))];
    r := Do(r, Dispatch);
  }

  /** A responder reads the id for notification 0. */
  lemma DoReadId(acts: seq<Act>) returns (r: seq<Act>)
    requires var s := Run(acts);
      |s.notices| > 0 && |s.workers| > 0 && s.notices[0].request == 0 && s.notices[0].id == s.reqID && s.testing == []
    ensures r == acts + [ReadId(0, Accepted)]
    ensures Run(r) == Run(acts).(testing := [Responder(Accepted, 0)])
  {
    hide Run;
    r := Do(acts, ReadId(0, Accepted));
  }

  /** It finds the slot filled. */
  lemma DoReadSlot(acts: seq<Act>) returns (r: seq<Act>)
    requires Run(acts).testing == [Responder(Accepted, 0)] && Run(acts).slot.Some? && Run(acts).armed == []
    ensures r == acts + [ReadSlot(0)]
    ensures Run(r) == Run(acts).(testing := [], armed := [Responder(Accepted, 0)])
  {
    hide Run;
    r := Do(acts, ReadSlot(0));
  }

  /** It stores its answer, which the second worker takes for request 1. */
  lemma DoWrongAnswer(acts: seq<Act>) returns (r: seq<Act>)
    requires var s := Run(acts);
      && s.armed == [Responder(Accepted, 0)] && s.slot == Some(1)
      && |s.workers| == 2 && s.workers[1] == Worker(1, Waits)
    ensures acts <= r && Run(r).notices == Run(acts).notices
    ensures Run(r).workers == [Run(acts).workers[0], Worker(1, Took(Some(Answer(Accepted, 1, Some(0)))))]
  {
    hide Run;
    r := Do(acts, Set(0));
    r := Do(r, Take(1, false));
  }

  /** Request 0 has been shown to the user, and its worker waits. */
  lemma DoFirst() returns (r: seq<Act>)
    ensures Run(r) == Init().(registered := true, slot := Some(0), submitted := 1, accepted := [0],
                              notices := [Notice(0, 0, true)], workers := [Worker(0, Waits)])
  {
    hide Run;
    r := DoRegister();
    r := DoFill(r);
    assert [] + [0] == [0];
    r := DoShow(r);
  }

  /** A run in which the second request is answered by what the user said to the first:
      the responder made both its reads, the first worker timed out, and the answer was
      stored after the second request had come. */
  lemma StaleAnswer() returns (acts: seq<Act>)
    ensures Run(acts).workers == [Worker(0, Done), Worker(1, Took(Some(Answer(Accepted, 1, Some(0)))))]
  {
    hide Run, Next;
    acts := DoFirst();
    acts := DoReadId(acts);
    acts := DoReadSlot(acts);
    acts := DoTimeout(acts);
    acts := DoStore(acts);
    acts := DoDeliver(acts);
    acts := DoFill(acts);
    acts := DoShow(acts);
    acts := DoWrongAnswer(acts);
  }

  /** A run that shows the user two notifications with the same id: the second request is
      accepted before the first worker has stored reqID. */
  lemma SharedId() returns (acts: seq<Act>)
    ensures Run(acts).notices == [Notice(0, 0, true), Notice(1, 0, false)]
  {
    hide Run, Next;
    acts := DoFirst();
    acts := DoTimeout(acts);
    assert !HasStored(Run(acts).workers[0]);
    acts := DoFill(acts);
    acts := DoShow(acts);
  }

  /** A run in which the second request is answered by what the user said to the first
      without the slot changing after the reads: it came in before the first worker had
      stored reqID, so the first notification's id still passes, and nobody has been shown
      the second one. */
  lemma MisdirectedAnswer() returns (acts: seq<Act>, t: nat)
    ensures t < |acts| && acts[t] == ReadId(0, Accepted)
    ensures Run(acts[..t]).slot == Some(1) && Run(acts[..t]).notices == [Notice(0, 0, true)]
    ensures Run(acts).workers == [Worker(0, Took(Some(Answer(NoResponse, 0, None)))),
                                  Worker(1, Took(Some(Answer(Accepted, 1, Some(0)))))]
  {
    hide Run, Next;
    var early := DoFirst();
    early := DoTimeout(early);
    early := DoFill(early);
    t := |early|;
    acts := DoReadId(early);
    acts := DoReadSlot(acts);
    acts := DoShow(acts);
    acts := DoWrongAnswer(acts);
    assert acts[..t] == early;
  }

  /** A run in which the second request is answered by what the user said to the first
      although all ids are unique and the deferred thread is idle at the second read: the
      slot changes hands between the responder's two reads. */
  lemma TornTest() returns (acts: seq<Act>, t: nat)
    ensures t < |acts| && acts[t] == ReadSlot(0)
    ensures var s := Run(acts[..t]);
      s.testing == [Responder(Accepted, 0)] && s.slot == Some(1) && s.handler == Idle
    ensures Run(acts).notices == [Notice(0, 0, true), Notice(1, 1, true)]
    ensures Run(acts).workers == [Worker(0, Done), Worker(1, Took(Some(Answer(Accepted, 1, Some(0)))))]
  {
    hide Run, Next;
    var early := DoFirst();
    early := DoTimeout(early);
    early := DoReadId(early);
    early := DoStore(early);
    early := DoDeliver(early);
    early := DoFill(early);
    early := DoShow(early);
    t := |early|;
    acts := DoReadSlot(early);
    acts := DoWrongAnswer(acts);
    assert acts[..t] == early;
  }
}
