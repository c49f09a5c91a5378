// Where the answers in a run of the network-initiated protocol come from, and the ids.
module NiTraces {
  import opened NiProofs
  import opened NiProtocol
  import opened Wrappers

  // ---------------------------------------------------------------- the two reads

  /** A responder gets past its first read exactly if the id of the notification it answers
      is the current one; otherwise nothing happens. */
  lemma FirstReadIff(s: State, k: nat, response: Response)
    requires Enabled(s, ReadId(k, response))
    ensures var r := Next(s, ReadId(k, response));
      if s.notices[k].id == s.reqID
      then r == s.(testing := s.testing + [Responder(response, s.notices[k].request)])
      else r == s
  {
  }

  /** It gets past its second read exactly if it finds the slot filled. */
  lemma SecondReadIff(s: State, i: nat)
    requires Enabled(s, ReadSlot(i))
    ensures var r := Next(s, ReadSlot(i));
      && r.testing == s.testing[..i] + s.testing[i + 1..]
      && r == s.(testing := r.testing, armed := r.armed)
      && r.armed == if s.slot == None then s.armed else s.armed + [s.testing[i]]
  {
  }

  /** While ids are unique, an answer to a notification whose worker has stored reqID comes
      too late to have any effect. */
  lemma LateAnswerRefused(acts: seq<Act>, k: nat, response: Response)
    requires var s := Run(acts);
      AllQuiet(s.notices) && Enabled(s, ReadId(k, response)) && HasStored(s.workers[k])
    ensures Next(Run(acts), ReadId(k, response)) == Run(acts)
  {
    hide Run, Conserved, Waiting, Stores, Unborn;
    RunKeeps(acts);
    var s := Run(acts);
    OneLeft(s.workers);
    StoresQuiet(s.workers);
    assert s.notices[k].id == k && s.reqID == Stores(s.workers);
  }

  // ---------------------------------------------------------------- every answer's past

  predicate GivenAt(acts: seq<Act>, t: nat, k: nat, response: Response, p: nat)
    requires t < |acts|
  {
    var s := Run(acts[..t]);
    && acts[t] == ReadId(k, response) && Enabled(s, acts[t])
    && s.notices[k].request == p && s.notices[k].id == s.reqID
  }

  /** At some step of the run a responder gave this answer to the notification of request
      `p`, whose id was the current one. */
  ghost predicate Given(acts: seq<Act>, response: Response, p: nat) {
    exists t, k :: 0 <= t < |acts| && GivenAt(acts, t, k, response, p)
  }

  ghost predicate LetThroughAt(acts: seq<Act>, t: nat, i: nat, response: Response, p: nat)
    requires t < |acts|
  {
    var s := Run(acts[..t]);
    && acts[t] == ReadSlot(i) && i < |s.testing| && s.testing[i] == Responder(response, p)
    && s.slot.Some? && Given(acts[..t], response, p)
  }

  /** At some later step it found the slot filled. */
  ghost predicate LetThrough(acts: seq<Act>, response: Response, p: nat) {
    exists t, i :: 0 <= t < |acts| && LetThroughAt(acts, t, i, response, p)
  }

  lemma GivenMore(acts: seq<Act>, a: Act, response: Response, p: nat)
    requires Given(acts, response, p)
    ensures Given(acts + [a], response, p)
  {
    var t, k :| 0 <= t < |acts| && GivenAt(acts, t, k, response, p);
    assert (acts + [a])[..t] == acts[..t];
    assert GivenAt(acts + [a], t, k, response, p);
  }

  lemma LetThroughMore(acts: seq<Act>, a: Act, response: Response, p: nat)
    requires LetThrough(acts, response, p)
    ensures LetThrough(acts + [a], response, p)
  {
    hide Given;
    var t, i :| 0 <= t < |acts| && LetThroughAt(acts, t, i, response, p);
    assert (acts + [a])[..t] == acts[..t];
    assert LetThroughAt(acts + [a], t, i, response, p);
  }

  /** What a worker says that was asked of the user was let through; without an answer it
      says that there was none. */
  ghost predicate Meant(acts: seq<Act>, answer: Option<Answer>) {
    match answer
    case None => true
    case Some(a) => if a.askedFor == None then a.response == NoResponse else LetThrough(acts, a.response, a.askedFor.value)
  }

  ghost predicate WorkerMeans(acts: seq<Act>, worker: Worker) {
    match worker.pc
    case Waits => true
    case Took(answer) => Meant(acts, answer)
    case Loaded(answer, _) => Meant(acts, answer)
    case Stored(answer) => Meant(acts, answer)
    case Done => true
  }

  ghost predicate MessageMeans(acts: seq<Act>, m: Message) {
    m.InformNiResponse? ==> Meant(acts, Some(m.answer))
  }

  ghost predicate AllGiven(acts: seq<Act>, rs: seq<Responder>) {
    forall i :: 0 <= i < |rs| ==> Given(acts, rs[i].response, rs[i].request)
  }

  ghost predicate AllThrough(acts: seq<Act>, rs: seq<Responder>) {
    forall i :: 0 <= i < |rs| ==> LetThrough(acts, rs[i].response, rs[i].request)
  }

  ghost predicate WorkersMean(acts: seq<Act>, workers: seq<Worker>) {
    forall i :: 0 <= i < |workers| ==> WorkerMeans(acts, workers[i])
  }

  ghost predicate MessagesMean(acts: seq<Act>, queue: seq<Message>) {
    forall i :: 0 <= i < |queue| ==> MessageMeans(acts, queue[i])
  }

  ghost predicate AllMeant(acts: seq<Act>, answers: seq<Answer>) {
    forall i :: 0 <= i < |answers| ==> Meant(acts, Some(answers[i]))
  }

  /** All answers on their way through the state have such a past. */
  ghost predicate Traced(acts: seq<Act>, s: State) {
    && AllGiven(acts, s.testing)
    && AllThrough(acts, s.armed)
    && (s.respRecvd ==> LetThrough(acts, s.resp, s.respFor))
    && WorkersMean(acts, s.workers)
    && MessagesMean(acts, s.queue)
    && AllMeant(acts, s.delivered)
  }

  // ---------------------------------------------------------------- later steps

  lemma MeantMore(acts: seq<Act>, a: Act, answer: Option<Answer>)
    requires Meant(acts, answer)
    ensures Meant(acts + [a], answer)
  {
    hide LetThrough;
    if answer.Some? && answer.value.askedFor.Some? {
      LetThroughMore(acts, a, answer.value.response, answer.value.askedFor.value);
    }
  }

  lemma WorkersMeanMore(acts: seq<Act>, a: Act, workers: seq<Worker>)
    requires WorkersMean(acts, workers)
    ensures WorkersMean(acts + [a], workers)
  {
    hide Meant;
    forall i | 0 <= i < |workers|
      ensures WorkerMeans(acts + [a], workers[i])
    {
      match workers[i].pc
      case Waits =>
      case Took(answer) => MeantMore(acts, a, answer);
      case Loaded(answer, _) => MeantMore(acts, a, answer);
      case Stored(answer) => MeantMore(acts, a, answer);
      case Done =>
    }
  }

  lemma TracedMore(acts: seq<Act>, a: Act, s: State)
    requires Traced(acts, s)
    ensures Traced(acts + [a], s)
  {
    hide Given, LetThrough, Meant, WorkersMean;
    forall i | 0 <= i < |s.testing|
      ensures Given(acts + [a], s.testing[i].response, s.testing[i].request)
    {
      GivenMore(acts, a, s.testing[i].response, s.testing[i].request);
    }
    forall i | 0 <= i < |s.armed|
      ensures LetThrough(acts + [a], s.armed[i].response, s.armed[i].request)
    {
      LetThroughMore(acts, a, s.armed[i].response, s.armed[i].request);
    }
    if s.respRecvd {
      LetThroughMore(acts, a, s.resp, s.respFor);
    }
    WorkersMeanMore(acts, a, s.workers);
    forall i | 0 <= i < |s.queue|
      ensures MessageMeans(acts + [a], s.queue[i])
    {
      if s.queue[i].InformNiResponse? { MeantMore(acts, a, Some(s.queue[i].answer)); }
    }
    forall i | 0 <= i < |s.delivered|
      ensures Meant(acts + [a], Some(s.delivered[i]))
    {
      MeantMore(acts, a, Some(s.delivered[i]));
    }
  }

  lemma GivenSnoc(acts: seq<Act>, rs: seq<Responder>, r: Responder)
    requires AllGiven(acts, rs) && Given(acts, r.response, r.request)
    ensures AllGiven(acts, rs + [r])
  {
    hide Given;
  }

  lemma ThroughSnoc(acts: seq<Act>, rs: seq<Responder>, r: Responder)
    requires AllThrough(acts, rs) && LetThrough(acts, r.response, r.request)
    ensures AllThrough(acts, rs + [r])
  {
    hide LetThrough;
  }

  lemma GivenWithout(acts: seq<Act>, rs: seq<Responder>, i: nat)
    requires AllGiven(acts, rs) && i < |rs|
    ensures AllGiven(acts, rs[..i] + rs[i + 1..]) && Given(acts, rs[i].response, rs[i].request)
  {
    hide Given;
  }

  lemma ThroughWithout(acts: seq<Act>, rs: seq<Responder>, i: nat)
    requires AllThrough(acts, rs) && i < |rs|
    ensures AllThrough(acts, rs[..i] + rs[i + 1..]) && LetThrough(acts, rs[i].response, rs[i].request)
  {
    hide LetThrough;
  }

  // ---------------------------------------------------------------- each step

  lemma ReadIdTraced(acts: seq<Act>, s: State, k: nat, response: Response)
    requires s == Run(acts) && Enabled(s, ReadId(k, response)) && Traced(acts + [ReadId(k, response)], s)
    ensures Traced(acts + [ReadId(k, response)], Next(s, ReadId(k, response)))
  {
    hide AllGiven, AllThrough, WorkersMean, MessagesMean, AllMeant, LetThrough, Run;
    var all := acts + [ReadId(k, response)];
    if s.notices[k].id == s.reqID {
      assert all[..|acts|] == acts;
      assert GivenAt(all, |acts|, k, response, s.notices[k].request);
      GivenSnoc(all, s.testing, Responder(response, s.notices[k].request));
    }
  }

  lemma ReadSlotTraced(acts: seq<Act>, s: State, i: nat)
    requires s == Run(acts) && Enabled(s, ReadSlot(i)) && Traced(acts + [ReadSlot(i)], s) && Traced(acts, s)
    ensures Traced(acts + [ReadSlot(i)], Next(s, ReadSlot(i)))
  {
    hide AllGiven, AllThrough, WorkersMean, MessagesMean, AllMeant, Given, Run;
    var all := acts + [ReadSlot(i)];
    GivenWithout(acts, s.testing, i);
    GivenWithout(all, s.testing, i);
    if s.slot.Some? {
      var r := s.testing[i];
      assert all[..|acts|] == acts;
      assert LetThroughAt(all, |acts|, i, r.response, r.request);
      ThroughSnoc(all, s.armed, r);
    }
  }

  lemma SetTraced(acts: seq<Act>, s: State, i: nat)
    requires Traced(acts, s) && Enabled(s, Set(i))
    ensures Traced(acts, Next(s, Set(i)))
  {
    hide AllGiven, AllThrough, WorkersMean, MessagesMean, AllMeant, LetThrough;
    ThroughWithout(acts, s.armed, i);
  }

  lemma WorkerTraced(acts: seq<Act>, workers: seq<Worker>, w: nat, worker: Worker)
    requires WorkersMean(acts, workers) && w < |workers| && WorkerMeans(acts, worker)
    ensures WorkersMean(acts, workers[w := worker]) && WorkerMeans(acts, workers[w])
  {
    hide WorkerMeans;
  }

  lemma TakeTraced(acts: seq<Act>, s: State, w: nat, timedOut: bool)
    requires Traced(acts, s) && Enabled(s, Take(w, timedOut))
    ensures Traced(acts, Next(s, Take(w, timedOut)))
  {
    hide AllGiven, AllThrough, WorkersMean, MessagesMean, AllMeant, LetThrough;
    WorkerTraced(acts, s.workers, w, Next(s, Take(w, timedOut)).workers[w]);
  }

  lemma MessagesSnoc(acts: seq<Act>, queue: seq<Message>, m: Message)
    requires MessagesMean(acts, queue) && MessageMeans(acts, m)
    ensures MessagesMean(acts, queue + [m])
  {
    hide MessageMeans;
  }

  /** A worker moves on with what it has to say, and says it. */
  lemma MoveTraced(acts: seq<Act>, s: State, a: Act, w: nat)
    requires Traced(acts, s) && Enabled(s, a) && (a == Load(w) || a == Store(w) || a == Send(w))
    ensures Traced(acts, Next(s, a))
  {
    hide AllGiven, AllThrough, WorkersMean, MessagesMean, AllMeant, LetThrough, Meant;
    WorkerTraced(acts, s.workers, w, Worker(0, Done));
    WorkerTraced(acts, s.workers, w, Next(s, a).workers[w]);
    if a == Send(w) {
      match s.workers[w].pc.answer
      case None => assert s.queue + [] == s.queue;
      case Some(answer) => MessagesSnoc(acts, s.queue, InformNiResponse(answer));
    }
  }

  lemma DispatchTraced(acts: seq<Act>, s: State)
    requires Traced(acts, s) && Enabled(s, Dispatch)
    ensures Traced(acts, DispatchOne(s))
  {
    hide AllGiven, AllThrough, WorkersMean, LetThrough, Meant;
    assert MessageMeans(acts, s.queue[0]);
  }

  lemma SpawnTraced(acts: seq<Act>, s: State)
    requires Traced(acts, s) && Enabled(s, Spawn)
    ensures Traced(acts, Next(s, Spawn))
  {
    hide AllGiven, AllThrough, MessagesMean, AllMeant, LetThrough, Meant;
  }

  lemma SameTraced(acts: seq<Act>, s: State, r: State)
    requires Traced(acts, s) && r.testing == s.testing && r.armed == s.armed && r.workers == s.workers
    requires r.queue == s.queue && r.delivered == s.delivered && r.resp == s.resp && r.respFor == s.respFor
    requires r.respRecvd ==> s.respRecvd
    ensures Traced(acts, r)
  {
  }

  lemma SubmitTraced(acts: seq<Act>, s: State)
    requires Traced(acts, s)
    ensures Traced(acts, Next(s, Submit))
  {
    hide AllGiven, AllThrough, WorkersMean, MessagesMean, AllMeant, LetThrough;
    MessagesSnoc(acts, s.queue, RequestNi(s.submitted));
  }

  lemma NextTraced(acts: seq<Act>, a: Act)
    requires Traced(acts, Run(acts))
    ensures Traced(acts + [a], Next(Run(acts), a))
  {
    hide Traced, Run, DispatchOne, TakeSlot, Quiet;
    var s := Run(acts);
    TracedMore(acts, a, s);
    if Enabled(s, a) {
      match a
      case ReadId(k, response) => ReadIdTraced(acts, s, k, response);
      case ReadSlot(i) => ReadSlotTraced(acts, s, i);
      case Set(i) => SetTraced(acts + [a], s, i);
      case Take(w, timedOut) => TakeTraced(acts + [a], s, w, timedOut);
      case Load(w) => MoveTraced(acts + [a], s, a, w);
      case Store(w) => MoveTraced(acts + [a], s, a, w);
      case Send(w) => MoveTraced(acts + [a], s, a, w);
      case Dispatch => DispatchTraced(acts + [a], s);
      case Spawn => SpawnTraced(acts + [a], s);
      case Register => SameTraced(acts + [a], s, Next(s, a));
      case Submit => SubmitTraced(acts + [a], s);
      case Name => SameTraced(acts + [a], s, Next(s, a));
    }
  }

  lemma NothingTraced()
    ensures Traced([], Run([]))
  {
  }

  /** In every interleaving, each user's answer under way or delivered was given to a
      notification with the current id and then found the slot filled, and says what the
      user said; an answer that nobody gave says so. */
  lemma {:induction false} AnswersTraced(acts: seq<Act>)
    ensures Traced(acts, Run(acts))
  {
    hide Next, Traced;
    if acts == [] {
      NothingTraced();
    } else {
      var n := |acts| - 1;
      AnswersTraced(acts[..n]);
      NextTraced(acts[..n], acts[n]);
      assert acts[..n] + [acts[n]] == acts;
    }
  }

  /** So every response delivered to the modem with the user's answer was let through. */
  lemma DeliveredTraced(acts: seq<Act>, i: nat)
    requires i < |Run(acts).delivered|
    ensures var a := Run(acts).delivered[i];
      if a.askedFor == None then a.response == NoResponse else LetThrough(acts, a.response, a.askedFor.value)
  {
    hide Run, LetThrough;
    AnswersTraced(acts);
    assert Meant(acts, Some(Run(acts).delivered[i]));
  }

  // ---------------------------------------------------------------- answers left over

  /** A responder past both reads stores its answer whatever has become of the slot, over any
      answer stored before, and nothing else changes. */
  lemma AnswerStored(s: State, i: nat)
    requires Enabled(s, Set(i))
    ensures var r := Next(s, Set(i));
      && r.respRecvd && r.resp == s.armed[i].response && r.respFor == s.armed[i].request
      && r.armed == s.armed[..i] + s.armed[i + 1..]
      && r == s.(resp := r.resp, respRecvd := true, respFor := r.respFor, respTimely := r.respTimely, armed := r.armed)
  {
  }

  lemma DoStoreAnswer(acts: seq<Act>) returns (r: seq<Act>)
    requires Run(acts).armed == [Responder(Accepted, 0)] && Run(acts).slot == None
    ensures r == acts + [Set(0)]
    ensures Run(r) == Run(acts).(resp := Accepted, respRecvd := true, respFor := 0, respTimely := false, armed := [])
  {
    hide Run;
    r := Do(acts, Set(0));
  }

  lemma DoTakeLeftover(acts: seq<Act>) returns (r: seq<Act>)
    requires var s := Run(acts);
      && s.respRecvd && s.resp == Accepted && s.respFor == 0 && s.slot == Some(1)
      && |s.workers| == 2 && s.workers[1] == Worker(1, Waits)
    ensures r == acts + [Take(1, false)] && Run(r).notices == Run(acts).notices
    ensures Run(r).workers == [Run(acts).workers[0], Worker(1, Took(Some(Answer(Accepted, 1, Some(0)))))]
  {
    hide Run;
    r := Do(acts, Take(1, false));
  }

  /** A run in which the user's answer to the first request is stored when no request is in
      the slot and nobody waits for it; it stays, and the next request's worker takes it,
      although nobody has answered that one's notification and all ids are unique. */
  lemma LeftoverAnswer() returns (acts: seq<Act>, t: nat)
    ensures t < |acts| && acts[t] == Set(0) && Run(acts[..t]).slot == None && Run(acts[..t]).accepted == [0]
    ensures Run(acts).notices == [Notice(0, 0, true), Notice(1, 1, true)]
    ensures Run(acts).workers == [Worker(0, Done), Worker(1, Took(Some(Answer(Accepted, 1, Some(0)))))]
  {
    hide Run, Next;
    var early := DoFirst();
    early := DoReadId(early);
    early := DoReadSlot(early);
    early := DoTimeout(early);
    t := |early|;
    acts := DoStoreAnswer(early);
    acts := DoStore(acts);
    acts := DoDeliver(acts);
    acts := DoFill(acts);
    acts := DoShow(acts);
    acts := DoTakeLeftover(acts);
    assert acts[..t] == early && acts[t] == Set(0);
  }

  // ---------------------------------------------------------------- increments

  predicate LoadsAt(acts: seq<Act>, t: nat, w: nat, value: nat)
    requires t < |acts|
  {
    acts[t] == Load(w) && Enabled(Run(acts[..t]), Load(w)) && Run(acts[..t]).reqID == value
  }

  /** Worker `w` read this id at some step of the run. */
  ghost predicate Loads(acts: seq<Act>, w: nat, value: nat) {
    exists t :: 0 <= t < |acts| && LoadsAt(acts, t, w, value)
  }

  lemma LoadsMore(acts: seq<Act>, a: Act, w: nat, value: nat)
    requires Loads(acts, w, value)
    ensures Loads(acts + [a], w, value)
  {
    hide Run;
    var t :| 0 <= t < |acts| && LoadsAt(acts, t, w, value);
    assert (acts + [a])[..t] == acts[..t];
    assert LoadsAt(acts + [a], t, w, value);
  }

  /** Only its own load gives a worker a value to store. */
  lemma LoadedBefore(s: State, a: Act, w: nat)
    requires w < |Next(s, a).workers| && Next(s, a).workers[w].pc.Loaded?
    ensures w < |s.workers|
    ensures Next(s, a).workers[w] == s.workers[w]
      || (a == Load(w) && Enabled(s, a) && Next(s, a).workers[w].pc.value == s.reqID)
  {
  }

  lemma {:induction false} LoadedIsLoad(acts: seq<Act>, w: nat)
    requires w < |Run(acts).workers| && Run(acts).workers[w].pc.Loaded?
    ensures Loads(acts, w, Run(acts).workers[w].pc.value)
  {
    hide Next, Enabled;
    if acts == [] {
      RunNothing();
    } else {
      var n := |acts| - 1;
      var before, a := acts[..n], acts[n];
      assert before + [a] == acts;
      LoadedBefore(Run(before), a, w);
      if Run(acts).workers[w] == Run(before).workers[w] {
        LoadedIsLoad(before, w);
        LoadsMore(before, a, w, Run(acts).workers[w].pc.value);
      } else {
        assert LoadsAt(acts, n, w, Run(before).reqID);
      }
    }
  }

  /** The increment is two steps: what a worker stores is one more than the id it read, not
      than the id that is there when it stores. */
  lemma StoreFollowsLoad(acts: seq<Act>, w: nat)
    requires Enabled(Run(acts), Store(w))
    ensures Next(Run(acts), Store(w)).reqID > 0 && Loads(acts, w, Next(Run(acts), Store(w)).reqID - 1)
  {
    hide Run, Loads;
    LoadedIsLoad(acts, w);
  }

  /** The second worker times out, and both load the id. */
  lemma DoLoads(acts: seq<Act>) returns (r: seq<Act>)
    requires var s := Run(acts);
      && s.reqID == 0 && s.slot == Some(1)
      && s.workers == [Worker(0, Took(Some(Answer(NoResponse, 0, None)))), Worker(1, Waits)]
    ensures Run(r).reqID == 0
    ensures Run(r).workers == [Worker(0, Loaded(Some(Answer(NoResponse, 0, None)), 0)),
                               Worker(1, Loaded(Some(Answer(NoResponse, 1, None)), 0))]
  {
    hide Run;
    r := Do(acts, Load(0));
    r := Do(r, Take(1, true));
    r := Do(r, Load(1));
  }

  /** Both store what they have loaded. */
  lemma DoStores(acts: seq<Act>) returns (r: seq<Act>)
    requires Run(acts).workers == [Worker(0, Loaded(Some(Answer(NoResponse, 0, None)), 0)),
                                   Worker(1, Loaded(Some(Answer(NoResponse, 1, None)), 0))]
    ensures Run(r).reqID == 1
    ensures Run(r).workers == [Worker(0, Stored(Some(Answer(NoResponse, 0, None)))),
                               Worker(1, Stored(Some(Answer(NoResponse, 1, None))))]
  {
    hide Run;
    r := Do(acts, Store(0));
    r := Do(r, Store(1));
  }

  /** A run in which two workers have incremented the id and it has gone up by one only. */
  lemma LostIncrement() returns (acts: seq<Act>)
    ensures var s := Run(acts);
      && s.reqID == 1 && |s.workers| == 2 && HasStored(s.workers[0]) && HasStored(s.workers[1])
  {
    hide Run, Next;
    acts := DoFirst();
    acts := DoTimeout(acts);
    acts := DoFill(acts);
    acts := DoShow(acts);
    acts := DoLoads(acts);
    acts := DoStores(acts);
  }
}
