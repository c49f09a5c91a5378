// The network-initiated request protocol of gps/libloc_api_50001/loc_eng_ni.cpp as
// interleaved steps of three kinds of threads: the deferred thread that handles messages,
// one worker per accepted request, and responders that bring the user's answer. Runs
// from before loc_eng_ni_init, without an engine restart.
module NiProtocol {
  import opened Wrappers

  // A request is named by its passThrough pointer; pointers are numbered as they come.

  datatype Response = Accepted | Denied | NoResponse

  /** What a worker sends; `askedFor` is the request whose notification the user answered,
      None on timeout. */
  datatype Answer = Answer(response: Response, request: nat, askedFor: Option<nat>)

  datatype Message = RequestNi(request: nat) | InformNiResponse(answer: Answer)

  /** The deferred thread between filling the slot and starting the worker. */
  datatype Handler = Idle | Saved(request: nat) | Named(request: nat, id: nat)

  /** Where a worker is: waiting in the locked loop, past the unlock, with reqID loaded,
      with reqID stored, message sent. */
  datatype Pc =
    | Waits
    | Took(answer: Option<Answer>)
    | Loaded(answer: Option<Answer>, value: nat)
    | Stored(answer: Option<Answer>)
    | Done

  datatype Worker = Worker(request: nat, pc: Pc)

  /** A responder on its way from its unlocked reads to the lock, with the request whose
      notification it answers. */
  datatype Responder = Responder(response: Response, request: nat)

  /** A notification as the user sees it: its id, and whether every earlier worker had
      stored reqID when the id was read. */
  datatype Notice = Notice(request: nat, id: nat, quiet: bool)

  datatype State = State(
    registered: bool,           // ni_notify_cb is set
    queue: seq<Message>,        // the deferred queue
    handler: Handler,
    slot: Option<nat>,          // rawRequest
    respRecvd: bool,
    resp: Response,
    respFor: nat,               // whom resp was meant for, and whether it was still there
    respTimely: bool,
    reqID: nat,
    workers: seq<Worker>,
    testing: seq<Responder>,    // responders that have read reqID, and not yet the slot
    armed: seq<Responder>,      // responders past both reads
    submitted: nat,
    accepted: seq<nat>,
    refused: seq<nat>,
    dropped: seq<nat>,          // handled before there was a callback
    notices: seq<Notice>,
    delivered: seq<Answer>,     // informNiResponse calls
    freed: seq<nat>)

  datatype Act =
    | Register
    | Submit
    | Dispatch
    | Name
    | Spawn
    | ReadId(k: nat, response: Response)
    | ReadSlot(i: nat)
    | Set(i: nat)
    | Take(w: nat, timedOut: bool)
    | Load(w: nat)
    | Store(w: nat)
    | Send(w: nat)

  function Init(): State {
    State(false, [], Idle, None, false, NoResponse, 0, false, 0, [], [], [], 0, [], [], [], [], [], [])
  }

  predicate HasStored(worker: Worker) {
    worker.pc.Stored? || worker.pc.Done?
  }

  predicate Quiet(workers: seq<Worker>) {
    forall i :: 0 <= i < |workers| ==> HasStored(workers[i])
  }

  predicate Enabled(s: State, a: Act) {
    match a
    case Register => !s.registered
    case Submit => true
    case Dispatch => s.handler == Idle && s.queue != []
    case Name => s.handler.Saved?
    case Spawn => s.handler.Named?
    case ReadId(k, _) => k < |s.notices| && k < |s.workers|  // shown once its worker is started
    case ReadSlot(i) => i < |s.testing|
    case Set(i) => i < |s.armed|
    case Take(w, timedOut) => w < |s.workers| && s.workers[w].pc == Waits && (s.respRecvd || timedOut)
    case Load(w) => w < |s.workers| && s.workers[w].pc.Took?
    case Store(w) => w < |s.workers| && s.workers[w].pc.Loaded?
    case Send(w) => w < |s.workers| && s.workers[w].pc.Stored?
  }

  /** loc_eng_ni_request_handler up to filling the slot, and the delivery of a response. A
      request that comes before the callback is forgotten, its pointer with it. */
  function DispatchOne(s: State): State
    requires s.queue != []
  {
    var rest := s.(queue := s.queue[1..]);
    match s.queue[0]
    case RequestNi(p) =>
      if !s.registered then rest.(dropped := s.dropped + [p])
      else if s.slot.Some? then rest.(refused := s.refused + [p], freed := s.freed + [p])
      else rest.(slot := Some(p), accepted := s.accepted + [p], handler := Saved(p))
    case InformNiResponse(answer) =>
      rest.(delivered := s.delivered + [answer], freed := s.freed + [answer.request])
  }

  /** The end of the worker's locked section. */
  function TakeSlot(s: State, w: nat, timedOut: bool): State
    requires w < |s.workers|
  {
    var resp := if timedOut then NoResponse else s.resp;
    var answer := match s.slot
      case None => None
      case Some(p) => Some(Answer(resp, p, if timedOut then None else Some(s.respFor)));
    s.(resp := resp, respRecvd := false, slot := None, workers := s.workers[w := s.workers[w].(pc := Took(answer))])
  }

  /** One step; a step that is not enabled changes nothing. */
  function Next(s: State, a: Act): State {
    if !Enabled(s, a) then s else
    match a
    case Register => s.(registered := true, slot := None, respRecvd := false, reqID := 0)
    case Submit => s.(queue := s.queue + [RequestNi(s.submitted)], submitted := s.submitted + 1)
    case Dispatch => DispatchOne(s)
    case Name =>
      s.(handler := Named(s.handler.request, s.reqID),
         notices := s.notices + [Notice(s.handler.request, s.reqID, Quiet(s.workers))])
    case Spawn => s.(handler := Idle, workers := s.workers + [Worker(s.handler.request, Waits)])
    case ReadId(k, response) =>
      if s.notices[k].id != s.reqID then s
      else s.(testing := s.testing + [Responder(response, s.notices[k].request)])
    case ReadSlot(i) =>
      s.(testing := s.testing[..i] + s.testing[i + 1..],
         armed := if s.slot.Some? then s.armed + [s.testing[i]] else s.armed)
    case Set(i) =>
      s.(resp := s.armed[i].response, respRecvd := true, respFor := s.armed[i].request,
         respTimely := s.slot == Some(s.armed[i].request), armed := s.armed[..i] + s.armed[i + 1..])
    case Take(w, timedOut) => TakeSlot(s, w, timedOut)
    case Load(w) =>
      s.(workers := s.workers[w := s.workers[w].(pc := Loaded(s.workers[w].pc.answer, s.reqID))])
    case Store(w) =>
      s.(reqID := s.workers[w].pc.value + 1,
         workers := s.workers[w := s.workers[w].(pc := Stored(s.workers[w].pc.answer))])
    case Send(w) =>
      var sent := match s.workers[w].pc.answer case None => [] case Some(answer) => [InformNiResponse(answer)];
      s.(queue := s.queue + sent, workers := s.workers[w := s.workers[w].(pc := Done)])
  }

  /** Any interleaving. */
  function Run(acts: seq<Act>): State {
    if acts == [] then Init() else Next(Run(acts[..|acts| - 1]), acts[|acts| - 1])
  }

  // ---------------------------------------------------------------- where a request is

  function Count<T(==)>(xs: seq<T>, x: T): nat {
    if xs == [] then 0 else (if xs[0] == x then 1 else 0) + Count(xs[1..], x)
  }

  function QueuedRequests(queue: seq<Message>, p: nat): nat {
    if queue == [] then 0
    else (if queue[0] == RequestNi(p) then 1 else 0) + QueuedRequests(queue[1..], p)
  }

  function QueuedAnswers(queue: seq<Message>, p: nat): nat {
    if queue == [] then 0
    else (if queue[0].InformNiResponse? && queue[0].answer.request == p then 1 else 0) + QueuedAnswers(queue[1..], p)
  }

  function Delivered(answers: seq<Answer>, p: nat): nat {
    if answers == [] then 0 else (if answers[0].request == p then 1 else 0) + Delivered(answers[1..], p)
  }

  /** Does this worker hold the pointer `p`? */
  function Holds(worker: Worker, p: nat): nat {
    match worker.pc
    case Took(Some(answer)) => if answer.request == p then 1 else 0
    case Loaded(Some(answer), _) => if answer.request == p then 1 else 0
    case Stored(Some(answer)) => if answer.request == p then 1 else 0
    case _ => 0
  }

  function Held(workers: seq<Worker>, p: nat): nat {
    if workers == [] then 0 else Holds(workers[0], p) + Held(workers[1..], p)
  }

  function InSlot(slot: Option<nat>, p: nat): nat {
    if slot == Some(p) then 1 else 0
  }

  function Waiting(workers: seq<Worker>): nat {
    if workers == [] then 0 else (if workers[0].pc == Waits then 1 else 0) + Waiting(workers[1..])
  }
}
