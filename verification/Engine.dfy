// The engine's message loop (gps/libloc_api_50001/loc_eng.cpp) as far as session muting
// and the deletion of aiding data go: one function per handler, then what every run keeps.
module Engine {

  datatype GpsStatus = NoStatus | SessionBegin | SessionEnd | EngineOn | EngineOff

  datatype Mute = NotMuted | MuteWait | MuteInSession

  datatype FixStatus = FixFailure | FixSuccess | FixIntermediate

  /** What the adapter answers when a fix is started. */
  datatype StartAnswer = Started | ModemDown | Refused

  /** Messages of the deferred queue, with what the environment contributes to each. A mask
      of aiding data is the set of its bits. */
  datatype Message =
    | RequestNi(accepted: bool, privacyOverride: bool)
    | StartFix(start: StartAnswer)
    | StopFix(stopped: bool)
    | ReportPosition(fix: FixStatus, goodSource: bool, tooInaccurate: bool, singleShot: bool)
    | ReportSv
    | ReportStatus(status: GpsStatus)
    | ReportNmea
    | DeleteAidingData(mask: set<nat>)
    | EngineDown
    | EngineUp(restart: StartAnswer)
    | Other
    | Quit

  /** What leaves the loop: callbacks to the user, stopFix calls to the adapter, and
      deletions with the engine's status at the time. */
  datatype Effect =
    | Location
    | Satellites
    | Nmea
    | Status(status: GpsStatus)
    | FixStopped
    | Deleted(mask: set<nat>, engine: GpsStatus)

  /** Which callbacks were registered, and whether intermediate fixes are wanted. */
  datatype Config = Config(locationCb: bool, svStatusCb: bool, statusCb: bool, nmeaCb: bool, intermediateFix: bool)

  datatype State = State(
    config: Config,
    mute: Mute,
    engine: GpsStatus,       // engine_status
    fixSession: GpsStatus,   // fix_session_status
    navigating: bool,
    aiding: set<nat>,        // aiding_data_for_deletion
    halted: bool,
    log: seq<Effect>)

  function Init(config: Config): State {
    State(config, NotMuted, NoStatus, NoStatus, false, {}, false, [])
  }

  function InformStatus(e: State, status: GpsStatus): State {
    if e.config.statusCb then e.(log := e.log + [Status(status)]) else e
  }

  function MuteAfter(mute: Mute, status: GpsStatus): Mute {
    var m := if (status == SessionBegin || status == EngineOn) && mute == MuteWait then MuteInSession else mute;
    if m == MuteInSession && (status == SessionEnd || status == EngineOff) then NotMuted else m
  }

  function ReportStatusTo(e: State, status: GpsStatus): State {
    var e1 := e.(mute := MuteAfter(e.mute, status));
    var worthIt := status != NoStatus && !(status == SessionEnd && e.navigating) && !(status == SessionBegin && !e.navigating);
    var e2 := if worthIt && e1.mute != MuteInSession then InformStatus(e1, status) else e1;
    e2.(engine := if status == EngineOn || status == EngineOff then status else e.engine,
        fixSession := if status == SessionBegin || status == SessionEnd then status else e.fixSession)
  }

  function StartHandler(e: State, start: StartAnswer): State {
    if !e.navigating && start != Refused then InformStatus(e.(navigating := true), SessionBegin) else e
  }

  function StopHandler(e: State, stopped: bool): State {
    if !e.navigating then e
    else
      var e1 := e.(log := e.log + [FixStopped]);
      (if stopped then InformStatus(e1, SessionEnd) else e1).(navigating := false)
  }

  predicate Reports(e: State, m: Message)
    requires m.ReportPosition?
  {
    e.config.locationCb &&
    (m.fix == FixFailure || (m.fix == FixSuccess && m.goodSource) || (e.config.intermediateFix && !m.tooInaccurate))
  }

  function PositionHandler(e: State, m: Message): State
    requires m.ReportPosition?
  {
    if e.mute == MuteInSession || !Reports(e, m) then e
    else
      var e1 := e.(log := e.log + [Location]);
      if !m.singleShot then e1
      else if m.fix == FixIntermediate then e1.(log := e1.log + [FixStopped], navigating := false)
      else e1.(navigating := false)
  }

  function EngineUpHandler(e: State, restart: StartAnswer): State {
    var e1 := ReportStatusTo(e, EngineOn);
    if e1.navigating then StartHandler(e1.(navigating := false), restart) else e1
  }

  /** The switch over message kinds. */
  function Dispatch(e: State, m: Message): State {
    match m
    case RequestNi(accepted, privacyOverride) => if accepted && privacyOverride then e.(mute := MuteWait) else e
    case StartFix(start) => StartHandler(e, start)
    case StopFix(stopped) => StopHandler(e, stopped)
    case ReportPosition(_, _, _, _) => PositionHandler(e, m)
    case ReportSv =>
      if e.mute != MuteInSession && e.config.svStatusCb then e.(log := e.log + [Satellites]) else e
    case ReportStatus(status) => ReportStatusTo(e, status)
    case ReportNmea => if e.config.nmeaCb then e.(log := e.log + [Nmea]) else e
    case DeleteAidingData(mask) => e.(aiding := e.aiding + mask)
    case EngineDown => ReportStatusTo(e, EngineOff)
    case EngineUp(restart) => EngineUpHandler(e, restart)
    case Other => e
    case Quit => e
  }

  /** The end of every round: aiding data is deleted unless the engine is on. */
  function Tail(e: State): State {
    if e.engine != EngineOn && e.aiding != {}
    then e.(log := e.log + [Deleted(e.aiding, e.engine)], aiding := {})
    else e
  }

  /** One round of the loop; QUIT leaves it at once. */
  function Handle(e: State, m: Message): State {
    if e.halted then e else if m.Quit? then e.(halted := true) else Tail(Dispatch(e, m))
  }

  function Run(e: State, ms: seq<Message>): State {
    if ms == [] then e else Handle(Run(e, ms[..|ms| - 1]), ms[|ms| - 1])
  }

  // ---------------------------------------------------------------- aiding data

  /** Aiding data waits only while the engine is on, and is never deleted while it is. */
  ghost predicate AidingKept(e: State) {
    && (!e.halted && e.aiding != {} ==> e.engine == EngineOn)
    && forall i :: 0 <= i < |e.log| && e.log[i].Deleted? ==> e.log[i].engine != EngineOn && e.log[i].mask != {}
  }

  /** All bits deleted in a stretch of the log. */
  function DeletedBits(log: seq<Effect>): set<nat> {
    if log == [] then {}
    else DeletedBits(log[..|log| - 1]) + (if log[|log| - 1].Deleted? then log[|log| - 1].mask else {})
  }

  /** All bits whose deletion was requested of a loop that had not quit. */
  function RequestedBits(e: State, ms: seq<Message>): set<nat> {
    if ms == [] then {}
    else
      var n := |ms| - 1;
      RequestedBits(e, ms[..n]) + if ms[n].DeleteAidingData? && !Run(e, ms[..n]).halted then ms[n].mask else {}
  }

  lemma {:induction false} DeletedBitsAppend(a: seq<Effect>, b: seq<Effect>)
    ensures DeletedBits(a + b) == DeletedBits(a) + DeletedBits(b)
  {
    if b == [] {
      assert a + b == a;
    } else {
      var n := |b| - 1;
      DeletedBitsAppend(a, b[..n]);
      assert (a + b)[..|a| + n] == a + b[..n];
    }
  }

  /** The log `later` is `log` with something added that is not a deletion. */
  predicate Adds(log: seq<Effect>, later: seq<Effect>) {
    log <= later && forall i :: |log| <= i < |later| ==> !later[i].Deleted?
  }

  lemma AddsTrans(a: seq<Effect>, b: seq<Effect>, c: seq<Effect>)
    requires Adds(a, b) && Adds(b, c)
    ensures Adds(a, c)
  {
  }

  lemma ReportAdds(e: State, status: GpsStatus)
    ensures Adds(e.log, ReportStatusTo(e, status).log)
  {
  }

  lemma StartAdds(e: State, start: StartAnswer)
    ensures Adds(e.log, StartHandler(e, start).log)
  {
  }

  lemma StopAdds(e: State, stopped: bool)
    ensures Adds(e.log, StopHandler(e, stopped).log)
  {
  }

  lemma PositionAdds(e: State, m: Message)
    requires m.ReportPosition?
    ensures Adds(e.log, PositionHandler(e, m).log)
  {
  }

  lemma EngineUpAdds(e: State, restart: StartAnswer)
    ensures Adds(e.log, EngineUpHandler(e, restart).log)
  {
    hide Adds, ReportStatusTo, StartHandler;
    var e1 := ReportStatusTo(e, EngineOn);
    ReportAdds(e, EngineOn);
    if e1.navigating {
      StartAdds(e1.(navigating := false), restart);
      AddsTrans(e.log, e1.log, StartHandler(e1.(navigating := false), restart).log);
    }
  }

  lemma DispatchAdds(e: State, m: Message)
    ensures Adds(e.log, Dispatch(e, m).log)
  {
    hide ReportStatusTo, StartHandler, StopHandler, PositionHandler, EngineUpHandler;
    match m
    case StartFix(start) => StartAdds(e, start);
    case StopFix(stopped) => StopAdds(e, stopped);
    case ReportPosition(_, _, _, _) => PositionAdds(e, m);
    case ReportStatus(status) => ReportAdds(e, status);
    case EngineDown => ReportAdds(e, EngineOff);
    case EngineUp(restart) => EngineUpAdds(e, restart);
    case _ =>
  }

  lemma DispatchKeeps(e: State, m: Message)
    ensures Dispatch(e, m).aiding == e.aiding + if m.DeleteAidingData? then m.mask else {}
    ensures Dispatch(e, m).halted == e.halted && Dispatch(e, m).config == e.config
  {
  }

  /** A handler other than DELETE_AIDING_DATA touches neither the mask nor past log, and
      logs no deletion. */
  lemma DispatchDeletesNothing(e: State, m: Message) returns (more: seq<Effect>)
    ensures Dispatch(e, m).log == e.log + more
    ensures forall i :: 0 <= i < |more| ==> !more[i].Deleted?
    ensures Dispatch(e, m).aiding == e.aiding + if m.DeleteAidingData? then m.mask else {}
    ensures Dispatch(e, m).halted == e.halted
  {
    hide Dispatch;
    DispatchAdds(e, m);
    DispatchKeeps(e, m);
    var later := Dispatch(e, m).log;
    more := later[|e.log|..];
    assert later == e.log + more;
  }

  lemma NoDeletedBits(log: seq<Effect>)
    requires forall i :: 0 <= i < |log| ==> !log[i].Deleted?
    ensures DeletedBits(log) == {}
  {
  }

  lemma HandleKeepsAiding(e: State, m: Message)
    requires AidingKept(e)
    ensures AidingKept(Handle(e, m))
  {
    if !e.halted && !m.Quit? {
      var more := DispatchDeletesNothing(e, m);
    }
  }

  /** After every handled message other than QUIT a pending mask means the engine is on,
      and no deletion ever happened while it was. */
  lemma {:induction false} AidingWaitsForEngine(config: Config, ms: seq<Message>)
    ensures AidingKept(Run(Init(config), ms))
  {
    if ms != [] {
      AidingWaitsForEngine(config, ms[..|ms| - 1]);
      HandleKeepsAiding(Run(Init(config), ms[..|ms| - 1]), ms[|ms| - 1]);
    }
  }

  lemma HandleConserves(e: State, m: Message) returns (more: seq<Effect>)
    ensures Handle(e, m).log == e.log + more
    ensures e.aiding + (if m.DeleteAidingData? && !e.halted then m.mask else {}) == Handle(e, m).aiding + DeletedBits(more)
  {
    more := [];
    assert e.log + [] == e.log;
    if !e.halted && !m.Quit? {
      more := DispatchDeletesNothing(e, m);
      NoDeletedBits(more);
      var d := Dispatch(e, m);
      if d.engine != EngineOn && d.aiding != {} {
        var deleted := [Deleted(d.aiding, d.engine)];
        DeletedBitsAppend(more, deleted);
        assert deleted[..0] == [];
        assert e.log + more + deleted == e.log + (more + deleted);
        more := more + deleted;
      }
    }
  }

  /** From any point on, what was pending or gets requested is exactly what is deleted from
      then on or still pending at the end: no request is lost, nothing else is deleted. */
  lemma {:induction false} AidingConserved(e: State, ms: seq<Message>) returns (more: seq<Effect>)
    ensures Run(e, ms).log == e.log + more
    ensures e.aiding + RequestedBits(e, ms) == Run(e, ms).aiding + DeletedBits(more)
  {
    hide Handle;
    if ms == [] {
      more := [];
      assert e.log + more == e.log;
    } else {
      var n := |ms| - 1;
      var before := AidingConserved(e, ms[..n]);
      var e1 := Run(e, ms[..n]);
      var last := HandleConserves(e1, ms[n]);
      more := before + last;
      assert e.log + before + last == e.log + more;
      DeletedBitsAppend(before, last);
    }
  }

  // ---------------------------------------------------------------- muting

  predicate MuteRequest(m: Message) {
    m.RequestNi? && m.accepted && m.privacyOverride
  }

  /** Messages that report a session or the engine starting, or ending. */
  predicate Begins(m: Message) {
    m.EngineUp? || (m.ReportStatus? && (m.status == SessionBegin || m.status == EngineOn))
  }

  predicate Ends(m: Message) {
    m.EngineDown? || (m.ReportStatus? && (m.status == SessionEnd || m.status == EngineOff))
  }

  predicate Exposes(effect: Effect) {
    effect.Location? || effect.Satellites?
  }

  lemma DispatchMutes(e: State, m: Message)
    ensures Dispatch(e, m).mute ==
      if MuteRequest(m) then MuteWait
      else if Begins(m) && e.mute == MuteWait then MuteInSession
      else if Ends(m) && e.mute == MuteInSession then NotMuted
      else e.mute
  {
  }

  lemma MutedDispatchExposesNothing(e: State, m: Message, more: seq<Effect>)
    requires Dispatch(e, m).log == e.log + more && e.mute == MuteInSession
    ensures forall i :: 0 <= i < |more| ==> !Exposes(more[i])
  {
    forall i | 0 <= i < |more|
      ensures !Exposes(more[i])
    {
      assert more[i] == Dispatch(e, m).log[|e.log| + i];
    }
  }

  /** What one message does to muting, and what it may expose. */
  lemma HandleMutes(e: State, m: Message) returns (more: seq<Effect>)
    requires !e.halted
    ensures Handle(e, m).log == e.log + more
    ensures e.mute == MuteInSession ==> forall i :: 0 <= i < |more| ==> !Exposes(more[i])
    ensures Handle(e, m).mute ==
      if MuteRequest(m) then MuteWait
      else if Begins(m) && e.mute == MuteWait then MuteInSession
      else if Ends(m) && e.mute == MuteInSession then NotMuted
      else e.mute
  {
    more := [];
    assert e.log + [] == e.log;
    if !m.Quit? {
      more := DispatchDeletesNothing(e, m);
      if e.mute == MuteInSession {
        MutedDispatchExposesNothing(e, m, more);
      }
      DispatchMutes(e, m);
      var d := Dispatch(e, m);
      if d.engine != EngineOn && d.aiding != {} {
        assert e.log + more + [Deleted(d.aiding, d.engine)] == e.log + (more + [Deleted(d.aiding, d.engine)]);
        more := more + [Deleted(d.aiding, d.engine)];
      }
    }
  }

  predicate NoQuit(ms: seq<Message>) {
    forall i :: 0 <= i < |ms| ==> !ms[i].Quit?
  }

  lemma {:induction false} NeverHalts(e: State, ms: seq<Message>)
    requires !e.halted && NoQuit(ms)
    ensures !Run(e, ms).halted
  {
    if ms != [] {
      NeverHalts(e, ms[..|ms| - 1]);
      var told := DispatchDeletesNothing(Run(e, ms[..|ms| - 1]), ms[|ms| - 1]);
    }
  }

  /** A mute request stays in force until something begins. */
  lemma {:induction false} StaysWaiting(e: State, ms: seq<Message>)
    requires e.mute == MuteWait && !e.halted && NoQuit(ms)
    requires forall i :: 0 <= i < |ms| ==> !Begins(ms[i])
    ensures Run(e, ms).mute == MuteWait && !Run(e, ms).halted
  {
    NeverHalts(e, ms);
    if ms != [] {
      var n := |ms| - 1;
      StaysWaiting(e, ms[..n]);
      var told := HandleMutes(Run(e, ms[..n]), ms[n]);
    }
  }

  /** Muted messages expose nothing until an end or another mute request. */
  lemma {:induction false} StaysMuted(e: State, ms: seq<Message>) returns (more: seq<Effect>)
    requires e.mute == MuteInSession && !e.halted && NoQuit(ms)
    requires forall i :: 0 <= i < |ms| ==> !Ends(ms[i]) && !MuteRequest(ms[i])
    ensures Run(e, ms).mute == MuteInSession && !Run(e, ms).halted
    ensures Run(e, ms).log == e.log + more
    ensures forall i :: 0 <= i < |more| ==> !Exposes(more[i])
  {
    hide Handle;
    NeverHalts(e, ms);
    if ms == [] {
      more := [];
      assert e.log + more == e.log;
    } else {
      var n := |ms| - 1;
      var before := StaysMuted(e, ms[..n]);
      var last := HandleMutes(Run(e, ms[..n]), ms[n]);
      more := before + last;
      assert e.log + before + last == e.log + more;
    }
  }

  lemma {:induction false} RunSplit(e: State, a: seq<Message>, b: seq<Message>)
    ensures Run(e, a + b) == Run(Run(e, a), b)
  {
    if b == [] {
      assert a + b == a;
    } else {
      var n := |b| - 1;
      RunSplit(e, a, b[..n]);
      assert (a + b)[..|a| + n] == a + b[..n];
    }
  }

  /** Muting one session: after a mute request, from the first message that begins a
      session or the engine until the next one that ends it, with no further mute request
      in between, no location and no satellites reach the user. */
  lemma MutedSession(e: State, request: Message, waiting: seq<Message>, begin: Message, muted: seq<Message>)
    returns (more: seq<Effect>)
    requires !e.halted && MuteRequest(request) && Begins(begin) && NoQuit(waiting) && NoQuit(muted)
    requires forall i :: 0 <= i < |waiting| ==> !Begins(waiting[i])
    requires forall i :: 0 <= i < |muted| ==> !Ends(muted[i]) && !MuteRequest(muted[i])
    ensures Run(e, [request] + waiting + [begin] + muted).log == Run(e, [request] + waiting + [begin]).log + more
    ensures forall i :: 0 <= i < |more| ==> !Exposes(more[i])
  {
    RunSplit(e, [], [request]);
    assert [] + [request] == [request] && [request][..0] == [];
    var e1 := Run(e, [request]);
    var told := HandleMutes(e, request);
    NeverHalts(e, [request]);
    RunSplit(e, [request], waiting);
    StaysWaiting(e1, waiting);
    var e2 := Run(e1, waiting);
    RunSplit(e, [request] + waiting, [begin]);
    assert [begin][..0] == [];
    told := HandleMutes(e2, begin);
    NeverHalts(e2, [begin]);
    RunSplit(e, [request] + waiting + [begin], muted);
    more := StaysMuted(Run(e2, [begin]), muted);
  }

  /** Does the last mute request come after the last message that begins something? */
  predicate RequestedAgain(ms: seq<Message>) {
    if ms == [] then false
    else
      var last := ms[|ms| - 1];
      MuteRequest(last) || (!Begins(last) && RequestedAgain(ms[..|ms| - 1]))
  }

  /** A further mute request opens a muted session again: while nothing ends, the session is
      muted exactly if no mute request has come since the last begin. */
  lemma {:induction false} MutedUnlessRequestedAgain(e: State, ms: seq<Message>)
    requires e.mute == MuteInSession && !e.halted && NoQuit(ms)
    requires forall i :: 0 <= i < |ms| ==> !Ends(ms[i])
    ensures Run(e, ms).mute == if RequestedAgain(ms) then MuteWait else MuteInSession
    ensures !Run(e, ms).halted
  {
    NeverHalts(e, ms);
    if ms != [] {
      var n := |ms| - 1;
      MutedUnlessRequestedAgain(e, ms[..n]);
      var told := HandleMutes(Run(e, ms[..n]), ms[n]);
    }
  }

  lemma {:induction false} ConfigKept(e: State, ms: seq<Message>)
    ensures Run(e, ms).config == e.config
  {
    hide Dispatch;
    if ms != [] {
      ConfigKept(e, ms[..|ms| - 1]);
      DispatchKeeps(Run(e, ms[..|ms| - 1]), ms[|ms| - 1]);
    }
  }

  /** In a muted session satellites reach the user exactly after such a request. */
  lemma SatellitesExposedIff(e: State, ms: seq<Message>)
    requires e.mute == MuteInSession && !e.halted && NoQuit(ms) && e.config.svStatusCb
    requires forall i :: 0 <= i < |ms| ==> !Ends(ms[i])
    ensures Dispatch(Run(e, ms), ReportSv).log ==
      Run(e, ms).log + if RequestedAgain(ms) then [Satellites] else []
  {
    MutedUnlessRequestedAgain(e, ms);
    ConfigKept(e, ms);
    assert Run(e, ms).log + [] == Run(e, ms).log;
  }

  // ---------------------------------------------------------------- NMEA

  function Nmeas(log: seq<Effect>): nat {
    if log == [] then 0 else Nmeas(log[..|log| - 1]) + if log[|log| - 1] == Nmea then 1 else 0
  }

  function NmeaReports(ms: seq<Message>): nat {
    if ms == [] then 0 else NmeaReports(ms[..|ms| - 1]) + if ms[|ms| - 1] == ReportNmea then 1 else 0
  }

  lemma NoNmeaAdded(log: seq<Effect>, more: seq<Effect>)
    requires Nmea !in more
    ensures Nmeas(log + more) == Nmeas(log)
    decreases |more|
  {
    if more == [] {
      assert log + more == log;
    } else {
      var n := |more| - 1;
      NoNmeaAdded(log, more[..n]);
      assert (log + more)[..|log| + n] == log + more[..n] && (log + more)[|log| + n] == more[n];
    }
  }

  lemma NmeaSnoc(log: seq<Effect>)
    ensures Nmeas(log + [Nmea]) == Nmeas(log) + 1
  {
    assert (log + [Nmea])[..|log|] == log;
  }

  lemma NoNmeaDispatched(e: State, m: Message, more: seq<Effect>)
    requires Dispatch(e, m).log == e.log + more && m != ReportNmea
    ensures Nmea !in more
  {
    forall i | 0 <= i < |more|
      ensures more[i] != Nmea
    {
      assert more[i] == Dispatch(e, m).log[|e.log| + i];
    }
  }

  lemma HandleNmea(e: State, m: Message)
    requires !e.halted && !m.Quit?
    ensures Nmeas(Handle(e, m).log) == Nmeas(e.log) + if e.config.nmeaCb && m == ReportNmea then 1 else 0
  {
    hide Nmeas;
    var d := Dispatch(e, m);
    var more := DispatchDeletesNothing(e, m);
    if m == ReportNmea {
      NmeaSnoc(e.log);
    } else {
      NoNmeaDispatched(e, m, more);
      NoNmeaAdded(e.log, more);
    }
    if d.engine != EngineOn && d.aiding != {} {
      NoNmeaAdded(d.log, [Deleted(d.aiding, d.engine)]);
    }
  }

  /** Sentences that the modem reports reach the user one for one in every run, whatever the
      muting: only locations and satellites are held back. */
  lemma {:induction false} NmeaAlwaysPasses(e: State, ms: seq<Message>)
    requires !e.halted && NoQuit(ms)
    ensures Nmeas(Run(e, ms).log) == Nmeas(e.log) + if e.config.nmeaCb then NmeaReports(ms) else 0
  {
    NeverHalts(e, ms);
    if ms != [] {
      var n := |ms| - 1;
      NmeaAlwaysPasses(e, ms[..n]);
      NeverHalts(e, ms[..n]);
      ConfigKept(e, ms[..n]);
      HandleNmea(Run(e, ms[..n]), ms[n]);
    }
  }
}
