// What each message comes to in the engine's message loop: which callbacks it makes, and
// what it does to the session.
module EngineOutcomes {
  import opened Engine

  /** The deletion that ends a round in which the engine's status is `engine` at the end. */
  function Due(aiding: set<nat>, engine: GpsStatus): seq<Effect> {
    if engine == EngineOn || aiding == {} then [] else [Deleted(aiding, engine)]
  }

  /** A position reaches the user exactly if the session is not muted, there is a callback,
      and it is a failure, or a final fix from a good source, or intermediate fixes are
      wanted and it is accurate enough. One that does ends a single-shot session, and then
      stops the modem too if it was intermediate. */
  lemma PositionOutcome(e: State, m: Message)
    requires !e.halted && m.ReportPosition?
    ensures var reported := e.mute != MuteInSession && e.config.locationCb
        && (m.fix == FixFailure || (m.fix == FixSuccess && m.goodSource) || (e.config.intermediateFix && !m.tooInaccurate));
      var r := Handle(e, m);
      && r.log == e.log + (if reported then [Location] else [])
         + (if reported && m.singleShot && m.fix == FixIntermediate then [FixStopped] else []) + Due(e.aiding, e.engine)
      && r.navigating == (e.navigating && !(reported && m.singleShot))
      && r.mute == e.mute && r.engine == e.engine && r.fixSession == e.fixSession
  {
    assert e.log + [] == e.log;
    assert e.log + [Location] + [] == e.log + [Location];
  }

  /** Satellites reach the user exactly if the session is not muted and there is a callback. */
  lemma SatellitesOutcome(e: State)
    requires !e.halted
    ensures var r := Handle(e, ReportSv);
      && r.log == e.log + (if e.mute != MuteInSession && e.config.svStatusCb then [Satellites] else []) + Due(e.aiding, e.engine)
      && r.navigating == e.navigating && r.engine == e.engine && r.fixSession == e.fixSession
  {
    assert e.log + [] == e.log;
  }

  /** A reported status, or the engine going down. */
  predicate Brings(m: Message, status: GpsStatus) {
    m == ReportStatus(status) || (m.EngineDown? && status == EngineOff)
  }

  /** A status reaches the user unless there is none to report or nobody to tell, the session
      is muted by then, or it contradicts what the application asked for; the engine's and
      the session's last status are kept. */
  lemma StatusOutcome(e: State, m: Message, status: GpsStatus)
    requires !e.halted && Brings(m, status)
    ensures var r := Handle(e, m);
      var told := e.config.statusCb && status != NoStatus && r.mute != MuteInSession
        && !(status == SessionEnd && e.navigating) && !(status == SessionBegin && !e.navigating);
      && r.log == e.log + (if told then [Status(status)] else []) + Due(e.aiding, r.engine)
      && r.engine == (if status == EngineOn || status == EngineOff then status else e.engine)
      && r.fixSession == (if status == SessionBegin || status == SessionEnd then status else e.fixSession)
      && r.navigating == e.navigating
  {
    assert e.log + [] == e.log;
    assert e.log + [Status(status)] + [] == e.log + [Status(status)];
  }

  /** The engine coming up is a status like the others; a session that was running is
      started again, and is over if that is refused. */
  lemma EngineUpOutcome(e: State, restart: StartAnswer)
    requires !e.halted
    ensures var r := Handle(e, EngineUp(restart));
      var again := e.navigating && restart != Refused;
      && r.log == e.log + (if e.config.statusCb && r.mute != MuteInSession then [Status(EngineOn)] else [])
         + (if again && e.config.statusCb then [Status(SessionBegin)] else [])
      && r.navigating == again && r.engine == EngineOn && r.aiding == e.aiding
  {
    assert e.log + [] == e.log;
    assert e.log + [Status(EngineOn)] + [] == e.log + [Status(EngineOn)];
  }

  /** A fix is started only if none is running; the application is told of a session that
      the modem takes on, now or when it is up again. */
  lemma StartOutcome(e: State, start: StartAnswer)
    requires !e.halted
    ensures var r := Handle(e, StartFix(start));
      var starts := !e.navigating && (start == Started || start == ModemDown);
      && r.log == e.log + (if starts && e.config.statusCb then [Status(SessionBegin)] else []) + Due(e.aiding, e.engine)
      && r.navigating == (e.navigating || starts)
      && r.mute == e.mute && r.engine == e.engine && r.fixSession == e.fixSession
  {
    assert e.log + [] == e.log;
  }

  /** A running fix is stopped, and is over whether or not the modem obeys; the application is
      told if it does. */
  lemma StopOutcome(e: State, stopped: bool)
    requires !e.halted
    ensures var r := Handle(e, StopFix(stopped));
      && r.log == e.log + (if e.navigating then [FixStopped] else [])
         + (if e.navigating && stopped && e.config.statusCb then [Status(SessionEnd)] else []) + Due(e.aiding, e.engine)
      && !r.navigating
      && r.mute == e.mute && r.engine == e.engine && r.fixSession == e.fixSession
  {
    assert e.log + [] == e.log;
    assert e.log + [FixStopped] + [] == e.log + [FixStopped];
  }

  /** A sentence from the modem reaches the user exactly if there is a callback. */
  lemma NmeaOutcome(e: State)
    requires !e.halted
    ensures var r := Handle(e, ReportNmea);
      && r.log == e.log + (if e.config.nmeaCb then [Nmea] else []) + Due(e.aiding, e.engine)
      && r.navigating == e.navigating && r.engine == e.engine && r.fixSession == e.fixSession
  {
    assert e.log + [] == e.log;
  }

  /** The other messages make no callback, but a deletion may fall due. */
  lemma SilentOutcome(e: State, m: Message)
    requires !e.halted && (m.RequestNi? || m.DeleteAidingData? || m.Other?)
    ensures var r := Handle(e, m);
      && r.log == e.log + Due(e.aiding + (if m.DeleteAidingData? then m.mask else {}), e.engine)
      && r.navigating == e.navigating && r.engine == e.engine && r.fixSession == e.fixSession
  {
    assert e.log + [] == e.log && e.aiding + {} == e.aiding;
  }

  /** QUIT ends the loop with nothing more done; after it nothing is. */
  lemma QuitOutcome(e: State, m: Message)
    ensures e.halted ==> Handle(e, m) == e
    ensures !e.halted ==> Handle(e, Quit) == e.(halted := true)
    ensures !e.halted && !m.Quit? ==> !Handle(e, m).halted
  {
  }

  /** The engine's status after a run is the last one that any message brought. */
  function LastEngine(ms: seq<Message>, old_: GpsStatus): GpsStatus {
    if ms == [] then old_
    else
      var m := ms[|ms| - 1];
      if m == ReportStatus(EngineOn) || m.EngineUp? then EngineOn
      else if m == ReportStatus(EngineOff) || m.EngineDown? then EngineOff
      else LastEngine(ms[..|ms| - 1], old_)
  }

  lemma EngineAfter(e: State, m: Message)
    requires !e.halted && !m.Quit?
    ensures Handle(e, m).engine ==
      if m == ReportStatus(EngineOn) || m.EngineUp? then EngineOn
      else if m == ReportStatus(EngineOff) || m.EngineDown? then EngineOff
      else e.engine
  {
  }

  lemma {:induction false} EngineIsLast(e: State, ms: seq<Message>)
    requires !e.halted && NoQuit(ms)
    ensures Run(e, ms).engine == LastEngine(ms, e.engine)
  {
    NeverHalts(e, ms);
    if ms != [] {
      var n := |ms| - 1;
      EngineIsLast(e, ms[..n]);
      NeverHalts(e, ms[..n]);
      EngineAfter(Run(e, ms[..n]), ms[n]);
    }
  }
}
