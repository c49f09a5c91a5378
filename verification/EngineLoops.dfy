// The message loop as an object with the fields of loc_eng_data, proved to follow module
// Engine message by message.
module EngineLoops {
  import opened Engine

  class LocEng {
    const config: Config
    var muteSessionState: Mute
    var engineStatus: GpsStatus
    var fixSessionStatus: GpsStatus
    var navigating: bool
    var aidingDataForDeletion: set<nat>
    var halted: bool
    var log: seq<Effect>

    ghost function Value(): State
      reads this
    {
      State(config, muteSessionState, engineStatus, fixSessionStatus, navigating, aidingDataForDeletion, halted, log)
    }

    constructor (config: Config)
      ensures Value() == Init(config)
    {
      this.config := config;
      muteSessionState, engineStatus, fixSessionStatus := NotMuted, NoStatus, NoStatus;
      navigating, aidingDataForDeletion, halted, log := false, {}, false, [];
    }

    method InformGpsStatus(status: GpsStatus)
      modifies this`log
      ensures Value() == InformStatus(old(Value()), status)
    {
      if config.statusCb {
        log := log + [Status(status)];
      }
    }

    method ReportGpsStatus(status: GpsStatus)
      modifies this
      ensures Value() == ReportStatusTo(old(Value()), status)
    {
      if status == SessionBegin || status == EngineOn {
        if muteSessionState == MuteWait {
          muteSessionState := MuteInSession;
        }
      }
      if muteSessionState == MuteInSession && (status == SessionEnd || status == EngineOff) {
        muteSessionState := NotMuted;
      }
      if status != NoStatus && !(status == SessionEnd && navigating) && !(status == SessionBegin && !navigating) {
        if muteSessionState != MuteInSession {
          InformGpsStatus(status);
        }
      }
      if status == EngineOn || status == EngineOff {
        engineStatus := status;
      }
      if status == SessionBegin || status == SessionEnd {
        fixSessionStatus := status;
      }
    }

    method StartFixHandler(start: StartAnswer)
      modifies this
      ensures Value() == StartHandler(old(Value()), start)
    {
      if !navigating && (start == Started || start == ModemDown) {
        navigating := true;
        InformGpsStatus(SessionBegin);
      }
    }

    method StopFixHandler(stopped: bool)
      modifies this
      ensures Value() == StopHandler(old(Value()), stopped)
    {
      if navigating {
        log := log + [FixStopped];
        if stopped {
          InformGpsStatus(SessionEnd);
        }
        navigating := false;
      }
    }

    method HandlePosition(m: Message)
      requires m.ReportPosition?
      modifies this
      ensures Value() == PositionHandler(old(Value()), m)
    {
      if muteSessionState != MuteInSession {
        var reported := false;
        if config.locationCb {
          if m.fix == FixFailure {
            log := log + [Location];
            reported := true;
          } else if (m.fix == FixSuccess && m.goodSource) || (config.intermediateFix && !m.tooInaccurate) {
            log := log + [Location];
            reported := true;
          }
        }
        if reported && m.singleShot {
          if m.fix == FixIntermediate {
            log := log + [FixStopped];
          }
          navigating := false;
        }
      }
    }

    method HandleEngineUp(restart: StartAnswer)
      modifies this
      ensures Value() == EngineUpHandler(old(Value()), restart)
    {
      ReportGpsStatus(EngineOn);
      if navigating {
        navigating := false;
        StartFixHandler(restart);
      }
    }

    /** One round of loc_eng_deferred_action_thread. */
    method HandleMessage(m: Message)
      modifies this
      ensures Value() == Handle(old(Value()), m)
    {
      if halted {
        return;
      }
      match m {
        case Quit =>
          halted := true;
          return;
        case RequestNi(accepted, privacyOverride) =>
          if accepted && privacyOverride {
            muteSessionState := MuteWait;
          }
        case StartFix(start) => StartFixHandler(start);
        case StopFix(stopped) => StopFixHandler(stopped);
        case ReportPosition(_, _, _, _) => HandlePosition(m);
        case ReportSv =>
          if muteSessionState != MuteInSession {
            if config.svStatusCb {
              log := log + [Satellites];
            }
          }
        case ReportStatus(status) => ReportGpsStatus(status);
        case ReportNmea =>
          if config.nmeaCb {
            log := log + [Nmea];
          }
        case DeleteAidingData(mask) => aidingDataForDeletion := aidingDataForDeletion + mask;
        case EngineDown => ReportGpsStatus(EngineOff);
        case EngineUp(restart) => HandleEngineUp(restart);
        case Other =>
      }
      if engineStatus != EngineOn && aidingDataForDeletion != {} {
        log := log + [Deleted(aidingDataForDeletion, engineStatus)];
        aidingDataForDeletion := {};
      }
    }
  }
}
