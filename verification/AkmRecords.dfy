// What the compass driver's records say: who reports at a SYN, and with which values.
module AkmRecords {
  import opened Akm
  import opened AkmProofs
  import opened InputEvents
  import opened Wrappers

  // ---------------------------------------------------------------- streams in two parts

  lemma {:induction false} InterpretAppend(d: Decoder, a: seq<InputEvent>, b: seq<InputEvent>, library: Library)
    requires WellFormed(d)
    ensures var first := Interpret(d, a, library);
      var rest := Interpret(first.0, b, library);
      Interpret(d, a + b, library) == (rest.0, first.1 + rest.1)
    decreases |a|
  {
    hide ProcessEvent, Announce;
    if a == [] {
      assert a + b == b && [] + Interpret(d, b, library).1 == Interpret(d, b, library).1;
    } else {
      var e := a[0];
      assert (a + b)[1..] == a[1..] + b;
      if e.evType == EV_REL {
        InterpretAppend(ProcessEvent(d, e.code, e.value), a[1..], b, library);
      } else if e.evType == EV_SYN {
        var d1 := Announced(d, library);
        InterpretAppend(d1, a[1..], b, library);
        var mid := Interpret(d1, a[1..], library);
        assert Announce(d) + (mid.1 + Interpret(mid.0, b, library).1) == Announce(d) + mid.1 + Interpret(mid.0, b, library).1;
      } else {
        InterpretAppend(d, a[1..], b, library);
      }
    }
  }

  lemma InterpretSyn(d: Decoder, e: InputEvent, library: Library)
    requires WellFormed(d) && e.evType == EV_SYN
    ensures Interpret(d, [e], library) == (Announced(d, library), Announce(d))
  {
    hide Announce, Announced;
    assert [e][1..] == [];
    assert Announce(d) + [] == Announce(d);
  }

  // ---------------------------------------------------------------- values

  /** The accuracy that the last status event gives; 4 means unreliable. */
  function LastStatus(events: seq<InputEvent>, old_: int): int {
    if events == [] then old_
    else
      var e := events[|events| - 1];
      if e.evType == EV_REL && e.code == 8 then (if e.value % 256 == 4 then 0 else e.value % 256)
      else LastStatus(events[..|events| - 1], old_)
  }

  lemma {:induction false} LastStatusFirst(events: seq<InputEvent>, old_: int)
    requires events != []
    ensures LastStatus(events, old_) == LastStatus(events[1..], LastStatus(events[..1], old_))
    decreases |events|
  {
    var n := |events| - 1;
    if n > 0 {
      LastStatusFirst(events[..n], old_);
      assert events[..n][1..] == events[1..][..n - 1] && events[..n][..1] == events[..1];
    } else {
      assert events[..1] == events && events[1..] == [];
    }
  }

  lemma ProcessStatus(d: Decoder, code: int, value: int)
    requires WellFormed(d)
    ensures var r := ProcessEvent(d, code, value);
      && r.readings[2].status == (if code != 8 then d.readings[2].status else if value % 256 == 4 then 0 else value % 256)
      && r.readings[0].status == d.readings[0].status
      && r.readings[1].status == d.readings[1].status
  {
  }

  /** After any stream the orientation's accuracy is the last one sent, and no other changes. */
  lemma {:induction false} StatusIsLast(d: Decoder, events: seq<InputEvent>, library: Library)
    requires WellFormed(d)
    ensures var r := Interpret(d, events, library).0;
      && r.readings[2].status == LastStatus(events, d.readings[2].status)
      && r.readings[0].status == d.readings[0].status
      && r.readings[1].status == d.readings[1].status
    decreases |events|
  {
    hide ProcessEvent, Announce;
    if events != [] {
      var e := events[0];
      LastStatusFirst(events, d.readings[2].status);
      assert events[..1][..0] == [];
      if e.evType == EV_REL {
        ProcessStatus(d, e.code, e.value);
        StatusIsLast(ProcessEvent(d, e.code, e.value), events[1..], library);
      } else if e.evType == EV_SYN {
        StatusIsLast(Announced(d, library), events[1..], library);
      } else {
        StatusIsLast(d, events[1..], library);
      }
    }
  }

  // ---------------------------------------------------------------- significant motion

  lemma TruncateIs(r: real)
    ensures var t := Truncate(r) as real;
      if r >= 0.0 then t <= r < t + 1.0 else t - 1.0 < r <= t
  {
  }

  /** Does some height differ by 2 or more from the one before it, cut off to an integer? */
  predicate Jumps(last: int, events: seq<InputEvent>)
    decreases |events|
  {
    if events == [] then false
    else
      var e := events[0];
      if e.evType == EV_REL && e.code == 2 then
        var z := Convert(e.value, -CONVERT_A);
        last as real - z >= 2.0 || z - last as real >= 2.0 || Jumps(Truncate(z), events[1..])
      else Jumps(last, events[1..])
  }

  predicate NoSyn(events: seq<InputEvent>) {
    forall i :: 0 <= i < |events| ==> events[i].evType != EV_SYN
  }

  lemma ProcessMotion(d: Decoder, code: int, value: int)
    requires WellFormed(d)
    ensures var r := ProcessEvent(d, code, value);
      var z := Convert(value, -CONVERT_A);
      && r.motionValue == (if code == 2 then Truncate(z) else d.motionValue)
      && (3 in r.pending <==> (
            || 3 in d.pending
            || (code == 2 && 3 in d.enabled && (d.motionValue as real - z >= 2.0 || z - d.motionValue as real >= 2.0))))
      && (3 in r.pending && 3 !in d.pending ==> r.readings[3] == d.readings[3].(x := 1.0))
      && (r.readings[3] == d.readings[3] || r.readings[3] == d.readings[3].(x := 1.0))
      && r.enabled == d.enabled
  {
    hide Convert;
    TruncateIs(d.motionValue as real - Convert(value, -CONVERT_A));
  }

  /** Between two SYNs, significant motion comes up exactly if it is enabled and the height
      jumps. */
  lemma {:induction false} MotionIff(d: Decoder, events: seq<InputEvent>, library: Library)
    requires WellFormed(d) && NoSyn(events)
    ensures var r := Interpret(d, events, library).0;
      && (3 in r.pending <==> 3 in d.pending || (3 in d.enabled && Jumps(d.motionValue, events)))
      && r.enabled == d.enabled
    decreases |events|
  {
    hide ProcessEvent, Announce, Announced, Convert, Truncate;
    if events != [] {
      var e := events[0];
      assert NoSyn(events[1..]);
      if e.evType == EV_REL {
        ProcessMotion(d, e.code, e.value);
        MotionIff(ProcessEvent(d, e.code, e.value), events[1..], library);
      } else {
        MotionIff(d, events[1..], library);
      }
    }
  }

  // ---------------------------------------------------------------- switches and starts

  /** Significant motion is told as 1. */
  predicate MotionSet(d: Decoder)
    requires WellFormed(d)
  {
    3 in d.pending ==> d.readings[3].x == 1.0
  }

  /** One switch in full: what it leaves alone, and when the library is asked. */
  lemma EnableExact(d: Decoder, what: nat, en: bool, library: Library)
    requires Counted(d) && what < 4
    ensures var r := Enable(d, what, en, library);
      var shared := (what == 0 && 3 in d.enabled) || (what == 3 && 0 in d.enabled);
      && r.0.pending == d.pending && r.0.readings == d.readings && r.0.motionValue == d.motionValue
      && (forall s: nat :: s != what ==> (s in r.0.enabled <==> s in d.enabled))
      && r.0.calls == d.calls + (if en == (what in d.enabled) || shared then 0 else 1)
      && r.1 == (if en == (what in d.enabled) || shared then 0 else library(d.calls, en))
  {
  }

  /** The switch of a handle reached sensor `i` and no other. */
  ghost predicate Switched(s: Sensor, r: (Sensor, int), i: nat, en: bool) {
    && r.0.queue == s.queue
    && (forall j: nat :: j != i ==> (j in r.0.decoder.enabled <==> j in s.decoder.enabled))
    && (i in r.0.decoder.enabled <==> if r.1 == 0 then en else i in s.decoder.enabled)
  }

  /** Handles 0, 1, 2 and 6 are the four sensors; any other is refused. */
  lemma HandlesSwitch(s: Sensor, handle: int, en: bool, library: Library)
    ensures var r := SwitchSensor(s, handle, en, library);
      && (handle == 0 ==> Switched(s, r, 0, en))
      && (handle == 1 ==> Switched(s, r, 1, en))
      && (handle == 2 ==> Switched(s, r, 2, en))
      && (handle == 6 ==> Switched(s, r, 3, en))
      && (handle !in {0, 1, 2, 6} ==> r == (s, -22))
  {
  }

  /** The readings at the start: what the device says of each axis of a sensor that is on,
      in SI units but for the angles, and 0 for everything else. */
  lemma StartReadings(absInfo: int -> Option<int>, accelerometer: bool, magnetic: bool, orientation: bool, code: int)
    requires ChannelOf(code).Some?
    ensures var c, d := ChannelOf(code).value, Start(absInfo, accelerometer, magnetic, orientation);
      var on := if c.sensor == 0 then accelerometer else if c.sensor == 1 then magnetic else orientation;
      var factor := if code == 3 || code == 4 then 1.0 else if code == 5 then -1.0 else c.factor;
      Axis(d.readings[c.sensor], c.axis) == if on && absInfo(code).Some? then Convert(absInfo(code).value, factor) else 0.0
  {
    hide Convert;
  }

  /** The accuracies at the start: high, but for what the device says of the orientation. */
  lemma StartAccuracies(absInfo: int -> Option<int>, accelerometer: bool, magnetic: bool, orientation: bool)
    ensures var d := Start(absInfo, accelerometer, magnetic, orientation);
      && d.readings[0].status == 3 && d.readings[1].status == 3
      && d.readings[2].status == (if orientation && absInfo(8).Some? then absInfo(8).value % 256 else 3)
      && d.readings[3] == Reading(0.0, 0.0, 0.0, 0)
      && d.pending == {} && MotionSet(d)
  {
    hide Convert;
  }

  // ---------------------------------------------------------------- records

  lemma {:induction false} MotionStaysSet(d: Decoder, events: seq<InputEvent>, library: Library)
    requires WellFormed(d) && MotionSet(d)
    ensures MotionSet(Interpret(d, events, library).0)
    decreases |events|
  {
    hide ProcessEvent, Announce;
    if events != [] {
      var e := events[0];
      if e.evType == EV_REL {
        ProcessMotion(d, e.code, e.value);
        MotionStaysSet(ProcessEvent(d, e.code, e.value), events[1..], library);
      } else if e.evType == EV_SYN {
        MotionStaysSet(Announced(d, library), events[1..], library);
      } else {
        MotionStaysSet(d, events[1..], library);
      }
    }
  }

  predicate Reports(told: seq<Record>, sensor: nat) {
    exists i :: 0 <= i < |told| && told[i].sensor == sensor
  }

  predicate Ascending(told: seq<Record>) {
    && (forall i :: 0 <= i < |told| ==> told[i].sensor < 4)
    && (forall i, j :: 0 <= i < j < |told| ==> told[i].sensor < told[j].sensor)
  }

  /** These are the records of the enabled pending sensors below `j`. */
  ghost predicate Telling(d: Decoder, told: seq<Record>, j: nat)
    requires WellFormed(d)
  {
    && Ascending(told)
    && (forall s: nat :: s < 4 ==> (Reports(told, s) <==> s < j && s in d.enabled && s in d.pending))
    && (forall i :: 0 <= i < |told| ==> told[i].sensor < j && told[i].reading == d.readings[told[i].sensor])
  }

  lemma TellsNext(d: Decoder, told: seq<Record>, j: nat)
    requires WellFormed(d) && j < 4 && Telling(d, told, j)
    ensures Telling(d, told + RecordsOf(d, j), j + 1)
  {
    var all := told + RecordsOf(d, j);
    if RecordsOf(d, j) == [] {
      assert all == told;
    } else {
      assert all[|told|] == Record(j, d.readings[j]);
      forall s: nat | s < 4
        ensures Reports(all, s) <==> Reports(told, s) || s == j
      {
        if Reports(told, s) {
          var i :| 0 <= i < |told| && told[i].sensor == s;
          assert all[i].sensor == s;
        }
      }
    }
  }

  lemma NobodyTells(d: Decoder)
    requires WellFormed(d)
    ensures Telling(d, [], 0)
  {
  }

  /** The decoder's own view of what a SYN tells. */
  lemma AnnounceTells(d: Decoder)
    requires WellFormed(d)
    ensures Telling(d, Announce(d), 4)
  {
    hide Telling, RecordsOf;
    NobodyTells(d);
    TellsNext(d, [], 0);
    assert [] + RecordsOf(d, 0) == RecordsOf(d, 0);
    TellsNext(d, RecordsOf(d, 0), 1);
    TellsNext(d, RecordsOf(d, 0) + RecordsOf(d, 1), 2);
    TellsNext(d, RecordsOf(d, 0) + RecordsOf(d, 1) + RecordsOf(d, 2), 3);
  }

  lemma {:induction false} PendingIfMoved(d: Decoder, events: seq<InputEvent>, sensor: nat, library: Library)
    requires WellFormed(d) && sensor < 3
    ensures sensor in Interpret(d, events, library).0.pending <==> MovedSince(sensor in d.pending, events, sensor)
    decreases |events|
  {
    hide ProcessEvent, Announce;
    if events != [] {
      var e := events[0];
      if e.evType == EV_REL {
        ProcessMoves(d, e.code, e.value, sensor);
        PendingIfMoved(ProcessEvent(d, e.code, e.value), events[1..], sensor, library);
      } else if e.evType == EV_SYN {
        PendingIfMoved(Announced(d, library), events[1..], sensor, library);
      } else {
        PendingIfMoved(d, events[1..], sensor, library);
      }
    }
  }

  /** What a SYN after the stream `before` tells: one record each, in index order, for the
      enabled sensors that moved since the SYN before, with the last value sent for each
      axis; the orientation's with the last accuracy sent, significant motion as 1. */
  lemma RecordsAtSyn(d: Decoder, before: seq<InputEvent>, e: InputEvent, library: Library) returns (told: seq<Record>)
    requires WellFormed(d) && MotionSet(d) && e.evType == EV_SYN
    ensures Interpret(d, before + [e], library).1 == Interpret(d, before, library).1 + told
    ensures Ascending(told)
    ensures var d0 := Interpret(d, before, library).0;
      && (forall s: nat :: s < 3 ==> (Reports(told, s) <==> s in d0.enabled && MovedSince(s in d.pending, before, s)))
      && (Reports(told, 3) <==> 3 in d0.enabled && 3 in d0.pending)
    ensures forall i, code :: 0 <= i < |told| && ChannelOf(code).Some? && ChannelOf(code).value.sensor == told[i].sensor ==>
      var c := ChannelOf(code).value;
      Axis(told[i].reading, c.axis) == LastValue(before, code, c.factor, Axis(d.readings[c.sensor], c.axis))
    ensures forall i :: 0 <= i < |told| ==>
      && (told[i].sensor == 2 ==> told[i].reading.status == LastStatus(before, d.readings[2].status))
      && (told[i].sensor < 2 ==> told[i].reading.status == d.readings[told[i].sensor].status)
      && (told[i].sensor == 3 ==> told[i].reading.x == 1.0)
  {
    hide Announce, Announced, Interpret, LastValue, LastStatus, MovedSince, Axis, ChannelOf;
    var d0 := Interpret(d, before, library).0;
    told := Announce(d0);
    InterpretAppend(d, before, [e], library);
    InterpretSyn(d0, e, library);
    AnnounceTells(d0);
    MotionStaysSet(d, before, library);
    StatusIsLast(d, before, library);
    forall s: nat | s < 3
      ensures s in d0.pending <==> MovedSince(s in d.pending, before, s)
    {
      PendingIfMoved(d, before, s, library);
    }
    forall i, code | 0 <= i < |told| && ChannelOf(code).Some? && ChannelOf(code).value.sensor == told[i].sensor
      ensures var c := ChannelOf(code).value;
        Axis(told[i].reading, c.axis) == LastValue(before, code, c.factor, Axis(d.readings[c.sensor], c.axis))
    {
      LastValueWins(d, before, code, library);
    }
  }

  /** After a SYN nothing is pending, no reading has changed, and at most significant motion
      has been switched off. */
  lemma SynSettles(d: Decoder, before: seq<InputEvent>, e: InputEvent, library: Library)
    requires WellFormed(d) && e.evType == EV_SYN
    ensures var d0, d1 := Interpret(d, before, library).0, Interpret(d, before + [e], library).0;
      && d1.pending == {} && d1.readings == d0.readings && d1.motionValue == d0.motionValue
      && d1.enabled == if 3 in d0.enabled && 3 in d0.pending && 3 !in d1.enabled then d0.enabled - {3} else d0.enabled
  {
    hide Announce, Interpret;
    InterpretAppend(d, before, [e], library);
    InterpretSyn(Interpret(d, before, library).0, e, library);
  }
}
