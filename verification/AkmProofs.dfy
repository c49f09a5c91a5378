// What the compass decoder guarantees: its output does not depend on how the event
// stream is cut into calls, the accelerometer is counted right, significant motion fires
// once per enable.
module AkmProofs {
  import opened Wrappers
  import opened Rings
  import opened Akm
  import opened InputEvents

  // ---------------------------------------------------------------- one SYN

  /** From `d`, `out` has been announced and `d1` announces the rest. */
  predicate Announcing(d: Decoder, out: seq<Record>, d1: Decoder, library: Library) {
    && WellFormed(d) && WellFormed(d1)
    && Announce(d) == out + Announce(d1)
    && Announced(d, library) == Announced(d1, library)
  }

  lemma AnnouncingNothing(d: Decoder, library: Library)
    requires WellFormed(d)
    ensures Announcing(d, [], d, library)
    ensures d.pending == {} ==> Announce(d) == [] && Announced(d, library) == d
  {
    assert [] + Announce(d) == Announce(d);
  }

  lemma AnnouncingMore(d: Decoder, a: seq<Record>, d1: Decoder, b: seq<Record>, d2: Decoder, library: Library)
    requires Announcing(d, a, d1, library) && Announcing(d1, b, d2, library)
    ensures Announcing(d, a + b, d2, library)
  {
    assert a + b + Announce(d2) == a + (b + Announce(d2));
  }

  lemma DeliverStill(d: Decoder, j: nat, library: Library)
    requires WellFormed(d) && j < NUM_SENSORS && ClearBelow(d, j) && j in d.pending
    ensures var d' := Deliver(d, j, library);
      && d'.readings == d.readings && d'.pending == d.pending - {j}
      && (forall s: nat :: s < SIGNIFICANT_MOTION ==> (s in d'.enabled <==> s in d.enabled))
      && (j < SIGNIFICANT_MOTION ==> d'.enabled == d.enabled)
      && (j == SIGNIFICANT_MOTION ==> d'.pending == {})
  {
  }

  /** One of four parts, with nothing before it, can be taken out and put in front. */
  lemma TakenOut<T>(a: seq<T>, b: seq<T>, c: seq<T>, d: seq<T>, j: nat)
    ensures j == 0 ==> a + b + c + d == a + ([] + b + c + d)
    ensures j == 1 && a == [] ==> a + b + c + d == b + (a + [] + c + d)
    ensures j == 2 && a == b == [] ==> a + b + c + d == c + (a + b + [] + d)
    ensures j == 3 && a == b == c == [] ==> a + b + c + d == d + (a + b + c + [])
  {
  }

  lemma DeliverRecords(d: Decoder, j: nat, library: Library)
    requires WellFormed(d) && j < NUM_SENSORS && ClearBelow(d, j) && j in d.pending
    ensures Announce(d) == RecordsOf(d, j) + Announce(Deliver(d, j, library))
  {
    hide Deliver, Announced;
    DeliverStill(d, j, library);
    var d' := Deliver(d, j, library);
    forall s: nat | s < NUM_SENSORS
      ensures RecordsOf(d', s) == if s == j then [] else RecordsOf(d, s)
      ensures s < j ==> RecordsOf(d, s) == []
    {
    }
    hide RecordsOf;
    TakenOut(RecordsOf(d, 0), RecordsOf(d, 1), RecordsOf(d, 2), RecordsOf(d, 3), j);
  }

  lemma DeliverAnnounces(d: Decoder, j: nat, library: Library)
    requires WellFormed(d) && j < NUM_SENSORS && ClearBelow(d, j) && j in d.pending
    ensures Announcing(d, RecordsOf(d, j), Deliver(d, j, library), library)
  {
    hide Announce, RecordsOf;
    DeliverRecords(d, j, library);
    DeliverStill(d, j, library);
    assert j == SIGNIFICANT_MOTION ==> d.pending - {j} == {};
  }

  /** A SYN loop announces in order, wherever it runs out of room; restarting it at index
      0 then makes no difference. */
  lemma {:induction false} SynResumes(d: Decoder, j: nat, count: nat, library: Library)
    requires WellFormed(d) && j <= NUM_SENSORS && ClearBelow(d, j)
    ensures var (d1, out) := Syn(d, j, count, library);
      Announcing(d, out, d1, library)
    decreases NUM_SENSORS - j
  {
    hide Announcing, Deliver, RecordsOf, Syn;
    SynRound(d, j, count, library);
    if count == 0 || d.pending == {} || j == NUM_SENSORS {
      AnnouncingNothing(d, library);
    } else if j !in d.pending {
      SynResumes(d, j + 1, count, library);
    } else {
      var d', records := Deliver(d, j, library), RecordsOf(d, j);
      DeliverAnnounces(d, j, library);
      DeliverClears(d, j, library);
      SynResumes(d', j + 1, count - |records|, library);
      var (d1, rest) := Syn(d', j + 1, count - |records|, library);
      AnnouncingMore(d, records, d', rest, d1, library);
    }
  }

  // ---------------------------------------------------------------- one call

  /** From `d` with events `q`, `out` has been delivered, and `d1` with `q1` delivers the
      rest, whatever comes after. */
  ghost predicate Delivering(d: Decoder, q: seq<InputEvent>, out: seq<Record>, d1: Decoder, q1: seq<InputEvent>,
                             library: Library) {
    && WellFormed(d) && WellFormed(d1)
    && forall more: seq<InputEvent> {:trigger Interpret(d, q + more, library)} ::
      && Interpret(d, q + more, library).0 == Interpret(d1, q1 + more, library).0
      && Interpret(d, q + more, library).1 == out + Interpret(d1, q1 + more, library).1
  }

  lemma DeliveringNothing(d: Decoder, q: seq<InputEvent>, library: Library)
    requires WellFormed(d)
    ensures Delivering(d, q, [], d, q, library)
  {
    forall more: seq<InputEvent>
      ensures [] + Interpret(d, q + more, library).1 == Interpret(d, q + more, library).1
    {
    }
  }

  lemma DeliveringMore(d: Decoder, q: seq<InputEvent>, a: seq<Record>, d1: Decoder, q1: seq<InputEvent>,
                       b: seq<Record>, d2: Decoder, q2: seq<InputEvent>, library: Library)
    requires Delivering(d, q, a, d1, q1, library) && Delivering(d1, q1, b, d2, q2, library)
    ensures Delivering(d, q, a + b, d2, q2, library)
  {
    forall more: seq<InputEvent>
      ensures Interpret(d, q + more, library).0 == Interpret(d2, q2 + more, library).0
      ensures Interpret(d, q + more, library).1 == a + b + Interpret(d2, q2 + more, library).1
    {
      var last := Interpret(d2, q2 + more, library).1;
      assert Interpret(d1, q1 + more, library).1 == b + last;
      assert a + b + last == a + (b + last);
    }
  }

  /** An event that is no SYN delivers nothing. */
  lemma EventDelivers(d: Decoder, q: seq<InputEvent>, library: Library)
    requires WellFormed(d) && q != [] && q[0].evType != EV_SYN
    ensures var d1 := if q[0].evType == EV_REL then ProcessEvent(d, q[0].code, q[0].value) else d;
      Delivering(d, q, [], d1, q[1..], library)
  {
    var d1 := if q[0].evType == EV_REL then ProcessEvent(d, q[0].code, q[0].value) else d;
    forall more: seq<InputEvent>
      ensures Interpret(d, q + more, library) == Interpret(d1, q[1..] + more, library)
      ensures [] + Interpret(d1, q[1..] + more, library).1 == Interpret(d1, q[1..] + more, library).1
    {
      assert (q + more)[0] == q[0] && (q + more)[1..] == q[1..] + more;
    }
  }

  /** A SYN that has been announced completely is over. */
  lemma SynDelivers(d: Decoder, q: seq<InputEvent>, out: seq<Record>, d1: Decoder, library: Library)
    requires q != [] && q[0].evType == EV_SYN && Announcing(d, out, d1, library)
    ensures Delivering(d, q, out, d1, q, library)
    ensures d1.pending == {} ==> Delivering(d, q, out, d1, q[1..], library)
  {
    AnnouncingNothing(d1, library);
    assert out + [] == out;
    forall more: seq<InputEvent>
      ensures Interpret(d, q + more, library).0 == Interpret(d1, q + more, library).0
      ensures Interpret(d, q + more, library).1 == out + Interpret(d1, q + more, library).1
      ensures d1.pending == {} ==>
        && Interpret(d, q + more, library).0 == Interpret(d1, q[1..] + more, library).0
        && Interpret(d, q + more, library).1 == out + Interpret(d1, q[1..] + more, library).1
    {
      assert (q + more)[0] == q[0] && (q + more)[1..] == q[1..] + more;
      var later := Interpret(Announced(d, library), q[1..] + more, library).1;
      assert out + Announce(d1) + later == out + (Announce(d1) + later);
    }
  }

  lemma OneDelivers(d: Decoder, q: seq<InputEvent>, count: nat, library: Library)
    requires WellFormed(d) && q != [] && count > 0
    ensures var one := DrainOne(d, q, count, library);
      && Delivering(d, q, one.2, one.0, one.1, library)
      && (one.1 == q ==> |one.2| == count)
      && (one.1 != q ==> |one.1| < |q|)
  {
    hide Delivering, Announcing, ProcessEvent, Syn;
    if q[0].evType == EV_SYN {
      SynResumes(d, 0, count, library);
      SynFills(d, 0, count, library);
      var s := Syn(d, 0, count, library);
      SynDelivers(d, q, s.1, s.0, library);
    } else {
      EventDelivers(d, q, library);
    }
  }

  /** One round of the readEvents loop. */
  lemma DrainRound(d: Decoder, q: seq<InputEvent>, count: nat, library: Library)
    requires WellFormed(d)
    ensures count == 0 || q == [] ==> Drain(d, q, count, library) == (d, q, [])
    ensures count != 0 && q != [] ==>
      var one := DrainOne(d, q, count, library);
      var rest := Drain(one.0, one.1, count - |one.2|, library);
      && Drain(d, q, count, library) == (rest.0, rest.1, one.2 + rest.2)
      && (|one.1| < |q| || (one.1 == q && |one.2| == count))
  {
    hide Syn;
    SynFills(d, 0, count, library);
  }

  /** One call of readEvents: what it delivers, then what is still to be delivered, is what
      the simple interpreter delivers; a call that leaves room has decoded everything. */
  lemma {:induction false} DrainResumes(d: Decoder, q: seq<InputEvent>, count: nat, library: Library)
    requires WellFormed(d)
    ensures var (d1, q1, out) := Drain(d, q, count, library);
      Delivering(d, q, out, d1, q1, library) && (|out| < count ==> q1 == [])
    decreases |q|, count
  {
    hide Delivering, DrainOne;
    DrainRound(d, q, count, library);
    if count == 0 || q == [] {
      DeliveringNothing(d, q, library);
    } else {
      var one := DrainOne(d, q, count, library);
      OneDelivers(d, q, count, library);
      DrainResumes(one.0, one.1, count - |one.2|, library);
      var rest := Drain(one.0, one.1, count - |one.2|, library);
      DeliveringMore(d, q, one.2, one.0, one.1, rest.2, rest.0, rest.1, library);
    }
  }

  // ---------------------------------------------------------------- many calls

  /** Later events change nothing about what has been delivered. */
  lemma DeliveringWith(d: Decoder, q: seq<InputEvent>, out: seq<Record>, d1: Decoder, q1: seq<InputEvent>,
                       x: seq<InputEvent>, library: Library)
    requires Delivering(d, q, out, d1, q1, library)
    ensures Delivering(d, q + x, out, d1, q1 + x, library)
  {
    forall more: seq<InputEvent>
      ensures Interpret(d, q + x + more, library).0 == Interpret(d1, q1 + x + more, library).0
      ensures Interpret(d, q + x + more, library).1 == out + Interpret(d1, q1 + x + more, library).1
    {
      assert q + x + more == q + (x + more) && q1 + x + more == q1 + (x + more);
    }
  }

  predicate OnlyReads(ops: seq<Op>) {
    forall i :: 0 <= i < |ops| ==> ops[i].Read?
  }

  /** The same for one call; with a full ring nothing is read, so no read can fail. */
  lemma StepResumes(s: Sensor, count: nat, result: ReadResult<InputEvent>, library: Library)
    requires WellFormed(s.decoder)
    ensures var (s1, out) := ReadEvents(s, count, result, library);
      && Delivering(s.decoder, s.queue + (if count > 0 && result.Whole? && |s.queue| < s.capacity then result.events else []),
                    out, s1.decoder, s1.queue, library)
      && |out| <= count
      && (count > 0 && (result.Whole? || |s.queue| >= s.capacity) && |out| < count ==> s1.queue == [])
      && (count > 0 && !result.Whole? && |s.queue| < s.capacity ==> s1 == s && out == [])
  {
    hide Delivering, Drain;
    assert s.queue + [] == s.queue;
    if count == 0 || Fails(s, result) {
      DeliveringNothing(s.decoder, s.queue, library);
    } else {
      DrainResumes(s.decoder, s.queue + Filled(s, result), count, library);
    }
  }

  /** Any sequence of calls, of any capacities and with any reads: what they delivered,
      then what is left to deliver, is what the interpreter makes of the whole stream. */
  lemma {:induction false} RunResumes(s: Sensor, ops: seq<Op>, library: Library)
    requires WellFormed(s.decoder) && OnlyReads(ops)
    ensures var (e, out) := Run(s, ops, library);
      Delivering(s.decoder, s.queue + Stream(s, ops, library), out, e.decoder, e.queue, library)
    decreases |ops|
  {
    hide Delivering, Drain;
    if ops == [] {
      DeliveringNothing(s.decoder, s.queue, library);
      assert s.queue + [] == s.queue;
    } else {
      var (s1, out) := Step(s, ops[0], library);
      var x := if ops[0].count > 0 then Filled(s, ops[0].result) else [];
      var later := Stream(s1, ops[1..], library);
      StepResumes(s, ops[0].count, ops[0].result, library);
      DeliveringWith(s.decoder, s.queue + x, out, s1.decoder, s1.queue, later, library);
      assert s.queue + x + later == s.queue + Stream(s, ops, library);
      RunResumes(s1, ops[1..], library);
      var (e, rest) := Run(s1, ops[1..], library);
      DeliveringMore(s.decoder, s.queue + Stream(s, ops, library), out, s1.decoder, s1.queue + later,
                     rest, e.decoder, e.queue, library);
    }
  }

  /** The output of any sequence of calls is a prefix of what the interpreter emits on the
      whole stream, and all of it once the ring is empty. */
  lemma OutputIsPrefix(s: Sensor, ops: seq<Op>, library: Library)
    requires WellFormed(s.decoder) && OnlyReads(ops)
    ensures var (e, out) := Run(s, ops, library);
      var whole := Interpret(s.decoder, s.queue + Stream(s, ops, library), library);
      && out <= whole.1
      && (e.queue == [] ==> out == whole.1 && e.decoder == whole.0)
  {
    RunResumes(s, ops, library);
    var (e, out) := Run(s, ops, library);
    var q := s.queue + Stream(s, ops, library);
    assert q + [] == q && e.queue + [] == e.queue;
    assert Interpret(s.decoder, q + [], library).1 == out + Interpret(e.decoder, e.queue + [], library).1;
    assert e.queue == [] ==> out + [] == out;
  }

  /** How the stream is cut into calls makes no difference: two ways of reading the same
      stream to the end deliver the same records and leave the same decoder. */
  lemma ChunkingIndependent(s: Sensor, ops: seq<Op>, ops': seq<Op>, library: Library)
    requires WellFormed(s.decoder) && OnlyReads(ops) && OnlyReads(ops')
    requires Stream(s, ops, library) == Stream(s, ops', library)
    requires Run(s, ops, library).0.queue == [] && Run(s, ops', library).0.queue == []
    ensures Run(s, ops, library).1 == Run(s, ops', library).1
    ensures Run(s, ops, library).0.decoder == Run(s, ops', library).0.decoder
  {
    OutputIsPrefix(s, ops, library);
    OutputIsPrefix(s, ops', library);
  }

  // ---------------------------------------------------------------- the shared accelerometer

  function Users(d: Decoder): int {
    (if ACCELEROMETER in d.enabled then 1 else 0) + (if SIGNIFICANT_MOTION in d.enabled then 1 else 0)
  }

  /** The count is the number of logical sensors on the accelerometer, and each device is on
      exactly when somebody uses it. */
  predicate Counted(d: Decoder) {
    && d.accRefCount == Users(d)
    && (AccelerometerDevice in d.on <==> d.accRefCount > 0)
    && (MagneticFieldDevice in d.on <==> MAGNETIC_FIELD in d.enabled)
    && (OrientationDevice in d.on <==> ORIENTATION in d.enabled)
  }

  lemma EnableCounts(d: Decoder, what: nat, en: bool, library: Library)
    requires Counted(d) && what < NUM_SENSORS
    ensures Counted(Enable(d, what, en, library).0)
    ensures Enable(d, what, en, library).1 == 0 <==> (what in Enable(d, what, en, library).0.enabled) == en
  {
  }

  /** At the start the count is right exactly if the accelerometer is off. */
  lemma StartCountsIff(absInfo: int -> Option<int>, accelerometer: bool, magnetic: bool, orientation: bool)
    ensures Counted(Start(absInfo, accelerometer, magnetic, orientation)) <==> !accelerometer
  {
    hide InitialReadings;
  }

  /** After a start with the accelerometer on, the device can be cut off from a sensor in use: significant motion
      is switched on, then the accelerometer off. */
  lemma CutOff(d: Decoder, library: Library)
    requires d.accRefCount == 0 && AccelerometerDevice in d.on
    requires ACCELEROMETER in d.enabled && SIGNIFICANT_MOTION !in d.enabled
    requires library(d.calls, true) == 0 && library(d.calls + 1, false) == 0
    ensures var r := Enable(Enable(d, SIGNIFICANT_MOTION, true, library).0, ACCELEROMETER, false, library).0;
      SIGNIFICANT_MOTION in r.enabled && AccelerometerDevice !in r.on
  {
  }

  lemma ProcessCounts(d: Decoder, code: int, value: int)
    requires WellFormed(d)
    ensures var r := ProcessEvent(d, code, value);
      r.enabled == d.enabled && r.accRefCount == d.accRefCount && r.on == d.on
  {
  }

  lemma DeliverCounts(d: Decoder, j: nat, library: Library)
    requires WellFormed(d) && Counted(d)
    ensures Counted(Deliver(d, j, library))
  {
    EnableCounts(d.(pending := d.pending - {j}), SIGNIFICANT_MOTION, false, library);
  }

  lemma {:induction false} SynCounts(d: Decoder, j: nat, count: nat, library: Library)
    requires WellFormed(d) && j <= NUM_SENSORS && Counted(d)
    ensures Counted(Syn(d, j, count, library).0)
    decreases NUM_SENSORS - j
  {
    hide Deliver, Counted, RecordsOf, Syn;
    SynRound(d, j, count, library);
    if count == 0 || d.pending == {} || j == NUM_SENSORS {
    } else if j !in d.pending {
      SynCounts(d, j + 1, count, library);
    } else {
      DeliverCounts(d, j, library);
      SynCounts(Deliver(d, j, library), j + 1, count - |RecordsOf(d, j)|, library);
    }
  }

  lemma OneCounts(d: Decoder, q: seq<InputEvent>, count: nat, library: Library)
    requires WellFormed(d) && Counted(d) && q != [] && count > 0
    ensures Counted(DrainOne(d, q, count, library).0)
  {
    hide Syn, ProcessEvent;
    ProcessCounts(d, q[0].code, q[0].value);
    SynCounts(d, 0, count, library);
  }

  lemma {:induction false} DrainCounts(d: Decoder, q: seq<InputEvent>, count: nat, library: Library)
    requires WellFormed(d) && Counted(d)
    ensures Counted(Drain(d, q, count, library).0)
    decreases |q|, count
  {
    hide DrainOne, Counted;
    DrainRound(d, q, count, library);
    if count != 0 && q != [] {
      var one := DrainOne(d, q, count, library);
      OneCounts(d, q, count, library);
      DrainCounts(one.0, one.1, count - |one.2|, library);
    }
  }

  /** Over any run of switching and reading, whatever the library answers, the count is
      right and the physical accelerometer is on exactly when it is needed. */
  lemma {:induction false} AccelerometerCounted(s: Sensor, ops: seq<Op>, library: Library)
    requires WellFormed(s.decoder) && Counted(s.decoder)
    ensures Counted(Run(s, ops, library).0.decoder)
    decreases |ops|
  {
    hide Counted, Drain;
    if ops != [] {
      match ops[0] {
        case Switch(handle, en) =>
          if HandleToSensor(handle).Some? {
            EnableCounts(s.decoder, HandleToSensor(handle).value, en, library);
          }
        case Read(count, result) =>
          DrainCounts(s.decoder, s.queue + Filled(s, result), count, library);
      }
      AccelerometerCounted(Step(s, ops[0], library).0, ops[1..], library);
    }
  }

  // ---------------------------------------------------------------- significant motion

  function Motions(out: seq<Record>): nat {
    if out == [] then 0 else (if out[0].sensor == SIGNIFICANT_MOTION then 1 else 0) + Motions(out[1..])
  }

  lemma {:induction false} MotionsAppend(a: seq<Record>, b: seq<Record>)
    ensures Motions(a + b) == Motions(a) + Motions(b)
  {
    if a == [] {
      assert a + b == b;
    } else {
      MotionsAppend(a[1..], b);
      assert (a + b)[1..] == a[1..] + b;
    }
  }

  function Armed(d: Decoder): nat {
    if SIGNIFICANT_MOTION in d.enabled then 1 else 0
  }

  /** Calls that switched significant motion on with success. */
  function Arms(s: Sensor, ops: seq<Op>, library: Library): nat
    requires WellFormed(s.decoder)
    decreases |ops|
  {
    if ops == [] then 0
    else
      (if ops[0].Switch? && HandleToSensor(ops[0].handle) == Some(SIGNIFICANT_MOTION) && ops[0].en
          && SwitchSensor(s, ops[0].handle, true, library).1 == 0 then 1 else 0)
      + Arms(Step(s, ops[0], library).0, ops[1..], library)
  }

  ghost predicate SwitchesOff(library: Library) {
    forall n: nat :: library(n, false) == 0
  }

  /** Between `d` and `d1`, significant motion was delivered only by being switched off. */
  predicate Firing(d: Decoder, out: seq<Record>, d1: Decoder) {
    Motions(out) + Armed(d1) <= Armed(d)
  }

  lemma FiringMore(d: Decoder, a: seq<Record>, d1: Decoder, b: seq<Record>, d2: Decoder)
    requires Firing(d, a, d1) && Firing(d1, b, d2)
    ensures Firing(d, a + b, d2)
  {
    MotionsAppend(a, b);
  }

  lemma FiringNothing(d: Decoder)
    ensures Firing(d, [], d)
  {
  }

  lemma DeliverFires(d: Decoder, j: nat, library: Library)
    requires WellFormed(d) && j < NUM_SENSORS && j in d.pending && SwitchesOff(library)
    ensures Firing(d, RecordsOf(d, j), Deliver(d, j, library))
  {
    var records := RecordsOf(d, j);
    assert records != [] ==> records[1..] == [];
  }

  lemma {:induction false} SynFires(d: Decoder, j: nat, count: nat, library: Library)
    requires WellFormed(d) && j <= NUM_SENSORS && SwitchesOff(library)
    ensures Firing(d, Syn(d, j, count, library).1, Syn(d, j, count, library).0)
    decreases NUM_SENSORS - j
  {
    hide Deliver, RecordsOf, Firing, SwitchesOff, Syn;
    SynRound(d, j, count, library);
    if count == 0 || d.pending == {} || j == NUM_SENSORS {
      FiringNothing(d);
    } else if j !in d.pending {
      SynFires(d, j + 1, count, library);
    } else {
      var d', records := Deliver(d, j, library), RecordsOf(d, j);
      DeliverFires(d, j, library);
      SynFires(d', j + 1, count - |records|, library);
      var (d1, rest) := Syn(d', j + 1, count - |records|, library);
      FiringMore(d, records, d', rest, d1);
    }
  }

  lemma ProcessFires(d: Decoder, code: int, value: int)
    requires WellFormed(d)
    ensures Firing(d, [], ProcessEvent(d, code, value))
  {
    ProcessCounts(d, code, value);
  }

  lemma OneFires(d: Decoder, q: seq<InputEvent>, count: nat, library: Library)
    requires WellFormed(d) && SwitchesOff(library) && q != [] && count > 0
    ensures Firing(d, DrainOne(d, q, count, library).2, DrainOne(d, q, count, library).0)
  {
    hide Syn, ProcessEvent, Firing;
    ProcessFires(d, q[0].code, q[0].value);
    FiringNothing(d);
    SynFires(d, 0, count, library);
  }

  lemma {:induction false} DrainFires(d: Decoder, q: seq<InputEvent>, count: nat, library: Library)
    requires WellFormed(d) && SwitchesOff(library)
    ensures Firing(d, Drain(d, q, count, library).2, Drain(d, q, count, library).0)
    decreases |q|, count
  {
    hide DrainOne, Firing, SwitchesOff;
    DrainRound(d, q, count, library);
    if count == 0 || q == [] {
      FiringNothing(d);
    } else {
      var one := DrainOne(d, q, count, library);
      OneFires(d, q, count, library);
      DrainFires(one.0, one.1, count - |one.2|, library);
      var rest := Drain(one.0, one.1, count - |one.2|, library);
      FiringMore(d, one.2, one.0, rest.2, rest.0);
    }
  }

  /** Over any run in which switching off succeeds, significant motion is delivered at most
      once per successful enable (and once more if it was on at the start). */
  lemma {:induction false} MotionFiresOnce(s: Sensor, ops: seq<Op>, library: Library)
    requires WellFormed(s.decoder) && SwitchesOff(library)
    ensures var r := Run(s, ops, library);
      Motions(r.1) + Armed(r.0.decoder) <= Armed(s.decoder) + Arms(s, ops, library)
    decreases |ops|
  {
    hide Drain;
    if ops != [] {
      var first := Step(s, ops[0], library);
      match ops[0] {
        case Switch(handle, en) =>
          assert Motions(first.1) == 0;
        case Read(count, result) =>
          DrainFires(s.decoder, s.queue + Filled(s, result), count, library);
      }
      MotionFiresOnce(first.0, ops[1..], library);
      MotionsAppend(first.1, Run(first.0, ops[1..], library).1);
    }
  }

  // ---------------------------------------------------------------- values

  /** Where an event code puts its value: a reading, one of its three axes, and the factor
      to SI units. */
  datatype Channel = Channel(sensor: nat, axis: nat, factor: real)

  function ChannelOf(code: int): (r: Option<Channel>)
    ensures r.Some? ==> r.value.sensor < 3 && r.value.axis < 3
  {
    match code
    case 0 => Some(Channel(0, 1, -CONVERT_A))
    case 1 => Some(Channel(0, 0, CONVERT_A))
    case 2 => Some(Channel(0, 2, -CONVERT_A))
    case 3 => Some(Channel(2, 0, CONVERT_O))
    case 4 => Some(Channel(2, 1, CONVERT_O))
    case 5 => Some(Channel(2, 2, CONVERT_O))
    case 6 => Some(Channel(1, 0, CONVERT_M))
    case 7 => Some(Channel(1, 1, -CONVERT_M))
    case 9 => Some(Channel(1, 2, -CONVERT_M))
    case _ => None
  }

  function Axis(r: Reading, axis: nat): real {
    if axis == 0 then r.x else if axis == 1 then r.y else r.z
  }

  /** The last value an event of this code brought, converted; otherwise the old value. */
  function LastValue(events: seq<InputEvent>, code: int, factor: real, old_: real): real {
    if events == [] then old_
    else
      var e := events[|events| - 1];
      if e.evType == EV_REL && e.code == code then Convert(e.value, factor)
      else LastValue(events[..|events| - 1], code, factor, old_)
  }

  /** One event updates its own channel and no other. */
  lemma ProcessChannel(d: Decoder, code: int, value: int, watched: int)
    requires WellFormed(d) && ChannelOf(watched).Some?
    ensures var c := ChannelOf(watched).value;
      Axis(ProcessEvent(d, code, value).readings[c.sensor], c.axis) ==
        if code == watched then Convert(value, c.factor) else Axis(d.readings[c.sensor], c.axis)
    ensures Convert(value, ChannelOf(watched).value.factor) == value as real * ChannelOf(watched).value.factor
  {
  }

  lemma {:induction false} LastValueFirst(events: seq<InputEvent>, code: int, factor: real, old_: real)
    requires events != []
    ensures var e := events[0];
      LastValue(events, code, factor, old_) ==
        LastValue(events[1..], code, factor, if e.evType == EV_REL && e.code == code then Convert(e.value, factor) else old_)
    decreases |events|
  {
    hide Convert;
    if |events| > 1 {
      var n := |events| - 1;
      LastValueFirst(events[..n], code, factor, old_);
      assert events[..n][1..] == events[1..][..n - 1];
    }
  }

  lemma LastValueNone(code: int, factor: real, old_: real)
    ensures LastValue([], code, factor, old_) == old_
  {
  }

  /** After any stream, every axis of every reading holds the last value the device sent
      for it, in SI units. */
  lemma {:induction false} LastValueWins(d: Decoder, events: seq<InputEvent>, watched: int, library: Library)
    requires WellFormed(d) && ChannelOf(watched).Some?
    ensures var c := ChannelOf(watched).value;
      Axis(Interpret(d, events, library).0.readings[c.sensor], c.axis) ==
        LastValue(events, watched, c.factor, Axis(d.readings[c.sensor], c.axis))
    decreases |events|
  {
    hide ProcessEvent, Announce, ChannelOf, Axis, LastValue, Convert;
    var c := ChannelOf(watched).value;
    if events != [] {
      var e := events[0];
      var was := Axis(d.readings[c.sensor], c.axis);
      LastValueFirst(events, watched, c.factor, was);
      if e.evType == EV_REL {
        ProcessChannel(d, e.code, e.value, watched);
        LastValueWins(ProcessEvent(d, e.code, e.value), events[1..], watched, library);
      } else if e.evType == EV_SYN {
        LastValueWins(Announced(d, library), events[1..], watched, library);
      } else {
        LastValueWins(d, events[1..], watched, library);
      }
    } else {
      LastValueNone(watched, c.factor, Axis(d.readings[c.sensor], c.axis));
    }
  }

  // ---------------------------------------------------------------- who reports

  function SensorOf(code: int): Option<nat> {
    if code == ORIENT_STATUS then Some(ORIENTATION)
    else match ChannelOf(code) case Some(c) => Some(c.sensor) case None => None
  }

  /** Has the sensor sent anything since the last SYN? `was` is the answer for the time
      before these events. */
  predicate MovedSince(was: bool, events: seq<InputEvent>, sensor: nat)
    decreases |events|
  {
    if events == [] then was
    else
      var e := events[0];
      MovedSince(
        if e.evType == EV_SYN then false else was || (e.evType == EV_REL && SensorOf(e.code) == Some(sensor)),
        events[1..], sensor)
  }

  lemma ProcessMoves(d: Decoder, code: int, value: int, sensor: nat)
    requires WellFormed(d) && sensor < SIGNIFICANT_MOTION
    ensures sensor in ProcessEvent(d, code, value).pending <==> sensor in d.pending || SensorOf(code) == Some(sensor)
  {
  }

  /** At a SYN each enabled physical sensor reports exactly if the device has sent something
      for it since the SYN before. */
  lemma {:induction false} ReportsWhatMoved(d: Decoder, events: seq<InputEvent>, sensor: nat, library: Library)
    requires WellFormed(d) && sensor < SIGNIFICANT_MOTION
    ensures var d1 := Interpret(d, events, library).0;
      (RecordsOf(d1, sensor) != []) == (sensor in d1.enabled && MovedSince(sensor in d.pending, events, sensor))
    decreases |events|
  {
    hide ProcessEvent;
    if events != [] {
      var e := events[0];
      if e.evType == EV_REL {
        ProcessMoves(d, e.code, e.value, sensor);
        ReportsWhatMoved(ProcessEvent(d, e.code, e.value), events[1..], sensor, library);
      } else if e.evType == EV_SYN {
        ReportsWhatMoved(Announced(d, library), events[1..], sensor, library);
      } else {
        ReportsWhatMoved(d, events[1..], sensor, library);
      }
    }
  }
}
