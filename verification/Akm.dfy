// The compass sensor's decoder (libsensors/AkmSensor.cpp) as functions: events in,
// records out, one physical accelerometer behind two logical sensors.
module Akm {
  import opened InputEvents
  import opened Rings
  import opened Wrappers

  // ---------------------------------------------------------------- codes and records

  const ACCEL_X := 1
  const ACCEL_Y := 0
  const ACCEL_Z := 2
  const YAW := 3
  const PITCH := 4
  const ROLL := 5
  const MAGV_X := 6
  const MAGV_Y := 7
  const ORIENT_STATUS := 8
  const MAGV_Z := 9

  const GRAVITY_EARTH: real := 9.80665
  const CONVERT_A: real := GRAVITY_EARTH / 90.0 / 8.0
  const CONVERT_M: real := 3.0 / 50.0
  const CONVERT_O: real := 1.0 / 64.0

  // Sensors by index; bit masks over them are sets of indices.
  const ACCELEROMETER: nat := 0
  const MAGNETIC_FIELD: nat := 1
  const ORIENTATION: nat := 2
  const SIGNIFICANT_MOTION: nat := 3
  const NUM_SENSORS: nat := 4

  datatype Reading = Reading(x: real, y: real, z: real, status: int)

  datatype Record = Record(sensor: nat, reading: Reading)

  // ---------------------------------------------------------------- state

  /** The AKM library's three sensors. */
  datatype Device = AccelerometerDevice | MagneticFieldDevice | OrientationDevice

  datatype Decoder = Decoder(
    enabled: set<nat>,
    pending: set<nat>,
    readings: seq<Reading>,
    motionValue: int,
    accRefCount: int,
    on: set<Device>,   // what the library has switched on
    calls: nat)        // how often the library was asked to switch something

  /** What the library answers to its n-th call, to switch on or off: 0 or an error. */
  type Library = (nat, bool) -> int

  predicate WellFormed(d: Decoder) {
    |d.readings| == NUM_SENSORS && forall s :: s in d.pending ==> s < NUM_SENSORS
  }

  function HandleToSensor(handle: int): Option<nat> {
    if handle == 0 then Some(ACCELEROMETER)
    else if handle == 1 then Some(MAGNETIC_FIELD)
    else if handle == 2 then Some(ORIENTATION)
    else if handle == 6 then Some(SIGNIFICANT_MOTION)
    else None
  }

  function DeviceOf(what: nat): Device {
    if what == MAGNETIC_FIELD then MagneticFieldDevice
    else if what == ORIENTATION then OrientationDevice
    else AccelerometerDevice
  }

  /** Switches a logical sensor; the library is asked only when the device must change. */
  function Enable(d: Decoder, what: nat, en: bool, library: Library): (Decoder, int) {
    if en == (what in d.enabled) then (d, 0)
    else
      var device := DeviceOf(what);
      var shared := device == AccelerometerDevice && (if en then d.accRefCount > 0 else d.accRefCount > 1);
      var err := if shared then 0 else library(d.calls, en);
      var asked := if shared then d
        else d.(calls := d.calls + 1,
                on := if err != 0 then d.on else if en then d.on + {device} else d.on - {device});
      if err != 0 then (asked, err)
      else
        (asked.(accRefCount := if device != AccelerometerDevice then d.accRefCount
                               else if en then d.accRefCount + 1 else d.accRefCount - 1,
                enabled := if en then d.enabled + {what} else d.enabled - {what}), 0)
  }

  /** Conversion of a float to an int in C: towards zero. */
  function Truncate(r: real): int {
    if r >= 0.0 then r.Floor else -((-r).Floor)
  }

  /** A raw value in SI units. */
  function Convert(value: int, factor: real): real {
    value as real * factor
  }

  function Note(d: Decoder, what: nat, reading: Reading): Decoder
    requires WellFormed(d) && what < NUM_SENSORS
  {
    d.(pending := d.pending + {what}, readings := d.readings[what := reading])
  }

  function ProcessEvent(d: Decoder, code: int, value: int): (r: Decoder)
    requires WellFormed(d)
    ensures WellFormed(r)
  {
    var a, m, o := d.readings[ACCELEROMETER], d.readings[MAGNETIC_FIELD], d.readings[ORIENTATION];
    if code == ACCEL_X then Note(d, ACCELEROMETER, a.(x := Convert(value, CONVERT_A)))
    else if code == ACCEL_Y then Note(d, ACCELEROMETER, a.(y := Convert(value, -CONVERT_A)))
    else if code == ACCEL_Z then
      var z := Convert(value, -CONVERT_A);
      var diff := Truncate(d.motionValue as real - z);
      var d1 := Note(d, ACCELEROMETER, a.(z := z)).(motionValue := Truncate(z));
      if SIGNIFICANT_MOTION in d.enabled && (diff > 1 || diff < -1)
      then Note(d1, SIGNIFICANT_MOTION, d1.readings[SIGNIFICANT_MOTION].(x := 1.0))
      else d1
    else if code == MAGV_X then Note(d, MAGNETIC_FIELD, m.(x := Convert(value, CONVERT_M)))
    else if code == MAGV_Y then Note(d, MAGNETIC_FIELD, m.(y := Convert(value, -CONVERT_M)))
    else if code == MAGV_Z then Note(d, MAGNETIC_FIELD, m.(z := Convert(value, -CONVERT_M)))
    else if code == YAW then Note(d, ORIENTATION, o.(x := Convert(value, CONVERT_O)))
    else if code == PITCH then Note(d, ORIENTATION, o.(y := Convert(value, CONVERT_O)))
    else if code == ROLL then Note(d, ORIENTATION, o.(z := Convert(value, CONVERT_O)))
    else if code == ORIENT_STATUS then
      var status := value % 256;  // uint8_t of the low fifteen bits
      Note(d, ORIENTATION, o.(status := if status == 4 then 0 else status))
    else d
  }

  const ACCURACY_HIGH: int := 3

  /** What the constructor finds on the input device: the value an axis has, if it can be
      read, else the old one. */
  function Found(absInfo: int -> Option<int>, code: int, factor: real, old_: real): real {
    match absInfo(code) case Some(value) => Convert(value, factor) case None => old_
  }

  function InitialReadings(absInfo: int -> Option<int>, accelerometer: bool, magnetic: bool, orientation: bool): (readings: seq<Reading>)
    ensures |readings| == NUM_SENSORS
  {
    var zero := Reading(0.0, 0.0, 0.0, ACCURACY_HIGH);
    var a :=
      if !accelerometer then zero
      else Reading(Found(absInfo, ACCEL_X, CONVERT_A, 0.0), Found(absInfo, ACCEL_Y, -CONVERT_A, 0.0),
                   Found(absInfo, ACCEL_Z, -CONVERT_A, 0.0), ACCURACY_HIGH);
    var m :=
      if !magnetic then zero
      else Reading(Found(absInfo, MAGV_X, CONVERT_M, 0.0), Found(absInfo, MAGV_Y, -CONVERT_M, 0.0),
                   Found(absInfo, MAGV_Z, -CONVERT_M, 0.0), ACCURACY_HIGH);
    var o :=
      if !orientation then zero
      else Reading(Found(absInfo, YAW, 1.0, 0.0), Found(absInfo, PITCH, 1.0, 0.0), Found(absInfo, ROLL, -1.0, 0.0),
                   match absInfo(ORIENT_STATUS) case Some(value) => value % 256 case None => ACCURACY_HIGH);
    [a, m, o, Reading(0.0, 0.0, 0.0, 0)]
  }

  /** The start, with these devices reported on: their sensors are enabled, and none is
      counted. */
  function Start(absInfo: int -> Option<int>, accelerometer: bool, magnetic: bool, orientation: bool): (d: Decoder)
    ensures WellFormed(d)
  {
    var d := Decoder({}, {}, InitialReadings(absInfo, accelerometer, magnetic, orientation), 0, 0, {}, 0);
    var d1 := if !accelerometer then d else d.(enabled := d.enabled + {ACCELEROMETER}, on := d.on + {AccelerometerDevice});
    var d2 := if !magnetic then d1 else d1.(enabled := d1.enabled + {MAGNETIC_FIELD}, on := d1.on + {MagneticFieldDevice});
    if !orientation then d2 else d2.(enabled := d2.enabled + {ORIENTATION}, on := d2.on + {OrientationDevice})
  }

  // ---------------------------------------------------------------- delivery

  /** Takes one pending sensor off the mask; a delivered significant motion switches its
      sensor off. */
  function Deliver(d: Decoder, j: nat, library: Library): (r: Decoder)
    requires WellFormed(d)
    ensures WellFormed(r)
  {
    var d1 := d.(pending := d.pending - {j});
    if j in d.enabled && j == SIGNIFICANT_MOTION then Enable(d1, SIGNIFICANT_MOTION, false, library).0 else d1
  }

  function RecordsOf(d: Decoder, j: nat): (r: seq<Record>)
    requires WellFormed(d) && j < NUM_SENSORS
    ensures |r| <= 1
  {
    if j in d.pending && j in d.enabled then [Record(j, d.readings[j])] else []
  }

  /** The SYN loop from index `j` with room for `count` records. */
  function Syn(d: Decoder, j: nat, count: nat, library: Library): (r: (Decoder, seq<Record>))
    requires WellFormed(d) && j <= NUM_SENSORS
    ensures WellFormed(r.0) && |r.1| <= count
    decreases NUM_SENSORS - j
  {
    if count == 0 || d.pending == {} || j == NUM_SENSORS then (d, [])
    else if j !in d.pending then Syn(d, j + 1, count, library)
    else
      var records := RecordsOf(d, j);
      var rest := Syn(Deliver(d, j, library), j + 1, count - |records|, library);
      (rest.0, records + rest.1)
  }

  /** One round of the SYN loop. */
  lemma SynRound(d: Decoder, j: nat, count: nat, library: Library)
    requires WellFormed(d) && j <= NUM_SENSORS
    ensures count == 0 || d.pending == {} || j == NUM_SENSORS ==> Syn(d, j, count, library) == (d, [])
    ensures count != 0 && d.pending != {} && j < NUM_SENSORS && j !in d.pending ==>
      Syn(d, j, count, library) == Syn(d, j + 1, count, library)
    ensures count != 0 && j < NUM_SENSORS && j in d.pending ==>
      var rest := Syn(Deliver(d, j, library), j + 1, count - |RecordsOf(d, j)|, library);
      Syn(d, j, count, library) == (rest.0, RecordsOf(d, j) + rest.1)
  {
    hide Deliver, RecordsOf;
  }

  /** Nothing below `j` is pending. */
  predicate ClearBelow(d: Decoder, j: nat) {
    forall s :: s in d.pending ==> j <= s
  }

  lemma DeliverClears(d: Decoder, j: nat, library: Library)
    requires WellFormed(d) && j < NUM_SENSORS && ClearBelow(d, j)
    ensures ClearBelow(Deliver(d, j, library), j + 1)
  {
  }

  /** A SYN loop leaves something pending only when it has used up its room. */
  lemma {:induction false} SynFills(d: Decoder, j: nat, count: nat, library: Library)
    requires WellFormed(d) && j <= NUM_SENSORS && ClearBelow(d, j)
    ensures var (d1, out) := Syn(d, j, count, library);
      d1.pending != {} ==> |out| == count
    decreases NUM_SENSORS - j
  {
    hide Deliver, RecordsOf, Syn;
    SynRound(d, j, count, library);
    if count == 0 || d.pending == {} || j == NUM_SENSORS {
      assert j == NUM_SENSORS ==> d.pending == {};
    } else if j !in d.pending {
      SynFills(d, j + 1, count, library);
    } else {
      DeliverClears(d, j, library);
      SynFills(Deliver(d, j, library), j + 1, count - |RecordsOf(d, j)|, library);
    }
  }

  /** The body of the readEvents loop, for the oldest queued event; a SYN stays queued
      until everything it announces is delivered. */
  function DrainOne(d: Decoder, q: seq<InputEvent>, count: nat, library: Library)
    : (r: (Decoder, seq<InputEvent>, seq<Record>))
    requires WellFormed(d) && q != [] && count > 0
    ensures WellFormed(r.0) && |r.2| <= count
  {
    if q[0].evType == EV_REL then (ProcessEvent(d, q[0].code, q[0].value), q[1..], [])
    else if q[0].evType == EV_SYN then
      var s := Syn(d, 0, count, library);
      (s.0, if s.0.pending == {} then q[1..] else q, s.1)
    else (d, q[1..], [])
  }

  /** The loop of readEvents: decodes queued events while there is room. */
  function Drain(d: Decoder, q: seq<InputEvent>, count: nat, library: Library)
    : (r: (Decoder, seq<InputEvent>, seq<Record>))
    requires WellFormed(d)
    ensures WellFormed(r.0) && |r.2| <= count
    decreases |q|, count
  {
    if count == 0 || q == [] then (d, q, [])
    else
      var one := DrainOne(d, q, count, library);
      SynFills(d, 0, count, library);
      var rest := Drain(one.0, one.1, count - |one.2|, library);
      (rest.0, rest.1, one.2 + rest.2)
  }

  // ---------------------------------------------------------------- the simple interpreter

  /** A SYN delivers one record per enabled pending sensor, in index order. */
  function Announce(d: Decoder): seq<Record>
    requires WellFormed(d)
  {
    RecordsOf(d, ACCELEROMETER) + RecordsOf(d, MAGNETIC_FIELD) + RecordsOf(d, ORIENTATION)
    + RecordsOf(d, SIGNIFICANT_MOTION)
  }

  /** The state after a SYN: nothing pending, and significant motion off if it was told. */
  function Announced(d: Decoder, library: Library): Decoder {
    var d1 := d.(pending := {});
    if SIGNIFICANT_MOTION in d.pending && SIGNIFICANT_MOTION in d.enabled
    then Enable(d1, SIGNIFICANT_MOTION, false, library).0 else d1
  }

  function Interpret(d: Decoder, events: seq<InputEvent>, library: Library): (r: (Decoder, seq<Record>))
    requires WellFormed(d)
    ensures WellFormed(r.0)
    decreases |events|
  {
    if events == [] then (d, [])
    else if events[0].evType == EV_REL then
      Interpret(ProcessEvent(d, events[0].code, events[0].value), events[1..], library)
    else if events[0].evType == EV_SYN then
      var rest := Interpret(Announced(d, library), events[1..], library);
      (rest.0, Announce(d) + rest.1)
    else Interpret(d, events[1..], library)
  }

  // ---------------------------------------------------------------- runs of the driver

  /** The sensor object: decoder, queued events, capacity of the queue. */
  datatype Sensor = Sensor(decoder: Decoder, queue: seq<InputEvent>, capacity: nat)

  datatype Op = Switch(handle: int, en: bool) | Read(count: nat, result: ReadResult<InputEvent>)

  /** What a read adds to the queue: nothing without room, and only whole reads count. */
  function Filled(s: Sensor, result: ReadResult<InputEvent>): seq<InputEvent> {
    if result.Whole? && |s.queue| < s.capacity then result.events else []
  }

  /** A read that fails ends the call before anything is decoded. */
  predicate Fails(s: Sensor, result: ReadResult<InputEvent>) {
    !result.Whole? && |s.queue| < s.capacity
  }

  function ReadEvents(s: Sensor, count: nat, result: ReadResult<InputEvent>, library: Library)
    : (r: (Sensor, seq<Record>))
    requires WellFormed(s.decoder)
    ensures WellFormed(r.0.decoder)
  {
    if count == 0 || Fails(s, result) then (s, [])
    else
      var r := Drain(s.decoder, s.queue + Filled(s, result), count, library);
      (s.(decoder := r.0, queue := r.1), r.2)
  }

  function SwitchSensor(s: Sensor, handle: int, en: bool, library: Library): (Sensor, int) {
    match HandleToSensor(handle)
    case None => (s, -EINVAL)
    case Some(what) =>
      var r := Enable(s.decoder, what, en, library);
      (s.(decoder := r.0), r.1)
  }

  function Step(s: Sensor, op: Op, library: Library): (r: (Sensor, seq<Record>))
    requires WellFormed(s.decoder)
    ensures WellFormed(r.0.decoder)
  {
    match op
    case Switch(handle, en) => (SwitchSensor(s, handle, en, library).0, [])
    case Read(count, result) => ReadEvents(s, count, result, library)
  }

  function Run(s: Sensor, ops: seq<Op>, library: Library): (r: (Sensor, seq<Record>))
    requires WellFormed(s.decoder)
    ensures WellFormed(r.0.decoder)
    decreases |ops|
  {
    if ops == [] then (s, [])
    else
      var first := Step(s, ops[0], library);
      var rest := Run(first.0, ops[1..], library);
      (rest.0, first.1 + rest.1)
  }

  /** Every event the reads of a run put on the queue. */
  function Stream(s: Sensor, ops: seq<Op>, library: Library): seq<InputEvent>
    requires WellFormed(s.decoder)
    decreases |ops|
  {
    if ops == [] then []
    else
      (if ops[0].Read? && ops[0].count > 0 then Filled(s, ops[0].result) else [])
      + Stream(Step(s, ops[0], library).0, ops[1..], library)
  }
}
