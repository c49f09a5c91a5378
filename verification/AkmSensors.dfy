// AkmSensor as an object: the decoder's fields, its ring, and the caller's output array,
// proved to follow module Akm call by call.
module AkmSensors {
  import opened Akm
  import opened InputEvents
  import opened Outputs
  import opened Rings
  import opened Seqs
  import opened Wrappers
  import P = AkmProofs

  class AkmSensor {
    const inputReader: InputEventCircularReader<InputEvent>
    const library: Library
    var enabled: set<nat>
    var pendingMask: set<nat>
    var pendingEvents: seq<Reading>
    var motionValue: int
    var accRefCount: int
    var on: set<Device>  // the AKM library's side
    var calls: nat

    ghost function Decoded(): Decoder
      reads this
    {
      Decoder(enabled, pendingMask, pendingEvents, motionValue, accRefCount, on, calls)
    }

    ghost predicate Valid()
      reads this, inputReader
    {
      inputReader.Valid() && WellFormed(Decoded())
    }

    /** The driver as a value. */
    ghost function Value(): Sensor
      requires inputReader.Valid()
      reads this, inputReader, inputReader.buffer
    {
      Sensor(Decoded(), inputReader.Queue(), inputReader.capacity)
    }

    /** A start with some devices on already, of whose values `absInfo` tells what the input
        device says. */
    constructor (library: Library, absInfo: int -> Option<int>, accelerometer: bool, magnetic: bool, orientation: bool)
      ensures Valid() && fresh(inputReader) && fresh(inputReader.buffer) && this.library == library
      ensures inputReader.capacity == 32 && Value().queue == []
      ensures Decoded() == Start(absInfo, accelerometer, magnetic, orientation)
    {
      inputReader := new InputEventCircularReader<InputEvent>(32);
      this.library := library;
      pendingMask := {};
      motionValue, accRefCount, calls := 0, 0, 0;

      // accuracies are high unless the device says otherwise
      var high := Reading(0.0, 0.0, 0.0, ACCURACY_HIGH);
      var a, m, o := high, high, high;
      var sensors: set<nat>, devices: set<Device> := {}, {};
      if accelerometer {
        sensors, devices := sensors + {ACCELEROMETER}, devices + {AccelerometerDevice};
        a := Reading(Found(absInfo, ACCEL_X, CONVERT_A, a.x), Found(absInfo, ACCEL_Y, -CONVERT_A, a.y),
                     Found(absInfo, ACCEL_Z, -CONVERT_A, a.z), a.status);
      }
      if magnetic {
        sensors, devices := sensors + {MAGNETIC_FIELD}, devices + {MagneticFieldDevice};
        m := Reading(Found(absInfo, MAGV_X, CONVERT_M, m.x), Found(absInfo, MAGV_Y, -CONVERT_M, m.y),
                     Found(absInfo, MAGV_Z, -CONVERT_M, m.z), m.status);
      }
      if orientation {
        sensors, devices := sensors + {ORIENTATION}, devices + {OrientationDevice};
        var status := absInfo(ORIENT_STATUS);
        o := Reading(Found(absInfo, YAW, 1.0, o.x), Found(absInfo, PITCH, 1.0, o.y), Found(absInfo, ROLL, -1.0, o.z),
                     if status.Some? then status.value % 256 else o.status);
      }
      enabled, on := sensors, devices;
      pendingEvents := [a, m, o, Reading(0.0, 0.0, 0.0, 0)];
    }

    /** akm_enable_sensor and akm_disable_sensor. */
    method CallLibrary(device: Device, en: bool) returns (err: int)
      modifies this`on, this`calls
      ensures err == library(old(calls), en) && calls == old(calls) + 1
      ensures on == if err != 0 then old(on) else if en then old(on) + {device} else old(on) - {device}
    {
      err := library(calls, en);
      calls := calls + 1;
      if err == 0 {
        on := if en then on + {device} else on - {device};
      }
    }

    method EnableSensor(what: nat, en: bool) returns (err: int)
      requires what < NUM_SENSORS
      modifies this
      ensures (Decoded(), err) == Enable(old(Decoded()), what, en, library)
    {
      err := 0;
      if en != (what in enabled) {
        var device := DeviceOf(what);
        if en {
          if !(device == AccelerometerDevice && accRefCount > 0) {
            err := CallLibrary(device, en);
          }
        } else {
          if !(device == AccelerometerDevice && accRefCount > 1) {
            err := CallLibrary(device, en);
          }
        }
        if err == 0 {
          if device == AccelerometerDevice {
            accRefCount := if en then accRefCount + 1 else accRefCount - 1;
          }
          enabled := if en then enabled + {what} else enabled - {what};
        }
      }
    }

    method EnableHandle(handle: int, en: bool) returns (err: int)
      requires Valid()
      modifies this
      ensures Valid()
      ensures (Value(), err) == SwitchSensor(old(Value()), handle, en, library)
    {
      match HandleToSensor(handle)
      case None => return -EINVAL;
      case Some(what) => err := EnableSensor(what, en);
    }

    method NoteReading(what: nat, reading: Reading)
      requires WellFormed(Decoded()) && what < NUM_SENSORS
      modifies this`pendingMask, this`pendingEvents
      ensures Decoded() == Note(old(Decoded()), what, reading)
    {
      pendingMask := pendingMask + {what};
      pendingEvents := pendingEvents[what := reading];
    }

    method ProcessInput(code: int, value: int)
      requires WellFormed(Decoded())
      modifies this`pendingMask, this`pendingEvents, this`motionValue
      ensures Decoded() == ProcessEvent(old(Decoded()), code, value)
    {
      var a, m, o := pendingEvents[ACCELEROMETER], pendingEvents[MAGNETIC_FIELD], pendingEvents[ORIENTATION];
      if code == ACCEL_X {
        NoteReading(ACCELEROMETER, a.(x := Convert(value, CONVERT_A)));
      } else if code == ACCEL_Y {
        NoteReading(ACCELEROMETER, a.(y := Convert(value, -CONVERT_A)));
      } else if code == ACCEL_Z {
        var z := Convert(value, -CONVERT_A);
        NoteReading(ACCELEROMETER, a.(z := z));
        var diff := Truncate(motionValue as real - z);
        motionValue := Truncate(z);
        if SIGNIFICANT_MOTION in enabled && (diff > 1 || diff < -1) {
          NoteReading(SIGNIFICANT_MOTION, pendingEvents[SIGNIFICANT_MOTION].(x := 1.0));
        }
      } else if code == MAGV_X {
        NoteReading(MAGNETIC_FIELD, m.(x := Convert(value, CONVERT_M)));
      } else if code == MAGV_Y {
        NoteReading(MAGNETIC_FIELD, m.(y := Convert(value, -CONVERT_M)));
      } else if code == MAGV_Z {
        NoteReading(MAGNETIC_FIELD, m.(z := Convert(value, -CONVERT_M)));
      } else if code == YAW {
        NoteReading(ORIENTATION, o.(x := Convert(value, CONVERT_O)));
      } else if code == PITCH {
        NoteReading(ORIENTATION, o.(y := Convert(value, CONVERT_O)));
      } else if code == ROLL {
        NoteReading(ORIENTATION, o.(z := Convert(value, CONVERT_O)));
      } else if code == ORIENT_STATUS {
        var status := value % 256;
        NoteReading(ORIENTATION, o.(status := if status == 4 then 0 else status));
      }
    }

    /** One pending sensor at a SYN: off the mask, and into `data[at]` if it is enabled. */
    method DeliverOne(data: array<Record>, at: nat, j: nat) returns (n: nat)
      requires WellFormed(Decoded()) && j < NUM_SENSORS && j in pendingMask && at < data.Length
      modifies this, data
      ensures Decoded() == Deliver(old(Decoded()), j, library)
      ensures n == |RecordsOf(old(Decoded()), j)|
      ensures Written(data[..], old(data[..]), at, RecordsOf(old(Decoded()), j))
    {
      pendingMask := pendingMask - {j};
      n := 0;
      if j in enabled {
        data[at] := Record(j, pendingEvents[j]);
        n := 1;
        if j == SIGNIFICANT_MOTION {
          var err := EnableSensor(SIGNIFICANT_MOTION, false);
        }
      }
    }

    /** The loop over the sensors at a SYN, from index `first`: writes records from
        `data[base]` on while there is room for `count`. */
    method DeliverPending(data: array<Record>, base: nat, count: nat, first: nat) returns (n: nat)
      requires WellFormed(Decoded()) && base + count <= data.Length && first <= NUM_SENSORS
      modifies this, data
      ensures Decoded() == Syn(old(Decoded()), first, count, library).0
      ensures n == |Syn(old(Decoded()), first, count, library).1|
      ensures Written(data[..], old(data[..]), base, Syn(old(Decoded()), first, count, library).1)
    {
      hide Deliver, RecordsOf, Written, Syn;
      n := 0;
      ghost var whole, out, was := Syn(Decoded(), first, count, library), [], data[..];
      WrittenNothing(was, base);
      var j := first;
      assert [] + whole.1 == whole.1;
      while count - n != 0 && pendingMask != {} && j < NUM_SENSORS
        invariant 0 <= j <= NUM_SENSORS && n == |out| <= count && WellFormed(Decoded())
        invariant whole.0 == Syn(Decoded(), j, count - n, library).0
        invariant whole.1 == out + Syn(Decoded(), j, count - n, library).1
        invariant Written(data[..], was, base, out)
        decreases NUM_SENSORS - j
      {
        SynRound(Decoded(), j, count - n, library);
        if j in pendingMask {
          ghost var more, now := RecordsOf(Decoded(), j), data[..];
          Regroup(out, more, Syn(Deliver(Decoded(), j, library), j + 1, count - n - |more|, library).1);
          var m := DeliverOne(data, base + n, j);
          WrittenMore(now, was, base, out, data[..], more);
          out := out + more;
          n := n + m;
        }
        j := j + 1;
      }
      SynRound(Decoded(), j, count - n, library);
      assert out + [] == out;
    }

    /** The body of that loop, for the oldest queued event. */
    method DecodeOne(data: array<Record>, base: nat, count: nat, event: InputEvent) returns (n: nat)
      requires Valid() && data as object != inputReader.buffer && base + count <= data.Length
      requires count > 0 && inputReader.Queue() != [] && event == inputReader.Queue()[0]
      modifies this, inputReader`curr, inputReader`freeSpace, data
      ensures Valid()
      ensures var r := DrainOne(old(Decoded()), old(inputReader.Queue()), count, library);
        && Decoded() == r.0
        && inputReader.Queue() == r.1
        && n == |r.2|
        && Written(data[..], old(data[..]), base, r.2)
    {
      hide Syn, ProcessEvent;
      n := 0;
      if event.evType == EV_REL {
        ProcessInput(event.code, event.value);
        inputReader.Next();
      } else if event.evType == EV_SYN {
        n := DeliverPending(data, base, count, 0);
        if pendingMask == {} {
          inputReader.Next();
        }
      } else {
        inputReader.Next();
      }
    }

    /** The loop of readEvents. */
    method Decode(data: array<Record>, base: nat, count: nat) returns (n: nat)
      requires Valid() && data as object != inputReader.buffer && base + count <= data.Length
      modifies this, inputReader`curr, inputReader`freeSpace, data
      ensures Valid()
      ensures var r := Drain(old(Decoded()), old(inputReader.Queue()), count, library);
        && Decoded() == r.0
        && inputReader.Queue() == r.1
        && n == |r.2|
        && Written(data[..], old(data[..]), base, r.2)
    {
      hide Drain, DrainOne, Written;
      n := 0;
      ghost var whole, out, was := Drain(Decoded(), inputReader.Queue(), count, library), [], data[..];
      WrittenNothing(was, base);
      assert [] + whole.2 == whole.2;
      while count - n != 0
        invariant Valid() && n == |out| <= count
        invariant whole.0 == Drain(Decoded(), inputReader.Queue(), count - n, library).0
        invariant whole.1 == Drain(Decoded(), inputReader.Queue(), count - n, library).1
        invariant whole.2 == out + Drain(Decoded(), inputReader.Queue(), count - n, library).2
        invariant Written(data[..], was, base, out)
        decreases |inputReader.Queue()|, count - n
      {
        var event := inputReader.ReadEvent();
        if event.None? {
          break;
        }
        ghost var now, one := data[..], DrainOne(Decoded(), inputReader.Queue(), count - n, library);
        P.DrainRound(Decoded(), inputReader.Queue(), count - n, library);
        var m := DecodeOne(data, base + n, count - n, event.value);
        WrittenMore(now, was, base, out, data[..], one.2);
        Regroup(out, one.2, Drain(Decoded(), inputReader.Queue(), count - n - m, library).2);
        out := out + one.2;
        n := n + m;
      }
      P.DrainRound(Decoded(), inputReader.Queue(), count - n, library);
      assert out + [] == out;
    }

    /** readEvents: reads what the device has, decodes what is queued, and writes at most
        `count` records from `data[base]` on. */
    method ReadSensor(data: array<Record>, base: nat, count: int, result: ReadResult<InputEvent>) returns (n: int)
      requires Valid() && data as object != inputReader.buffer && base + (if count < 0 then 0 else count) <= data.Length
      requires match result
        case Failed(errno) => errno > 0
        case Whole(events) => |events| <= inputReader.freeSpace
        case Torn(events, _) => inputReader.freeSpace > 0 ==> |events| < inputReader.freeSpace
      modifies this, inputReader`head, inputReader`curr, inputReader`freeSpace, inputReader.buffer, data
      ensures Valid()
      ensures count < 1 ==> n == -EINVAL && Value() == old(Value()) && data[..] == old(data[..])
      ensures count >= 1 && Fails(old(Value()), result) ==>
        n == ErrorOf(result) && Value() == old(Value()) && data[..] == old(data[..])
      ensures count >= 1 && !Fails(old(Value()), result) ==>
        var r := ReadEvents(old(Value()), count, result, library);
        && Value() == r.0
        && n == |r.1|
        && Written(data[..], old(data[..]), base, r.1)
    {
      if count < 1 {
        return -EINVAL;
      }
      var filled := inputReader.Fill(result);
      if filled < 0 {
        return filled;
      }
      assert inputReader.Queue() == old(inputReader.Queue()) + Filled(old(Value()), result);
      n := Decode(data, base, count);
    }
  }
}
