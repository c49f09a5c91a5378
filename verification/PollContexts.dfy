// sensors_poll_context_t as an object over driver objects, its poll descriptors and the
// caller's array, proved to follow module Polls call by call.
module PollContexts {
  import opened Outputs
  import opened Seqs
  import opened Wrappers
  import opened P = Polls

  class Driver<E> {
    const device: Device<E>
    var given: nat
    var calls: nat
    var asked: nat

    ghost function Value(): Progress
      reads this
    {
      Progress(given, calls, asked)
    }

    constructor (device: Device<E>)
      ensures this.device == device && Value() == Progress(0, 0, 0)
    {
      this.device := device;
      given, calls, asked := 0, 0, 0;
    }

    method HasPendingEvents() returns (r: bool)
      modifies this`asked
      ensures r == device.waiting(old(asked)) && asked == old(asked) + 1
    {
      r := device.waiting(asked);
      asked := asked + 1;
    }

    method ReadEvents(data: array<E>, at: nat, count: nat) returns (nb: nat)
      requires at + count <= data.Length
      modifies this`given, this`calls, data
      ensures var r := Give(device, old(Value()), count);
        Value() == r.0 && nb == |r.1| && Written(data[..], old(data[..]), at, r.1)
    {
      var has := device.atHand(calls);
      nb := if has < count then has else count;
      forall i | 0 <= i < nb {
        data[at + i] := device.records(given + i);
      }
      given, calls := given + nb, calls + 1;
    }
  }

  class PollContext<E> {
    const sensors: seq<Driver<E>>
    const revents: array<bool>  // POLLIN, by descriptor

    static ghost predicate Apart(sensors: seq<Driver<E>>) {
      forall i, j :: 0 <= i < j < |sensors| ==> sensors[i] != sensors[j]
    }

    ghost predicate Valid() {
      |sensors| == NUM_DRIVERS && Apart(sensors) && revents.Length == NUM_FDS
    }

    ghost function Devices(): (devices: seq<Device<E>>)
      ensures |devices| == |sensors| && forall i :: 0 <= i < |sensors| ==> devices[i] == sensors[i].device
    {
      seq(|sensors|, i requires 0 <= i < |sensors| => sensors[i].device)
    }

    ghost function Progresses(): (ps: seq<Progress>)
      reads sensors
      ensures |ps| == |sensors| && forall i :: 0 <= i < |sensors| ==> ps[i] == sensors[i].Value()
    {
      seq(|sensors|, i requires 0 <= i < |sensors| reads sensors => sensors[i].Value())
    }

    ghost function Value(): (c: Context)
      requires Valid()
      reads sensors, revents
      ensures Fits(Devices(), c)
    {
      Context(Progresses(), revents[..])
    }

    constructor (sensors: seq<Driver<E>>)
      requires |sensors| == NUM_DRIVERS && Apart(sensors)
      ensures Valid() && fresh(revents) && this.sensors == sensors
      ensures Value() == Context(Progresses(), seq(NUM_FDS, _ => false))
    {
      this.sensors := sensors;
      revents := new bool[NUM_FDS](_ => false);
    }

    /** One driver's turn. */
    method Ask(i: nat, data: array<E>, at: nat, count: nat) returns (nb: nat)
      requires Valid() && i < NUM_DRIVERS && at + count <= data.Length && data as object != revents
      modifies sensors, data
      ensures var t := Turn(Devices()[i], old(Progresses()[i]), revents[i], count);
        && nb == |t.1|
        && Progresses() == old(Progresses())[i := t.0]
        && Written(data[..], old(data[..]), at, t.1)
    {
      hide Written, Next;
      nb := 0;
      var sensor := sensors[i];
      ghost var was := data[..];
      var pending := revents[i];
      if !pending {
        pending := sensor.HasPendingEvents();
      }
      if pending {
        nb := sensor.ReadEvents(data, at, count);
      } else {
        WrittenNothing(was, at);
      }
    }

    /** The body of the loop over the drivers. */
    method ReadSensor(i: nat, data: array<E>, at: nat, count: nat) returns (nb: nat)
      requires Valid() && i < NUM_DRIVERS && data as object != revents && at + count <= data.Length
      modifies sensors, revents, data
      ensures var t := TurnOf(Devices(), old(Value()), i, count);
        Value() == t.0 && nb == |t.1| && Written(data[..], old(data[..]), at, t.1)
    {
      hide Written, Turn, Progresses, Apart;
      nb := Ask(i, data, at, count);
      if nb < count {
        // no more data for this sensor
        revents[i] := false;
      }
    }

    /** One round over the drivers, as far as there is room. */
    method ReadSensors(data: array<E>, at: nat, count: nat) returns (nb: nat)
      requires Valid() && data as object != revents && at + count <= data.Length
      modifies sensors, revents, data
      ensures var r := Round(Devices(), old(Value()), 0, count);
        Value() == r.context && nb == |r.out| && Written(data[..], old(data[..]), at, r.out)
    {
      hide Written, TurnOf, Round, Valid, Value, Devices;
      nb := 0;
      var i := 0;
      ghost var whole, out, was := Round(Devices(), Value(), 0, count), [], data[..];
      WrittenNothing(was, at);
      assert [] + whole.out == whole.out;
      while count - nb != 0 && i < NUM_DRIVERS
        invariant 0 <= i <= NUM_DRIVERS && nb == |out| <= count
        invariant whole.context == Round(Devices(), Value(), i, count - nb).context
        invariant whole.out == out + Round(Devices(), Value(), i, count - nb).out
        invariant Written(data[..], was, at, out)
      {
        RoundTurn(Devices(), Value(), i, count - nb);
        ghost var now, t := data[..], TurnOf(Devices(), Value(), i, count - nb);
        ghost var rest := Round(Devices(), t.0, i + 1, count - nb - |t.1|);
        Regroup(out, t.1, rest.out);
        var m := ReadSensor(i, data, at + nb, count - nb);
        WrittenMore(now, was, at, out, data[..], t.1);
        out := out + t.1;
        nb := nb + m;
        i := i + 1;
      }
      RoundTurn(Devices(), Value(), i, count - nb);
      assert out + [] == out;
    }

    /** A round that writes on after `out`. */
    method ReadMore(data: array<E>, at: nat, count: nat, ghost was: seq<E>, ghost out: seq<E>) returns (nb: nat)
      requires Valid() && data as object != revents && at == |out| && at + count <= data.Length
      requires Written(data[..], was, 0, out)
      modifies sensors, revents, data
      ensures var r := Round(Devices(), old(Value()), 0, count);
        Value() == r.context && nb == |r.out| && Written(data[..], was, 0, out + r.out)
    {
      hide Written, Round, Valid, Value, Devices;
      ghost var now, r := data[..], Round(Devices(), Value(), 0, count);
      nb := ReadSensors(data, at, count);
      WrittenMore(now, was, 0, out, data[..], r.out);
    }

    /** Takes over the flags that poll() reports and reads the wake pipe. */
    method TakeFlags(flags: seq<bool>)
      requires Valid() && |flags| == NUM_FDS
      modifies revents
      ensures Value() == old(Value()).(flags := flags[WAKE := false])
    {
      forall i | 0 <= i < NUM_FDS {
        revents[i] := flags[i];
      }
      if revents[WAKE] {
        revents[WAKE] := false;
      }
    }

    /** What a call of poll() comes to: the end of pollEvents, or how many are ready. */
    method Wait(timeout: int, answer: Answer) returns (end: Option<Outcome>, n: nat)
      requires Valid() && (answer.Ready? ==> |answer.flags| == NUM_FDS)
      modifies revents
      ensures answer.Failed? ==> end == Some(PollError(answer.errno)) && Value() == old(Value())
      ensures answer.Ready? ==>
        var none := true !in answer.flags;
        && (n > 0 <==> !none)
        && end == (if none && timeout < 0 then Some(Blocked) else None)
        && Value() == if none && timeout < 0 then old(Value()) else old(Value()).(flags := answer.flags[WAKE := false])
    {
      end, n := None, 0;
      match answer {
        case Failed(errno) => return Some(PollError(errno)), 0;
        case Ready(flags) =>
          n := Count(flags);
          if n == 0 && timeout < 0 {
            // without a timeout poll() waits until something is ready
            return Some(Blocked), 0;
          }
          TakeFlags(flags);
      }
    }

    /** pollEvents, when `polls` is what poll() will answer; `called` is how poll() was
        called. */
    method PollEvents(data: array<E>, count: nat, polls: seq<Answer>)
      returns (outcome: Outcome, ghost called: seq<Call>)
      requires Valid() && data as object != revents && count <= data.Length && Readable(polls)
      modifies sensors, revents, data
      ensures var r := P.PollEvents(Devices(), old(Value()), 0, count, polls);
        && outcome == r.outcome && called == r.calls && Value() == r.context
        && Written(data[..], old(data[..]), 0, r.out)
    {
      hide Written, Round, P.PollEvents, Valid, Value, Devices, Continues, Count;
      var nbEvents, n, k, more := 0, 0, 0, true;
      called := [];
      ghost var whole, out, was := P.PollEvents(Devices(), Value(), 0, count, polls), [], data[..];
      WrittenNothing(was, 0);
      ContinuesAll(whole);
      assert polls[0..] == polls;
      while more
        invariant nbEvents == |out| <= count && 0 <= k <= |polls|
        invariant Written(data[..], was, 0, out)
        invariant more ==> Continues(whole, out, called, P.PollEvents(Devices(), Value(), nbEvents, count - nbEvents, polls[k..]))
        invariant !more ==> Is(whole, Returned(nbEvents), Value(), out, called)
        decreases |polls| - k, more
      {
        RoundOn(whole, out, called, Devices(), Value(), nbEvents, count - nbEvents, polls, k);
        ghost var more' := Round(Devices(), Value(), 0, count - nbEvents).out;
        var nb := ReadMore(data, nbEvents, count - nbEvents, was, out);
        out := out + more';
        nbEvents := nbEvents + nb;
        if count - nbEvents != 0 {
          if k == |polls| {
            return Blocked, called;
          }
          var timeout := if nbEvents != 0 then 0 else -1;
          called := called + [Call(timeout, polls[k])];
          var end;
          end, n := Wait(timeout, polls[k]);
          if end.Some? {
            return end.value, called;
          }
          k := k + 1;
        }
        more := n != 0 && count - nbEvents != 0;
      }
      outcome := Returned(nbEvents);
    }
  }
}
