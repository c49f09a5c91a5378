// LightSensor::readEvents (libsensors/LightSensor.cpp): one record per SYN, carrying the
// latest brightness, decoded from a ring of four events.
module Lights {
  import opened InputEvents
  import opened Outputs
  import opened Rings
  import opened Wrappers

  const EVENT_TYPE_LIGHT := 0x28  // ABS_MISC

  const ADC_VALUES: seq<int> := [360, 798, 1240, 1673, 3000]
  const LUX_VALUES: seq<int> := [7, 70, 1000, 10000, 16000]

  /** The driver's index, a 32-bit int, as a size_t: a negative one is huge. */
  function Unsigned(index: int): (u: int)
    ensures index < 0 ==> u >= 0x8000_0000
    ensures -0x8000_0000 <= index < 0 ==> u == index + 0x1_0000_0000
  {
    if index < 0 then 0xFFFF_FFFF - (-1 - index) % 0x8000_0000 else index
  }

  /** The driver's light levels in lux. */
  function IndexToValue(index: int): int {
    if index < 0 then 16000
    else if index < 360 then 7
    else if index < 798 then 70
    else if index < 1240 then 1000
    else if index < 1673 then 10000
    else 16000
  }

  /** Row `i` of the table is the first above the index, or the last one. */
  predicate IsRow(index: int, i: nat)
    requires i < 5
  {
    (i < 4 ==> Unsigned(index) < ADC_VALUES[i]) && forall j :: 0 <= j < i ==> Unsigned(index) >= ADC_VALUES[j]
  }

  lemma RowLevel(index: int, i: nat)
    requires i < 5 && IsRow(index, i)
    ensures IndexToValue(index) == LUX_VALUES[i]
  {
    assert i > 0 ==> Unsigned(index) >= ADC_VALUES[0];
    assert i > 1 ==> Unsigned(index) >= ADC_VALUES[1];
    assert i > 2 ==> Unsigned(index) >= ADC_VALUES[2];
    assert i > 3 ==> Unsigned(index) >= ADC_VALUES[3];
  }

  /** The level of the first row of the table above the index, or of the last row. */
  method LookUp(index: int) returns (lux: int)
    ensures lux == IndexToValue(index)
    ensures exists i :: 0 <= i < 5 && IsRow(index, i) && lux == LUX_VALUES[i]
  {
    var i := 0;
    while i < |ADC_VALUES|
      invariant 0 <= i <= 5
      invariant forall j :: 0 <= j < i ==> Unsigned(index) >= ADC_VALUES[j]
    {
      if Unsigned(index) < ADC_VALUES[i] {
        assert IsRow(index, i);
        RowLevel(index, i);
        return LUX_VALUES[i];
      }
      i := i + 1;
    }
    assert IsRow(index, 4);
    RowLevel(index, 4);
    return LUX_VALUES[|ADC_VALUES| - 1];
  }

  function Levelled(lux: int, e: InputEvent): int {
    if e.evType == EV_ABS && e.code == EVENT_TYPE_LIGHT && e.value != -1 then IndexToValue(e.value) else lux
  }

  function After(lux: int, events: seq<InputEvent>): int {
    if events == [] then lux else Levelled(After(lux, events[..|events| - 1]), events[|events| - 1])
  }

  function ToldBy(enabled: bool, lux: int, e: InputEvent): (out: seq<int>)
    ensures |out| <= 1
  {
    if enabled && e.evType == EV_SYN then [lux] else []
  }

  /** What the stream tells: at each SYN the level so far, if the sensor is enabled. */
  function Told(enabled: bool, lux: int, events: seq<InputEvent>): seq<int> {
    if events == [] then []
    else
      var was := events[..|events| - 1];
      Told(enabled, lux, was) + ToldBy(enabled, After(lux, was), events[|events| - 1])
  }

  datatype Light = Light(enabled: bool, lux: int, queue: seq<InputEvent>)

  /** One call with room for `count` records, before which `arrived` came in: it decodes
      the oldest events, stopping early only right after the record that fills it. */
  predicate Decodes(s: Light, count: nat, arrived: seq<InputEvent>, s': Light, out: seq<int>) {
    var all := s.queue + arrived;
    var k := |all| - |s'.queue|;
    && k >= 0
    && s'.queue == all[k..]
    && s'.enabled == s.enabled
    && s'.lux == After(s.lux, all[..k])
    && out == Told(s.enabled, s.lux, all[..k])
    && |out| <= count
    && (|out| < count ==> s'.queue == [])
    && (|out| == count ==> k > 0 && all[k - 1].evType == EV_SYN)
  }

  // ---------------------------------------------------------------- the driver

  lemma NothingYet(enabled: bool, lux: int)
    ensures After(lux, []) == lux && Told(enabled, lux, []) == []
  {
  }

  lemma OneMore(enabled: bool, lux: int, all: seq<InputEvent>, k: nat)
    requires k < |all|
    ensures After(lux, all[..k + 1]) == Levelled(After(lux, all[..k]), all[k])
    ensures Told(enabled, lux, all[..k + 1]) == Told(enabled, lux, all[..k]) + ToldBy(enabled, After(lux, all[..k]), all[k])
  {
    assert all[..k + 1][..k] == all[..k];
  }

  lemma ShortMeansEmpty(s: Light, count: nat, arrived: seq<InputEvent>, s': Light, out: seq<int>)
    requires Decodes(s, count, arrived, s', out)
    ensures |out| <= count && (|out| < count ==> s'.queue == [])
  {
  }

  lemma Stopped(s: Light, count: nat, k: nat, s': Light, out: seq<int>)
    requires k <= |s.queue| && s' == Light(s.enabled, After(s.lux, s.queue[..k]), s.queue[k..])
    requires out == Told(s.enabled, s.lux, s.queue[..k]) && |out| <= count
    requires if |out| == count then k > 0 && s.queue[k - 1].evType == EV_SYN else s'.queue == []
    ensures Decodes(s, count, [], s', out)
  {
    hide After, Told;
    assert s.queue + [] == s.queue;
  }

  /** Decoding after the ring took in what arrived. */
  lemma Refilled(s: Light, count: nat, arrived: seq<InputEvent>, s1: Light, s2: Light, out: seq<int>)
    requires s1 == s.(queue := s.queue + arrived) && Decodes(s1, count, [], s2, out)
    ensures Decodes(s, count, arrived, s2, out)
  {
    assert s1.queue + [] == s1.queue;
  }

  class LightSensor {
    const inputReader: InputEventCircularReader<InputEvent>
    var enabled: bool
    var lux: int

    ghost predicate Valid()
      reads this, inputReader
    {
      inputReader.Valid()
    }

    ghost function Value(): Light
      requires Valid()
      reads this, inputReader, inputReader.buffer
    {
      Light(enabled, lux, inputReader.Queue())
    }

    constructor (enabled: bool)
      ensures Valid() && fresh(inputReader) && fresh(inputReader.buffer)
      ensures inputReader.capacity == 4 && Value() == Light(enabled, 0, [])
    {
      inputReader := new InputEventCircularReader<InputEvent>(4);
      this.enabled, lux := enabled, 0;
    }

    method PutRecord(data: array<int>, at: nat, value: int)
      requires at < data.Length
      modifies data
      ensures Written(data[..], old(data[..]), at, [value])
    {
      data[at] := value;
    }

    /** The body of that loop, for the oldest queued event. */
    method DecodeOne(data: array<int>, at: nat, event: InputEvent) returns (n: nat)
      requires Valid() && data as object != inputReader.buffer && at < data.Length
      requires inputReader.Queue() != [] && event == inputReader.Queue()[0]
      modifies this`lux, data, inputReader`curr, inputReader`freeSpace
      ensures Valid() && inputReader.Queue() == old(inputReader.Queue())[1..]
      ensures lux == Levelled(old(lux), event)
      ensures n == |ToldBy(enabled, old(lux), event)| && (n > 0 ==> event.evType == EV_SYN)
      ensures Written(data[..], old(data[..]), at, ToldBy(enabled, old(lux), event))
    {
      n := 0;
      if event.evType == EV_ABS {
        if event.code == EVENT_TYPE_LIGHT && event.value != -1 {
          lux := LookUp(event.value);
        }
      } else if event.evType == EV_SYN {
        if enabled {
          PutRecord(data, at, lux);
          n := 1;
        }
      }
      inputReader.Next();
    }

    /** The loop of readEvents. */
    method Decode(data: array<int>, base: nat, count: nat) returns (n: nat, ghost out: seq<int>)
      requires Valid() && data as object != inputReader.buffer && count > 0 && base + count <= data.Length
      modifies this`lux, data, inputReader`curr, inputReader`freeSpace
      ensures Valid() && n == |out|
      ensures Decodes(old(Value()), count, [], Value(), out)
      ensures Written(data[..], old(data[..]), base, out)
    {
      hide After, Told, Levelled, ToldBy, Written, Decodes;
      ghost var all, k, was, before := inputReader.Queue(), 0, lux, data[..];
      n, out := 0, [];
      NothingYet(enabled, lux);
      WrittenNothing(before, base);
      while count - n != 0
        invariant Valid() && n == |out| <= count && 0 <= k <= |all|
        invariant inputReader.Queue() == all[k..]
        invariant lux == After(was, all[..k]) && out == Told(enabled, was, all[..k])
        invariant Written(data[..], before, base, out)
        invariant n == count ==> k > 0 && all[k - 1].evType == EV_SYN
        decreases |all| - k
      {
        var event := inputReader.ReadEvent();
        if event.None? {
          break;
        }
        OneMore(enabled, was, all, k);
        ghost var now, more := data[..], ToldBy(enabled, lux, all[k]);
        var m := DecodeOne(data, base + n, event.value);
        WrittenMore(now, before, base, out, data[..], more);
        out := out + more;
        n := n + m;
        k := k + 1;
      }
      Stopped(old(Value()), count, k, Value(), out);
    }

    /** readEvents: writes at most `count` records from `data[base]` on. A call that gives
        fewer than it was asked for leaves nothing queued. */
    method ReadLight(data: array<int>, base: nat, count: int, result: ReadResult<InputEvent>) returns (n: int)
      requires Valid() && data as object != inputReader.buffer && base + (if count < 0 then 0 else count) <= data.Length
      requires match result
        case Failed(errno) => errno > 0
        case Whole(events) => |events| <= inputReader.freeSpace
        case Torn(events, _) => inputReader.freeSpace > 0 ==> |events| < inputReader.freeSpace
      modifies this`lux, data, inputReader`head, inputReader`curr, inputReader`freeSpace, inputReader.buffer
      ensures Valid()
      ensures count < 1 ==> n == -EINVAL
      ensures count >= 1 && old(inputReader.freeSpace) > 0 && !result.Whole? ==> n == ErrorOf(result)
      ensures n < 0 ==> Value() == old(Value()) && data[..] == old(data[..])
      ensures count >= 1 && (old(inputReader.freeSpace) == 0 || result.Whole?) ==>
        && 0 <= n <= count
        && (n < count ==> inputReader.Queue() == [])
        && exists out ::
          && n == |out|
          && Decodes(old(Value()), count, if old(inputReader.freeSpace) > 0 then result.events else [], Value(), out)
          && Written(data[..], old(data[..]), base, out)
    {
      hide Decodes, Written;
      if count < 1 {
        return -EINVAL;
      }
      n := inputReader.Fill(result);
      if n < 0 {
        return;
      }
      ghost var s := Value();
      assert s.queue == old(inputReader.Queue()) + if old(inputReader.freeSpace) > 0 then result.events else [];
      ghost var out;
      n, out := Decode(data, base, count);
      Refilled(old(Value()), count, if old(inputReader.freeSpace) > 0 then result.events else [], s, Value(), out);
      ShortMeansEmpty(old(Value()), count, if old(inputReader.freeSpace) > 0 then result.events else [], Value(), out);
    }
  }

  // ---------------------------------------------------------------- many calls

  lemma {:induction false} Resumes(enabled: bool, lux: int, a: seq<InputEvent>, b: seq<InputEvent>)
    ensures After(lux, a + b) == After(After(lux, a), b)
    ensures Told(enabled, lux, a + b) == Told(enabled, lux, a) + Told(enabled, After(lux, a), b)
    decreases |b|
  {
    if b == [] {
      assert a + b == a;
    } else {
      var n := |b| - 1;
      Resumes(enabled, lux, a, b[..n]);
      assert (a + b)[..|a| + n] == a + b[..n];
    }
  }

  datatype Call = Call(count: nat, arrived: seq<InputEvent>, after: Light, out: seq<int>)

  predicate History(s: Light, calls: seq<Call>)
    decreases |calls|
  {
    calls == [] ||
    (Decodes(s, calls[0].count, calls[0].arrived, calls[0].after, calls[0].out) && History(calls[0].after, calls[1..]))
  }

  function Arrived(calls: seq<Call>): seq<InputEvent> {
    if calls == [] then [] else calls[0].arrived + Arrived(calls[1..])
  }

  function Out(calls: seq<Call>): seq<int> {
    if calls == [] then [] else calls[0].out + Out(calls[1..])
  }

  function Last(s: Light, calls: seq<Call>): Light
    decreases |calls|
  {
    if calls == [] then s else Last(calls[0].after, calls[1..])
  }

  /** One call delivers the beginning of what the stream tells. */
  lemma CallResumes(s: Light, count: nat, arrived: seq<InputEvent>, s': Light, out: seq<int>, more: seq<InputEvent>)
    requires Decodes(s, count, arrived, s', out)
    ensures s'.enabled == s.enabled
    ensures Told(s.enabled, s.lux, s.queue + arrived + more) == out + Told(s.enabled, s'.lux, s'.queue + more)
  {
    hide Told, After;
    var all := s.queue + arrived;
    var k := |all| - |s'.queue|;
    assert all + more == all[..k] + (s'.queue + more);
    Resumes(s.enabled, s.lux, all[..k], s'.queue + more);
  }

  /** Whatever the calls' sizes, what they deliver is what the stream tells, up to what is
      still queued. */
  lemma {:induction false} ChunkingIndependent(s: Light, calls: seq<Call>)
    requires History(s, calls)
    ensures Told(s.enabled, s.lux, s.queue + Arrived(calls))
         == Out(calls) + Told(s.enabled, Last(s, calls).lux, Last(s, calls).queue)
    decreases |calls|
  {
    hide Told, After, Decodes;
    if calls == [] {
      assert s.queue + [] == s.queue && [] + Told(s.enabled, s.lux, s.queue) == Told(s.enabled, s.lux, s.queue);
    } else {
      var c := calls[0];
      var rest := Arrived(calls[1..]);
      ChunkingIndependent(c.after, calls[1..]);
      CallResumes(s, c.count, c.arrived, c.after, c.out, rest);
      assert s.queue + (c.arrived + rest) == s.queue + c.arrived + rest;
    }
  }

  lemma {:induction false} DisabledTellsNothing(lux: int, events: seq<InputEvent>)
    ensures Told(false, lux, events) == []
  {
    if events != [] {
      DisabledTellsNothing(lux, events[..|events| - 1]);
    }
  }

  /** A call's result is settled by what came in and by the room it had. */
  lemma {:induction false} OneOutcome(s: Light, count: nat, arrived: seq<InputEvent>, s1: Light, out1: seq<int>, s2: Light, out2: seq<int>)
    requires Decodes(s, count, arrived, s1, out1) && Decodes(s, count, arrived, s2, out2)
    requires count > 0
    ensures s1 == s2 && out1 == out2
    decreases if |s1.queue| > |s2.queue| then 1 else 0
  {
    hide Told, After;
    if |s1.queue| > |s2.queue| {
      OneOutcome(s, count, arrived, s2, out2, s1, out1);
      return;
    }
    var all := s.queue + arrived;
    var k1, k2 := |all| - |s1.queue|, |all| - |s2.queue|;
    if k2 < k1 {
      Resumes(s.enabled, s.lux, all[..k2], all[k2..k1 - 1]);
      assert all[..k1 - 1] == all[..k2] + all[k2..k1 - 1];
      OneMore(s.enabled, s.lux, all, k1 - 1);
      DisabledTellsNothing(s.lux, all[..k2]);
      assert false;
    }
  }

  // ---------------------------------------------------------------- what is told

  /** The last brightness the stream brought, if any. */
  function LastLevel(events: seq<InputEvent>, old_: int): int {
    if events == [] then old_
    else
      var e := events[|events| - 1];
      if e.evType == 3 && e.code == 40 && e.value != -1 then IndexToValue(e.value)
      else LastLevel(events[..|events| - 1], old_)
  }

  lemma {:induction false} LastLevelIs(lux: int, events: seq<InputEvent>)
    ensures After(lux, events) == LastLevel(events, lux)
  {
    if events != [] {
      LastLevelIs(lux, events[..|events| - 1]);
    }
  }

  /** An event adds a record exactly if it is a SYN and the sensor is enabled; the record is
      the last brightness before it. */
  lemma RecordAtSyn(enabled: bool, lux: int, before: seq<InputEvent>, e: InputEvent)
    ensures Told(enabled, lux, before + [e]) == Told(enabled, lux, before)
      + if enabled && e.evType == 0 then [LastLevel(before, lux)] else []
  {
    LastLevelIs(lux, before);
    assert (before + [e])[..|before|] == before;
  }
}
