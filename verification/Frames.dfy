// Length-prefixed messages over a pipe: gps/libloc_api_50001/loc_eng_dmn_conn_glue_msg.c.
// The size field is a 32-bit size_t, least significant byte first.
module Frames {
  import opened Wrappers

  newtype Byte = x: int | 0 <= x < 256

  const HEADER: nat := 4
  const LIMIT: nat := 0x1_0000_0000

  function EncodeSize(n: nat): (b: seq<Byte>)
    requires n < LIMIT
    ensures |b| == HEADER
  {
    [(n % 256) as Byte, (n / 256 % 256) as Byte, (n / 0x1_0000 % 256) as Byte, (n / 0x100_0000 % 256) as Byte]
  }

  function DecodeSize(b: seq<Byte>): (n: nat)
    requires |b| == HEADER
    ensures n < LIMIT
  {
    b[0] as nat + 256 * b[1] as nat + 0x1_0000 * b[2] as nat + 0x100_0000 * b[3] as nat
  }

  lemma SizeRoundTrip(n: nat)
    requires n < LIMIT
    ensures DecodeSize(EncodeSize(n)) == n
  {
    assert n == n % 256 + 256 * (n / 256);
    assert n / 256 == n / 256 % 256 + 256 * (n / 0x1_0000) by {
      assert n / 0x1_0000 == n / 256 / 256;
    }
    assert n / 0x1_0000 == n / 0x1_0000 % 256 + 256 * (n / 0x100_0000) by {
      assert n / 0x100_0000 == n / 0x1_0000 / 256;
    }
    assert n / 0x100_0000 % 256 == n / 0x100_0000;
  }

  /** A message as it travels: its own size in front, over whatever stood there. */
  function Stamp(m: seq<Byte>): (f: seq<Byte>)
    requires HEADER <= |m| < LIMIT
    ensures |f| == |m|
  {
    EncodeSize(|m|) + m[HEADER..]
  }

  predicate Sendable(messages: seq<seq<Byte>>) {
    forall i :: 0 <= i < |messages| ==> HEADER <= |messages[i]| < LIMIT
  }

  function Stream(messages: seq<seq<Byte>>): seq<Byte>
    requires Sendable(messages)
  {
    if messages == [] then [] else Stamp(messages[0]) + Stream(messages[1..])
  }

  class Pipe {
    var bytes: seq<Byte>

    constructor ()
      ensures bytes == []
    {
      bytes := [];
    }

    /** write(): takes some of the bytes, or fails with a negative result. */
    method Write(data: seq<Byte>, result: int) returns (n: int)
      requires result <= |data|
      modifies this
      ensures n == result
      ensures bytes == old(bytes) + data[..if result < 0 then 0 else result]
    {
      bytes := bytes + data[..if result < 0 then 0 else result];
      n := result;
    }

    /** read(): as much as is asked for, or all there is. */
    method Read(size: nat) returns (data: seq<Byte>)
      modifies this
      ensures data == old(bytes)[..if size <= |old(bytes)| then size else |old(bytes)|]
      ensures bytes == old(bytes)[|data|..]
    {
      var n := if size <= |bytes| then size else |bytes|;
      data := bytes[..n];
      bytes := bytes[n..];
    }
  }

  /** Sends the first `size` bytes of the buffer, stamped with their number; `result` is
      what the write gives. */
  method MessageSend(pipe: Pipe, message: array<Byte>, size: nat, result: int) returns (n: int)
    requires HEADER <= message.Length && size <= message.Length && size < LIMIT && result <= size
    modifies pipe, message
    ensures message[..HEADER] == EncodeSize(size) && message[HEADER..] == old(message[HEADER..])
    ensures n == if result == size then size else -1
    ensures size >= HEADER ==>
      pipe.bytes == old(pipe.bytes) + Stamp(old(message[..size]))[..if result < 0 then 0 else result]
  {
    var header := EncodeSize(size);
    forall i | 0 <= i < HEADER {
      message[i] := header[i];
    }
    assert size >= HEADER ==> message[..size] == Stamp(old(message[..size]));
    var written := pipe.Write(message[..size], result);
    assert message[..size][..size] == message[..size];
    assert size >= HEADER ==> Stamp(old(message[..size]))[..size] == Stamp(old(message[..size]));
    if written != size {
      return -1;
    }
    return written;
  }

  /** What msgrcv makes of a pipe: the message and the rest, or the rest after a failure. */
  function Receive(bytes: seq<Byte>, bufferSize: nat): (Option<seq<Byte>>, seq<Byte>)
  {
    if |bytes| < HEADER then (None, [])
    else
      var size := DecodeSize(bytes[..HEADER]);
      if bufferSize < size then (None, bytes[HEADER..])
      else if size < HEADER || |bytes| < size then (None, [])
      else (Some(bytes[..size]), bytes[size..])
  }

  /** A message is received exactly if its header is there, its size covers the header, and
      it fits the buffer and is all there; then it comes off as it is and the rest stays. A
      message that is too big leaves all but its header; any other failure leaves nothing. */
  lemma ReceivedIff(bytes: seq<Byte>, bufferSize: nat)
    requires |bytes| >= HEADER
    ensures var size := bytes[0] as nat + 256 * bytes[1] as nat + 0x1_0000 * bytes[2] as nat + 0x100_0000 * bytes[3] as nat;
      var (message, rest) := Receive(bytes, bufferSize);
      && (message.Some? <==> 4 <= size <= bufferSize && size <= |bytes|)
      && (message.Some? ==> message.value == bytes[..size] && rest == bytes[size..])
      && (message == None ==> rest == if size > bufferSize then bytes[4..] else [])
  {
  }

  /** How many bytes the second read asks for: a size_t, so a size below that of its own
      field wraps around. */
  function BodyRequest(size: nat): (n: nat)
    requires size < LIMIT
    ensures n < LIMIT
  {
    if size >= HEADER then size - HEADER else LIMIT + size - HEADER
  }

  /** That read stays within a buffer that passed the size check exactly if the size is at
      least that of its own field. */
  lemma BodyFitsIff(size: nat, bufferSize: nat)
    requires size <= bufferSize < LIMIT
    ensures HEADER + BodyRequest(size) <= bufferSize <==> size >= HEADER
  {
  }

  /** Receives one message into the buffer. A message on the pipe with a size below that of
      its own field must not be followed by more than the buffer holds. */
  method MessageReceive(pipe: Pipe, buffer: array<Byte>, bufferSize: nat) returns (n: int)
    requires HEADER <= buffer.Length < LIMIT && bufferSize <= buffer.Length
    requires |pipe.bytes| >= HEADER && DecodeSize(pipe.bytes[..HEADER]) < HEADER ==> |pipe.bytes| <= buffer.Length
    modifies pipe, buffer
    ensures var (message, rest) := Receive(old(pipe.bytes), bufferSize);
      && pipe.bytes == rest
      && (message == None ==> n == -1)
      && (message.Some? ==> n == |message.value| <= buffer.Length && buffer[..n] == message.value)
      && (message.Some? ==> buffer[n..] == old(buffer[n..]))
  {
    var header := pipe.Read(HEADER);
    forall i | 0 <= i < |header| {
      buffer[i] := header[i];
    }
    if |header| != HEADER {
      return -1;
    }
    var size := DecodeSize(header);
    if bufferSize < size {
      return -1;
    }
    var body := pipe.Read(BodyRequest(size));
    forall i | 0 <= i < |body| {
      buffer[HEADER + i] := body[i];
    }
    if |body| != size - HEADER {
      return -1;
    }
    assert old(pipe.bytes)[..size] == header + body;
    return size;
  }

  // ---------------------------------------------------------------- round trip

  /** Receiving `count` messages one after the other. */
  function ReceiveAll(bytes: seq<Byte>, bufferSize: nat, count: nat): (seq<Option<seq<Byte>>>, seq<Byte>)
    decreases count
  {
    if count == 0 then ([], bytes)
    else
      var (message, rest) := Receive(bytes, bufferSize);
      var (messages, end) := ReceiveAll(rest, bufferSize, count - 1);
      ([message] + messages, end)
  }

  function Stamped(messages: seq<seq<Byte>>): seq<Option<seq<Byte>>>
    requires Sendable(messages)
  {
    if messages == [] then [] else [Some(Stamp(messages[0]))] + Stamped(messages[1..])
  }

  /** The first message of a stream comes off whole, and what is left is the stream of the
      others, exactly if the buffer is big enough (or there is only a header to take). */
  lemma FirstReceived(messages: seq<seq<Byte>>, bufferSize: nat)
    requires messages != [] && Sendable(messages)
    ensures Receive(Stream(messages), bufferSize).0 ==
      if |messages[0]| <= bufferSize then Some(Stamp(messages[0])) else None
    ensures Receive(Stream(messages), bufferSize).1 == Stream(messages[1..])
      <==> |messages[0]| <= bufferSize || |messages[0]| == HEADER
  {
    var m, bytes, rest := messages[0], Stream(messages), Stream(messages[1..]);
    SizeRoundTrip(|m|);
    assert bytes[..HEADER] == EncodeSize(|m|);
    assert bytes[..|m|] == Stamp(m) && bytes[|m|..] == rest;
    assert |bytes[HEADER..]| == |m| - HEADER + |rest|;
  }

  /** Sending messages and receiving as many gives the same messages, byte for byte apart
      from the size field, and leaves the pipe on a message boundary after each. */
  lemma {:induction false} RoundTrip(messages: seq<seq<Byte>>, count: nat, bufferSize: nat)
    requires count <= |messages|
    requires Sendable(messages) && forall i :: 0 <= i < |messages| ==> |messages[i]| <= bufferSize
    ensures ReceiveAll(Stream(messages), bufferSize, count) == (Stamped(messages[..count]), Stream(messages[count..]))
  {
    if count > 0 {
      FirstReceived(messages, bufferSize);
      RoundTrip(messages[1..], count - 1, bufferSize);
      assert messages[..count][1..] == messages[1..][..count - 1];
      assert messages[1..][count - 1..] == messages[count..];
    } else {
      assert messages[0..] == messages;
    }
  }
}
