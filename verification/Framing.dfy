// Reading whole Diameter messages off a byte stream that arrives in pieces of
// any size (lab/ims_hss.py, _read_exact and _frame_read).
module Framing {
  import opened Diameter
  import opened Text

  function Flatten(chunks: seq<bytes>): bytes {
    if chunks == [] then [] else chunks[0] + Flatten(chunks[1..])
  }

  // A connected socket: the peer's octets, cut the way the network delivers them.
  class ChunkedSocket {
    var chunks: seq<bytes>

    ghost predicate Valid()
      reads this
    {
      forall i :: 0 <= i < |chunks| ==> chunks[i] != []
    }

    ghost function Pending(): bytes
      reads this
    {
      Flatten(chunks)
    }

    constructor (deliveries: seq<bytes>)
      requires forall i :: 0 <= i < |deliveries| ==> deliveries[i] != []
      ensures Valid() && Pending() == Flatten(deliveries)
    {
      chunks := deliveries;
    }

    // At most `limit` octets of the next delivery; none once the peer has closed.
    method Recv(limit: nat) returns (chunk: bytes)
      requires Valid() && limit > 0
      modifies this
      ensures Valid() && old(Pending()) == chunk + Pending()
      ensures |chunk| <= limit
      ensures chunk == [] ==> old(Pending()) == []
    {
      if chunks == [] { return []; }
      var first := chunks[0];
      if |first| <= limit {
        chunk, chunks := first, chunks[1..];
      } else {
        chunk, chunks := first[..limit], [first[limit..]] + chunks[1..];
        assert chunks[1..] == old(chunks)[1..];
        assert first == chunk + first[limit..];
        assert chunk + (first[limit..] + Flatten(chunks[1..])) == first + Flatten(chunks[1..]);
      }
    }
  }

  method ReadExact(sock: ChunkedSocket, length: nat) returns (r: Result<bytes>)
    requires sock.Valid()
    modifies sock
    ensures sock.Valid()
    ensures length <= |old(sock.Pending())| ==>
      r == Ok(old(sock.Pending())[..length]) && sock.Pending() == old(sock.Pending())[length..]
    ensures length > |old(sock.Pending())| ==> r == Err("Diameter peer closed") && sock.Pending() == []
  {
    var result: bytes := [];
    while |result| < length
      invariant sock.Valid() && |result| <= length
      invariant old(sock.Pending()) == result + sock.Pending()
    {
      var chunk := sock.Recv(length - |result|);
      if chunk == [] { return Err("Diameter peer closed"); }
      assert result + (chunk + sock.Pending()) == (result + chunk) + sock.Pending();
      result := result + chunk;
    }
    return Ok(result);
  }

  // The first message on a stream and what follows it.
  datatype Frame = Frame(message: bytes, rest: bytes)

  function FrameOf(stream: bytes): Result<Frame> {
    if |stream| < 20 then Err("Diameter peer closed")
    else
      var length := ReadU24(stream[1..4]);
      if length < 20 || length > MAX_DIAMETER then Err("invalid Diameter frame length")
      else if |stream| < length then Err("Diameter peer closed")
      else Ok(Frame(stream[..length], stream[length..]))
  }

  // What is read depends on the octets alone, never on how they were delivered,
  // and no octet past the message is taken.
  method FrameRead(sock: ChunkedSocket) returns (r: Result<bytes>)
    requires sock.Valid()
    modifies sock
    ensures sock.Valid()
    ensures var frame := FrameOf(old(sock.Pending()));
      if frame.Err? then r == Err(frame.error)
      else r == Ok(frame.value.message) && sock.Pending() == frame.value.rest
  {
    ghost var stream := sock.Pending();
    var header := ReadExact(sock, 20);
    if header.Err? { return header; }
    assert stream[..20][1..4] == stream[1..4];
    var length := ReadU24(header.value[1..4]);
    if length < 20 || length > MAX_DIAMETER { return Err("invalid Diameter frame length"); }
    var body := ReadExact(sock, length - 20);
    if body.Err? { return body; }
    assert stream[..20] + stream[20..][..length - 20] == stream[..length];
    assert stream[20..][length - 20..] == stream[length..];
    return Ok(header.value + body.value);
  }

  // Every message up to the first one that cannot be read.
  function AllFrames(stream: bytes): seq<bytes>
    decreases |stream|
  {
    var first := FrameOf(stream);
    if first.Err? then [] else [first.value.message] + AllFrames(first.value.rest)
  }

  // The connection loop: read messages until one cannot be read.
  method ReadAllFrames(sock: ChunkedSocket) returns (frames: seq<bytes>)
    requires sock.Valid()
    modifies sock
    ensures frames == AllFrames(old(sock.Pending()))
  {
    frames := [];
    while true
      invariant sock.Valid()
      invariant AllFrames(old(sock.Pending())) == frames + AllFrames(sock.Pending())
      decreases |sock.Pending()|
    {
      ghost var rest := AllFrames(sock.Pending());
      var frame := FrameRead(sock);
      if frame.Err? {
        assert frames + [] == frames;
        return;
      }
      assert frames + ([frame.value] + AllFrames(sock.Pending())) == (frames + [frame.value]) + AllFrames(sock.Pending());
      frames := frames + [frame.value];
    }
  }

  predicate WellFramed(message: bytes) {
    20 <= |message| <= MAX_DIAMETER && ReadU24(message[1..4]) == |message|
  }

  lemma BuiltIsWellFramed(flags: byte, command: int, application: int, hopByHop: int, endToEnd: int, body: bytes)
    requires BuildMessage(flags, command, application, hopByHop, endToEnd, body).Ok?
    ensures WellFramed(BuildMessage(flags, command, application, hopByHop, endToEnd, body).value)
  {
    var raw := BuildMessage(flags, command, application, hopByHop, endToEnd, body).value;
    assert raw[1..4] == U24(20 + |body|);
    U24RoundTrip(20 + |body|);
  }

  // Whatever the deliveries, a stream of well-formed messages is read back as
  // exactly those messages, in order.
  lemma {:induction false} FramesOfMessages(messages: seq<bytes>, tail: bytes)
    requires forall m :: m in messages ==> WellFramed(m)
    ensures AllFrames(Flatten(messages) + tail) == messages + AllFrames(tail)
  {
    hide FrameOf, AllFrames, WellFramed;
    if messages == [] {
      assert Flatten(messages) + tail == tail;
      assert messages + AllFrames(tail) == AllFrames(tail);
    } else {
      var first, rest := messages[0], Flatten(messages[1..]) + tail;
      assert first in messages;
      assert Flatten(messages) + tail == first + rest;
      FirstFrame(first, rest);
      FramesOfMessages(messages[1..], tail);
      assert messages == [first] + messages[1..];
      assert [first] + (messages[1..] + AllFrames(tail)) == messages + AllFrames(tail);
    }
  }

  lemma FirstFrame(message: bytes, rest: bytes)
    requires WellFramed(message)
    ensures FrameOf(message + rest) == Ok(Frame(message, rest))
    ensures AllFrames(message + rest) == [message] + AllFrames(rest)
  {
    var stream := message + rest;
    assert stream[1..4] == message[1..4];
    assert stream[..|message|] == message && stream[|message|..] == rest;
  }
}
