/** The wire protocol of core/proto/proto.go: `[4-byte length][1-byte type][payload]` requests and
    `[4-byte length][payload]` responses on a byte stream. */
module Frames {
  import opened Bytes
  import opened Messages

  /** A request after gob encoding. */
  datatype Request = Request(msgType: int, payload: Bytes)

  datatype FrameError =
    | EndOfStream       // the stream ended inside the frame
    | BadPayload        // gob rejected the payload
    | EmptyFrame        // frame[0] of a zero-length frame: a run-time panic in the source
  datatype Read<+T> = Got(value: T, rest: Bytes) | Bad(error: FrameError)

  /** What `WriteRequest` writes: length and type are truncated to their fields. */
  function RequestFrame(r: Request): Bytes {
    Put32(1 + |r.payload|) + [r.msgType % 256] + r.payload
  }

  /** What `WriteFrame` writes. */
  function ResponseFrame(payload: Bytes): Bytes {
    Put32(|payload|) + payload
  }

  /** The length prefix and body that both readers start with. */
  function ReadBody(stream: Bytes): Read<Bytes> {
    if |stream| < 4 then Bad(EndOfStream)
    else
      var n := GetUint32(stream[..4]);
      if |stream| < 4 + n then Bad(EndOfStream) else Got(stream[4..4 + n], stream[4 + n..])
  }

  /** `ReadFrame`. */
  function ReadRequest(stream: Bytes): Read<Request> {
    match ReadBody(stream)
    case Bad(e) => Bad(e)
    case Got(frame, rest) =>
      if frame == [] then Bad(EmptyFrame) else Got(Request(frame[0], frame[1..]), rest)
  }

  /** `ReadResponse`: the payload decoded by gob. */
  function ReadDecoded<R>(decode: Bytes -> Option<R>, stream: Bytes): Read<R> {
    match ReadBody(stream)
    case Bad(e) => Bad(e)
    case Got(payload, rest) =>
      match decode(payload)
      case None => Bad(BadPayload)
      case Some(v) => Got(v, rest)
  }

  /** One direction of a connection. */
  class Conn {
    var bytes: Bytes

    constructor ()
      ensures bytes == []
    {
      bytes := [];
    }

    method Write(data: Bytes)
      modifies this
      ensures bytes == old(bytes) + data
    {
      bytes := bytes + data;
    }

    /** `io.ReadFull`: all of `n` bytes, or failure with the stream used up. */
    method ReadFull(n: nat) returns (r: Option<Bytes>)
      modifies this
      ensures n <= |old(bytes)| ==> r == Some(old(bytes)[..n]) && bytes == old(bytes)[n..]
      ensures n > |old(bytes)| ==> r == None && bytes == []
    {
      if n > |bytes| {
        bytes := [];
        return None;
      }
      r := Some(bytes[..n]);
      bytes := bytes[n..];
    }

    method WriteRequest(r: Request)
      modifies this
      ensures bytes == old(bytes) + RequestFrame(r)
    {
      var buf := Put32(1 + |r.payload|);
      buf := buf + [r.msgType % 256];
      buf := buf + r.payload;
      Write(buf);
    }

    method WriteFrame(payload: Bytes)
      modifies this
      ensures bytes == old(bytes) + ResponseFrame(payload)
    {
      Write(Put32(|payload|));
      Write(payload);
    }

    method ReadFrame() returns (r: Read<Request>)
      modifies this
      ensures r == ReadRequest(old(bytes))
      ensures r.Got? ==> bytes == r.rest
    {
      var prefix := ReadFull(4);
      if prefix.None? {
        return Bad(EndOfStream);
      }
      var n := GetUint32(prefix.value);
      var frame := ReadFull(n);
      ghost var all := old(bytes);
      assert 4 + n <= |all| ==> all[4..][..n] == all[4..4 + n] && all[4..][n..] == all[4 + n..];
      if frame.None? {
        return Bad(EndOfStream);
      }
      if frame.value == [] {
        return Bad(EmptyFrame);
      }
      return Got(Request(frame.value[0], frame.value[1..]), bytes);
    }

    method ReadResponse<R>(decode: Bytes -> Option<R>) returns (r: Read<R>)
      modifies this
      ensures r == ReadDecoded(decode, old(bytes))
      ensures r.Got? ==> bytes == r.rest
    {
      var prefix := ReadFull(4);
      if prefix.None? {
        return Bad(EndOfStream);
      }
      var n := GetUint32(prefix.value);
      var frame := ReadFull(n);
      ghost var all := old(bytes);
      assert 4 + n <= |all| ==> all[4..][..n] == all[4..4 + n] && all[4..][n..] == all[4 + n..];
      if frame.None? {
        return Bad(EndOfStream);
      }
      var v := decode(frame.value);
      if v.None? {
        return Bad(BadPayload);
      }
      return Got(v.value, bytes);
    }

    /** The read loop of a connection handler: frames until the first failure, which is the end of the
        stream or the panic of an empty frame. */
    method ReadAllFrames() returns (requests: seq<Request>, end: FrameError)
      modifies this
      ensures requests == Frames(old(bytes)) && end == FramesEnd(old(bytes))
    {
      requests := [];
      while true
        invariant Frames(old(bytes)) == requests + Frames(bytes)
        invariant FramesEnd(old(bytes)) == FramesEnd(bytes)
        decreases |bytes|
      {
        ghost var before := bytes;
        ReadShortens(before);
        var r := ReadFrame();
        if r.Bad? {
          return requests, r.error;
        }
        requests := requests + [r.value];
      }
    }
  }

  lemma ReadShortens(stream: Bytes)
    ensures ReadRequest(stream).Got? ==> |ReadRequest(stream).rest| < |stream|
  {
  }

  /** The requests a reader takes off a stream. */
  function Frames(stream: Bytes): seq<Request>
    decreases |stream|
  {
    ReadShortens(stream);
    var r := ReadRequest(stream);
    if r.Bad? then [] else [r.value] + Frames(r.rest)
  }

  /** Why it stops. */
  function FramesEnd(stream: Bytes): FrameError
    decreases |stream|
  {
    ReadShortens(stream);
    var r := ReadRequest(stream);
    if r.Bad? then r.error else FramesEnd(r.rest)
  }

  /** What is left on the stream after them. */
  function Leftover(stream: Bytes): Bytes
    decreases |stream|
  {
    ReadShortens(stream);
    var r := ReadRequest(stream);
    if r.Bad? then stream else Leftover(r.rest)
  }

  /** The bytes a writer puts on it. */
  function Written(requests: seq<Request>): Bytes {
    if requests == [] then [] else RequestFrame(requests[0]) + Written(requests[1..])
  }

  /** The type fits its byte and the length its field. */
  predicate Encodable(r: Request) {
    0 <= r.msgType < 256 && 1 + |r.payload| < TWO_32
  }

  lemma BodyReads(header: Bytes, body: Bytes, rest: Bytes)
    requires |header| == 4 && GetUint32(header) == |body|
    ensures ReadBody(header + body + rest) == Got(body, rest)
  {
    var stream := header + body + rest;
    assert stream[..4] == header;
    assert stream[4..4 + |body|] == body;
    assert stream[4 + |body|..] == rest;
  }

  lemma BodyPrefix(header: Bytes, body: Bytes, k: nat)
    requires |header| == 4 && GetUint32(header) == |body| && k < 4 + |body|
    ensures ReadBody((header + body)[..k]) == Bad(EndOfStream)
  {
    if k >= 4 {
      assert (header + body)[..k][..4] == header;
    }
  }

  lemma RequestReads(r: Request, rest: Bytes)
    requires 1 + |r.payload| < TWO_32
    ensures ReadRequest(RequestFrame(r) + rest) == Got(Request(r.msgType % 256, r.payload), rest)
  {
    var header, body := Put32(1 + |r.payload|), [r.msgType % 256] + r.payload;
    Uint32RoundTrip(1 + |r.payload|);
    BodyReads(header, body, rest);
    assert RequestFrame(r) + rest == header + body + rest;
    assert body[1..] == r.payload;
  }

  /** A request on the wire, byte by byte: a big-endian length that counts the type byte, the type, the
      payload. A response has no type byte. */
  lemma FrameLayout(r: Request, payload: Bytes)
    requires 1 + |r.payload| < TWO_32 && |payload| < TWO_32
    ensures |RequestFrame(r)| == 5 + |r.payload| && FromBigEndian(RequestFrame(r)[..4]) == 1 + |r.payload|
    ensures RequestFrame(r)[4] == r.msgType % 256 && RequestFrame(r)[5..] == r.payload
    ensures FromBigEndian(ResponseFrame(payload)[..4]) == |payload| && ResponseFrame(payload)[4..] == payload
  {
    Uint32RoundTrip(1 + |r.payload|);
    Uint32RoundTrip(|payload|);
    assert RequestFrame(r)[..4] == Put32(1 + |r.payload|) && ResponseFrame(payload)[..4] == Put32(|payload|);
  }

  /** A request survives the wire iff its type fits a byte and its length the length field. */
  lemma RequestRoundTripIff(r: Request, rest: Bytes)
    ensures ReadRequest(RequestFrame(r) + rest) == Got(r, rest) <==> Encodable(r)
  {
    if 1 + |r.payload| < TWO_32 {
      RequestReads(r, rest);
    } else {
      LongRequestCut(r, rest);
    }
  }

  lemma LongRequestCut(r: Request, rest: Bytes)
    requires 1 + |r.payload| >= TWO_32
    ensures ReadRequest(RequestFrame(r) + rest) != Got(r, rest)
  {
    var stream, n := RequestFrame(r) + rest, (1 + |r.payload|) % TWO_32;
    assert stream[..4] == Put32(1 + |r.payload|);
    Uint32RoundTrip(1 + |r.payload|);
    assert ReadBody(stream) == Got(stream[4..4 + n], stream[4 + n..]);
    assert |stream[4..4 + n]| == n < TWO_32;
  }

  /** Reading the concatenated frames of any list of encodable requests returns the same list and
      consumes every byte. */
  lemma {:induction false} StreamRoundTrip(requests: seq<Request>)
    requires forall r :: r in requests ==> Encodable(r)
    ensures Frames(Written(requests)) == requests && Leftover(Written(requests)) == []
  {
    if requests == [] {
      NothingRead(Written(requests));
    } else {
      var r, tail := requests[0], requests[1..];
      assert requests == [r] + tail;
      assert Encodable(r);
      StreamRoundTrip(tail);
      StreamCons(r, tail);
    }
  }

  /** No proper prefix of a frame decodes as a frame: a reader waits or fails, but never returns a
      request early. */
  lemma NoPrefixDecodes(r: Request, k: nat)
    requires 1 + |r.payload| < TWO_32 && k < |RequestFrame(r)|
    ensures ReadRequest(RequestFrame(r)[..k]) == Bad(EndOfStream)
  {
    var header, body := Put32(1 + |r.payload|), [r.msgType % 256] + r.payload;
    Uint32RoundTrip(1 + |r.payload|);
    assert RequestFrame(r) == header + body;
    BodyPrefix(header, body, k);
  }

  function FrameLength(r: Request): nat {
    5 + |r.payload|
  }

  /** How many whole frames the first k bytes hold. */
  function WholeFrames(requests: seq<Request>, k: int): (n: nat)
    ensures n <= |requests|
  {
    if requests == [] || k < FrameLength(requests[0]) then 0
    else 1 + WholeFrames(requests[1..], k - FrameLength(requests[0]))
  }

  /** A stream cut anywhere yields exactly the requests whose frames arrived whole, and never makes the
      reader panic. */
  lemma {:induction false} CutStream(requests: seq<Request>, k: nat)
    requires forall r :: r in requests ==> Encodable(r)
    requires k <= |Written(requests)|
    ensures Frames(Written(requests)[..k]) == requests[..WholeFrames(requests, k)]
    ensures FramesEnd(Written(requests)[..k]) == EndOfStream
  {
    if requests == [] {
      NothingRead(Written(requests)[..k]);
    } else {
      var r, tail := requests[0], requests[1..];
      assert requests == [r] + tail;
      assert Encodable(r);
      CutCons(r, tail, k);
      if k >= FrameLength(r) {
        CutStream(tail, k - FrameLength(r));
      }
    }
  }

  lemma CutCons(r: Request, tail: seq<Request>, k: nat)
    requires Encodable(r) && k <= |Written([r] + tail)|
    ensures k < FrameLength(r) ==>
      && WholeFrames([r] + tail, k) == 0 && Frames(Written([r] + tail)[..k]) == []
      && FramesEnd(Written([r] + tail)[..k]) == EndOfStream
    ensures k >= FrameLength(r) ==>
      && var j := k - FrameLength(r);
      && var n := WholeFrames(tail, j);
      && j <= |Written(tail)|
      && ([r] + tail)[..WholeFrames([r] + tail, k)] == [r] + tail[..n]
      && Frames(Written([r] + tail)[..k]) == [r] + Frames(Written(tail)[..j])
      && FramesEnd(Written([r] + tail)[..k]) == FramesEnd(Written(tail)[..j])
  {
    assert ([r] + tail)[1..] == tail;
    if k < FrameLength(r) {
      CutInFirst(r, tail, k);
    } else {
      CutLater(r, tail, k);
    }
  }

  lemma StreamCons(r: Request, tail: seq<Request>)
    requires Encodable(r)
    ensures Frames(Written([r] + tail)) == [r] + Frames(Written(tail))
    ensures Leftover(Written([r] + tail)) == Leftover(Written(tail))
  {
    WrittenCons(r, tail);
    RequestReads(r, Written(tail));
  }

  lemma NothingRead(stream: Bytes)
    requires |stream| < 4
    ensures Frames(stream) == [] && Leftover(stream) == stream && FramesEnd(stream) == EndOfStream
  {
  }

  lemma CutInFirst(r: Request, tail: seq<Request>, k: nat)
    requires Encodable(r) && k < |RequestFrame(r)|
    ensures k <= |Written([r] + tail)| && Frames(Written([r] + tail)[..k]) == []
    ensures FramesEnd(Written([r] + tail)[..k]) == EndOfStream
  {
    WrittenCons(r, tail);
    assert Written([r] + tail)[..k] == RequestFrame(r)[..k];
    NoPrefixDecodes(r, k);
  }

  lemma CutLater(r: Request, tail: seq<Request>, k: nat)
    requires Encodable(r) && |RequestFrame(r)| <= k <= |Written([r] + tail)|
    ensures k - |RequestFrame(r)| <= |Written(tail)|
    ensures Frames(Written([r] + tail)[..k]) == [r] + Frames(Written(tail)[..k - |RequestFrame(r)|])
    ensures FramesEnd(Written([r] + tail)[..k]) == FramesEnd(Written(tail)[..k - |RequestFrame(r)|])
  {
    WrittenCons(r, tail);
    var rest := Written(tail)[..k - |RequestFrame(r)|];
    assert Written([r] + tail)[..k] == RequestFrame(r) + rest;
    RequestReads(r, rest);
  }

  lemma WrittenCons(r: Request, tail: seq<Request>)
    ensures Written([r] + tail) == RequestFrame(r) + Written(tail)
  {
    assert ([r] + tail)[1..] == tail;
  }

  /** Responses round-trip iff their length fits the length field. */
  lemma ResponseRoundTripIff(payload: Bytes, rest: Bytes)
    ensures ReadBody(ResponseFrame(payload) + rest) == Got(payload, rest) <==> |payload| < TWO_32
  {
    if |payload| < TWO_32 {
      Uint32RoundTrip(|payload|);
      BodyReads(Put32(|payload|), payload, rest);
    } else {
      var stream, n := ResponseFrame(payload) + rest, |payload| % TWO_32;
      assert stream[..4] == Put32(|payload|);
      Uint32RoundTrip(|payload|);
      assert |stream[4..4 + n]| == n < TWO_32;
    }
  }

  /** A response value whose payload fits the length field and decodes comes through, and leaves the
      bytes behind it. */
  lemma ResponseValueRoundTrip<R>(decode: Bytes -> Option<R>, v: R, payload: Bytes, rest: Bytes)
    requires decode(payload) == Some(v) && |payload| < TWO_32
    ensures ReadDecoded(decode, ResponseFrame(payload) + rest) == Got(v, rest)
  {
    ResponseRoundTripIff(payload, rest);
  }
}
