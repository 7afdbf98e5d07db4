/** The framing loop of the server (engine/src/server.cpp): a tag, a payload of known size, repeat.
    What is read does not depend on how the bytes are cut into chunks. */
module Framing {
  import opened Orders
  import opened Wire

  /** What a client may ask for. */
  datatype Request = NewOrderRequest(order: OrderMsg) | CancelRequest(id: U64) | SubscribeRequest

  /** The requests read, the bytes left over, and whether the connection is still open. */
  datatype Reading = Reading(requests: seq<Request>, rest: seq<Byte>, open: bool)

  datatype Frame = NeedMore | Violation | Read(request: Request, size: nat)

  /** The first frame in the buffer. A tag the server sends itself is only refused once its payload
      has arrived. */
  function FirstFrame(buf: seq<Byte>): (f: Frame)
    ensures f.Read? ==> 0 < f.size <= |buf|
  {
    if buf == [] then NeedMore
    else
      var payload := PayloadSize(buf[0]);
      if payload == None then Violation
      else if |buf| < 1 + payload.value then NeedMore
      else if buf[0] == NEW_ORDER then Read(NewOrderRequest(DecodeOrder(buf[1..23])), 23)
      else if buf[0] == CANCEL then Read(CancelRequest(GetU64(buf, 1)), 9)
      else if buf[0] == SUBSCRIBE_FILLS then Read(SubscribeRequest, 1)
      else Violation
  }

  /** All complete frames of the buffer, up to the first violation. */
  function ReadAll(buf: seq<Byte>): Reading
    decreases |buf|
  {
    match FirstFrame(buf)
    case NeedMore => Reading([], buf, true)
    case Violation => Reading([], [], false)
    case Read(request, size) =>
      var more := ReadAll(buf[size..]);
      Reading([request] + more.requests, more.rest, more.open)
  }

  /** One chunk arriving after what was read before. */
  function Receive(r: Reading, chunk: seq<Byte>): Reading {
    if !r.open then r
    else
      var more := ReadAll(r.rest + chunk);
      Reading(r.requests + more.requests, more.rest, more.open)
  }

  function ReceiveAll(r: Reading, chunks: seq<seq<Byte>>): Reading
    decreases |chunks|
  {
    if chunks == [] then r else ReceiveAll(Receive(r, chunks[0]), chunks[1..])
  }

  function Joined(chunks: seq<seq<Byte>>): seq<Byte> {
    if chunks == [] then [] else chunks[0] + Joined(chunks[1..])
  }

  /** More bytes do not change a frame that is there. */
  lemma FirstFrameStable(a: seq<Byte>, b: seq<Byte>)
    requires !FirstFrame(a).NeedMore?
    ensures FirstFrame(a + b) == FirstFrame(a)
  {
    assert (a + b)[0] == a[0];
    if |a| >= 23 {
      assert (a + b)[1..23] == a[1..23];
    }
    if |a| >= 9 {
      assert (a + b)[1..9] == a[1..9];
    }
  }

  /** What is left over holds no frame. */
  lemma {:induction false} RestNeedsMore(buf: seq<Byte>)
    ensures ReadAll(buf).open ==> ReadAll(ReadAll(buf).rest) == Reading([], ReadAll(buf).rest, true)
    ensures !ReadAll(buf).open ==> ReadAll(buf).rest == []
    decreases |buf|
  {
    var f := FirstFrame(buf);
    if f.Read? {
      RestNeedsMore(buf[f.size..]);
    }
  }

  /** Reading a + b at once is reading a and then what a left over followed by b. */
  lemma {:induction false} ReadAppend(a: seq<Byte>, b: seq<Byte>)
    ensures ReadAll(a + b) == Receive(ReadAll(a), b)
    decreases |a|
  {
    var f := FirstFrame(a);
    if f.NeedMore? {
      assert [] + ReadAll(a + b).requests == ReadAll(a + b).requests;
    } else {
      FirstFrameStable(a, b);
      if f.Read? {
        assert (a + b)[f.size..] == a[f.size..] + b;
        ReadAppend(a[f.size..], b);
        var r, more := ReadAll(a[f.size..]), ReadAll(ReadAll(a[f.size..]).rest + b);
        assert [f.request] + (r.requests + more.requests) == ([f.request] + r.requests) + more.requests;
      }
    }
  }

  lemma {:induction false} ReceiveJoined(a: seq<Byte>, chunks: seq<seq<Byte>>)
    ensures ReceiveAll(ReadAll(a), chunks) == ReadAll(a + Joined(chunks))
    decreases |chunks|
  {
    if chunks == [] {
      assert a + Joined(chunks) == a;
    } else {
      ReadAppend(a, chunks[0]);
      ReceiveJoined(a + chunks[0], chunks[1..]);
      assert a + Joined(chunks) == (a + chunks[0]) + Joined(chunks[1..]);
    }
  }

  /** However the stream is cut into chunks, the same requests are read, the same bytes are left
      over, and the connection ends up open or closed alike. */
  lemma ChunkIndependent(chunks: seq<seq<Byte>>)
    ensures ReceiveAll(Reading([], [], true), chunks) == ReadAll(Joined(chunks))
  {
    assert ReadAll([]) == Reading([], [], true);
    ReceiveJoined([], chunks);
    assert [] + Joined(chunks) == Joined(chunks);
  }

  function EncodeRequest(r: Request): (bytes: seq<Byte>)
    ensures bytes != []
  {
    match r
    case NewOrderRequest(order) => [NEW_ORDER] + EncodeOrder(order)
    case CancelRequest(id) => [CANCEL] + Pack(id, 8)
    case SubscribeRequest => [SUBSCRIBE_FILLS]
  }

  function EncodeRequests(requests: seq<Request>): seq<Byte> {
    if requests == [] then [] else EncodeRequest(requests[0]) + EncodeRequests(requests[1..])
  }

  lemma FirstFrameOfEncoding(r: Request, more: seq<Byte>)
    ensures FirstFrame(EncodeRequest(r) + more) == Read(r, |EncodeRequest(r)|)
  {
    var buf := EncodeRequest(r) + more;
    match r {
      case NewOrderRequest(order) =>
        assert buf[1..23] == EncodeOrder(order);
        OrderRoundTrip(order);
      case CancelRequest(id) =>
        GetPackedU64([CANCEL] + Pack(id, 8) + more, [CANCEL], id, more, 1);
        assert buf == [CANCEL] + Pack(id, 8) + more;
      case SubscribeRequest =>
    }
  }

  lemma ReadOne(buf: seq<Byte>, request: Request, size: nat)
    requires FirstFrame(buf) == Read(request, size)
    ensures var more := ReadAll(buf[size..]); ReadAll(buf) == Reading([request] + more.requests, more.rest, more.open)
  {
  }

  /** Any list of requests, encoded one after the other and cut into chunks anywhere, is read back
      exactly, with nothing left over. */
  lemma {:induction false} EncodedRequestsReadBack(requests: seq<Request>)
    ensures ReadAll(EncodeRequests(requests)) == Reading(requests, [], true)
    decreases |requests|
  {
    if requests != [] {
      var head, tail := EncodeRequest(requests[0]), EncodeRequests(requests[1..]);
      EncodedRequestsReadBack(requests[1..]);
      FirstFrameOfEncoding(requests[0], tail);
      assert (head + tail)[|head|..] == tail;
      ReadOne(head + tail, requests[0], |head|);
    }
  }

  lemma ChunkedRequestsReadBack(requests: seq<Request>, chunks: seq<seq<Byte>>)
    requires Joined(chunks) == EncodeRequests(requests)
    ensures ReceiveAll(Reading([], [], true), chunks) == Reading(requests, [], true)
  {
    ChunkIndependent(chunks);
    EncodedRequestsReadBack(requests);
  }

  // ----- exactly what is read -----

  /** What follows some requests is read after them. */
  lemma ReadBehind(requests: seq<Request>, tail: seq<Byte>)
    ensures ReadAll(EncodeRequests(requests) + tail)
         == Reading(requests + ReadAll(tail).requests, ReadAll(tail).rest, ReadAll(tail).open)
  {
    EncodedRequestsReadBack(requests);
    ReadAppend(EncodeRequests(requests), tail);
    assert [] + tail == tail;
  }

  lemma ReadingStops(buf: seq<Byte>)
    requires !FirstFrame(buf).Read?
    ensures ReadAll(buf) == if FirstFrame(buf).NeedMore? then Reading([], buf, true) else Reading([], [], false)
  {
  }

  lemma ReadThenStops(requests: seq<Request>, tail: seq<Byte>)
    requires !FirstFrame(tail).Read?
    ensures ReadAll(EncodeRequests(requests) + tail)
         == if FirstFrame(tail).NeedMore? then Reading(requests, tail, true) else Reading(requests, [], false)
  {
    ReadBehind(requests, tail);
    ReadingStops(tail);
    assert requests + [] == requests;
  }

  /** A byte that is no message tag closes the connection, whatever follows; the requests in front of
      it are read. */
  lemma UnknownTagCloses(requests: seq<Request>, tag: Byte, more: seq<Byte>)
    requires tag != 0x01 && tag != 0x02 && tag != 0x03 && tag != 0x10 && tag != 0x11
    ensures ReadAll(EncodeRequests(requests) + ([tag] + more)) == Reading(requests, [], false)
  {
    ReadThenStops(requests, [tag] + more);
  }

  /** So does a tag that only the server sends, once its payload has arrived, and not before. */
  lemma ServerTagCloses(requests: seq<Request>, tag: Byte, payload: seq<Byte>)
    requires tag == 0x10 || tag == 0x11
    ensures ReadAll(EncodeRequests(requests) + ([tag] + payload))
         == if |payload| < (if tag == 0x10 then 37 else 10) then Reading(requests, [tag] + payload, true)
            else Reading(requests, [], false)
  {
    ServerFrame(tag, payload);
    ReadThenStops(requests, [tag] + payload);
  }

  lemma ServerFrame(tag: Byte, payload: seq<Byte>)
    requires tag == 0x10 || tag == 0x11
    ensures FirstFrame([tag] + payload) == if |payload| < (if tag == 0x10 then 37 else 10) then NeedMore else Violation
  {
  }

  /** The start of a client message waits for the rest of it. */
  lemma PartialFrameWaits(requests: seq<Request>, tag: Byte, payload: seq<Byte>)
    requires (tag == 0x01 && |payload| < 22) || (tag == 0x02 && |payload| < 8)
    ensures ReadAll(EncodeRequests(requests) + ([tag] + payload)) == Reading(requests, [tag] + payload, true)
  {
    ReadThenStops(requests, [tag] + payload);
  }

  /** A frame that is read is the encoding of its request. */
  lemma FrameIsEncoding(buf: seq<Byte>)
    requires FirstFrame(buf).Read?
    ensures var f := FirstFrame(buf); buf[..f.size] == EncodeRequest(f.request)
  {
    if buf[0] == NEW_ORDER {
      OrderPayloadsUnique(buf[1..23]);
      assert buf[..23] == [buf[0]] + buf[1..23];
    } else if buf[0] == CANCEL {
      PackUnpack(buf[1..9]);
      assert buf[..9] == [buf[0]] + buf[1..9];
    }
  }

  /** buf is the encoding of the requests read from it and tail behind them: nothing, the start of a
      message, or a byte that closes the connection. */
  predicate Explained(buf: seq<Byte>, tail: seq<Byte>) {
    && buf == EncodeRequests(ReadAll(buf).requests) + tail
    && (ReadAll(buf).open <==>
          || tail == []
          || (tail[0] == 0x01 && |tail| < 23) || (tail[0] == 0x02 && |tail| < 9)
          || (tail[0] == 0x10 && |tail| < 38) || (tail[0] == 0x11 && |tail| < 11))
    && ReadAll(buf).rest == if ReadAll(buf).open then tail else []
  }

  lemma ExplainedEnd(buf: seq<Byte>)
    requires !FirstFrame(buf).Read?
    ensures Explained(buf, buf)
  {
    assert EncodeRequests([]) + buf == buf;
  }

  lemma BytesStep(buf: seq<Byte>, size: nat, request: Request, requests: seq<Request>, tail: seq<Byte>)
    requires size <= |buf| && buf[..size] == EncodeRequest(request) && buf[size..] == EncodeRequests(requests) + tail
    ensures buf == EncodeRequests([request] + requests) + tail
  {
    EncodeCons(request, requests);
    assert buf == buf[..size] + buf[size..];
  }

  lemma ExplainedStep(buf: seq<Byte>, request: Request, size: nat, tail: seq<Byte>)
    requires FirstFrame(buf) == Read(request, size) && Explained(buf[size..], tail)
    ensures Explained(buf, tail)
  {
    FrameIsEncoding(buf);
    ReadOne(buf, request, size);
    BytesStep(buf, size, request, ReadAll(buf[size..]).requests, tail);
  }

  /** Every byte string is explained that way. */
  lemma {:induction false} ReadingExplained(buf: seq<Byte>) returns (tail: seq<Byte>)
    ensures Explained(buf, tail)
    decreases |buf|
  {
    var f := FirstFrame(buf);
    if f.Read? {
      tail := ReadingExplained(buf[f.size..]);
      ExplainedStep(buf, f.request, f.size, tail);
    } else {
      tail := buf;
      ExplainedEnd(buf);
    }
  }

  lemma EncodeCons(r: Request, requests: seq<Request>)
    ensures EncodeRequests([r] + requests) == EncodeRequest(r) + EncodeRequests(requests)
  {
    assert ([r] + requests)[1..] == requests;
  }

  /** The bytes of a request: its tag, then its fields. */
  lemma RequestBytes(r: Request)
    ensures r.NewOrderRequest? ==> EncodeRequest(r)[0] == 0x01 && |EncodeRequest(r)| == 23
    ensures r.CancelRequest? ==> EncodeRequest(r) == [0x02] + Pack(r.id, 8)
    ensures r.SubscribeRequest? ==> EncodeRequest(r) == [0x03]
  {
  }
}
