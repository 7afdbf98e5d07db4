/** The quoter's session on the server: the closed loop (strategy/orderbook_client/session_runner.py)
    carried over the wire. What one client sends over its connection, cut into chunks anywhere, runs
    the book as the session's commands do, and the fills it is told of are the session's fills. */
module Sessions {
  import opened Orders
  import opened BookSpec
  import opened Wire
  import opened Framing
  import opened ServerSpec
  import opened Routing
  import opened Quoter
  import ClosedLoop

  // ----- requests and commands -----

  function CommandsOf(requests: seq<Request>): seq<Command> {
    if requests == [] then []
    else
      (match requests[0]
       case NewOrderRequest(m) => [SubmitOrder(OrderOf(m))]
       case CancelRequest(id) => [CancelOrder(id)]
       case SubscribeRequest => [])
      + CommandsOf(requests[1..])
  }

  /** A command that fits the fields of the wire format. The client sends no stamp. */
  predicate Sendable(c: Command) {
    match c
    case SubmitOrder(o) =>
      o.id < TWO_64 && -TWO_63 <= o.price < TWO_63 && o.quantity < TWO_32 && o.timestamp == 0
    case CancelOrder(id) => id < TWO_64
  }

  function RequestOf(c: Command): Request
    requires Sendable(c)
  {
    match c
    case SubmitOrder(o) => NewOrderRequest(OrderMsg(o.id, SideByte(o.side), TypeByte(o.orderType), o.price, o.quantity))
    case CancelOrder(id) => CancelRequest(id)
  }

  function RequestsOf(commands: seq<Command>): seq<Request>
    requires forall i :: 0 <= i < |commands| ==> Sendable(commands[i])
  {
    if commands == [] then [] else [RequestOf(commands[0])] + RequestsOf(commands[1..])
  }

  /** What is sent for commands means those commands. */
  lemma {:induction false} RequestsMean(commands: seq<Command>)
    requires forall i :: 0 <= i < |commands| ==> Sendable(commands[i])
    ensures CommandsOf(RequestsOf(commands)) == commands
  {
    if commands != [] {
      RequestsMean(commands[1..]);
      assert RequestsOf(commands)[1..] == RequestsOf(commands[1..]);
      assert [commands[0]] + commands[1..] == commands;
    }
  }

  // ----- one connection's requests -----

  /** The fills that a stream tells of. */
  function FillsOf(stream: seq<Message>): seq<Fill> {
    if stream == [] then []
    else (if stream[0].FillNotice? then [stream[0].fill] else []) + FillsOf(stream[1..])
  }

  lemma {:induction false} FillsOfAppend(a: seq<Message>, b: seq<Message>)
    ensures FillsOf(a + b) == FillsOf(a) + FillsOf(b)
  {
    if a == [] {
      assert a + b == b;
    } else {
      var head := if a[0].FillNotice? then [a[0].fill] else [];
      assert (a + b)[0] == a[0] && (a + b)[1..] == a[1..] + b;
      FillsOfAppend(a[1..], b);
      assert head + (FillsOf(a[1..]) + FillsOf(b)) == head + FillsOf(a[1..]) + FillsOf(b);
    }
  }

  lemma {:induction false} FillsOfNotices(fills: seq<Fill>)
    ensures FillsOf(NoticesOf(fills)) == fills
  {
    if fills != [] {
      assert NoticesOf(fills)[1..] == NoticesOf(fills[1..]);
      FillsOfNotices(fills[1..]);
    }
  }

  /** One request: the book takes the step, and the sender hears of exactly its fills. */
  lemma OneRequest(st: ServerState, fd: int, r: Request)
    requires st.Good()
    ensures var after := Dispatch(st, fd, r);
      after.Good()
      && Follows(st.book, FillsOf(Stream(st.sent, fd)), CommandsOf([r]), after.book, FillsOf(Stream(after.sent, fd)))
  {
    DispatchKeepsGood(st, fd, r);
    assert [r][1..] == [];
    match r {
      case NewOrderRequest(m) =>
        RunSingle(st.book, SubmitOrder(OrderOf(m)));
        assert CommandsOf([r]) == [SubmitOrder(OrderOf(m))];
        OneOrder(st, fd, m);
      case CancelRequest(id) =>
        RunSingle(st.book, CancelOrder(id));
        assert CommandsOf([r]) == [CancelOrder(id)];
        OneCancel(st, fd, id);
      case SubscribeRequest =>
        assert CommandsOf([r]) == [];
    }
  }

  lemma RunSingle(b: Book, c: Command)
    ensures Run(b, [c]) == Step(b, c)
  {
    assert [c][1..] == [] && Step(b, c).1 + [] == Step(b, c).1;
  }

  lemma FillsOfAcked(before: seq<Message>, ack: Message)
    requires ack.Ack?
    ensures FillsOf(before + [ack]) == FillsOf(before)
  {
    FillsOfAppend(before, [ack]);
    assert [ack][1..] == [] && FillsOf([ack]) == [];
  }

  lemma RefusedOrder(st: ServerState, fd: int, m: OrderMsg)
    requires st.Good() && m.id in st.book.RestingIds()
    ensures FillsOf(Stream(DispatchOrder(st, fd, m).sent, fd)) == FillsOf(Stream(st.sent, fd))
  {
    OrderRouting(st, fd, m, fd);
    FillsOfAcked(Stream(st.sent, fd), Ack(m.id, NEW_ORDER, 1));
  }

  lemma AcceptedOrder(st: ServerState, fd: int, m: OrderMsg)
    requires st.Good() && m.id !in st.book.RestingIds()
    ensures FillsOf(Stream(DispatchOrder(st, fd, m).sent, fd))
         == FillsOf(Stream(st.sent, fd)) + Submit(st.book, OrderOf(m)).1
  {
    var before, ack, fills := Stream(st.sent, fd), Ack(m.id, NEW_ORDER, 0), Submit(st.book, OrderOf(m)).1;
    OrderRouting(st, fd, m, fd);
    SubmitterHearsAll(st, fd, fills);
    FillsOfAcked(before, ack);
    FillsOfAppend(before + [ack], NoticesOf(fills));
    FillsOfNotices(fills);
  }

  lemma OneOrder(st: ServerState, fd: int, m: OrderMsg)
    requires st.Good()
    ensures var after := DispatchOrder(st, fd, m);
      && after.book == Submit(st.book, OrderOf(m)).0
      && FillsOf(Stream(after.sent, fd)) == FillsOf(Stream(st.sent, fd)) + Submit(st.book, OrderOf(m)).1
  {
    if m.id in st.book.RestingIds() {
      RefusedOrder(st, fd, m);
    } else {
      AcceptedOrder(st, fd, m);
    }
  }

  lemma OneCancel(st: ServerState, fd: int, id: nat)
    requires st.Good()
    ensures var after := DispatchCancel(st, fd, id);
      after.book == Cancel(st.book, id).0 && FillsOf(Stream(after.sent, fd)) == FillsOf(Stream(st.sent, fd))
  {
    CancelRouting(st, fd, id, fd);
    FillsOfAcked(Stream(st.sent, fd), Ack(id, CANCEL, if id in st.book.RestingIds() then 0 else 1));
  }

  /** Two runs one after the other. */
  lemma RunTwice(b: Book, first: seq<Command>, second: seq<Command>, all: seq<Command>, mid: Book, fills: seq<Fill>)
    requires all == first + second && mid == Run(b, first).0 && fills == Run(b, first).1
    ensures Run(b, all) == (Run(mid, second).0, fills + Run(mid, second).1)
  {
    RunAppend(b, first, second);
  }

  /** After more requests the book is where the commands lead, and the stream has gained their fills. */
  predicate Follows(book: Book, told: seq<Fill>, commands: seq<Command>, book': Book, told': seq<Fill>) {
    book' == Run(book, commands).0 && told' == told + Run(book, commands).1
  }

  lemma FollowsTwice(b: Book, told: seq<Fill>, first: seq<Command>, mid: Book, heard: seq<Fill>,
                     second: seq<Command>, end: Book, heard': seq<Fill>, all: seq<Command>)
    requires Follows(b, told, first, mid, heard) && Follows(mid, heard, second, end, heard') && all == first + second
    ensures Follows(b, told, all, end, heard')
  {
    var f1, f2 := Run(b, first).1, Run(mid, second).1;
    assert Run(b, all) == (end, f1 + f2) by {
      RunTwice(b, first, second, all, mid, f1);
    }
    AppendAppend(told, f1, f2);
  }

  /** A list of requests: the book runs their commands, and the sender hears of exactly the fills of
      that run, in order. */
  lemma {:induction false} RequestsRun(st: ServerState, fd: int, requests: seq<Request>)
    requires st.Good()
    ensures var after := DispatchAll(st, fd, requests);
      Follows(st.book, FillsOf(Stream(st.sent, fd)), CommandsOf(requests), after.book, FillsOf(Stream(after.sent, fd)))
    decreases |requests|
  {
    var told := FillsOf(Stream(st.sent, fd));
    if requests == [] {
      assert told + [] == told;
    } else {
      var r, rest := requests[0], requests[1..];
      var next := Dispatch(st, fd, r);
      OneRequest(st, fd, r);
      RequestsRun(next, fd, rest);
      CommandsCons(r, rest);
      assert requests == [r] + rest;
      var after := DispatchAll(next, fd, rest);
      FollowsTwice(st.book, told, CommandsOf([r]), next.book, FillsOf(Stream(next.sent, fd)),
                   CommandsOf(rest), after.book, FillsOf(Stream(after.sent, fd)), CommandsOf(requests));
    }
  }

  lemma CommandsCons(r: Request, rest: seq<Request>)
    ensures CommandsOf([r] + rest) == CommandsOf([r]) + CommandsOf(rest)
  {
    assert ([r] + rest)[1..] == rest && [r][1..] == [];
  }

  // ----- the bytes of a session -----

  function Arrivals(fd: int, chunks: seq<seq<Byte>>): seq<Event> {
    if chunks == [] then [] else [Received(fd, chunks[0])] + Arrivals(fd, chunks[1..])
  }

  /** A reading that has not failed at the end has not failed before. */
  lemma OpenBefore(a: seq<Byte>, b: seq<Byte>)
    requires ReadAll(a + b).open
    ensures ReadAll(a).open
  {
    ReadAppend(a, b);
  }

  lemma StaysConnected(st: ServerState, fd: int, chunk: seq<Byte>)
    requires Connected(st.connections, fd) && ReadAll(BufferOf(st.connections, fd) + chunk).open
    ensures Connected(HandleBytes(st, fd, chunk).connections, fd)
  {
    var r := ReadAll(BufferOf(st.connections, fd) + chunk);
    DispatchAllKeepsFds(st, fd, r.requests);
    var i :| 0 <= i < |st.connections| && st.connections[i].fd == fd;
    assert HandleBytes(st, fd, chunk).connections[i].fd == fd;
  }

  lemma BufferLeft(st: ServerState, fd: int, chunk: seq<Byte>)
    requires Connected(st.connections, fd) && ReadAll(BufferOf(st.connections, fd) + chunk).open
    ensures BufferOf(HandleBytes(st, fd, chunk).connections, fd) == ReadAll(BufferOf(st.connections, fd) + chunk).rest
  {
    var r := ReadAll(BufferOf(st.connections, fd) + chunk);
    DispatchAllKeepsFds(st, fd, r.requests);
    var i :| 0 <= i < |st.connections| && st.connections[i].fd == fd;
    assert DispatchAll(st, fd, r.requests).connections[i].fd == fd;
    BufferAfter(DispatchAll(st, fd, r.requests).connections, fd, r.rest);
  }

  /** After the first chunk the rest can be read on. */
  lemma FirstChunk(st: ServerState, fd: int, first: seq<Byte>, rest: seq<Byte>)
    requires Connected(st.connections, fd) && ReadAll(BufferOf(st.connections, fd) + (first + rest)).open
    ensures var next := HandleBytes(st, fd, first);
      && Connected(next.connections, fd) && ReadAll(BufferOf(next.connections, fd) + rest).open
      && HandleBytes(next, fd, rest) == HandleBytes(st, fd, first + rest)
  {
    var buf := BufferOf(st.connections, fd);
    assert buf + (first + rest) == buf + first + rest;
    OpenBefore(buf + first, rest);
    StaysConnected(st, fd, first);
    BufferLeft(st, fd, first);
    ReadAppend(buf + first, rest);
    ServerChunkIndependent(st, fd, first, rest);
  }

  /** Bytes that arrive in chunks are handled as if they had arrived at once. */
  lemma {:induction false} ChunksAsOne(st: ServerState, fd: int, chunks: seq<seq<Byte>>)
    requires Connected(st.connections, fd) && chunks != []
    requires ReadAll(BufferOf(st.connections, fd) + Joined(chunks)).open
    ensures Serve(st, Arrivals(fd, chunks)) == HandleBytes(st, fd, Joined(chunks))
    decreases |chunks|
  {
    var first, rest := chunks[0], chunks[1..];
    assert Arrivals(fd, chunks)[1..] == Arrivals(fd, rest);
    if rest == [] {
      assert Joined(chunks) == first;
    } else {
      FirstChunk(st, fd, first, Joined(rest));
      ChunksAsOne(HandleBytes(st, fd, first), fd, rest);
    }
  }

  /** A client's whole session: it connects to a fresh server and its requests arrive in chunks. */
  function Served(fd: int, chunks: seq<seq<Byte>>): ServerState {
    Serve(React(Started, Accepted(fd)), Arrivals(fd, chunks))
  }

  /** One client's requests on a fresh server, their bytes cut anywhere: the server's book is what
      their commands make of the empty book, and the client is told of exactly the fills of that run. */
  lemma ServedRun(fd: int, requests: seq<Request>, chunks: seq<seq<Byte>>)
    requires chunks != [] && Joined(chunks) == EncodeRequests(requests)
    ensures var after, run := Served(fd, chunks), Run(EmptyBook, CommandsOf(requests));
      after.book == run.0 && FillsOf(Stream(after.sent, fd)) == run.1
  {
    var st := React(Started, Accepted(fd));
    FreshConnection(fd);
    EncodedAtOnce(st, fd, requests);
    ChunksAsOne(st, fd, chunks);
    RequestsRun(st, fd, requests);
    FromNothing(CommandsOf(requests), Served(fd, chunks).book, FillsOf(Stream(Served(fd, chunks).sent, fd)));
  }

  lemma FromNothing(commands: seq<Command>, book: Book, told: seq<Fill>)
    requires Follows(EmptyBook, [], commands, book, told)
    ensures book == Run(EmptyBook, commands).0 && told == Run(EmptyBook, commands).1
  {
    assert [] + Run(EmptyBook, commands).1 == Run(EmptyBook, commands).1;
  }

  /** All bytes of some requests at an empty buffer: they are read and dispatched. */
  lemma EncodedAtOnce(st: ServerState, fd: int, requests: seq<Request>)
    requires Connected(st.connections, fd) && BufferOf(st.connections, fd) == []
    ensures var bytes := EncodeRequests(requests);
      && ReadAll(BufferOf(st.connections, fd) + bytes).open
      && HandleBytes(st, fd, bytes).book == DispatchAll(st, fd, requests).book
      && HandleBytes(st, fd, bytes).sent == DispatchAll(st, fd, requests).sent
  {
    EncodedRequestsReadBack(requests);
    assert BufferOf(st.connections, fd) + EncodeRequests(requests) == EncodeRequests(requests);
  }

  lemma FreshConnection(fd: int)
    ensures var st := React(Started, Accepted(fd));
      && st.Good() && st.book == EmptyBook && st.sent == []
      && Connected(st.connections, fd) && BufferOf(st.connections, fd) == []
  {
    var st := React(Started, Accepted(fd));
    assert st.connections == [Connection(fd, [], false)];
    assert st.connections[0].fd == fd;
    assert Ids([]) == {};
  }

  // ----- the closed loop on the server -----

  /** Everything the quoter sends in a session. */
  function SentIn(s: Session, prices: seq<int>, delays: seq<nat>): seq<Command>
    requires s.told <= |s.fills| && |prices| == |delays|
    decreases |prices|
  {
    if prices == [] then []
    else OnPrice(s.quotes, prices[0]).1 + SentIn(Tick(s, prices[0], delays[0]), prices[1..], delays[1..])
  }

  /** The session's book and fills are those of one run of everything sent. */
  lemma {:induction false} TicksRun(s: Session, prices: seq<int>, delays: seq<nat>)
    requires s.told <= |s.fills| && |prices| == |delays|
    ensures var after := Ticks(s, prices, delays);
      Follows(s.book, s.fills, SentIn(s, prices, delays), after.book, after.fills)
    decreases |prices|
  {
    if prices == [] {
      assert s.fills + [] == s.fills;
    } else {
      var next := Tick(s, prices[0], delays[0]);
      TickRun(s, prices[0], delays[0]);
      TicksRun(next, prices[1..], delays[1..]);
      TicksGoOn(s, OnPrice(s.quotes, prices[0]).1, next, prices[1..], delays[1..]);
    }
  }

  lemma TicksGoOn(s: Session, actions: seq<Command>, next: Session, prices: seq<int>, delays: seq<nat>)
    requires next.told <= |next.fills| && |prices| == |delays|
    requires Follows(s.book, s.fills, actions, next.book, next.fills)
    requires var after := Ticks(next, prices, delays);
      Follows(next.book, next.fills, SentIn(next, prices, delays), after.book, after.fills)
    ensures var after := Ticks(next, prices, delays);
      Follows(s.book, s.fills, actions + SentIn(next, prices, delays), after.book, after.fills)
  {
    var after, more := Ticks(next, prices, delays), SentIn(next, prices, delays);
    FollowsTwice(s.book, s.fills, actions, next.book, next.fills, more, after.book, after.fills, actions + more);
  }

  lemma TickRun(s: Session, price: int, delivered: nat)
    requires s.told <= |s.fills|
    ensures var next := Tick(s, price, delivered);
      Follows(s.book, s.fills, OnPrice(s.quotes, price).1, next.book, next.fills)
  {
  }

  /** The closed loop on the server. The quoter alone on a fresh server, its commands encoded and cut
      into chunks anywhere, fills delivered as late as may be: the client's stream holds exactly the
      fills of its session, and all that rests on the server is the tracked quotes, whole, at most one
      a side, the offset away from the last price. */
  lemma ClosedLoopOnServer(fd: int, offset: int, size: nat, prices: seq<int>, delays: seq<nat>, chunks: seq<seq<Byte>>)
    requires size > 0 && |prices| == |delays|
    requires var commands := SentIn(Opening(offset, size), prices, delays);
      && (forall i :: 0 <= i < |commands| ==> Sendable(commands[i]))
      && chunks != [] && Joined(chunks) == EncodeRequests(RequestsOf(commands))
    ensures var s, after := Ticks(Opening(offset, size), prices, delays), Served(fd, chunks);
      && after.book == s.book && FillsOf(Stream(after.sent, fd)) == s.fills
      && (forall o :: o in after.book.bids ==> s.quotes.buy == Some(Quote(o.id, o.price)) && o.quantity == size)
      && (forall o :: o in after.book.asks ==> s.quotes.sell == Some(Quote(o.id, o.price)) && o.quantity == size)
      && |after.book.bids| <= 1 && |after.book.asks| <= 1
    ensures prices != [] ==>
      var after, last := Served(fd, chunks), prices[|prices| - 1];
      && (forall o :: o in after.book.bids ==> o.price == last - offset)
      && (forall o :: o in after.book.asks ==> o.price == last + offset)
  {
    var commands := SentIn(Opening(offset, size), prices, delays);
    RequestsMean(commands);
    ServedRun(fd, RequestsOf(commands), chunks);
    TicksRun(Opening(offset, size), prices, delays);
    ClosedLoop.ClosedLoop(offset, size, prices, delays);
  }
}
