/** The server as a state machine over the book (engine/src/server.cpp): requests are dispatched, a
    second index remembers who owns each resting order, and fills are fanned out. Sockets are a log
    of what was sent to which descriptor. */
module ServerSpec {
  import opened Orders
  import opened BookSpec
  import opened Wire
  import opened Framing

  datatype Connection = Connection(fd: int, readBuf: seq<Byte>, subscribed: bool)

  datatype Message = Ack(id: nat, requestType: Byte, status: Byte) | FillNotice(fill: Fill)

  datatype Sent = Sent(fd: int, message: Message)

  datatype ServerState = ServerState(book: Book, connections: seq<Connection>, owner: map<nat, int>, sent: seq<Sent>) {
    /** The book is valid, every resting id has an owner and nothing else does, descriptors are distinct. */
    ghost predicate Good() {
      && book.Valid()
      && owner.Keys == book.RestingIds()
      && DistinctFds(connections)
    }
  }

  ghost predicate DistinctFds(connections: seq<Connection>) {
    forall i, j :: 0 <= i < j < |connections| ==> connections[i].fd != connections[j].fd
  }

  predicate Connected(connections: seq<Connection>, fd: int) {
    exists i :: 0 <= i < |connections| && connections[i].fd == fd
  }

  function OrderOf(m: OrderMsg): Order {
    Order(m.id, SideOf(m.side), TypeOf(m.orderType), m.price, m.quantity, 0)
  }

  /** Descriptors of the subscribed connections that have not been served yet, in connection order. */
  function Subscribers(connections: seq<Connection>, served: seq<int>): seq<int> {
    if connections == [] then []
    else
      var c := connections[|connections| - 1];
      Subscribers(connections[..|connections| - 1], served) + (if c.subscribed && c.fd !in served then [c.fd] else [])
  }

  /** The submitter and, if someone else, the owner of the resting order. */
  function Parties(fd: int, owner: map<nat, int>, restingId: nat): seq<int> {
    [fd] + (if restingId in owner && owner[restingId] != fd then [owner[restingId]] else [])
  }

  /** Everyone a fill is sent to, in sending order. */
  function Recipients(fd: int, owner: map<nat, int>, connections: seq<Connection>, restingId: nat): seq<int> {
    var parties := Parties(fd, owner, restingId);
    parties + Subscribers(connections, parties)
  }

  function Delivery(fds: seq<int>, message: Message): (d: seq<Sent>)
    ensures |d| == |fds|
  {
    if fds == [] then [] else Delivery(fds[..|fds| - 1], message) + [Sent(fds[|fds| - 1], message)]
  }

  /** The fan-out of a list of fills, all judged by the owners before the submission. */
  function FanOut(fd: int, owner: map<nat, int>, connections: seq<Connection>, fills: seq<Fill>): seq<Sent> {
    if fills == [] then []
    else
      var f := fills[|fills| - 1];
      FanOut(fd, owner, connections, fills[..|fills| - 1])
      + Delivery(Recipients(fd, owner, connections, f.restingId), FillNotice(f))
  }

  /** Owners of the ids that still rest; a new order that rests belongs to its submitter. */
  function Owners(owner: map<nat, int>, fd: int, id: nat, live: set<nat>): map<nat, int> {
    var kept := map k | k in owner && k in live :: owner[k];
    if id in live then kept[id := fd] else kept
  }

  function DispatchOrder(st: ServerState, fd: int, m: OrderMsg): ServerState {
    if m.id in st.book.RestingIds() then
      st.(sent := st.sent + [Sent(fd, Ack(m.id, NEW_ORDER, 1))])
    else
      var (book, fills) := Submit(st.book, OrderOf(m));
      st.(book := book, owner := Owners(st.owner, fd, m.id, book.RestingIds()),
          sent := st.sent + [Sent(fd, Ack(m.id, NEW_ORDER, 0))] + FanOut(fd, st.owner, st.connections, fills))
  }

  function DispatchCancel(st: ServerState, fd: int, id: nat): ServerState {
    var (book, ok) := Cancel(st.book, id);
    st.(book := book, owner := st.owner - {id}, sent := st.sent + [Sent(fd, Ack(id, CANCEL, if ok then 0 else 1))])
  }

  function Subscribe(connections: seq<Connection>, fd: int): (r: seq<Connection>)
    ensures |r| == |connections|
    ensures forall i :: 0 <= i < |r| ==>
      r[i] == if connections[i].fd == fd then connections[i].(subscribed := true) else connections[i]
  {
    seq(|connections|, i requires 0 <= i < |connections| =>
      if connections[i].fd == fd then connections[i].(subscribed := true) else connections[i])
  }

  function Dispatch(st: ServerState, fd: int, r: Request): ServerState {
    match r
    case NewOrderRequest(order) => DispatchOrder(st, fd, order)
    case CancelRequest(id) => DispatchCancel(st, fd, id)
    case SubscribeRequest => st.(connections := Subscribe(st.connections, fd))
  }

  function DispatchAll(st: ServerState, fd: int, requests: seq<Request>): ServerState
    decreases |requests|
  {
    if requests == [] then st else DispatchAll(Dispatch(st, fd, requests[0]), fd, requests[1..])
  }

  function BufferOf(connections: seq<Connection>, fd: int): seq<Byte> {
    if connections == [] then []
    else if connections[0].fd == fd then connections[0].readBuf
    else BufferOf(connections[1..], fd)
  }

  function WithBuffer(connections: seq<Connection>, fd: int, buf: seq<Byte>): (r: seq<Connection>)
    ensures |r| == |connections|
    ensures forall i :: 0 <= i < |r| ==>
      r[i] == if connections[i].fd == fd then connections[i].(readBuf := buf) else connections[i]
  {
    seq(|connections|, i requires 0 <= i < |connections| =>
      if connections[i].fd == fd then connections[i].(readBuf := buf) else connections[i])
  }

  function Without(connections: seq<Connection>, fd: int): seq<Connection> {
    if connections == [] then []
    else (if connections[0].fd == fd then [] else [connections[0]]) + Without(connections[1..], fd)
  }

  /** Bytes arrive on a connection: every complete frame is dispatched, then the rest is kept or, on
      a violation, the connection is dropped. */
  function HandleBytes(st: ServerState, fd: int, chunk: seq<Byte>): ServerState {
    var r := ReadAll(BufferOf(st.connections, fd) + chunk);
    var done := DispatchAll(st, fd, r.requests);
    done.(connections := if r.open then WithBuffer(done.connections, fd, r.rest) else Without(done.connections, fd))
  }

  datatype Event = Accepted(fd: int) | Received(fd: int, chunk: seq<Byte>) | HungUp(fd: int)

  /** One event of the poll loop. Descriptors that are no longer connected are skipped; the operating
      system never hands out a descriptor that is still open. */
  function React(st: ServerState, e: Event): ServerState {
    match e
    case Accepted(fd) =>
      if Connected(st.connections, fd) then st
      else st.(connections := st.connections + [Connection(fd, [], false)])
    case Received(fd, chunk) =>
      if Connected(st.connections, fd) then HandleBytes(st, fd, chunk) else st
    case HungUp(fd) => st.(connections := Without(st.connections, fd))
  }

  function Serve(st: ServerState, events: seq<Event>): ServerState
    decreases |events|
  {
    if events == [] then st else Serve(React(st, events[0]), events[1..])
  }

  const Started := ServerState(EmptyBook, [], map[], [])

  // ----- the owner index -----

  lemma DispatchKeepsGood(st: ServerState, fd: int, r: Request)
    requires st.Good()
    ensures Dispatch(st, fd, r).Good()
  {
    match r {
      case NewOrderRequest(m) =>
        SubmitKeepsValid(st.book, OrderOf(m));
        SubmitIds(st.book, OrderOf(m));
        var live := Submit(st.book, OrderOf(m)).0.RestingIds();
        assert forall k :: k in live ==> k in Owners(st.owner, fd, m.id, live);
      case CancelRequest(id) =>
        CancelKeepsValid(st.book, id);
        CancelIds(st.book, id);
      case SubscribeRequest =>
        var after := Subscribe(st.connections, fd);
        assert forall i :: 0 <= i < |after| ==> after[i].fd == st.connections[i].fd;
    }
  }

  lemma {:induction false} DispatchAllKeepsGood(st: ServerState, fd: int, requests: seq<Request>)
    requires st.Good()
    ensures DispatchAll(st, fd, requests).Good()
    decreases |requests|
  {
    if requests != [] {
      DispatchKeepsGood(st, fd, requests[0]);
      DispatchAllKeepsGood(Dispatch(st, fd, requests[0]), fd, requests[1..]);
    }
  }

  lemma {:induction false} WithoutFds(connections: seq<Connection>, fd: int)
    requires DistinctFds(connections)
    ensures DistinctFds(Without(connections, fd))
    ensures forall c :: c in Without(connections, fd) <==> c in connections && c.fd != fd
  {
    if connections != [] {
      var tail := connections[1..];
      WithoutFds(tail, fd);
      assert connections == [connections[0]] + tail;
      var r := Without(tail, fd);
      assert forall i :: 0 <= i < |r| ==> r[i] in r;
    }
  }

  lemma ReactKeepsGood(st: ServerState, e: Event)
    requires st.Good()
    ensures React(st, e).Good()
  {
    match e {
      case Accepted(fd) =>
      case Received(fd, chunk) =>
        var r := ReadAll(BufferOf(st.connections, fd) + chunk);
        DispatchAllKeepsGood(st, fd, r.requests);
        var done := DispatchAll(st, fd, r.requests);
        WithoutFds(done.connections, fd);
        var kept := WithBuffer(done.connections, fd, r.rest);
        assert forall i :: 0 <= i < |kept| ==> kept[i].fd == done.connections[i].fd;
      case HungUp(fd) =>
        WithoutFds(st.connections, fd);
    }
  }

  /** In every reachable state the owner index holds exactly the ids resting in the book. */
  lemma {:induction false} ServeKeepsGood(st: ServerState, events: seq<Event>)
    requires st.Good()
    ensures Serve(st, events).Good()
    decreases |events|
  {
    if events != [] {
      ReactKeepsGood(st, events[0]);
      ServeKeepsGood(React(st, events[0]), events[1..]);
    }
  }

  lemma ReachableIsGood(events: seq<Event>)
    ensures Serve(Started, events).Good()
  {
    assert Started.Good();
    ServeKeepsGood(Started, events);
  }
}
