/** The whole server against a simple account of it (engine/src/server.cpp): any events on any number
    of connections come down to a list of deeds that does not depend on the book, the book runs their
    commands, and what a descriptor is sent can be read off that list. */
module Traffic {
  import opened Orders
  import opened BookSpec
  import opened Wire
  import opened Framing
  import opened ServerSpec
  import opened Routing
  import opened Sessions

  // ----- what the events ask for -----

  /** Someone makes a request, or leaves. */
  datatype Deed = Asked(fd: int, request: Request) | Left(fd: int)

  /** The open descriptors and the bytes each of them has sent that are not read yet. */
  type Lines = map<int, seq<Byte>>

  function AskedFor(fd: int, requests: seq<Request>): (deeds: seq<Deed>)
    ensures |deeds| == |requests|
    ensures forall i :: 0 <= i < |deeds| ==> deeds[i] == Asked(fd, requests[i])
  {
    seq(|requests|, i requires 0 <= i < |requests| => Asked(fd, requests[i]))
  }

  /** What an event does to the lines, and the deeds it amounts to. */
  function Heed(lines: Lines, e: Event): (Lines, seq<Deed>) {
    match e
    case Accepted(fd) => (if fd in lines then lines else lines[fd := []], [])
    case Received(fd, chunk) =>
      if fd !in lines then (lines, [])
      else
        var r := ReadAll(lines[fd] + chunk);
        if r.open then (lines[fd := r.rest], AskedFor(fd, r.requests))
        else (lines - {fd}, AskedFor(fd, r.requests) + [Left(fd)])
    case HungUp(fd) => (lines - {fd}, [Left(fd)])
  }

  function Deeds(lines: Lines, events: seq<Event>): seq<Deed>
    decreases |events|
  {
    if events == [] then []
    else
      var (lines', deeds) := Heed(lines, events[0]);
      deeds + Deeds(lines', events[1..])
  }

  /** The commands among the deeds, in order. */
  function CommandsIn(deeds: seq<Deed>): seq<Command> {
    if deeds == [] then []
    else (if deeds[0].Asked? then CommandsOf([deeds[0].request]) else []) + CommandsIn(deeds[1..])
  }

  // ----- the simple account -----

  /** The book, who last had an order of each id accepted, and who is subscribed. */
  datatype Desk = Desk(book: Book, submitter: map<nat, int>, subscribers: set<int>)

  const Opened := Desk(EmptyBook, map[], {})

  function After(d: Desk, deed: Deed): Desk {
    match deed
    case Left(fd) => d.(subscribers := d.subscribers - {fd})
    case Asked(fd, NewOrderRequest(m)) =>
      if m.id in d.book.RestingIds() then d
      else d.(book := Submit(d.book, OrderOf(m)).0, submitter := d.submitter[m.id := fd])
    case Asked(fd, CancelRequest(id)) => d.(book := Cancel(d.book, id).0)
    case Asked(fd, SubscribeRequest) => d.(subscribers := d.subscribers + {fd})
  }

  function AfterAll(d: Desk, deeds: seq<Deed>): Desk
    decreases |deeds|
  {
    if deeds == [] then d else AfterAll(After(d, deeds[0]), deeds[1..])
  }

  /** A fill of fd's order concerns x: x submitted either order or is subscribed. */
  predicate Concerns(d: Desk, fd: int, f: Fill, x: int) {
    x == fd || x in d.subscribers || (f.restingId in d.submitter && d.submitter[f.restingId] == x)
  }

  function NoticesTo(d: Desk, fd: int, fills: seq<Fill>, x: int): seq<Message> {
    if fills == [] then []
    else
      var f := fills[|fills| - 1];
      NoticesTo(d, fd, fills[..|fills| - 1], x) + if Concerns(d, fd, f, x) then [FillNotice(f)] else []
  }

  /** An ack, for the one who asked. */
  function AckTo(fd: int, ack: Message, x: int): seq<Message> {
    if x == fd then [ack] else []
  }

  /** What x hears of a deed. */
  function Hears(d: Desk, deed: Deed, x: int): seq<Message> {
    match deed
    case Left(fd) => []
    case Asked(fd, NewOrderRequest(m)) =>
      if m.id in d.book.RestingIds() then AckTo(fd, Ack(m.id, NEW_ORDER, 1), x)
      else AckTo(fd, Ack(m.id, NEW_ORDER, 0), x) + NoticesTo(d, fd, Submit(d.book, OrderOf(m)).1, x)
    case Asked(fd, CancelRequest(id)) => AckTo(fd, Ack(id, CANCEL, if id in d.book.RestingIds() then 0 else 1), x)
    case Asked(fd, SubscribeRequest) => []
  }

  function HearsAll(d: Desk, deeds: seq<Deed>, x: int): seq<Message>
    decreases |deeds|
  {
    if deeds == [] then [] else Hears(d, deeds[0], x) + HearsAll(After(d, deeds[0]), deeds[1..], x)
  }

  // ----- the server keeps to it -----

  function SubscribedFds(connections: seq<Connection>): set<int> {
    set c | c in connections && c.subscribed :: c.fd
  }

  /** Same book, the owner index a part of the submitters, same subscribers. */
  ghost predicate Agree(st: ServerState, d: Desk) {
    && st.Good() && st.book == d.book
    && (forall id :: id in st.owner ==> id in d.submitter && d.submitter[id] == st.owner[id])
    && SubscribedFds(st.connections) == d.subscribers
  }

  /** The read buffers are the lines. */
  ghost predicate Lined(connections: seq<Connection>, lines: Lines) {
    && (forall x :: x in lines <==> Connected(connections, x))
    && (forall x :: x in lines ==> lines[x] == BufferOf(connections, x))
  }

  lemma {:induction false} SameNotices(st: ServerState, d: Desk, fd: int, fills: seq<Fill>, x: int)
    requires Agree(st, d) && forall i :: 0 <= i < |fills| ==> fills[i].restingId in st.owner
    ensures Notices(st, fd, fills, x) == NoticesTo(d, fd, fills, x)
  {
    if fills != [] {
      SameNotices(st, d, fd, fills[..|fills| - 1], x);
    }
  }

  lemma OrderAgrees(st: ServerState, d: Desk, fd: int, m: OrderMsg)
    requires Agree(st, d)
    ensures Agree(DispatchOrder(st, fd, m), After(d, Asked(fd, NewOrderRequest(m))))
  {
    DispatchKeepsGood(st, fd, NewOrderRequest(m));
  }

  lemma OrderHeard(st: ServerState, d: Desk, fd: int, m: OrderMsg, x: int)
    requires Agree(st, d)
    ensures Stream(DispatchOrder(st, fd, m).sent, x) == Stream(st.sent, x) + Hears(d, Asked(fd, NewOrderRequest(m)), x)
  {
    OrderRouting(st, fd, m, x);
    if m.id !in st.book.RestingIds() {
      var fills := Submit(st.book, OrderOf(m)).1;
      SameNotices(st, d, fd, fills, x);
      AppendThree(Stream(st.sent, x), AckTo(fd, Ack(m.id, NEW_ORDER, 0), x), NoticesTo(d, fd, fills, x));
    }
  }

  lemma AppendThree<T>(a: seq<T>, b: seq<T>, c: seq<T>)
    ensures (a + b) + c == a + (b + c)
  {
  }

  lemma SubscribeAgrees(connections: seq<Connection>, fd: int)
    requires Connected(connections, fd)
    ensures SubscribedFds(Subscribe(connections, fd)) == SubscribedFds(connections) + {fd}
  {
    var after := Subscribe(connections, fd);
    forall x | x in SubscribedFds(connections) + {fd} ensures x in SubscribedFds(after) {
      if x == fd {
        var i :| 0 <= i < |connections| && connections[i].fd == fd;
        assert after[i].subscribed && after[i] in after;
      } else {
        var c :| c in connections && c.subscribed && c.fd == x;
        var i :| 0 <= i < |connections| && connections[i] == c;
        assert after[i] == c;
      }
    }
    forall x | x in SubscribedFds(after) ensures x in SubscribedFds(connections) + {fd} {
      var c :| c in after && c.subscribed && c.fd == x;
      var i :| 0 <= i < |after| && after[i] == c;
      assert connections[i] in connections;
    }
  }

  /** One request: the server and the account agree on the outcome and on what everyone is sent. */
  lemma DispatchAgrees(st: ServerState, d: Desk, fd: int, r: Request)
    requires Agree(st, d) && Connected(st.connections, fd)
    ensures Agree(Dispatch(st, fd, r), After(d, Asked(fd, r)))
    ensures forall x :: Stream(Dispatch(st, fd, r).sent, x) == Stream(st.sent, x) + Hears(d, Asked(fd, r), x)
  {
    match r {
      case NewOrderRequest(m) =>
        OrderAgrees(st, d, fd, m);
        forall x ensures Stream(DispatchOrder(st, fd, m).sent, x) == Stream(st.sent, x) + Hears(d, Asked(fd, r), x) {
          OrderHeard(st, d, fd, m, x);
        }
      case CancelRequest(id) =>
        DispatchKeepsGood(st, fd, r);
        forall x ensures Stream(DispatchCancel(st, fd, id).sent, x) == Stream(st.sent, x) + Hears(d, Asked(fd, r), x) {
          CancelRouting(st, fd, id, x);
        }
      case SubscribeRequest =>
        DispatchKeepsGood(st, fd, r);
        SubscribeAgrees(st.connections, fd);
    }
  }

  lemma DispatchKeepsConnected(st: ServerState, fd: int, r: Request)
    requires Connected(st.connections, fd)
    ensures Connected(Dispatch(st, fd, r).connections, fd)
  {
    var i :| 0 <= i < |st.connections| && st.connections[i].fd == fd;
    assert Dispatch(st, fd, r).connections[i].fd == fd;
  }

  /** Deeds on from where the account stands: where it ends and what x has been sent by then. */
  ghost predicate Told(d: Desk, before: seq<Message>, deeds: seq<Deed>, x: int, after: seq<Message>) {
    after == before + HearsAll(d, deeds, x)
  }

  lemma ToldOne(d: Desk, a: seq<Message>, deed: Deed, deeds: seq<Deed>, x: int, b: seq<Message>, c: seq<Message>)
    requires b == a + Hears(d, deed, x) && Told(After(d, deed), b, deeds, x, c)
    ensures Told(d, a, [deed] + deeds, x, c)
  {
    assert ([deed] + deeds)[1..] == deeds;
    AppendThree(a, Hears(d, deed, x), HearsAll(After(d, deed), deeds, x));
  }

  lemma AfterOne(d: Desk, deed: Deed, deeds: seq<Deed>)
    ensures AfterAll(d, [deed] + deeds) == AfterAll(After(d, deed), deeds)
  {
    assert ([deed] + deeds)[1..] == deeds;
  }

  lemma {:induction false} DispatchAllAgrees(st: ServerState, d: Desk, fd: int, requests: seq<Request>)
    requires Agree(st, d) && Connected(st.connections, fd)
    ensures var after, deeds := DispatchAll(st, fd, requests), AskedFor(fd, requests);
      && Agree(after, AfterAll(d, deeds))
      && forall x :: Told(d, Stream(st.sent, x), deeds, x, Stream(after.sent, x))
    decreases |requests|
  {
    if requests != [] {
      var r, rest := requests[0], requests[1..];
      var next, deed := Dispatch(st, fd, r), Asked(fd, r);
      var after := DispatchAll(next, fd, rest);
      DispatchAgrees(st, d, fd, r);
      DispatchKeepsConnected(st, fd, r);
      DispatchAllAgrees(next, After(d, deed), fd, rest);
      assert AskedFor(fd, requests) == [deed] + AskedFor(fd, rest);
      AfterOne(d, deed, AskedFor(fd, rest));
      forall x ensures Told(d, Stream(st.sent, x), [deed] + AskedFor(fd, rest), x, Stream(after.sent, x)) {
        ToldOne(d, Stream(st.sent, x), deed, AskedFor(fd, rest), x, Stream(next.sent, x), Stream(after.sent, x));
      }
    }
  }

  // ----- connections -----

  lemma BufferedAgrees(st: ServerState, d: Desk, fd: int, buf: seq<Byte>)
    requires Agree(st, d)
    ensures Agree(st.(connections := WithBuffer(st.connections, fd, buf)), d)
  {
    var r := WithBuffer(st.connections, fd, buf);
    assert forall i :: 0 <= i < |r| ==> r[i].fd == st.connections[i].fd && r[i].subscribed == st.connections[i].subscribed;
    forall x | x in SubscribedFds(st.connections) ensures x in SubscribedFds(r) {
      var c :| c in st.connections && c.subscribed && c.fd == x;
      var i :| 0 <= i < |r| && st.connections[i] == c;
      assert r[i] in r;
    }
    forall x | x in SubscribedFds(r) ensures x in SubscribedFds(st.connections) {
      var c :| c in r && c.subscribed && c.fd == x;
      var i :| 0 <= i < |r| && r[i] == c;
      assert st.connections[i] in st.connections;
    }
  }

  lemma LeftAgrees(st: ServerState, d: Desk, fd: int)
    requires Agree(st, d)
    ensures Agree(st.(connections := Without(st.connections, fd)), After(d, Left(fd)))
  {
    WithoutFds(st.connections, fd);
  }

  lemma AcceptedAgrees(st: ServerState, d: Desk, fd: int)
    requires Agree(st, d) && !Connected(st.connections, fd)
    ensures Agree(st.(connections := st.connections + [Connection(fd, [], false)]), d)
  {
    var r := st.connections + [Connection(fd, [], false)];
    assert forall c :: c in r && c.subscribed <==> c in st.connections && c.subscribed;
  }

  lemma ConnectedMember(connections: seq<Connection>, fd: int)
    ensures Connected(connections, fd) <==> exists c :: c in connections && c.fd == fd
  {
    if Connected(connections, fd) {
      var i :| 0 <= i < |connections| && connections[i].fd == fd;
      assert connections[i] in connections;
    }
    if c :| c in connections && c.fd == fd {
      var i :| 0 <= i < |connections| && connections[i] == c;
    }
  }

  lemma {:induction false} BufferAppended(connections: seq<Connection>, c: Connection, x: int)
    ensures Connected(connections, x) ==> BufferOf(connections + [c], x) == BufferOf(connections, x)
    ensures !Connected(connections, x) && c.fd == x ==> BufferOf(connections + [c], x) == c.readBuf
  {
    var r := connections + [c];
    if connections == [] {
      assert r == [c];
    } else {
      assert r[0] == connections[0] && r[1..] == connections[1..] + [c];
      ConnectedTail(connections, x);
      BufferAppended(connections[1..], c, x);
    }
  }

  lemma ConnectedTail(connections: seq<Connection>, x: int)
    requires connections != []
    ensures Connected(connections, x) <==> connections[0].fd == x || Connected(connections[1..], x)
  {
    if Connected(connections, x) && connections[0].fd != x {
      var i :| 0 <= i < |connections| && connections[i].fd == x;
      assert connections[1..][i - 1].fd == x;
    }
    if Connected(connections[1..], x) {
      var i :| 0 <= i < |connections[1..]| && connections[1..][i].fd == x;
      assert connections[i + 1].fd == x;
    }
  }

  lemma AcceptedLined(connections: seq<Connection>, lines: Lines, fd: int)
    requires Lined(connections, lines) && fd !in lines
    ensures Lined(connections + [Connection(fd, [], false)], lines[fd := []])
  {
    var c := Connection(fd, [], false);
    forall x ensures Connected(connections + [c], x) <==> Connected(connections, x) || x == fd {
      ConnectedMember(connections, x);
      ConnectedMember(connections + [c], x);
      assert c in connections + [c];
    }
    forall x | x in lines || x == fd ensures BufferOf(connections + [c], x) == lines[fd := []][x] {
      BufferAppended(connections, c, x);
    }
  }

  /** Other descriptors keep their buffers. */
  lemma {:induction false} BufferElsewhere(connections: seq<Connection>, fd: int, buf: seq<Byte>, x: int)
    requires x != fd
    ensures BufferOf(WithBuffer(connections, fd, buf), x) == BufferOf(connections, x)
  {
    if connections != [] {
      assert WithBuffer(connections, fd, buf)[1..] == WithBuffer(connections[1..], fd, buf);
      BufferElsewhere(connections[1..], fd, buf, x);
    }
  }

  lemma {:induction false} BufferRemaining(connections: seq<Connection>, fd: int, x: int)
    requires x != fd
    ensures BufferOf(Without(connections, fd), x) == BufferOf(connections, x)
    ensures Connected(Without(connections, fd), x) <==> Connected(connections, x)
  {
    if connections != [] {
      BufferRemaining(connections[1..], fd, x);
      ConnectedTail(connections, x);
      var head := if connections[0].fd == fd then [] else [connections[0]];
      var rest := Without(connections[1..], fd);
      if head == [] {
        assert head + rest == rest;
      } else {
        assert (head + rest)[0] == connections[0] && (head + rest)[1..] == rest;
        ConnectedTail(head + rest, x);
      }
    }
  }

  lemma {:induction false} Gone(connections: seq<Connection>, fd: int)
    ensures !Connected(Without(connections, fd), fd)
  {
    if connections != [] {
      Gone(connections[1..], fd);
      var head := if connections[0].fd == fd then [] else [connections[0]];
      var rest := Without(connections[1..], fd);
      if head == [] {
        assert head + rest == rest;
      } else {
        assert (head + rest)[0] == connections[0] && (head + rest)[1..] == rest;
        ConnectedTail(head + rest, fd);
      }
    }
  }

  lemma LeftLined(connections: seq<Connection>, lines: Lines, fd: int)
    requires Lined(connections, lines)
    ensures Lined(Without(connections, fd), lines - {fd})
  {
    Gone(connections, fd);
    forall x | x != fd
      ensures BufferOf(Without(connections, fd), x) == BufferOf(connections, x)
      ensures Connected(Without(connections, fd), x) <==> Connected(connections, x)
    {
      BufferRemaining(connections, fd, x);
    }
  }

  lemma SameFdsConnected(a: seq<Connection>, b: seq<Connection>, x: int)
    requires |a| == |b| && forall i :: 0 <= i < |a| ==> a[i].fd == b[i].fd
    ensures Connected(a, x) <==> Connected(b, x)
  {
    if Connected(a, x) {
      var i :| 0 <= i < |a| && a[i].fd == x;
      assert b[i].fd == x;
    }
    if Connected(b, x) {
      var i :| 0 <= i < |b| && b[i].fd == x;
      assert a[i].fd == x;
    }
  }

  lemma BufferedLined(connections: seq<Connection>, lines: Lines, fd: int, buf: seq<Byte>)
    requires Lined(connections, lines) && fd in lines
    ensures Lined(WithBuffer(connections, fd, buf), lines[fd := buf])
  {
    BufferAfter(connections, fd, buf);
    forall x ensures Connected(WithBuffer(connections, fd, buf), x) <==> Connected(connections, x) {
      SameFdsConnected(WithBuffer(connections, fd, buf), connections, x);
    }
    forall x | x in lines && x != fd ensures BufferOf(WithBuffer(connections, fd, buf), x) == lines[x] {
      BufferElsewhere(connections, fd, buf, x);
    }
  }

  lemma {:induction false} SubscribeKeepsBuffers(connections: seq<Connection>, fd: int, x: int)
    ensures BufferOf(Subscribe(connections, fd), x) == BufferOf(connections, x)
  {
    if connections != [] {
      assert Subscribe(connections, fd)[1..] == Subscribe(connections[1..], fd);
      SubscribeKeepsBuffers(connections[1..], fd, x);
    }
  }

  lemma {:induction false} DispatchAllLined(st: ServerState, fd: int, requests: seq<Request>, lines: Lines)
    requires Lined(st.connections, lines)
    ensures Lined(DispatchAll(st, fd, requests).connections, lines)
    decreases |requests|
  {
    if requests != [] {
      DispatchLined(st, fd, requests[0], lines);
      DispatchAllLined(Dispatch(st, fd, requests[0]), fd, requests[1..], lines);
    }
  }

  lemma DispatchLined(st: ServerState, fd: int, r: Request, lines: Lines)
    requires Lined(st.connections, lines)
    ensures Lined(Dispatch(st, fd, r).connections, lines)
  {
    if r.SubscribeRequest? {
      var after := Subscribe(st.connections, fd);
      forall x ensures Connected(after, x) <==> Connected(st.connections, x) {
        SameFdsConnected(after, st.connections, x);
      }
      forall x ensures BufferOf(after, x) == BufferOf(st.connections, x) {
        SubscribeKeepsBuffers(st.connections, fd, x);
      }
    }
  }

  // ----- events -----

  lemma {:induction false} AfterAppend(d: Desk, a: seq<Deed>, b: seq<Deed>)
    ensures AfterAll(d, a + b) == AfterAll(AfterAll(d, a), b)
    decreases |a|
  {
    if a == [] {
      assert a + b == b;
    } else {
      assert (a + b)[0] == a[0] && (a + b)[1..] == a[1..] + b;
      AfterAppend(After(d, a[0]), a[1..], b);
    }
  }

  lemma {:induction false} HearsAppend(d: Desk, a: seq<Deed>, b: seq<Deed>, x: int)
    ensures HearsAll(d, a + b, x) == HearsAll(d, a, x) + HearsAll(AfterAll(d, a), b, x)
    decreases |a|
  {
    if a == [] {
      assert a + b == b;
    } else {
      var next := After(d, a[0]);
      assert (a + b)[0] == a[0] && (a + b)[1..] == a[1..] + b;
      HearsAppend(next, a[1..], b, x);
      AppendThree(Hears(d, a[0], x), HearsAll(next, a[1..], x), HearsAll(AfterAll(next, a[1..]), b, x));
    }
  }

  lemma LastLeaves(d: Desk, deeds: seq<Deed>, fd: int)
    ensures AfterAll(d, deeds + [Left(fd)]) == After(AfterAll(d, deeds), Left(fd))
    ensures forall x :: HearsAll(d, deeds + [Left(fd)], x) == HearsAll(d, deeds, x)
  {
    var last := [Left(fd)];
    assert last[1..] == [];
    forall x ensures HearsAll(d, deeds + last, x) == HearsAll(d, deeds, x) {
      HearsAppend(d, deeds, last, x);
      assert HearsAll(AfterAll(d, deeds), last, x) == [];
    }
    AfterAppend(d, deeds, last);
  }

  lemma NoDeeds(d: Desk, heard: seq<Message>, x: int)
    ensures AfterAll(d, []) == d && Told(d, heard, [], x, heard)
  {
  }

  /** The account goes on to agree with the server, and everyone has been sent what it says. */
  ghost predicate Kept(st: ServerState, d: Desk, deeds: seq<Deed>, after: ServerState) {
    Agree(after, AfterAll(d, deeds)) && forall x :: Told(d, Stream(st.sent, x), deeds, x, Stream(after.sent, x))
  }

  lemma BytesAgree(st: ServerState, d: Desk, lines: Lines, fd: int, chunk: seq<Byte>)
    requires Agree(st, d) && Lined(st.connections, lines) && fd in lines
    ensures var (lines', deeds) := Heed(lines, Received(fd, chunk));
      Kept(st, d, deeds, HandleBytes(st, fd, chunk))
      && Lined(HandleBytes(st, fd, chunk).connections, lines')
  {
    var r := ReadAll(BufferOf(st.connections, fd) + chunk);
    var done, asked := DispatchAll(st, fd, r.requests), AskedFor(fd, r.requests);
    DispatchAllAgrees(st, d, fd, r.requests);
    DispatchAllLined(st, fd, r.requests, lines);
    if r.open {
      BufferedAgrees(done, AfterAll(d, asked), fd, r.rest);
      BufferedLined(done.connections, lines, fd, r.rest);
    } else {
      LeftAgrees(done, AfterAll(d, asked), fd);
      LeftLined(done.connections, lines, fd);
      LastLeaves(d, asked, fd);
    }
  }

  lemma ReactAgrees(st: ServerState, d: Desk, lines: Lines, e: Event)
    requires Agree(st, d) && Lined(st.connections, lines)
    ensures var (lines', deeds) := Heed(lines, e);
      Kept(st, d, deeds, React(st, e)) && Lined(React(st, e).connections, lines')
  {
    match e {
      case Accepted(fd) =>
        if fd !in lines {
          AcceptedAgrees(st, d, fd);
          AcceptedLined(st.connections, lines, fd);
        }
      case Received(fd, chunk) =>
        if fd in lines {
          BytesAgree(st, d, lines, fd, chunk);
        }
      case HungUp(fd) =>
        LeftAgrees(st, d, fd);
        LeftLined(st.connections, lines, fd);
        LastLeaves(d, [], fd);
        assert [] + [Left(fd)] == [Left(fd)];
    }
  }

  lemma ToldMore(d: Desk, a: seq<Message>, first: seq<Deed>, b: seq<Message>, second: seq<Deed>, c: seq<Message>, x: int)
    requires Told(d, a, first, x, b) && Told(AfterAll(d, first), b, second, x, c)
    ensures Told(d, a, first + second, x, c)
  {
    HearsAppend(d, first, second, x);
    AppendThree(a, HearsAll(d, first, x), HearsAll(AfterAll(d, first), second, x));
  }

  lemma {:induction false} ServeAgrees(st: ServerState, d: Desk, lines: Lines, events: seq<Event>)
    requires Agree(st, d) && Lined(st.connections, lines)
    ensures var after, deeds := Serve(st, events), Deeds(lines, events);
      && Agree(after, AfterAll(d, deeds))
      && forall x :: Told(d, Stream(st.sent, x), deeds, x, Stream(after.sent, x))
    decreases |events|
  {
    if events != [] {
      var e, rest := events[0], events[1..];
      var (lines', first) := Heed(lines, e);
      var next, mid := React(st, e), AfterAll(d, first);
      ReactAgrees(st, d, lines, e);
      ServeAgrees(next, mid, lines', rest);
      var after, second := Serve(next, rest), Deeds(lines', rest);
      AfterAppend(d, first, second);
      forall x ensures Told(d, Stream(st.sent, x), first + second, x, Stream(after.sent, x)) {
        ToldMore(d, Stream(st.sent, x), first, Stream(next.sent, x), second, Stream(after.sent, x), x);
      }
    }
  }

  // ----- the book runs the commands -----

  lemma StepsTo(d: Desk, deed: Deed)
    ensures After(d, deed).book == Run(d.book, CommandsIn([deed])).0
  {
    assert [deed][1..] == [];
    if deed.Asked? {
      var r := deed.request;
      assert [r][1..] == [] && CommandsIn([deed]) == CommandsOf([r]);
      match r {
        case NewOrderRequest(m) => RunSingle(d.book, SubmitOrder(OrderOf(m)));
        case CancelRequest(id) => RunSingle(d.book, CancelOrder(id));
        case SubscribeRequest =>
      }
    }
  }

  lemma CommandsInCons(deeds: seq<Deed>)
    requires deeds != []
    ensures CommandsIn(deeds) == CommandsIn([deeds[0]]) + CommandsIn(deeds[1..])
  {
    assert [deeds[0]][1..] == [];
    assert CommandsIn([]) == [];
  }

  lemma {:induction false} DeskRuns(d: Desk, deeds: seq<Deed>)
    ensures AfterAll(d, deeds).book == Run(d.book, CommandsIn(deeds)).0
    decreases |deeds|
  {
    if deeds != [] {
      StepsTo(d, deeds[0]);
      DeskRuns(After(d, deeds[0]), deeds[1..]);
      CommandsInCons(deeds);
      RunAppend(d.book, CommandsIn([deeds[0]]), CommandsIn(deeds[1..]));
    }
  }

  /** Whatever happens on however many connections: the requests the server acts on, and their order,
      do not depend on the book; its book is what their commands make of the empty book; and each
      descriptor has been sent exactly its acks and the notices of the fills that concerned it, in
      order. */
  lemma ServerIsDesk(events: seq<Event>)
    ensures var after, deeds := Serve(Started, events), Deeds(map[], events);
      && after.book == Run(EmptyBook, CommandsIn(deeds)).0
      && forall x :: Stream(after.sent, x) == HearsAll(Opened, deeds, x)
  {
    assert Agree(Started, Opened) by {
      ReachableIsGood([]);
    }
    assert Lined(Started.connections, map[]);
    ServeAgrees(Started, Opened, map[], events);
    var after, deeds := Serve(Started, events), Deeds(map[], events);
    DeskRuns(Opened, deeds);
    forall x ensures Stream(after.sent, x) == HearsAll(Opened, deeds, x) {
      assert Told(Opened, Stream(Started.sent, x), deeds, x, Stream(after.sent, x));
      assert [] + HearsAll(Opened, deeds, x) == HearsAll(Opened, deeds, x);
    }
  }

  // ----- a subscriber hears the run -----

  lemma {:induction false} SubscriberNoticed(d: Desk, fd: int, fills: seq<Fill>, x: int)
    requires x in d.subscribers
    ensures NoticesTo(d, fd, fills, x) == NoticesOf(fills)
  {
    if fills != [] {
      SubscriberNoticed(d, fd, fills[..|fills| - 1], x);
    }
  }

  lemma FillsOfAck(fd: int, ack: Message, x: int)
    requires ack.Ack?
    ensures FillsOf(AckTo(fd, ack, x)) == []
  {
    assert [ack][1..] == [];
  }

  lemma SubscriberHearsStep(d: Desk, deed: Deed, x: int)
    requires x in d.subscribers
    ensures FillsOf(Hears(d, deed, x)) == Run(d.book, CommandsIn([deed])).1
  {
    assert [deed][1..] == [];
    if deed.Asked? {
      var r := deed.request;
      assert [r][1..] == [] && CommandsIn([deed]) == CommandsOf([r]);
      match r {
        case NewOrderRequest(m) =>
          RunSingle(d.book, SubmitOrder(OrderOf(m)));
          FillsOfAck(deed.fd, Ack(m.id, NEW_ORDER, 0), x);
          FillsOfAck(deed.fd, Ack(m.id, NEW_ORDER, 1), x);
          var fills := Submit(d.book, OrderOf(m)).1;
          SubscriberNoticed(d, deed.fd, fills, x);
          FillsOfAppend(AckTo(deed.fd, Ack(m.id, NEW_ORDER, 0), x), NoticesOf(fills));
          FillsOfNotices(fills);
        case CancelRequest(id) =>
          RunSingle(d.book, CancelOrder(id));
          FillsOfAck(deed.fd, Ack(id, CANCEL, if id in d.book.RestingIds() then 0 else 1), x);
        case SubscribeRequest =>
      }
    }
  }

  lemma {:induction false} SubscriberHears(d: Desk, deeds: seq<Deed>, x: int)
    requires x in d.subscribers && Left(x) !in deeds
    ensures FillsOf(HearsAll(d, deeds, x)) == Run(d.book, CommandsIn(deeds)).1
    decreases |deeds|
  {
    if deeds != [] {
      var deed, rest := deeds[0], deeds[1..];
      SubscriberHearsStep(d, deed, x);
      StepsTo(d, deed);
      SubscriberHears(After(d, deed), rest, x);
      FillsOfAppend(Hears(d, deed, x), HearsAll(After(d, deed), rest, x));
      CommandsInCons(deeds);
      RunAppend(d.book, CommandsIn([deed]), CommandsIn(rest));
    }
  }

  /** Who subscribes first and stays hears every fill of the whole run, whoever trades. */
  lemma SubscriberHearsRun(events: seq<Event>, x: int)
    requires var deeds := Deeds(map[], events);
      deeds != [] && deeds[0] == Asked(x, SubscribeRequest) && Left(x) !in deeds
    ensures FillsOf(Stream(Serve(Started, events).sent, x)) == Run(EmptyBook, CommandsIn(Deeds(map[], events))).1
  {
    ServerIsDesk(events);
    var deeds := Deeds(map[], events);
    var d, rest := After(Opened, deeds[0]), deeds[1..];
    assert CommandsOf([SubscribeRequest]) == [] by {
      assert [SubscribeRequest][1..] == [];
    }
    assert CommandsIn(deeds) == CommandsIn(rest);
    assert HearsAll(Opened, deeds, x) == HearsAll(d, rest, x);
    SubscriberHears(d, rest, x);
  }

  // ----- what closes a connection -----

  /** Bytes that no client may send close the connection, and only it: the requests in front of them
      are dispatched, and the sender is no longer connected. */
  lemma ViolationDisconnects(st: ServerState, fd: int, requests: seq<Request>, tag: Byte, more: seq<Byte>)
    requires Connected(st.connections, fd) && BufferOf(st.connections, fd) == []
    requires (tag != 0x01 && tag != 0x02 && tag != 0x03 && tag != 0x10 && tag != 0x11)
      || (tag == 0x10 && |more| >= 37) || (tag == 0x11 && |more| >= 10)
    ensures var after, done := HandleBytes(st, fd, EncodeRequests(requests) + ([tag] + more)), DispatchAll(st, fd, requests);
      && after.book == done.book && after.owner == done.owner && after.sent == done.sent
      && !Connected(after.connections, fd)
      && forall x :: x != fd ==> (Connected(after.connections, x) <==> Connected(st.connections, x))
  {
    var bytes := EncodeRequests(requests) + ([tag] + more);
    assert [] + bytes == bytes;
    if tag == 0x10 || tag == 0x11 {
      ServerTagCloses(requests, tag, more);
    } else {
      UnknownTagCloses(requests, tag, more);
    }
    var done := DispatchAll(st, fd, requests);
    Gone(done.connections, fd);
    DispatchAllKeepsFds(st, fd, requests);
    forall x | x != fd ensures Connected(Without(done.connections, fd), x) <==> Connected(st.connections, x) {
      BufferRemaining(done.connections, fd, x);
      SameFdsConnected(done.connections, st.connections, x);
    }
  }

  /** Whoever sends nothing but requests, whole or in part, stays connected. */
  lemma RequestsStayConnected(st: ServerState, fd: int, requests: seq<Request>, tag: Byte, payload: seq<Byte>)
    requires Connected(st.connections, fd) && BufferOf(st.connections, fd) == []
    requires (tag == 0x01 && |payload| < 22) || (tag == 0x02 && |payload| < 8)
    ensures var after := HandleBytes(st, fd, EncodeRequests(requests) + ([tag] + payload));
      && Connected(after.connections, fd) && BufferOf(after.connections, fd) == [tag] + payload
      && after.sent == DispatchAll(st, fd, requests).sent
  {
    var bytes := EncodeRequests(requests) + ([tag] + payload);
    assert [] + bytes == bytes;
    PartialFrameWaits(requests, tag, payload);
    StaysConnected(st, fd, bytes);
    BufferLeft(st, fd, bytes);
  }
}
