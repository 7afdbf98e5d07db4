/** Who gets what: the exact stream of messages each descriptor is sent, and chunk independence of
    the whole server. */
module Routing {
  import opened Orders
  import opened Matching
  import opened BookSpec
  import opened Wire
  import opened Framing
  import opened ServerSpec

  /** The messages sent to one descriptor, in order. */
  function Stream(sent: seq<Sent>, fd: int): seq<Message> {
    if sent == [] then []
    else (if sent[0].fd == fd then [sent[0].message] else []) + Stream(sent[1..], fd)
  }

  lemma {:induction false} StreamAppend(a: seq<Sent>, b: seq<Sent>, fd: int)
    ensures Stream(a + b, fd) == Stream(a, fd) + Stream(b, fd)
  {
    if a == [] {
      assert a + b == b;
    } else {
      var head := if a[0].fd == fd then [a[0].message] else [];
      assert (a + b)[1..] == a[1..] + b && (a + b)[0] == a[0];
      StreamAppend(a[1..], b, fd);
      assert head + (Stream(a[1..], fd) + Stream(b, fd)) == head + Stream(a[1..], fd) + Stream(b, fd);
    }
  }

  ghost predicate NoDuplicates(fds: seq<int>) {
    forall i, j :: 0 <= i < j < |fds| ==> fds[i] != fds[j]
  }

  /** The descriptors a fill concerns: the submitter, the owner of the resting order, and every subscriber. */
  function Audience(st: ServerState, fd: int, restingId: nat): set<int>
    requires restingId in st.owner
  {
    {fd, st.owner[restingId]} + set c | c in st.connections && c.subscribed :: c.fd
  }

  lemma {:induction false} SubscribersAre(connections: seq<Connection>, served: seq<int>)
    requires DistinctFds(connections)
    ensures NoDuplicates(Subscribers(connections, served))
    ensures forall x :: x in Subscribers(connections, served) <==>
      x !in served && exists c :: c in connections && c.subscribed && c.fd == x
  {
    if connections != [] {
      var init, last := connections[..|connections| - 1], connections[|connections| - 1];
      SubscribersAre(init, served);
      assert connections == init + [last];
      LastFdIsNew(connections);
      var r := Subscribers(init, served);
      assert forall i :: 0 <= i < |r| ==> r[i] in r;
    }
  }

  lemma LastFdIsNew(connections: seq<Connection>)
    requires DistinctFds(connections) && connections != []
    ensures forall c :: c in connections[..|connections| - 1] ==> c.fd != connections[|connections| - 1].fd
  {
    var n := |connections| - 1;
    forall c | c in connections[..n] ensures c.fd != connections[n].fd {
      var j :| 0 <= j < n && connections[j] == c;
    }
  }

  lemma RecipientsAre(st: ServerState, fd: int, restingId: nat)
    requires DistinctFds(st.connections) && restingId in st.owner
    ensures var r := Recipients(fd, st.owner, st.connections, restingId);
      NoDuplicates(r) && forall x :: x in r <==> x in Audience(st, fd, restingId)
  {
    var parties := Parties(fd, st.owner, restingId);
    var subscribers := Subscribers(st.connections, parties);
    SubscribersAre(st.connections, parties);
    assert forall x :: x in parties <==> x in {fd, st.owner[restingId]};
    var r := parties + subscribers;
    forall i, j | 0 <= i < j < |r| ensures r[i] != r[j] {
      if i < |parties| <= j {
        assert r[i] in parties && r[j] in subscribers;
      }
    }
  }

  lemma StreamOfOne(sent: Sent, x: int)
    ensures Stream([sent], x) == if sent.fd == x then [sent.message] else []
  {
    assert [sent][1..] == [];
  }

  lemma StreamSnoc(sent: seq<Sent>, last: Sent, x: int)
    ensures Stream(sent + [last], x) == Stream(sent, x) + if last.fd == x then [last.message] else []
  {
    StreamAppend(sent, [last], x);
    StreamOfOne(last, x);
  }

  lemma LastIsNew(fds: seq<int>)
    requires NoDuplicates(fds) && fds != []
    ensures NoDuplicates(fds[..|fds| - 1]) && fds[|fds| - 1] !in fds[..|fds| - 1]
  {
  }

  lemma {:induction false} DeliveryStream(fds: seq<int>, message: Message, x: int)
    requires NoDuplicates(fds)
    ensures Stream(Delivery(fds, message), x) == if x in fds then [message] else []
  {
    if fds != [] {
      var init, last := fds[..|fds| - 1], fds[|fds| - 1];
      assert fds == init + [last];
      LastIsNew(fds);
      DeliveryStream(init, message, x);
      StreamSnoc(Delivery(init, message), Sent(last, message), x);
      assert x in fds <==> x in init || x == last;
    }
  }

  /** The notices of the fills that concern descriptor x, in fill order. */
  function Notices(st: ServerState, fd: int, fills: seq<Fill>, x: int): seq<Message>
    requires forall i :: 0 <= i < |fills| ==> fills[i].restingId in st.owner
  {
    if fills == [] then []
    else
      var f := fills[|fills| - 1];
      Notices(st, fd, fills[..|fills| - 1], x) + (if x in Audience(st, fd, f.restingId) then [FillNotice(f)] else [])
  }

  /** Whom a fill reaches: who submitted the incoming order, who owns the resting one, and whoever is
      subscribed. */
  lemma {:induction false} NoticeReaches(st: ServerState, fd: int, fills: seq<Fill>, f: Fill, x: int)
    requires (forall i :: 0 <= i < |fills| ==> fills[i].restingId in st.owner) && f in fills
    ensures FillNotice(f) in Notices(st, fd, fills, x) <==>
      || x == fd || x == st.owner[f.restingId]
      || exists c :: c in st.connections && c.subscribed && c.fd == x
  {
    var n := |fills| - 1;
    assert fills == fills[..n] + [fills[n]];
    NoticesAreOf(st, fd, fills[..n], x);
    if f in fills[..n] {
      NoticeReaches(st, fd, fills[..n], f, x);
    }
    assert x in Audience(st, fd, f.restingId) <==>
      x == fd || x == st.owner[f.restingId] || exists c :: c in st.connections && c.subscribed && c.fd == x;
  }

  lemma {:induction false} NoticesAreOf(st: ServerState, fd: int, fills: seq<Fill>, x: int)
    requires forall i :: 0 <= i < |fills| ==> fills[i].restingId in st.owner
    ensures forall m :: m in Notices(st, fd, fills, x) ==> m.FillNotice? && m.fill in fills && x in Audience(st, fd, m.fill.restingId)
  {
    if fills != [] {
      NoticesAreOf(st, fd, fills[..|fills| - 1], x);
      assert fills == fills[..|fills| - 1] + [fills[|fills| - 1]];
    }
  }

  /** Who owns what after a new order: its submitter the order, if it rests, and everyone what they owned
      and still rests. */
  lemma OwnersAfter(st: ServerState, fd: int, m: OrderMsg, id: nat)
    requires st.Good()
    ensures var after := DispatchOrder(st, fd, m);
      && (id in after.owner <==> id in after.book.RestingIds())
      && (id in after.owner ==>
            after.owner[id] == if id == m.id && m.id !in st.book.RestingIds() then fd else if id in st.owner then st.owner[id] else fd)
      && (id in after.owner && id != m.id ==> id in st.owner)
  {
    DispatchKeepsGood(st, fd, NewOrderRequest(m));
    SubmitIds(st.book, OrderOf(m));
  }

  function NoticesOf(fills: seq<Fill>): seq<Message> {
    seq(|fills|, i requires 0 <= i < |fills| => FillNotice(fills[i]))
  }

  /** The submitter hears of every fill of its submission, in order: the queue of fills that the
      quoter's session drains is this stream. */
  lemma {:induction false} SubmitterHearsAll(st: ServerState, fd: int, fills: seq<Fill>)
    requires forall i :: 0 <= i < |fills| ==> fills[i].restingId in st.owner
    ensures Notices(st, fd, fills, fd) == NoticesOf(fills)
  {
    if fills != [] {
      SubmitterHearsAll(st, fd, fills[..|fills| - 1]);
    }
  }

  lemma {:induction false} FanOutStream(st: ServerState, fd: int, fills: seq<Fill>, x: int)
    requires DistinctFds(st.connections)
    requires forall i :: 0 <= i < |fills| ==> fills[i].restingId in st.owner
    ensures Stream(FanOut(fd, st.owner, st.connections, fills), x) == Notices(st, fd, fills, x)
  {
    if fills != [] {
      var init, f := fills[..|fills| - 1], fills[|fills| - 1];
      FanOutStream(st, fd, init, x);
      var recipients := Recipients(fd, st.owner, st.connections, f.restingId);
      RecipientsAre(st, fd, f.restingId);
      DeliveryStream(recipients, FillNotice(f), x);
      StreamAppend(FanOut(fd, st.owner, st.connections, init), Delivery(recipients, FillNotice(f)), x);
    }
  }

  /** Every fill is against an order that rested and so has an owner; distinct fills, distinct orders. */
  lemma FilledHaveOwners(st: ServerState, o: Order)
    requires st.Good()
    ensures var fills := Submit(st.book, o).1;
      && (forall i :: 0 <= i < |fills| ==> fills[i].restingId in st.owner)
      && (forall i, j :: 0 <= i < j < |fills| ==> fills[i].restingId != fills[j].restingId && fills[i] != fills[j])
  {
    var fills := Submit(st.book, o).1;
    if o.id in st.book.RestingIds() {
      assert fills == [];
    } else {
      var opp, incoming := o.side.Opposite(), o.(timestamp := st.book.next);
      assert fills == Match(st.book.On(opp), incoming, st.book.next + 1).fills;
      MatchedResting(opp, st.book.On(opp), incoming, st.book.next + 1, st.book.next, fills);
      forall i | 0 <= i < |fills| ensures fills[i].restingId in st.owner {
        assert fills[i].restingId in st.book.RestingIds();
      }
    }
  }

  lemma MatchedResting(s: Side, resting: seq<Order>, o: Order, ts: nat, next: nat, fills: seq<Fill>)
    requires ValidSide(s, resting, next) && s == o.side.Opposite() && fills == Match(resting, o, ts).fills
    ensures forall i :: 0 <= i < |fills| ==> fills[i].restingId in Ids(resting)
    ensures forall i, j :: 0 <= i < j < |fills| ==> fills[i].restingId != fills[j].restingId && fills[i] != fills[j]
  {
    AllocationLaw(s, resting, o, ts, next);
    forall i | 0 <= i < |fills| ensures fills[i].restingId in Ids(resting) {
      assert resting[i] in resting && fills[i].restingId == resting[i].id;
    }
  }

  /** The streams after a new order. A resting id is refused with one ack and nothing else. Otherwise
      the submitter gets one ok ack first, and then every fill goes exactly once, in fill order, to
      each of the submitter, the resting order's owner and the subscribers, and to no one else. */
  lemma OrderRouting(st: ServerState, fd: int, m: OrderMsg, x: int)
    requires st.Good()
    ensures m.id in st.book.RestingIds() ==>
      && Stream(DispatchOrder(st, fd, m).sent, x) == Stream(st.sent, x) + (if x == fd then [Ack(m.id, NEW_ORDER, 1)] else [])
      && DispatchOrder(st, fd, m).book == st.book
    ensures m.id !in st.book.RestingIds() ==>
      var fills := Submit(st.book, OrderOf(m)).1;
      && (forall i :: 0 <= i < |fills| ==> fills[i].restingId in st.owner)
      && Stream(DispatchOrder(st, fd, m).sent, x)
         == Stream(st.sent, x) + (if x == fd then [Ack(m.id, NEW_ORDER, 0)] else []) + Notices(st, fd, fills, x)
  {
    if m.id in st.book.RestingIds() {
      StreamAppend(st.sent, [Sent(fd, Ack(m.id, NEW_ORDER, 1))], x);
    } else {
      var fills := Submit(st.book, OrderOf(m)).1;
      FilledHaveOwners(st, OrderOf(m));
      FanOutStream(st, fd, fills, x);
      var ack := [Sent(fd, Ack(m.id, NEW_ORDER, 0))];
      StreamAppend(st.sent, ack, x);
      StreamAppend(st.sent + ack, FanOut(fd, st.owner, st.connections, fills), x);
      assert Stream(ack, x) == if x == fd then [Ack(m.id, NEW_ORDER, 0)] else [];
    }
  }

  /** A cancel gets exactly one ack, ok iff the id was resting, and nobody else hears of it. */
  lemma CancelRouting(st: ServerState, fd: int, id: nat, x: int)
    requires st.Good()
    ensures Stream(DispatchCancel(st, fd, id).sent, x)
         == Stream(st.sent, x) + (if x == fd then [Ack(id, CANCEL, if id in st.book.RestingIds() then 0 else 1)] else [])
  {
    var ack := [Sent(fd, Ack(id, CANCEL, if id in st.book.RestingIds() then 0 else 1))];
    StreamAppend(st.sent, ack, x);
    assert Stream(ack, x) == if x == fd then [ack[0].message] else [];
  }

  // ----- chunk independence of the server -----

  lemma {:induction false} SubscribersIgnoreBuffers(connections: seq<Connection>, fd: int, buf: seq<Byte>,
          served: seq<int>)
    ensures Subscribers(WithBuffer(connections, fd, buf), served) == Subscribers(connections, served)
  {
    if connections != [] {
      var n := |connections| - 1;
      assert WithBuffer(connections, fd, buf)[..n] == WithBuffer(connections[..n], fd, buf);
      SubscribersIgnoreBuffers(connections[..n], fd, buf, served);
    }
  }

  lemma {:induction false} FanOutIgnoresBuffers(fd: int, owner: map<nat, int>, connections: seq<Connection>,
          fills: seq<Fill>, at: int, buf: seq<Byte>)
    ensures FanOut(fd, owner, WithBuffer(connections, at, buf), fills) == FanOut(fd, owner, connections, fills)
  {
    if fills != [] {
      var f := fills[|fills| - 1];
      FanOutIgnoresBuffers(fd, owner, connections, fills[..|fills| - 1], at, buf);
      SubscribersIgnoreBuffers(connections, at, buf, Parties(fd, owner, f.restingId));
    }
  }

  /** The state with another read buffer on one connection. */
  function Buffered(st: ServerState, fd: int, buf: seq<Byte>): ServerState {
    st.(connections := WithBuffer(st.connections, fd, buf))
  }

  /** Dispatching does not look at read buffers. */
  lemma DispatchIgnoresBuffers(st: ServerState, fd: int, r: Request, buf: seq<Byte>)
    ensures Dispatch(Buffered(st, fd, buf), fd, r) == Buffered(Dispatch(st, fd, r), fd, buf)
  {
    match r {
      case NewOrderRequest(m) =>
        FanOutIgnoresBuffers(fd, st.owner, st.connections, Submit(st.book, OrderOf(m)).1, fd, buf);
      case CancelRequest(id) =>
      case SubscribeRequest =>
        assert Subscribe(WithBuffer(st.connections, fd, buf), fd) == WithBuffer(Subscribe(st.connections, fd), fd, buf);
    }
  }

  lemma {:induction false} DispatchAllIgnoresBuffers(st: ServerState, fd: int, requests: seq<Request>, buf: seq<Byte>)
    ensures DispatchAll(Buffered(st, fd, buf), fd, requests) == Buffered(DispatchAll(st, fd, requests), fd, buf)
    decreases |requests|
  {
    if requests != [] {
      DispatchIgnoresBuffers(st, fd, requests[0], buf);
      DispatchAllIgnoresBuffers(Dispatch(st, fd, requests[0]), fd, requests[1..], buf);
    }
  }

  lemma {:induction false} DispatchAllAppend(st: ServerState, fd: int, a: seq<Request>, b: seq<Request>)
    ensures DispatchAll(st, fd, a + b) == DispatchAll(DispatchAll(st, fd, a), fd, b)
    decreases |a|
  {
    if a == [] {
      assert a + b == b;
    } else {
      assert (a + b)[1..] == a[1..] + b && (a + b)[0] == a[0];
      DispatchAllAppend(Dispatch(st, fd, a[0]), fd, a[1..], b);
    }
  }

  /** Dispatching never adds, drops or moves a connection. */
  lemma {:induction false} DispatchAllKeepsFds(st: ServerState, fd: int, requests: seq<Request>)
    ensures var after := DispatchAll(st, fd, requests).connections;
      |after| == |st.connections| && forall i :: 0 <= i < |after| ==> after[i].fd == st.connections[i].fd
    decreases |requests|
  {
    if requests != [] {
      DispatchAllKeepsFds(Dispatch(st, fd, requests[0]), fd, requests[1..]);
    }
  }

  lemma {:induction false} BufferAfter(connections: seq<Connection>, fd: int, buf: seq<Byte>)
    requires Connected(connections, fd)
    ensures BufferOf(WithBuffer(connections, fd, buf), fd) == buf
  {
    var r := WithBuffer(connections, fd, buf);
    if connections[0].fd != fd {
      var i :| 0 <= i < |connections| && connections[i].fd == fd;
      assert connections[1..][i - 1].fd == fd;
      assert r[1..] == WithBuffer(connections[1..], fd, buf);
      BufferAfter(connections[1..], fd, buf);
    }
  }

  lemma {:induction false} WithoutIgnoresBuffers(connections: seq<Connection>, fd: int, buf: seq<Byte>)
    ensures Without(WithBuffer(connections, fd, buf), fd) == Without(connections, fd)
  {
    if connections != [] {
      assert WithBuffer(connections, fd, buf)[1..] == WithBuffer(connections[1..], fd, buf);
      WithoutIgnoresBuffers(connections[1..], fd, buf);
    }
  }

  lemma WithBufferTwice(connections: seq<Connection>, fd: int, a: seq<Byte>, b: seq<Byte>)
    ensures WithBuffer(WithBuffer(connections, fd, a), fd, b) == WithBuffer(connections, fd, b)
  {
  }

  /** Two chunks one after the other leave the server, its book, its owners and everything it has
      sent exactly as one chunk with all the bytes would; if the first chunk closes the connection,
      the second changes nothing. */
  lemma ServerChunkIndependent(st: ServerState, fd: int, a: seq<Byte>, b: seq<Byte>)
    requires Connected(st.connections, fd)
    ensures HandleBytes(st, fd, a + b)
         == if ReadAll(BufferOf(st.connections, fd) + a).open then HandleBytes(HandleBytes(st, fd, a), fd, b)
            else HandleBytes(st, fd, a)
  {
    var buf := BufferOf(st.connections, fd);
    var first := ReadAll(buf + a);
    var second := ReadAll(first.rest + b);
    assert buf + (a + b) == (buf + a) + b;
    ReadAppend(buf + a, b);
    if first.open {
      var mid := DispatchAll(st, fd, first.requests);
      DispatchAllKeepsFds(st, fd, first.requests);
      var i :| 0 <= i < |st.connections| && st.connections[i].fd == fd;
      assert mid.connections[i].fd == fd;
      BufferAfter(mid.connections, fd, first.rest);
      DispatchAllIgnoresBuffers(mid, fd, second.requests, first.rest);
      DispatchAllAppend(st, fd, first.requests, second.requests);
      var done := DispatchAll(mid, fd, second.requests);
      WithBufferTwice(done.connections, fd, first.rest, second.rest);
      WithoutIgnoresBuffers(done.connections, fd, first.rest);
    }
  }
}
