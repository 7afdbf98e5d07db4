/** The server object (engine/src/server.cpp): it owns the book, the connections and the owner index
    and updates them in place. Each method is proved against the state machine. */
module Servers {
  import opened Orders
  import opened BookSpec
  import opened OrderBooks
  import opened Matching
  import opened Wire
  import opened Framing
  import opened ServerSpec
  import opened Routing

  /** The owner index while fills are being sent out: ids filled away by the fills so far are gone. */
  function OwnersWhile(base: map<nat, int>, fills: seq<Fill>, live: set<nat>): map<nat, int> {
    map k | k in base && (k in live || k !in FilledIds(fills)) :: base[k]
  }

  function FilledIds(fills: seq<Fill>): set<nat> {
    set f | f in fills :: f.restingId
  }

  lemma {:induction false} MatchedAwayIsFilled(resting: seq<Order>, o: Order, ts: nat)
    ensures Ids(resting) <= Ids(Match(resting, o, ts).rest) + FilledIds(Match(resting, o, ts).fills)
    decreases |resting|
  {
    if !(o.quantity == 0 || resting == [] || !Crosses(o, resting[0].price)) {
      IdsCons(resting);
      var m := Match(resting, o, ts);
      assert m.fills[0] in m.fills;
      if resting[0].quantity <= o.quantity {
        var m1 := Match(resting[1..], o.(quantity := o.quantity - resting[0].quantity), ts + 1);
        MatchedAwayIsFilled(resting[1..], o.(quantity := o.quantity - resting[0].quantity), ts + 1);
        assert m.fills == [m.fills[0]] + m1.fills;
      } else {
        IdsCons(m.rest);
        assert m.rest[1..] == resting[1..];
      }
    }
  }

  /** Ids that a submission takes out of the book are among the ids filled. */
  lemma LeavingIsFilled(b: Book, o: Order)
    requires b.Valid()
    ensures b.RestingIds() <= Submit(b, o).0.RestingIds() + FilledIds(Submit(b, o).1)
  {
    if o.id !in b.RestingIds() {
      MatchedAwayIsFilled(b.On(o.side.Opposite()), o.(timestamp := b.next), b.next + 1);
      InsertIds(o.side, Matched(b, o).On(o.side), Remainder(b, o));
    }
  }

  class Server {
    const book: OrderBook
    var connections: seq<Connection>
    var orderOwnerFd: map<nat, int>
    var sent: seq<Sent>

    ghost function State(): ServerState
      reads this, book
    {
      ServerState(book.View(), connections, orderOwnerFd, sent)
    }

    ghost predicate Valid()
      reads this, book
    {
      book.Valid() && State().Good()
    }

    constructor ()
      ensures Valid() && fresh(book) && State() == Started
    {
      book := new OrderBook();
      connections, orderOwnerFd, sent := [], map[], [];
    }

    method Send(fd: int, message: Message)
      modifies `sent
      ensures sent == old(sent) + [Sent(fd, message)]
    {
      sent := sent + [Sent(fd, message)];
    }

    method BroadcastFillToSubscribers(fill: Fill, alreadySentTo: seq<int>)
      modifies `sent
      ensures sent == old(sent) + Delivery(Subscribers(connections, alreadySentTo), FillNotice(fill))
    {
      for i := 0 to |connections|
        invariant sent == old(sent) + Delivery(Subscribers(connections[..i], alreadySentTo), FillNotice(fill))
      {
        assert connections[..i + 1][..i] == connections[..i];
        var c := connections[i];
        ghost var before := Subscribers(connections[..i], alreadySentTo);
        if c.subscribed && c.fd !in alreadySentTo {
          assert (before + [c.fd])[..|before|] == before;
          Send(c.fd, FillNotice(fill));
        } else {
          assert Subscribers(connections[..i + 1], alreadySentTo) == before;
        }
      }
      assert connections[..|connections|] == connections;
    }

    /** To the submitter and to the resting order's owner if that is someone else. */
    method SendToParties(fd: int, f: Fill) returns (alreadySentTo: seq<int>)
      modifies `sent
      ensures alreadySentTo == Parties(fd, orderOwnerFd, f.restingId)
      ensures sent == old(sent) + Delivery(alreadySentTo, FillNotice(f))
    {
      alreadySentTo := [fd];
      Send(fd, FillNotice(f));
      assert Delivery([fd], FillNotice(f)) == [Sent(fd, FillNotice(f))];
      if f.restingId in orderOwnerFd && orderOwnerFd[f.restingId] != fd {
        var owner := orderOwnerFd[f.restingId];
        Send(owner, FillNotice(f));
        alreadySentTo := alreadySentTo + [owner];
        assert [fd, owner][..1] == [fd];
      }
    }

    /** One fill: to the submitter, to the resting order's owner if that is someone else, and to the
        subscribers not yet served. */
    method SendOut(fd: int, f: Fill)
      modifies `sent
      ensures sent == old(sent) + Delivery(Recipients(fd, orderOwnerFd, connections, f.restingId), FillNotice(f))
    {
      var alreadySentTo := SendToParties(fd, f);
      BroadcastFillToSubscribers(f, alreadySentTo);
      DeliveryAppend(alreadySentTo, Subscribers(connections, alreadySentTo), FillNotice(f));
    }

    method ForgetIfGone(id: nat)
      requires book.Valid()
      modifies `orderOwnerFd
      ensures orderOwnerFd == if id in book.View().RestingIds() then old(orderOwnerFd) else old(orderOwnerFd) - {id}
    {
      if !book.Contains(id) {
        orderOwnerFd := orderOwnerFd - {id};
      }
    }

    /** The loop body of SendFills: send fill i out, then forget its resting id if that is gone. */
    method SendNext(fd: int, fills: seq<Fill>, i: nat, ghost base: map<nat, int>, ghost live: set<nat>)
      requires book.Valid() && live == book.View().RestingIds()
      requires i < |fills| && forall i, j :: 0 <= i < j < |fills| ==> fills[i].restingId != fills[j].restingId
      requires orderOwnerFd == OwnersWhile(base, fills[..i], live)
      modifies `sent, `orderOwnerFd
      ensures orderOwnerFd == OwnersWhile(base, fills[..i + 1], live)
      ensures sent == old(sent) + Delivery(Recipients(fd, base, connections, fills[i].restingId), FillNotice(fills[i]))
    {
      var f := fills[i];
      OwnersStep(base, fills, i, live);
      SameParties(fd, orderOwnerFd, base, connections, f.restingId);
      SendOut(fd, f);
      ForgetIfGone(f.restingId);
    }

    /** The fills of one submission, in order; owners of orders filled away are forgotten. */
    method SendFills(fd: int, fills: seq<Fill>, ghost live: set<nat>)
      requires book.Valid() && live == book.View().RestingIds()
      requires forall i, j :: 0 <= i < j < |fills| ==> fills[i].restingId != fills[j].restingId
      modifies `sent, `orderOwnerFd
      ensures sent == old(sent) + FanOut(fd, old(orderOwnerFd), connections, fills)
      ensures orderOwnerFd == OwnersWhile(old(orderOwnerFd), fills, live)
    {
      ghost var base := orderOwnerFd;
      assert orderOwnerFd == OwnersWhile(base, [], live);
      for i := 0 to |fills|
        invariant orderOwnerFd == OwnersWhile(base, fills[..i], live)
        invariant sent == old(sent) + FanOut(fd, base, connections, fills[..i])
      {
        SendNext(fd, fills, i, base, live);
        FanOutStep(old(sent), fd, base, connections, fills, i);
      }
      assert fills[..|fills|] == fills;
    }

    method DispatchNewOrder(fd: int, m: OrderMsg)
      requires Valid()
      modifies this, book
      ensures Valid() && State() == DispatchOrder(old(State()), fd, m)
    {
      ghost var st := State();
      DispatchKeepsGood(st, fd, NewOrderRequest(m));
      if book.Contains(m.id) {
        Send(fd, Ack(m.id, NEW_ORDER, 1));
        return;
      }
      var fills := book.Submit(OrderOf(m));
      Send(fd, Ack(m.id, NEW_ORDER, 0));
      if book.Contains(m.id) {
        orderOwnerFd := orderOwnerFd[m.id := fd];
      }
      FilledHaveOwners(st, OrderOf(m));
      SubmissionOwners(st, fd, m);
      SendFills(fd, fills, book.View().RestingIds());
    }

    method DispatchCancelRequest(fd: int, id: U64)
      requires Valid()
      modifies this, book
      ensures Valid() && State() == DispatchCancel(old(State()), fd, id)
    {
      CancelForgets(State(), fd, id);
      var ok := book.Cancel(id);
      if ok {
        orderOwnerFd := orderOwnerFd - {id};
      }
      Send(fd, Ack(id, CANCEL, if ok then 0 else 1));
    }

    method DispatchRequest(fd: int, r: Request)
      requires Valid()
      modifies this, book
      ensures Valid() && State() == Dispatch(old(State()), fd, r)
    {
      DispatchKeepsGood(State(), fd, r);
      match r {
        case NewOrderRequest(m) => DispatchNewOrder(fd, m);
        case CancelRequest(id) => DispatchCancelRequest(fd, id);
        case SubscribeRequest => connections := Subscribe(connections, fd);
      }
    }

    method Accept(fd: int)
      requires Valid() && !Connected(connections, fd)
      modifies this
      ensures Valid() && State() == React(old(State()), Accepted(fd))
    {
      ReactKeepsGood(State(), Accepted(fd));
      connections := connections + [Connection(fd, [], false)];
    }

    /** Closes a connection. Its orders stay in the book and keep their owner. */
    method RemoveConnection(fd: int)
      requires Valid()
      modifies this
      ensures Valid() && State() == React(old(State()), HungUp(fd))
    {
      ReactKeepsGood(State(), HungUp(fd));
      connections := Without(connections, fd);
    }

    /** A chunk arrives: it is appended to the connection's buffer, and every complete frame at the
        front is dispatched and erased until more bytes are needed or the connection is closed. */
    method HandleReadable(fd: int, chunk: seq<Byte>)
      requires Valid() && Connected(connections, fd)
      modifies this, book
      ensures Valid() && State() == HandleBytes(old(State()), fd, chunk)
    {
      ghost var st, s, done := State(), Buffered(State(), fd, BufferOf(connections, fd) + chunk), [];
      var buf := BufferOf(connections, fd) + chunk;
      BufferedGood(st, fd, buf);
      connections := WithBuffer(connections, fd, buf);
      while true
        invariant book.Valid() && State() == s && s.Good()
        invariant ReadTo(st, fd, chunk, s, buf, done)
        decreases |buf|
      {
        assert buf == BufferOf(connections, fd) by {
          BufferKept(st, fd, done, buf);
        }
        match FirstFrame(buf) {
          case NeedMore =>
            ReadEnds(st, fd, chunk, s, buf, done);
            return;
          case Violation =>
            ReadEnds(st, fd, chunk, s, buf, done);
            RemoveConnection(fd);
            return;
          case Read(request, size) =>
            ReadStep(st, fd, chunk, s, buf, done);
            DispatchRequest(fd, request);
            BufferedGood(State(), fd, buf[size..]);
            buf := buf[size..];
            connections := WithBuffer(connections, fd, buf);
            s := Buffered(Dispatch(s, fd, request), fd, buf);
            done := done + [request];
        }
      }
    }
  }

  /** A cancel that finds nothing has no owner to forget. */
  lemma CancelForgets(st: ServerState, fd: int, id: U64)
    requires st.Good()
    ensures DispatchCancel(st, fd, id).Good()
    ensures !Cancel(st.book, id).1 ==> st.owner - {id} == st.owner
  {
    DispatchKeepsGood(st, fd, CancelRequest(id));
    assert !Cancel(st.book, id).1 ==> id !in st.owner;
  }

  lemma BufferedGood(st: ServerState, fd: int, buf: seq<Byte>)
    requires st.Good()
    ensures Buffered(st, fd, buf).Good()
  {
    var after := WithBuffer(st.connections, fd, buf);
    assert forall i :: 0 <= i < |after| ==> after[i].fd == st.connections[i].fd;
  }

  /** Inside the framing loop: the requests done so far are dispatched, buf is what is still to read. */
  ghost predicate ReadTo(st: ServerState, fd: int, chunk: seq<Byte>, s: ServerState, buf: seq<Byte>, done: seq<Request>) {
    && Connected(st.connections, fd)
    && s == Buffered(DispatchAll(st, fd, done), fd, buf)
    && ReadsOn(ReadAll(BufferOf(st.connections, fd) + chunk), done, buf)
  }

  /** Reading buf after the requests done so far gives all there is to read. */
  predicate ReadsOn(all: Reading, done: seq<Request>, buf: seq<Byte>) {
    var more := ReadAll(buf);
    all == Reading(done + more.requests, more.rest, more.open)
  }

  lemma ReadOneMore(all: Reading, done: seq<Request>, buf: seq<Byte>, request: Request, size: nat)
    requires ReadsOn(all, done, buf) && FirstFrame(buf) == Read(request, size)
    ensures ReadsOn(all, done + [request], buf[size..])
  {
    var more := ReadAll(buf[size..]).requests;
    assert done + ([request] + more) == (done + [request]) + more;
  }

  lemma BufferKept(st: ServerState, fd: int, done: seq<Request>, buf: seq<Byte>)
    requires Connected(st.connections, fd)
    ensures BufferOf(Buffered(DispatchAll(st, fd, done), fd, buf).connections, fd) == buf
  {
    DispatchAllKeepsFds(st, fd, done);
    var i :| 0 <= i < |st.connections| && st.connections[i].fd == fd;
    assert DispatchAll(st, fd, done).connections[i].fd == fd;
    BufferAfter(DispatchAll(st, fd, done).connections, fd, buf);
  }

  lemma ReadStep(st: ServerState, fd: int, chunk: seq<Byte>, s: ServerState, buf: seq<Byte>, done: seq<Request>)
    requires ReadTo(st, fd, chunk, s, buf, done) && FirstFrame(buf).Read?
    ensures var Read(request, size) := FirstFrame(buf);
      ReadTo(st, fd, chunk, Buffered(Dispatch(s, fd, request), fd, buf[size..]), buf[size..], done + [request])
  {
    var Read(request, size) := FirstFrame(buf);
    FrameDispatched(st, fd, done, buf, request, size);
    ReadOneMore(ReadAll(BufferOf(st.connections, fd) + chunk), done, buf, request, size);
  }

  lemma ReadEnds(st: ServerState, fd: int, chunk: seq<Byte>, s: ServerState, buf: seq<Byte>, done: seq<Request>)
    requires ReadTo(st, fd, chunk, s, buf, done) && !FirstFrame(buf).Read?
    ensures HandleBytes(st, fd, chunk) == if FirstFrame(buf).NeedMore? then s else React(s, HungUp(fd))
  {
    assert done + [] == done;
    WithoutIgnoresBuffers(DispatchAll(st, fd, done).connections, fd, buf);
  }

  /** Dispatching the first frame and erasing its bytes is one step of the state machine. */
  lemma FrameDispatched(st: ServerState, fd: int, done: seq<Request>, buf: seq<Byte>, request: Request, size: nat)
    requires size <= |buf|
    ensures Buffered(Dispatch(Buffered(DispatchAll(st, fd, done), fd, buf), fd, request), fd, buf[size..])
         == Buffered(DispatchAll(st, fd, done + [request]), fd, buf[size..])
  {
    var mid := DispatchAll(st, fd, done);
    DispatchIgnoresBuffers(mid, fd, request, buf);
    DispatchAllAppend(st, fd, done, [request]);
    assert DispatchAll(mid, fd, [request]) == Dispatch(mid, fd, request);
    WithBufferTwice(Dispatch(mid, fd, request).connections, fd, buf, buf[size..]);
  }

  lemma OwnersStep(base: map<nat, int>, fills: seq<Fill>, i: nat, live: set<nat>)
    requires i < |fills|
    requires forall i, j :: 0 <= i < j < |fills| ==> fills[i].restingId != fills[j].restingId
    ensures var id := fills[i].restingId; var now := OwnersWhile(base, fills[..i], live);
      && (id in now <==> id in base) && (id in base ==> now[id] == base[id])
      && OwnersWhile(base, fills[..i + 1], live) == if id in live then now else now - {id}
  {
    var id := fills[i].restingId;
    assert FilledIds(fills[..i + 1]) == FilledIds(fills[..i]) + {id} by {
      assert fills[..i + 1] == fills[..i] + [fills[i]];
    }
    assert id !in FilledIds(fills[..i]);
  }

  lemma FanOutStep(before: seq<Sent>, fd: int, owner: map<nat, int>, connections: seq<Connection>, fills: seq<Fill>, i: nat)
    requires i < |fills|
    ensures before + FanOut(fd, owner, connections, fills[..i + 1])
         == before + FanOut(fd, owner, connections, fills[..i])
            + Delivery(Recipients(fd, owner, connections, fills[i].restingId), FillNotice(fills[i]))
  {
    var out := FanOut(fd, owner, connections, fills[..i]);
    var next := Delivery(Recipients(fd, owner, connections, fills[i].restingId), FillNotice(fills[i]));
    assert fills[..i + 1][..i] == fills[..i];
    assert FanOut(fd, owner, connections, fills[..i + 1]) == out + next;
    assert before + (out + next) == before + out + next;
  }

  lemma SameParties(fd: int, a: map<nat, int>, b: map<nat, int>, connections: seq<Connection>, id: nat)
    requires (id in a <==> id in b) && (id in a ==> a[id] == b[id])
    ensures Recipients(fd, a, connections, id) == Recipients(fd, b, connections, id)
  {
  }

  lemma {:induction false} SameFanOut(fd: int, a: map<nat, int>, b: map<nat, int>, connections: seq<Connection>,
          fills: seq<Fill>)
    requires forall f :: f in fills ==> (f.restingId in a <==> f.restingId in b) && (f.restingId in a ==> a[f.restingId] == b[f.restingId])
    ensures FanOut(fd, a, connections, fills) == FanOut(fd, b, connections, fills)
  {
    if fills != [] {
      SameFanOut(fd, a, b, connections, fills[..|fills| - 1]);
      SameParties(fd, a, b, connections, fills[|fills| - 1].restingId);
    }
  }

  /** Registering the new order first and forgetting filled orders along the way gives the owners of
      exactly what rests, and the fan-out sees the owners as they were before the submission. */
  lemma SubmissionOwners(st: ServerState, fd: int, m: OrderMsg)
    requires st.Good() && m.id !in st.book.RestingIds()
    ensures var (book, fills) := Submit(st.book, OrderOf(m));
      var base := if m.id in book.RestingIds() then st.owner[m.id := fd] else st.owner;
      && OwnersWhile(base, fills, book.RestingIds()) == Owners(st.owner, fd, m.id, book.RestingIds())
      && FanOut(fd, base, st.connections, fills) == FanOut(fd, st.owner, st.connections, fills)
  {
    var (book, fills) := Submit(st.book, OrderOf(m));
    var base := if m.id in book.RestingIds() then st.owner[m.id := fd] else st.owner;
    assert forall f :: f in fills ==> f.restingId != m.id by {
      FilledHaveOwners(st, OrderOf(m));
    }
    LeavingIsFilled(st.book, OrderOf(m));
    OwnersCollapse(st.owner, fd, m.id, book.RestingIds(), fills);
    SameFanOut(fd, base, st.owner, st.connections, fills);
  }

  lemma OwnersCollapse(owner: map<nat, int>, fd: int, id: nat, live: set<nat>, fills: seq<Fill>)
    requires id !in owner && owner.Keys <= live + FilledIds(fills)
    requires forall f :: f in fills ==> f.restingId != id
    ensures OwnersWhile(if id in live then owner[id := fd] else owner, fills, live) == Owners(owner, fd, id, live)
  {
  }

  lemma {:induction false} DeliveryAppend(a: seq<int>, b: seq<int>, message: Message)
    ensures Delivery(a + b, message) == Delivery(a, message) + Delivery(b, message)
  {
    if b == [] {
      assert a + b == a;
    } else {
      var n := |b| - 1;
      assert (a + b)[..|a + b| - 1] == a + b[..n];
      DeliveryAppend(a, b[..n], message);
    }
  }
}
