/** Matching one incoming order against the flat list of the opposite side, and the allocation
    law that says which resting order trades how much. */
module Matching {
  import opened Orders

  /** The fills, the opposite side afterwards, and the incoming quantity left over. */
  datatype Outcome = Outcome(fills: seq<Fill>, rest: seq<Order>, left: nat)

  /** Price-time matching, one resting order at a time; fills are stamped from ts on. */
  function Match(resting: seq<Order>, o: Order, ts: nat): Outcome
    decreases |resting|
  {
    if o.quantity == 0 || resting == [] || !Crosses(o, resting[0].price) then
      Outcome([], resting, o.quantity)
    else
      var r := resting[0];
      var traded := Min(o.quantity, r.quantity);
      var fill := Fill(r.id, o.id, o.side.Opposite(), r.price, traded, ts);
      if traded == r.quantity then
        var m := Match(resting[1..], o.(quantity := o.quantity - traded), ts + 1);
        Outcome([fill] + m.fills, m.rest, m.left)
      else
        Outcome([fill], [r.(quantity := r.quantity - traded)] + resting[1..], o.quantity - traded)
  }

  /** The incoming order may trade at this price: it takes any, or its limit is no worse. */
  predicate Eligible(o: Order, price: int) {
    o.orderType == Market || (o.side == Buy && price <= o.price) || (o.side == Sell && o.price <= price)
  }

  /** Quantity in the list that the incoming order may trade with. */
  function CrossingQuantity(resting: seq<Order>, o: Order): nat {
    if resting == [] then 0
    else (if Eligible(o, resting[0].price) then resting[0].quantity else 0) + CrossingQuantity(resting[1..], o)
  }

  /** What the i-th resting order is due: as much as is left after all crossing orders before it. */
  function Allocation(resting: seq<Order>, o: Order, i: nat): nat
    requires i < |resting|
  {
    if Eligible(o, resting[i].price)
    then Min(resting[i].quantity, Max(0, o.quantity - CrossingQuantity(resting[..i], o)))
    else 0
  }

  /** The list from position i on, each order reduced by its allocation, emptied ones left out. */
  function Reduced(resting: seq<Order>, o: Order, i: nat): seq<Order>
    requires i <= |resting|
    decreases |resting| - i
  {
    if i == |resting| then []
    else
      var q := resting[i].quantity - Allocation(resting, o, i);
      (if q > 0 then [resting[i].(quantity := q)] else []) + Reduced(resting, o, i + 1)
  }

  lemma CrossingQuantityHead(resting: seq<Order>, o: Order, i: nat)
    requires 0 < i <= |resting|
    ensures CrossingQuantity(resting[..i], o)
         == (if Eligible(o, resting[0].price) then resting[0].quantity else 0)
            + CrossingQuantity(resting[1..][..i - 1], o)
  {
    assert resting[..i][1..] == resting[1..][..i - 1];
  }

  lemma CrossingQuantityIgnoresSize(resting: seq<Order>, o: Order, q: nat)
    ensures CrossingQuantity(resting, o.(quantity := q)) == CrossingQuantity(resting, o)
  {
  }

  /** After the head is used up, the tail's allocations are those of the smaller order. */
  lemma AllocationTail(resting: seq<Order>, o: Order, i: nat)
    requires 0 < i < |resting| && Crosses(o, resting[0].price) && resting[0].quantity <= o.quantity
    ensures Allocation(resting, o, i)
         == Allocation(resting[1..], o.(quantity := o.quantity - resting[0].quantity), i - 1)
  {
    CrossingQuantityHead(resting, o, i);
    CrossingQuantityIgnoresSize(resting[1..][..i - 1], o, o.quantity - resting[0].quantity);
  }

  /** Once the order is used up by the head, nothing behind it is due anything. */
  lemma AllocationSpent(resting: seq<Order>, o: Order, i: nat)
    requires 0 < i < |resting| && Crosses(o, resting[0].price) && o.quantity <= resting[0].quantity
    ensures Allocation(resting, o, i) == 0
  {
    CrossingQuantityHead(resting, o, i);
  }

  lemma {:induction false} ReducedTail(resting: seq<Order>, o: Order, i: nat)
    requires 0 < i <= |resting| && Crosses(o, resting[0].price) && resting[0].quantity <= o.quantity
    ensures Reduced(resting, o, i)
         == Reduced(resting[1..], o.(quantity := o.quantity - resting[0].quantity), i - 1)
    decreases |resting| - i
  {
    if i < |resting| {
      AllocationTail(resting, o, i);
      ReducedTail(resting, o, i + 1);
    }
  }

  lemma {:induction false} ReducedUntouched(resting: seq<Order>, o: Order, i: nat)
    requires i <= |resting|
    requires forall j :: i <= j < |resting| ==> Allocation(resting, o, j) == 0 && resting[j].quantity > 0
    ensures Reduced(resting, o, i) == resting[i..]
    decreases |resting| - i
  {
    if i < |resting| {
      assert Allocation(resting, o, i) == 0;
      ReducedUntouched(resting, o, i + 1);
      assert resting[i..] == [resting[i]] + resting[i + 1..];
    }
  }

  lemma {:induction false} NothingCrosses(s: Side, resting: seq<Order>, o: Order, next: nat)
    requires ValidSide(s, resting, next) && s == o.side.Opposite()
    requires resting == [] || !Crosses(o, resting[0].price)
    ensures forall i :: 0 <= i < |resting| ==> !Crosses(o, resting[i].price)
    ensures CrossingQuantity(resting, o) == 0
  {
    if resting != [] {
      ValidUncons(s, resting, next);
      if |resting| > 1 {
        assert Better(s, resting[0].price, resting[1].price) || resting[0].price == resting[1].price;
      }
      NothingCrosses(s, resting[1..], o, next);
      assert forall i :: 0 < i < |resting| ==> resting[i] == resting[1..][i - 1];
    }
  }

  /** With nothing to trade, nobody is due anything. */
  lemma AllocationNone(s: Side, resting: seq<Order>, o: Order, next: nat)
    requires ValidSide(s, resting, next) && s == o.side.Opposite()
    requires o.quantity == 0 || resting == [] || !Crosses(o, resting[0].price)
    ensures forall i :: 0 <= i < |resting| ==> Allocation(resting, o, i) == 0
    ensures Reduced(resting, o, 0) == resting
    ensures Min(o.quantity, CrossingQuantity(resting, o)) == 0
  {
    if o.quantity != 0 {
      NothingCrosses(s, resting, o, next);
    }
    forall i | 0 <= i < |resting| ensures Allocation(resting, o, i) == 0 {
    }
    ReducedUntouched(resting, o, 0);
  }

  /** A head larger than the incoming order takes all of it. */
  lemma AllocationHeadOnly(resting: seq<Order>, o: Order)
    requires resting != [] && Crosses(o, resting[0].price) && 0 < o.quantity < resting[0].quantity
    ensures Allocation(resting, o, 0) == o.quantity
    ensures forall i :: 0 < i < |resting| ==> Allocation(resting, o, i) == 0
  {
    AllocationAtHead(resting, o);
    AllocationBehindHead(resting, o);
  }

  lemma ReducedHeadOnly(resting: seq<Order>, o: Order)
    requires resting != [] && forall i :: 0 <= i < |resting| ==> resting[i].quantity > 0
    requires Crosses(o, resting[0].price) && 0 < o.quantity < resting[0].quantity
    ensures Reduced(resting, o, 0) == [resting[0].(quantity := resting[0].quantity - o.quantity)] + resting[1..]
  {
    AllocationAtHead(resting, o);
    BehindHeadUntouched(resting, o);
    ReducedAtHead(resting, o, o.quantity, resting[1..]);
  }

  lemma AllocationBehindHead(resting: seq<Order>, o: Order)
    requires resting != [] && Crosses(o, resting[0].price) && o.quantity <= resting[0].quantity
    ensures forall i :: 0 < i < |resting| ==> Allocation(resting, o, i) == 0
  {
    forall i | 0 < i < |resting| ensures Allocation(resting, o, i) == 0 {
      AllocationSpent(resting, o, i);
    }
  }

  lemma BehindHeadUntouched(resting: seq<Order>, o: Order)
    requires resting != [] && forall i :: 0 <= i < |resting| ==> resting[i].quantity > 0
    requires Crosses(o, resting[0].price) && o.quantity <= resting[0].quantity
    ensures Reduced(resting, o, 1) == resting[1..]
  {
    AllocationBehindHead(resting, o);
    ReducedUntouched(resting, o, 1);
  }

  lemma ReducedAtHead(resting: seq<Order>, o: Order, due: nat, rest: seq<Order>)
    requires resting != [] && Reduced(resting, o, 1) == rest && Allocation(resting, o, 0) == due < resting[0].quantity
    ensures Reduced(resting, o, 0) == [resting[0].(quantity := resting[0].quantity - due)] + rest
  {
  }

  lemma AllocationAtHead(resting: seq<Order>, o: Order)
    requires resting != [] && Crosses(o, resting[0].price)
    ensures Allocation(resting, o, 0) == Min(o.quantity, resting[0].quantity)
  {
    assert resting[..0] == [];
  }

  /** A head the incoming order can use up, and the law for the rest of the list. */
  lemma AllocationHeadFirst(resting: seq<Order>, o: Order, small: Order)
    requires resting != [] && Crosses(o, resting[0].price) && 0 < resting[0].quantity <= o.quantity
    requires small == o.(quantity := o.quantity - resting[0].quantity)
    ensures Allocation(resting, o, 0) == resting[0].quantity
    ensures forall i :: 0 < i < |resting| ==> Allocation(resting, o, i) == Allocation(resting[1..], small, i - 1)
    ensures Reduced(resting, o, 0) == Reduced(resting[1..], small, 0)
    ensures CrossingQuantity(resting, o) == resting[0].quantity + CrossingQuantity(resting[1..], small)
  {
    forall i | 0 < i < |resting|
      ensures Allocation(resting, o, i) == Allocation(resting[1..], small, i - 1)
    {
      AllocationTail(resting, o, i);
    }
    AllocationAtHead(resting, o);
    assert Reduced(resting, o, 0) == Reduced(resting[1..], small, 0) by {
      ReducedTail(resting, o, 1);
    }
    CrossingQuantityIgnoresSize(resting[1..], o, small.quantity);
  }

  /** Who is filled, by how much, at what price and in what order. */
  predicate FilledAsDue(s: Side, resting: seq<Order>, o: Order, ts: nat, fills: seq<Fill>) {
    && |fills| <= |resting|
    && (forall i :: 0 <= i < |resting| ==> (i < |fills| <==> Allocation(resting, o, i) > 0))
    && (forall i :: 0 <= i < |fills| ==>
          fills[i] == Fill(resting[i].id, o.id, s, resting[i].price, Allocation(resting, o, i), ts + i))
  }

  lemma FilledAfterHead(s: Side, resting: seq<Order>, o: Order, small: Order, ts: nat, f: Fill, fills: seq<Fill>)
    requires resting != [] && Crosses(o, resting[0].price) && 0 < resting[0].quantity <= o.quantity
    requires small == o.(quantity := o.quantity - resting[0].quantity)
    requires f == Fill(resting[0].id, o.id, s, resting[0].price, resting[0].quantity, ts)
    requires FilledAsDue(s, resting[1..], small, ts + 1, fills)
    ensures FilledAsDue(s, resting, o, ts, [f] + fills)
  {
    AllocationHeadFirst(resting, o, small);
    var all := [f] + fills;
    forall i | 0 < i < |resting| ensures i < |all| <==> Allocation(resting, o, i) > 0 {
      assert i - 1 < |fills| <==> Allocation(resting[1..], small, i - 1) > 0;
    }
    forall i | 0 < i < |all|
      ensures all[i] == Fill(resting[i].id, o.id, s, resting[i].price, Allocation(resting, o, i), ts + i)
    {
      assert all[i] == fills[i - 1] && resting[i] == resting[1..][i - 1];
    }
  }

  lemma {:induction false} FillLaw(s: Side, resting: seq<Order>, o: Order, ts: nat, next: nat)
    requires ValidSide(s, resting, next) && s == o.side.Opposite()
    ensures FilledAsDue(s, resting, o, ts, Match(resting, o, ts).fills)
    decreases |resting|
  {
    if o.quantity == 0 || resting == [] || !Crosses(o, resting[0].price) {
      AllocationNone(s, resting, o, next);
    } else if o.quantity < resting[0].quantity {
      AllocationHeadOnly(resting, o);
    } else {
      var head, small := resting[0], o.(quantity := o.quantity - resting[0].quantity);
      ValidUncons(s, resting, next);
      FillLaw(s, resting[1..], small, ts + 1, next);
      FilledAfterHead(s, resting, o, small, ts, Fill(head.id, o.id, s, head.price, head.quantity, ts),
                      Match(resting[1..], small, ts + 1).fills);
    }
  }

  /** What is left on the opposite side and of the incoming order, and how much traded. */
  lemma {:induction false} RestLaw(s: Side, resting: seq<Order>, o: Order, ts: nat, next: nat)
    requires ValidSide(s, resting, next) && s == o.side.Opposite()
    ensures RestAsDue(resting, o, Match(resting, o, ts))
    decreases |resting|
  {
    if o.quantity == 0 || resting == [] || !Crosses(o, resting[0].price) {
      AllocationNone(s, resting, o, next);
    } else if o.quantity < resting[0].quantity {
      ReducedHeadOnly(resting, o);
      RestInHead(resting, o, Match(resting, o, ts));
    } else {
      var small := o.(quantity := o.quantity - resting[0].quantity);
      ValidUncons(s, resting, next);
      RestLaw(s, resting[1..], small, ts + 1, next);
      RestPastHead(resting, o, small, Match(resting, o, ts), Match(resting[1..], small, ts + 1));
    }
  }

  /** What stays, what is left over, and how much is traded in all. */
  predicate RestAsDue(resting: seq<Order>, o: Order, m: Outcome) {
    && m.rest == Reduced(resting, o, 0)
    && m.left == Max(0, o.quantity - CrossingQuantity(resting, o))
    && Volume(m.fills) == Min(o.quantity, CrossingQuantity(resting, o))
  }

  lemma RestInHead(resting: seq<Order>, o: Order, m: Outcome)
    requires resting != [] && Crosses(o, resting[0].price) && 0 < o.quantity < resting[0].quantity
    requires |m.fills| == 1 && m.fills[0].quantity == o.quantity && m.left == 0 && m.rest == Reduced(resting, o, 0)
    ensures RestAsDue(resting, o, m)
  {
    assert m.fills[1..] == [];
  }

  lemma RestPastHead(resting: seq<Order>, o: Order, small: Order, m: Outcome, tail: Outcome)
    requires resting != [] && Crosses(o, resting[0].price) && 0 < resting[0].quantity <= o.quantity
    requires small == o.(quantity := o.quantity - resting[0].quantity) && RestAsDue(resting[1..], small, tail)
    requires |m.fills| > 0 && m.fills[0].quantity == resting[0].quantity && m.fills[1..] == tail.fills
    requires m.rest == tail.rest && m.left == tail.left
    ensures RestAsDue(resting, o, m)
  {
    AllocationHeadFirst(resting, o, small);
  }

  /** The allocation law. The list is in price-time priority; the i-th resting order trades exactly
      its allocation, at its own price, in list order, and zero allocations give no fill. The
      opposite side afterwards is the list reduced by the allocations; the amount traded is the
      smaller of the incoming quantity and the crossing liquidity; prices only get worse and no
      resting order is filled twice. */
  lemma AllocationLaw(s: Side, resting: seq<Order>, o: Order, ts: nat, next: nat)
    requires ValidSide(s, resting, next) && s == o.side.Opposite()
    ensures var m := Match(resting, o, ts);
      && FilledAsDue(s, resting, o, ts, m.fills)
      && m.rest == Reduced(resting, o, 0)
      && m.left == Max(0, o.quantity - CrossingQuantity(resting, o))
      && Volume(m.fills) == Min(o.quantity, CrossingQuantity(resting, o))
    ensures var fills := Match(resting, o, ts).fills;
      forall i, j :: 0 <= i < j < |fills| ==>
        && fills[i].restingId != fills[j].restingId
        && if o.side == Buy then fills[i].price <= fills[j].price else fills[i].price >= fills[j].price
    ensures o.orderType == Limit ==>
      forall f :: f in Match(resting, o, ts).fills ==> if o.side == Buy then f.price <= o.price else f.price >= o.price
  {
    FillLaw(s, resting, o, ts, next);
    RestLaw(s, resting, o, ts, next);
  }

  lemma ReplaceHead(s: Side, resting: seq<Order>, q: nat, next: nat)
    requires ValidSide(s, resting, next) && resting != [] && q > 0
    ensures var r := [resting[0].(quantity := q)] + resting[1..];
      ValidSide(s, r, next) && Ids(r) == Ids(resting) && Prices(r) == Prices(resting)
  {
    var r := [resting[0].(quantity := q)] + resting[1..];
    assert ValidSide(s, r, next) by {
      assert forall i :: 0 <= i < |r| ==> r[i] == resting[i].(quantity := r[i].quantity);
    }
    assert r[1..] == resting[1..];
    IdsCons(r);
    IdsCons(resting);
  }

  /** The opposite side is kept: valid, no new id and no new price, and nothing crosses what is left. */
  ghost predicate SideKept(s: Side, resting: seq<Order>, o: Order, next: nat, rest: seq<Order>, left: nat) {
    && ValidSide(s, rest, next) && Ids(rest) <= Ids(resting) && Prices(rest) <= Prices(resting)
    && (left > 0 ==> forall p :: p in Prices(rest) ==> !Crosses(o, p))
  }

  /** Matching keeps the opposite side valid and never gives it a new id or a new price; if the
      incoming order has quantity left, nothing that rests crosses it. */
  lemma MatchKeepsSide(s: Side, resting: seq<Order>, o: Order, ts: nat, next: nat)
    requires ValidSide(s, resting, next) && s == o.side.Opposite()
    ensures var m := Match(resting, o, ts);
      && ValidSide(s, m.rest, next)
      && Ids(m.rest) <= Ids(resting)
      && Prices(m.rest) <= Prices(resting)
      && (m.left > 0 ==> forall p :: p in Prices(m.rest) ==> !Crosses(o, p))
  {
    MatchKeeps(s, resting, o, ts, next);
  }

  lemma {:induction false} MatchKeeps(s: Side, resting: seq<Order>, o: Order, ts: nat, next: nat)
    requires ValidSide(s, resting, next) && s == o.side.Opposite()
    ensures var m := Match(resting, o, ts); SideKept(s, resting, o, next, m.rest, m.left)
    decreases |resting|
  {
    if o.quantity == 0 || resting == [] || !Crosses(o, resting[0].price) {
      KeptUncrossed(s, resting, o, next);
    } else if o.quantity < resting[0].quantity {
      KeptInHead(s, resting, o, next);
    } else {
      var small := o.(quantity := o.quantity - resting[0].quantity);
      ValidUncons(s, resting, next);
      MatchKeeps(s, resting[1..], small, ts + 1, next);
      var m := Match(resting[1..], small, ts + 1);
      KeptPastHead(s, resting, o, small, next, m.rest, m.left);
    }
  }

  lemma KeptUncrossed(s: Side, resting: seq<Order>, o: Order, next: nat)
    requires ValidSide(s, resting, next) && s == o.side.Opposite()
    requires o.quantity == 0 || resting == [] || !Crosses(o, resting[0].price)
    ensures SideKept(s, resting, o, next, resting, o.quantity)
  {
    if o.quantity != 0 {
      NothingCrosses(s, resting, o, next);
    }
  }

  lemma KeptInHead(s: Side, resting: seq<Order>, o: Order, next: nat)
    requires ValidSide(s, resting, next) && resting != [] && 0 < o.quantity < resting[0].quantity
    ensures SideKept(s, resting, o, next, [resting[0].(quantity := resting[0].quantity - o.quantity)] + resting[1..], 0)
  {
    ReplaceHead(s, resting, resting[0].quantity - o.quantity, next);
  }

  lemma KeptPastHead(s: Side, resting: seq<Order>, o: Order, small: Order, next: nat, rest: seq<Order>, left: nat)
    requires resting != [] && small == o.(quantity := small.quantity)
    requires SideKept(s, resting[1..], small, next, rest, left)
    ensures SideKept(s, resting, o, next, rest, left)
  {
    IdsCons(resting);
  }
}
