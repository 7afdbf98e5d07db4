/** The depth snapshot of one side (engine/src/order_book.cpp): for the best levels, best first, the
    price, the number of orders and their total quantity as a 32-bit number. */
module Snapshots {
  import opened Orders
  import opened PriceLevels

  datatype LevelSnapshot = LevelSnapshot(price: int, total: nat, count: nat)

  function CountAt(orders: seq<Order>, price: int): nat {
    if orders == [] then 0 else (if orders[0].price == price then 1 else 0) + CountAt(orders[1..], price)
  }

  /** What an entry says about a price of the flat side: the total wraps around at 32 bits. */
  predicate Tells(orders: seq<Order>, e: LevelSnapshot) {
    e.price in Prices(orders) && e.total == QuantityAt(orders, e.price) % TWO_32 && e.count == CountAt(orders, e.price)
  }

  function Told(snap: seq<LevelSnapshot>): set<int> {
    set e | e in snap :: e.price
  }

  /** snap tells about the best prices of the side, best first, as many as there are up to depth. */
  ghost predicate IsSnapshot(s: Side, orders: seq<Order>, depth: nat, snap: seq<LevelSnapshot>) {
    && |snap| <= depth
    && (forall k :: 0 <= k < |snap| ==> Tells(orders, snap[k]))
    && (forall j, k :: 0 <= j < k < |snap| ==> Better(s, snap[j].price, snap[k].price))
    && (forall p :: p in Prices(orders) ==>
          || p in Told(snap)
          || (|snap| == depth && forall k :: 0 <= k < |snap| ==> Better(s, snap[k].price, p)))
  }

  /** Where two snapshots agree so far, neither goes on with a better price than the other. */
  lemma NotBetter(s: Side, orders: seq<Order>, depth: nat, a: seq<LevelSnapshot>, b: seq<LevelSnapshot>, n: nat)
    requires IsSnapshot(s, orders, depth, a) && IsSnapshot(s, orders, depth, b) && n < |a| && n < |b|
    requires forall k :: 0 <= k < n ==> a[k].price == b[k].price
    ensures !Better(s, a[n].price, b[n].price)
  {
    var p := a[n].price;
    assert Tells(orders, a[n]);
    forall k | 0 <= k < |b| && b[k].price == p ensures k >= n {
      assert k < n ==> Better(s, a[k].price, a[n].price);
    }
  }

  lemma SameNext(s: Side, orders: seq<Order>, depth: nat, a: seq<LevelSnapshot>, b: seq<LevelSnapshot>, n: nat)
    requires IsSnapshot(s, orders, depth, a) && IsSnapshot(s, orders, depth, b) && n < |a| && n < |b|
    requires forall k :: 0 <= k < n ==> a[k].price == b[k].price
    ensures a[n] == b[n]
  {
    NotBetter(s, orders, depth, a, b, n);
    NotBetter(s, orders, depth, b, a, n);
    assert Tells(orders, a[n]) && Tells(orders, b[n]);
  }

  lemma SameOneMore(a: seq<LevelSnapshot>, b: seq<LevelSnapshot>, n: nat)
    requires n < |a| && n < |b| && a[n] == b[n]
    requires forall k :: 0 <= k < n ==> a[k] == b[k]
    ensures forall k :: 0 <= k < n + 1 ==> a[k] == b[k]
  {
  }

  lemma {:induction false} SamePrefix(s: Side, orders: seq<Order>, depth: nat, a: seq<LevelSnapshot>,
          b: seq<LevelSnapshot>, n: nat)
    requires IsSnapshot(s, orders, depth, a) && IsSnapshot(s, orders, depth, b) && n <= |a| && n <= |b|
    ensures forall k :: 0 <= k < n ==> a[k] == b[k]
  {
    if n > 0 {
      SamePrefix(s, orders, depth, a, b, n - 1);
      SameNext(s, orders, depth, a, b, n - 1);
      SameOneMore(a, b, n - 1);
    }
  }

  lemma NotShorter(s: Side, orders: seq<Order>, depth: nat, a: seq<LevelSnapshot>, b: seq<LevelSnapshot>)
    requires IsSnapshot(s, orders, depth, a) && IsSnapshot(s, orders, depth, b)
    ensures |a| >= |b|
  {
    var n := Min(|a|, |b|);
    assert n < |b| ==> Tells(orders, b[n]);
    SamePrefix(s, orders, depth, a, b, n);
  }

  /** There is only one such snapshot. */
  lemma SnapshotUnique(s: Side, orders: seq<Order>, depth: nat, a: seq<LevelSnapshot>, b: seq<LevelSnapshot>)
    requires IsSnapshot(s, orders, depth, a) && IsSnapshot(s, orders, depth, b)
    ensures a == b
  {
    NotShorter(s, orders, depth, a, b);
    NotShorter(s, orders, depth, b, a);
    SamePrefix(s, orders, depth, a, b, |a|);
  }

  /** The inner loop: the quantities of a level added up in a 32-bit counter. */
  method LevelTotal(orders: seq<Order>) returns (total: nat)
    ensures total == Quantity(orders) % TWO_32
  {
    total := 0;
    for i := 0 to |orders|
      invariant total == Quantity(orders[..i]) % TWO_32
    {
      TakeSnoc(orders, i);
      QuantityAppend(orders[..i], [orders[i]]);
      total := (total + orders[i].quantity) % TWO_32;
    }
    TakeAll(orders);
  }

  lemma {:induction false} SamePrice(orders: seq<Order>, price: int)
    requires forall i :: 0 <= i < |orders| ==> orders[i].price == price
    ensures QuantityAt(orders, price) == Quantity(orders) && CountAt(orders, price) == |orders|
  {
    if orders != [] {
      SamePrice(orders[1..], price);
    }
  }

  lemma {:induction false} OtherPrice(orders: seq<Order>, price: int)
    requires price !in Prices(orders)
    ensures QuantityAt(orders, price) == 0 && CountAt(orders, price) == 0
  {
    if orders != [] {
      assert orders[0] in orders && forall o :: o in orders[1..] ==> o in orders;
      OtherPrice(orders[1..], price);
    }
  }

  lemma {:induction false} AtAppend(a: seq<Order>, b: seq<Order>, price: int)
    ensures QuantityAt(a + b, price) == QuantityAt(a, price) + QuantityAt(b, price)
    ensures CountAt(a + b, price) == CountAt(a, price) + CountAt(b, price)
  {
    if a == [] {
      assert a + b == b;
    } else {
      assert (a + b)[1..] == a[1..] + b;
      AtAppend(a[1..], b, price);
    }
  }

  /** The prices of the flat side are the keys of the map. */
  lemma FlatPrices(s: Side, levels: Levels)
    requires Keyed(levels) && NoEmptyLevel(levels)
    ensures Prices(Flat(s, levels)) == levels.Keys
  {
    forall p | p in levels ensures p in Prices(Flat(s, levels)) {
      FlatMembers(s, levels, levels[p].orders[0]);
    }
    forall o | o in Flat(s, levels) ensures o.price in levels {
      FlatMembers(s, levels, o);
    }
  }

  /** What the flat side holds at a level's price is the level. */
  lemma {:induction false} FlatAt(s: Side, levels: Levels, p: int)
    requires Keyed(levels) && NoEmptyLevel(levels) && p in levels
    ensures QuantityAt(Flat(s, levels), p) == Quantity(levels[p].orders)
    ensures CountAt(Flat(s, levels), p) == |levels[p].orders|
    decreases |levels|
  {
    var best := Best(s, levels);
    var rest := levels - {best};
    Shrinks(levels, best);
    AtAppend(levels[best].orders, Flat(s, rest), p);
    FlatPrices(s, rest);
    if p == best {
      SamePrice(levels[p].orders, p);
      OtherPrice(Flat(s, rest), p);
    } else {
      assert p !in Prices(levels[best].orders);
      OtherPrice(levels[best].orders, p);
      FlatAt(s, rest, p);
    }
  }

  /** The snapshot so far tells about the levels taken out of rest, all of them better than what is left. */
  ghost predicate Taken(s: Side, levels: Levels, rest: Levels, snap: seq<LevelSnapshot>) {
    && (forall p :: p in rest ==> p in levels && rest[p] == levels[p])
    && (forall k :: 0 <= k < |snap| ==> Tells(Flat(s, levels), snap[k]))
    && (forall j, k :: 0 <= j < k < |snap| ==> Better(s, snap[j].price, snap[k].price))
    && (forall k, p :: 0 <= k < |snap| && p in rest ==> Better(s, snap[k].price, p))
    && levels.Keys <= rest.Keys + Told(snap)
  }

  lemma TakenNext(s: Side, levels: Levels, rest: Levels, snap: seq<LevelSnapshot>, p: int, e: LevelSnapshot)
    requires Taken(s, levels, rest, snap) && IsBest(s, rest, p)
    requires e.price == p && Tells(Flat(s, levels), e)
    ensures Taken(s, levels, rest - {p}, snap + [e])
  {
    var snap' := snap + [e];
    assert forall x :: x in snap' <==> x in snap || x == e;
  }

  lemma TakenEnough(s: Side, levels: Levels, rest: Levels, depth: nat, snap: seq<LevelSnapshot>)
    requires Keyed(levels) && NoEmptyLevel(levels)
    requires Taken(s, levels, rest, snap) && |snap| <= depth && (rest == map[] || |snap| == depth)
    ensures IsSnapshot(s, Flat(s, levels), depth, snap)
  {
    FlatPrices(s, levels);
  }

  lemma LevelTold(s: Side, levels: Levels, p: int)
    requires Keyed(levels) && NoEmptyLevel(levels) && p in levels
    ensures Tells(Flat(s, levels), LevelSnapshot(p, Quantity(levels[p].orders) % TWO_32, |levels[p].orders|))
  {
    FlatAt(s, levels, p);
    FlatPrices(s, levels);
  }

  /** One half of snapshot(depth): the levels in map order, until there are enough. */
  method SideSnapshot(s: Side, levels: Levels, depth: nat) returns (snap: seq<LevelSnapshot>)
    requires Keyed(levels) && NoEmptyLevel(levels)
    ensures IsSnapshot(s, Flat(s, levels), depth, snap)
  {
    snap := [];
    var rest := levels;
    while rest != map[] && |snap| < depth
      invariant |snap| <= depth && Taken(s, levels, rest, snap)
      decreases |rest|
    {
      var p := Best(s, rest);
      var level := rest[p];
      var total := LevelTotal(level.orders);
      LevelTold(s, levels, p);
      TakenNext(s, levels, rest, snap, p, LevelSnapshot(level.price, total, |level.orders|));
      snap := snap + [LevelSnapshot(level.price, total, |level.orders|)];
      Shrinks(rest, p);
      rest := rest - {p};
    }
    TakenEnough(s, levels, rest, depth, snap);
  }
}
