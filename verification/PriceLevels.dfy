/** One side of the book as the program stores it: a sorted map from price to a FIFO level. The flat
    view lists the levels best price first, each level front to back. */
module PriceLevels {
  import opened Orders
  import opened BookSpec

  datatype PriceLevel = PriceLevel(price: int, orders: seq<Order>)

  type Levels = map<int, PriceLevel>

  /** Every level is keyed by its own price and holds only orders at that price. */
  ghost predicate Keyed(levels: Levels) {
    forall p :: p in levels ==>
      && levels[p].price == p
      && forall i :: 0 <= i < |levels[p].orders| ==> levels[p].orders[i].price == p
  }

  ghost predicate NoEmptyLevel(levels: Levels) {
    forall p :: p in levels ==> levels[p].orders != []
  }

  ghost predicate IsBest(s: Side, levels: Levels, p: int) {
    p in levels && forall q :: q in levels && q != p ==> Better(s, p, q)
  }

  lemma SomeLevel(levels: Levels)
    ensures levels == map[] || exists p :: p in levels
  {
    if forall p :: p !in levels {
      assert levels == map[];
    }
  }

  lemma {:induction false} BestExists(s: Side, levels: Levels)
    requires levels != map[]
    ensures exists p :: IsBest(s, levels, p)
    decreases |levels|
  {
    SomeLevel(levels);
    var p :| p in levels;
    var others := levels - {p};
    if others == map[] {
      assert forall q :: q in levels && q != p ==> q in others;
      assert IsBest(s, levels, p);
    } else {
      assert |others| < |levels| by {
        assert levels.Keys == others.Keys + {p};
      }
      BestExists(s, others);
      var q :| IsBest(s, others, q);
      assert forall r :: r in levels && r != p ==> r in others;
      assert IsBest(s, levels, if Better(s, p, q) then p else q);
    }
  }

  /** The first key of the map in the side's order: lowest for asks, highest for bids. */
  function Best(s: Side, levels: Levels): (p: int)
    requires levels != map[]
    ensures IsBest(s, levels, p)
  {
    BestExists(s, levels);
    var p :| p in levels && forall q :: q in levels && q != p ==> Better(s, p, q);
    p
  }

  lemma BestIs(s: Side, levels: Levels, p: int)
    requires IsBest(s, levels, p)
    ensures levels != map[] && Best(s, levels) == p
  {
  }

  lemma Shrinks(levels: Levels, p: int)
    requires p in levels
    ensures |levels - {p}| < |levels|
  {
    assert levels.Keys == (levels - {p}).Keys + {p};
  }

  /** The side as one list, best level first. */
  ghost function Flat(s: Side, levels: Levels): seq<Order>
    decreases |levels|
  {
    if levels == map[] then []
    else
      var p := Best(s, levels);
      Shrinks(levels, p);
      levels[p].orders + Flat(s, levels - {p})
  }

  /** Changing or emptying the best level changes the front of the flat view only. */
  lemma FlatBest(s: Side, levels: Levels, p: int, level: PriceLevel)
    requires IsBest(s, levels, p)
    ensures Flat(s, levels) == levels[p].orders + Flat(s, levels - {p})
    ensures Flat(s, levels[p := level]) == level.orders + Flat(s, levels - {p})
  {
    var changed := levels[p := level];
    assert IsBest(s, changed, p);
    BestIs(s, levels, p);
    BestIs(s, changed, p);
    assert changed - {p} == levels - {p};
  }

  lemma {:induction false} FlatMembers(s: Side, levels: Levels, o: Order)
    requires Keyed(levels)
    ensures o in Flat(s, levels) <==> o.price in levels && o in levels[o.price].orders
    decreases |levels|
  {
    if levels != map[] {
      var p := Best(s, levels);
      Shrinks(levels, p);
      FlatMembers(s, levels - {p}, o);
    }
  }

  lemma FlatEmpty(s: Side, levels: Levels)
    requires NoEmptyLevel(levels)
    ensures Flat(s, levels) == [] <==> levels == map[]
  {
  }

  lemma {:induction false} InsertSkips(s: Side, a: seq<Order>, b: seq<Order>, o: Order)
    requires forall i :: 0 <= i < |a| ==> !Better(s, o.price, a[i].price)
    ensures Insert(s, a + b, o) == a + Insert(s, b, o)
  {
    if a == [] {
      assert a + b == b;
      assert a + Insert(s, b, o) == Insert(s, b, o);
    } else {
      assert (a + b)[0] == a[0] && (a + b)[1..] == a[1..] + b;
      InsertSkips(s, a[1..], b, o);
      assert [a[0]] + (a[1..] + Insert(s, b, o)) == a + Insert(s, b, o);
    }
  }

  /** The level at a price, an empty one when the map has none (std::map::try_emplace). */
  function LevelAt(levels: Levels, price: int): PriceLevel {
    if price in levels then levels[price] else PriceLevel(price, [])
  }

  lemma FlatHeadPrice(s: Side, levels: Levels)
    requires levels != map[] && Keyed(levels) && NoEmptyLevel(levels)
    ensures var p := Best(s, levels);
      && levels[p].orders != []
      && Flat(s, levels) != [] && Flat(s, levels)[0] == levels[p].orders[0] && Flat(s, levels)[0].price == p
  {
  }

  /** An order better than all levels opens the first one. */
  lemma FlatNewBest(s: Side, levels: Levels, o: Order)
    requires Keyed(levels) && NoEmptyLevel(levels)
    requires levels == map[] || Better(s, o.price, Best(s, levels))
    ensures Flat(s, levels[o.price := PriceLevel(o.price, [o])]) == Insert(s, Flat(s, levels), o)
    ensures o.price !in levels
  {
    var changed := levels[o.price := PriceLevel(o.price, [o])];
    assert IsBest(s, changed, o.price);
    BestIs(s, changed, o.price);
    assert changed - {o.price} == levels;
    if levels != map[] {
      FlatHeadPrice(s, levels);
    }
    assert Insert(s, Flat(s, levels), o) == [o] + Flat(s, levels);
  }

  /** An order at the best price joins the back of the first level. */
  lemma FlatAtBest(s: Side, levels: Levels, p: int, o: Order)
    requires Keyed(levels) && NoEmptyLevel(levels) && IsBest(s, levels, p) && o.price == p
    ensures Flat(s, levels[p := PriceLevel(levels[p].price, levels[p].orders + [o])]) == Insert(s, Flat(s, levels), o)
  {
    var level, rest := levels[p], levels - {p};
    FlatBest(s, levels, p, PriceLevel(level.price, level.orders + [o]));
    InsertSkips(s, level.orders, Flat(s, rest), o);
    InsertBeforeWorse(s, rest, o);
    assert level.orders + [o] + Flat(s, rest) == level.orders + ([o] + Flat(s, rest));
  }

  /** Appending to the level at the order's price is inserting into the flat view behind every
      order with a price at least as good. */
  lemma {:induction false} FlatInsert(s: Side, levels: Levels, o: Order)
    requires Keyed(levels) && NoEmptyLevel(levels)
    ensures var level := LevelAt(levels, o.price);
      Flat(s, levels[o.price := PriceLevel(level.price, level.orders + [o])]) == Insert(s, Flat(s, levels), o)
    decreases |levels|
  {
    var level := LevelAt(levels, o.price);
    var grown := PriceLevel(level.price, level.orders + [o]);
    var changed := levels[o.price := grown];
    if levels == map[] || Better(s, o.price, Best(s, levels)) {
      FlatNewBest(s, levels, o);
      assert level.orders + [o] == [o];
    } else {
      var p := Best(s, levels);
      Shrinks(levels, p);
      var rest := levels - {p};
      if p == o.price {
        FlatAtBest(s, levels, p, o);
      } else {
        assert IsBest(s, changed, p);
        BestIs(s, changed, p);
        assert LevelAt(rest, o.price) == level;
        assert changed - {p} == rest[o.price := grown];
        FlatInsert(s, rest, o);
        InsertSkips(s, levels[p].orders, Flat(s, rest), o);
      }
    }
  }

  lemma InsertBeforeWorse(s: Side, levels: Levels, o: Order)
    requires Keyed(levels) && NoEmptyLevel(levels)
    requires forall q :: q in levels ==> Better(s, o.price, q)
    ensures Insert(s, Flat(s, levels), o) == [o] + Flat(s, levels)
  {
    if levels != map[] {
      FlatHeadPrice(s, levels);
    }
  }

  lemma {:induction false} RemoveInFirst(a: seq<Order>, b: seq<Order>, id: nat)
    requires id in Ids(a)
    ensures Remove(a + b, id) == Remove(a, id) + b
  {
    IdsCons(a);
    assert (a + b)[0] == a[0] && (a + b)[1..] == a[1..] + b;
    if a[0].id != id {
      RemoveInFirst(a[1..], b, id);
      assert [a[0]] + (Remove(a[1..], id) + b) == [a[0]] + Remove(a[1..], id) + b;
    }
  }

  lemma {:induction false} RemoveInSecond(a: seq<Order>, b: seq<Order>, id: nat)
    requires id !in Ids(a)
    ensures Remove(a + b, id) == a + Remove(b, id)
  {
    if a == [] {
      assert a + b == b;
      assert a + Remove(b, id) == Remove(b, id);
    } else {
      IdsCons(a);
      assert (a + b)[0] == a[0] && (a + b)[1..] == a[1..] + b;
      RemoveInSecond(a[1..], b, id);
      assert [a[0]] + (a[1..] + Remove(b, id)) == a + Remove(b, id);
    }
  }

  /** Erasing the order from its level is removing the id from the flat view. */
  lemma {:induction false} FlatRemove(s: Side, levels: Levels, p: int, id: nat)
    requires Keyed(levels) && p in levels && id in Ids(levels[p].orders)
    requires forall q :: q in levels && q != p ==> id !in Ids(levels[q].orders)
    ensures Flat(s, levels[p := PriceLevel(p, Remove(levels[p].orders, id))]) == Remove(Flat(s, levels), id)
    decreases |levels|
  {
    var level := PriceLevel(p, Remove(levels[p].orders, id));
    var b := Best(s, levels);
    Shrinks(levels, b);
    if b == p {
      RemoveInFirst(levels[b].orders, Flat(s, levels - {b}), id);
      FlatBest(s, levels, p, level);
    } else {
      RemoveInSecond(levels[b].orders, Flat(s, levels - {b}), id);
      var changed := levels[p := level];
      assert IsBest(s, changed, b);
      BestIs(s, changed, b);
      assert changed - {b} == (levels - {b})[p := level];
      FlatRemove(s, levels - {b}, p, id);
    }
  }

  /** Dropping an empty level does not show in the flat view. */
  lemma {:induction false} FlatDropEmpty(s: Side, levels: Levels, p: int)
    requires p in levels && levels[p].orders == []
    ensures Flat(s, levels - {p}) == Flat(s, levels)
    decreases |levels|
  {
    var b := Best(s, levels);
    Shrinks(levels, b);
    if b != p {
      var rest := levels - {p};
      assert IsBest(s, rest, b);
      BestIs(s, rest, b);
      assert rest - {b} == (levels - {b}) - {p};
      FlatDropEmpty(s, levels - {b}, p);
    }
  }
}
