/**
 What a market-data worker knows about resting orders, and the relation between those orders and
 the product ladders: the quantity at a price is the total remaining volume of its orders.
 */
module Market {
  import opened Common
  import B = Book
  import L = LevelBooks

  const INT64_MAX: nat := 0x7FFF_FFFF_FFFF_FFFF

  /** An order as a worker records it. Only live orders are kept. */
  datatype Resting = Resting(product: nat, bid: bool, price: nat, remaining: nat)

  // ---------------------------------------------------------------- totals

  ghost function Total(m: map<nat, nat>): nat
    decreases |m|
  {
    if m == map[] then 0
    else
      var x :| x in m;
      m[x] + Total(m - {x})
  }

  function At(m: map<nat, nat>, x: nat): nat { if x in m then m[x] else 0 }

  /** A total does not depend on the order in which it is taken. */
  lemma {:induction false} TotalSplit(m: map<nat, nat>, x: nat)
    ensures Total(m) == At(m, x) + Total(m - {x})
    decreases |m|
  {
    if x !in m {
      assert m - {x} == m;
    } else if m != map[] {
      var y :| y in m && Total(m) == m[y] + Total(m - {y});
      if x != y {
        TotalSplit(m - {y}, x);
        TotalSplit(m - {x}, y);
        assert m - {x} - {y} == m - {y} - {x};
      }
    }
  }

  lemma TotalChanged(m: map<nat, nat>, n: map<nat, nat>, x: nat)
    requires m - {x} == n - {x}
    ensures Total(n) + At(m, x) == Total(m) + At(n, x)
  {
    TotalSplit(m, x);
    TotalSplit(n, x);
  }

  lemma {:induction false} TotalUnion(m: map<nat, nat>, n: map<nat, nat>)
    requires m.Keys !! n.Keys
    ensures Total(m + n) == Total(m) + Total(n)
    decreases |m|
  {
    hide Total;
    if m == map[] {
      assert m + n == n;
      TotalEmpty();
    } else {
      var x :| x in m;
      UnionDrop(m, n, x);
      TotalUnion(m - {x}, n);
      TotalSplit(m + n, x);
      TotalSplit(m, x);
    }
  }

  lemma UnionDrop(m: map<nat, nat>, n: map<nat, nat>, x: nat)
    requires m.Keys !! n.Keys && x in m
    ensures (m + n) - {x} == (m - {x}) + n && (m - {x}).Keys !! n.Keys && At(m + n, x) == m[x] == At(m, x)
  {
    assert x in m.Keys;
    assert x !in n;
    var a, b := (m + n) - {x}, (m - {x}) + n;
    assert a.Keys == b.Keys;
    forall y | y in a.Keys ensures a[y] == b[y] {
      if y in n { assert y in n.Keys; }
    }
  }

  lemma TotalEmpty()
    ensures Total(map[]) == 0
  {
  }

  // ---------------------------------------------------------- the ladders

  function AtPrice(orders: map<nat, Resting>, product: nat, p: nat): map<nat, nat> {
    map id | id in orders && orders[id].product == product && orders[id].price == p :: orders[id].remaining
  }

  predicate ShownRight(s: L.Ladders, o: Resting) {
    && o.product < |s.slotOf|
    && (o.remaining > 0 ==> L.Where(s, o.product, o.price) == Some(B.Key(o.product, o.bid)))
  }

  ghost predicate QtyRight(orders: map<nat, Resting>, s: L.Ladders, product: nat, p: nat) {
    L.Qty(s, product, p) == Total(AtPrice(orders, product, p))
  }

  /** Every price shows what the live orders there still have, both sides together. */
  ghost predicate Shows(orders: map<nat, Resting>, s: L.Ladders) {
    && (forall id :: id in orders ==> orders[id].product < |s.slotOf|)
    && (forall product: nat, p: nat :: product < |s.slotOf| ==> QtyRight(orders, s, product, p))
  }

  /** The product ladders show exactly the live orders, each price on the side of its orders. */
  ghost predicate Mirrors(orders: map<nat, Resting>, s: L.Ladders) {
    && (forall id :: id in orders ==> ShownRight(s, orders[id]))
    && (forall product: nat, p: nat :: product < |s.slotOf| ==> QtyRight(orders, s, product, p))
  }

  lemma ShownAt(orders: map<nat, Resting>, s: L.Ladders, id: nat)
    requires Mirrors(orders, s) && id in orders && orders[id].remaining > 0
    ensures orders[id].product < |s.slotOf| &&
        L.Where(s, orders[id].product, orders[id].price) == Some(B.Key(orders[id].product, orders[id].bid))
  {
    assert ShownRight(s, orders[id]);
  }

  /** One order changes: totals change by as much as the order does. */
  lemma OrderChanged(a: map<nat, Resting>, b: map<nat, Resting>, id: nat, product: nat, p: nat)
    requires a - {id} == b - {id}
    ensures Total(AtPrice(b, product, p)) + At(AtPrice(a, product, p), id) == Total(AtPrice(a, product, p)) +
        At(AtPrice(b, product, p), id)
  {
    var m, n := AtPrice(a, product, p), AtPrice(b, product, p);
    forall x ensures x in m - {id} <==> x in n - {id} {
      assert x in a - {id} <==> x in b - {id};
    }
    forall x | x in m - {id} ensures m[x] == n[x] {
      assert (a - {id})[x] == (b - {id})[x];
    }
    assert m - {id} == n - {id};
    TotalChanged(m, n, id);
  }

  /** No order of the other side rests at this price. */
  predicate Free(orders: map<nat, Resting>, o: Resting) {
    forall id ::
      id in orders && orders[id].product == o.product && orders[id].price == o.price && orders[id].remaining > 0 ==>
        orders[id].bid == o.bid
  }

  /** A price shown by the ladder has an order that put it there. */
  lemma HasOrder(orders: map<nat, Resting>, s: L.Ladders, product: nat, p: nat) returns (id: nat)
    requires L.Ok(s) && Mirrors(orders, s) && product < |s.slotOf| && p in s.slotOf[product]
    ensures id in orders && orders[id].product == product && orders[id].price == p && orders[id].remaining > 0
  {
    L.PriceIs(s, product, p);
    assert QtyRight(orders, s, product, p);
    id := SomePositive(AtPrice(orders, product, p));
  }

  lemma {:induction false} SomePositive(m: map<nat, nat>) returns (x: nat)
    requires Total(m) > 0
    ensures x in m && m[x] > 0
    decreases |m|
  {
    x :| x in m && Total(m) == m[x] + Total(m - {x});
    if m[x] == 0 { x := SomePositive(m - {x}); }
  }

  predicate AtSlot(orders: map<nat, Resting>, s: L.Ladders, id: nat, x: nat) {
    id in orders && var o := orders[id];
    o.product < |s.slotOf| && o.price in s.slotOf[o.product] && s.slotOf[o.product][o.price] == x
  }

  /** One live order for each of the first `n` slots of a ladder without free ones. */
  lemma {:induction false} OneEach(orders: map<nat, Resting>, s: L.Ladders, n: nat) returns (ids: set<nat>)
    requires L.Ok(s) && Shows(orders, s) && s.free == [] && n <= |s.price|
    ensures |ids| == n && ids <= orders.Keys && forall id :: id in ids ==>
        exists x: nat :: x < n && AtSlot(orders, s, id, x)
  {
    if n == 0 {
      ids := {};
    } else {
      var less := OneEach(orders, s, n - 1);
      var id := OrderIn(orders, s, n - 1);
      hide L.Ok, Shows;
      ids := less + {id};
      forall i | i in ids ensures exists x: nat :: x < n && AtSlot(orders, s, i, x) {
        if i in less { var x: nat :| x < n - 1 && AtSlot(orders, s, i, x); }
            else { assert AtSlot(orders, s, i, n - 1); }
      }
    }
  }

  /** A slot that is not free is the level of some live order. */
  lemma OrderIn(orders: map<nat, Resting>, s: L.Ladders, x: nat) returns (id: nat)
    requires L.Ok(s) && Shows(orders, s) && s.free == [] && x < |s.price|
    ensures AtSlot(orders, s, id, x)
  {
    assert L.SlotOk(s, x);
    var g, p := s.owner[x].k / 2, s.price[x];
    L.PriceIs(s, g, p);
    assert QtyRight(orders, s, g, p);
    id := SomePositive(AtPrice(orders, g, p));
  }

  /** Where there is no free slot, there are no more slots than live orders. */
  lemma LevelsFew(orders: map<nat, Resting>, s: L.Ladders)
    requires L.Ok(s) && Shows(orders, s) && s.free == []
    ensures |s.price| <= |orders|
  {
    var ids := OneEach(orders, s, |s.price|);
    SubsetSize(ids, orders.Keys);
    assert |orders.Keys| == |orders|;
  }

  /** The price of a new order is not shown on the other side. */
  lemma SideIsFree(orders: map<nat, Resting>, s: L.Ladders, o: Resting)
    requires L.Ok(s) && Mirrors(orders, s) && o.product < |s.slotOf| && Free(orders, o)
    ensures L.Where(s, o.product, o.price) == if o.price in s.slotOf[o.product] then Some(B.Key(o.product, o.bid))
        else None
  {
    L.PriceIs(s, o.product, o.price);
    if o.price in s.slotOf[o.product] {
      var id := HasOrder(orders, s, o.product, o.price);
      assert ShownRight(s, orders[id]);
    }
  }

  // ------------------------------------------------ what keeps the mirror

  ghost predicate Added(s: L.Ladders, t: L.Ladders, o: Resting) {
    && |t.slotOf| == |s.slotOf|
    && (forall i: nat, r: nat ::
       L.Qty(t, i, r) == L.Qty(s, i, r) + if i == o.product && r == o.price then o.remaining else 0)
    && (forall i: nat, r: nat :: L.Where(t, i, r) == L.Placed(s, i, r, o.product, o.price, o.remaining, o.bid))
  }

  lemma MirrorsShow(orders: map<nat, Resting>, s: L.Ladders)
    requires Mirrors(orders, s)
    ensures Shows(orders, s)
  {
    forall id | id in orders ensures orders[id].product < |s.slotOf| { assert ShownRight(s, orders[id]); }
  }

  lemma AddShows(orders: map<nat, Resting>, s: L.Ladders, t: L.Ladders, id: nat, o: Resting)
    requires Shows(orders, s) && o.product < |s.slotOf| && id !in orders && |t.slotOf| == |s.slotOf|
    requires forall i: nat, r: nat ::
               L.Qty(t, i, r) == L.Qty(s, i, r) + if i == o.product && r == o.price then o.remaining else 0
    ensures Shows(orders[id := o], t)
  {
    hide L.Qty;
    var orders' := orders[id := o];
    forall product: nat, p: nat | product < |t.slotOf| ensures QtyRight(orders', t, product, p) {
      assert QtyRight(orders, s, product, p);
      assert orders' - {id} == orders - {id};
      OrderChanged(orders, orders', id, product, p);
      assert L.Qty(t, product, p) == L.Qty(s, product, p) + if product == o.product && p == o.price then o.remaining
          else 0;
    }
  }

  lemma TakeShows(orders: map<nat, Resting>, s: L.Ladders, t: L.Ladders, id: nat, q: nat)
    requires Shows(orders, s) && id in orders && q <= orders[id].remaining && |t.slotOf| == |s.slotOf|
    requires var o := orders[id];
             forall i: nat, r: nat ::
               L.Qty(t, i, r) == if i != o.product || r != o.price then L.Qty(s, i, r) else if q >= L.Qty(s, i, r)
                   then 0
                   else L.Qty(s, i, r) - q
    ensures Shows(Cut(orders, id, q), t)
  {
    hide L.Qty;
    var o, orders' := orders[id], Cut(orders, id, q);
    assert QtyRight(orders, s, o.product, o.price);
    TotalSplit(AtPrice(orders, o.product, o.price), id);
    forall product: nat, p: nat | product < |t.slotOf| ensures QtyRight(orders', t, product, p) {
      assert QtyRight(orders, s, product, p);
      assert orders' - {id} == orders - {id};
      OrderChanged(orders, orders', id, product, p);
    }
  }

  lemma AddMirrors(orders: map<nat, Resting>, s: L.Ladders, t: L.Ladders, id: nat, o: Resting)
    requires L.Ok(s) && Mirrors(orders, s) && o.product < |s.slotOf| && Free(orders, o) && id !in orders &&
        Added(s, t, o)
    ensures Mirrors(orders[id := o], t)
  {
    hide L.Ok, L.Qty, L.Where;
    var orders' := orders[id := o];
    SideIsFree(orders, s, o);
    forall x | x in orders' ensures ShownRight(t, orders'[x]) {
      if x != id { assert ShownRight(s, orders[x]); }
      assert L.Where(t, orders'[x].product, orders'[x].price)
             == L.Placed(s, orders'[x].product, orders'[x].price, o.product, o.price, o.remaining, o.bid);
    }
    forall product: nat, p: nat | product < |t.slotOf| ensures QtyRight(orders', t, product, p) {
      assert QtyRight(orders, s, product, p);
      assert orders' - {id} == orders - {id};
      OrderChanged(orders, orders', id, product, p);
      assert L.Qty(t, product, p) == L.Qty(s, product, p) + if product == o.product && p == o.price then o.remaining
          else 0;
    }
  }

  ghost predicate Taken(s: L.Ladders, t: L.Ladders, o: Resting, q: nat) {
    && |t.slotOf| == |s.slotOf|
    && (forall i: nat, r: nat ::
          L.Qty(t, i, r) == if i != o.product || r != o.price then L.Qty(s, i, r) else if q >= L.Qty(s, i, r) then 0
              else L.Qty(s, i, r) - q)
    && (forall i: nat, r: nat ::
          L.Where(t, i, r) == if q > 0 && i == o.product && r == o.price && q >= L.Qty(s, i, r) then None
              else L.Where(s, i, r))
  }

  /** The orders after `q` of order `id` is gone; an order with nothing left is forgotten. */
  function Cut(orders: map<nat, Resting>, id: nat, q: nat): map<nat, Resting>
    requires id in orders && q <= orders[id].remaining
  {
    if q == orders[id].remaining then orders - {id}
        else orders[id := orders[id].(remaining := orders[id].remaining - q)]
  }

  /** A level whose whole quantity is `q` of one order has no other order. */
  lemma OthersEmpty(orders: map<nat, Resting>, s: L.Ladders, id: nat, x: nat, q: nat)
    requires Mirrors(orders, s) && id in orders && x in orders && x != id && q <= orders[id].remaining
    requires orders[x].product == orders[id].product && orders[x].price == orders[id].price &&
        q >= L.Qty(s, orders[id].product, orders[id].price)
    ensures orders[x].remaining == 0 && q == orders[id].remaining
  {
    var m := AtPrice(orders, orders[id].product, orders[id].price);
    assert ShownRight(s, orders[id]);
    assert QtyRight(orders, s, orders[id].product, orders[id].price);
    TotalSplit(m, id);
    TotalSplit(m - {id}, x);
  }

  lemma QtyCovers(orders: map<nat, Resting>, s: L.Ladders, id: nat)
    requires Mirrors(orders, s) && id in orders
    ensures L.Qty(s, orders[id].product, orders[id].price) >= orders[id].remaining
  {
    assert ShownRight(s, orders[id]);
    assert QtyRight(orders, s, orders[id].product, orders[id].price);
    TotalSplit(AtPrice(orders, orders[id].product, orders[id].price), id);
  }

  lemma TakeMirrors(orders: map<nat, Resting>, s: L.Ladders, t: L.Ladders, id: nat, q: nat)
    requires Mirrors(orders, s) && id in orders && q <= orders[id].remaining && Taken(s, t, orders[id], q)
    ensures Mirrors(Cut(orders, id, q), t)
  {
    hide L.Qty, L.Where;
    var o, orders' := orders[id], Cut(orders, id, q);
    QtyCovers(orders, s, id);
    forall x | x in orders' ensures ShownRight(t, orders'[x]) {
      var y := orders'[x];
      assert ShownRight(s, orders[x]);
      assert L.Where(t, y.product, y.price)
             == if q > 0 && y.product == o.product && y.price == o.price && q >= L.Qty(s, y.product, y.price) then None
                 else L.Where(s, y.product, y.price);
      if x != id && y.product == o.product && y.price == o.price &&
          q >= L.Qty(s, y.product, y.price) { OthersEmpty(orders, s, id, x, q); }
    }
    forall product: nat, p: nat | product < |t.slotOf| ensures QtyRight(orders', t, product, p) {
      assert QtyRight(orders, s, product, p);
      assert orders' - {id} == orders - {id};
      OrderChanged(orders, orders', id, product, p);
    }
  }
}
