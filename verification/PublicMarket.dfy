/**
 The public market-data worker: it hears the log record by record and keeps one ladder per product
 in step with the orders it has heard of.
 */
module PublicMarket {
  import opened Common
  import opened Market
  import B = Book
  import L = LevelBooks

  /** The subscribed products; None stands for all of them. */
  predicate Listens(subs: Option<seq<bool>>, product: nat) {
    subs.None? || (product < |subs.value| && subs.value[product])
  }

  function Rests(product: nat, o: B.Order): Resting { Resting(product, B.IsBid(o.flags), o.price, o.remain) }

  function Gone(orders: map<nat, Resting>, id: nat): map<nat, Resting> {
    if id in orders && orders[id].remaining > 0 then orders - {id} else orders
  }

  function Less(orders: map<nat, Resting>, id: nat, volume: nat): map<nat, Resting> {
    if id in orders && orders[id].remaining > 0
    then Cut(orders, id, if volume > orders[id].remaining then orders[id].remaining else volume) else orders
  }

  /** What one record does to the orders a worker keeps. */
  function Heard(orders: map<nat, Resting>, subs: Option<seq<bool>>, r: B.Record): map<nat, Resting> {
    match r
    case RInsert(product, o) => if Listens(subs, product) then orders[o.id := Rests(product, o)] else orders
    case RCancel(id) => Gone(orders, id)
    case RDeactivate(id) => Gone(orders, id)
    case RActivate(_) => orders    // an order that can be activated was forgotten when it was deactivated
    case RMatch(maker, _, _, volume, _) => Less(orders, maker, volume)
  }

  function HeardAll(orders: map<nat, Resting>, subs: Option<seq<bool>>, log: seq<B.Record>): map<nat, Resting>
    decreases |log|
  {
    if log == [] then orders else HeardAll(Heard(orders, subs, log[0]), subs, log[1..])
  }

  /** Ids of live orders are distinct and no price is live on both sides of a product. */
  predicate CalmRecord(orders: map<nat, Resting>, subs: Option<seq<bool>>, r: B.Record) {
    r.RInsert? && Listens(subs, r.product) ==> r.order.id !in orders && Free(orders, Rests(r.product, r.order))
  }

  predicate Calm(orders: map<nat, Resting>, subs: Option<seq<bool>>, log: seq<B.Record>)
    decreases |log|
  {
    log == [] || (CalmRecord(orders, subs, log[0]) && Calm(Heard(orders, subs, log[0]), subs, log[1..]))
  }

  predicate InRange(r: B.Record) {
    match r
    case RInsert(_, o) => o.price <= INT64_MAX && o.remain <= INT64_MAX
    case RMatch(_, _, _, volume, _) => volume <= INT64_MAX
    case _ => true
  }

  /** A record inserts no order under the id of a live one. */
  predicate NewId(orders: map<nat, Resting>, subs: Option<seq<bool>>, r: B.Record) {
    r.RInsert? && Listens(subs, r.product) ==> r.order.id !in orders
  }

  lemma CalmNew(orders: map<nat, Resting>, subs: Option<seq<bool>>, r: B.Record)
    requires CalmRecord(orders, subs, r)
    ensures NewId(orders, subs, r)
  {
  }

  lemma ShowsProduct(orders: map<nat, Resting>, s: L.Ladders, id: nat)
    requires Shows(orders, s) && id in orders
    ensures orders[id].product < |s.slotOf|
  {
  }

  /** The memory is no set of ladders, whatever lists one reads into it. */
  ghost predicate Broken(s: L.Ladders) { forall t: L.Ladders :: L.SameMemory(t, s) ==> !L.Ok(t) }

  predicate LeavesAstray(orders: map<nat, Resting>, s: L.Ladders, id: nat) {
    id in orders && L.Astray(s, orders[id].product, orders[id].price, orders[id].remaining, orders[id].bid)
  }

  /** A record that uses up a level on the other side than its order's. */
  predicate Strays(orders: map<nat, Resting>, s: L.Ladders, r: B.Record) {
    match r
    case RCancel(id) => LeavesAstray(orders, s, id)
    case RDeactivate(id) => LeavesAstray(orders, s, id)
    case RMatch(maker, _, _, volume, _) =>
      && maker in orders
      && var o := orders[maker];
         L.Astray(s, o.product, o.price, if volume > o.remaining then o.remaining else volume, o.bid)
    case _ => false
  }

  /** Prices are on the sides they were on, but for one that has nothing left. */
  ghost predicate Thinned(o: Resting, q: nat, s: L.Ladders, t: L.Ladders) {
    forall i: nat, r: nat :: L.Where(t, i, r)
      == if q > 0 && i == o.product && r == o.price && q >= L.Qty(s, i, r) then None else L.Where(s, i, r)
  }

  ghost predicate Opened(s: L.Ladders, product: nat, o: B.Order, t: L.Ladders) {
    forall i: nat, r: nat :: L.Where(t, i, r) == L.Placed(s, i, r, product, o.price, o.remain, B.IsBid(o.flags))
  }

  /** On which sides the prices are after a record, of those told of here. */
  ghost predicate Sided(orders: map<nat, Resting>, subs: Option<seq<bool>>, s: L.Ladders, r: B.Record, t: L.Ladders) {
    match r
    case RInsert(product, o) => Listens(subs, product) ==> Opened(s, product, o, t)
    case RCancel(id) => id in orders && !LeavesAstray(orders, s, id) ==> Thinned(orders[id], orders[id].remaining, s, t)
    case _ => true
  }

  // ------------------------------------------------------ when a record is taken

  /** The numbers of a record are in range, and so is the quantity shown at its price with it. */
  ghost predicate Countable(orders: map<nat, Resting>, subs: Option<seq<bool>>, r: B.Record) {
    && InRange(r)
    && (r.RInsert? && Listens(subs, r.product) && r.order.remain > 0 ==>
          Total(AtPrice(orders, r.product, r.order.price)) + r.order.remain <= L.UINT64_MAX)
  }

  /** With fewer live orders than this there is a slot for every price. */
  const MANY: nat := 0xFFFF_FFFF - 64

  ghost predicate AllCountable(orders: map<nat, Resting>, subs: Option<seq<bool>>, log: seq<B.Record>)
    decreases |log|
  {
    log == [] || (Countable(orders, subs, log[0]) && AllCountable(Heard(orders, subs, log[0]), subs, log[1..]))
  }

  ghost predicate AlwaysFew(orders: map<nat, Resting>, subs: Option<seq<bool>>, log: seq<B.Record>)
    decreases |log|
  {
    |orders| <= MANY && (log == [] || AlwaysFew(Heard(orders, subs, log[0]), subs, log[1..]))
  }

  /** There is room for an order where its quantity fits, and only there; slots run out only beyond MANY orders. */
  lemma RoomIs(orders: map<nat, Resting>, s: L.Ladders, subs: Option<seq<bool>>, r: B.Record)
    requires L.Ok(s) && Shows(orders, s) && r.RInsert? && Listens(subs, r.product) && r.product < |s.slotOf| &&
        InRange(r)
    ensures L.HasRoom(s, r.product, r.order.price, r.order.remain) ==> Countable(orders, subs, r)
    ensures Countable(orders, subs, r) && |orders| <= MANY ==> L.HasRoom(s, r.product, r.order.price, r.order.remain)
  {
    var g, p := r.product, r.order.price;
    L.PriceIs(s, g, p);
    assert QtyRight(orders, s, g, p);
    L.FullWhen(s);
    if s.free == [] { LevelsFew(orders, s); }
  }

  class PublicWorker {
    const subs: Option<seq<bool>>
    const ladders: L.LevelBook
    var orders: map<nat, Resting>

    ghost predicate Valid()
      reads this, ladders
    {
      && ladders.Valid() && Mirrors(orders, ladders.View())
      && (subs.Some? ==> |subs.value| == |ladders.slotOf|)
    }

    constructor (products: nat, capacity: nat, subs: Option<seq<bool>>)
      requires 0 < capacity <= 0xFFFF_FFFF && (subs.Some? ==> |subs.value| == products)
      ensures Valid() && fresh(ladders) && orders == map[] && this.subs == subs && |ladders.slotOf| == products
      ensures |ladders.price| == capacity
    {
      this.subs := subs;
      ladders := new L.LevelBook(products, capacity);
      orders := map[];
    }

    /** The ladders are sound and every price shows the right quantity, on whichever side. */
    ghost predicate Right()
      reads this, ladders
    {
      ladders.Valid() && Shows(orders, ladders.View()) && (subs.Some? ==> |subs.value| == |ladders.slotOf|)
    }

    lemma ValidRight()
      requires Valid()
      ensures Right()
    {
      MirrorsShow(orders, ladders.View());
    }

    /** An order rests: it is recorded and its volume shown. */
    method Insert(product: nat, o: B.Order) returns (ok: bool)
      requires Right() && product < |ladders.slotOf| && NewId(orders, subs, B.RInsert(product, o))
      modifies this, ladders
      ensures orders == Heard(old(orders), subs, B.RInsert(product, o)) && |ladders.slotOf| == |old(ladders.slotOf)|
      ensures ok ==> Right()
      ensures ok && old(Valid()) && CalmRecord(old(orders), subs, B.RInsert(product, o)) ==> Valid()
      ensures !Listens(subs, product) ==> ok
      ensures Listens(subs, product) ==>
                ok == L.HasRoom(old(ladders.View()), product, o.price, o.remain) &&
                (ok ==> Opened(old(ladders.View()), product, o, ladders.View()))
    {
      hide L.Ok, L.Qty, L.Where, L.Placed, Mirrors, Shows;
      if !Listens(subs, product) { return true; }
      ghost var was, s := orders, ladders.View();
      var x := Rests(product, o);
      orders := orders[o.id := x];
      ok := ladders.AddQty(product, x.price, x.remaining, x.bid);
      if ok {
        AddShows(was, s, ladders.View(), o.id, x);
        if Mirrors(was, s) && Free(was, x) { AddMirrors(was, s, ladders.View(), o.id, x); }
      }
    }

    /** An order leaves: what it still showed is taken away and it is forgotten. */
    method Withdraw(id: nat)
      requires Right()
      modifies this, ladders
      ensures orders == Gone(old(orders), id) && |ladders.slotOf| == |old(ladders.slotOf)| &&
          Shows(orders, ladders.View())
      ensures if LeavesAstray(old(orders), old(ladders.View()), id) then Broken(ladders.View()) else Right()
      ensures old(Valid()) ==> Valid()
      ensures id in old(orders) && !LeavesAstray(old(orders), old(ladders.View()), id) ==>
                Thinned(old(orders)[id], old(orders)[id].remaining, old(ladders.View()), ladders.View())
    {
      hide L.Ok, L.Qty, L.Where, Mirrors, Shows, Broken;
      if id !in orders || orders[id].remaining == 0 { return; }
      Reduce(id, orders[id].remaining);
    }

    /** A trade: the maker shows that much less. */
    method Trade(maker: nat, volume: nat)
      requires Right()
      modifies this, ladders
      ensures orders == Less(old(orders), maker, volume) && |ladders.slotOf| == |old(ladders.slotOf)|
      ensures Shows(orders, ladders.View()) && (old(Valid()) ==> Valid())
      ensures if Strays(old(orders), old(ladders.View()), B.RMatch(maker, 0, 0, volume, 0)) then Broken(ladders.View())
              else Right()
    {
      hide L.Ok, L.Qty, L.Where, Mirrors, Shows, Broken;
      if maker !in orders || orders[maker].remaining == 0 { return; }
      Reduce(maker, if volume > orders[maker].remaining then orders[maker].remaining else volume);
    }

    /**
     An order shows `q` less. The quantities stay right in any case; the ladders stay sound unless that
     uses up a level on the other side than the order's.
     */
    method Reduce(id: nat, q: nat)
      requires Right() && id in orders && 0 < orders[id].remaining && q <= orders[id].remaining
      modifies this, ladders
      ensures orders == Cut(old(orders), id, q) && |ladders.slotOf| == |old(ladders.slotOf)| &&
          Shows(orders, ladders.View())
      ensures var o := old(orders)[id];
              if L.Astray(old(ladders.View()), o.product, o.price, q, o.bid) then Broken(ladders.View())
              else Right() && Thinned(o, q, old(ladders.View()), ladders.View())
      ensures old(Valid()) ==> Valid()
    {
      hide L.Ok, L.Qty, L.Where, Mirrors, Shows;
      ghost var was, s, o := orders, ladders.View(), orders[id];
      assert o.product < |ladders.slotOf| by { ShowsProduct(was, s, id); }
      if Mirrors(was, s) { ShownAt(was, s, id); }
      ladders.SubQty(orders[id].product, orders[id].price, q, orders[id].bid);
      TakeShows(was, s, ladders.View(), id, q);
      if Mirrors(was, s) { TakeMirrors(was, s, ladders.View(), id, q); }
      var left := orders[id].remaining - q;
      orders := if left == 0 then orders - {id} else orders[id := orders[id].(remaining := left)];
    }

    /**
     One record. The quantities stay right; the ladders stay sound, unless the record uses up a level on
     the other side than its order's; and no price comes to be on both sides if none was.
     */
    method Process(r: B.Record) returns (ok: bool)
      requires Right() && NewId(orders, subs, r) && (r.RInsert? ==> r.product < |ladders.slotOf|)
      modifies this, ladders
      ensures ok ==> InRange(r) && orders == Heard(old(orders), subs, r) && |ladders.slotOf| == |old(ladders.slotOf)|
      ensures ok ==> Shows(orders, ladders.View())
      ensures ok ==> if Strays(old(orders), old(ladders.View()), r) then Broken(ladders.View()) else Right()
      ensures ok && old(Valid()) && CalmRecord(old(orders), subs, r) ==> Valid()
      ensures ok <==> InRange(r) && (r.RInsert? && Listens(subs, r.product) ==>
                                       L.HasRoom(old(ladders.View()), r.product, r.order.price, r.order.remain))
      ensures ok ==> Sided(old(orders), subs, old(ladders.View()), r, ladders.View())
    {
      hide Mirrors, CalmRecord, L.Ok, Shows, Broken, L.Qty, L.Where, L.Placed, L.HasRoom, Opened, Thinned;
      if !InRange(r) { return false; }
      match r
      case RInsert(product, o) => ok := Insert(product, o);
      case RCancel(id) => Withdraw(id); ok := true;
      case RDeactivate(id) => Withdraw(id); ok := true;
      case RActivate(_) => ok := true;
      case RMatch(maker, _, _, volume, _) => Trade(maker, volume); ok := true;
    }

    /** What decides over a record, in terms of the live orders. */
    lemma TakenWhen(r: B.Record)
      requires Right() && (r.RInsert? ==> r.product < |ladders.slotOf|)
      ensures var takes := InRange(r) && (r.RInsert? && Listens(subs, r.product) ==>
                             L.HasRoom(ladders.View(), r.product, r.order.price, r.order.remain));
              (takes ==> Countable(orders, subs, r)) && (Countable(orders, subs, r) && |orders| <= MANY ==> takes)
    {
      if InRange(r) && r.RInsert? && Listens(subs, r.product) { RoomIs(orders, ladders.View(), subs, r); }
    }

    /**
     The worker over a whole log, up to the first error. It goes through if all numbers are in range,
     unless there are too many orders, and only then.
     */
    method Feed(log: seq<B.Record>) returns (ok: bool)
      requires Valid() && Calm(orders, subs, log)
      requires forall i :: 0 <= i < |log| && log[i].RInsert? ==> log[i].product < |ladders.slotOf|
      modifies this, ladders
      ensures ok ==> Valid() && orders == HeardAll(old(orders), subs, log) && |ladders.slotOf| == |old(ladders.slotOf)|
      ensures ok ==> AllCountable(old(orders), subs, log)
      ensures AllCountable(old(orders), subs, log) && AlwaysFew(old(orders), subs, log) ==> ok
    {
      hide Mirrors, Heard, CalmRecord, L.Ok, Shows, Countable, L.HasRoom;
      var i := 0;
      while i < |log|
        invariant 0 <= i <= |log| && Valid() && |ladders.slotOf| == old(|ladders.slotOf|)
        invariant Calm(orders, subs, log[i..])
        invariant HeardAll(orders, subs, log[i..]) == HeardAll(old(orders), subs, log)
        invariant AllCountable(orders, subs, log[i..]) <==> AllCountable(old(orders), subs, log)
        invariant AlwaysFew(old(orders), subs, log) ==> AlwaysFew(orders, subs, log[i..])
      {
        assert log[i..][0] == log[i] && log[i..][1..] == log[i + 1..];
        ValidRight();
        CalmNew(orders, subs, log[i]);
        TakenWhen(log[i]);
        ok := Process(log[i]);
        if !ok { return; }
        i := i + 1;
      }
      return true;
    }

    /** The quantity at a price: what the live orders there still have, whichever side is asked for. */
    method GetQty(product: nat, p: nat) returns (q: Option<nat>)
      requires Valid() && product < |ladders.slotOf|
      ensures q == if Total(AtPrice(orders, product, p)) == 0 then None else Some(Total(AtPrice(orders, product, p)))
    {
      L.PriceIs(ladders.View(), product, p);
      assert QtyRight(orders, ladders.View(), product, p);
      if p in ladders.slotOf[product] { return Some(ladders.qty[ladders.slotOf[product][p]]); }
      return None;
    }
  }
}
