/** The private worker's state, its processing of log records, and its queries. */
module PrivateWorkers {
  import opened Common
  import opened Links
  import opened Market
  import opened Deltas
  import opened PrivateMarket
  import P = PublicMarket
  import B = Book
  import L = LevelBooks

  function Quoted(product: nat, o: B.Order): Quote { Quote(P.Rests(product, o), o.org, o.flags, o.remain) }

  /** What the callback is told of an order when it is inserted. */
  function Own(product: nat, o: B.Order): Terms {
    Terms(o.id, product, o.price, o.volume, o.remain, o.org, o.flags, true)
  }

  /** The orders as the product ladders see them. */
  function Ats(orders: map<nat, Quote>): map<nat, Resting> { map id | id in orders :: orders[id].at }

  function CutQuote(orders: map<nat, Quote>, id: nat, q: nat): map<nat, Quote>
    requires id in orders && q <= orders[id].at.remaining
  {
    if q == orders[id].at.remaining then orders - {id}
    else orders[id := orders[id].(at := orders[id].at.(remaining := orders[id].at.remaining - q))]
  }

  /** What one record does to the live orders. */
  function Noted(orders: map<nat, Quote>, fan: seq<seq<Viewer>>, r: B.Record): map<nat, Quote> {
    match r
    case RInsert(product, o) => if product < |fan| && fan[product] != [] then orders[o.id := Quoted(product, o)]
        else orders
    case RCancel(id) => orders - {id}
    case RDeactivate(id) => orders - {id}
    case RActivate(_) => orders
    case RMatch(maker, _, _, volume, _) =>
      if maker in orders && orders[maker].at.remaining > 0
      then CutQuote(orders, maker, if volume > orders[maker].at.remaining then orders[maker].at.remaining else volume)
          else orders
  }

  function NotedAll(orders: map<nat, Quote>, fan: seq<seq<Viewer>>, log: seq<B.Record>): map<nat, Quote>
    decreases |log|
  {
    if log == [] then orders else NotedAll(Noted(orders, fan, log[0]), fan, log[1..])
  }

  /** The insertions among the records that have subscribers. */
  function Heard(fan: seq<seq<Viewer>>, r: B.Record): seq<Terms> {
    if r.RInsert? && r.product < |fan| && fan[r.product] != [] then [Own(r.product, r.order)] else []
  }

  function HeardAll(fan: seq<seq<Viewer>>, log: seq<B.Record>): seq<Terms>
    decreases |log|
  {
    if log == [] then [] else Heard(fan, log[0]) + HeardAll(fan, log[1..])
  }

  datatype Turn = Turn(kind: Kind, id: nat, q: Quote)

  /** What a record does to which order. */
  function TurnOf(orders: map<nat, Quote>, fan: seq<seq<Viewer>>, r: B.Record): Option<Turn> {
    match r
    case RInsert(product, o) =>
      if product < |fan| && fan[product] != [] then Some(Turn(Appears(Own(product, o)), o.id, Quoted(product, o)))
      else None
    case RCancel(id) => if id in orders then Some(Turn(Leaves, id, orders[id])) else None
    case RDeactivate(id) => if id in orders then Some(Turn(Leaves, id, orders[id])) else None
    case RActivate(_) => None
    case RMatch(maker, _, _, volume, _) =>
      if maker in orders && orders[maker].at.remaining > 0 then
        var left := orders[maker].at.remaining;
        Some(Turn(Trades(if volume > left then left else volume), maker, orders[maker]))
      else None
  }

  /** Ids of live orders are distinct and no price is live on both sides of a product. */
  predicate Orderly(orders: map<nat, Quote>, fan: seq<seq<Viewer>>, r: B.Record) {
    r.RInsert? ==> r.product < |fan| && (fan[r.product] != [] ==>
        r.order.id !in orders && Free(Ats(orders), P.Rests(r.product, r.order)))
  }

  predicate OrderlyLog(orders: map<nat, Quote>, fan: seq<seq<Viewer>>, log: seq<B.Record>)
    decreases |log|
  {
    log == [] || (Orderly(orders, fan, log[0]) && OrderlyLog(Noted(orders, fan, log[0]), fan, log[1..]))
  }

  predicate QuotesOk(orders: map<nat, Quote>, products: nat) {
    forall id :: id in orders ==>
      orders[id].at.product < products && orders[id].at.remaining <= orders[id].volume && orders[id].at.price < END
  }

  ghost predicate LiveOk(orders: map<nat, Quote>, live: seq<set<nat>>, products: nat) {
    |live| == products && forall g, id :: 0 <= g < |live| ==>
        (id in live[g] <==> id in orders && orders[id].at.product == g)
  }

  lemma LiveSize(orders: map<nat, Quote>, live: seq<set<nat>>, products: nat)
    requires LiveOk(orders, live, products)
    ensures |live| == products
  {
  }

  lemma QuoteAdded(orders: map<nat, Quote>, live: seq<set<nat>>, products: nat, id: nat, q: Quote)
    requires QuotesOk(orders, products) && LiveOk(orders, live, products) && id !in orders
    requires q.at.product < products && q.at.remaining <= q.volume && q.at.price < END
    ensures QuotesOk(orders[id := q], products)
    ensures LiveOk(orders[id := q], live[q.at.product := live[q.at.product] + {id}], products)
  {
  }

  lemma QuoteCut(orders: map<nat, Quote>, live: seq<set<nat>>, products: nat, id: nat, v: nat)
    requires QuotesOk(orders, products) && LiveOk(orders, live, products) &&
        id in orders && v <= orders[id].at.remaining
    ensures orders[id].at.product < products && orders[id].at.remaining <= orders[id].volume
    ensures QuotesOk(CutQuote(orders, id, v), products)
    ensures var g := orders[id].at.product;
            LiveOk(CutQuote(orders, id, v), if v == orders[id].at.remaining then live[g := live[g] - {id}] else live,
                products)
  {
  }

  const TWO64: nat := 0x1_0000_0000_0000_0000

  /** Every subscriber's quantity can take its change. */
  predicate CanTake(f: Dealable, sides: seq<Side>, viewers: seq<Viewer>, kind: Kind, id: nat, q: Quote) {
    forall j :: 0 <= j < |viewers| ==> !Refused(f, sides, viewers[j], kind, id, q)
  }

  predicate Takes(f: Dealable, orders: map<nat, Quote>, sides: seq<Side>, s: L.Ladders, fan: seq<seq<Viewer>>,
                  r: B.Record) {
    var t := TurnOf(orders, fan, r);
    t.Some? ==>
      && (r.RInsert? ==> L.HasRoom(s, r.product, r.order.price, r.order.remain))
      && t.value.q.at.product < |fan| &&
         CanTake(f, sides, fan[t.value.q.at.product], t.value.kind, t.value.id, t.value.q)
  }

  /** Every subscriber's quantity has moved by what the record does to its order, and by nothing else. */
  ghost predicate Shifted(f: Dealable, orders: map<nat, Quote>, was: seq<Side>, now: seq<Side>, fan: seq<seq<Viewer>>,
                          r: B.Record) {
    match TurnOf(orders, fan, r)
    case None => now == was
    case Some(t) => Moved(f, was, now, fan, t.kind, t.id, t.q)
  }

  // ------------------------------------------------------ when a record is taken

  /** A viewer's quantity afterwards, and its change since the last clear, are in their 64-bit ranges. */
  ghost predicate BearsOne(f: Dealable, orders: map<nat, Quote>, heard: seq<Terms>, bases: seq<map<nat, nat>>,
                           v: Viewer, t: Turn) {
    v.ladder.Some? && MoveOf(f, t.kind, t.id, t.q, v.org) != 0 ==>
      var at, slot := t.q.at, Slot(v.ladder.value, t.q.at.bid);
      var qty := Total(Parts(f, orders, v.org, at.product, at.bid, at.price)) +
                 Drift(f, heard, v.org, at.product, at.bid, at.price);
      && slot < |bases| && 0 <= qty <= END && INT64_MIN <= qty - At(bases[slot], at.price) <= INT64_MAX
  }

  /** The same for every subscriber of the order's product. */
  ghost predicate Bears(f: Dealable, orders: map<nat, Quote>, heard: seq<Terms>, fan: seq<seq<Viewer>>,
                        bases: seq<map<nat, nat>>, t: Turn) {
    t.q.at.product < |fan| && forall j :: 0 <= j < |fan[t.q.at.product]| ==>
        BearsOne(f, orders, heard, bases, fan[t.q.at.product][j], t)
  }

  /** All numbers of a record, of the product's ladder and of its subscribers' quantities are in range. */
  ghost predicate Countable(f: Dealable, orders: map<nat, Quote>, heard: seq<Terms>, fan: seq<seq<Viewer>>,
                            bases: seq<map<nat, nat>>, r: B.Record) {
    && P.InRange(r)
    && var t := TurnOf(orders, fan, r);
       t.Some? ==>
         && (r.RInsert? && r.order.remain > 0 ==>
               Total(AtPrice(Ats(orders), r.product, r.order.price)) + r.order.remain <= L.UINT64_MAX)
         && Bears(f, Noted(orders, fan, r), heard + Heard(fan, r), fan, bases, t.value)
  }

  ghost predicate AllCountable(f: Dealable, orders: map<nat, Quote>, heard: seq<Terms>, fan: seq<seq<Viewer>>,
                               bases: seq<map<nat, nat>>, log: seq<B.Record>)
    decreases |log|
  {
    log == [] ||
    (&& Countable(f, orders, heard, fan, bases, log[0])
     && AllCountable(f, Noted(orders, fan, log[0]), heard + Heard(fan, log[0]), fan, bases, log[1..]))
  }

  ghost predicate AlwaysFew(orders: map<nat, Quote>, fan: seq<seq<Viewer>>, log: seq<B.Record>)
    decreases |log|
  {
    |orders| <= P.MANY && (log == [] || AlwaysFew(Noted(orders, fan, log[0]), fan, log[1..]))
  }

  /** What a record does to the live orders, as the fan-out sees it. */
  lemma TurnedBy(orders: map<nat, Quote>, heard: seq<Terms>, fan: seq<seq<Viewer>>, r: B.Record)
    requires Orderly(orders, fan, r) && QuotesOk(orders, |fan|) && TurnOf(orders, fan, r).Some?
    ensures var t := TurnOf(orders, fan, r).value;
            && Turned(orders, Noted(orders, fan, r), t.kind, t.id, t.q) && t.q.at.product < |fan|
            && Hearing(heard, t.kind) == heard + Heard(fan, r) && (P.InRange(r) ==> t.q.at.price != END)
  {
    var t := TurnOf(orders, fan, r).value;
    match t.kind
    case Appears(_) => assert orders[t.id := t.q] - {t.id} == orders - {t.id};
    case Leaves => CutTurns(orders, Leaves, t.id, t.q.at.remaining);
    case Trades(v) => CutTurns(orders, Trades(v), t.id, v);
  }

  lemma AtsCount(orders: map<nat, Quote>)
    ensures |Ats(orders)| == |orders|
  {
    assert Ats(orders).Keys == orders.Keys;
    assert |orders.Keys| == |orders| && |Ats(orders).Keys| == |Ats(orders)|;
  }

  /** A change is refused exactly if a range is left. */
  lemma RefusedWhen(f: Dealable, a: map<nat, Quote>, b: map<nat, Quote>, heard: seq<Terms>, sides: seq<Side>,
                    bases: seq<map<nat, nat>>, fan: seq<seq<Viewer>>, j: nat, t: Turn)
    requires FanOk(fan, |sides|) && AllListed(sides, bases) && Views(f, a, heard, sides, fan)
    requires Turned(a, b, t.kind, t.id, t.q) && t.q.at.product < |fan| && j < |fan[t.q.at.product]| &&
        t.q.at.price != END
    ensures var v := fan[t.q.at.product][j];
            Refused(f, sides, v, t.kind, t.id, t.q) <==> !BearsOne(f, b, Hearing(heard, t.kind), bases, v, t)
  {
    hide Total, Parts, Drift, ChangeOf, MoveOf, Views, Tracks;
    var v, at := fan[t.q.at.product][j], t.q.at;
    if v.ladder.Some? {
      var i := Slot(v.ladder.value, at.bid);
      assert i < |sides|;
      var dirty: seq<nat> :| Tracks(sides[i], dirty, bases[i]);
      DeltaIs(sides[i], dirty, bases[i], at.price);
      ChangeMoves(f, t.kind, t.id, t.q, v.org);
      UnderflowsWhen(f, a, b, heard, sides, fan, j, t.kind, t.id, t.q);
    }
  }

  lemma DeltaIs(s: Side, dirty: seq<nat>, base: map<nat, nat>, p: nat)
    requires Tracks(s, dirty, base)
    ensures EntryAt(s, p).delta == NowQty(s, p) - At(base, p)
  {
    assert AmountAt(s, dirty, base, p);
  }

  /** Every subscriber's quantity can take its change if and only if no range is left. */
  lemma CanTakeWhen(f: Dealable, a: map<nat, Quote>, b: map<nat, Quote>, heard: seq<Terms>, sides: seq<Side>,
                    bases: seq<map<nat, nat>>, fan: seq<seq<Viewer>>, t: Turn)
    requires FanOk(fan, |sides|) && AllListed(sides, bases) && Views(f, a, heard, sides, fan)
    requires Turned(a, b, t.kind, t.id, t.q) && t.q.at.product < |fan| && t.q.at.price != END
    ensures CanTake(f, sides, fan[t.q.at.product], t.kind, t.id, t.q) <==>
            Bears(f, b, Hearing(heard, t.kind), fan, bases, t)
  {
    hide FanOk, AllListed, Views, Turned, Refused, BearsOne;
    forall j | 0 <= j < |fan[t.q.at.product]|
      ensures Refused(f, sides, fan[t.q.at.product][j], t.kind, t.id, t.q) <==>
              !BearsOne(f, b, Hearing(heard, t.kind), bases, fan[t.q.at.product][j], t)
    {
      RefusedWhen(f, a, b, heard, sides, bases, fan, j, t);
    }
  }

  class PrivateWorker {
    const dealable: Dealable
    const fan: seq<seq<Viewer>>        // per product, its subscribers
    const ladders: L.LevelBook
    var orders: map<nat, Quote>
    var live: seq<set<nat>>            // per product, the ids of its live orders
    var sides: seq<Side>               // bids of ladder i at 2i, asks at 2i + 1
    ghost var bases: seq<map<nat, nat>>
    ghost var heard: seq<Terms>        // the insertions processed so far

    ghost predicate Valid()
      reads this, ladders
    {
      && ladders.Valid() && |ladders.slotOf| == |fan| && Mirrors(Ats(orders), ladders.View())
      && FanOk(fan, |sides|) && AllListed(sides, bases) && Views(dealable, orders, heard, sides, fan)
      && QuotesOk(orders, |fan|) && LiveOk(orders, live, |fan|)
    }

    constructor (dealable: Dealable, fan: seq<seq<Viewer>>, count: nat, capacity: nat)
      requires 0 < capacity <= NULL && FanOk(fan, 2 * count)
      ensures Valid() && fresh(ladders) && orders == map[] && this.fan == fan && this.dealable == dealable
      ensures heard == [] && sides == L.Copies(NEW_SIDE, 2 * count) && bases == L.Copies(map[], 2 * count)
      ensures |ladders.price| == capacity
      ensures forall product: nat, p: nat :: L.Qty(ladders.View(), product, p) == 0
    {
      this.dealable, this.fan := dealable, fan;
      ladders := new L.LevelBook(|fan|, capacity);
      orders, live, heard := map[], L.Copies({}, |fan|), [];
      sides, bases := L.Copies(NEW_SIDE, 2 * count), L.Copies(map[], 2 * count);
      new;
      NewViews(dealable, sides, fan);
      forall i | 0 <= i < |sides| ensures Listed(sides[i], bases[i]) { assert Tracks(NEW_SIDE, [], map[]); }
    }

    /** Records what one order's change means for every subscriber of its product. */
    method Spread(kind: Kind, id: nat, q: Quote, ghost after: map<nat, Quote>) returns (ok: bool)
      requires FanOk(fan, |sides|) && AllListed(sides, bases) && Views(dealable, orders, heard, sides, fan)
      requires q.at.product < |fan| && Turned(orders, after, kind, id, q)
      modifies this`sides, this`heard
      ensures |sides| == |old(sides)| && heard == Hearing(old(heard), kind)
      ensures ok ==> AllListed(sides, bases) && Views(dealable, after, heard, sides, fan)
      ensures ok == CanTake(dealable, old(sides), fan[q.at.product], kind, id, q)
      ensures ok ==> Moved(dealable, old(sides), sides, fan, kind, id, q)
    {
      hide FanOk, AllListed, Views, Moved;
      ghost var was := sides;
      OneFan(fan, q.at.product, |sides|);
      sides, ok := FanOut(dealable, sides, fan[q.at.product], kind, id, q);
      if ok {
        FanKeeps(dealable, orders, after, was, sides, heard, bases, fan, kind, id, q);
        FanMoves(dealable, was, sides, bases, fan, kind, id, q);
      }
      heard := Hearing(heard, kind);
    }

    method Insert(product: nat, o: B.Order) returns (ok: bool)
      requires Valid() && Orderly(orders, fan, B.RInsert(product, o)) && P.InRange(B.RInsert(product, o))
      modifies this, ladders
      ensures ok ==> Valid() && orders == Noted(old(orders), fan, B.RInsert(product, o))
      ensures ok ==> heard == old(heard) + Heard(fan, B.RInsert(product, o))
      ensures bases == old(bases) && |sides| == |old(sides)|
      ensures ok <==> fan[product] == [] ||
                      (L.HasRoom(old(ladders.View()), product, o.price, o.remain) &&
                       CanTake(dealable, old(sides), fan[product], Appears(Own(product, o)), o.id, Quoted(product, o)))
      ensures ok ==> Shifted(dealable, old(orders), old(sides), sides, fan, B.RInsert(product, o))
    {
      hide L.Ok, L.Qty, L.Where, L.Placed, Mirrors, FanOk, AllListed, Views, Free, Moved, LiveOk, QuotesOk;
      if fan[product] == [] { return true; }
      ghost var was, s := orders, ladders.View();
      var q := Quoted(product, o);
      ok := ladders.AddQty(product, q.at.price, q.at.remaining, q.at.bid);
      if !ok { return; }
      AddMirrors(Ats(was), s, ladders.View(), o.id, q.at);
      ghost var after := orders[o.id := q];
      assert Ats(after) == Ats(was)[o.id := q.at];
      assert after - {o.id} == was - {o.id};
      QuoteAdded(orders, live, |fan|, o.id, q);
      assert |live| == |fan| by { LiveSize(orders, live, |fan|); }
      ok := Spread(Appears(Own(product, o)), o.id, q, after);
      live := live[product := live[product] + {o.id}];
      orders := orders[o.id := q];
    }

    /** An order leaves or is filled by `v`. */
    method Reduce(kind: Kind, id: nat, v: nat) returns (ok: bool)
      requires Valid() && id in orders && v <= orders[id].at.remaining
      requires if kind == Leaves then v == orders[id].at.remaining else kind == Trades(v) && orders[id].at.remaining > 0
      modifies this, ladders
      ensures ok ==> Valid() && orders == CutQuote(old(orders), id, v) && heard == old(heard)
      ensures ok == CanTake(dealable, old(sides), fan[old(orders)[id].at.product], kind, id, old(orders)[id])
      ensures ok ==> Moved(dealable, old(sides), sides, fan, kind, id, old(orders)[id])
      ensures bases == old(bases) && |sides| == |old(sides)|
    {
      hide L.Ok, L.Qty, L.Where, Mirrors, FanOk, AllListed, Views, Moved, LiveOk, QuotesOk;
      var q := orders[id];
      QuoteCut(orders, live, |fan|, id, v);
      assert |live| == |fan| by { LiveSize(orders, live, |fan|); }
      ghost var was, s, after := orders, ladders.View(), CutQuote(orders, id, v);
      CutTurns(was, kind, id, v);
      ok := Spread(kind, id, q, after);
      if !ok { return; }
      if v > 0 { ShownAt(Ats(was), s, id); }
      ladders.SubQty(q.at.product, q.at.price, v, q.at.bid);
      TakeMirrors(Ats(was), s, ladders.View(), id, v);
      if v == q.at.remaining {
        live := live[q.at.product := live[q.at.product] - {id}];
        orders := orders - {id};
      } else {
        orders := orders[id := q.(at := q.at.(remaining := q.at.remaining - v))];
      }
    }

    /**
     One record; on success every running quantity still equals its recomputation and the drift. It
     fails exactly when a number is out of range, a level is wanted and cannot be had, or a subscriber's
     quantity cannot take its change.
     */
    method Process(r: B.Record) returns (ok: bool)
      requires Valid() && Orderly(orders, fan, r)
      modifies this, ladders
      ensures ok ==> Valid() && orders == Noted(old(orders), fan, r) && heard == old(heard) + Heard(fan, r)
      ensures ok <==> P.InRange(r) && Takes(dealable, old(orders), old(sides), old(ladders.View()), fan, r)
      ensures ok ==> Shifted(dealable, old(orders), old(sides), sides, fan, r)
      ensures bases == old(bases) && |sides| == |old(sides)|
    {
      hide L.Ok, Mirrors, FanOk, AllListed, Views, LiveOk, Free, CanTake, Moved;
      if !P.InRange(r) { return false; }
      match r
      case RInsert(product, o) => ok := Insert(product, o);
      case RCancel(id) => ok := Withdraw(id);
      case RDeactivate(id) => ok := Withdraw(id);
      case RActivate(_) => ok := true;
      case RMatch(maker, _, _, volume, _) =>
        if maker !in orders || orders[maker].at.remaining == 0 { return true; }
        var v := if volume > orders[maker].at.remaining then orders[maker].at.remaining else volume;
        ok := Reduce(Trades(v), maker, v);
    }

    method Withdraw(id: nat) returns (ok: bool)
      requires Valid()
      modifies this, ladders
      ensures ok ==> Valid() && orders == old(orders) - {id} && heard == old(heard)
      ensures ok <==> id in old(orders) ==>
        CanTake(dealable, old(sides), fan[old(orders)[id].at.product], Leaves, id, old(orders)[id])
      ensures ok ==> if id in old(orders) then Moved(dealable, old(sides), sides, fan, Leaves, id, old(orders)[id])
                     else sides == old(sides)
      ensures bases == old(bases) && |sides| == |old(sides)|
    {
      hide L.Ok, Mirrors, FanOk, AllListed, Views, LiveOk, QuotesOk, Moved;
      if id !in orders { return true; }
      ok := Reduce(Leaves, id, orders[id].at.remaining);
    }

    /** What decides over a record, in terms of the live orders and of the insertions heard. */
    lemma TakenWhen(r: B.Record)
      requires Valid() && Orderly(orders, fan, r)
      ensures var takes, fine := P.InRange(r) && Takes(dealable, orders, sides, ladders.View(), fan, r),
                                 Countable(dealable, orders, heard, fan, bases, r);
              (takes ==> fine) && (fine && |orders| <= P.MANY ==> takes)
    {
      hide L.Ok, Mirrors, FanOk, AllListed, Views, L.HasRoom, Bears, CanTake, Noted;
      var t := TurnOf(orders, fan, r);
      if P.InRange(r) && t.Some? {
        TurnedBy(orders, heard, fan, r);
        CanTakeWhen(dealable, orders, Noted(orders, fan, r), heard, sides, bases, fan, t.value);
        if r.RInsert? {
          MirrorsShow(Ats(orders), ladders.View());
          P.RoomIs(Ats(orders), ladders.View(), None, r);
          assert |Ats(orders)| == |orders| by { AtsCount(orders); }
        }
      }
    }

    /**
     A whole log, up to the first error. It goes through if all numbers are in range, unless there are
     too many orders, and only then.
     */
    method Feed(log: seq<B.Record>) returns (ok: bool)
      requires Valid() && OrderlyLog(orders, fan, log)
      modifies this, ladders
      ensures ok ==> Valid() && orders == NotedAll(old(orders), fan, log) && heard == old(heard) + HeardAll(fan, log)
      ensures ok ==> AllCountable(dealable, old(orders), old(heard), fan, old(bases), log)
      ensures (AllCountable(dealable, old(orders), old(heard), fan, old(bases), log)
               && AlwaysFew(old(orders), fan, log)) ==> ok
    {
      hide Valid, Noted, Orderly, Countable, Takes, Shifted, P.InRange, Heard;
      var i := 0;
      while i < |log|
        invariant 0 <= i <= |log| && Valid() && OrderlyLog(orders, fan, log[i..])
        invariant NotedAll(orders, fan, log[i..]) == NotedAll(old(orders), fan, log)
        invariant heard + HeardAll(fan, log[i..]) == old(heard) + HeardAll(fan, log)
        invariant bases == old(bases) && (AllCountable(dealable, orders, heard, fan, bases, log[i..]) <==>
            AllCountable(dealable, old(orders), old(heard), fan, old(bases), log))
        invariant AlwaysFew(old(orders), fan, log) ==> AlwaysFew(orders, fan, log[i..])
      {
        assert log[i..][0] == log[i] && log[i..][1..] == log[i + 1..];
        TakenWhen(log[i]);
        ok := Process(log[i]);
        if !ok { return; }
        i := i + 1;
      }
      return true;
    }

    /** The window of changes of one side is dropped; no quantity changes and the next window starts here. */
    method Clear(i: nat)
      requires Valid() && i < |sides|
      modifies this`sides, this`bases
      ensures Valid() && sides == old(sides)[i := Cleared(old(sides)[i])] &&
          bases == old(bases)[i := Quantities(old(sides)[i])]
    {
      ghost var dirty: seq<nat> :| Tracks(sides[i], dirty, bases[i]);
      ClearTracks(sides[i], dirty, bases[i]);
      ClearViews(dealable, orders, heard, sides, fan, i);
      hide L.Ok, Mirrors, FanOk, Views, Tracks, LiveOk, QuotesOk, Cleared;
      var t := ClearDeltas(sides[i], dirty, bases[i]);
      ghost var base := Quantities(sides[i]);
      sides, bases := sides[i := t], bases[i := base];
      assert Listed(t, base);
    }

    /** The running quantity less the drift, in 64 bits. */
    ghost function Settled(g: nat, j: nat, bid: bool, p: nat): nat
      requires g < |fan| && j < |fan[g]|
      reads this`sides, this`heard
    {
      (SideQty(sides, fan[g][j], bid, p) - Drift(dealable, heard, fan[g][j].org, g, bid, p)) % TWO64
    }

    /** With a callback that answers alike there is no drift: a recomputation gives the running quantity. */
    lemma SettledIs(g: nat, j: nat, bid: bool, p: nat)
      requires Valid() && g < |fan| && j < |fan[g]| && fan[g][j].ladder.Some?
      requires forall i :: 0 <= i < |heard| ==> Alike(dealable, heard[i], fan[g][j].org)
      ensures Settled(g, j, bid, p) == SideQty(sides, fan[g][j], bid, p)
    {
      NoDrift(dealable, heard, fan[g][j].org, g, bid, p);
      hide L.Ok, Mirrors, FanOk, Views, Drift;
      var i := Slot(fan[g][j].ladder.value, bid);
      if i < |sides| {
        assert Listed(sides[i], bases[i]);
        var dirty: seq<nat> :| Tracks(sides[i], dirty, bases[i]);
        assert AmountAt(sides[i], dirty, bases[i], p);
      }
    }

    /** Once the callback has answered differently for an insertion, the two differ at its price. */
    lemma DriftShows(j: nat, before: seq<Terms>, t: Terms)
      requires Valid() && heard == before + [t] && t.product < |fan| && j < |fan[t.product]|
      requires fan[t.product][j].ladder.Some?
      requires forall i :: 0 <= i < |before| ==> Alike(dealable, before[i], fan[t.product][j].org)
      ensures var v := fan[t.product][j];
              SideQty(sides, v, t.flags.bid, t.price)
              == Total(Parts(dealable, orders, v.org, t.product, t.flags.bid, t.price))
              <==> Alike(dealable, t, v.org)
    {
      var v := fan[t.product][j];
      assert ViewRight(dealable, orders, heard, sides, v, t.product, t.flags.bid, t.price);
      FirstDrift(dealable, before, t, v.org);
    }

    /** A fresh sum over the live orders, in 64 bits. */
    method GetQty(g: nat, j: nat, bid: bool, p: nat) returns (q: Option<nat>)
      requires Valid() && g < |fan| && j < |fan[g]| && fan[g][j].ladder.Some?
      ensures q == if Settled(g, j, bid, p) == 0 then None else Some(Settled(g, j, bid, p))
    {
      assert ViewRight(dealable, orders, heard, sides, fan[g][j], g, bid, p);
      hide L.Ok, Mirrors, FanOk, AllListed, Views, Total, Drift;
      var total := Recompute(dealable, orders, live[g], fan[g][j].org, g, bid, p);
      return if total == 0 then None else Some(total);
    }
  }

  /** Adds up, in any order, what a viewer sees of the live orders of one side at one price. */
  method Recompute(f: Dealable, orders: map<nat, Quote>, ids: set<nat>, org: nat, g: nat, bid: bool, p: nat)
                   returns (total: nat)
    requires forall id :: id in ids <==> id in orders && orders[id].at.product == g
    ensures total == Total(Parts(f, orders, org, g, bid, p)) % TWO64
  {
    hide Total;
    ghost var parts := Parts(f, orders, org, g, bid, p);
    var rest := ids;
    total := 0;
    ghost var left := parts;
    while rest != {}
      invariant rest <= ids && (total + Total(left)) % TWO64 == Total(parts) % TWO64 && 0 <= total < TWO64
      invariant forall id :: id in left <==> id in rest && id in parts
      invariant forall id :: id in left ==> left[id] == parts[id]
      decreases |rest|
    {
      var id :| id in rest;
      TotalSplit(left, id);
      if orders[id].at.bid == bid && orders[id].at.price == p {
        Wraps(total, Seen(f, id, orders[id], org), Total(left - {id}));
        total := (total + Seen(f, id, orders[id], org)) % TWO64;
      }
      rest, left := rest - {id}, left - {id};
    }
    assert left == map[];
    TotalEmpty();
  }

  lemma Wraps(a: nat, b: nat, c: nat)
    ensures ((a + b) % TWO64 + c) % TWO64 == (a + b + c) % TWO64
  {
  }

  lemma OneFan(fan: seq<seq<Viewer>>, g: nat, sides: nat)
    requires FanOk(fan, sides) && g < |fan|
    ensures FanOk([fan[g]], sides)
  {
  }

  lemma ClearViews(f: Dealable, orders: map<nat, Quote>, heard: seq<Terms>, sides: seq<Side>, fan: seq<seq<Viewer>>,
                   i: nat)
    requires Views(f, orders, heard, sides, fan) && i < |sides| && forall p: nat ::
        NowQty(Cleared(sides[i]), p) == NowQty(sides[i], p)
    ensures Views(f, orders, heard, sides[i := Cleared(sides[i])], fan)
  {
    hide Total, Parts, Cleared, NowQty, Drift;
    var after := sides[i := Cleared(sides[i])];
    forall g, j, bid, p: nat | 0 <= g < |fan| && 0 <= j < |fan[g]|
        ensures ViewRight(f, orders, heard, after, fan[g][j], g, bid, p) {
      assert ViewRight(f, orders, heard, sides, fan[g][j], g, bid, p);
    }
  }

  lemma NewViews(f: Dealable, sides: seq<Side>, fan: seq<seq<Viewer>>)
    requires forall i :: 0 <= i < |sides| ==> sides[i] == NEW_SIDE
    ensures Views(f, map[], [], sides, fan)
  {
    forall g, j, bid, p: nat | 0 <= g < |fan| && 0 <= j < |fan[g]|
        ensures ViewRight(f, map[], [], sides, fan[g][j], g, bid, p) {
      assert Parts(f, map[], fan[g][j].org, g, bid, p) == map[];
    }
  }

  lemma CutTurns(orders: map<nat, Quote>, kind: Kind, id: nat, v: nat)
    requires id in orders && v <= orders[id].at.remaining <= orders[id].volume
    requires if kind == Leaves then v == orders[id].at.remaining else kind == Trades(v)
    ensures Turned(orders, CutQuote(orders, id, v), kind, id, orders[id]) &&
        Ats(CutQuote(orders, id, v)) == Cut(Ats(orders), id, v)
  {
    assert orders - {id} == CutQuote(orders, id, v) - {id};
  }
}
