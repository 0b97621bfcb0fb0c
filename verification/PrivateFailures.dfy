/**
 Callbacks that read the volume field of the record they are given: it is the order's own volume at
 insertion and what was left of it then ever after, so that what is added is not what is taken away.
 */
module PrivateFailures {
  import opened Common
  import opened Market
  import opened Deltas
  import opened PrivateMarket
  import opened PrivateWorkers
  import B = Book
  import P = PublicMarket
  import L = LevelBooks

  /** One product with one subscriber. */
  const FAN: seq<seq<Viewer>> := [[Viewer(0, Some(0))]]

  /** A bid for ten at a hundred that rests with six left. */
  const BID: B.Order := B.Order(1, 100, 10, 6, 0, B.Flags(true, 0, B.STATUS_NEW, 0))

  function Half(t: Terms, org: nat): nat { t.volume / 2 }

  function Twelve(t: Terms, org: nat): nat { if t.volume <= 12 then 12 - t.volume else 0 }

  /** What is recorded of the one order when it appears, and what is seen of it. */
  lemma OneOrder(f: Dealable)
    ensures var own, orders := Own(0, BID), map[1 := Quoted(0, BID)];
            && Drift(f, [own], 0, 0, true, 100) == Least(6, f(own, 0)) - Least(6, f(Rebuilt(own), 0))
            && Total(Parts(f, orders, 0, 0, true, 100)) == Least(6, f(Rebuilt(own), 0))
            && Total(Parts(f, map[], 0, 0, true, 100)) == 0
  {
    var own, orders := Own(0, BID), map[1 := Quoted(0, BID)];
    assert [own] == [] + [own];
    DriftNext(f, [], own, 0, 0, true, 100);
    assert Rebuilt(own) == TermsOf(1, Quoted(0, BID));
    assert Parts(f, map[], 0, 0, true, 100) == map[];
    var parts := Parts(f, orders, 0, 0, true, 100);
    assert parts == map[1 := Least(6, f(Rebuilt(own), 0))];
    TotalSplit(parts, 1);
    assert parts - {1} == map[];
    TotalEmpty();
  }

  lemma FanIs()
    ensures FanOk(FAN, 2)
  {
  }

  /** A new worker that has heard of the order. */
  method Listening(f: Dealable) returns (w: PrivateWorker)
    ensures fresh(w) && fresh(w.ladders) && w.Valid() && w.dealable == f && w.fan == FAN && |w.sides| == 2
    ensures w.orders == map[1 := Quoted(0, BID)] && w.heard == [Own(0, BID)] && w.bases == [map[], map[]]
  {
    hide L.Ok, Mirrors, FanOk, AllListed, Views, LiveOk, Total, Parts, Drift;
    assert FanOk(FAN, 2) by { FanIs(); }
    w := new PrivateWorker(f, FAN, 1, 64);
    Enters(f, w.sides);
    assert L.HasRoom(w.ladders.View(), 0, 100, 6) && Free(map[], P.Rests(0, BID));
    var ok := w.Process(B.RInsert(0, BID));
  }

  lemma Enters(f: Dealable, sides: seq<Side>)
    requires sides == L.Copies(NEW_SIDE, 2)
    ensures CanTake(f, sides, FAN[0], Appears(Own(0, BID)), 1, Quoted(0, BID))
  {
    var q, d := Quoted(0, BID), ChangeOf(f, Appears(Own(0, BID)), 1, Quoted(0, BID), 0);
    assert 0 <= d <= 6;
    assert Put(NEW_SIDE, 100, d).1;
  }

  /** The order leaves again: whether the subscriber's quantity can take it. */
  lemma LeavesWhen(w: PrivateWorker)
    requires w.Valid() && w.fan == FAN && |w.sides| == 2 && w.bases == [map[], map[]]
    requires w.orders == map[1 := Quoted(0, BID)] && w.heard == [Own(0, BID)]
    ensures var own := Own(0, BID);
            && SideQty(w.sides, FAN[0][0], true, 100) == Least(6, w.dealable(own, 0))
            && (CanTake(w.dealable, w.sides, FAN[0], Leaves, 1, Quoted(0, BID))
                <==> Least(6, w.dealable(Rebuilt(own), 0)) <= Least(6, w.dealable(own, 0)))
  {
    OneOrder(w.dealable);
    assert ViewRight(w.dealable, w.orders, w.heard, w.sides, FAN[0][0], 0, true, 100);
    assert Listed(w.sides[0], w.bases[0]);
    var dirty: seq<nat> :| Tracks(w.sides[0], dirty, w.bases[0]);
    assert AmountAt(w.sides[0], dirty, w.bases[0], 100);
    hide L.Ok, Mirrors, FanOk, AllListed, Views, LiveOk, Total, Parts, Drift, Tracks;
    assert ChangeOf(w.dealable, Leaves, 1, Quoted(0, BID), 0) == 0 - Least(6, w.dealable(Rebuilt(Own(0, BID)), 0));
    assert Refused(w.dealable, w.sides, FAN[0][0], Leaves, 1, Quoted(0, BID))
      == !Put(w.sides[0], 100, 0 - Least(6, w.dealable(Rebuilt(Own(0, BID)), 0))).1;
  }

  /** Half of ten is added; half of six is seen and taken away: two stay on show with no order left. */
  method LeftOver() returns (w: PrivateWorker, added: nat, seen: Option<nat>)
    ensures fresh(w) && w.Valid() && w.fan == FAN && w.orders == map[] && added == 5 && seen == Some(3)
    ensures SideQty(w.sides, FAN[0][0], true, 100) == 2
  {
    hide L.Ok, Mirrors, FanOk, AllListed, Views, LiveOk, Total, Parts, Drift, CanTake;
    w := Listening(Half);
    LeavesWhen(w);
    OneOrder(Half);
    added := SideQty(w.sides, FAN[0][0], true, 100);
    seen := w.GetQty(0, 0, true, 100);
    var ok := w.Process(B.RCancel(1));
    assert w.orders == map[] && w.heard == [Own(0, BID)];
    assert ViewRight(w.dealable, w.orders, w.heard, w.sides, FAN[0][0], 0, true, 100) by { ViewAt(w); }
  }

  lemma ViewAt(w: PrivateWorker)
    requires w.Valid() && w.fan == FAN
    ensures ViewRight(w.dealable, w.orders, w.heard, w.sides, FAN[0][0], 0, true, 100)
  {
  }

  /** Two are added and six are seen: the cancel asks for more than there is and is refused. */
  method Stuck() returns (w: PrivateWorker, ok: bool)
    ensures !ok
  {
    hide L.Ok, Mirrors, FanOk, AllListed, Views, LiveOk, Total, Parts, Drift, CanTake;
    w := Listening(Twelve);
    LeavesWhen(w);
    ok := w.Process(B.RCancel(1));
  }
}
