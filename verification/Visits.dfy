/**
 The matcher's visits one by one. The reference is a single queue of makers, best price first and
 first come first served: while its head crosses and the taker wants volume, the head is visited.
 The nested walk over levels and their queues does the same to the book and asks the same questions.
 */
module Visits {
  import opened Common
  import opened Book
  import opened Matching
  import opened Priority
  import opened Visiting

  /** The maker as it stood, the number of callback answers so far, the taker's volume, and the decision. */
  datatype Visit = Visit(order: Order, calls: nat, remain: nat, action: Action)

  datatype Walk = Walk(e: map<nat, Entry>, left: seq<nat>, remain: nat, calls: nat, log: seq<Record>,
      visits: seq<Visit>)

  function VisitOf(p: Policy, maker: Order, taker: Order, calls: nat): Visit {
    Visit(maker, calls, taker.remain, Decide(p, calls, maker, taker))
  }

  function Prepend(t: Turn, v: Visit, w: Walk): Walk {
    w.(left := t.passed + w.left, log := t.log + w.log, visits := [v] + w.visits)
  }

  /** The reference: one queue, visited from its head. */
  function WalkQueue(p: Policy, e: map<nat, Entry>, queue: seq<nat>, product: nat, taker: Order, calls: nat): (w: Walk)
    requires Present(e, queue) && Distinct(queue)
    decreases |queue|, taker.remain
  {
    if queue == [] || taker.remain == 0 || !Crosses(taker, e[queue[0]].order.price)
        then Walk(e, queue, taker.remain, calls, [], [])
    else
      var maker := e[queue[0]].order;
      var t := TurnOf(p, e, queue, product, maker.price, taker, calls);
      Prepend(t, VisitOf(p, maker, taker, calls),
          WalkQueue(p, t.e, t.ids, product, taker.(remain := t.remain), t.calls))
  }

  // --------------------------------------------- the levels refine the queue

  /** A turn does not look beyond the head of its queue. */
  lemma TurnWider(p: Policy, e: map<nat, Entry>, ids: seq<nat>, rest: seq<nat>, product: nat, price: nat, taker: Order,
                  calls: nat)
    requires Present(e, ids + rest) && Distinct(ids + rest) && ids != [] && taker.remain > 0
    ensures Present(e, ids) && Distinct(ids)
    ensures var t := TurnOf(p, e, ids, product, price, taker, calls);
            TurnOf(p, e, ids + rest, product, price, taker, calls) == t.(ids := t.ids + rest)
  {
    hide Decide, Consults;
    assert forall i :: 0 <= i < |ids| ==> ids[i] == (ids + rest)[i];
    assert (ids + rest)[1..] == ids[1..] + rest;
  }

  ghost predicate PricedAt(e: map<nat, Entry>, ids: seq<nat>, price: nat) {
    forall i :: 0 <= i < |ids| && ids[i] in e ==> e[ids[i]].order.price == price
  }

  lemma TurnKeepsPrice(p: Policy, e: map<nat, Entry>, ids: seq<nat>, product: nat, price: nat, taker: Order, calls: nat)
    requires Present(e, ids) && Distinct(ids) && ids != [] && taker.remain > 0 && PricedAt(e, ids, price)
    ensures var t := TurnOf(p, e, ids, product, price, taker, calls); PricedAt(t.e, t.ids, price)
  {
    hide Decide, Consults;
  }

  /** One level, then what is behind it. */
  lemma {:induction false} WalkLevel(p: Policy, e: map<nat, Entry>, ids: seq<nat>, rest: seq<nat>, product: nat,
                                     price: nat, taker: Order, calls: nat)
    requires Present(e, ids + rest) && Distinct(ids + rest) && PricedAt(e, ids, price) && Crosses(taker, price)
    ensures Present(e, ids) && Distinct(ids)
    ensures var l := MatchLevel(p, e, ids, product, price, taker, calls);
            var w := WalkQueue(p, e, ids + rest, product, taker, calls);
            && Present(l.e, rest) && Distinct(rest)
            && var n := WalkQueue(p, l.e, rest, product, taker.(remain := l.remain), l.calls);
               w.e == n.e && w.left == l.ids + n.left && w.remain == n.remain && w.calls == n.calls &&
                   w.log == l.log + n.log
    decreases |ids|, taker.remain
  {
    hide MatchLevel, TurnOf;
    Halves(ids, rest);
    if ids == [] || taker.remain == 0 {
      LevelRests(p, e, ids, product, price, taker, calls);
      assert taker.(remain := taker.remain) == taker;
      if ids == [] {
        assert ids + rest == rest;
        EmptyFront(WalkQueue(p, e, rest, product, taker, calls));
      }
    } else {
      assert (ids + rest)[0] == ids[0];
      var t := TurnOf(p, e, ids, product, price, taker, calls);
      TurnWider(p, e, ids, rest, product, price, taker, calls);
      TurnKeepsPrice(p, e, ids, product, price, taker, calls);
      LevelTurn(p, e, ids, product, price, taker, calls);
      var left := taker.(remain := t.remain);
      WalkLevel(p, t.e, t.ids, rest, product, price, left, t.calls);
      var l := MatchLevel(p, t.e, t.ids, product, price, left, t.calls);
      var n := WalkQueue(p, l.e, rest, product, left.(remain := l.remain), l.calls);
      assert t.passed + (l.ids + n.left) == t.passed + l.ids + n.left &&
          t.log + (l.log + n.log) == t.log + l.log + n.log;
    }
  }

  lemma EmptyFront(w: Walk)
    ensures [] + w.left == w.left && [] + w.log == w.log
  {
  }

  lemma Halves(a: seq<nat>, b: seq<nat>)
    requires Distinct(a + b)
    ensures Distinct(a) && Distinct(b)
    ensures forall i :: 0 <= i < |a| ==> (a + b)[i] == a[i]
    ensures forall i :: 0 <= i < |b| ==> (a + b)[|a| + i] == b[i]
  {
    assert forall i :: 0 <= i < |a| ==> (a + b)[i] == a[i];
    assert forall i :: 0 <= i < |b| ==> (a + b)[|a| + i] == b[i];
  }

  lemma Joined(a: seq<nat>, b: seq<nat>)
    requires Distinct(a) && Distinct(b) && forall x :: x in a ==> x !in b
    ensures Distinct(a + b)
  {
    var c := a + b;
    forall i, j | 0 <= i < j < |c| ensures c[i] != c[j] {
      if i < |a| <= j { assert c[i] in a && c[j] == b[j - |a|]; }
    }
  }

  lemma {:induction false} FlatPresent(e: map<nat, Entry>, levels: seq<seq<nat>>)
    requires SidePresent(e, levels)
    ensures Present(e, Flat(levels)) && Distinct(Flat(levels))
  {
    if levels != [] {
      SidePresentTail(e, levels, e);
      FlatPresent(e, levels[1..]);
      LevelApart(levels);
      forall x | x in levels[0] ensures x !in Flat(levels[1..]) { FlatIn(levels[1..], x); assert x in Ids(levels[0]); }
      Joined(levels[0], Flat(levels[1..]));
    }
  }

  /** The walk over the levels is the walk over the one queue. */
  lemma {:induction false} WalkSide(p: Policy, e: map<nat, Entry>, k: nat, levels: seq<seq<nat>>, product: nat,
                                    taker: Order, calls: nat)
    requires SideOk(e, k, levels) && SidePresent(e, levels)
    ensures Present(e, Flat(levels)) && Distinct(Flat(levels))
    ensures var r := MatchSide(p, e, levels, product, taker, calls);
            var w := WalkQueue(p, e, Flat(levels), product, taker, calls);
            w.e == r.e && w.left == Flat(r.levels) && w.remain == r.remain && w.calls == r.calls && w.log == r.log
    decreases |levels|
  {
    hide MatchLevel, TurnOf, Consumes, SidePresent;
    FlatPresent(e, levels);
    if levels != [] && taker.remain > 0 {
      var price := LevelPrice(e, levels[0]);
      assert LevelOk(e, k, levels[0]);
      assert Flat(levels)[0] == levels[0][0] && e[levels[0][0]].order.price == price;
      if Crosses(taker, price) {
        SideTurn(p, e, levels, product, taker, calls);
        var l := MatchLevel(p, e, levels[0], product, price, taker, calls);
        LevelConsumes(p, e, levels[0], product, price, taker, calls);
        RestOk(e, k, levels, l.e, Ids(l.ids));
        WalkLevel(p, e, levels[0], Flat(levels[1..]), product, price, taker, calls);
        var left := taker.(remain := l.remain);
        WalkSide(p, l.e, k, levels[1..], product, left, l.calls);
        FlatGlue(l.ids, MatchSide(p, l.e, levels[1..], product, left, l.calls).levels);
      }
    }
  }

  lemma FlatGlue(ids: seq<nat>, rest: seq<seq<nat>>)
    ensures Flat(Glue(ids, []) + rest) == ids + Flat(rest)
  {
    if ids == [] {
      assert Glue(ids, []) + rest == rest;
    } else {
      assert (Glue(ids, []) + rest)[0] == ids && (Glue(ids, []) + rest)[1..] == rest;
    }
  }

  // ----------------------------------------------------- what the visits are

  /** A trade that leaves the maker with volume: the queue does not move on. */
  predicate Stays(v: Visit) { v.action.Trade? && v.action.q < v.order.remain }

  /** The visits take the queue from its head, one maker after the other, and leave none out. */
  predicate Through(visits: seq<Visit>, queue: seq<nat>)
    decreases |visits|
  {
    visits == []
    || (queue != [] && visits[0].order.id == queue[0] &&
        Through(visits[1..], if Stays(visits[0]) then queue else queue[1..]))
  }

  /** The part of the queue that was not finished with. */
  function Ahead(visits: seq<Visit>, queue: seq<nat>): seq<nat>
    decreases |visits|
  {
    if visits == [] || queue == [] then queue else Ahead(visits[1..], if Stays(visits[0]) then queue else queue[1..])
  }

  function Skipped(visits: seq<Visit>): seq<nat> {
    if visits == [] then [] else (if visits[0].action.Skip? then [visits[0].order.id] else []) + Skipped(visits[1..])
  }

  function RemainAfter(v: Visit): nat {
    match v.action
    case CancelBoth => 0
    case Trade(q) => if q <= v.remain then v.remain - q else 0
    case _ => v.remain
  }

  /** The volume the taker still wants after the visits. */
  function Wanted(visits: seq<Visit>, remain: nat): nat { if visits == [] then remain
                  else Wanted(visits[1..], RemainAfter(visits[0])) }

  /** Every decision is the one for this taker, with the volume it then wanted, at that call number. */
  predicate Genuine(p: Policy, taker: Order, calls: nat, visits: seq<Visit>)
    decreases |visits|
  {
    visits == []
    || var v := visits[0];
       && v == VisitOf(p, v.order, taker, calls) && taker.remain > 0 && Crosses(taker, v.order.price)
       && Genuine(p, taker.(remain := RemainAfter(v)), if Consults(p, v.order, taker) then calls + 1 else calls,
          visits[1..])
  }

  function RecordOf(v: Visit, taker: nat, product: nat): seq<Record> {
    match v.action
    case Skip => []
    case Drop => []
    case CancelMaker => [RCancel(v.order.id)]
    case CancelBoth => [RCancel(v.order.id)]
    case Trade(q) => [RMatch(v.order.id, taker, v.order.price, q, product)]
  }

  function LogOf(visits: seq<Visit>, taker: nat, product: nat): seq<Record> {
    if visits == [] then [] else RecordOf(visits[0], taker, product) + LogOf(visits[1..], taker, product)
  }

  /** What a visit leaves of the order map. */
  function Effect(e: map<nat, Entry>, v: Visit): map<nat, Entry> {
    if v.order.id !in e then e
    else
      match v.action
      case Skip => e
      case Trade(q) => if q < v.order.remain then SetRemain(e, v.order.id, v.order.remain - q) else e - {v.order.id}
      case _ => e - {v.order.id}
  }

  /** Every visit finds its maker as the visits before it left it, and `e'` is what the last one leaves. */
  predicate Current(e: map<nat, Entry>, visits: seq<Visit>, e': map<nat, Entry>)
    decreases |visits|
  {
    if visits == [] then e' == e
    else visits[0].order.id in e && visits[0].order == e[visits[0].order.id].order &&
                               Current(Effect(e, visits[0]), visits[1..], e')
  }

  ghost predicate Named(e: map<nat, Entry>) { forall id :: id in e ==> e[id].order.id == id }

  /** One turn in terms of its visit. */
  lemma TurnVisit(p: Policy, e: map<nat, Entry>, queue: seq<nat>, product: nat, taker: Order, calls: nat)
    requires Present(e, queue) && Distinct(queue) && queue != [] && taker.remain > 0 && Named(e)
    ensures var maker := e[queue[0]].order;
            var t, v := TurnOf(p, e, queue, product, maker.price, taker, calls), VisitOf(p, maker, taker, calls);
            && t.e == Effect(e, v) && t.ids == (if Stays(v) then queue else queue[1..]) && t.remain == RemainAfter(v)
            && t.calls == (if Consults(p, maker, taker) then calls + 1 else calls) &&
               t.log == RecordOf(v, taker.id, product)
            && t.passed == (if v.action.Skip? then [queue[0]] else []) && Named(t.e)
  {
    hide Consults;
  }

  /** The visits of the reference walk account for everything it does. */
  lemma {:induction false} WalkVisits(p: Policy, e: map<nat, Entry>, queue: seq<nat>, product: nat, taker: Order,
                                      calls: nat)
    requires Present(e, queue) && Distinct(queue) && Named(e)
    ensures var w := WalkQueue(p, e, queue, product, taker, calls);
            && Through(w.visits, queue) && w.left == Skipped(w.visits) + Ahead(w.visits, queue)
            && Genuine(p, taker, calls, w.visits) && w.log == LogOf(w.visits, taker.id, product) &&
               Current(e, w.visits, w.e)
            && w.remain == Wanted(w.visits, taker.remain)
    decreases |queue|, taker.remain
  {
    hide TurnOf, Decide, Consults, Effect, RecordOf, Through, Genuine, LogOf, Current, Wanted, Skipped, Ahead, Stays,
         RemainAfter,
         Crosses;
    var w := WalkQueue(p, e, queue, product, taker, calls);
    if queue == [] || taker.remain == 0 || !Crosses(taker, e[queue[0]].order.price) {
      NoVisits(p, taker, calls, e, queue, product);
    } else {
      var maker := e[queue[0]].order;
      var t, v := TurnOf(p, e, queue, product, maker.price, taker, calls), VisitOf(p, maker, taker, calls);
      TurnVisit(p, e, queue, product, taker, calls);
      var left := taker.(remain := t.remain);
      WalkVisits(p, t.e, t.ids, product, left, t.calls);
      var n := WalkQueue(p, t.e, t.ids, product, left, t.calls);
      assert w.visits == [v] + n.visits;
      OneVisit(p, taker, calls, e, queue, product, v, n.visits, n.e);
      assert t.passed + (Skipped(n.visits) + Ahead(n.visits, t.ids)) == t.passed + Skipped(n.visits) +
          Ahead(n.visits, t.ids);
    }
  }

  lemma NoVisits(p: Policy, taker: Order, calls: nat, e: map<nat, Entry>, queue: seq<nat>, product: nat)
    ensures Through([], queue) && Skipped([]) == [] && Ahead([], queue) == queue && Genuine(p, taker, calls, [])
    ensures LogOf([], taker.id, product) == [] && Current(e, [], e) && Wanted([], taker.remain) == taker.remain
  {
  }

  /** One visit before others. */
  lemma OneVisit(p: Policy, taker: Order, calls: nat, e: map<nat, Entry>, queue: seq<nat>, product: nat, v: Visit,
                 rest: seq<Visit>, e': map<nat, Entry>)
    requires queue != [] && queue[0] in e && v.order == e[queue[0]].order && v.order.id == queue[0]
    requires v == VisitOf(p, v.order, taker, calls) && taker.remain > 0 && Crosses(taker, v.order.price)
    ensures var visits, queue' := [v] + rest, if Stays(v) then queue else queue[1..];
            && (Through(visits, queue) <==> Through(rest, queue')) && Ahead(visits, queue) == Ahead(rest, queue')
            && Skipped(visits) == (if v.action.Skip? then [queue[0]] else []) + Skipped(rest)
            && (Genuine(p, taker, calls, visits) <==> Genuine(p, taker.(remain := RemainAfter(v)),
               if Consults(p, v.order, taker) then calls + 1 else calls, rest))
            && LogOf(visits, taker.id, product) == RecordOf(v, taker.id, product) + LogOf(rest, taker.id, product)
            && (Current(e, visits, e') <==> Current(Effect(e, v), rest, e'))
            && Wanted(visits, taker.remain) == Wanted(rest, RemainAfter(v))
  {
    hide Consults, Effect, RecordOf, VisitOf, Crosses;
    assert ([v] + rest)[0] == v && ([v] + rest)[1..] == rest;
  }

  /** The walk of a taker that still wants something ends only at a maker it does not cross. */
  lemma {:induction false} WalkStops(p: Policy, e: map<nat, Entry>, queue: seq<nat>, product: nat, taker: Order,
                                     calls: nat)
    requires Present(e, queue) && Distinct(queue) && Named(e)
    ensures var w := WalkQueue(p, e, queue, product, taker, calls);
            var ahead := Ahead(w.visits, queue);
            w.remain > 0 && ahead != [] ==> ahead[0] in w.e && !Crosses(taker, w.e[ahead[0]].order.price)
    decreases |queue|, taker.remain
  {
    hide TurnOf, Decide, Consults, Effect, RecordOf;
    var w := WalkQueue(p, e, queue, product, taker, calls);
    if !(queue == [] || taker.remain == 0 || !Crosses(taker, e[queue[0]].order.price)) {
      var maker := e[queue[0]].order;
      var t := TurnOf(p, e, queue, product, maker.price, taker, calls);
      TurnVisit(p, e, queue, product, taker, calls);
      var left := taker.(remain := t.remain);
      WalkStops(p, t.e, t.ids, product, left, t.calls);
      assert w.visits[1..] == WalkQueue(p, t.e, t.ids, product, left, t.calls).visits;
    }
  }

  // ------------------------------------------------------------ the theorem

  lemma {:induction false} AheadSuffix(visits: seq<Visit>, queue: seq<nat>) returns (n: nat)
    ensures n <= |queue| && Ahead(visits, queue) == queue[n..]
    decreases |visits|
  {
    if visits == [] || queue == [] {
      n := 0;
    } else if Stays(visits[0]) {
      n := AheadSuffix(visits[1..], queue);
    } else {
      n := AheadSuffix(visits[1..], queue[1..]);
      assert queue[1..][n..] == queue[n + 1..];
      n := n + 1;
    }
  }

  ghost predicate RanksRise(e: map<nat, Entry>, k: nat, queue: seq<nat>) {
    forall i, j :: 0 <= i < j < |queue| && queue[i] in e && queue[j] in e ==>
        Rank(k, e[queue[i]].order.price) <= Rank(k, e[queue[j]].order.price)
  }

  lemma {:induction false} FlatSorted(e: map<nat, Entry>, k: nat, levels: seq<seq<nat>>)
    requires SideOk(e, k, levels)
    ensures RanksRise(e, k, Flat(levels))
  {
    if levels != [] {
      var rest := levels[1..];
      assert forall i :: 0 <= i < |rest| ==> rest[i] == levels[i + 1];
      FlatSorted(e, k, rest);
      assert LevelOk(e, k, levels[0]);
      forall x | x in Flat(rest) ensures x in e && Rank(k, LevelPrice(e, levels[0])) <= Rank(k, e[x].order.price) {
        FlatIn(rest, x);
        var i :| 0 <= i < |rest| && x in rest[i];
        assert LevelOk(e, k, rest[i]);
      }
      var queue := Flat(levels);
      forall i, j | 0 <= i < j < |queue| && queue[i] in e && queue[j] in e
          ensures Rank(k, e[queue[i]].order.price) <= Rank(k, e[queue[j]].order.price) {
        if i < |levels[0]| {
          assert queue[i] == levels[0][i];
          if j < |levels[0]| { assert queue[j] == levels[0][j]; }
              else { assert queue[j] == Flat(rest)[j - |levels[0]|]; }
        } else {
          assert queue[i] == Flat(rest)[i - |levels[0]|] && queue[j] == Flat(rest)[j - |levels[0]|];
        }
      }
    }
  }

  /** The makers of the queue that were not finished with, none of which the taker's limit accepts. */
  ghost predicate OutOfReach(e: map<nat, Entry>, ahead: seq<nat>, taker: Order) {
    forall i :: 0 <= i < |ahead| ==> ahead[i] in e && !Crosses(taker, e[ahead[i]].order.price)
  }

  lemma AheadOut(e: map<nat, Entry>, k: nat, levels: seq<seq<nat>>, f: map<nat, Entry>, left: iset<nat>, taker: Order,
                 visits: seq<Visit>)
    requires SideOk(e, k, levels) && Consumes(e, SideIds(levels), f, left) && KeyIsBid(k) == !taker.flags.bid
    requires forall x :: x in Ahead(visits, Flat(levels)) ==> x in f
    requires var ahead := Ahead(visits, Flat(levels)); ahead != [] ==>
        ahead[0] in f && !Crosses(taker, f[ahead[0]].order.price)
    ensures OutOfReach(f, Ahead(visits, Flat(levels)), taker)
  {
    FlatSorted(e, k, levels);
    var queue := Flat(levels);
    var n := AheadSuffix(visits, queue);
    var ahead := Ahead(visits, queue);
    forall i | 0 <= i < |ahead| ensures ahead[i] in f && !Crosses(taker, f[ahead[i]].order.price) {
      assert ahead[i] == queue[n + i] && ahead[0] == queue[n] && ahead[i] in ahead;
    }
  }

  /**
   Matching a side visits exactly the crossing makers in price-then-time order, each until it is
   skipped, gone or the taker has enough. Every decision is the policy's for this maker and this
   taker as they stand at that moment; the decisions determine the log, the order map and the queue
   left: those skipped, then those not reached. If the taker still wants volume, nobody in reach is
   left out.
   */
  lemma SideVisits(p: Policy, e: map<nat, Entry>, k: nat, levels: seq<seq<nat>>, product: nat, taker: Order, calls: nat)
    requires SideOk(e, k, levels) && SidePresent(e, levels) && Named(e) && KeyIsBid(k) == !taker.flags.bid
    ensures Present(e, Flat(levels)) && Distinct(Flat(levels))
    ensures var r, visits := MatchSide(p, e, levels, product, taker, calls),
        WalkQueue(p, e, Flat(levels), product, taker, calls).visits;
            var ahead := Ahead(visits, Flat(levels));
            && Through(visits, Flat(levels)) && Genuine(p, taker, calls, visits)
            && Current(e, visits, r.e) && r.remain == Wanted(visits, taker.remain) &&
               r.log == LogOf(visits, taker.id, product)
            && Flat(r.levels) == Skipped(visits) + ahead && (r.remain > 0 ==> OutOfReach(r.e, ahead, taker))
  {
    hide MatchSide, WalkQueue, Through, Genuine, Current, Skipped, Consumes, SideOk, SidePresent, Flat;
    WalkSide(p, e, k, levels, product, taker, calls);
    WalkVisits(p, e, Flat(levels), product, taker, calls);
    WalkStops(p, e, Flat(levels), product, taker, calls);
    SideConsumes(p, e, levels, product, taker, calls);
    var r, visits := MatchSide(p, e, levels, product, taker, calls),
        WalkQueue(p, e, Flat(levels), product, taker, calls).visits;
    var ahead := Ahead(visits, Flat(levels));
    forall x | x in ahead ensures x in r.e {
      assert x in Flat(r.levels);
      FlatIn(r.levels, x);
      StillKnown(e, SideIds(levels), r.e, SideIds(r.levels), x);
    }
    if r.remain > 0 { AheadOut(e, k, levels, r.e, SideIds(r.levels), taker, visits); }
  }

  lemma StillKnown(e: map<nat, Entry>, ids: iset<nat>, f: map<nat, Entry>, left: iset<nat>, x: nat)
    requires Consumes(e, ids, f, left) && x in left
    ensures x in f
  {
  }

  // ---------------------------------------------------- who is ever skipped

  /** Without a callback and without exclusion nobody is skipped. */
  lemma {:induction false} PlainSkipsNobody(taker: Order, calls: nat, visits: seq<Visit>)
    requires Genuine(Policy(None, false), taker, calls, visits)
    ensures Skipped(visits) == []
    decreases |visits|
  {
    if visits != [] {
      var v := visits[0];
      PlainSkipsNobody(taker.(remain := RemainAfter(v)), if Consults(Policy(None, false), v.order, taker) then calls + 1
          else calls, visits[1..]);
    }
  }

  /** How often a callback is called in the visits if orders of `org` are excluded. */
  function Others(org: nat, visits: seq<Visit>): nat {
    if visits == [] then 0
    else (if visits[0].order.org != org && visits[0].order.remain != 0 then 1 else 0) + Others(org, visits[1..])
  }

  /**
   With exclusion the taker's own organisation is skipped without a call, and everyone else is decided
   on as without exclusion, at the number of calls made for those before. Without a callback exactly
   the own organisation is skipped.
   */
  lemma {:induction false} ExcludeSkipsOwn(can: Option<CanMatch>, taker: Order, calls: nat, visits: seq<Visit>, i: nat)
    requires Genuine(Policy(can, true), taker, calls, visits) && i < |visits|
    ensures var v := visits[i];
            && v.calls == calls + (if can.Some? then Others(taker.org, visits[..i]) else 0)
            && v.action == (if v.order.org == taker.org then Skip
                            else Decide(Policy(can, false), v.calls, v.order, taker.(remain := v.remain)))
            && (can.None? ==> (v.action.Skip? <==> v.order.org == taker.org))
    decreases |visits|
  {
    if i > 0 {
      var v := visits[0];
      var after := if Consults(Policy(can, true), v.order, taker) then calls + 1 else calls;
      ExcludeSkipsOwn(can, taker.(remain := RemainAfter(v)), after, visits[1..], i - 1);
      assert visits[..i][0] == v && visits[..i][1..] == visits[1..][..i - 1];
    }
  }

  /** A maker still on the side within the taker's limit was skipped by a decision on the order as it now stands. */
  lemma LeftWasSkipped(p: Policy, e: map<nat, Entry>, k: nat, levels: seq<seq<nat>>, product: nat, taker: Order,
                       calls: nat, id: nat) returns (i: nat)
    requires SideOk(e, k, levels) && SidePresent(e, levels) && Named(e) && KeyIsBid(k) == !taker.flags.bid
    requires var r := MatchSide(p, e, levels, product, taker, calls);
             r.remain > 0 && OnSide(r.levels, id) && (id in r.e ==> Crosses(taker, r.e[id].order.price))
    ensures Present(e, Flat(levels)) && Distinct(Flat(levels))
    ensures var visits := WalkQueue(p, e, Flat(levels), product, taker, calls).visits;
            && i < |visits| && visits[i].order.id == id && visits[i].action == Skip
            && id in MatchSide(p, e, levels, product, taker, calls).e
            && visits[i].order == MatchSide(p, e, levels, product, taker, calls).e[id].order
  {
    hide MatchSide, WalkQueue, Through, Genuine, Current, SideOk, SidePresent;
    SideVisits(p, e, k, levels, product, taker, calls);
    var r, visits := MatchSide(p, e, levels, product, taker, calls),
        WalkQueue(p, e, Flat(levels), product, taker, calls).visits;
    FlatIn(r.levels, id);
    i := SkipOf(visits, id);
    SkippedStands(e, visits, r.e, Flat(levels), i);
  }

  /** Visits that do not come to a maker leave it alone. */
  lemma {:induction false} NotVisited(e: map<nat, Entry>, visits: seq<Visit>, e': map<nat, Entry>, queue: seq<nat>,
                                      id: nat)
    requires Current(e, visits, e') && Through(visits, queue) && id !in queue && id in e
    ensures id in e' && e'[id] == e[id]
    decreases |visits|
  {
    if visits != [] {
      assert visits[0].order.id == queue[0] && queue[0] in queue;
      NotVisited(Effect(e, visits[0]), visits[1..], e', if Stays(visits[0]) then queue else queue[1..], id);
    }
  }

  /** A skipped maker is not come back to: it stands as it was when it was skipped. */
  lemma {:induction false} SkippedStands(e: map<nat, Entry>, visits: seq<Visit>, e': map<nat, Entry>, queue: seq<nat>,
                                         i: nat)
    requires Current(e, visits, e') && Through(visits, queue) && Distinct(queue)
    requires i < |visits| && visits[i].action == Skip
    ensures visits[i].order.id in e' && e'[visits[i].order.id].order == visits[i].order
    decreases |visits|
  {
    var rest := if Stays(visits[0]) then queue else queue[1..];
    if i == 0 {
      NotVisited(e, visits[1..], e', queue[1..], queue[0]);
    } else {
      SkippedStands(Effect(e, visits[0]), visits[1..], e', rest, i - 1);
    }
  }

  lemma {:induction false} SkipOf(visits: seq<Visit>, id: nat) returns (i: nat)
    requires id in Skipped(visits)
    ensures i < |visits| && visits[i].order.id == id && visits[i].action == Skip
  {
    if visits[0].action.Skip? && visits[0].order.id == id {
      i := 0;
    } else {
      i := SkipOf(visits[1..], id);
      i := i + 1;
    }
  }
}
