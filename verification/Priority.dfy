/**
 What matching promises about its trades: price-time order, prices, conservation of volume and,
 when no callback intervenes, the exact allocation.
 */
module Priority {
  import opened Common
  import opened Book
  import opened Matching

  // ------------------------------------------------------------ the trades

  function Traded(log: seq<Record>): nat {
    if log == [] then 0 else (if log[0].RMatch? then log[0].volume else 0) + Traded(log[1..])
  }

  function TradedWith(log: seq<Record>, id: nat): nat {
    if log == [] then 0
    else (if log[0].RMatch? && log[0].maker == id then log[0].volume else 0) + TradedWith(log[1..], id)
  }

  /** The maker a record names. */
  function Maker(r: Record): nat {
    match r
    case RInsert(_, o) => o.id
    case RCancel(id) => id
    case RMatch(maker, _, _, _, _) => maker
    case RDeactivate(id) => id
    case RActivate(id) => id
  }

  function Makers(log: seq<Record>): seq<nat> {
    seq(|log|, i requires 0 <= i < |log| => Maker(log[i]))
  }

  lemma {:induction false} TradedAppend(a: seq<Record>, b: seq<Record>)
    ensures Traded(a + b) == Traded(a) + Traded(b)
    ensures forall id :: TradedWith(a + b, id) == TradedWith(a, id) + TradedWith(b, id)
  {
    if a == [] {
      assert a + b == b;
    } else {
      assert (a + b)[0] == a[0] && (a + b)[1..] == a[1..] + b;
      TradedAppend(a[1..], b);
    }
  }

  lemma TradedCons(r: Record, log: seq<Record>)
    ensures Traded([r] + log) == (if r.RMatch? then r.volume else 0) + Traded(log)
    ensures forall id :: TradedWith([r] + log, id) == (if r.RMatch? &&
        r.maker == id then r.volume else 0) + TradedWith(log, id)
    ensures Makers([r] + log) == [Maker(r)] + Makers(log)
    ensures ([r] + log)[1..] == log
  {
    assert ([r] + log)[1..] == log;
  }

  // ------------------------------------------------- order of the queue

  /** `visits` goes through `queue` in queue order, staying at a maker any number of times. */
  predicate Follows(visits: seq<nat>, queue: seq<nat>)
    decreases |visits| + |queue|
  {
    visits == []
    || (queue != [] && (if visits[0] == queue[0] then Follows(visits[1..], queue) else Follows(visits, queue[1..])))
  }

  lemma {:induction false} FollowsIn(visits: seq<nat>, queue: seq<nat>)
    requires Follows(visits, queue)
    ensures forall x :: x in visits ==> x in queue
    decreases |visits| + |queue|
  {
    if visits != [] {
      if visits[0] == queue[0] { FollowsIn(visits[1..], queue); } else { FollowsIn(visits, queue[1..]); }
    }
  }

  lemma {:induction false} FollowsBehind(m: nat, visits: seq<nat>, queue: seq<nat>)
    requires Follows(visits, queue) && m !in queue
    ensures Follows(visits, [m] + queue) && Follows([m] + visits, [m] + queue)
  {
    FollowsIn(visits, queue);
    assert ([m] + queue)[1..] == queue;
    assert ([m] + visits)[1..] == visits;
    assert Follows(visits, [m] + queue);
  }

  lemma {:induction false} FollowsAppend(a: seq<nat>, p: seq<nat>, b: seq<nat>, q: seq<nat>)
    requires Follows(a, p) && Follows(b, q)
    requires forall x :: x in p ==> x !in q
    ensures Follows(a + b, p + q)
    decreases |a| + |p|
  {
    if a == [] {
      assert a + b == b;
      FollowsLater(b, p, q);
    } else {
      assert (a + b)[0] == a[0] && (p + q)[0] == p[0];
      if a[0] == p[0] {
        assert (a + b)[1..] == a[1..] + b;
        FollowsAppend(a[1..], p, b, q);
      } else {
        assert (p + q)[1..] == p[1..] + q;
        FollowsAppend(a, p[1..], b, q);
      }
    }
  }

  lemma {:induction false} FollowsLater(b: seq<nat>, p: seq<nat>, q: seq<nat>)
    requires Follows(b, q)
    requires forall x :: x in p ==> x !in q
    ensures Follows(b, p + q)
  {
    if p == [] {
      assert p + q == q;
    } else {
      FollowsLater(b, p[1..], q);
      assert p + q == [p[0]] + (p[1..] + q);
      FollowsIn(b, q);
      assert (p + q)[1..] == p[1..] + q;
      assert (p + q)[0] == p[0] && p[0] in p;
      if b != [] { assert b[0] in b; }
    }
  }

  function Flat(levels: seq<seq<nat>>): seq<nat> {
    if levels == [] then [] else levels[0] + Flat(levels[1..])
  }

  lemma {:induction false} FlatIn(levels: seq<seq<nat>>, x: nat)
    ensures x in Flat(levels) <==> OnSide(levels, x)
  {
    if levels != [] {
      FlatIn(levels[1..], x);
      OnSideTail(levels);
    }
  }

  /** Makers of one level are matched or cancelled in FIFO order. */
  lemma {:induction false} LevelInOrder(p: Policy, e: map<nat, Entry>, ids: seq<nat>, product: nat, price: nat,
                                        taker: Order, calls: nat)
    requires Present(e, ids) && Distinct(ids)
    ensures Follows(Makers(MatchLevel(p, e, ids, product, price, taker, calls).log), ids)
    decreases |ids|, taker.remain
  {
    if ids != [] && taker.remain != 0 {
      var m, tail := ids[0], ids[1..];
      var maker := e[m].order;
      var calls' := if Consults(p, maker, taker) then calls + 1 else calls;
      assert ids == [m] + tail && m !in tail;
      match Decide(p, calls, maker, taker)
      case Skip =>
        LevelInOrder(p, e, tail, product, price, taker, calls');
        FollowsBehind(m, Makers(MatchLevel(p, e, tail, product, price, taker, calls').log), tail);
      case Drop =>
        LevelInOrder(p, e - {m}, tail, product, price, taker, calls');
        FollowsBehind(m, Makers(MatchLevel(p, e - {m}, tail, product, price, taker, calls').log), tail);
      case CancelMaker =>
        LevelInOrder(p, e - {m}, tail, product, price, taker, calls');
        var r := MatchLevel(p, e - {m}, tail, product, price, taker, calls');
        FollowsBehind(m, Makers(r.log), tail);
        TradedCons(RCancel(m), r.log);
      case CancelBoth =>
      case Trade(q) =>
        var left := taker.(remain := taker.remain - q);
        var rec := RMatch(m, taker.id, price, q, product);
        if q == maker.remain {
          LevelInOrder(p, e - {m}, tail, product, price, left, calls');
          var r := MatchLevel(p, e - {m}, tail, product, price, left, calls');
          FollowsBehind(m, Makers(r.log), tail);
          TradedCons(rec, r.log);
        } else if left.remain != 0 {
          var e' := SetRemain(e, m, maker.remain - q);
          LevelInOrder(p, e', ids, product, price, left, calls');
          var r := MatchLevel(p, e', ids, product, price, left, calls');
          TradedCons(rec, r.log);
          assert ([m] + Makers(r.log))[1..] == Makers(r.log);
        }
    }
  }

  lemma MakersAppend(a: seq<Record>, b: seq<Record>)
    ensures Makers(a + b) == Makers(a) + Makers(b)
  {
  }

  /** Price-time priority: across a side, makers are matched or cancelled best price first, then FIFO. */
  lemma {:induction false} SideInOrder(p: Policy, e: map<nat, Entry>, levels: seq<seq<nat>>, product: nat, taker: Order,
                                       calls: nat)
    requires SidePresent(e, levels)
    ensures Follows(Makers(MatchSide(p, e, levels, product, taker, calls).log), Flat(levels))
    decreases |levels|
  {
    if !(levels == [] || taker.remain == 0 || !Crosses(taker, LevelPrice(e, levels[0]))) {
      var rest, price := levels[1..], LevelPrice(e, levels[0]);
      var l := MatchLevel(p, e, levels[0], product, price, taker, calls);
      LevelInOrder(p, e, levels[0], product, price, taker, calls);
      LevelConsumes(p, e, levels[0], product, price, taker, calls);
      SidePresentTail(e, levels, l.e);
      LevelApart(levels);
      forall x | x in levels[0] ensures x !in Flat(rest) { FlatIn(rest, x); assert x in Ids(levels[0]); }
      if l.remain == 0 {
        FollowsAppend(Makers(l.log), levels[0], [], Flat(rest));
        assert Makers(l.log) + [] == Makers(l.log);
      } else {
        var t := MatchSide(p, l.e, rest, product, taker.(remain := l.remain), l.calls);
        SideInOrder(p, l.e, rest, product, taker.(remain := l.remain), l.calls);
        FollowsAppend(Makers(l.log), levels[0], Makers(t.log), Flat(rest));
        MakersAppend(l.log, t.log);
      }
    }
  }

  // ----------------------------------------------------------- prices

  /** Every record is a cancel, or a trade of the taker at `price`. */
  ghost predicate TradesAt(log: seq<Record>, product: nat, price: nat, taker: nat) {
    forall i :: 0 <= i < |log| ==>
      (log[i].RCancel? || (log[i].RMatch? && log[i].price == price && log[i].taker == taker &&
          log[i].product == product && log[i].volume > 0))
  }

  lemma {:induction false} LevelPrices(p: Policy, e: map<nat, Entry>, ids: seq<nat>, product: nat, price: nat,
                                       taker: Order, calls: nat)
    requires Present(e, ids) && Distinct(ids)
    ensures TradesAt(MatchLevel(p, e, ids, product, price, taker, calls).log, product, price, taker.id)
    decreases |ids|, taker.remain
  {
    if ids != [] && taker.remain != 0 {
      var m, tail := ids[0], ids[1..];
      var maker := e[m].order;
      var calls' := if Consults(p, maker, taker) then calls + 1 else calls;
      match Decide(p, calls, maker, taker)
      case Skip => LevelPrices(p, e, tail, product, price, taker, calls');
      case Drop => LevelPrices(p, e - {m}, tail, product, price, taker, calls');
      case CancelMaker => LevelPrices(p, e - {m}, tail, product, price, taker, calls');
      case CancelBoth =>
      case Trade(q) =>
        var left := taker.(remain := taker.remain - q);
        if q == maker.remain { LevelPrices(p, e - {m}, tail, product, price, left, calls'); }
        else if left.remain != 0 { LevelPrices(p, SetRemain(e, m, maker.remain - q), ids, product, price, left, calls');
            }
    }
  }

  /** A trade happens at the maker's own price, which the taker's limit accepts. */
  ghost predicate FairTrade(e: map<nat, Entry>, r: Record, product: nat, taker: Order) {
    r.RCancel? || (r.RMatch? && r.maker in e && r.price == e[r.maker].order.price && Crosses(taker, r.price)
                   && r.taker == taker.id && r.product == product && r.volume > 0)
  }

  ghost predicate AllFair(e: map<nat, Entry>, log: seq<Record>, product: nat, taker: Order) {
    forall i :: 0 <= i < |log| ==> FairTrade(e, log[i], product, taker)
  }

  lemma FairBefore(e: map<nat, Entry>, ids: iset<nat>, e': map<nat, Entry>, ids': iset<nat>, r: Record, product: nat,
                   left: Order, taker: Order)
    requires Consumes(e, ids, e', ids') && FairTrade(e', r, product, left)
    requires left == taker.(remain := left.remain)
    ensures FairTrade(e, r, product, taker)
  {
  }

  lemma {:induction false} SidePrices(p: Policy, e: map<nat, Entry>, k: nat, levels: seq<seq<nat>>, product: nat,
                                      taker: Order, calls: nat)
    requires SideOk(e, k, levels) && SidePresent(e, levels)
    ensures var log := MatchSide(p, e, levels, product, taker, calls).log;
            AllFair(e, log, product, taker)
    decreases |levels|
  {
    hide MatchLevel, SidePresent, Consumes;
    if !(levels == [] || taker.remain == 0 || !Crosses(taker, LevelPrice(e, levels[0]))) {
      var rest, price := levels[1..], LevelPrice(e, levels[0]);
      FirstLevel(e, levels);
      var l := MatchLevel(p, e, levels[0], product, price, taker, calls);
      LevelPrices(p, e, levels[0], product, price, taker, calls);
      LevelInOrder(p, e, levels[0], product, price, taker, calls);
      FollowsIn(Makers(l.log), levels[0]);
      assert LevelOk(e, k, levels[0]);
      forall i | 0 <= i < |l.log| ensures FairTrade(e, l.log[i], product, taker) {
        assert Makers(l.log)[i] in levels[0];
      }
      LevelConsumes(p, e, levels[0], product, price, taker, calls);
      RestPresent(e, levels, l.e, Ids(l.ids));
      if l.remain != 0 {
        RestOk(e, k, levels, l.e, Ids(l.ids));
        var left := taker.(remain := l.remain);
        SidePrices(p, l.e, k, rest, product, left, l.calls);
        var t := MatchSide(p, l.e, rest, product, left, l.calls);
        assert AllFair(l.e, t.log, product, left);
        forall i | 0 <= i < |t.log| ensures FairTrade(e, t.log[i], product, taker) {
          FairBefore(e, Ids(levels[0]), l.e, Ids(l.ids), t.log[i], product, left, taker);
        }
      }
    }
  }

  lemma RestPresent(e: map<nat, Entry>, levels: seq<seq<nat>>, f: map<nat, Entry>, ids': iset<nat>)
    requires SidePresent(e, levels) && levels != []
    requires Consumes(e, Ids(levels[0]), f, ids')
    ensures SidePresent(f, levels[1..])
  {
    assert forall x :: x in e && x !in levels[0] ==> x !in Ids(levels[0]);
    SidePresentTail(e, levels, f);
  }

  lemma FirstLevel(e: map<nat, Entry>, levels: seq<seq<nat>>)
    requires SidePresent(e, levels) && levels != []
    ensures Present(e, levels[0]) && Distinct(levels[0])
  {
  }

  /** The levels behind one that was worked on are as they were. */
  lemma RestOk(e: map<nat, Entry>, k: nat, levels: seq<seq<nat>>, f: map<nat, Entry>, ids': iset<nat>)
    requires SideOk(e, k, levels) && SidePresent(e, levels) && levels != []
    requires Consumes(e, Ids(levels[0]), f, ids')
    ensures SideOk(f, k, levels[1..])
    ensures forall i :: 0 <= i < |levels[1..]| ==> LevelPrice(f, levels[1..][i]) == LevelPrice(e, levels[1 + i])
  {
    var rest := levels[1..];
    assert forall i :: 0 <= i < |rest| ==> rest[i] == levels[i + 1];
    assert SideOk(e, k, rest);
    forall i, j | 0 <= i < |rest| && 0 <= j < |rest[i]| ensures SameKeyAndPrice(e, f, rest[i][j]) {
      assert LevelOk(e, k, rest[i]);
      assert rest[i][j] in levels[i + 1];
      assert rest[i][j] !in Ids(levels[0]);
    }
    SideFrame(e, f, k, rest);
  }

  // ----------------------------------------------------- conservation

  predicate Halted(remain: nat, log: seq<Record>) {
    remain == 0 && log != [] && log[|log| - 1].RCancel?
  }

  /** What the log says about one maker's volume. */
  ghost predicate Accounts(e: map<nat, Entry>, e': map<nat, Entry>, log: seq<Record>, id: nat)
    requires id in e
  {
    if id in e' then e[id].order.remain == e'[id].order.remain + TradedWith(log, id) && RCancel(id) !in log
    else if RCancel(id) in log then TradedWith(log, id) < e[id].order.remain
    else TradedWith(log, id) == e[id].order.remain
  }

  ghost predicate AllAccounted(e: map<nat, Entry>, e': map<nat, Entry>, log: seq<Record>) {
    forall id :: id in e ==> Accounts(e, e', log, id)
  }

  /** The taker's side of the account; a cancel-both answer drops what it had left. */
  ghost predicate TakerAccounted(before: nat, after: nat, log: seq<Record>) {
    if before > 0 && Halted(after, log) then Traded(log) < before else before == after + Traded(log)
  }

  lemma AccountsNothing(e: map<nat, Entry>)
    ensures AllAccounted(e, e, [])
  {
  }

  lemma AccountsDrop(e: map<nat, Entry>, m: nat, e': map<nat, Entry>, rec: Record, log: seq<Record>)
    requires m in e && m !in e' && e[m].order.remain > 0
    requires AllAccounted(e - {m}, e', log)
    requires TradedWith(log, m) == 0 && RCancel(m) !in log
    requires rec == RCancel(m) || (rec.RMatch? && rec.maker == m && rec.volume == e[m].order.remain)
    ensures AllAccounted(e, e', [rec] + log)
  {
    TradedCons(rec, log);
    assert ([rec] + log)[0] == rec;
    forall id | id in e ensures Accounts(e, e', [rec] + log, id) {
      assert RCancel(id) in [rec] + log <==> rec == RCancel(id) || RCancel(id) in log;
      if id != m { assert id in e - {m}; assert Accounts(e - {m}, e', log, id); }
    }
  }

  lemma AccountsPartial(e: map<nat, Entry>, m: nat, q: nat, e': map<nat, Entry>, rec: Record, log: seq<Record>)
    requires m in e && q < e[m].order.remain
    requires AllAccounted(SetRemain(e, m, e[m].order.remain - q), e', log)
    requires rec.RMatch? && rec.maker == m && rec.volume == q
    ensures AllAccounted(e, e', [rec] + log)
  {
    TradedCons(rec, log);
    forall id | id in e ensures Accounts(e, e', [rec] + log, id) {
      assert RCancel(id) in [rec] + log <==> RCancel(id) in log;
      assert Accounts(SetRemain(e, m, e[m].order.remain - q), e', log, id);
    }
  }

  lemma TakerTrades(before: nat, q: nat, after: nat, rec: Record, log: seq<Record>)
    requires 0 < q <= before && rec.RMatch? && rec.volume == q
    requires TakerAccounted(before - q, after, log) && (log != [] ==> before > q) && after <= before - q
    ensures TakerAccounted(before, after, [rec] + log)
  {
    TradedCons(rec, log);
    if log != [] { assert ([rec] + log)[|log|] == log[|log| - 1]; }
  }

  lemma TakerKeeps(before: nat, after: nat, rec: Record, log: seq<Record>)
    requires before > 0 && rec.RCancel? && TakerAccounted(before, after, log) && (log == [] ==> after > 0)
    ensures TakerAccounted(before, after, [rec] + log)
  {
    TradedCons(rec, log);
    if log != [] { assert ([rec] + log)[|log|] == log[|log| - 1]; }
  }

  /** Nothing in the log concerns a maker outside the queue. */
  lemma {:induction false} Uninvolved(log: seq<Record>, queue: seq<nat>, id: nat)
    requires Follows(Makers(log), queue) && id !in queue
    ensures TradedWith(log, id) == 0 && RCancel(id) !in log
  {
    FollowsIn(Makers(log), queue);
    forall i | 0 <= i < |log| ensures Maker(log[i]) in queue { assert Makers(log)[i] == Maker(log[i]); }
    NotTraded(log, id);
  }

  lemma {:induction false} NotTraded(log: seq<Record>, id: nat)
    requires forall i :: 0 <= i < |log| ==> Maker(log[i]) != id
    ensures TradedWith(log, id) == 0
  {
    if log != [] { NotTraded(log[1..], id); }
  }

  lemma NeverDrops(p: Policy, calls: nat, maker: Order, taker: Order)
    requires maker.remain > 0
    ensures !Decide(p, calls, maker, taker).Drop?
  {
  }

  /** In one level every maker loses exactly what the log trades with it, and so does the taker. */
  lemma {:induction false} LevelConserves(p: Policy, e: map<nat, Entry>, ids: seq<nat>, product: nat, price: nat,
                                          taker: Order, calls: nat)
    requires Present(e, ids) && Distinct(ids) && AllPositive(e)
    ensures var r := MatchLevel(p, e, ids, product, price, taker, calls);
            AllAccounted(e, r.e, r.log) && TakerAccounted(taker.remain, r.remain, r.log)
    ensures var r := MatchLevel(p, e, ids, product, price, taker, calls);
            r.log == [] ==> r.remain == taker.remain
    decreases |ids|, taker.remain
  {
    hide AllAccounted, MatchLevel, Decide, Consults;
    if ids == [] || taker.remain == 0 {
      LevelRests(p, e, ids, product, price, taker, calls);
      AccountsNothing(e);
    } else {
      hide TakerAccounted;
      var m, maker := ids[0], e[ids[0]].order;
      var calls' := if Consults(p, maker, taker) then calls + 1 else calls;
      NeverDrops(p, calls, maker, taker);
      match Decide(p, calls, maker, taker)
      case Skip =>
        LevelSkips(p, e, ids, product, price, taker, calls);
        LevelConserves(p, e, ids[1..], product, price, taker, calls');
      case Drop =>
      case CancelMaker =>
        LevelDrops(p, e, ids, product, price, taker, calls, RCancel(m), taker.remain);
        DropConserves(p, e, ids, product, price, taker, taker.remain, calls', RCancel(m));
      case CancelBoth =>
        LevelHalts(p, e, ids, product, price, taker, calls);
        BothConserves(e, m, taker.remain);
      case Trade(q) =>
        var rec := RMatch(m, taker.id, price, q, product);
        if q == maker.remain {
          LevelDrops(p, e, ids, product, price, taker, calls, rec, taker.remain - q);
          DropConserves(p, e, ids, product, price, taker, taker.remain - q, calls', rec);
        } else {
          LevelTakesPart(p, e, ids, product, price, taker, calls, q);
          PartialConserves(p, e, ids, product, price, taker, q, calls');
        }
    }
  }

  lemma BothConserves(e: map<nat, Entry>, m: nat, before: nat)
    requires m in e && e[m].order.remain > 0 && before > 0
    ensures AllAccounted(e, e - {m}, [RCancel(m)]) && TakerAccounted(before, 0, [RCancel(m)])
  {
    AccountsNothing(e - {m});
    AccountsDrop(e, m, e - {m}, RCancel(m), []);
    assert [RCancel(m)] + [] == [RCancel(m)];
    HaltAccounted(before, RCancel(m));
  }

  lemma HaltAccounted(before: nat, rec: Record)
    requires before > 0 && rec.RCancel?
    ensures TakerAccounted(before, 0, [rec])
  {
    assert [rec] + [] == [rec];
    TradedCons(rec, []);
  }

  lemma {:induction false} DropConserves(p: Policy, e: map<nat, Entry>, ids: seq<nat>, product: nat, price: nat,
                                         taker: Order, remain: nat, calls: nat, rec: Record)
    requires Present(e, ids) && Distinct(ids) && AllPositive(e) && ids != [] && taker.remain > 0
    requires Present(e - {ids[0]}, ids[1..]) && Distinct(ids[1..])
    requires (rec == RCancel(ids[0]) && remain == taker.remain)
             || (rec == RMatch(ids[0], taker.id, price, e[ids[0]].order.remain, product) &&
                 remain + e[ids[0]].order.remain == taker.remain)
    ensures var r := MatchLevel(p, e - {ids[0]}, ids[1..], product, price, taker.(remain := remain), calls);
            AllAccounted(e, r.e, [rec] + r.log) && TakerAccounted(taker.remain, r.remain, [rec] + r.log)
    decreases |ids|, taker.remain, 0
  {
    hide AllAccounted, TakerAccounted;
    var m, tail := ids[0], ids[1..];
    var left := taker.(remain := remain);
    var r := MatchLevel(p, e - {m}, tail, product, price, left, calls);
    LevelConserves(p, e - {m}, tail, product, price, left, calls);
    LevelInOrder(p, e - {m}, tail, product, price, left, calls);
    LevelConsumes(p, e - {m}, tail, product, price, left, calls);
    Uninvolved(r.log, tail, m);
    AccountsDrop(e, m, r.e, rec, r.log);
    if rec.RCancel? {
      TakerKeeps(taker.remain, r.remain, rec, r.log);
    } else {
      TakerTrades(taker.remain, rec.volume, r.remain, rec, r.log);
    }
  }

  lemma {:induction false} PartialConserves(p: Policy, e: map<nat, Entry>, ids: seq<nat>, product: nat, price: nat,
                                          taker: Order, q: nat, calls: nat)
    requires Present(e, ids) && Distinct(ids) && AllPositive(e) && ids != []
    requires 0 < q < e[ids[0]].order.remain && q <= taker.remain
    ensures var rec := RMatch(ids[0], taker.id, price, q, product);
            var e' := SetRemain(e, ids[0], e[ids[0]].order.remain - q);
            var left := taker.(remain := taker.remain - q);
            if left.remain == 0 then AllAccounted(e, e', [rec]) && TakerAccounted(taker.remain, 0, [rec])
            else
              var r := MatchLevel(p, e', ids, product, price, left, calls);
              AllAccounted(e, r.e, [rec] + r.log) && TakerAccounted(taker.remain, r.remain, [rec] + r.log)
    decreases |ids|, taker.remain, 0
  {
    hide AllAccounted, TakerAccounted;
    var m := ids[0];
    var rec := RMatch(m, taker.id, price, q, product);
    var e' := SetRemain(e, m, e[m].order.remain - q);
    var left := taker.(remain := taker.remain - q);
    if left.remain == 0 {
      AccountsNothing(e');
      AccountsPartial(e, m, q, e', rec, []);
      assert [rec] + [] == [rec];
      NoTradeAccounted(0);
      TakerTrades(taker.remain, q, 0, rec, []);
    } else {
      var r := MatchLevel(p, e', ids, product, price, left, calls);
      LevelConserves(p, e', ids, product, price, left, calls);
      AccountsPartial(e, m, q, r.e, rec, r.log);
      TakerTrades(taker.remain, q, r.remain, rec, r.log);
    }
  }

  lemma NoTradeAccounted(remain: nat)
    ensures TakerAccounted(remain, remain, [])
  {
  }

  lemma {:induction false} LevelPositive(p: Policy, e: map<nat, Entry>, ids: seq<nat>, product: nat, price: nat,
                                         taker: Order, calls: nat)
    requires Present(e, ids) && Distinct(ids) && AllPositive(e)
    ensures AllPositive(MatchLevel(p, e, ids, product, price, taker, calls).e)
    decreases |ids|, taker.remain
  {
    if ids != [] && taker.remain != 0 {
      var m, tail := ids[0], ids[1..];
      var maker := e[m].order;
      var calls' := if Consults(p, maker, taker) then calls + 1 else calls;
      match Decide(p, calls, maker, taker)
      case Skip => LevelPositive(p, e, tail, product, price, taker, calls');
      case Drop => LevelPositive(p, e - {m}, tail, product, price, taker, calls');
      case CancelMaker => LevelPositive(p, e - {m}, tail, product, price, taker, calls');
      case CancelBoth =>
      case Trade(q) =>
        var left := taker.(remain := taker.remain - q);
        if q == maker.remain { LevelPositive(p, e - {m}, tail, product, price, left, calls'); }
        else if left.remain != 0 { LevelPositive(p, SetRemain(e, m, maker.remain - q), ids, product, price, left,
            calls'); }
    }
  }

  lemma AccountsThen(e: map<nat, Entry>, e': map<nat, Entry>, log: seq<Record>, f: map<nat, Entry>, log': seq<Record>)
    requires AllAccounted(e, e', log) && AllAccounted(e', f, log')
    requires forall x :: x in e' ==> x in e
    requires forall x :: x in f ==> x in e'
    requires forall id :: id in e && id !in e' ==> TradedWith(log', id) == 0 && RCancel(id) !in log'
    ensures AllAccounted(e, f, log + log')
  {
    TradedAppend(log, log');
    forall id | id in e ensures Accounts(e, f, log + log', id) {
      assert Accounts(e, e', log, id);
      assert RCancel(id) in log + log' <==> RCancel(id) in log || RCancel(id) in log';
      if id in e' { assert Accounts(e', f, log', id); }
    }
  }

  lemma TakerThen(before: nat, mid: nat, log: seq<Record>, after: nat, log': seq<Record>)
    requires TakerAccounted(before, mid, log) && TakerAccounted(mid, after, log') && mid != 0
    requires log' == [] ==> after == mid
    ensures TakerAccounted(before, after, log + log')
  {
    TradedAppend(log, log');
    if log' != [] { assert (log + log')[|log + log'| - 1] == log'[|log'| - 1]; }
    else { assert log + log' == log; }
  }

  /**
   Conservation on a whole side: each maker's remaining volume drops by exactly what the log trades
   with it (a cancelled maker also loses its rest), and the taker's drops by the sum of the logged
   trades (unless a cancel-both answer drops its rest).
   */
  lemma {:induction false} SideConserves(p: Policy, e: map<nat, Entry>, levels: seq<seq<nat>>, product: nat,
                                         taker: Order, calls: nat)
    requires SidePresent(e, levels) && AllPositive(e)
    ensures var r := MatchSide(p, e, levels, product, taker, calls);
            && AllAccounted(e, r.e, r.log) && TakerAccounted(taker.remain, r.remain, r.log)
            && (r.log == [] ==> r.remain == taker.remain)
    decreases |levels|
  {
    hide AllAccounted, TakerAccounted, MatchLevel, Consumes, SidePresent;
    if levels == [] || taker.remain == 0 || !Crosses(taker, LevelPrice(e, levels[0])) {
      AccountsNothing(e);
      NoTradeAccounted(taker.remain);
    } else {
      var rest, price := levels[1..], LevelPrice(e, levels[0]);
      FirstLevel(e, levels);
      var l := MatchLevel(p, e, levels[0], product, price, taker, calls);
      LevelConserves(p, e, levels[0], product, price, taker, calls);
      LevelConsumes(p, e, levels[0], product, price, taker, calls);
      LevelPositive(p, e, levels[0], product, price, taker, calls);
      RestPresent(e, levels, l.e, Ids(l.ids));
      if l.remain != 0 {
        var left := taker.(remain := l.remain);
        SideConserves(p, l.e, rest, product, left, l.calls);
        SideInOrder(p, l.e, rest, product, left, l.calls);
        SideConsumes(p, l.e, rest, product, left, l.calls);
        var t := MatchSide(p, l.e, rest, product, left, l.calls);
        GoneMakers(e, levels, l.e, Ids(l.ids), t.log, t.e, SideIds(t.levels));
        AccountsThen(e, l.e, l.log, t.e, t.log);
        TakerThen(taker.remain, l.remain, l.log, t.remain, t.log);
      }
    }
  }

  lemma GoneMakers(e: map<nat, Entry>, levels: seq<seq<nat>>, e': map<nat, Entry>, ids': iset<nat>, log: seq<Record>,
                   f: map<nat, Entry>, rest': iset<nat>)
    requires SidePresent(e, levels) && levels != [] && Consumes(e, Ids(levels[0]), e', ids')
    requires Follows(Makers(log), Flat(levels[1..])) && Consumes(e', SideIds(levels[1..]), f, rest')
    ensures forall x :: x in e' ==> x in e
    ensures forall x :: x in f ==> x in e'
    ensures forall id :: id in e && id !in e' ==> TradedWith(log, id) == 0 && RCancel(id) !in log
  {
    forall id | id in e && id !in e' ensures TradedWith(log, id) == 0 && RCancel(id) !in log {
      assert id in Ids(levels[0]);
      LevelApart(levels);
      FlatIn(levels[1..], id);
      assert id !in SideIds(levels[1..]);
      Uninvolved(log, Flat(levels[1..]), id);
    }
  }
}
