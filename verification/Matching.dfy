/**
 What matching one taker does to the opposite side, as a function of the resting queue and
 of the answers the `can_match` callback gives. Engine.dfy proves the in-place loops against it.
 */
module Matching {
  import opened Common
  import opened Book

  const UINT64_MAX: nat := 0xFFFF_FFFF_FFFF_FFFF
  const CANCEL_MAKER: nat := UINT64_MAX - 1
  const CANCEL_BOTH: nat := UINT64_MAX - 2
  const DECREMENT_CANCEL: nat := UINT64_MAX - 3

  /** Any callback: its answer may depend on how often it was asked before, and on both orders. */
  type CanMatch = (nat, Order, Order) -> nat

  /** `exclude` is the same-org exclusion of the second public entry point. */
  datatype Policy = Policy(can: Option<CanMatch>, exclude: bool)

  datatype Action = Skip | Drop | CancelMaker | CancelBoth | Trade(q: nat)

  function Min(a: nat, b: nat): nat { if a < b then a else b }

  predicate Consults(p: Policy, maker: Order, taker: Order) {
    p.can.Some? && maker.remain != 0 && !(p.exclude && maker.org == taker.org)
  }

  /** The branch taken for one maker. */
  function Decide(p: Policy, calls: nat, maker: Order, taker: Order): (a: Action)
    ensures a.Trade? ==> a.q <= maker.remain && a.q <= taker.remain
    ensures a.Trade? && taker.remain > 0 ==> a.q > 0
  {
    if p.exclude && maker.org == taker.org then Skip
    else if maker.remain == 0 then Drop
    else
      var matchable := Min(maker.remain, taker.remain);
      if p.can.None? then Trade(matchable)
      else
        var allowed := p.can.value(calls, maker, taker);
        if allowed == CANCEL_MAKER then CancelMaker
        else if allowed == CANCEL_BOTH then CancelBoth
        else if allowed == DECREMENT_CANCEL then Trade(matchable)
        else if allowed == 0 then Skip
        else Trade(Min(allowed, matchable))
  }

  predicate Crosses(taker: Order, price: nat) {
    if taker.flags.bid then taker.price >= price else taker.price <= price
  }

  /** After one level: the order map, the queue left at this price, the taker's remaining volume. */
  datatype LevelOutcome = LevelOutcome(e: map<nat, Entry>, ids: seq<nat>, remain: nat, calls: nat, log: seq<Record>)

  datatype SideOutcome = SideOutcome(e: map<nat, Entry>, levels: seq<seq<nat>>, remain: nat, calls: nat,
      log: seq<Record>)

  function Present(e: map<nat, Entry>, ids: seq<nat>): bool { forall j :: 0 <= j < |ids| ==> ids[j] in e }

  /** Consume makers from the front of one FIFO queue. */
  function MatchLevel(p: Policy, e: map<nat, Entry>, ids: seq<nat>, product: nat, price: nat, taker: Order,
                      calls: nat): (r: LevelOutcome)
    requires Present(e, ids) && Distinct(ids)
    ensures r.remain <= taker.remain
    decreases |ids|, taker.remain
  {
    if ids == [] || taker.remain == 0 then LevelOutcome(e, ids, taker.remain, calls, [])
    else
      var m, tail := ids[0], ids[1..];
      var maker := e[m].order;
      var calls' := if Consults(p, maker, taker) then calls + 1 else calls;
      match Decide(p, calls, maker, taker)
      case Skip =>
        var r := MatchLevel(p, e, tail, product, price, taker, calls');
        r.(ids := [m] + r.ids)
      case Drop =>
        MatchLevel(p, e - {m}, tail, product, price, taker, calls')
      case CancelMaker =>
        var r := MatchLevel(p, e - {m}, tail, product, price, taker, calls');
        r.(log := [RCancel(m)] + r.log)
      case CancelBoth =>
        LevelOutcome(e - {m}, tail, 0, calls', [RCancel(m)])
      case Trade(q) =>
        var rec := RMatch(m, taker.id, price, q, product);
        var left := taker.(remain := taker.remain - q);
        if q == maker.remain then
          var r := MatchLevel(p, e - {m}, tail, product, price, left, calls');
          r.(log := [rec] + r.log)
        else
          var e' := SetRemain(e, m, maker.remain - q);
          if left.remain == 0 then LevelOutcome(e', ids, 0, calls', [rec])
          else
            var r := MatchLevel(p, e', ids, product, price, left, calls');
            r.(log := [rec] + r.log)
  }

  // The first maker's turn, decision by decision.

  lemma LevelRests(p: Policy, e: map<nat, Entry>, ids: seq<nat>, product: nat, price: nat, taker: Order, calls: nat)
    requires Present(e, ids) && Distinct(ids) && (ids == [] || taker.remain == 0)
    ensures MatchLevel(p, e, ids, product, price, taker, calls) == LevelOutcome(e, ids, taker.remain, calls, [])
  {
  }

  lemma LevelSkips(p: Policy, e: map<nat, Entry>, ids: seq<nat>, product: nat, price: nat, taker: Order, calls: nat)
    requires Present(e, ids) && Distinct(ids) && ids != [] && taker.remain > 0 &&
        Decide(p, calls, e[ids[0]].order, taker) == Skip
    ensures Present(e, ids[1..]) && Distinct(ids[1..])
    ensures var n := MatchLevel(p, e, ids[1..], product, price, taker, if Consults(p, e[ids[0]].order, taker)
        then calls + 1 else calls);
            MatchLevel(p, e, ids, product, price, taker, calls) == n.(ids := [ids[0]] + n.ids)
  {
  }

  lemma LevelHalts(p: Policy, e: map<nat, Entry>, ids: seq<nat>, product: nat, price: nat, taker: Order, calls: nat)
    requires Present(e, ids) && Distinct(ids) && ids != [] && taker.remain > 0 &&
        Decide(p, calls, e[ids[0]].order, taker) == CancelBoth
    ensures var r := MatchLevel(p, e, ids, product, price, taker, calls);
            r == LevelOutcome(e - {ids[0]}, ids[1..], 0, if Consults(p, e[ids[0]].order, taker) then calls + 1
                else calls, [RCancel(ids[0])])
  {
  }

  lemma LevelDrops(p: Policy, e: map<nat, Entry>, ids: seq<nat>, product: nat, price: nat, taker: Order, calls: nat,
                   rec: Record, remain: nat)
    requires Present(e, ids) && Distinct(ids) && ids != [] && taker.remain > 0
    requires var d, maker := Decide(p, calls, e[ids[0]].order, taker), e[ids[0]].order;
             || (d == CancelMaker && rec == RCancel(ids[0]) && remain == taker.remain)
             || (d == Trade(maker.remain) && rec == RMatch(ids[0], taker.id, price, maker.remain, product) &&
                 remain + maker.remain == taker.remain)
    ensures Present(e - {ids[0]}, ids[1..]) && Distinct(ids[1..])
    ensures var n := MatchLevel(p, e - {ids[0]}, ids[1..], product, price, taker.(remain := remain),
        if Consults(p, e[ids[0]].order, taker) then calls + 1 else calls);
            MatchLevel(p, e, ids, product, price, taker, calls) == n.(log := [rec] + n.log)
  {
    assert taker.(remain := taker.remain) == taker;
  }

  lemma LevelTakesPart(p: Policy, e: map<nat, Entry>, ids: seq<nat>, product: nat, price: nat, taker: Order, calls: nat,
                       q: nat)
    requires Present(e, ids) && Distinct(ids) && ids != [] && taker.remain > 0
    requires Decide(p, calls, e[ids[0]].order, taker) == Trade(q) && q < e[ids[0]].order.remain && q <= taker.remain
    ensures var e', left, rec := SetRemain(e, ids[0], e[ids[0]].order.remain - q), taker.(remain := taker.remain - q),
        RMatch(ids[0], taker.id, price, q, product);
            var calls' := if Consults(p, e[ids[0]].order, taker) then calls + 1 else calls;
            var r := MatchLevel(p, e, ids, product, price, taker, calls);
            if left.remain == 0 then r == LevelOutcome(e', ids, 0, calls', [rec])
            else Present(e', ids) && var n := MatchLevel(p, e', ids, product, price, left, calls');
                r == n.(log := [rec] + n.log)
  {
  }

  lemma LevelForgets(p: Policy, e: map<nat, Entry>, ids: seq<nat>, product: nat, price: nat, taker: Order, calls: nat)
    requires Present(e, ids) && Distinct(ids) && ids != [] && taker.remain > 0 &&
        Decide(p, calls, e[ids[0]].order, taker) == Drop
    ensures Present(e - {ids[0]}, ids[1..]) && Distinct(ids[1..])
    ensures MatchLevel(p, e, ids, product, price, taker, calls)
            == MatchLevel(p, e - {ids[0]}, ids[1..], product, price, taker, if Consults(p, e[ids[0]].order, taker)
                then calls + 1 else calls)
  {
  }

  /** Only remaining volumes change, and exactly the makers no longer queued leave the order map. */
  ghost predicate Consumes(e: map<nat, Entry>, ids: iset<nat>, e': map<nat, Entry>, ids': iset<nat>) {
    && (forall x :: x in ids' ==> x in ids)
    && (forall x :: x in e' ==> x in e)
    && (forall x :: x in e && x !in ids ==> x in e' && e'[x] == e[x])
    && (forall x :: x in ids ==> (x in e' <==> x in ids'))
    && (forall x :: x in e' ==> e'[x] == e[x].(order := e[x].order.(remain := e'[x].order.remain)))
    && (forall x :: x in e' ==> e'[x].order.remain <= e[x].order.remain)
  }

  ghost function Ids(ids: seq<nat>): iset<nat> { iset x | x in ids }

  ghost function SideIds(levels: seq<seq<nat>>): iset<nat> { iset x | OnSide(levels, x) }

  lemma FrontGone(e: map<nat, Entry>, m: nat, tail: seq<nat>, f: map<nat, Entry>, left: seq<nat>)
    requires m in e && m !in tail && Consumes(e - {m}, Ids(tail), f, Ids(left))
    ensures Consumes(e, Ids([m] + tail), f, Ids(left))
  {
  }

  lemma FrontKept(e: map<nat, Entry>, m: nat, tail: seq<nat>, f: map<nat, Entry>, left: seq<nat>)
    requires m in e && m !in tail && Consumes(e, Ids(tail), f, Ids(left))
    ensures Consumes(e, Ids([m] + tail), f, Ids([m] + left))
    ensures Distinct(left) ==> Distinct([m] + left)
  {
    forall x: nat | x in left ensures x in tail {
      assert x in Ids(left) && x in Ids(tail);
    }
    assert forall x :: x in [m] + tail <==> x == m || x in tail;
    assert forall x :: x in [m] + left <==> x == m || x in left;
  }

  lemma FrontPartial(e: map<nat, Entry>, m: nat, remain: nat, ids: seq<nat>, f: map<nat, Entry>, left: seq<nat>)
    requires m in e && m in ids && remain <= e[m].order.remain &&
                            Consumes(SetRemain(e, m, remain), Ids(ids), f, Ids(left))
    ensures Consumes(e, Ids(ids), f, Ids(left))
  {
  }

  lemma NothingConsumed(e: map<nat, Entry>, ids: seq<nat>)
    requires Present(e, ids)
    ensures Consumes(e, Ids(ids), e, Ids(ids))
  {
  }

  lemma {:induction false} LevelConsumes(p: Policy, e: map<nat, Entry>, ids: seq<nat>, product: nat, price: nat,
                                         taker: Order, calls: nat)
    requires Present(e, ids) && Distinct(ids)
    ensures var r := MatchLevel(p, e, ids, product, price, taker, calls);
            Consumes(e, Ids(ids), r.e, Ids(r.ids)) && Distinct(r.ids)
    decreases |ids|, taker.remain
  {
    hide Consumes, Ids;
    if ids == [] || taker.remain == 0 {
      NothingConsumed(e, ids);
    } else {
      var m, tail := ids[0], ids[1..];
      var maker := e[m].order;
      var calls' := if Consults(p, maker, taker) then calls + 1 else calls;
      var r := MatchLevel(p, e, ids, product, price, taker, calls);
      assert ids == [m] + tail;
      assert Distinct(tail) && m !in tail;
      match Decide(p, calls, maker, taker)
      case Skip =>
        LevelConsumes(p, e, tail, product, price, taker, calls');
        FrontKept(e, m, tail, r.e, MatchLevel(p, e, tail, product, price, taker, calls').ids);
      case Drop =>
        LevelConsumes(p, e - {m}, tail, product, price, taker, calls');
        FrontGone(e, m, tail, r.e, r.ids);
      case CancelMaker =>
        LevelConsumes(p, e - {m}, tail, product, price, taker, calls');
        FrontGone(e, m, tail, r.e, r.ids);
      case CancelBoth =>
        NothingConsumed(e - {m}, tail);
        FrontGone(e, m, tail, r.e, r.ids);
      case Trade(q) =>
        var left := taker.(remain := taker.remain - q);
        if q == maker.remain {
          LevelConsumes(p, e - {m}, tail, product, price, left, calls');
          FrontGone(e, m, tail, r.e, r.ids);
        } else {
          var e' := SetRemain(e, m, maker.remain - q);
          if left.remain == 0 {
            NothingConsumed(e', ids);
          } else {
            LevelConsumes(p, e', ids, product, price, left, calls');
          }
          FrontPartial(e, m, maker.remain - q, ids, r.e, r.ids);
        }
    }
  }

  ghost predicate SidePresent(e: map<nat, Entry>, levels: seq<seq<nat>>) {
    && (forall i, j :: 0 <= i < |levels| && 0 <= j < |levels[i]| ==> levels[i][j] in e)
    && (forall i :: 0 <= i < |levels| ==> levels[i] != [] && Distinct(levels[i]))
    && (forall i, j, x :: 0 <= i < j < |levels| && x in levels[i] ==> x !in levels[j])
  }

  /** Walk the levels from the best price while they cross and the taker has volume left. */
  ghost function MatchSide(p: Policy, e: map<nat, Entry>, levels: seq<seq<nat>>, product: nat, taker: Order,
                           calls: nat): (r: SideOutcome)
    requires SidePresent(e, levels)
    ensures r.remain <= taker.remain
    decreases |levels|
  {
    if levels == [] || taker.remain == 0 || !Crosses(taker, LevelPrice(e, levels[0])) then
      SideOutcome(e, levels, taker.remain, calls, [])
    else
      var r := MatchLevel(p, e, levels[0], product, LevelPrice(e, levels[0]), taker, calls);
      LevelConsumes(p, e, levels[0], product, LevelPrice(e, levels[0]), taker, calls);
      SidePresentTail(e, levels, r.e);
      if r.remain == 0 then
        SideOutcome(r.e, Glue(r.ids, levels[1..]), 0, r.calls, r.log)
      else
        var t := MatchSide(p, r.e, levels[1..], product, taker.(remain := r.remain), r.calls);
        SideOutcome(t.e, Glue(r.ids, t.levels), t.remain, t.calls, r.log + t.log)
  }

  lemma SidePresentTail(e: map<nat, Entry>, levels: seq<seq<nat>>, f: map<nat, Entry>)
    requires SidePresent(e, levels) && levels != []
    requires forall x :: x in e && x !in levels[0] ==> x in f
    ensures SidePresent(f, levels[1..])
  {
    var rest := levels[1..];
    assert forall i :: 0 <= i < |rest| ==> rest[i] == levels[i + 1];
    forall i, j | 0 <= i < |rest| && 0 <= j < |rest[i]| ensures rest[i][j] in f {
      assert rest[i][j] in levels[i + 1];
      assert levels[i + 1][j] in e;
      assert rest[i][j] !in levels[0];
    }
  }

  lemma OnSideTail(levels: seq<seq<nat>>)
    requires levels != []
    ensures forall x :: OnSide(levels, x) <==> x in levels[0] || OnSide(levels[1..], x)
  {
    forall x ensures OnSide(levels, x) <==> x in levels[0] || OnSide(levels[1..], x) {
      if OnSide(levels, x) && x !in levels[0] {
        var i :| 0 <= i < |levels| && x in levels[i];
        assert x in levels[1..][i - 1];
      }
      if OnSide(levels[1..], x) {
        var i :| 0 <= i < |levels[1..]| && x in levels[1..][i];
        assert x in levels[i + 1];
      }
    }
  }

  lemma OnSideGlue(level: seq<nat>, rest: seq<seq<nat>>)
    ensures forall x :: OnSide(Glue(level, rest), x) <==> x in level || OnSide(rest, x)
  {
    var g := Glue(level, rest);
    if level != [] {
      OnSideTail(g);
      assert g[0] == level && g[1..] == rest;
    }
  }

  lemma ConsumesKeeps(e: map<nat, Entry>, ids: iset<nat>, e': map<nat, Entry>, ids': iset<nat>)
    requires Consumes(e, ids, e', ids')
    ensures (forall x :: x in e' ==> x in e) && forall x :: x in e && x !in ids ==> x in e' && e'[x] == e[x]
  {
  }

  lemma SideUntouched(e: map<nat, Entry>, levels: seq<seq<nat>>)
    requires SidePresent(e, levels)
    ensures Consumes(e, SideIds(levels), e, SideIds(levels))
  {
  }

  lemma {:induction false} SideConsumes(p: Policy, e: map<nat, Entry>, levels: seq<seq<nat>>, product: nat,
                                        taker: Order, calls: nat)
    requires SidePresent(e, levels)
    ensures var r := MatchSide(p, e, levels, product, taker, calls);
            Consumes(e, SideIds(levels), r.e, SideIds(r.levels))
    decreases |levels|
  {
    hide Consumes, MatchLevel;
    if levels == [] || taker.remain == 0 || !Crosses(taker, LevelPrice(e, levels[0])) {
      SideUntouched(e, levels);
    } else {
      var rest := levels[1..];
      var l := MatchLevel(p, e, levels[0], product, LevelPrice(e, levels[0]), taker, calls);
      LevelConsumes(p, e, levels[0], product, LevelPrice(e, levels[0]), taker, calls);
      ConsumesKeeps(e, Ids(levels[0]), l.e, Ids(l.ids));
      SidePresentTail(e, levels, l.e);
      OnSideTail(levels);
      LevelApart(levels);
      assert SideIds(levels) == Ids(levels[0]) + SideIds(rest);
      if l.remain == 0 {
        OnSideGlue(l.ids, rest);
        assert SideIds(Glue(l.ids, rest)) == Ids(l.ids) + SideIds(rest);
        SideUntouched(l.e, rest);
        ConsumesThen(e, Ids(levels[0]), l.e, Ids(l.ids), SideIds(rest), l.e, SideIds(rest));
      } else {
        SideConsumes(p, l.e, rest, product, taker.(remain := l.remain), l.calls);
        var t := MatchSide(p, l.e, rest, product, taker.(remain := l.remain), l.calls);
        OnSideGlue(l.ids, t.levels);
        assert SideIds(Glue(l.ids, t.levels)) == Ids(l.ids) + SideIds(t.levels);
        ConsumesThen(e, Ids(levels[0]), l.e, Ids(l.ids), SideIds(rest), t.e, SideIds(t.levels));
      }
    }
  }

  lemma LevelApart(levels: seq<seq<nat>>)
    requires levels != []
    requires forall i, j, x :: 0 <= i < j < |levels| && x in levels[i] ==> x !in levels[j]
    ensures Ids(levels[0]) !! SideIds(levels[1..])
  {
    forall x | x in levels[0] ensures !OnSide(levels[1..], x) {
      assert forall i :: 0 <= i < |levels[1..]| ==> levels[1..][i] == levels[i + 1];
    }
  }

  lemma ConsumesThen(e: map<nat, Entry>, ids: iset<nat>, e': map<nat, Entry>, ids': iset<nat>, rest: iset<nat>,
                     f: map<nat, Entry>, rest': iset<nat>)
    requires Consumes(e, ids, e', ids') && Consumes(e', rest, f, rest') && ids !! rest
    requires forall x :: x in rest ==> x in e
    ensures Consumes(e, ids + rest, f, ids' + rest')
  {
  }
}
