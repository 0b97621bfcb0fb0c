/**
 One turn of the matching loop as a value, and how a level's and a side's outcome are put together
 from the turns. Engine.dfy runs the turns in place.
 */
module Visiting {
  import opened Common
  import opened Book
  import opened Matching

  /** After one maker: those passed over, the queue from the next maker on, and the taker's volume. */
  datatype Turn = Turn(e: map<nat, Entry>, passed: seq<nat>, ids: seq<nat>, remain: nat, calls: nat, log: seq<Record>)

  function TurnOf(p: Policy, e: map<nat, Entry>, ids: seq<nat>, product: nat, price: nat, taker: Order,
                  calls: nat): (t: Turn)
    requires Present(e, ids) && Distinct(ids) && ids != [] && taker.remain > 0
    ensures Present(t.e, t.ids) && Distinct(t.ids) && t.remain <= taker.remain
    ensures |t.ids| < |ids| || (t.ids == ids && t.remain < taker.remain)
  {
    var m, tail := ids[0], ids[1..];
    var maker := e[m].order;
    var calls' := if Consults(p, maker, taker) then calls + 1 else calls;
    match Decide(p, calls, maker, taker)
    case Skip => Turn(e, [m], tail, taker.remain, calls', [])
    case Drop => Turn(e - {m}, [], tail, taker.remain, calls', [])
    case CancelMaker => Turn(e - {m}, [], tail, taker.remain, calls', [RCancel(m)])
    case CancelBoth => Turn(e - {m}, [], tail, 0, calls', [RCancel(m)])
    case Trade(q) =>
      var rec := RMatch(m, taker.id, price, q, product);
      if q == maker.remain then Turn(e - {m}, [], tail, taker.remain - q, calls', [rec])
      else Turn(SetRemain(e, m, maker.remain - q), [], ids, taker.remain - q, calls', [rec])
  }

  function Join(passed: seq<nat>, log: seq<Record>, o: LevelOutcome): LevelOutcome {
    o.(ids := passed + o.ids, log := log + o.log)
  }

  lemma JoinNothing(o: LevelOutcome)
    ensures Join([], [], o) == o
  {
    assert [] + o.ids == o.ids && [] + o.log == o.log;
  }

  lemma JoinJoin(a: seq<nat>, l: seq<Record>, b: seq<nat>, m: seq<Record>, o: LevelOutcome)
    ensures Join(a, l, Join(b, m, o)) == Join(a + b, l + m, o)
  {
    assert a + (b + o.ids) == a + b + o.ids && l + (m + o.log) == l + m + o.log;
  }

  /** A level's outcome is its first turn followed by the outcome from there. */
  lemma LevelTurn(p: Policy, e: map<nat, Entry>, ids: seq<nat>, product: nat, price: nat, taker: Order, calls: nat)
    requires Present(e, ids) && Distinct(ids) && ids != [] && taker.remain > 0
    ensures var t := TurnOf(p, e, ids, product, price, taker, calls);
            MatchLevel(p, e, ids, product, price, taker, calls)
            == Join(t.passed, t.log, MatchLevel(p, t.e, t.ids, product, price, taker.(remain := t.remain), t.calls))
  {
    hide MatchLevel, Decide, Consults;
    var t, m, maker := TurnOf(p, e, ids, product, price, taker, calls), ids[0], e[ids[0]].order;
    var rest := MatchLevel(p, t.e, t.ids, product, price, taker.(remain := t.remain), t.calls);
    assert [] + rest.ids == rest.ids && [] + rest.log == rest.log;
    assert taker.(remain := taker.remain) == taker;
    match Decide(p, calls, maker, taker) {
      case Skip => LevelSkips(p, e, ids, product, price, taker, calls);
      case Drop => LevelForgets(p, e, ids, product, price, taker, calls);
      case CancelMaker => LevelDrops(p, e, ids, product, price, taker, calls, RCancel(m), taker.remain);
      case CancelBoth =>
        LevelHalts(p, e, ids, product, price, taker, calls);
        LevelRests(p, t.e, t.ids, product, price, taker.(remain := 0), t.calls);
      case Trade(q) =>
        if q == maker.remain {
          LevelDrops(p, e, ids, product, price, taker, calls, RMatch(m, taker.id, price, q, product), taker.remain - q);
        } else {
          LevelTakesPart(p, e, ids, product, price, taker, calls, q);
          if q == taker.remain { LevelRests(p, t.e, t.ids, product, price, taker.(remain := 0), t.calls); }
        }
    }
  }

  /** With same-organisation exclusion, a prefix of the taker's own orders is passed over unasked. */
  lemma {:induction false} PassPrefix(p: Policy, e: map<nat, Entry>, ids: seq<nat>, product: nat, price: nat,
                                      taker: Order, calls: nat, j: nat)
    requires Present(e, ids) && Distinct(ids) && j <= |ids| && p.exclude && taker.remain > 0
    requires forall i :: 0 <= i < j ==> e[ids[i]].order.org == taker.org
    ensures Present(e, ids[j..]) && Distinct(ids[j..])
    ensures MatchLevel(p, e, ids, product, price, taker, calls) ==
        Join(ids[..j], [], MatchLevel(p, e, ids[j..], product, price, taker, calls))
    decreases j
  {
    if j == 0 {
      assert ids[..0] == [] && ids[0..] == ids;
      JoinNothing(MatchLevel(p, e, ids, product, price, taker, calls));
    } else {
      PassPrefix(p, e, ids[1..], product, price, taker, calls, j - 1);
      assert ids[1..][j - 1..] == ids[j..] && ids[..j] == [ids[0]] + ids[1..][..j - 1];
      LevelTurn(p, e, ids, product, price, taker, calls);
      assert Decide(p, calls, e[ids[0]].order, taker) == Skip;
      assert taker.(remain := taker.remain) == taker;
      JoinJoin([ids[0]], [], ids[1..][..j - 1], [], MatchLevel(p, e, ids[j..], product, price, taker, calls));
    }
  }

  function JoinSide(done: seq<seq<nat>>, log: seq<Record>, o: SideOutcome): SideOutcome {
    o.(levels := done + o.levels, log := log + o.log)
  }

  lemma JoinSideNothing(o: SideOutcome)
    ensures JoinSide([], [], o) == o
  {
    assert [] + o.levels == o.levels && [] + o.log == o.log;
  }

  lemma JoinSideJoin(a: seq<seq<nat>>, l: seq<Record>, b: seq<seq<nat>>, m: seq<Record>, o: SideOutcome)
    ensures JoinSide(a, l, JoinSide(b, m, o)) == JoinSide(a + b, l + m, o)
  {
    assert a + (b + o.levels) == a + b + o.levels && l + (m + o.log) == l + m + o.log;
  }

  /** A side's outcome is its best level's followed by the outcome of the levels behind it. */
  lemma SideTurn(p: Policy, e: map<nat, Entry>, levels: seq<seq<nat>>, product: nat, taker: Order, calls: nat)
    requires SidePresent(e, levels) && levels != [] && taker.remain > 0 && Crosses(taker, LevelPrice(e, levels[0]))
    ensures Present(e, levels[0]) && Distinct(levels[0])
    ensures var r := MatchLevel(p, e, levels[0], product, LevelPrice(e, levels[0]), taker, calls);
            && SidePresent(r.e, levels[1..])
            && MatchSide(p, e, levels, product, taker, calls)
               == JoinSide(Glue(r.ids, []), r.log, MatchSide(p, r.e, levels[1..], product, taker.(remain := r.remain),
                   r.calls))
  {
    var r := MatchLevel(p, e, levels[0], product, LevelPrice(e, levels[0]), taker, calls);
    LevelConsumes(p, e, levels[0], product, LevelPrice(e, levels[0]), taker, calls);
    SidePresentTail(e, levels, r.e);
    var t := MatchSide(p, r.e, levels[1..], product, taker.(remain := r.remain), r.calls);
    assert Glue(r.ids, t.levels) == Glue(r.ids, []) + t.levels;
    if r.remain == 0 { assert r.log + [] == r.log; }
  }
}
