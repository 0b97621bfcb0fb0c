/**
 What matching a side does, told from the callback's answers alone: a chain of stages, each of which
 follows from the one before by what the answer about the maker in front means.
 */
module Answers {
  import opened Common
  import opened Book
  import opened Matching
  import opened Priority
  import opened Visiting
  import opened Visits

  /** The orders, the makers passed over, those still ahead, the taker's volume, the calls made and the records. */
  datatype Stage = Stage(e: map<nat, Entry>, passed: seq<nat>, ahead: seq<nat>, remain: nat, calls: nat,
      log: seq<Record>)

  predicate Within(taker: Order, price: nat) {
    if taker.flags.bid then price <= taker.price else price >= taker.price
  }

  /** The maker in front is passed over; nothing else happens. */
  predicate Passed(s: Stage, t: Stage) {
    s.ahead != [] && t == s.(passed := s.passed + [s.ahead[0]], ahead := s.ahead[1..])
  }

  /** The maker in front is gone, with these records written and this much left of the taker. */
  predicate Gone(s: Stage, t: Stage, records: seq<Record>, remain: nat) {
    s.ahead != [] &&
    t == s.(e := s.e - {s.ahead[0]}, ahead := s.ahead[1..], remain := remain, log := s.log + records)
  }

  /** The maker in front trades `q` at its own price and goes if it has no more; if it has, it stays in front. */
  predicate Dealt(s: Stage, t: Stage, taker: Order, product: nat, q: nat) {
    && s.ahead != [] && s.ahead[0] in s.e && q <= s.remain && q <= s.e[s.ahead[0]].order.remain
    && var id, en := s.ahead[0], s.e[s.ahead[0]];
       var rec := RMatch(id, taker.id, en.order.price, q, product);
       if q == en.order.remain then Gone(s, t, [rec], s.remain - q)
       else t == s.(e := s.e[id := en.(order := en.order.(remain := en.order.remain - q))], remain := s.remain - q,
                 log := s.log + [rec])
  }

  /** The taker wants volume and the maker in front is within its limit: what happens by the callback's answer. */
  predicate Follows(p: Policy, taker: Order, product: nat, s: Stage, t: Stage) {
    && s.remain > 0 && s.ahead != [] && s.ahead[0] in s.e
    && var id, maker := s.ahead[0], s.e[s.ahead[0]].order;
       && Within(taker, maker.price)
       && if p.exclude && maker.org == taker.org then Passed(s, t)
          else if maker.remain == 0 then Gone(s, t, [], s.remain)
          else
            var both := if maker.remain < s.remain then maker.remain else s.remain;
            if p.can.None? then Dealt(s, t, taker, product, both)
            else
              var answer, asked := p.can.value(s.calls, maker, taker.(remain := s.remain)), s.(calls := s.calls + 1);
              if answer == CANCEL_MAKER then Gone(asked, t, [RCancel(id)], s.remain)
              else if answer == CANCEL_BOTH then Gone(asked, t, [RCancel(id)], 0)
              else if answer == DECREMENT_CANCEL then Dealt(asked, t, taker, product, both)
              else if answer == 0 then Passed(asked, t)
              else Dealt(asked, t, taker, product, if answer < both then answer else both)
  }

  /** Nothing is wanted, nobody is ahead, or whoever is in front is out of the taker's limit. */
  predicate Over(taker: Order, s: Stage) {
    s.remain == 0 || s.ahead == [] || (s.ahead[0] in s.e && !Within(taker, s.e[s.ahead[0]].order.price))
  }

  predicate Chain(p: Policy, taker: Order, product: nat, stages: seq<Stage>) {
    stages != [] && forall i :: 0 <= i < |stages| - 1 ==> Follows(p, taker, product, stages[i], stages[i + 1])
  }

  lemma ChainCons(p: Policy, taker: Order, product: nat, s: Stage, stages: seq<Stage>)
    requires Chain(p, taker, product, stages) && Follows(p, taker, product, s, stages[0])
    ensures Chain(p, taker, product, [s] + stages)
  {
    hide Follows;
    var all := [s] + stages;
    forall i | 0 <= i < |all| - 1 ensures Follows(p, taker, product, all[i], all[i + 1]) {
      if i > 0 { assert all[i] == stages[i - 1] && all[i + 1] == stages[i]; }
    }
  }

  /** The stage after one turn. */
  function Next(s: Stage, t: Turn): Stage {
    Stage(t.e, s.passed + t.passed, t.ids, t.remain, t.calls, s.log + t.log)
  }

  lemma TurnFollows(p: Policy, taker: Order, product: nat, s: Stage)
    requires Present(s.e, s.ahead) && Distinct(s.ahead) && s.ahead != [] && s.remain > 0
    requires Crosses(taker, s.e[s.ahead[0]].order.price)
    ensures var maker := s.e[s.ahead[0]].order;
            var t := TurnOf(p, s.e, s.ahead, product, maker.price, taker.(remain := s.remain), s.calls);
            Follows(p, taker, product, s, Next(s, t))
  {
    assert s.passed + [] == s.passed && s.log + [] == s.log;
  }

  lemma {:induction false} WalkFollows(p: Policy, taker: Order, product: nat, s: Stage) returns (stages: seq<Stage>)
    requires Present(s.e, s.ahead) && Distinct(s.ahead)
    ensures Chain(p, taker, product, stages) && stages[0] == s && Over(taker, stages[|stages| - 1])
    ensures var w := WalkQueue(p, s.e, s.ahead, product, taker.(remain := s.remain), s.calls);
            var t := stages[|stages| - 1];
            && t.e == w.e && t.remain == w.remain && t.calls == w.calls && t.log == s.log + w.log
            && t.passed + t.ahead == s.passed + w.left
    decreases |s.ahead|, s.remain
  {
    hide TurnOf, Follows;
    var want := taker.(remain := s.remain);
    if s.ahead == [] || s.remain == 0 || !Crosses(taker, s.e[s.ahead[0]].order.price) {
      stages := [s];
      assert s.log + [] == s.log;
    } else {
      var maker := s.e[s.ahead[0]].order;
      var t := TurnOf(p, s.e, s.ahead, product, maker.price, want, s.calls);
      TurnFollows(p, taker, product, s);
      var rest := WalkFollows(p, taker, product, Next(s, t));
      ChainCons(p, taker, product, s, rest);
      stages := [s] + rest;
      var w := WalkQueue(p, t.e, t.ids, product, taker.(remain := t.remain), t.calls);
      assert want.(remain := t.remain) == taker.(remain := t.remain);
      assert s.log + t.log + w.log == s.log + (t.log + w.log);
      assert s.passed + t.passed + w.left == s.passed + (t.passed + w.left);
    }
  }

  /**
   Matching a side is such a chain, from the whole side in price-then-time order to a stage at which
   matching is over: orders, volume, calls, log and what is left of the side are those of its end.
   */
  lemma SideFollows(p: Policy, e: map<nat, Entry>, k: nat, levels: seq<seq<nat>>, product: nat, taker: Order,
                    calls: nat) returns (stages: seq<Stage>)
    requires SideOk(e, k, levels) && SidePresent(e, levels)
    ensures Chain(p, taker, product, stages) && stages[0] == Stage(e, [], Flat(levels), taker.remain, calls, [])
    ensures var r, t := MatchSide(p, e, levels, product, taker, calls), stages[|stages| - 1];
            && Over(taker, t) && r.e == t.e && r.remain == t.remain && r.calls == t.calls && r.log == t.log
            && Flat(r.levels) == t.passed + t.ahead
  {
    hide MatchSide, WalkQueue, Flat, SideOk, SidePresent, Chain;
    WalkSide(p, e, k, levels, product, taker, calls);
    var s := Stage(e, [], Flat(levels), taker.remain, calls, []);
    stages := WalkFollows(p, taker, product, s);
    var w := WalkQueue(p, e, Flat(levels), product, taker, calls);
    assert taker.(remain := taker.remain) == taker && [] + w.log == w.log && [] + w.left == w.left;
  }
}
