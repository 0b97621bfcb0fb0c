/**
 The allocation without callbacks in closed form, the same-org exclusion as a callback, and the
 reason a book never ends up crossed.
 */
module Allocation {
  import opened Common
  import opened Book
  import opened Matching
  import opened Priority
  import opened Visits

  const PLAIN: Policy := Policy(None, false)

  function Sum(e: map<nat, Entry>, ids: seq<nat>): nat {
    if ids == [] then 0 else (if ids[0] in e then e[ids[0]].order.remain else 0) + Sum(e, ids[1..])
  }

  /** What a maker with `ahead` volume queued before it gets from a taker that wants `want`. */
  function Share(want: nat, ahead: nat, remain: nat): nat {
    if want <= ahead then 0 else Min(want - ahead, remain)
  }

  function Short(want: nat, offered: nat): nat { if want <= offered then 0 else want - offered }

  lemma {:induction false} SumAppend(e: map<nat, Entry>, a: seq<nat>, b: seq<nat>)
    ensures Sum(e, a + b) == Sum(e, a) + Sum(e, b)
  {
    if a == [] {
      assert a + b == b;
    } else {
      assert (a + b)[0] == a[0] && (a + b)[1..] == a[1..] + b;
      SumAppend(e, a[1..], b);
    }
  }

  lemma {:induction false} SumSame(e: map<nat, Entry>, f: map<nat, Entry>, ids: seq<nat>)
    requires forall x :: x in ids ==> (x in e <==> x in f) && (x in e ==> f[x].order.remain == e[x].order.remain)
    ensures Sum(e, ids) == Sum(f, ids)
  {
    if ids != [] { SumSame(e, f, ids[1..]); }
  }

  /** The maker at position `i` of the queue trades exactly its share. */
  ghost predicate AllocatedAt(e: map<nat, Entry>, queue: seq<nat>, want: nat, log: seq<Record>, i: nat)
    requires i < |queue|
  {
    queue[i] in e && TradedWith(log, queue[i]) == Share(want, Sum(e, queue[..i]), e[queue[i]].order.remain)
  }

  ghost predicate Allocated(e: map<nat, Entry>, queue: seq<nat>, want: nat, log: seq<Record>) {
    forall i :: 0 <= i < |queue| ==> AllocatedAt(e, queue, want, log, i)
  }

  lemma JoinFront(e: map<nat, Entry>, level: seq<nat>, rest: seq<nat>, want: nat, log: seq<Record>, log': seq<Record>,
                  i: nat)
    requires i < |level| && AllocatedAt(e, level, want, log, i) && TradedWith(log', level[i]) == 0
    ensures AllocatedAt(e, level + rest, want, log + log', i)
  {
    TradedAppend(log, log');
    assert (level + rest)[..i] == level[..i];
  }

  lemma JoinBack(e: map<nat, Entry>, level: seq<nat>, f: map<nat, Entry>, rest: seq<nat>, want: nat, log: seq<Record>,
                 log': seq<Record>, j: nat)
    requires j < |rest| && AllocatedAt(f, rest, Short(want, Sum(e, level)), log', j) && TradedWith(log, rest[j]) == 0
    requires forall x :: x in rest ==> x in e && x in f && f[x].order.remain == e[x].order.remain
    ensures AllocatedAt(e, level + rest, want, log + log', |level| + j)
  {
    TradedAppend(log, log');
    assert (level + rest)[..|level| + j] == level + rest[..j];
    SumAppend(e, level, rest[..j]);
    SumSame(e, f, rest[..j]);
    assert rest[j] in rest;
  }

  lemma AllocatedJoin(e: map<nat, Entry>, level: seq<nat>, f: map<nat, Entry>, rest: seq<nat>, want: nat,
                      log: seq<Record>, log': seq<Record>)
    requires Allocated(e, level, want, log) && Allocated(f, rest, Short(want, Sum(e, level)), log')
    requires forall x :: x in rest ==> x in e && x in f && f[x].order.remain == e[x].order.remain
    requires forall x :: x in rest ==> TradedWith(log, x) == 0
    requires forall x :: x in level ==> TradedWith(log', x) == 0
    ensures Allocated(e, level + rest, want, log + log')
  {
    hide AllocatedAt, Sum, TradedWith;
    forall i | 0 <= i < |level + rest| ensures AllocatedAt(e, level + rest, want, log + log', i) {
      if i < |level| {
        JoinFront(e, level, rest, want, log, log', i);
      } else {
        assert rest[i - |level|] in rest;
        JoinBack(e, level, f, rest, want, log, log', i - |level|);
      }
    }
  }

  lemma ShortBack(e: map<nat, Entry>, level: seq<nat>, rest: seq<nat>, want: nat, log: seq<Record>, j: nat)
    requires j < |rest| && want <= Sum(e, level) && rest[j] in e && TradedWith(log, rest[j]) == 0
    ensures AllocatedAt(e, level + rest, want, log, |level| + j)
  {
    assert (level + rest)[..|level| + j] == level + rest[..j];
    SumAppend(e, level, rest[..j]);
  }

  lemma AllocatedShort(e: map<nat, Entry>, level: seq<nat>, rest: seq<nat>, want: nat, log: seq<Record>)
    requires Allocated(e, level, want, log) && want <= Sum(e, level)
    requires forall x :: x in rest ==> x in e && TradedWith(log, x) == 0
    ensures Allocated(e, level + rest, want, log)
  {
    hide AllocatedAt, Sum;
    assert log + [] == log;
    forall i | 0 <= i < |level + rest| ensures AllocatedAt(e, level + rest, want, log, i) {
      if i < |level| {
        JoinFront(e, level, rest, want, log, [], i);
      } else {
        assert rest[i - |level|] in rest;
        ShortBack(e, level, rest, want, log, i - |level|);
      }
    }
  }

  lemma FrontAllocated(e: map<nat, Entry>, m: nat, want: nat, rec: Record)
    requires m in e && rec.RMatch? && rec.maker == m && rec.volume == Min(e[m].order.remain, want)
    ensures Allocated(e, [m], want, [rec]) && Sum(e, [m]) == e[m].order.remain
    ensures forall x :: x != m ==> TradedWith([rec], x) == 0
  {
    assert [rec] == [rec] + [];
    TradedCons(rec, []);
    assert [m][..0] == [];
  }

  lemma VolumePositive(e: map<nat, Entry>, m: nat)
    requires AllPositive(e) && m in e
    ensures e[m].order.remain > 0
  {
  }

  lemma FrontPositive(e: map<nat, Entry>, m: nat)
    requires AllPositive(e)
    ensures AllPositive(e - {m})
  {
  }

  /** First in, first served: one level is allocated by queue position alone. */
  lemma {:induction false} LevelExact(e: map<nat, Entry>, ids: seq<nat>, product: nat, price: nat, taker: Order,
                                      calls: nat)
    requires Present(e, ids) && Distinct(ids) && AllPositive(e)
    ensures var r := MatchLevel(PLAIN, e, ids, product, price, taker, calls);
            && Allocated(e, ids, taker.remain, r.log)
            && r.remain == Short(taker.remain, Sum(e, ids))
    decreases |ids|, taker.remain
  {
    var r := MatchLevel(PLAIN, e, ids, product, price, taker, calls);
    if ids == [] || taker.remain == 0 {
    } else {
      hide Allocated, AllPositive, Follows, Makers, Sum, TradedWith, MatchLevel;
      var m, tail := ids[0], ids[1..];
      assert e[m].order.remain > 0 by { VolumePositive(e, m); }
      var q := Min(e[m].order.remain, taker.remain);
      assert ids == [m] + tail && m !in tail;
      var left := taker.(remain := taker.remain - q);
      var rec := RMatch(m, taker.id, price, q, product);
      FrontAllocated(e, m, taker.remain, rec);
      SumAppend(e, [m], tail);
      if q == e[m].order.remain {
        var e' := e - {m};
        LevelDrops(PLAIN, e, ids, product, price, taker, calls, rec, left.remain);
        FrontPositive(e, m);
        LevelExact(e', tail, product, price, left, calls);
        var t := MatchLevel(PLAIN, e', tail, product, price, left, calls);
        LevelInOrder(PLAIN, e', tail, product, price, left, calls);
        Uninvolved(t.log, tail, m);
        SumSame(e, e', tail);
        AllocatedJoin(e, [m], e', tail, taker.remain, [rec], t.log);
      } else {
        LevelTakesPart(PLAIN, e, ids, product, price, taker, calls, q);
        AllocatedShort(e, [m], tail, taker.remain, [rec]);
      }
    }
  }

  /** The filled makers are a prefix of the FIFO queue; what stays is the rest of it, in order. */
  lemma {:induction false} LevelSuffix(e: map<nat, Entry>, ids: seq<nat>, product: nat, price: nat, taker: Order,
                                       calls: nat)
    requires Present(e, ids) && Distinct(ids) && AllPositive(e)
    ensures var r := MatchLevel(PLAIN, e, ids, product, price, taker, calls);
            && |r.ids| <= |ids| && r.ids == ids[|ids| - |r.ids|..]
            && (r.remain > 0 ==> r.ids == [])
    decreases |ids|
  {
    if ids != [] && taker.remain != 0 {
      var m, tail := ids[0], ids[1..];
      var q := Min(e[m].order.remain, taker.remain);
      if q == e[m].order.remain {
        LevelSuffix(e - {m}, tail, product, price, taker.(remain := taker.remain - q), calls);
      }
    }
  }

  /** The number of leading levels the taker's limit accepts. */
  function Crossing(e: map<nat, Entry>, levels: seq<seq<nat>>, taker: Order): (n: nat)
    ensures n <= |levels|
    ensures forall i :: 0 <= i < n ==> Crosses(taker, LevelPrice(e, levels[i]))
    ensures n < |levels| ==> !Crosses(taker, LevelPrice(e, levels[n]))
  {
    if levels == [] || !Crosses(taker, LevelPrice(e, levels[0])) then 0 else 1 + Crossing(e, levels[1..], taker)
  }

  lemma {:induction false} CrossingSame(e: map<nat, Entry>, f: map<nat, Entry>, levels: seq<seq<nat>>, taker: Order,
                                        remain: nat)
    requires forall i :: 0 <= i < |levels| ==> LevelPrice(e, levels[i]) == LevelPrice(f, levels[i])
    ensures Crossing(e, levels, taker) == Crossing(f, levels, taker.(remain := remain))
  {
    if levels != [] {
      assert forall i :: 0 <= i < |levels[1..]| ==> levels[1..][i] == levels[i + 1];
      CrossingSame(e, f, levels[1..], taker, remain);
    }
  }

  /** The crossing makers in price-time order. */
  function Queue(e: map<nat, Entry>, levels: seq<seq<nat>>, taker: Order): seq<nat> {
    Flat(levels[..Crossing(e, levels, taker)])
  }

  /** All of `xs` is on the levels behind the first and untouched by what the first level did. */
  lemma BehindFirst(e: map<nat, Entry>, levels: seq<seq<nat>>, e': map<nat, Entry>, ids': iset<nat>, log: seq<Record>,
                    xs: seq<nat>)
    requires SidePresent(e, levels) && levels != [] && Consumes(e, Ids(levels[0]), e', ids')
    requires Follows(Makers(log), levels[0])
    requires forall x :: x in xs ==> OnSide(levels[1..], x)
    ensures forall x :: x in xs ==> x in e && x in e' && e'[x] == e[x] && TradedWith(log, x) == 0 && x !in levels[0]
  {
    LevelApart(levels);
    forall x | x in xs ensures x in e && x in e' && e'[x] == e[x] && TradedWith(log, x) == 0 && x !in levels[0] {
      var i :| 0 <= i < |levels[1..]| && x in levels[1..][i];
      assert x in levels[i + 1];
      var j :| 0 <= j < |levels[i + 1]| && levels[i + 1][j] == x;
      assert x in SideIds(levels[1..]);
      assert x !in Ids(levels[0]);
      Uninvolved(log, levels[0], x);
    }
  }

  lemma {:induction false} FlatPrefixIn(levels: seq<seq<nat>>, n: nat)
    requires n <= |levels|
    ensures forall x :: x in Flat(levels[..n]) ==> OnSide(levels, x)
  {
    forall x | x in Flat(levels[..n]) ensures OnSide(levels, x) {
      FlatIn(levels[..n], x);
      var i :| 0 <= i < |levels[..n]| && x in levels[..n][i];
      assert x in levels[i];
    }
  }

  lemma QueueCons(e: map<nat, Entry>, levels: seq<seq<nat>>, taker: Order)
    requires levels != [] && Crosses(taker, LevelPrice(e, levels[0]))
    ensures Queue(e, levels, taker) == levels[0] + Queue(e, levels[1..], taker)
    ensures forall x :: x in Queue(e, levels[1..], taker) ==> OnSide(levels[1..], x)
  {
    var rest := levels[1..];
    var n := Crossing(e, rest, taker);
    assert levels[..n + 1][0] == levels[0] && levels[..n + 1][1..] == rest[..n];
    FlatPrefixIn(rest, n);
  }

  /**
   Without callbacks a side is allocated strictly by price-time priority: the crossing maker with
   volume `ahead` queued before it trades min(its remaining volume, what the taker still wants
   after `ahead`), and the taker keeps what the crossing makers cannot cover.
   */
  lemma {:induction false} SideExact(e: map<nat, Entry>, k: nat, levels: seq<seq<nat>>, product: nat, taker: Order,
                                     calls: nat)
    requires SideOk(e, k, levels) && SidePresent(e, levels) && AllPositive(e) && taker.remain > 0
    ensures var r := MatchSide(PLAIN, e, levels, product, taker, calls);
            var queue := Queue(e, levels, taker);
            Allocated(e, queue, taker.remain, r.log) && r.remain == Short(taker.remain, Sum(e, queue))
    decreases |levels|
  {
    hide MatchLevel, Consumes, SidePresent, Allocated, SideOk, AllPositive, Follows, Makers, Sum;
    if levels == [] || !Crosses(taker, LevelPrice(e, levels[0])) {
      NothingQueued(e, levels, taker);
    } else {
      hide Queue;
      var rest, price := levels[1..], LevelPrice(e, levels[0]);
      var tail := Queue(e, rest, taker);
      QueueCons(e, levels, taker);
      FirstLevel(e, levels);
      var l := MatchLevel(PLAIN, e, levels[0], product, price, taker, calls);
      LevelExact(e, levels[0], product, price, taker, calls);
      LevelInOrder(PLAIN, e, levels[0], product, price, taker, calls);
      LevelConsumes(PLAIN, e, levels[0], product, price, taker, calls);
      BehindFirst(e, levels, l.e, Ids(l.ids), l.log, tail);
      SumAppend(e, levels[0], tail);
      if l.remain == 0 {
        AllocatedShort(e, levels[0], tail, taker.remain, l.log);
      } else {
        var left := taker.(remain := l.remain);
        LevelPositive(PLAIN, e, levels[0], product, price, taker, calls);
        RestPresent(e, levels, l.e, Ids(l.ids));
        RestOk(e, k, levels, l.e, Ids(l.ids));
        SideExact(l.e, k, rest, product, left, l.calls);
        SideInOrder(PLAIN, l.e, rest, product, left, l.calls);
        var t := MatchSide(PLAIN, l.e, rest, product, left, l.calls);
        QueueSame(e, l.e, rest, taker, l.remain);
        FirstUntouched(e, levels, t.log);
        AllocatedJoin(e, levels[0], l.e, tail, taker.remain, l.log, t.log);
        SumSame(e, l.e, tail);
      }
    }
  }

  lemma QueueSame(e: map<nat, Entry>, f: map<nat, Entry>, levels: seq<seq<nat>>, taker: Order, remain: nat)
    requires forall i :: 0 <= i < |levels| ==> LevelPrice(e, levels[i]) == LevelPrice(f, levels[i])
    ensures Queue(e, levels, taker) == Queue(f, levels, taker.(remain := remain))
  {
    CrossingSame(e, f, levels, taker, remain);
  }

  lemma NothingQueued(e: map<nat, Entry>, levels: seq<seq<nat>>, taker: Order)
    requires levels == [] || !Crosses(taker, LevelPrice(e, levels[0]))
    ensures Queue(e, levels, taker) == [] && Allocated(e, [], taker.remain, []) && Sum(e, []) == 0
  {
    assert levels[..0] == [];
  }

  lemma FirstUntouched(e: map<nat, Entry>, levels: seq<seq<nat>>, log: seq<Record>)
    requires levels != [] && SidePresent(e, levels)
    requires Follows(Makers(log), Flat(levels[1..]))
    ensures forall x :: x in levels[0] ==> TradedWith(log, x) == 0
  {
    LevelApart(levels);
    forall x | x in levels[0] ensures TradedWith(log, x) == 0 {
      assert x in Ids(levels[0]);
      assert x !in SideIds(levels[1..]);
      FlatIn(levels[1..], x);
      Uninvolved(log, Flat(levels[1..]), x);
    }
  }

  // --------------------------------------------------- same-org exclusion

  /** The callback that refuses the taker's own organisation and otherwise answers as `can` does. */
  function RefuseOwn(can: Option<CanMatch>): CanMatch {
    (calls: nat, m: Order, t: Order) =>
      if m.org == t.org then 0
      else if can.None? then UINT64_MAX
      else can.value(0, m, t)
  }

  /** The callback does not depend on how often it was asked. */
  ghost predicate Stateless(can: Option<CanMatch>) {
    can.None? || forall calls, m, t :: can.value(calls, m, t) == can.value(0, m, t)
  }

  ghost predicate U64(e: map<nat, Entry>) {
    forall id :: id in e ==> e[id].order.remain <= UINT64_MAX
  }

  /** Same order map, queue, remaining volume and log; only the number of callback calls may differ. */
  ghost predicate SameLevel(a: LevelOutcome, b: LevelOutcome) {
    a.e == b.e && a.ids == b.ids && a.remain == b.remain && a.log == b.log
  }

  lemma SameDecision(can: Option<CanMatch>, calls: nat, calls': nat, maker: Order, taker: Order)
    requires Stateless(can) && maker.remain > 0 && maker.remain <= UINT64_MAX
    ensures Decide(Policy(can, true), calls, maker, taker) ==
        Decide(Policy(Some(RefuseOwn(can)), false), calls', maker, taker)
    ensures Decide(Policy(can, true), calls, maker, taker) != Drop
  {
  }

  lemma {:induction false} ExcludeLevel(can: Option<CanMatch>, e: map<nat, Entry>, ids: seq<nat>, product: nat,
                                        price: nat, taker: Order, calls: nat, calls': nat)
    requires Present(e, ids) && Distinct(ids) && AllPositive(e) && U64(e) && Stateless(can)
    ensures SameLevel(MatchLevel(Policy(can, true), e, ids, product, price, taker, calls),
                      MatchLevel(Policy(Some(RefuseOwn(can)), false), e, ids, product, price, taker, calls'))
    decreases |ids|, taker.remain
  {
    if ids != [] && taker.remain != 0 {
      hide Stateless, U64, AllPositive, Decide, RefuseOwn;
      var m, tail := ids[0], ids[1..];
      var maker := e[m].order;
      var p, p' := Policy(can, true), Policy(Some(RefuseOwn(can)), false);
      var c := if Consults(p, maker, taker) then calls + 1 else calls;
      var c' := if Consults(p', maker, taker) then calls' + 1 else calls';
      VolumeOk(e, m);
      SameDecision(can, calls, calls', maker, taker);
      match Decide(p, calls, maker, taker)
      case Skip => ExcludeLevel(can, e, tail, product, price, taker, c, c');
      case Drop =>
      case CancelMaker =>
        StillOk(e, m, 0);
        ExcludeLevel(can, e - {m}, tail, product, price, taker, c, c');
      case CancelBoth =>
      case Trade(q) => ExcludeTrade(can, e, ids, product, price, taker, calls, calls', q);
    }
  }

  lemma {:induction false} ExcludeTrade(can: Option<CanMatch>, e: map<nat, Entry>, ids: seq<nat>, product: nat,
                                        price: nat, taker: Order, calls: nat, calls': nat, q: nat)
    requires Present(e, ids) && Distinct(ids) && AllPositive(e) && U64(e) && Stateless(can) && ids != [] &&
        taker.remain != 0
    requires Decide(Policy(can, true), calls, e[ids[0]].order, taker) == Trade(q)
    requires Decide(Policy(Some(RefuseOwn(can)), false), calls', e[ids[0]].order, taker) == Trade(q)
    ensures SameLevel(MatchLevel(Policy(can, true), e, ids, product, price, taker, calls),
                      MatchLevel(Policy(Some(RefuseOwn(can)), false), e, ids, product, price, taker, calls'))
    decreases |ids|, taker.remain, 0
  {
    hide Stateless, U64, AllPositive, Decide, RefuseOwn, MatchLevel, Consults, Distinct;
    var m, tail := ids[0], ids[1..];
    var maker := e[m].order;
    var p, p' := Policy(can, true), Policy(Some(RefuseOwn(can)), false);
    var c := if Consults(p, maker, taker) then calls + 1 else calls;
    var c' := if Consults(p', maker, taker) then calls' + 1 else calls';
    var left := taker.(remain := taker.remain - q);
    StillOk(e, m, q);
    var rec := RMatch(m, taker.id, price, q, product);
    if q == maker.remain {
      LevelDrops(p, e, ids, product, price, taker, calls, rec, left.remain);
      LevelDrops(p', e, ids, product, price, taker, calls', rec, left.remain);
      ExcludeLevel(can, e - {m}, tail, product, price, left, c, c');
    } else {
      LevelTakesPart(p, e, ids, product, price, taker, calls, q);
      LevelTakesPart(p', e, ids, product, price, taker, calls', q);
    }
    if q != maker.remain && left.remain != 0 {
      ExcludeLevel(can, SetRemain(e, m, maker.remain - q), ids, product, price, left, c, c');
    }
  }

  lemma VolumeOk(e: map<nat, Entry>, m: nat)
    requires AllPositive(e) && U64(e) && m in e
    ensures 0 < e[m].order.remain <= UINT64_MAX
  {
  }

  lemma StillOk(e: map<nat, Entry>, m: nat, q: nat)
    requires AllPositive(e) && U64(e) && m in e && q <= e[m].order.remain
    ensures AllPositive(e - {m}) && U64(e - {m})
    ensures q < e[m].order.remain ==>
        AllPositive(SetRemain(e, m, e[m].order.remain - q)) && U64(SetRemain(e, m, e[m].order.remain - q))
  {
  }

  lemma ConsumedOk(e: map<nat, Entry>, ids: iset<nat>, e': map<nat, Entry>, ids': iset<nat>)
    requires U64(e) && Consumes(e, ids, e', ids')
    ensures U64(e')
  {
  }

  /**
   Excluding the taker's own organisation gives the same trades and the same book as asking a
   callback that answers 0 for its makers.
   */
  lemma {:induction false} ExcludeSide(can: Option<CanMatch>, e: map<nat, Entry>, levels: seq<seq<nat>>, product: nat,
                                       taker: Order, calls: nat, calls': nat)
    requires SidePresent(e, levels) && AllPositive(e) && U64(e) && Stateless(can)
    ensures var a := MatchSide(Policy(can, true), e, levels, product, taker, calls);
            var b := MatchSide(Policy(Some(RefuseOwn(can)), false), e, levels, product, taker, calls');
            a.e == b.e && a.levels == b.levels && a.remain == b.remain && a.log == b.log
    decreases |levels|
  {
    hide MatchLevel, Consumes, SidePresent, Stateless, U64, AllPositive;
    if !(levels == [] || taker.remain == 0 || !Crosses(taker, LevelPrice(e, levels[0]))) {
      var rest, price := levels[1..], LevelPrice(e, levels[0]);
      var p, p' := Policy(can, true), Policy(Some(RefuseOwn(can)), false);
      FirstLevel(e, levels);
      var l := MatchLevel(p, e, levels[0], product, price, taker, calls);
      var l' := MatchLevel(p', e, levels[0], product, price, taker, calls');
      ExcludeLevel(can, e, levels[0], product, price, taker, calls, calls');
      LevelConsumes(p, e, levels[0], product, price, taker, calls);
      LevelPositive(p, e, levels[0], product, price, taker, calls);
      RestPresent(e, levels, l.e, Ids(l.ids));
      ConsumedOk(e, Ids(levels[0]), l.e, Ids(l.ids));
      if l.remain != 0 {
        ExcludeSide(can, l.e, rest, product, taker.(remain := l.remain), l.calls, l'.calls);
      }
    }
  }

  // ------------------------------------------------------ no crossed book

  /** A taker that still wants volume has exhausted every maker its limit accepts. */
  lemma PlainExhausts(e: map<nat, Entry>, k: nat, levels: seq<seq<nat>>, product: nat, taker: Order, calls: nat)
    requires SideOk(e, k, levels) && SidePresent(e, levels) && Named(e) && KeyIsBid(k) == !taker.flags.bid
    ensures var r := MatchSide(PLAIN, e, levels, product, taker, calls);
            r.remain > 0 ==> forall id :: OnSide(r.levels, id) ==> id in r.e && !Crosses(taker, r.e[id].order.price)
  {
    hide MatchSide, WalkQueue, Through, Genuine, Current, SideOk, SidePresent;
    SideVisits(PLAIN, e, k, levels, product, taker, calls);
    var r, visits := MatchSide(PLAIN, e, levels, product, taker, calls),
        WalkQueue(PLAIN, e, Flat(levels), product, taker, calls).visits;
    PlainSkipsNobody(taker, calls, visits);
    forall id | r.remain > 0 && OnSide(r.levels, id) ensures id in r.e && !Crosses(taker, r.e[id].order.price) {
      FlatIn(r.levels, id);
      var i :| 0 <= i < |Flat(r.levels)| && Flat(r.levels)[i] == id;
      assert Ahead(visits, Flat(levels))[i] == id;
    }
  }
}
