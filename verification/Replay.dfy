/**
 Recovery from the write-ahead log, and the theorem that it rebuilds the live book: what the
 engine does to the book, what it logs, and what replaying the log does to an empty book.
 */
module Replay {
  import opened Common
  import opened Book
  import opened Matching

  const UINT32_MAX: nat := 0xFFFF_FFFF

  /** `max_products`, `max_org` and the slab's slot count. */
  datatype Config = Config(products: nat, orgs: nat, slots: nat)

  datatype Recovered = Recovered(book: Book, nextId: nat)

  /**
   `Failed` is an error return of recovery. `Corrupts` marks a step at which recovery writes
   through the links of an order that is not in any queue (see CancelEffect).
   */
  datatype Replayed = Ok(state: Recovered) | Failed | Corrupts

  /** The order id counter skips past a logged id; 0 means exhausted. */
  function Bump(next: nat, id: nat): nat {
    if next != 0 && id >= next then (if id == UINT32_MAX then 0 else id + 1) else next
  }

  // ------------------------------------------------------------ one record

  /** The level at a deactivated order's price, if any. */
  function PeersOf(b: Book, id: nat): (n: nat)
    requires id in b.entries && KeyOf(b.entries[id]) < |b.ladder|
  {
    var k, price := KeyOf(b.entries[id]), b.entries[id].order.price;
    if LevelExists(b.entries, k, b.ladder[k], price)
    then |b.ladder[k][Better(b.entries, k, b.ladder[k], Rank(k, price))]| else 0
  }

  /**
   Cancelling by id. A resting order is removed. A deactivated order is in no queue: with no level
   at its price nothing happens, with a single peer only the order is dropped, and with two or
   more peers the peers' tail link is overwritten (None).
   */
  function CancelEffect(b: Book, id: nat): (r: Option<Book>)
    requires id in b.entries ==> KeyOf(b.entries[id]) < |b.ladder|
  {
    if id !in b.entries then Some(b)
    else if Linked(b, id) then Some(Remove(b, id))
    else if PeersOf(b, id) == 0 then Some(b)
    else if PeersOf(b, id) == 1 then Some(b.(entries := b.entries - {id}))
    else None
  }

  function DeactivateEffect(b: Book, id: nat): (r: Option<Book>)
    requires id in b.entries ==> KeyOf(b.entries[id]) < |b.ladder|
  {
    if id !in b.entries then Some(b)
    else if Linked(b, id) then Some(Deactivate(b, id))
    else if PeersOf(b, id) < 2 then Some(b)
    else None
  }

  predicate KeysOk(b: Book) { forall id :: id in b.entries ==> KeyOf(b.entries[id]) < |b.ladder| }

  function Lift(b: Option<Book>, next: nat): Replayed {
    match b case Some(b) => Ok(Recovered(b, next)) case None => Corrupts
  }

  /** One iteration of the recovery loop. */
  function Step(c: Config, s: Recovered, r: Record): Replayed
  {
    var b := s.book;
    if !KeysOk(b) then Corrupts else
    match r
    case RInsert(product, o) =>
      if product >= c.products || o.org >= c.orgs || o.id == 0 then Failed
      else if |b.entries| >= c.slots then Failed
      else if o.id in b.entries then Failed
      else if Key(product, IsBid(o.flags)) >= |b.ladder| then Failed
      else Ok(Recovered(Insert(b, product, o), Bump(s.nextId, o.id)))
    case RCancel(id) => Lift(CancelEffect(b, id), s.nextId)
    case RMatch(maker, taker, _, volume, _) =>
      if maker == 0 || taker == 0 || volume == 0 then Failed
      else
        var next := Bump(s.nextId, if maker > taker then maker else taker);
        if maker !in b.entries || b.entries[maker].order.remain < volume then Failed
        else
          var left := b.entries[maker].order.remain - volume;
          var b' := b.(entries := SetRemain(b.entries, maker, left));
          if left == 0 then Lift(CancelEffect(b', maker), next) else Ok(Recovered(b', next))
    case RDeactivate(id) => Lift(DeactivateEffect(b, id), s.nextId)
    case RActivate(id) =>
      if id in b.entries && Parked(b.entries[id].order.flags)
      then Ok(s.(book := b.(entries := b.entries - {id}))) else Ok(s)
  }

  function Replay(c: Config, s: Recovered, log: seq<Record>): Replayed
    decreases |log|
  {
    if log == [] then Ok(s)
    else
      match Step(c, s, log[0])
      case Ok(s') => Replay(c, s', log[1..])
      case Failed => Failed
      case Corrupts => Corrupts
  }

  function Start(c: Config): Recovered { Recovered(EmptyBook(c.products), 1) }

  lemma {:induction false} ReplayAppend(c: Config, s: Recovered, a: seq<Record>, b: seq<Record>)
    requires Replay(c, s, a).Ok?
    ensures Replay(c, s, a + b) == Replay(c, Replay(c, s, a).state, b)
    decreases |a|
  {
    if a == [] {
      assert a + b == b;
    } else {
      assert (a + b)[0] == a[0] && (a + b)[1..] == a[1..] + b;
      ReplayAppend(c, Step(c, s, a[0]).state, a[1..], b);
    }
  }

  lemma ReplayCons(c: Config, s: Recovered, r: Record, log: seq<Record>)
    requires Step(c, s, r).Ok?
    ensures Replay(c, s, [r] + log) == Replay(c, Step(c, s, r).state, log)
  {
    assert ([r] + log)[1..] == log;
  }

  /** The record with a name for a taker that has no id. */
  function Sign(r: Record): Record { if r.RMatch? then r.(taker := Name(r.taker)) else r }

  function Name(taker: nat): nat { if taker == 0 then 1 else taker }

  function Signed(log: seq<Record>): (r: seq<Record>)
    ensures |r| == |log| && forall i :: 0 <= i < |log| ==> r[i] == Sign(log[i])
  {
    seq(|log|, i requires 0 <= i < |log| => Sign(log[i]))
  }

  /** Every trade in the log has a taker with an id. */
  predicate Traceable(log: seq<Record>) { forall i :: 0 <= i < |log| && log[i].RMatch? ==> log[i].taker != 0 }

  lemma SignedCons(r: Record, log: seq<Record>)
    ensures Signed([r] + log) == [Sign(r)] + Signed(log)
  {
  }

  lemma SignedAppend(a: seq<Record>, b: seq<Record>)
    ensures Signed(a + b) == Signed(a) + Signed(b)
  {
  }

  /** Where a signed log can be replayed, the log itself can exactly if it is traceable, and fails otherwise. */
  lemma {:induction false} ReplaySigned(c: Config, s: Recovered, log: seq<Record>)
    requires Replay(c, s, Signed(log)).Ok?
    ensures Replay(c, s, log) == if Traceable(log) then Replay(c, s, Signed(log)) else Failed
    decreases |log|
  {
    if log != [] {
      var r, rest := log[0], log[1..];
      assert log == [r] + rest;
      SignedCons(r, rest);
      assert Signed(log)[0] == Sign(r) && Signed(log)[1..] == Signed(rest);
      assert Traceable(log) <==> (r.RMatch? ==> r.taker != 0) && Traceable(rest);
      if r.RMatch? && r.taker == 0 {
        assert Step(c, s, r) == Failed;
      } else {
        ReplaySigned(c, Step(c, s, r).state, rest);
      }
    }
  }

  /** The counter after a log depends on the ids in it alone. */
  function NextAfter(next: nat, log: seq<Record>): nat
    decreases |log|
  {
    if log == [] then next
    else
      var n := match log[0]
               case RInsert(_, o) => Bump(next, o.id)
               case RMatch(maker, taker, _, _, _) => Bump(next, if maker > taker then maker else taker)
               case _ => next;
      NextAfter(n, log[1..])
  }

  lemma NextAfterCons(next: nat, r: Record, log: seq<Record>)
    ensures NextAfter(next, [r] + log) == NextAfter(NextAfter(next, [r]), log)
  {
    assert ([r] + log)[1..] == log;
    assert [r][1..] == [];
  }

  lemma {:induction false} NextAfterAppend(next: nat, a: seq<Record>, b: seq<Record>)
    ensures NextAfter(next, a + b) == NextAfter(NextAfter(next, a), b)
    decreases |a|
  {
    if a == [] {
      assert a + b == b;
    } else {
      assert (a + b)[0] == a[0] && (a + b)[1..] == a[1..] + b;
      NextAfterAppend(NextAfter(next, [a[0]]), a[1..], b);
      assert a == [a[0]] + a[1..];
      NextAfterCons(next, a[0], a[1..]);
      assert a + b == [a[0]] + (a[1..] + b);
      NextAfterCons(next, a[0], a[1..] + b);
    }
  }

  // ------------------------------------------------------- one level, live

  /** Facts about the order at the front of the part of a level still to be visited. */
  lemma FrontMaker(b: Book, k: nat, pre: seq<seq<nat>>, a: seq<nat>, m: nat, tail: seq<nat>, post: seq<seq<nat>>)
    requires Wf(b) && k < |b.ladder| && b.ladder[k] == pre + Glue(a + ([m] + tail), post)
    ensures m in b.entries && KeyOf(b.entries[m]) == k && Linked(b, m)
    ensures Remove(b, m) == Book(b.entries - {m}, b.ladder[k := pre + Glue(a + tail, post)])
  {
    var levels := b.ladder[k];
    var level := a + [m] + tail;
    assert a + ([m] + tail) == level;
    assert levels == pre + [level] + post;
    assert levels[|pre|] == level && level[|a|] == m;
    assert m in levels[|pre|];
    OnSideKey(b, k, m);
    assert SideOk(b.entries, k, levels);
    assert LevelOk(b.entries, k, levels[|pre|]);
    assert m !in a by {
      assert forall j :: 0 <= j < |a| ==> a[j] == level[j];
    }
    forall i | 0 <= i < |pre| ensures m !in pre[i] {
      assert pre[i] == levels[i];
      LevelsDisjoint(b.entries, k, levels, i, |pre|, m);
    }
    RemoveIdAt(pre, a, m, tail, post);
  }

  lemma StepTrade(c: Config, s: Recovered, m: nat, taker: nat, price: nat, q: nat, product: nat)
    requires Wf(s.book) && Linked(s.book, m) && taker != 0
    requires 0 < q <= s.book.entries[m].order.remain
    ensures Step(c, s, RMatch(m, taker, price, q, product))
            == Ok(Recovered(Fill(s.book, m, q), NextAfter(s.nextId, [RMatch(m, taker, price, q, product)])))
  {
    var b := s.book;
    var left := b.entries[m].order.remain - q;
    var b' := b.(entries := SetRemain(b.entries, m, left));
    assert [RMatch(m, taker, price, q, product)][1..] == [];
    if left == 0 {
      assert Linked(b', m);
      assert b'.entries - {m} == b.entries - {m};
      assert Remove(b', m) == Remove(b, m);
      assert forall id :: id in b'.entries ==> KeyOf(b'.entries[id]) == KeyOf(b.entries[id]);
    }
  }

  lemma StepCancel(c: Config, s: Recovered, m: nat)
    requires Wf(s.book) && Linked(s.book, m)
    ensures Step(c, s, RCancel(m)) == Ok(Recovered(Remove(s.book, m), s.nextId))
  {
  }

  lemma PositiveKept(b: Book, m: nat, q: nat)
    requires AllPositive(b.entries) &&
        m in b.entries && KeyOf(b.entries[m]) < |b.ladder| && q <= b.entries[m].order.remain
    ensures AllPositive(Remove(b, m).entries) && AllPositive(Fill(b, m, q).entries)
  {
  }

  /** The book in which the level `a + ids` of side `k` is being consumed from `ids[0]` on. */
  ghost predicate AtLevel(b: Book, k: nat, pre: seq<seq<nat>>, a: seq<nat>, ids: seq<nat>, post: seq<seq<nat>>) {
    Wf(b) && AllPositive(b.entries) && k < |b.ladder| && b.ladder[k] == pre + Glue(a + ids, post)
  }

  lemma AtLevelPresent(b: Book, k: nat, pre: seq<seq<nat>>, a: seq<nat>, ids: seq<nat>, post: seq<seq<nat>>)
    requires AtLevel(b, k, pre, a, ids, post)
    ensures Present(b.entries, ids) && Distinct(ids)
  {
    if ids != [] {
      assert b.ladder[k][|pre|] == a + ids;
      assert SideOk(b.entries, k, b.ladder[k]);
      assert LevelOk(b.entries, k, b.ladder[k][|pre|]);
      assert forall j :: 0 <= j < |ids| ==> ids[j] == (a + ids)[|a| + j];
    }
  }

  /** What is left of the book once a level has been worked on. */
  ghost function LevelDone(b: Book, k: nat, pre: seq<seq<nat>>, a: seq<nat>, e: map<nat, Entry>, ids: seq<nat>,
                           post: seq<seq<nat>>): Book
    requires k < |b.ladder|
  {
    Book(e, b.ladder[k := pre + Glue(a + ids, post)])
  }

  /** Replaying the signed log does to the book what was done live. */
  ghost predicate Rebuilds(c: Config, b: Book, next: nat, log: seq<Record>, after: Book) {
    Replay(c, Recovered(b, next), Signed(log)) == Ok(Recovered(after, NextAfter(next, Signed(log))))
  }

  lemma LevelUntouched(b: Book, k: nat, pre: seq<seq<nat>>, a: seq<nat>, ids: seq<nat>, post: seq<seq<nat>>)
    requires AtLevel(b, k, pre, a, ids, post)
    ensures LevelDone(b, k, pre, a, b.entries, ids, post) == b
  {
  }

  lemma RebuildsNothing(c: Config, b: Book, next: nat)
    ensures Rebuilds(c, b, next, [], b)
  {
  }

  lemma RebuildsCons(c: Config, b: Book, next: nat, r: Record, mid: Book, log: seq<Record>, after: Book)
    requires Step(c, Recovered(b, next), Sign(r)) == Ok(Recovered(mid, NextAfter(next, [Sign(r)])))
    requires Rebuilds(c, mid, NextAfter(next, [Sign(r)]), log, after)
    ensures Rebuilds(c, b, next, [r] + log, after)
  {
    SignedCons(r, log);
    ReplayCons(c, Recovered(b, next), Sign(r), Signed(log));
    NextAfterCons(next, Sign(r), Signed(log));
  }

  lemma RebuildsAppend(c: Config, b: Book, next: nat, l1: seq<Record>, mid: Book, l2: seq<Record>, after: Book)
    requires Rebuilds(c, b, next, l1, mid) && Rebuilds(c, mid, NextAfter(next, Signed(l1)), l2, after)
    ensures Rebuilds(c, b, next, l1 + l2, after)
  {
    SignedAppend(l1, l2);
    ReplayAppend(c, Recovered(b, next), Signed(l1), Signed(l2));
    NextAfterAppend(next, Signed(l1), Signed(l2));
  }

  /** Replaying what one level logged does to the book what matching did. */
  lemma {:induction false} ReplayLevel(c: Config, b: Book, next: nat, p: Policy, k: nat, pre: seq<seq<nat>>,
                                       a: seq<nat>, ids: seq<nat>,
                                       post: seq<seq<nat>>, product: nat, price: nat, taker: Order, calls: nat)
    requires AtLevel(b, k, pre, a, ids, post)
    requires Present(b.entries, ids) && Distinct(ids)
    ensures var r := MatchLevel(p, b.entries, ids, product, price, taker, calls);
            var after := LevelDone(b, k, pre, a, r.e, r.ids, post);
            Rebuilds(c, b, next, r.log, after) && Wf(after) && AllPositive(after.entries)
    decreases |ids|, taker.remain
  {
    hide Wf, Rebuilds, LevelDone;
    var r := MatchLevel(p, b.entries, ids, product, price, taker, calls);
    if ids == [] || taker.remain == 0 {
      LevelUntouched(b, k, pre, a, ids, post);
      RebuildsNothing(c, b, next);
    } else {
      var m, tail := ids[0], ids[1..];
      var maker := b.entries[m].order;
      var calls' := if Consults(p, maker, taker) then calls + 1 else calls;
      assert maker.remain > 0;
      match Decide(p, calls, maker, taker)
      case Skip =>
        LevelSkipStep(c, b, next, p, k, pre, a, ids, post, product, price, taker, calls');
      case Drop =>
      case CancelMaker =>
        LevelDropStep(c, b, next, p, k, pre, a, ids, post, product, price, taker, calls', RCancel(m), taker.remain);
      case CancelBoth =>
        LevelHaltStep(c, b, next, k, pre, a, ids, post);
      case Trade(q) =>
        if q == maker.remain {
          LevelDropStep(c, b, next, p, k, pre, a, ids, post, product, price, taker, calls',
                        RMatch(m, taker.id, price, q, product), taker.remain - q);
        } else {
          var rec := RMatch(m, taker.id, price, q, product);
          assert [rec] + [] == [rec];
          LevelKeepStep(c, b, next, p, k, pre, a, ids, post, product, price, taker, calls', q);
        }
    }
  }

  lemma {:induction false} LevelSkipStep(c: Config, b: Book, next: nat, p: Policy, k: nat, pre: seq<seq<nat>>,
                                         a: seq<nat>, ids: seq<nat>,
                                         post: seq<seq<nat>>, product: nat, price: nat, taker: Order, calls: nat)
    requires AtLevel(b, k, pre, a, ids, post) && ids != []
    requires Present(b.entries, ids) && Distinct(ids)
    ensures var r := MatchLevel(p, b.entries, ids[1..], product, price, taker, calls);
            var after := LevelDone(b, k, pre, a, r.e, [ids[0]] + r.ids, post);
            Rebuilds(c, b, next, r.log, after) && Wf(after) && AllPositive(after.entries)
    decreases |ids|, taker.remain, 0
  {
    hide Wf, AllPositive, Rebuilds, MatchLevel, Glue;
    var a', tail := a + [ids[0]], ids[1..];
    assert a + ids == a' + tail;
    ReplayLevel(c, b, next, p, k, pre, a', tail, post, product, price, taker, calls);
    var r := MatchLevel(p, b.entries, tail, product, price, taker, calls);
    assert a + ([ids[0]] + r.ids) == a' + r.ids;
    assert LevelDone(b, k, pre, a', r.e, r.ids, post) == LevelDone(b, k, pre, a, r.e, [ids[0]] + r.ids, post);
  }

  lemma LevelHaltStep(c: Config, b: Book, next: nat, k: nat, pre: seq<seq<nat>>, a: seq<nat>, ids: seq<nat>,
                      post: seq<seq<nat>>)
    requires AtLevel(b, k, pre, a, ids, post) && ids != []
    requires Present(b.entries, ids) && Distinct(ids)
    ensures var after := LevelDone(b, k, pre, a, b.entries - {ids[0]}, ids[1..], post);
            Rebuilds(c, b, next, [RCancel(ids[0])], after) && Wf(after) && AllPositive(after.entries)
  {
    hide Wf, Rebuilds, Step, Remove, OnSide;
    var m, tail := ids[0], ids[1..];
    assert ids == [m] + tail;
    FrontMaker(b, k, pre, a, m, tail, post);
    var mid := Remove(b, m);
    StepCancel(c, Recovered(b, next), m);
    RemoveWf(b, m);
    PositiveKept(b, m, 0);
    RebuildsNothing(c, mid, NextAfter(next, [RCancel(m)]));
    assert [RCancel(m)] == [RCancel(m)] + [];
    RebuildsCons(c, b, next, RCancel(m), mid, [], mid);
  }

  /** A record that removes the front maker, followed by the rest of the queue. */
  lemma {:induction false} LevelDropStep(c: Config, b: Book, next: nat, p: Policy, k: nat, pre: seq<seq<nat>>,
                                         a: seq<nat>, ids: seq<nat>,
                        post: seq<seq<nat>>, product: nat, price: nat, taker: Order, calls: nat, rec: Record,
                            remain: nat)
    requires AtLevel(b, k, pre, a, ids, post) && ids != []
    requires Present(b.entries, ids) && Distinct(ids) && remain <= taker.remain
    requires rec == RCancel(ids[0])
             || (rec == RMatch(ids[0], taker.id, price, b.entries[ids[0]].order.remain, product) &&
                 remain < taker.remain)
    ensures Present(b.entries - {ids[0]}, ids[1..]) && Distinct(ids[1..])
    ensures var r := MatchLevel(p, b.entries - {ids[0]}, ids[1..], product, price, taker.(remain := remain), calls);
            var after := LevelDone(b, k, pre, a, r.e, r.ids, post);
            Rebuilds(c, b, next, [rec] + r.log, after) && Wf(after) && AllPositive(after.entries)
    decreases |ids|, taker.remain, 0
  {
    hide Wf;
    var m, tail := ids[0], ids[1..];
    var maker := b.entries[m].order;
    assert ids == [m] + tail;
    FrontMaker(b, k, pre, a, m, tail, post);
    var mid := Remove(b, m);
    RemoveWf(b, m);
    PositiveKept(b, m, 0);
    if rec.RCancel? {
      StepCancel(c, Recovered(b, next), m);
    } else {
      StepTrade(c, Recovered(b, next), m, Name(taker.id), price, maker.remain, product);
    }
    AtLevelPresent(mid, k, pre, a, tail, post);
    ReplayLevel(c, mid, NextAfter(next, [Sign(rec)]), p, k, pre, a, tail, post, product, price,
        taker.(remain := remain),
        calls);
    var r := MatchLevel(p, mid.entries, tail, product, price, taker.(remain := remain), calls);
    assert LevelDone(mid, k, pre, a, r.e, r.ids, post) == LevelDone(b, k, pre, a, r.e, r.ids, post);
    RebuildsCons(c, b, next, rec, mid, r.log, LevelDone(b, k, pre, a, r.e, r.ids, post));
  }

  /** A partial fill of the front maker, then the same maker again. */
  lemma {:induction false} LevelKeepStep(c: Config, b: Book, next: nat, p: Policy, k: nat, pre: seq<seq<nat>>,
                                         a: seq<nat>, ids: seq<nat>,
                        post: seq<seq<nat>>, product: nat, price: nat, taker: Order, calls: nat, q: nat)
    requires AtLevel(b, k, pre, a, ids, post) && ids != []
    requires Present(b.entries, ids) && Distinct(ids)
    requires 0 < q < b.entries[ids[0]].order.remain && q <= taker.remain
    ensures var rec := RMatch(ids[0], taker.id, price, q, product);
            var e' := SetRemain(b.entries, ids[0], b.entries[ids[0]].order.remain - q);
            var left := taker.(remain := taker.remain - q);
            var r := if left.remain == 0 then LevelOutcome(e', ids, 0, calls, [])
                else MatchLevel(p, e', ids, product, price, left, calls);
            var after := LevelDone(b, k, pre, a, r.e, r.ids, post);
            Rebuilds(c, b, next, [rec] + r.log, after) && Wf(after) && AllPositive(after.entries)
    decreases |ids|, taker.remain, 0
  {
    hide Wf;
    var m, tail := ids[0], ids[1..];
    var maker := b.entries[m].order;
    assert ids == [m] + tail;
    FrontMaker(b, k, pre, a, m, tail, post);
    var rec := RMatch(m, taker.id, price, q, product);
    var mid := Fill(b, m, q);
    FillWf(b, m, q);
    PositiveKept(b, m, q);
    StepTrade(c, Recovered(b, next), m, Name(taker.id), price, q, product);
    var left := taker.(remain := taker.remain - q);
    if left.remain == 0 {
      assert LevelDone(b, k, pre, a, mid.entries, ids, post) == mid;
      RebuildsCons(c, b, next, rec, mid, [], mid);
    } else {
      ReplayLevel(c, mid, NextAfter(next, [Sign(rec)]), p, k, pre, a, ids, post, product, price, left, calls);
      var r := MatchLevel(p, mid.entries, ids, product, price, left, calls);
      assert LevelDone(mid, k, pre, a, r.e, r.ids, post) == LevelDone(b, k, pre, a, r.e, r.ids, post);
      RebuildsCons(c, b, next, rec, mid, r.log, LevelDone(b, k, pre, a, r.e, r.ids, post));
    }
  }

  // -------------------------------------------------------- one side, live

  lemma SideOkPresent(e: map<nat, Entry>, k: nat, levels: seq<seq<nat>>)
    requires SideOk(e, k, levels)
    ensures SidePresent(e, levels)
  {
    forall i | 0 <= i < |levels| ensures LevelOk(e, k, levels[i]) { }
    forall i, j, x | 0 <= i < j < |levels| && x in levels[i] ensures x !in levels[j] {
      LevelsDisjoint(e, k, levels, i, j, x);
    }
  }

  lemma SuffixPresent(b: Book, k: nat, pre: seq<seq<nat>>, levels: seq<seq<nat>>)
    requires Wf(b) && k < |b.ladder| && b.ladder[k] == pre + levels
    ensures SidePresent(b.entries, levels)
  {
    assert SideOk(b.entries, k, b.ladder[k]);
    assert forall i :: 0 <= i < |levels| ==> levels[i] == b.ladder[k][|pre| + i];
    assert SideOk(b.entries, k, levels);
    SideOkPresent(b.entries, k, levels);
  }

  ghost function SideDone(b: Book, k: nat, pre: seq<seq<nat>>, e: map<nat, Entry>, levels: seq<seq<nat>>): Book
    requires k < |b.ladder|
  {
    Book(e, b.ladder[k := pre + levels])
  }

  lemma HeadLevel(b: Book, k: nat, pre: seq<seq<nat>>, levels: seq<seq<nat>>)
    requires Wf(b) && AllPositive(b.entries) && k < |b.ladder| && b.ladder[k] == pre + levels && levels != []
    requires SidePresent(b.entries, levels)
    ensures AtLevel(b, k, pre, [], levels[0], levels[1..])
    ensures Present(b.entries, levels[0]) && Distinct(levels[0])
  {
    hide Wf;
    assert levels == [levels[0]] + levels[1..];
    assert [] + levels[0] == levels[0];
  }

  lemma GluePrefix(pre: seq<seq<nat>>, ids: seq<nat>, rest: seq<seq<nat>>)
    ensures (pre + Glue(ids, [])) + rest == pre + Glue(ids, rest)
    ensures [] + ids == ids
  {
  }

  /** Replaying what a whole side logged does to the book what matching did. */
  lemma {:induction false} ReplaySide(c: Config, b: Book, next: nat, p: Policy, k: nat, pre: seq<seq<nat>>,
                                      levels: seq<seq<nat>>,
                                      product: nat, taker: Order, calls: nat)
    requires Wf(b) && AllPositive(b.entries) && k < |b.ladder| && b.ladder[k] == pre + levels
    requires SidePresent(b.entries, levels)
    ensures var r := MatchSide(p, b.entries, levels, product, taker, calls);
            var after := SideDone(b, k, pre, r.e, r.levels);
            Rebuilds(c, b, next, r.log, after) && Wf(after) && AllPositive(after.entries)
    decreases |levels|
  {
    hide Wf, Rebuilds, SidePresent, MatchLevel, Glue, OnSide;
    var r := MatchSide(p, b.entries, levels, product, taker, calls);
    if levels == [] || taker.remain == 0 || !Crosses(taker, LevelPrice(b.entries, levels[0])) {
      assert SideDone(b, k, pre, b.entries, levels) == b;
      RebuildsNothing(c, b, next);
    } else {
      var rest := levels[1..];
      var price := LevelPrice(b.entries, levels[0]);
      HeadLevel(b, k, pre, levels);
      ReplayLevel(c, b, next, p, k, pre, [], levels[0], rest, product, price, taker, calls);
      var l := MatchLevel(p, b.entries, levels[0], product, price, taker, calls);
      var mid := LevelDone(b, k, pre, [], l.e, l.ids, rest);
      GluePrefix(pre, l.ids, rest);
      if l.remain == 0 {
        assert mid == SideDone(b, k, pre, r.e, r.levels);
      } else {
        var pre' := pre + Glue(l.ids, []);
        SuffixPresent(mid, k, pre', rest);
        ReplaySide(c, mid, NextAfter(next, Signed(l.log)), p, k, pre', rest, product, taker.(remain := l.remain),
            l.calls);
        var t := MatchSide(p, l.e, rest, product, taker.(remain := l.remain), l.calls);
        GluePrefix(pre, l.ids, t.levels);
        assert SideDone(mid, k, pre', t.e, t.levels) == SideDone(b, k, pre, r.e, r.levels);
        RebuildsAppend(c, b, next, l.log, mid, t.log, SideDone(b, k, pre, r.e, r.levels));
      }
    }
  }

  // ------------------------------------------------------ the live engine

  /** A live step: the book it leaves and the records it logs. */
  datatype Live = Live(book: Book, log: seq<Record>)

  /** The side a taker matches against. */
  function MakerKey(product: nat, taker: Order): nat { Key(product, !IsBid(taker.flags)) }

  /** Submitting a taker: match, then rest the remainder unless the pre-booking callback refuses. */
  ghost function Submit(c: Config, b: Book, product: nat, taker: Order, p: Policy, book: bool): Live
    requires Wf(b) && product < c.products && |b.ladder| == 2 * c.products
  {
    if taker.remain == 0 then Live(b, [])
    else
      var k := MakerKey(product, taker);
      SideOkPresent(b.entries, k, b.ladder[k]);
      var r := MatchSide(p, b.entries, b.ladder[k], product, taker, 0);
      var mid := Book(r.e, b.ladder[k := r.levels]);
      if r.remain == 0 || !book || taker.org >= c.orgs || taker.id == 0 || taker.id in r.e then Live(mid, r.log)
      else
        var rest := taker.(remain := r.remain);
        Live(Insert(mid, product, rest), r.log + [RInsert(product, rest)])
  }

  datatype Op =
    | Match(product: nat, taker: Order, policy: Policy, book: bool)
    | Cancel(id: nat)
    | CancelMany(ids: seq<nat>)
    | DeactivateOp(id: nat)
    | ActivateOp(id: nat, policy: Policy, book: bool)

  /** The cases in which the book keeps its queues intact (see CancelEffect). */
  predicate CancelSafe(b: Book, id: nat)
    requires KeysOk(b)
  {
    id in b.entries && !Linked(b, id) ==> PeersOf(b, id) < 2
  }

  function CancelLive(b: Book, id: nat): Live
    requires KeysOk(b) && CancelSafe(b, id)
  {
    if id in b.entries then Live(CancelEffect(b, id).value, [RCancel(id)]) else Live(b, [])
  }

  ghost function CancelAll(b: Book, ids: seq<nat>): Live
    requires Wf(b) && forall i :: 0 <= i < |ids| ==> ids[i] in b.entries ==> Linked(b, ids[i])
    decreases |ids|
  {
    if ids == [] then Live(b, [])
    else
      var l := CancelLive(b, ids[0]);
      LinkedAfterCancel(b, ids[0]);
      var rest := CancelAll(l.book, ids[1..]);
      Live(rest.book, l.log + rest.log)
  }

  lemma LinkedAfterCancel(b: Book, id: nat)
    requires Wf(b) && (id in b.entries ==> Linked(b, id))
    ensures Wf(CancelLive(b, id).book)
    ensures forall x :: x in CancelLive(b, id).book.entries ==>
        x in b.entries && (Linked(CancelLive(b, id).book, x) <==> Linked(b, x))
  {
    if id in b.entries {
      RemoveWf(b, id);
      var b' := Remove(b, id);
      forall x | x in b'.entries ensures Linked(b', x) <==> Linked(b, x) {
        assert b'.entries[x] == b.entries[x];
      }
    }
  }

  /** What the engine leaves to its callers. */
  ghost predicate OpOk(c: Config, b: Book, op: Op)
    requires Wf(b)
  {
    match op
    case Match(product, taker, _, _) =>
      // the product exists; a taker has a slab slot of its own and does not carry the engine's internal status
      product < c.products && !Parked(taker.flags) && |b.entries| < c.slots
    case Cancel(id) => CancelSafe(b, id)
    case CancelMany(ids) => forall i :: 0 <= i < |ids| ==> ids[i] in b.entries ==> Linked(b, ids[i])
    case DeactivateOp(_) => true
    case ActivateOp(_, policy, _) => !policy.exclude
  }

  ghost predicate Fits(c: Config, b: Book) {
    Wf(b) && AllPositive(b.entries) && |b.ladder| == 2 * c.products && |b.entries| <= c.slots
  }

  lemma ParkedGone(b: Book, id: nat)
    requires Wf(b) && id in b.entries && Parked(b.entries[id].order.flags)
    ensures Wf(b.(entries := b.entries - {id}))
  {
    var b' := b.(entries := b.entries - {id});
    assert !Linked(b, id);
    forall k | 0 <= k < |b.ladder| ensures SideOk(b'.entries, k, b.ladder[k]) {
      assert SideOk(b.entries, k, b.ladder[k]);
      forall i, j | 0 <= i < |b.ladder[k]| && 0 <= j < |b.ladder[k][i]|
          ensures SameKeyAndPrice(b.entries, b'.entries, b.ladder[k][i][j]) {
        var x := b.ladder[k][i][j];
        assert x in b.ladder[k][i];
        OnSideKey(b, k, x);
      }
      SideFrame(b.entries, b'.entries, k, b.ladder[k]);
    }
    forall x | x in b'.entries ensures Linked(b', x) <==> Linked(b, x) {
      assert b'.entries[x] == b.entries[x];
    }
  }

  ghost function Run1(c: Config, b: Book, op: Op): Live
    requires Fits(c, b) && OpOk(c, b, op)
  {
    match op
    case Match(product, taker, p, book) => Submit(c, b, product, taker, p, book)
    case Cancel(id) => CancelLive(b, id)
    case CancelMany(ids) => CancelAll(b, ids)
    case DeactivateOp(id) =>
      if id in b.entries && !Parked(b.entries[id].order.flags) then Live(Deactivate(b, id), [RDeactivate(id)])
          else Live(b, [])
    case ActivateOp(id, p, book) =>
      if id in b.entries && Parked(b.entries[id].order.flags) then
        var en := b.entries[id];
        ParkedGone(b, id);
        var l := Submit(c, b.(entries := b.entries - {id}), en.product,
            en.order.(flags := SetStatus(en.order.flags, STATUS_NEW)), p, book);
        Live(l.book, [RActivate(id)] + l.log)
      else Live(b, [])
  }

  // -------------------------------------------------------- the theorem

  lemma SubmitRebuilds(c: Config, b: Book, next: nat, product: nat, taker: Order, p: Policy, book: bool)
    requires Fits(c, b) && product < c.products && !Parked(taker.flags) && |b.entries| < c.slots
    ensures var l := Submit(c, b, product, taker, p, book);
            Rebuilds(c, b, next, l.log, l.book) && Fits(c, l.book)
  {
    hide Wf, Rebuilds, SidePresent, MatchSide, OnSide;
    if taker.remain == 0 {
      RebuildsNothing(c, b, next);
    } else {
      var k := MakerKey(product, taker);
      var levels := b.ladder[k];
      SuffixPresent(b, k, [], levels);
      var r := MatchSide(p, b.entries, levels, product, taker, 0);
      assert [] + levels == levels;
      ReplaySide(c, b, next, p, k, [], levels, product, taker, 0);
      var mid := Book(r.e, b.ladder[k := r.levels]);
      assert [] + r.levels == r.levels;
      assert mid == SideDone(b, k, [], r.e, r.levels);
      SideConsumes(p, b.entries, levels, product, taker, 0);
      Shrinks(b.entries, r.e);
      if !(r.remain == 0 || !book || taker.org >= c.orgs || taker.id == 0 || taker.id in r.e) {
        BookingRebuilds(c, b, mid, next, r.log, product, taker.(remain := r.remain));
      }
    }
  }

  lemma BookingRebuilds(c: Config, b: Book, mid: Book, next: nat, log: seq<Record>, product: nat, rest: Order)
    requires Rebuilds(c, b, next, log, mid)
    requires Fits(c, mid) && |mid.entries| < c.slots && product < c.products && rest.org < c.orgs
    requires rest.id != 0 && rest.id !in mid.entries && !Parked(rest.flags) && rest.remain > 0
    ensures Rebuilds(c, b, next, log + [RInsert(product, rest)], Insert(mid, product, rest))
    ensures Fits(c, Insert(mid, product, rest))
  {
    hide Wf, Rebuilds, PlaceId, Step;
    InsertWf(mid, product, rest);
    var rec := RInsert(product, rest);
    var after := Insert(mid, product, rest);
    assert after.entries.Keys == mid.entries.Keys + {rest.id};
    StepInsert(c, mid, NextAfter(next, Signed(log)), product, rest);
    RebuildsNothing(c, after, NextAfter(NextAfter(next, Signed(log)), [rec]));
    RebuildsCons(c, mid, NextAfter(next, Signed(log)), rec, after, [], after);
    assert [rec] + [] == [rec];
    RebuildsAppend(c, b, next, log, mid, [rec], after);
  }

  lemma StepInsert(c: Config, b: Book, next: nat, product: nat, o: Order)
    requires Wf(b) && |b.ladder| == 2 * c.products && |b.entries| < c.slots && product < c.products && o.org < c.orgs
    requires o.id != 0 && o.id !in b.entries
    ensures Step(c, Recovered(b, next), RInsert(product, o)) ==
        Ok(Recovered(Insert(b, product, o), NextAfter(next, [RInsert(product, o)])))
  {
    assert [RInsert(product, o)][1..] == [];
  }

  lemma Shrinks(e: map<nat, Entry>, f: map<nat, Entry>)
    requires forall x :: x in f ==> x in e
    ensures |f| <= |e|
  {
    assert f.Keys <= e.Keys;
    SubsetSize(f.Keys, e.Keys);
  }

  lemma CancelRebuilds(c: Config, b: Book, next: nat, id: nat)
    requires Fits(c, b) && CancelSafe(b, id)
    ensures var l := CancelLive(b, id);
            Rebuilds(c, b, next, l.log, l.book) && Fits(c, l.book)
  {
    var l := CancelLive(b, id);
    if id !in b.entries {
      RebuildsNothing(c, b, next);
    } else {
      var rec := RCancel(id);
      assert Step(c, Recovered(b, next), rec) == Ok(Recovered(l.book, next));
      assert [rec][1..] == [] && [rec] + [] == [rec];
      RebuildsNothing(c, l.book, next);
      RebuildsCons(c, b, next, rec, l.book, [], l.book);
      Shrinks(b.entries, l.book.entries);
      if Linked(b, id) {
        RemoveWf(b, id);
      } else if PeersOf(b, id) == 1 {
        ParkedGone(b, id);
      }
    }
  }

  lemma {:induction false} CancelAllRebuilds(c: Config, b: Book, next: nat, ids: seq<nat>)
    requires Fits(c, b) && forall i :: 0 <= i < |ids| ==> ids[i] in b.entries ==> Linked(b, ids[i])
    ensures var l := CancelAll(b, ids);
            Rebuilds(c, b, next, l.log, l.book) && Fits(c, l.book)
    decreases |ids|
  {
    if ids == [] {
      RebuildsNothing(c, b, next);
    } else {
      hide Wf, Rebuilds;
      var l := CancelLive(b, ids[0]);
      LinkedAfterCancel(b, ids[0]);
      CancelRebuilds(c, b, next, ids[0]);
      CancelAllRebuilds(c, l.book, NextAfter(next, Signed(l.log)), ids[1..]);
      var rest := CancelAll(l.book, ids[1..]);
      RebuildsAppend(c, b, next, l.log, l.book, rest.log, rest.book);
    }
  }

  lemma ActiveLinked(b: Book, id: nat)
    requires Wf(b) && id in b.entries && !Parked(b.entries[id].order.flags)
    ensures Linked(b, id)
  {
  }

  lemma DeactivateRebuilds(c: Config, b: Book, next: nat, id: nat)
    requires Fits(c, b) && id in b.entries && !Parked(b.entries[id].order.flags)
    ensures Rebuilds(c, b, next, [RDeactivate(id)], Deactivate(b, id)) && Fits(c, Deactivate(b, id))
  {
    hide Wf, OnSide, Rebuilds, Linked, RemoveId;
    ActiveLinked(b, id);
    var rec, after := RDeactivate(id), Deactivate(b, id);
    RemoveWf(b, id);
    assert after.entries.Keys == b.entries.Keys;
    StepDeactivate(c, b, next, id);
    assert [rec] + [] == [rec];
    RebuildsNothing(c, after, next);
    RebuildsCons(c, b, next, rec, after, [], after);
  }

  lemma StepDeactivate(c: Config, b: Book, next: nat, id: nat)
    requires Wf(b) && Linked(b, id)
    ensures Step(c, Recovered(b, next), RDeactivate(id)) ==
        Ok(Recovered(Deactivate(b, id), NextAfter(next, [RDeactivate(id)])))
  {
    assert [RDeactivate(id)][1..] == [];
  }

  lemma ActivateRebuilds(c: Config, b: Book, next: nat, id: nat, p: Policy, book: bool)
    requires Fits(c, b) && id in b.entries && Parked(b.entries[id].order.flags) && !p.exclude
    ensures var l := Run1(c, b, ActivateOp(id, p, book));
            Rebuilds(c, b, next, l.log, l.book) && Fits(c, l.book)
  {
    var en := b.entries[id];
    var mid := b.(entries := b.entries - {id});
    ParkedGone(b, id);
    assert mid.entries.Keys == b.entries.Keys - {id};
    assert Step(c, Recovered(b, next), RActivate(id)) == Ok(Recovered(mid, next));
    assert [RActivate(id)][1..] == [];
    var taker := en.order.(flags := SetStatus(en.order.flags, STATUS_NEW));
    assert en.product < c.products;
    ActivateTail(c, b, mid, next, id, en.product, taker, p, book);
  }

  lemma ActivateTail(c: Config, b: Book, mid: Book, next: nat, id: nat, product: nat, taker: Order, p: Policy,
                     book: bool)
    requires Fits(c, mid) && product < c.products && !Parked(taker.flags) && |mid.entries| < c.slots
    requires Step(c, Recovered(b, next), RActivate(id)) == Ok(Recovered(mid, NextAfter(next, [RActivate(id)])))
    ensures var l := Submit(c, mid, product, taker, p, book);
            Rebuilds(c, b, next, [RActivate(id)] + l.log, l.book) && Fits(c, l.book)
  {
    hide Wf, Rebuilds, Submit, Step;
    var next' := NextAfter(next, [RActivate(id)]);
    SubmitRebuilds(c, mid, next', product, taker, p, book);
    var l := Submit(c, mid, product, taker, p, book);
    RebuildsCons(c, b, next, RActivate(id), mid, l.log, l.book);
  }

  /** Every engine operation: replaying what it logged does to the book what it did. */
  lemma OpRebuilds(c: Config, b: Book, next: nat, op: Op)
    requires Fits(c, b) && OpOk(c, b, op)
    ensures var l := Run1(c, b, op);
            Rebuilds(c, b, next, l.log, l.book) && Fits(c, l.book)
  {
    hide Wf, Rebuilds, Submit, CancelAll, CancelLive;
    match op
    case Match(product, taker, p, book) =>
      SubmitRebuilds(c, b, next, product, taker, p, book);
    case Cancel(id) => CancelRebuilds(c, b, next, id);
    case CancelMany(ids) => CancelAllRebuilds(c, b, next, ids);
    case DeactivateOp(id) =>
      if id in b.entries && !Parked(b.entries[id].order.flags) { DeactivateRebuilds(c, b, next, id); }
      else { RebuildsNothing(c, b, next); }
    case ActivateOp(id, p, book) =>
      if id in b.entries && Parked(b.entries[id].order.flags) { ActivateRebuilds(c, b, next, id, p, book); }
      else { RebuildsNothing(c, b, next); }
  }

  ghost predicate RunOk(c: Config, b: Book, ops: seq<Op>)
    decreases |ops|
  {
    Fits(c, b) && (ops == [] || (OpOk(c, b, ops[0]) && RunOk(c, Run1(c, b, ops[0]).book, ops[1..])))
  }

  /** A whole run: the book it ends with and everything it logged. */
  ghost function Run(c: Config, b: Book, ops: seq<Op>): Live
    requires RunOk(c, b, ops)
    decreases |ops|
  {
    if ops == [] then Live(b, [])
    else
      var l := Run1(c, b, ops[0]);
      var rest := Run(c, l.book, ops[1..]);
      Live(rest.book, l.log + rest.log)
  }

  lemma {:induction false} RunRebuilds(c: Config, b: Book, next: nat, ops: seq<Op>)
    requires RunOk(c, b, ops)
    ensures var l := Run(c, b, ops);
            Rebuilds(c, b, next, l.log, l.book) && Fits(c, l.book)
    decreases |ops|
  {
    hide Wf, Rebuilds, Run1;
    if ops == [] {
      RebuildsNothing(c, b, next);
    } else {
      var l := Run1(c, b, ops[0]);
      OpRebuilds(c, b, next, ops[0]);
      RunRebuilds(c, l.book, NextAfter(next, Signed(l.log)), ops[1..]);
      var rest := Run(c, l.book, ops[1..]);
      RebuildsAppend(c, b, next, l.log, l.book, rest.log, rest.book);
    }
  }

  predicate Mentions(r: Record, id: nat) {
    match r
    case RInsert(_, o) => o.id == id
    case RMatch(maker, taker, _, _, _) => maker == id || taker == id
    case _ => false
  }

  /** The counter ends above every id in the log, or exhausted. */
  lemma {:induction false} NextIsFresh(next: nat, log: seq<Record>)
    ensures NextAfter(next, log) == 0 || (next != 0 && next <= NextAfter(next, log))
    ensures NextAfter(next, log) == 0 || forall i, id: nat :: 0 <= i < |log| && Mentions(log[i], id) ==>
        id < NextAfter(next, log)
    decreases |log|
  {
    if log != [] {
      var n := NextAfter(next, [log[0]]);
      assert log == [log[0]] + log[1..];
      assert [log[0]][1..] == [];
      NextAfterCons(next, log[0], log[1..]);
      NextIsFresh(n, log[1..]);
      assert forall i :: 1 <= i < |log| ==> log[i] == log[1..][i - 1];
      assert n == 0 || forall id :: Mentions(log[0], id) ==> id < n;
    }
  }

  ghost predicate Named(log: seq<Record>, id: nat) { exists i :: 0 <= i < |log| && Mentions(log[i], id) }

  /** Ids have 32 bits. */
  ghost predicate Narrow(log: seq<Record>) {
    forall i, id: nat :: 0 <= i < |log| && Mentions(log[i], id) ==> id <= UINT32_MAX
  }

  /** One more than the largest id in the log, 1 if there is none, and 0 if there is no larger id. */
  ghost predicate Counts(log: seq<Record>, next: nat) {
    && (next == 0 <==> Named(log, UINT32_MAX))
    && (next != 0 ==> (forall id: nat :: Named(log, id) ==> id < next) && (next == 1 || Named(log, next - 1)))
  }

  lemma NamedCons(r: Record, log: seq<Record>, id: nat)
    ensures Named([r] + log, id) <==> Mentions(r, id) || Named(log, id)
  {
    var all := [r] + log;
    if Mentions(r, id) { assert Mentions(all[0], id); }
    if Named(log, id) {
      var i :| 0 <= i < |log| && Mentions(log[i], id);
      assert Mentions(all[i + 1], id);
    }
    if Named(all, id) && !Mentions(r, id) {
      var i :| 0 <= i < |all| && Mentions(all[i], id);
      assert all[i] == log[i - 1];
    }
  }

  /** The counter is exact, wherever it starts. */
  lemma {:induction false} NextIsExact(next: nat, log: seq<Record>)
    requires Narrow(log) && next <= UINT32_MAX
    ensures var n := NextAfter(next, log);
            && (n == 0 <==> next == 0 || Named(log, UINT32_MAX))
            && (n != 0 ==> next <= n <= UINT32_MAX && (n == next || Named(log, n - 1)))
    decreases |log|
  {
    if log != [] {
      var r, rest := log[0], log[1..];
      assert log == [r] + rest && [r][1..] == [];
      var m := NextAfter(next, [r]);
      NextAfterCons(next, r, rest);
      assert forall i :: 0 <= i < |rest| ==> rest[i] == log[i + 1];
      BumpExact(next, r, log);
      NextIsExact(m, rest);
      NamedCons(r, rest, UINT32_MAX);
      var n := NextAfter(m, rest);
      if n != 0 { NamedCons(r, rest, n - 1); }
    }
  }

  lemma BumpExact(next: nat, r: Record, log: seq<Record>)
    requires Narrow(log) && log != [] && log[0] == r && next <= UINT32_MAX
    ensures var m := NextAfter(next, [r]);
            && m <= UINT32_MAX && (m == 0 <==> next == 0 || Mentions(r, UINT32_MAX))
            && (m != 0 ==> next <= m && (m == next || Mentions(r, m - 1)))
  {
    assert [r][1..] == [];
    forall id: nat | Mentions(r, id) ensures id <= UINT32_MAX { assert Mentions(log[0], id); }
    match r
    case RInsert(_, o) => assert Mentions(r, o.id);
    case RMatch(maker, taker, _, _, _) => assert Mentions(r, maker) && Mentions(r, taker);
    case _ =>
  }

  lemma CountsAfter(log: seq<Record>)
    requires Narrow(log)
    ensures Counts(log, NextAfter(1, log))
  {
    NextIsExact(1, log);
    NextIsFresh(1, log);
  }

  /**
   Recovery: for every run of engine operations, replaying its log on an empty book gives exactly
   the live book, and the recovered id counter does not reissue a logged id: it is one more than the
   largest. This is so if every trade in the log has a taker with an id; otherwise recovery fails.
   */
  lemma RecoveryTheorem(c: Config, ops: seq<Op>)
    requires RunOk(c, EmptyBook(c.products), ops)
    ensures var l := Run(c, EmptyBook(c.products), ops);
            var r := Replay(c, Start(c), l.log);
            && (Traceable(l.log) ==>
                  && r.Ok? && r.state.book == l.book
                  && (r.state.nextId == 0
                      || forall i, id: nat :: 0 <= i < |l.log| && Mentions(l.log[i], id) ==> id < r.state.nextId)
                  && (Narrow(l.log) ==> Counts(l.log, r.state.nextId)))
            && (!Traceable(l.log) ==> r == Failed)
  {
    var log := Run(c, EmptyBook(c.products), ops).log;
    RunRebuilds(c, EmptyBook(c.products), 1, ops);
    ReplaySigned(c, Start(c), log);
    NextIsFresh(1, log);
    if Narrow(log) { CountsAfter(log); }
    hide Counts, Narrow;
    if Traceable(log) { assert Signed(log) == log; }
  }
}
