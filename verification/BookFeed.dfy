/**
 The public worker against the book: whatever log the engine writes, the worker that hears it keeps
 exactly the active orders of the live book, and for runs that match without a callback its ladder
 shows the book's volume at every price.
 */
module BookFeed {
  import opened Common
  import opened Book
  import opened Matching
  import opened R = Replay
  import opened Market
  import opened PublicMarket
  import opened Allocation
  import opened Logs
  import L = LevelBooks
  import V = Visits

  /** The active orders of a book, as a worker records them. */
  function Showing(b: Book, subs: Option<seq<bool>>): map<nat, Resting> {
    map id | id in b.entries && !Parked(b.entries[id].order.flags) && Listens(subs, b.entries[id].product) ::
        Rests(b.entries[id].product, b.entries[id].order)
  }

  ghost predicate ActivePositive(e: map<nat, Entry>) {
    forall id :: id in e && !Parked(e[id].order.flags) ==> e[id].order.remain > 0
  }

  ghost predicate Good(c: Config, b: Book) { Wf(b) && ActivePositive(b.entries) && |b.ladder| == 2 * c.products }

  /** A logged insertion carries volume, is active, and its price is not live on the other side. */
  predicate QuietInsert(b: Book, r: Record) {
    r.RInsert? ==> !Parked(r.order.flags) && r.order.remain > 0 && Free(Showing(b, None), Rests(r.product, r.order))
  }

  // ------------------------------------------------------------ one record

  lemma ActiveIs(b: Book, id: nat)
    requires Wf(b) && id in b.entries
    ensures (Linked(b, id) <==> !Parked(b.entries[id].order.flags)) && KeyOf(b.entries[id]) < |b.ladder|
  {
  }

  lemma InsertShows(c: Config, b: Book, product: nat, o: Order, subs: Option<seq<bool>>)
    requires Good(c, b) && o.id != 0 && o.id !in b.entries && product < c.products && !Parked(o.flags) && o.remain > 0
    ensures Good(c, Insert(b, product, o)) &&
        Showing(Insert(b, product, o), subs) == Heard(Showing(b, subs), subs, RInsert(product, o))
  {
    hide Wf, PlaceId;
    InsertWf(b, product, o);
    assert Insert(b, product, o).entries == b.entries[o.id := Entry(product, o)];
  }

  lemma CancelShows(c: Config, b: Book, id: nat, subs: Option<seq<bool>>)
    requires Good(c, b) && (id in b.entries ==> KeyOf(b.entries[id]) < |b.ladder|) && CancelEffect(b, id).Some?
    ensures Good(c, CancelEffect(b, id).value) && Showing(CancelEffect(b, id).value, subs) == Gone(Showing(b, subs), id)
  {
    hide Wf, RemoveId, OnSide, PeersOf, Linked;
    if id in b.entries {
      ActiveIs(b, id);
      if Linked(b, id) { RemoveWf(b, id); }
      else if PeersOf(b, id) == 1 { ParkedGone(b, id); }
    }
  }

  lemma DeactivateShows(c: Config, b: Book, id: nat, subs: Option<seq<bool>>)
    requires Good(c, b) && (id in b.entries ==> KeyOf(b.entries[id]) < |b.ladder|) && DeactivateEffect(b, id).Some?
    ensures Good(c, DeactivateEffect(b, id).value) &&
        Showing(DeactivateEffect(b, id).value, subs) == Gone(Showing(b, subs), id)
  {
    hide Wf, RemoveId, OnSide, PeersOf, Linked;
    if id in b.entries {
      ActiveIs(b, id);
      if Linked(b, id) { RemoveWf(b, id); }
    }
  }

  lemma ActivateShows(c: Config, b: Book, id: nat, subs: Option<seq<bool>>)
    requires Good(c, b) && id in b.entries && Parked(b.entries[id].order.flags)
    ensures Good(c, b.(entries := b.entries - {id})) &&
        Showing(b.(entries := b.entries - {id}), subs) == Showing(b, subs)
  {
    hide Wf;
    ParkedGone(b, id);
  }

  /** A volume set in place of another; nothing is checked about which. */
  lemma RemainShows(b: Book, id: nat, left: nat, subs: Option<seq<bool>>)
    requires Wf(b) && ActivePositive(b.entries) && id in b.entries && left < b.entries[id].order.remain
    ensures var b' := b.(entries := SetRemain(b.entries, id, left));
            && Wf(b') && (left > 0 ==>
               ActivePositive(b'.entries) &&
               Showing(b', subs) == Less(Showing(b, subs), id, b.entries[id].order.remain - left))
  {
    hide Wf;
    SetRemainWf(b, id, left);
  }

  /** A maker filled to the end leaves the book if it rests there. */
  lemma FilledShows(c: Config, b: Book, id: nat, subs: Option<seq<bool>>)
    requires Good(c, b) && id in b.entries && b.entries[id].order.remain > 0
    requires var b' := b.(entries := SetRemain(b.entries, id, 0));
        Wf(b') && KeyOf(b'.entries[id]) < |b.ladder| && CancelEffect(b', id).Some?
    ensures var after := CancelEffect(b.(entries := SetRemain(b.entries, id, 0)), id).value;
            Good(c, after) && Showing(after, subs) == Less(Showing(b, subs), id, b.entries[id].order.remain)
  {
    hide Wf, RemoveId, OnSide, PeersOf, Linked, Showing, Less, ActivePositive;
    var b' := b.(entries := SetRemain(b.entries, id, 0));
    ActiveIs(b', id);
    assert b'.entries - {id} == b.entries - {id};
    if Linked(b', id) { RemoveWf(b', id); }
    else if PeersOf(b', id) == 1 { ParkedGone(b', id); }
    var after := CancelEffect(b', id).value;
    DroppedShows(b, after, id, subs);
  }

  lemma DroppedShows(b: Book, after: Book, id: nat, subs: Option<seq<bool>>)
    requires ActivePositive(b.entries) && id in b.entries && b.entries[id].order.remain > 0
    requires after.entries == b.entries - {id} ||
        (Parked(b.entries[id].order.flags) && after.entries == SetRemain(b.entries, id, 0))
    ensures ActivePositive(after.entries) &&
        Showing(after, subs) == Less(Showing(b, subs), id, b.entries[id].order.remain)
  {
  }

  lemma TradeShows(c: Config, s: Recovered, r: Record, subs: Option<seq<bool>>)
    requires Good(c, s.book) && r.RMatch? && Step(c, s, r).Ok?
    ensures Good(c, Step(c, s, r).state.book) &&
        Showing(Step(c, s, r).state.book, subs) == Less(Showing(s.book, subs), r.maker, r.volume)
  {
    hide Wf, CancelEffect, Showing, ActivePositive;
    var b := s.book;
    var left := b.entries[r.maker].order.remain - r.volume;
    RemainShows(b, r.maker, left, subs);
    if left == 0 { FilledShows(c, b, r.maker, subs); }
  }

  /** One record does to the worker's orders what replaying it does to the book. */
  lemma StepShows(c: Config, s: Recovered, r: Record, subs: Option<seq<bool>>)
    requires Good(c, s.book) && Step(c, s, r).Ok? && QuietInsert(s.book, r)
    ensures Good(c, Step(c, s, r).state.book)
    ensures Showing(Step(c, s, r).state.book, subs) == Heard(Showing(s.book, subs), subs, r)
    ensures CalmRecord(Showing(s.book, subs), subs, r) && (r.RInsert? ==> r.product < c.products)
  {
    hide Wf, Showing, CancelEffect, DeactivateEffect, ActivePositive;
    match r {
      case RInsert(product, o) =>
        InsertShows(c, s.book, product, o, subs);
        InsertCalm(s.book, product, o, subs);
      case RCancel(id) => CancelShows(c, s.book, id, subs);
      case RMatch(_, _, _, _, _) => TradeShows(c, s, r, subs);
      case RDeactivate(id) => DeactivateShows(c, s.book, id, subs);
      case RActivate(id) => if id in s.book.entries &&
                                     Parked(s.book.entries[id].order.flags) { ActivateShows(c, s.book, id, subs); }
    }
  }

  lemma InsertCalm(b: Book, product: nat, o: Order, subs: Option<seq<bool>>)
    requires o.id !in b.entries && QuietInsert(b, RInsert(product, o))
    ensures CalmRecord(Showing(b, subs), subs, RInsert(product, o))
  {
    forall id | id in Showing(b, subs) ensures id in Showing(b, None) && Showing(b, None)[id] == Showing(b, subs)[id] {}
  }

  // --------------------------------------------------------- a whole log

  predicate Quiet(c: Config, s: Recovered, log: seq<Record>)
    decreases |log|
  {
    log == [] || (QuietInsert(s.book, log[0]) &&
        (Step(c, s, log[0]).Ok? ==> Quiet(c, Step(c, s, log[0]).state, log[1..])))
  }

  /** Hearing a log and replaying it end at the same orders. */
  lemma {:induction false} LogShows(c: Config, s: Recovered, log: seq<Record>, subs: Option<seq<bool>>)
    requires Good(c, s.book) && R.Replay(c, s, log).Ok? && Quiet(c, s, log)
    ensures HeardAll(Showing(s.book, subs), subs, log) == Showing(R.Replay(c, s, log).state.book, subs)
    ensures Good(c, R.Replay(c, s, log).state.book) && Calm(Showing(s.book, subs), subs, log)
    ensures forall i :: 0 <= i < |log| && log[i].RInsert? ==> log[i].product < c.products
    decreases |log|
  {
    hide Good, Step, Heard, CalmRecord, QuietInsert, Showing;
    if log != [] {
      StepShows(c, s, log[0], subs);
      LogShows(c, Step(c, s, log[0]).state, log[1..], subs);
      assert forall i :: 1 <= i < |log| ==> log[i] == log[1..][i - 1];
    }
  }

  // ------------------------------------------------------- no crossed book

  /** Every bid is below every ask of its product. */
  predicate Uncrossed(orders: map<nat, Resting>) {
    forall i, j ::
      i in orders && j in orders && orders[i].product == orders[j].product && orders[i].bid && !orders[j].bid ==>
        orders[i].price < orders[j].price
  }

  lemma {:induction false} RemovalsUncrossed(orders: map<nat, Resting>, log: seq<Record>)
    requires Uncrossed(orders) && NoInserts(log)
    ensures Uncrossed(HeardAll(orders, None, log))
    decreases |log|
  {
    if log != [] {
      assert !log[0].RInsert?;
      RemovalUncrossed(orders, log[0]);
      RemovalsUncrossed(Heard(orders, None, log[0]), log[1..]);
    }
  }

  lemma RemovalUncrossed(orders: map<nat, Resting>, r: Record)
    requires Uncrossed(orders) && !r.RInsert?
    ensures Uncrossed(Heard(orders, None, r))
  {
    var after := Heard(orders, None, r);
    forall i | i in after
        ensures i in orders && after[i].product == orders[i].product && after[i].bid == orders[i].bid &&
                     after[i].price == orders[i].price {}
  }

  lemma {:induction false} RemovalsQuiet(c: Config, s: Recovered, log: seq<Record>)
    requires NoInserts(log)
    ensures Quiet(c, s, log)
    decreases |log|
  {
    hide Step;
    if log != [] && Step(c, s, log[0]).Ok? { RemovalsQuiet(c, Step(c, s, log[0]).state, log[1..]); }
  }

  lemma {:induction false} QuietAppend(c: Config, s: Recovered, a: seq<Record>, b: seq<Record>)
    requires Quiet(c, s, a) && R.Replay(c, s, a).Ok? && Quiet(c, R.Replay(c, s, a).state, b)
    ensures Quiet(c, s, a + b)
    decreases |a|
  {
    hide Step, QuietInsert;
    if a == [] {
      assert a + b == b;
    } else {
      assert (a + b)[0] == a[0] && (a + b)[1..] == a[1..] + b;
      QuietAppend(c, Step(c, s, a[0]).state, a[1..], b);
    }
  }

  /** An operation that only takes away keeps the book uncrossed. */
  lemma RemovingStep(c: Config, b: Book, next: nat, log: seq<Record>, after: Book)
    requires Good(c, b) && Rebuilds(c, b, next, log, after) && NoInserts(log) && Uncrossed(Showing(b, None))
    ensures Quiet(c, Recovered(b, next), Signed(log)) && Good(c, after) && Uncrossed(Showing(after, None))
  {
    hide Good, Showing, Uncrossed, Quiet;
    RemovalsQuiet(c, Recovered(b, next), Signed(log));
    LogShows(c, Recovered(b, next), Signed(log), None);
    RemovalsUncrossed(Showing(b, None), Signed(log));
  }

  /** What is left of the other side once a taker still wants volume does not reach its limit. */
  ghost predicate Beyond(b: Book, k: nat, taker: Order) {
    k < |b.ladder| && forall id :: OnSide(b.ladder[k], id) ==>
        id in b.entries && !Crosses(taker, b.entries[id].order.price)
  }

  lemma BookingQuiet(c: Config, b: Book, product: nat, rest: Order)
    requires Good(c, b) && Uncrossed(Showing(b, None)) && product < c.products &&
        Beyond(b, MakerKey(product, rest), rest)
    requires rest.id != 0 && rest.id !in b.entries && !Parked(rest.flags) && rest.remain > 0
    ensures QuietInsert(b, RInsert(product, rest)) && Uncrossed(Showing(Insert(b, product, rest), None))
  {
    hide Wf, Insert, OnSide;
    InsertShows(c, b, product, rest, None);
    var orders, o := Showing(b, None), Rests(product, rest);
    forall j | j in orders && orders[j].product == product && orders[j].bid != o.bid
        ensures !Crosses(rest, orders[j].price) {
      ActiveIs(b, j);
    }
  }

  lemma SubmitQuiet(c: Config, b: Book, next: nat, product: nat, taker: Order, book: bool)
    requires Fits(c, b) && product < c.products && !Parked(taker.flags) && |b.entries| < c.slots &&
        Uncrossed(Showing(b, None))
    ensures var l := Submit(c, b, product, taker, PLAIN, book);
            Quiet(c, Recovered(b, next), Signed(l.log)) && Uncrossed(Showing(l.book, None))
  {
    hide Wf, Rebuilds, SidePresent, MatchSide, Quiet, Uncrossed, Showing, Good;
    if taker.remain == 0 {
      RemovalsQuiet(c, Recovered(b, next), Signed([]));
    } else {
      FitsGood(c, b);
      var k := MakerKey(product, taker);
      var levels := b.ladder[k];
      SideIsOk(b, k);
      SuffixPresent(b, k, [], levels);
      var r := MatchSide(PLAIN, b.entries, levels, product, taker, 0);
      assert [] + levels == levels && [] + r.levels == r.levels;
      ReplaySide(c, b, next, PLAIN, k, [], levels, product, taker, 0);
      var mid := Book(r.e, b.ladder[k := r.levels]);
      assert mid == SideDone(b, k, [], r.e, r.levels);
      SideLogs(PLAIN, b.entries, levels, product, taker, 0);
      RemovingStep(c, b, next, r.log, mid);
      if !(r.remain == 0 || !book || taker.org >= c.orgs || taker.id == 0 || taker.id in r.e) {
        BookNamed(b);
        PlainExhausts(b.entries, k, levels, product, taker, 0);
        RestQuiet(c, b, next, r.log, mid, product, taker.(remain := r.remain));
      }
    }
  }

  lemma BookNamed(b: Book)
    requires Wf(b)
    ensures V.Named(b.entries)
  {
  }

  lemma RestQuiet(c: Config, b: Book, next: nat, log: seq<Record>, mid: Book, product: nat, rest: Order)
    requires Rebuilds(c, b, next, log, mid) && Quiet(c, Recovered(b, next), Signed(log)) && Good(c, mid) &&
        Uncrossed(Showing(mid, None))
    requires product < c.products && Beyond(mid, MakerKey(product, rest), rest)
    requires rest.id != 0 && rest.id !in mid.entries && !Parked(rest.flags) && rest.remain > 0
    ensures Quiet(c, Recovered(b, next), Signed(log + [RInsert(product, rest)])) &&
        Uncrossed(Showing(Insert(mid, product, rest), None))
  {
    hide Good, Uncrossed, Showing, QuietInsert, Step;
    BookingQuiet(c, mid, product, rest);
    var s, rec := Recovered(mid, NextAfter(next, Signed(log))), RInsert(product, rest);
    assert [rec][1..] == [];
    assert Quiet(c, s, [rec]);
    QuietAppend(c, Recovered(b, next), Signed(log), [rec]);
    assert Signed(log + [rec]) == Signed(log) + [rec];
  }

  lemma FitsGood(c: Config, b: Book)
    requires Fits(c, b)
    ensures Good(c, b)
  {
  }

  /** Nobody hears who the taker was. */
  lemma {:induction false} HeardSigned(orders: map<nat, Resting>, subs: Option<seq<bool>>, log: seq<Record>)
    ensures HeardAll(orders, subs, Signed(log)) == HeardAll(orders, subs, log)
    ensures Calm(orders, subs, Signed(log)) == Calm(orders, subs, log)
    decreases |log|
  {
    if log != [] {
      assert Signed(log)[1..] == Signed(log[1..]);
      HeardSigned(Heard(orders, subs, log[0]), subs, log[1..]);
    }
  }

  // ------------------------------------------------------------ whole runs

  /** An operation that matches, if it does, without a callback and against every organisation. */
  ghost predicate Plain(op: Op) {
    match op
    case Match(_, _, p, _) => p == PLAIN
    case ActivateOp(_, p, _) => p == PLAIN
    case _ => true
  }

  lemma OpQuiet(c: Config, b: Book, next: nat, op: Op)
    requires Fits(c, b) && OpOk(c, b, op) && Plain(op) && Uncrossed(Showing(b, None))
    ensures var l := Run1(c, b, op);
            Quiet(c, Recovered(b, next), Signed(l.log)) && Uncrossed(Showing(l.book, None))
  {
    hide Wf, Rebuilds, Quiet, Uncrossed, Showing, Good, Submit;
    FitsGood(c, b);
    OpRebuilds(c, b, next, op);
    var l := Run1(c, b, op);
    match op {
      case Match(product, taker, p, book) => SubmitQuiet(c, b, next, product, taker, book);
      case Cancel(_) => RemovingStep(c, b, next, l.log, l.book);
      case CancelMany(ids) =>
        ManyLogs(b, ids);
        RemovingStep(c, b, next, l.log, l.book);
      case DeactivateOp(_) => RemovingStep(c, b, next, l.log, l.book);
      case ActivateOp(id, _, book) =>
        if id in b.entries && Parked(b.entries[id].order.flags) { ActivateQuiet(c, b, next, id, book); }
        else { RemovingStep(c, b, next, l.log, l.book); }
    }
  }

  lemma ParkedStep(c: Config, b: Book, next: nat, id: nat)
    requires Fits(c, b) && id in b.entries && Parked(b.entries[id].order.flags)
    ensures var en, mid := b.entries[id], b.(entries := b.entries - {id});
            && Fits(c, mid) && |mid.entries| < c.slots && Showing(mid, None) == Showing(b, None) &&
               en.product < c.products && en.order.id != 0
            && R.Replay(c, Recovered(b, next), [RActivate(id)]) == Ok(Recovered(mid, next))
  {
    ActivateShows(c, b, id, None);
    assert (b.entries - {id}).Keys == b.entries.Keys - {id};
    assert KeysOk(b);
    hide Wf;
    assert [RActivate(id)][1..] == [];
  }

  lemma ActivateQuiet(c: Config, b: Book, next: nat, id: nat, book: bool)
    requires Fits(c, b) && id in b.entries && Parked(b.entries[id].order.flags) && Uncrossed(Showing(b, None))
    ensures var l := Run1(c, b, ActivateOp(id, PLAIN, book));
            Quiet(c, Recovered(b, next), Signed(l.log)) && Uncrossed(Showing(l.book, None))
  {
    hide Wf, Uncrossed, Showing, Good, Submit, Step;
    var en, mid := b.entries[id], b.(entries := b.entries - {id});
    ParkedStep(c, b, next, id);
    SubmitQuiet(c, mid, next, en.product, en.order.(flags := SetStatus(en.order.flags, STATUS_NEW)), book);
    RemovalsQuiet(c, Recovered(b, next), [RActivate(id)]);
    var log := Submit(c, mid, en.product, en.order.(flags := SetStatus(en.order.flags, STATUS_NEW)), PLAIN, book).log;
    QuietAppend(c, Recovered(b, next), [RActivate(id)], Signed(log));
    SignedCons(RActivate(id), log);
  }

  /** Runs that match without a callback never leave a crossed book, nor log an insertion into one. */
  lemma {:induction false} RunQuiet(c: Config, b: Book, next: nat, ops: seq<Op>)
    requires RunOk(c, b, ops) && Uncrossed(Showing(b, None)) && forall i :: 0 <= i < |ops| ==> Plain(ops[i])
    ensures var l := Run(c, b, ops);
            Quiet(c, Recovered(b, next), Signed(l.log)) && Uncrossed(Showing(l.book, None))
    decreases |ops|
  {
    hide Wf, Uncrossed, Showing, Run1;
    if ops != [] {
      var l := Run1(c, b, ops[0]);
      OpQuiet(c, b, next, ops[0]);
      OpRebuilds(c, b, next, ops[0]);
      RunQuiet(c, l.book, NextAfter(next, Signed(l.log)), ops[1..]);
      QuietAppend(c, Recovered(b, next), Signed(l.log), Signed(Run(c, l.book, ops[1..]).log));
      SignedAppend(l.log, Run(c, l.book, ops[1..]).log);
    }
  }

  // ------------------------------------------------- volumes at a price

  function Volumes(e: map<nat, Entry>, ids: seq<nat>): map<nat, nat> {
    map id | id in ids && id in e :: e[id].order.remain
  }

  lemma {:induction false} LevelTotal(e: map<nat, Entry>, ids: seq<nat>)
    requires Distinct(ids) && Present(e, ids)
    ensures Total(Volumes(e, ids)) == LevelVolume(e, ids)
    decreases |ids|
  {
    if ids != [] {
      var rest, x := ids[..|ids| - 1], ids[|ids| - 1];
      LevelTotal(e, rest);
      assert forall id :: id in ids <==> id in rest || id == x;
      assert Volumes(e, ids) - {x} == Volumes(e, rest);
      TotalSplit(Volumes(e, ids), x);
    }
  }

  /** The remaining volumes of the active orders of one side at one price. */
  function SideVolumes(b: Book, k: nat, p: nat): map<nat, nat> {
    map id | id in b.entries && !Parked(b.entries[id].order.flags) && KeyOf(b.entries[id]) == k &&
                   b.entries[id].order.price == p :: b.entries[id].order.remain
  }

  /** An active order is in the level of its price. */
  lemma InItsLevel(b: Book, k: nat, p: nat, id: nat)
    requires Wf(b) && k < |b.ladder| && id in SideVolumes(b, k, p)
    ensures LevelExists(b.entries, k, b.ladder[k], p) &&
        id in b.ladder[k][Better(b.entries, k, b.ladder[k], Rank(k, p))]
  {
    var levels := b.ladder[k];
    ActiveIs(b, id);
    var i :| 0 <= i < |levels| && id in levels[i];
    assert SideOk(b.entries, k, levels) && LevelOk(b.entries, k, levels[i]);
    var n := Better(b.entries, k, levels, Rank(k, p));
    assert LevelPrice(b.entries, levels[i]) == p;
    assert n == i;
  }

  lemma LevelVolumes(b: Book, k: nat, p: nat)
    requires Wf(b) && k < |b.ladder| && LevelExists(b.entries, k, b.ladder[k], p)
    ensures var ids := b.ladder[k][Better(b.entries, k, b.ladder[k], Rank(k, p))];
            Distinct(ids) && Present(b.entries, ids) && Volumes(b.entries, ids) == SideVolumes(b, k, p)
  {
    var levels := b.ladder[k];
    var n := Better(b.entries, k, levels, Rank(k, p));
    assert SideOk(b.entries, k, levels) && LevelOk(b.entries, k, levels[n]);
    hide Wf, SideOk;
    forall id | id in SideVolumes(b, k, p) ensures id in levels[n] { InItsLevel(b, k, p, id); }
    assert Volumes(b.entries, levels[n]).Keys == SideVolumes(b, k, p).Keys;
  }

  lemma SideTotal(b: Book, k: nat, p: nat)
    requires Wf(b) && k < |b.ladder|
    ensures Total(SideVolumes(b, k, p)) == VolumeAt(b, k, p)
  {
    hide Wf, SideVolumes, Volumes, LevelOk, Better, LevelVolume, Rank;
    var levels := b.ladder[k];
    if LevelExists(b.entries, k, levels, p) {
      LevelVolumes(b, k, p);
      LevelTotal(b.entries, levels[Better(b.entries, k, levels, Rank(k, p))]);
    } else {
      forall id | id in SideVolumes(b, k, p) ensures false { InItsLevel(b, k, p, id); }
      assert SideVolumes(b, k, p) == map[];
    }
  }

  /** What a worker that hears of a product shows at a price is the book's volume there, both sides together. */
  lemma PriceTotal(b: Book, subs: Option<seq<bool>>, product: nat, p: nat)
    requires Wf(b) && Key(product, false) < |b.ladder| && Listens(subs, product)
    ensures Total(AtPrice(Showing(b, subs), product, p)) == VolumeAt(b, Key(product, true), p) +
        VolumeAt(b, Key(product, false), p)
  {
    hide Wf, VolumeAt;
    var bids, asks := SideVolumes(b, Key(product, true), p), SideVolumes(b, Key(product, false), p);
    assert AtPrice(Showing(b, subs), product, p) == bids + asks;
    TotalUnion(bids, asks);
    SideTotal(b, Key(product, true), p);
    SideTotal(b, Key(product, false), p);
  }

  /** In an uncrossed book at most one side has volume at a price. */
  lemma OneSide(b: Book, product: nat, p: nat)
    requires Wf(b) && Key(product, false) < |b.ladder| && Uncrossed(Showing(b, None))
    ensures VolumeAt(b, Key(product, true), p) == 0 || VolumeAt(b, Key(product, false), p) == 0
  {
    hide Wf, VolumeAt, Uncrossed, Total, KeyOf;
    SideTotal(b, Key(product, true), p);
    SideTotal(b, Key(product, false), p);
    if VolumeAt(b, Key(product, true), p) > 0 && VolumeAt(b, Key(product, false), p) > 0 {
      var i := SomePositive(SideVolumes(b, Key(product, true), p));
      var j := SomePositive(SideVolumes(b, Key(product, false), p));
      AskAbove(b, product, i, j);
    }
  }

  lemma AskAbove(b: Book, product: nat, i: nat, j: nat)
    requires Uncrossed(Showing(b, None)) &&
        i in b.entries && !Parked(b.entries[i].order.flags) && KeyOf(b.entries[i]) == Key(product, true)
    requires j in b.entries && !Parked(b.entries[j].order.flags) && KeyOf(b.entries[j]) == Key(product, false)
    ensures b.entries[i].order.price < b.entries[j].order.price
  {
    assert Showing(b, None)[i].price < Showing(b, None)[j].price;
  }

  // --------------------------------------------------------- the theorem

  /**
   A new public worker fed the log of any run that matches without a callback, if it reports no
   error, shows at every price of every subscribed product exactly the live book's volume, all of
   it on one side.
   */
  method Mirror(c: Config, subs: Option<seq<bool>>, capacity: nat, log: seq<Record>, ghost ops: seq<Op>)
                returns (w: PublicWorker, ok: bool)
    requires 0 < capacity <= 0xFFFF_FFFF && (subs.Some? ==> |subs.value| == c.products)
    requires RunOk(c, EmptyBook(c.products), ops) && forall i :: 0 <= i < |ops| ==> Plain(ops[i])
    requires log == Run(c, EmptyBook(c.products), ops).log
    ensures ok ==> w.Valid() && |w.ladders.slotOf| == c.products && AllCountable(map[], subs, log)
    ensures AllCountable(map[], subs, log) && AlwaysFew(map[], subs, log) ==> ok
    ensures ok ==> var b := Run(c, EmptyBook(c.products), ops).book;
              |b.ladder| == 2 * c.products && forall product: nat, p: nat ::
                  product < c.products && Listens(subs, product) ==>
                var bids, asks := VolumeAt(b, Key(product, true), p), VolumeAt(b, Key(product, false), p);
                Shown(w, product, p) == bids + asks && (bids == 0 || asks == 0)
  {
    hide Wf, Showing, Uncrossed, Run, RunOk, Quiet, Calm, Mirrors, VolumeAt, Total, AtPrice,
         AllCountable, AlwaysFew;
    ghost var b := EmptyBook(c.products);
    EmptyShows(c, subs);
    RunQuiet(c, b, 1, ops);
    RunRebuilds(c, b, 1, ops);
    LogShows(c, Start(c), Signed(log), subs);
    HeardSigned(Showing(b, subs), subs, log);
    assert forall i :: 0 <= i < |log| && log[i].RInsert? ==> Signed(log)[i] == log[i];
    w := new PublicWorker(c.products, capacity, subs);
    ok := w.Feed(log);
    if ok {
      ghost var after := Run(c, b, ops).book;
      forall product: nat, p: nat | product < c.products && Listens(subs, product)
        ensures var bids, asks := VolumeAt(after, Key(product, true), p), VolumeAt(after, Key(product, false), p);
                Shown(w, product, p) == bids + asks && (bids == 0 || asks == 0)
      {
        PriceTotal(after, subs, product, p);
        OneSide(after, product, p);
        ShownTotal(w, product, p);
      }
    }
  }

  ghost function Shown(w: PublicWorker, product: nat, p: nat): nat
    reads w, w.ladders
  {
    L.Qty(w.ladders.View(), product, p)
  }

  lemma ShownTotal(w: PublicWorker, product: nat, p: nat)
    requires w.Valid() && product < |w.ladders.slotOf|
    ensures Shown(w, product, p) == Total(AtPrice(w.orders, product, p))
  {
    assert QtyRight(w.orders, w.ladders.View(), product, p);
  }

  lemma EmptyShows(c: Config, subs: Option<seq<bool>>)
    ensures Good(c, EmptyBook(c.products)) && Showing(EmptyBook(c.products), subs) == map[] &&
        Uncrossed(Showing(EmptyBook(c.products), None))
  {
  }
}
