/**
 What submitting, deactivating and activating an order come to for the whole book: the makers matched
 as the answers say, what is left of the taker at the end of its queue, and nobody else moved.
 */
module Submissions {
  import opened Common
  import opened Book
  import opened Matching
  import opened Priority
  import opened Replay
  import opened Queues
  import Answers

  /** What is left of a taker is booked. */
  predicate Booked(c: Config, taker: Order, book: bool, t: Answers.Stage) {
    t.remain > 0 && book && taker.org < c.orgs && taker.id != 0 && taker.id !in t.e
  }

  lemma OtherSide(b: Book, e: map<nat, Entry>, left: iset<nat>, m: nat, k: nat, p: nat)
    requires Wf(b) && m < |b.ladder| && k < |b.ladder| && k != m && Consumes(b.entries, SideIds(b.ladder[m]), e, left)
    ensures QueueIn(e, b.ladder[k], p) == QueueIn(b.entries, b.ladder[k], p)
  {
    assert SideOk(b.entries, k, b.ladder[k]);
    forall i | 0 <= i < |b.ladder[k]| ensures LevelPrice(b.entries, b.ladder[k][i]) == LevelPrice(e, b.ladder[k][i]) {
      assert LevelOk(b.entries, k, b.ladder[k][i]);
      var x := b.ladder[k][i][0];
      assert x in b.ladder[k][i];
      if x in SideIds(b.ladder[m]) { OnSideKey(b, m, x); }
    }
    QueueFrame(b.entries, e, b.ladder[k], p);
  }

  /** The book once the makers' side has been worked, before what is left is booked. */
  ghost predicate Worked(b: Book, m: nat, t: Answers.Stage, mid: Book) {
    && m < |b.ladder| && |mid.ladder| == |b.ladder| && mid.entries == t.e && Flat(mid.ladder[m]) == t.passed + t.ahead
    && forall k: nat, p: nat :: k != m ==> QueueAt(mid, k, p) == QueueAt(b, k, p)
  }

  lemma WorkedIs(c: Config, b: Book, product: nat, taker: Order, p: Policy)
                 returns (stages: seq<Answers.Stage>, mid: Book)
    requires Fits(c, b) && product < c.products && taker.remain > 0
    ensures var m := Key(product, !IsBid(taker.flags));
            && m < |b.ladder| && Answers.Chain(p, taker, product, stages) && stages != []
            && stages[0] == Answers.Stage(b.entries, [], Flat(b.ladder[m]), taker.remain, 0, [])
            && var t := stages[|stages| - 1];
               && Answers.Over(taker, t) && Worked(b, m, t, mid) && Wf(mid)
               && forall book :: Submit(c, b, product, taker, p, book) ==
                    if Booked(c, taker, book, t)
                    then Live(Insert(mid, product, taker.(remain := t.remain)),
                              t.log + [RInsert(product, taker.(remain := t.remain))])
                    else Live(mid, t.log)
  {
    var m := MakerKey(product, taker);
    assert SideOk(b.entries, m, b.ladder[m]);
    hide Wf, SideOk, MatchSide, Rebuilds, Answers.Chain, Answers.Over, Flat;
    SideOkPresent(b.entries, m, b.ladder[m]);
    stages := Answers.SideFollows(p, b.entries, m, b.ladder[m], product, taker, 0);
    var r := MatchSide(p, b.entries, b.ladder[m], product, taker, 0);
    assert [] + b.ladder[m] == b.ladder[m] && [] + r.levels == r.levels;
    ReplaySide(c, b, 1, p, m, [], b.ladder[m], product, taker, 0);
    mid := Book(r.e, b.ladder[m := r.levels]);
    assert mid == SideDone(b, m, [], r.e, r.levels);
    SideConsumes(p, b.entries, b.ladder[m], product, taker, 0);
    forall k: nat, q: nat | k != m ensures QueueAt(mid, k, q) == QueueAt(b, k, q) {
      if k < |b.ladder| { OtherSide(b, r.e, SideIds(r.levels), m, k, q); }
    }
  }

  /**
   A submission: the other side is worked through as the callback's answers say; what is left, if it is
   to be booked, is logged and goes to the end of the queue at its price; no other queue changes.
   */
  lemma SubmitMeans(c: Config, b: Book, product: nat, taker: Order, p: Policy, book: bool)
                    returns (stages: seq<Answers.Stage>)
    requires Fits(c, b) && product < c.products && !Parked(taker.flags)
    ensures var m, own := Key(product, !IsBid(taker.flags)), Key(product, IsBid(taker.flags));
            var l := Submit(c, b, product, taker, p, book);
            && m < |b.ladder| == |l.book.ladder| && Answers.Chain(p, taker, product, stages)
            && stages[0] == Answers.Stage(b.entries, [], Flat(b.ladder[m]), taker.remain, 0, [])
            && var t := stages[|stages| - 1];
               var left, booked := taker.(remain := t.remain), Booked(c, taker, book, t);
               && Answers.Over(taker, t) && Flat(l.book.ladder[m]) == t.passed + t.ahead
               && l.log == t.log + (if booked then [RInsert(product, left)] else [])
               && l.book.entries == (if booked then t.e[taker.id := Entry(product, left)] else t.e)
               && forall k: nat, q: nat :: k != m ==>
                    QueueAt(l.book, k, q) ==
                    QueueAt(b, k, q) + if booked && k == own && q == taker.price then [taker.id] else []
  {
    var m, own := Key(product, !IsBid(taker.flags)), Key(product, IsBid(taker.flags));
    hide Wf, Submit, Answers.Chain, Answers.Over, Flat, Insert, QueueAt;
    if taker.remain == 0 {
      stages := [Answers.Stage(b.entries, [], Flat(b.ladder[m]), 0, 0, [])];
      assert [] + Flat(b.ladder[m]) == Flat(b.ladder[m]);
      NothingWanted(c, b, product, taker, p, book, stages[0]);
    } else {
      var mid;
      stages, mid := WorkedIs(c, b, product, taker, p);
      var t := stages[|stages| - 1];
      if Booked(c, taker, book, t) { BookedQueues(mid, product, taker.(remain := t.remain)); }
    }
  }

  lemma NothingWanted(c: Config, b: Book, product: nat, taker: Order, p: Policy, book: bool, s: Answers.Stage)
    requires Wf(b) && product < c.products && |b.ladder| == 2 * c.products && taker.remain == 0 == s.remain
    ensures Submit(c, b, product, taker, p, book) == Live(b, [])
    ensures Answers.Chain(p, taker, product, [s]) && Answers.Over(taker, s)
  {
    hide Wf;
  }

  lemma BookedQueues(mid: Book, product: nat, o: Order)
    requires Wf(mid) && o.id != 0 && o.id !in mid.entries && Key(product, IsBid(o.flags)) < |mid.ladder| &&
        !Parked(o.flags)
    ensures var b := Insert(mid, product, o);
            && |b.ladder| == |mid.ladder| && b.entries == mid.entries[o.id := Entry(product, o)]
            && (forall k: nat :: k < |b.ladder| && k != Key(product, IsBid(o.flags)) ==> b.ladder[k] == mid.ladder[k])
            && forall k: nat, q: nat ::
                 QueueAt(b, k, q) == QueueAt(mid, k, q) + if k == Key(product, IsBid(o.flags)) && q == o.price
                     then [o.id] else []
  {
    hide Wf, QueueAt, PlaceId;
    forall k: nat, q: nat ensures QueueAt(Insert(mid, product, o), k, q) == QueueAt(mid, k, q) +
        if k == Key(product, IsBid(o.flags)) && q == o.price then [o.id] else [] {
      InsertQueues(mid, product, o, k, q);
    }
  }

  // -------------------------------------------------- deactivated and activated again

  /** No order of the other side is within the order's limit. */
  ghost predicate Clear(b: Book, product: nat, o: Order) {
    var m := Key(product, !IsBid(o.flags));
    m < |b.ladder| && forall x :: OnSide(b.ladder[m], x) && x in b.entries ==>
        !Answers.Within(o, b.entries[x].order.price)
  }

  /** A taker out of everybody's reach asks nobody. */
  lemma NobodyAsked(p: Policy, taker: Order, product: nat, stages: seq<Answers.Stage>, e: map<nat, Entry>,
                    ahead: seq<nat>)
    requires Answers.Chain(p, taker, product, stages) && stages[0] == Answers.Stage(e, [], ahead, taker.remain, 0, [])
    requires ahead != [] && ahead[0] in e ==> !Answers.Within(taker, e[ahead[0]].order.price)
    ensures |stages| == 1
  {
    if |stages| > 1 { FirstStep(p, taker, product, stages); }
  }

  lemma FirstStep(p: Policy, taker: Order, product: nat, stages: seq<Answers.Stage>)
    requires Answers.Chain(p, taker, product, stages) && |stages| > 1
    ensures Answers.Follows(p, taker, product, stages[0], stages[1])
  {
    assert Answers.Follows(p, taker, product, stages[0], stages[0 + 1]);
  }

  /** A queue afterwards: the order at its end if it is that of the order's side and price, and otherwise as before. */
  predicate Joins(b: Book, b': Book, k: nat, q: nat, product: nat, o: Order) {
    QueueAt(b', k, q) == QueueAt(b, k, q) + if k == Key(product, IsBid(o.flags)) && q == o.price then [o.id] else []
  }

  /** A submission out of everybody's reach is a booking at the end of the queue. */
  lemma SubmitRests(c: Config, b: Book, product: nat, o: Order, p: Policy)
    requires Fits(c, b) && product < c.products && !Parked(o.flags) && o.remain > 0
    requires o.org < c.orgs && o.id != 0 && o.id !in b.entries && Clear(b, product, o)
    ensures var l := Submit(c, b, product, o, p, true);
            && l.log == [RInsert(product, o)] && l.book.entries == b.entries[o.id := Entry(product, o)]
            && forall k: nat, q: nat :: k != Key(product, !IsBid(o.flags)) ==> Joins(b, l.book, k, q, product, o)
  {
    hide Submit, QueueAt, Wf;
    var stages := SubmitMeans(c, b, product, o, p, true);
    var m := Key(product, !IsBid(o.flags));
    var ahead := Flat(b.ladder[m]);
    if ahead != [] { FlatIn(b.ladder[m], ahead[0]); }
    NobodyAsked(p, o, product, stages, b.entries, ahead);
    assert o.(remain := o.remain) == o;
  }

  lemma Withdrawn(c: Config, b: Book, id: nat)
    requires Fits(c, b) && id in b.entries && Parked(b.entries[id].order.flags)
    ensures Fits(c, b.(entries := b.entries - {id})) && |b.entries - {id}| < c.slots
    ensures forall k: nat, q: nat :: QueueAt(b.(entries := b.entries - {id}), k, q) == QueueAt(b, k, q)
  {
    var e := b.entries - {id};
    ParkedGone(b, id);
    assert e.Keys == b.entries.Keys - {id};
    assert !Linked(b, id);
    forall k: nat, q: nat ensures QueueAt(b.(entries := e), k, q) == QueueAt(b, k, q) {
      if k < |b.ladder| {
        assert SideOk(b.entries, k, b.ladder[k]);
        forall i | 0 <= i < |b.ladder[k]| ensures id !in b.ladder[k][i] { NotOnSide(b, k, i, id); }
        RestQueues(b.entries, e, k, b.ladder[k], id, q);
      }
    }
  }

  lemma NotOnSide(b: Book, k: nat, i: nat, id: nat)
    requires Wf(b) && k < |b.ladder| && i < |b.ladder[k]| && !Linked(b, id)
    ensures id !in b.ladder[k][i]
  {
    if OnSide(b.ladder[k], id) { OnSideKey(b, k, id); }
  }

  /** Deactivation marks the order and takes it out of its queue. */
  lemma DeactivateMeans(c: Config, b: Book, id: nat)
    requires Fits(c, b) && Linked(b, id)
    ensures var l, en := Run1(c, b, DeactivateOp(id)), b.entries[id];
            && l.log == [RDeactivate(id)] && Fits(c, l.book)
            && l.book.entries == b.entries[id := en.(order := en.order.(flags := en.order.flags.(status := 5)))]
            && forall k: nat, q: nat :: QueueAt(l.book, k, q) == Without(QueueAt(b, k, q), id)
  {
    OpRebuilds(c, b, 1, DeactivateOp(id));
    assert !Parked(b.entries[id].order.flags);
    forall k: nat, q: nat ensures QueueAt(Deactivate(b, id), k, q) == Without(QueueAt(b, k, q), id) {
      RemoveQueues(b, id, k, q);
    }
  }

  /** Activation out of everybody's reach books the order again, as new, at the end of its queue. */
  lemma ActivateMeans(c: Config, b: Book, id: nat, p: Policy)
    requires Fits(c, b) && id in b.entries && Parked(b.entries[id].order.flags) && !p.exclude
    requires b.entries[id].order.org < c.orgs && Clear(b, b.entries[id].product, b.entries[id].order)
    ensures var l, en := Run1(c, b, ActivateOp(id, p, true)), b.entries[id];
            var o := en.order.(flags := en.order.flags.(status := 0));
            && l.log == [RActivate(id), RInsert(en.product, o)] &&
               l.book.entries == b.entries[id := Entry(en.product, o)]
            && forall k: nat, q: nat :: k != Key(en.product, !IsBid(o.flags)) ==> Joins(b, l.book, k, q, en.product, o)
  {
    hide Wf, QueueAt, Submit, Fits, Run1;
    var en := b.entries[id];
    var b', o := b.(entries := b.entries - {id}), en.order.(flags := en.order.flags.(status := 0));
    EntryOk(c, b, id);
    Withdrawn(c, b, id);
    ActivateIs(c, b, id, p);
    SubmitRests(c, b', en.product, o, p);
    var l := Run1(c, b, ActivateOp(id, p, true));
    forall k: nat, q: nat | k != Key(en.product, !IsBid(o.flags)) ensures Joins(b, l.book, k, q, en.product, o) {
      assert Joins(b', l.book, k, q, en.product, o);
    }
    assert b'.entries[id := Entry(en.product, o)] == b.entries[id := Entry(en.product, o)];
    assert [RActivate(id)] + [RInsert(en.product, o)] == [RActivate(id), RInsert(en.product, o)];
  }

  lemma ActivateIs(c: Config, b: Book, id: nat, p: Policy)
    requires Fits(c, b) && id in b.entries && Parked(b.entries[id].order.flags) && !p.exclude
    ensures var en, b' := b.entries[id], b.(entries := b.entries - {id});
            && Wf(b') && en.product < c.products && |b'.ladder| == 2 * c.products
            && var l := Submit(c, b', en.product, en.order.(flags := en.order.flags.(status := 0)), p, true);
               Run1(c, b, ActivateOp(id, p, true)) == Live(l.book, [RActivate(id)] + l.log)
  {
    EntryOk(c, b, id);
    ParkedGone(b, id);
    hide Wf, Submit;
  }

  lemma EntryOk(c: Config, b: Book, id: nat)
    requires Fits(c, b) && id in b.entries
    ensures b.entries[id].order.id == id != 0 && b.entries[id].product < c.products && b.entries[id].order.remain > 0
  {
  }

  // ------------------------------------------------------------------- cancelling

  /** The orders resting at a deactivated order's price are those of the queue there. */
  lemma PeersAre(b: Book, id: nat)
    requires Wf(b) && id in b.entries
    ensures KeyOf(b.entries[id]) < |b.ladder|
    ensures PeersOf(b, id) == |QueueAt(b, KeyOf(b.entries[id]), b.entries[id].order.price)|
  {
    var k, p := KeyOf(b.entries[id]), b.entries[id].order.price;
    var levels, n := b.ladder[k], Better(b.entries, k, b.ladder[k], Rank(k, p));
    assert SideOk(b.entries, k, levels);
    if LevelExists(b.entries, k, levels, p) {
      QueueIs(b.entries, k, levels, p, n);
    } else {
      NotThere(b.entries, k, levels, p, n);
      NoQueue(b.entries, levels, p);
    }
  }

  /**
   Cancelling a known order is always logged. An active one leaves the book and its queue. A deactivated
   one leaves the book only if exactly one order rests at its price; it stays if none does; and with two
   or more the book is not sound afterwards.
   */
  lemma CancelMeans(c: Config, b: Book, id: nat)
    requires Fits(c, b) && id in b.entries
    ensures var k, p := KeyOf(b.entries[id]), b.entries[id].order.price;
            var r := CancelEffect(b, id);
            if !Parked(b.entries[id].order.flags) then
              && r.Some? && r.value.entries == b.entries - {id}
              && forall i: nat, q: nat :: QueueAt(r.value, i, q) == Without(QueueAt(b, i, q), id)
            else if |QueueAt(b, k, p)| == 0 then r == Some(b)
            else if |QueueAt(b, k, p)| == 1 then
              && r.Some? && r.value.entries == b.entries - {id}
              && forall i: nat, q: nat :: QueueAt(r.value, i, q) == QueueAt(b, i, q)
            else r == None
    ensures CancelSafe(b, id) ==> CancelLive(b, id).log == [RCancel(id)]
  {
    PeersAre(b, id);
    assert Linked(b, id) <==> !Parked(b.entries[id].order.flags);
    if Linked(b, id) {
      forall i: nat, q: nat ensures QueueAt(Remove(b, id), i, q) == Without(QueueAt(b, i, q), id) {
        RemoveQueues(b, id, i, q);
      }
    } else {
      Withdrawn(c, b, id);
    }
  }
}
