/**
 The matching engine over the in-memory order book: its nested loops are proved against the
 outcome functions of Matching, and its operations against those of Replay.
 */
module Engine {
  import opened Common
  import opened Links
  import opened BookState
  import opened OrderBooks
  import opened Matching
  import opened Visiting
  import B = Book
  import L = Ladders
  import Q = OrgQueue
  import R = Replay

  /** The book is sound and slot `x`, taken from the slab, holds an order that is not in it. */
  ghost predicate Holding(book: OrderBook, x: nat)
    reads book`hash, book`ladder, book.slab`freeA, book.slab`freeB, book.slab`used, book.slab`free, book.slab.ord,
        book.slab.q0, book.slab.q1, book.slab.q2, book.slab.q3, book.slab.aux
    reads book.heads, book.roots, book.known, book.orgHeads
  {
    && book.Valid() && x < book.slab.ord.Length && x !in book.slab.free
    && forall id :: id in book.hash ==> book.hash[id].slot != x
  }

  /** The order map has only lost orders. */
  predicate Shrunk(before: map<nat, Loc>, after: map<nat, Loc>) {
    forall id :: id in after ==> id in before && after[id] == before[id]
  }

  // --------------------------------------------------------- one maker

  /** Removes a resting maker. */
  method Retire(book: OrderBook, product: nat, m: nat, ghost id: nat, ghost x: nat)
    requires Holding(book, x) && id in book.hash && book.hash[id] == Loc(m, product) && B.Linked(book.Book(), id)
    modifies book`hash, book`ladder, book`members, book.slab`freeA, book.slab`freeB, book.slab`used, book.slab`free
    modifies book.slab.q0, book.slab.q1, book.slab.q2, book.slab.q3, book.slab.aux, book.heads, book.roots, book.known
    ensures Holding(book, x) && book.Book() == B.Remove(old(book.Book()), id) && book.hash == old(book.hash) - {id}
  {
    hide book.Valid;
    book.Admitted(book.hash[id].product, m, id);
    RemoveEffect(book.Book(), id);
    var ok := book.RemoveSlot(product, m);
  }

  lemma RemoveEffect(b: B.Book, id: nat)
    requires B.Linked(b, id)
    ensures Harmless(b, id) && R.CancelEffect(b, id) == Some(B.Remove(b, id))
  {
  }

  /** Moves `q` units from the maker's and the taker's remaining volume. */
  method Exchange(book: OrderBook, m: nat, x: nat, q: nat, ghost id: nat)
    requires Holding(book, x) && id in book.hash && book.hash[id].slot == m
    requires m < book.slab.ord.Length && q <= book.slab.ord[m].remain && q <= book.slab.ord[x].remain
    modifies book.slab.ord
    ensures Holding(book, x)
    ensures var e := old(book.Book()).entries;
            id in e && book.Book() == old(book.Book()).(entries := B.SetRemain(e, id, old(book.slab.ord[m].remain) - q))
    ensures m != x && book.slab.ord[..] == Exchanged(old(book.slab.ord[..]), m, x, q)
  {
    hide Ok, B.Wf, Entries, book.slab.Valid, Exchanged;
    ExchangeState(book.St(), id, m, x, q);
    ExchangedIs(book.slab.ord[..], m, x, q);
    book.slab.ord[m] := book.slab.ord[m].(remain := book.slab.ord[m].remain - q);
    book.slab.ord[x] := book.slab.ord[x].(remain := book.slab.ord[x].remain - q);
    assert book.St() == old(book.St()).(ord := Exchanged(old(book.slab.ord[..]), m, x, q));
  }

  function Exchanged(ord: seq<B.Order>, m: nat, x: nat, q: nat): (r: seq<B.Order>)
    requires m < |ord| && x < |ord| && m != x && q <= ord[m].remain && q <= ord[x].remain
    ensures |r| == |ord|
  {
    ord[m := ord[m].(remain := ord[m].remain - q)][x := ord[x].(remain := ord[x].remain - q)]
  }

  lemma ExchangedIs(ord: seq<B.Order>, m: nat, x: nat, q: nat)
    requires m < |ord| && x < |ord| && m != x && q <= ord[m].remain && q <= ord[x].remain
    ensures Exchanged(ord, m, x, q) ==
        ord[m := ord[m].(remain := ord[m].remain - q)][x := ord[x].(remain := ord[x].remain - q)]
    ensures forall i :: 0 <= i < |ord| ==> Exchanged(ord, m, x, q)[i].org == ord[i].org
  {
  }

  lemma ExchangeState(s: State, id: nat, m: nat, x: nat, q: nat)
    requires Ok(s) && B.Wf(Abs(s)) && id in s.hash && s.hash[id].slot == m && x < |s.ord| && m < |s.ord|
    requires forall i :: i in s.hash ==> s.hash[i].slot != x
    requires q <= s.ord[m].remain && q <= s.ord[x].remain
    ensures var t := s.(ord := Exchanged(s.ord, m, x, q));
            && Ok(t) && B.Wf(Abs(t)) && id in Abs(s).entries
            && Abs(t) == Abs(s).(entries := B.SetRemain(Abs(s).entries, id, s.ord[m].remain - q))
  {
    hide Ok, B.Wf, Entries;
    var o, w := s.ord[m].(remain := s.ord[m].remain - q), s.ord[x].(remain := s.ord[x].remain - q);
    var u := s.(ord := s.ord[m := o]);
    TouchMaker(s, id, m, s.ord[m].remain - q);
    TouchIdle(u, x, w);
    assert u.ord[x := w] == Exchanged(s.ord, m, x, q);
  }

  lemma TouchMaker(s: State, id: nat, m: nat, remain: nat)
    requires Ok(s) && B.Wf(Abs(s)) && id in s.hash && s.hash[id].slot == m && m < |s.ord|
    ensures var t := s.(ord := s.ord[m := s.ord[m].(remain := remain)]);
            && Ok(t) && B.Wf(Abs(t)) &&
               id in Abs(s).entries && Abs(t) == Abs(s).(entries := B.SetRemain(Abs(s).entries, id, remain))
  {
    EntryAt(s.hash, s.ord, id);
    var o := s.ord[m].(remain := remain);
    NewVolumes(s, id, m, o);
    hide Ok, B.Wf;
    TouchOk(s, s.(ord := s.ord[m := o]), m, o);
    B.SetRemainWf(Abs(s), id, remain);
  }

  /** Writing a slot that no id maps to leaves the book alone. */
  lemma TouchIdle(s: State, x: nat, o: B.Order)
    requires Ok(s) && x < |s.ord| && forall i :: i in s.hash ==> s.hash[i].slot != x
    ensures var t := s.(ord := s.ord[x := o]); Ok(t) && Abs(t) == Abs(s)
  {
    NotOnLadder(s, x);
    assert HashOk(s.hash, s.ord);
    hide Ok;
    TouchOk(s, s.(ord := s.ord[x := o]), x, o);
    assert Entries(s.hash, s.ord[x := o]) == Entries(s.hash, s.ord);
  }

  lemma NewVolumes(s: State, id: nat, m: nat, o: B.Order)
    requires HashOk(s.hash, s.ord) && id in s.hash && s.hash[id].slot == m && m < |s.ord| && o.id == id
    ensures id in Entries(s.hash, s.ord)
    ensures Entries(s.hash, s.ord[m := o]) == Entries(s.hash, s.ord)[id := B.Entry(s.hash[id].product, o)]
  {
    var e, f := Entries(s.hash, s.ord), Entries(s.hash, s.ord[m := o]);
    assert f.Keys == s.hash.Keys == e.Keys;
    forall i | i in s.hash
        ensures f[i] == if i == id then B.Entry(s.hash[id].product, o) else e[i] { SlotApart(s.hash, s.ord, i, id); }
  }

  /** What the links say about the maker at the front of the part of a level still to be visited. */
  lemma MakerFacts(s: State, k: nat, pre: seq<seq<nat>>, a: seq<nat>, ids: seq<nat>, post: seq<seq<nat>>)
    requires Ok(s) && B.Wf(Abs(s)) && k < |s.ladder| && s.ladder[k] == pre + B.Glue(a + ids, post) && ids != []
    ensures Present(Abs(s).entries, ids) && Distinct(ids)
    ensures var id, m := ids[0], SlotOf(s.hash, ids[0]);
            && id in s.hash && m < |s.ord| == |s.q2| && s.hash[id] == Loc(m, k / 2) && s.ord[m].id == id
            && id in Abs(s).entries && Abs(s).entries[id] == B.Entry(k / 2, s.ord[m]) && B.Linked(Abs(s), id)
            && s.q2[m].next == SlotAt(s.hash, ids[1..], 0)
            && B.Remove(Abs(s), id) == B.Book(Abs(s).entries - {id}, s.ladder[k := pre + B.Glue(a + ids[1..], post)])
  {
    var id := ids[0];
    assert ids == [id] + ids[1..];
    FrontIds(s, k, pre, a, ids, post);
    R.FrontMaker(Abs(s), k, pre, a, id, ids[1..], post);
    hide Ok, B.Wf, Entries;
    LevelSlotAt(s, k, |pre|, |a|);
    EntryKey(s, id, k);
  }

  lemma EntryKey(s: State, id: nat, k: nat)
    requires Ok(s) && id in s.hash && id in Abs(s).entries && B.KeyOf(Abs(s).entries[id]) == k
    ensures s.hash[id].product == k / 2 && SlotOf(s.hash, id) < |s.ord| && s.ord[SlotOf(s.hash, id)].id == id
  {
    EntryAt(s.hash, s.ord, id);
  }

  lemma FrontIds(s: State, k: nat, pre: seq<seq<nat>>, a: seq<nat>, ids: seq<nat>, post: seq<seq<nat>>)
    requires Ok(s) && B.Wf(Abs(s)) && k < |s.ladder| && s.ladder[k] == pre + B.Glue(a + ids, post) && ids != []
    ensures |pre| < |s.ladder[k]| && s.ladder[k][|pre|] == a + ids && (a + ids)[|a|] == ids[0]
    ensures SlotAt(s.hash, a + ids, |a| + 1) == SlotAt(s.hash, ids[1..], 0)
    ensures Present(Abs(s).entries, ids) && Distinct(ids)
  {
    assert s.ladder[k][|pre|] == a + ids;
    assert B.SideOk(Abs(s).entries, k, s.ladder[k]);
    assert B.LevelOk(Abs(s).entries, k, s.ladder[k][|pre|]);
    assert forall j :: 0 <= j < |ids| ==> ids[j] == (a + ids)[|a| + j];
  }

  /** Trades `q` units with the maker, which leaves the book when nothing of it remains. */
  method Deal(book: OrderBook, product: nat, m: nat, x: nat, q: nat, price: nat, ghost id: nat) returns (filled: bool)
    requires Holding(book, x) && id in book.hash && book.hash[id] == Loc(m, product) && B.Linked(book.Book(), id)
    requires m < book.slab.ord.Length && 0 < q <= book.slab.ord[m].remain && q <= book.slab.ord[x].remain &&
        book.slab.ord[m].id == id
    modifies book`hash, book`log, book`ladder, book`members, book.slab`freeA, book.slab`freeB, book.slab`used,
        book.slab`free
    modifies book.slab.ord, book.slab.q0, book.slab.q1, book.slab.q2, book.slab.q3, book.slab.aux, book.heads,
        book.roots, book.known
    ensures Holding(book, x) && Shrunk(old(book.hash), book.hash) && filled == (q == old(book.slab.ord[m].remain))
    ensures var e := old(book.Book()).entries;
            && id in e && B.KeyOf(e[id]) < |old(book.ladder)|
            && book.Book() == (if filled then B.Remove(old(book.Book()), id)
                               else old(book.Book()).(entries := B.SetRemain(e, id, old(book.slab.ord[m].remain) - q)))
    ensures book.hash == if filled then old(book.hash) - {id} else old(book.hash)
    ensures book.slab.ord[x] == old(book.slab.ord[x]).(remain := old(book.slab.ord[x].remain) - q)
    ensures book.log == old(book.log) + if book.logging then [B.RMatch(id, old(book.slab.ord[x].id), price, q, product)]
        else []
  {
    hide book.Valid, Exchanged, B.Linked, B.Remove, B.SetRemain, Entries, Ok;
    book.Admitted(product, m, id);
    if book.logging {
      book.log := book.log + [B.RMatch(book.slab.ord[m].id, book.slab.ord[x].id, price, q, product)];
    }
    ExchangedIs(book.slab.ord[..], m, x, q);
    DealtBook(book.Book(), id, book.slab.ord[m].remain - q);
    Exchange(book, m, x, q, id);
    filled := book.slab.ord[m].remain == 0;
    if filled {
      Retire(book, product, m, id, x);
    }
  }

  lemma DealtBook(b: B.Book, id: nat, remain: nat)
    requires B.Linked(b, id)
    ensures var b' := b.(entries := B.SetRemain(b.entries, id, remain));
        B.Linked(b', id) && B.Remove(b', id) == B.Remove(b, id)
  {
    assert B.SetRemain(b.entries, id, remain) - {id} == b.entries - {id};
  }

  /** The book in which a level's queue is `a + ids`, everything before `ids` having been visited. */
  ghost predicate Facing(book: OrderBook, k: nat, pre: seq<seq<nat>>, a: seq<nat>, ids: seq<nat>, post: seq<seq<nat>>)
    reads book`ladder
  {
    k < |book.ladder| && book.ladder[k] == pre + B.Glue(a + ids, post)
  }

  /** What one turn leaves behind. */
  ghost predicate Turned(book: OrderBook, t: Turn, ladder: seq<seq<seq<nat>>>, k: nat, pre: seq<seq<nat>>, a: seq<nat>,
                         post: seq<seq<nat>>,
                         x: nat, taker: B.Order, log: seq<B.Record>)
    reads book`hash, book`ladder, book`log, book`logging, book.slab.ord, book.slab.q1, book.slab.q2, book.known,
        book.heads, book.roots
  {
    && k < |ladder| && book.Book() == B.Book(t.e, ladder[k := pre + B.Glue(a + t.passed + t.ids, post)])
    && x < book.slab.ord.Length && book.slab.ord[x] == taker.(remain := t.remain)
    && book.log == log + if book.logging then t.log else []
  }

  /** One turn of the inner loop. */
  method VisitMaker(book: OrderBook, product: nat, x: nat, p: Policy, m: nat, price: nat, calls: nat,
                    ghost k: nat, ghost pre: seq<seq<nat>>, ghost a: seq<nat>, ghost ids: seq<nat>,
                        ghost post: seq<seq<nat>>)
    returns (next: nat, asked: nat)
    requires Holding(book, x) && Facing(book, k, pre, a, ids, post) && ids != [] && k / 2 == product
    requires m == SlotOf(book.hash, ids[0]) && book.slab.ord[x].remain > 0
    requires Present(book.Book().entries, ids) && Distinct(ids)
    modifies book`hash, book`log, book`ladder, book`members, book.slab`freeA, book.slab`freeB, book.slab`used,
        book.slab`free
    modifies book.slab.ord, book.slab.q0, book.slab.q1, book.slab.q2, book.slab.q3, book.slab.aux, book.heads,
        book.roots, book.known
    ensures Holding(book, x) && Shrunk(old(book.hash), book.hash)
    ensures var t := TurnOf(p, old(book.Book().entries), ids, product, price, old(book.slab.ord[x]), calls);
            && Turned(book, t, old(book.ladder), k, pre, a, post, x, old(book.slab.ord[x]), old(book.log))
            && asked == t.calls && next == SlotAt(book.hash, t.ids, 0)
  {
    hide book.Valid, Ok, Entries, B.Linked, B.Wf, TurnOf, Decide, B.Glue, B.Remove, B.SetRemain, Distinct, Present,
         Holding, SlotAt;
    ghost var id := ids[0];
    InFront(book, x, k, pre, a, ids, post);
    Splits(a, ids);
    var maker, taker := book.slab.ord[m], book.slab.ord[x];
    TurnIs(p, book.Book().entries, ids, product, price, taker, calls);
    var after := book.slab.q2[m].next;
    var action;
    action, asked := Ask(p, calls, maker, taker);
    match action
    case Skip => next := after;
    case Drop =>
      Retire(book, product, m, id, x);
      next := after;
    case CancelMaker =>
      CancelResting(book, product, m, x, false);
      next := after;
    case CancelBoth =>
      CancelResting(book, product, m, x, true);
      next := after;
    case Trade(q) =>
      var filled := Deal(book, product, m, x, q, price, id);
      next := if filled then after else m;
  }

  /** Cancels the maker on the callback's word, and the rest of the taker as well if `both`. */
  method CancelResting(book: OrderBook, product: nat, m: nat, x: nat, both: bool)
    requires Holding(book, x) && m < book.slab.ord.Length && B.Linked(book.Book(), book.slab.ord[m].id) && m != x
    requires book.slab.ord[m].id in book.hash && book.hash[book.slab.ord[m].id] == Loc(m, product)
    modifies book`hash, book`log, book`ladder, book`members, book.slab`freeA, book.slab`freeB, book.slab`used,
        book.slab`free
    modifies book.slab.ord, book.slab.q0, book.slab.q1, book.slab.q2, book.slab.q3, book.slab.aux, book.heads,
        book.roots, book.known
    ensures Holding(book, x) && book.Book() == B.Remove(old(book.Book()), old(book.slab.ord[m].id))
    ensures book.hash == old(book.hash) - {old(book.slab.ord[m].id)}
    ensures book.slab.ord[x] == old(book.slab.ord[x]).(remain := if both then 0 else old(book.slab.ord[x].remain))
    ensures book.log == old(book.log) + if book.logging then [B.RCancel(old(book.slab.ord[m].id))] else []
  {
    hide book.Valid, B.Linked, B.Remove, Entries, Ok;
    if book.logging { book.log := book.log + [B.RCancel(book.slab.ord[m].id)]; }
    Retire(book, product, m, book.slab.ord[m].id, x);
    if both { Exhaust(book, x); }
  }

  lemma Splits(a: seq<nat>, ids: seq<nat>)
    requires ids != []
    ensures a + [] + ids == a + ids && a + [ids[0]] + ids[1..] == a + ids && a + [] + ids[1..] == a + ids[1..]
  {
  }

  lemma InFront(book: OrderBook, x: nat, k: nat, pre: seq<seq<nat>>, a: seq<nat>, ids: seq<nat>, post: seq<seq<nat>>)
    requires Holding(book, x) && Facing(book, k, pre, a, ids, post) && ids != []
    ensures Present(book.Book().entries, ids) && Distinct(ids) && x < book.slab.ord.Length
    ensures var id, m := ids[0], SlotOf(book.hash, ids[0]);
            && id in book.hash && m < book.slab.ord.Length == book.slab.q2.Length && book.hash[id] == Loc(m, k / 2) &&
                     book.slab.ord[m].id == id
            && id in book.Book().entries && book.Book().entries[id] == B.Entry(k / 2, book.slab.ord[m]) &&
                     B.Linked(book.Book(), id) && m != x
            && book.slab.q2[m].next == SlotAt(book.hash, ids[1..], 0) == SlotAt(book.hash - {id}, ids[1..], 0) &&
               SlotAt(book.hash, ids, 0) == m
            && B.Remove(book.Book(), id) ==
               B.Book(book.Book().entries - {id}, book.ladder[k := pre + B.Glue(a + ids[1..], post)])
  {
    hide Ok, B.Wf, Entries, book.slab.Valid, B.Glue, B.Remove;
    MakerFacts(book.St(), k, pre, a, ids, post);
  }

  /** What the turn is, for each decision. */
  lemma TurnIs(p: Policy, e: map<nat, B.Entry>, ids: seq<nat>, product: nat, price: nat, taker: B.Order, calls: nat)
    requires Present(e, ids) && Distinct(ids) && ids != [] && taker.remain > 0 && ids[0] in e
    ensures var m, maker := ids[0], e[ids[0]].order;
            var asked := if Consults(p, maker, taker) then calls + 1 else calls;
            TurnOf(p, e, ids, product, price, taker, calls)
            == match Decide(p, calls, maker, taker)
               case Skip => Turn(e, [m], ids[1..], taker.remain, asked, [])
               case Drop => Turn(e - {m}, [], ids[1..], taker.remain, asked, [])
               case CancelMaker => Turn(e - {m}, [], ids[1..], taker.remain, asked, [B.RCancel(m)])
               case CancelBoth => Turn(e - {m}, [], ids[1..], 0, asked, [B.RCancel(m)])
               case Trade(q) =>
                 Turn(if q == maker.remain then e - {m} else B.SetRemain(e, m, maker.remain - q), [],
                      if q == maker.remain then ids[1..] else ids, taker.remain - q, asked,
                          [B.RMatch(m, taker.id, price, q, product)])
  {
  }

  /** The decision about one maker, asking the callback where there is one. */
  method Ask(p: Policy, calls: nat, maker: B.Order, taker: B.Order) returns (action: Action, asked: nat)
    requires taker.remain > 0
    ensures action == Decide(p, calls, maker, taker)
    ensures asked == if Consults(p, maker, taker) then calls + 1 else calls
    ensures action.Trade? ==> 0 < action.q <= maker.remain && action.q <= taker.remain
  {
    asked := calls;
    if p.exclude && maker.org == taker.org { return Skip, asked; }
    if maker.remain == 0 { return Drop, asked; }
    var matchable := maker.remain;
    if taker.remain < matchable { matchable := taker.remain; }
    if p.can.Some? {
      var allowed := p.can.value(calls, maker, taker);
      asked := asked + 1;
      if allowed == CANCEL_MAKER { return CancelMaker, asked; }
      if allowed == CANCEL_BOTH { return CancelBoth, asked; }
      if allowed == DECREMENT_CANCEL { return Trade(matchable), asked; }
      if allowed == 0 { return Skip, asked; }
      if allowed < matchable { matchable := allowed; }
    }
    action := Trade(matchable);
  }

  /** The taker gives up its remaining volume. */
  method Exhaust(book: OrderBook, x: nat)
    requires Holding(book, x)
    modifies book.slab.ord
    ensures Holding(book, x) && book.Book() == old(book.Book()) &&
        book.slab.ord[x] == old(book.slab.ord[x]).(remain := 0)
  {
    hide Ok, Entries, B.Wf, book.slab.Valid;
    TouchIdle(book.St(), x, book.slab.ord[x].(remain := 0));
    book.slab.ord[x] := book.slab.ord[x].(remain := 0);
    assert book.St() == old(book.St()).(ord := old(book.slab.ord[..])[x := old(book.slab.ord[x]).(remain := 0)]);
  }

  // --------------------------------------------------------- one level

  /** What working on a level leaves behind. */
  ghost predicate LevelLeft(book: OrderBook, r: LevelOutcome, ladder: seq<seq<seq<nat>>>, k: nat, pre: seq<seq<nat>>,
                            a: seq<nat>, post: seq<seq<nat>>,
                            x: nat, taker: B.Order, log: seq<B.Record>)
    reads book`hash, book`ladder, book`log, book`logging, book.slab.ord, book.slab.q1, book.slab.q2, book.known,
        book.heads, book.roots
  {
    && k < |ladder| && book.Book() == B.Book(r.e, ladder[k := pre + B.Glue(a + r.ids, post)])
    && x < book.slab.ord.Length && book.slab.ord[x] == taker.(remain := r.remain)
    && book.log == log + if book.logging then r.log else []
  }

  /** The state of the inner loop, the makers `passed` lying behind. */
  ghost predicate Midway(book: OrderBook, ids: seq<nat>, passed: seq<nat>, lg: seq<B.Record>,
                         ladder: seq<seq<seq<nat>>>, k: nat, pre: seq<seq<nat>>,
                         a: seq<nat>, post: seq<seq<nat>>, x: nat, taker: B.Order, log: seq<B.Record>)
    reads book`hash, book`ladder, book`log, book`logging, book.slab.ord, book.slab.q1, book.slab.q2, book.known,
        book.heads, book.roots
  {
    && Present(book.Book().entries, ids) && Distinct(ids)
    && LevelLeft(book, LevelOutcome(book.Book().entries, passed + ids, if x < book.slab.ord.Length
       then book.slab.ord[x].remain else 0, 0, lg),
                 ladder, k, pre, a, post, x, taker, log)
  }

  lemma MidwayTurn(book: OrderBook, t: Turn, passed: seq<nat>, lg: seq<B.Record>, ladder: seq<seq<seq<nat>>>, k: nat,
                   pre: seq<seq<nat>>,
                   a: seq<nat>, post: seq<seq<nat>>, x: nat, taker: B.Order, log: seq<B.Record>,
                       before: seq<seq<seq<nat>>>, left: B.Order, logged: seq<B.Record>)
    requires Turned(book, t, before, k, pre, a + passed, post, x, left, logged) && Present(t.e, t.ids) &&
        Distinct(t.ids)
    requires k < |ladder| && before == ladder[k := before[k]] && left == taker.(remain := left.remain)
    requires logged == log + if book.logging then lg else []
    ensures Midway(book, t.ids, passed + t.passed, lg + t.log, ladder, k, pre, a, post, x, taker, log)
  {
    assert a + passed + t.passed + t.ids == a + (passed + t.passed + t.ids);
    assert before[k := pre + B.Glue(a + passed + t.passed + t.ids, post)] ==
        ladder[k := pre + B.Glue(a + (passed + t.passed + t.ids), post)];
    assert log + lg + t.log == log + (lg + t.log);
  }

  /** The inner loop: visits makers from `first` on while there are any and the taker has volume left. */
  method WorkLevel(book: OrderBook, product: nat, x: nat, p: Policy, first: nat, price: nat, calls: nat,
                   ghost k: nat, ghost pre: seq<seq<nat>>, ghost a: seq<nat>, ghost ids: seq<nat>,
                       ghost post: seq<seq<nat>>)
    returns (asked: nat)
    requires Holding(book, x) && Facing(book, k, pre, a, ids, post) && k / 2 == product &&
        first == SlotAt(book.hash, ids, 0)
    requires Present(book.Book().entries, ids) && Distinct(ids)
    modifies book`hash, book`log, book`ladder, book`members, book.slab`freeA, book.slab`freeB, book.slab`used,
        book.slab`free
    modifies book.slab.ord, book.slab.q0, book.slab.q1, book.slab.q2, book.slab.q3, book.slab.aux, book.heads,
        book.roots, book.known
    ensures Holding(book, x) && Shrunk(old(book.hash), book.hash)
    ensures var r := MatchLevel(p, old(book.Book().entries), ids, product, price, old(book.slab.ord[x]), calls);
            LevelLeft(book, r, old(book.ladder), k, pre, a, post, x, old(book.slab.ord[x]), old(book.log)) &&
                asked == r.calls
  {
    hide book.Valid, Ok, Entries, B.Wf, MatchLevel, TurnOf, B.Glue, Distinct, Present, Join;
    ghost var e0, t0, ladder0, log0 := book.Book().entries, book.slab.ord[x], book.ladder, book.log;
    ghost var passed: seq<nat>, rest, lg: seq<B.Record> := [], ids, [];
    var maker := first;
    asked := calls;
    assert a + ids == a + ([] + ids) by { assert [] + ids == ids; }
    JoinNothing(MatchLevel(p, e0, ids, product, price, t0, calls));
    while maker != NULL && book.slab.ord[x].remain > 0
      invariant Holding(book, x) && Shrunk(old(book.hash), book.hash)
      invariant Midway(book, rest, passed, lg, ladder0, k, pre, a, post, x, t0, log0) &&
          maker == SlotAt(book.hash, rest, 0)
      invariant MatchLevel(p, e0, ids, product, price, t0, calls)
                == Join(passed, lg, MatchLevel(p, book.Book().entries, rest, product, price, book.slab.ord[x], asked))
      decreases |rest|, book.slab.ord[x].remain
    {
      ghost var e, taker, before, logged := book.Book().entries, book.slab.ord[x], book.ladder, book.log;
      ghost var t := TurnOf(p, e, rest, product, price, taker, asked);
      LevelTurn(p, e, rest, product, price, taker, asked);
      assert a + (passed + rest) == a + passed + rest;
      maker, asked := VisitMaker(book, product, x, p, maker, price, asked, k, pre, a + passed, rest, post);
      MidwayTurn(book, t, passed, lg, ladder0, k, pre, a, post, x, t0, log0, before, taker, logged);
      JoinJoin(passed, lg, t.passed, t.log, MatchLevel(p, t.e, t.ids, product, price, book.slab.ord[x], t.calls));
      passed, rest, lg := passed + t.passed, t.ids, lg + t.log;
    }
    if rest != [] && book.slab.ord[x].remain > 0 {
      assert a + (passed + rest) == a + passed + rest;
      InFront(book, x, k, pre, a + passed, rest, post);
      NullIsNoSlot(book, x);
    }
    LevelOver(p, book.Book().entries, rest, product, price, book.slab.ord[x], asked, passed, lg);
  }

  lemma NullIsNoSlot(book: OrderBook, x: nat)
    requires Holding(book, x)
    ensures book.slab.ord.Length <= NULL
  {
  }

  lemma LevelOver(p: Policy, e: map<nat, B.Entry>, ids: seq<nat>, product: nat, price: nat, taker: B.Order, calls: nat,
                  passed: seq<nat>, lg: seq<B.Record>)
    requires Present(e, ids) && Distinct(ids) && (ids == [] || taker.remain == 0)
    ensures Join(passed, lg, MatchLevel(p, e, ids, product, price, taker, calls)) ==
        LevelOutcome(e, passed + ids, taker.remain, calls, lg)
  {
    assert lg + [] == lg;
  }

  // ---------------------------------------------------------- one side

  /** The outcome of matching a taker against the whole opposite side. */
  ghost function Worked(p: Policy, b: B.Book, product: nat, taker: B.Order): SideOutcome
    requires B.Wf(b) && R.MakerKey(product, taker) < |b.ladder|
  {
    var k := R.MakerKey(product, taker);
    R.SideOkPresent(b.entries, k, b.ladder[k]);
    MatchSide(p, b.entries, b.ladder[k], product, taker, 0)
  }

  /** The slot of the best order of the best of `levels`. */
  function FirstSlot(hash: map<nat, Loc>, levels: seq<seq<nat>>): nat {
    if levels != [] && levels[0] != [] then SlotOf(hash, levels[0][0]) else NULL
  }

  ghost predicate SideLeft(book: OrderBook, levels: seq<seq<nat>>, lg: seq<B.Record>, ladder: seq<seq<seq<nat>>>,
                           k: nat,
                           x: nat, taker: B.Order, log: seq<B.Record>)
    reads book`ladder, book`log, book`logging, book.slab.ord
  {
    && k < |ladder| && book.ladder == ladder[k := levels]
    && x < book.slab.ord.Length && book.slab.ord[x] == taker.(remain := book.slab.ord[x].remain)
    && book.log == log + if book.logging then lg else []
  }

  /** What the links say about the best of the levels still to be worked on. */
  lemma LevelFacts(s: State, k: nat, done: seq<seq<nat>>, rest: seq<seq<nat>>)
    requires Ok(s) && B.Wf(Abs(s)) && k < |s.ladder| && s.ladder[k] == done + rest
    ensures SidePresent(Abs(s).entries, rest)
    ensures rest != [] ==> var h := FirstSlot(s.hash, rest);
            && rest[0] != [] && h < |s.ord| == |s.q1| && h != NULL && h == HeadSlot(s, k, |done|) &&
               |done| < |s.ladder[k]| && s.ladder[k][|done|] == rest[0]
            && s.ord[h].price == B.LevelPrice(Abs(s).entries, rest[0])
            && rest[0][0] in Abs(s).entries && Abs(s).entries[rest[0][0]].order == s.ord[h]
            && s.q1[h].next == FirstSlot(s.hash, rest[1..])
  {
    R.SuffixPresent(Abs(s), k, done, rest);
    if rest != [] {
      assert s.ladder[k][|done|] == rest[0];
      LevelHead(s, k, |done|);
      LevelSlotAt(s, k, |done|, 0);
      PriceAt(s, k, |done|, 0, rest[0][0]);
      hide Ok, B.Wf, Entries, SidePresent;
      NextLevel(s, k, |done|);
      if |rest| > 1 { assert s.ladder[k][|done| + 1] == rest[1..][0]; }
    }
  }

  lemma NextLevel(s: State, k: nat, n: nat)
    requires Ok(s) && k < |s.ladder| && n < |s.ladder[k]|
    ensures HeadSlot(s, k, n) < |s.q1|
    ensures n + 1 < |s.ladder[k]| ==> s.ladder[k][n + 1] != []
    ensures s.q1[HeadSlot(s, k, n)].next == if n + 1 < |s.ladder[k]| then HeadSlot(s, k, n + 1) else NULL
  {
    SideNonempty(s, k, n);
    if n + 1 < |s.ladder[k]| { SideNonempty(s, k, n + 1); }
    SideLinks(s, k);
    var p := SlotLevels(s.hash, s.ladder[k]);
    assert Chain(s.q1, L.Heads(p)) && p[n][0] == HeadSlot(s, k, n) && |L.Heads(p)| == |p| && L.Heads(p)[n] == p[n][0];
    if n + 1 < |p| { assert L.Heads(p)[n + 1] == p[n + 1][0]; }
    hide Ok, TreeOk, OrgsOk, L.Side, L.Apart, Chain, L.Heads;
    ChainElim(s.q1, L.Heads(p), n);
  }

  /** Where to start on a level: its first order, or past a prefix of the taker's own with exclusion. */
  method StartOf(book: OrderBook, x: nat, p: Policy, level: nat, ghost k: nat, ghost done: seq<seq<nat>>,
                 ghost rest: seq<seq<nat>>)
    returns (first: nat, ghost j: nat)
    requires Holding(book, x) && k < |book.ladder| && book.ladder[k] == done + rest && rest != [] &&
        level == FirstSlot(book.hash, rest)
    modifies book.known
    ensures Holding(book, x) && j <= |rest[0]| && first == SlotAt(book.hash, rest[0][j..], 0)
    ensures j == 0 || (p.exclude && forall i :: 0 <= i < j ==>
        rest[0][i] in book.Book().entries && book.Book().entries[rest[0][i]].order.org == book.slab.ord[x].org)
  {
    hide Ok, B.Wf, Entries, book.slab.Valid, SidePresent, FirstOther, HeadSlot;
    LevelFacts(book.St(), k, done, rest);
    first, j := level, 0;
    if p.exclude && book.slab.ord[level].org == book.slab.ord[x].org {
      first := book.FirstOtherOrg(level, book.slab.ord[x].org, k, |done|);
      j := FirstOther(book.Book().entries, rest[0], book.slab.ord[x].org);
      OwnPrefix(book.Book().entries, rest[0], book.slab.ord[x].org);
    }
  }

  lemma OwnPrefix(e: map<nat, B.Entry>, ids: seq<nat>, org: nat)
    ensures var j := FirstOther(e, ids, org); j <= |ids| && forall i :: 0 <= i < j ==>
        ids[i] in e && e[ids[i]].order.org == org
  {
  }

  /** Works on the best of the levels left. */
  method VisitLevel(book: OrderBook, product: nat, x: nat, p: Policy, level: nat, price: nat, calls: nat,
                    ghost k: nat, ghost done: seq<seq<nat>>, ghost rest: seq<seq<nat>>)
    returns (asked: nat)
    requires Holding(book, x) && k < |book.ladder| && book.ladder[k] == done + rest && rest != [] && k / 2 == product
    requires level == FirstSlot(book.hash, rest) && rest[0] != [] && Present(book.Book().entries, rest[0]) &&
        Distinct(rest[0])
    requires book.slab.ord[x].remain > 0
    modifies book`hash, book`log, book`ladder, book`members, book.slab`freeA, book.slab`freeB, book.slab`used,
        book.slab`free
    modifies book.slab.ord, book.slab.q0, book.slab.q1, book.slab.q2, book.slab.q3, book.slab.aux, book.heads,
        book.roots, book.known
    ensures Holding(book, x) && Shrunk(old(book.hash), book.hash)
    ensures var r := MatchLevel(p, old(book.Book().entries), rest[0], product, price, old(book.slab.ord[x]), calls);
            LevelLeft(book, r, old(book.ladder), k, done, [], rest[1..], x, old(book.slab.ord[x]), old(book.log)) &&
                asked == r.calls
  {
    hide book.Valid, Ok, Entries, B.Wf, MatchLevel, Distinct, Present, SlotAt, LevelLeft, FirstSlot;
    ghost var e, ids, post, taker := book.Book().entries, rest[0], rest[1..], book.slab.ord[x];
    var first, j := StartOf(book, x, p, level, k, done, rest);
    ghost var a, tail := ids[..j], ids[j..];
    TailPresent(e, ids, j);
    RestSplit(done, rest, j);
    asked := WorkLevel(book, product, x, p, first, price, calls, k, done, a, tail, post);
    if j == 0 {
      assert a == [] && tail == ids;
    } else {
      PassPrefix(p, e, ids, product, price, taker, calls, j);
      LeftJoined(book, MatchLevel(p, e, tail, product, price, taker, calls), old(book.ladder), k, done, a, post, x,
          taker, old(book.log));
    }
  }

  lemma TailPresent(e: map<nat, B.Entry>, ids: seq<nat>, j: nat)
    requires Present(e, ids) && Distinct(ids) && j <= |ids|
    ensures Present(e, ids[j..]) && Distinct(ids[j..])
  {
  }

  lemma RestSplit(done: seq<seq<nat>>, rest: seq<seq<nat>>, j: nat)
    requires rest != [] && rest[0] != [] && j <= |rest[0]|
    ensures done + rest == done + B.Glue(rest[0][..j] + rest[0][j..], rest[1..])
  {
    assert rest[0][..j] + rest[0][j..] == rest[0];
    assert rest == [rest[0]] + rest[1..];
  }

  lemma LeftJoined(book: OrderBook, r: LevelOutcome, ladder: seq<seq<seq<nat>>>, k: nat, pre: seq<seq<nat>>,
                   a: seq<nat>, post: seq<seq<nat>>,
                   x: nat, taker: B.Order, log: seq<B.Record>)
    requires LevelLeft(book, r, ladder, k, pre, a, post, x, taker, log)
    ensures LevelLeft(book, Join(a, [], r), ladder, k, pre, [], post, x, taker, log)
  {
    assert [] + (a + r.ids) == a + r.ids && [] + r.log == r.log;
  }

  lemma LevelsTurned(book: OrderBook, r: LevelOutcome, before: seq<seq<seq<nat>>>, ladder: seq<seq<seq<nat>>>, k: nat,
                     done: seq<seq<nat>>, post: seq<seq<nat>>,
                     lg: seq<B.Record>, x: nat, left: B.Order, taker: B.Order, logged: seq<B.Record>,
                         log: seq<B.Record>)
    requires LevelLeft(book, r, before, k, done, [], post, x, left, logged)
    requires k < |ladder| && before == ladder[k := before[k]] && left == taker.(remain := left.remain)
    requires logged == log + if book.logging then lg else []
    ensures SideLeft(book, done + B.Glue(r.ids, []) + post, lg + r.log, ladder, k, x, taker, log)
    ensures book.Book().entries == r.e && book.slab.ord[x] == left.(remain := r.remain)
  {
    assert [] + r.ids == r.ids;
    assert done + B.Glue(r.ids, post) == done + B.Glue(r.ids, []) + post;
    assert log + lg + r.log == log + (lg + r.log);
  }

  lemma SideStart(book: OrderBook, x: nat, k: nat, p: Policy, product: nat)
    requires Holding(book, x) && product < book.products && k == R.MakerKey(product, book.slab.ord[x])
    ensures k < |book.ladder| == book.heads.Length && k / 2 == product &&
        book.heads[k] == FirstSlot(book.hash, book.ladder[k])
    ensures SidePresent(book.Book().entries, book.ladder[k])
    ensures var r := MatchSide(p, book.Book().entries, book.ladder[k], product, book.slab.ord[x], 0);
        JoinSide([], [], r) == r
  {
    hide Ok, B.Wf, Entries, book.slab.Valid, MatchSide, JoinSide, SidePresent;
    assert [] + book.ladder[k] == book.ladder[k];
    LevelFacts(book.St(), k, [], book.ladder[k]);
    BestHead(book.St(), k);
    JoinSideNothing(MatchSide(p, book.Book().entries, book.ladder[k], product, book.slab.ord[x], 0));
  }

  lemma LevelReady(book: OrderBook, x: nat, k: nat, done: seq<seq<nat>>, rest: seq<seq<nat>>)
    requires Holding(book, x) && k < |book.ladder| && book.ladder[k] == done + rest
    ensures rest == [] <==> FirstSlot(book.hash, rest) == NULL
    ensures rest != [] ==>
              var level := FirstSlot(book.hash, rest);
              && rest[0] != [] && level < book.slab.ord.Length == book.slab.q1.Length &&
                 book.slab.q1[level].next == FirstSlot(book.hash, rest[1..])
              && book.slab.ord[level].price == B.LevelPrice(book.Book().entries, rest[0])
              && Present(book.Book().entries, rest[0]) && Distinct(rest[0])
  {
    hide Ok, B.Wf, Entries, book.slab.Valid;
    LevelFacts(book.St(), k, done, rest);
  }

  lemma SameFirst(book: OrderBook, k: nat, done: seq<seq<nat>>, rest: seq<seq<nat>>, before: map<nat, Loc>)
    requires book.Valid() && k < |book.ladder| && book.ladder[k] == done + rest && Shrunk(before, book.hash)
    ensures FirstSlot(book.hash, rest) == FirstSlot(before, rest)
  {
    if rest != [] {
      assert book.ladder[k][|done|] == rest[0];
      LevelHead(book.St(), k, |done|);
      SideIdAt(book.St(), k, |done|, 0);
    }
  }

  lemma SideOver(p: Policy, e: map<nat, B.Entry>, rest: seq<seq<nat>>, product: nat, taker: B.Order, calls: nat,
                 done: seq<seq<nat>>, lg: seq<B.Record>)
    requires SidePresent(e, rest) && (rest == [] || taker.remain == 0 || !Crosses(taker, B.LevelPrice(e, rest[0])))
    ensures JoinSide(done, lg, MatchSide(p, e, rest, product, taker, calls)) ==
        SideOutcome(e, done + rest, taker.remain, calls, lg)
  {
    assert lg + [] == lg;
  }

  /** The outer loop: works on level after level while they cross and the taker has volume left. */
  method WorkSide(book: OrderBook, product: nat, x: nat, p: Policy)
    requires Holding(book, x) && product < book.products
    modifies book`hash, book`log, book`ladder, book`members, book.slab`freeA, book.slab`freeB, book.slab`used,
        book.slab`free
    modifies book.slab.ord, book.slab.q0, book.slab.q1, book.slab.q2, book.slab.q3, book.slab.aux, book.heads,
        book.roots, book.known
    ensures Holding(book, x) && Shrunk(old(book.hash), book.hash)
    ensures var k, r := R.MakerKey(product, old(book.slab.ord[x])),
        Worked(p, old(book.Book()), product, old(book.slab.ord[x]));
            && book.Book().entries == r.e && book.slab.ord[x].remain == r.remain
            && SideLeft(book, r.levels, r.log, old(book.ladder), k, x, old(book.slab.ord[x]), old(book.log))
  {
    hide Ok, B.Wf, Entries, book.Valid, MatchSide, MatchLevel, SidePresent, JoinSide, HeadSlot, B.Glue, LevelLeft,
         B.LevelPrice, Present, Distinct;
    ghost var e0, t0, ladder0, log0 := book.Book().entries, book.slab.ord[x], book.ladder, book.log;
    var bid, limit := book.slab.ord[x].flags.bid, book.slab.ord[x].price;
    var k := B.Key(product, !bid);
    SideStart(book, x, k, p, product);
    ghost var done: seq<seq<nat>>, rest, lg: seq<B.Record> := [], book.ladder[k], [];
    assert done + rest == ladder0[k];
    assert ladder0[k := done + rest] == ladder0;
    var level := book.heads[k];
    var asked := 0;
    while book.slab.ord[x].remain > 0 && level != NULL
      invariant Holding(book, x) && Shrunk(old(book.hash), book.hash) && level == FirstSlot(book.hash, rest)
      invariant SideLeft(book, done + rest, lg, ladder0, k, x, t0, log0) && SidePresent(book.Book().entries, rest)
      invariant SidePresent(e0, ladder0[k])
      invariant MatchSide(p, e0, ladder0[k], product, t0, 0)
                == JoinSide(done, lg, MatchSide(p, book.Book().entries, rest, product, book.slab.ord[x], asked))
      decreases |rest|
    {
      LevelReady(book, x, k, done, rest);
      var price := book.slab.ord[level].price;
      if bid && limit < price { break; }
      if !bid && limit > price { break; }
      var next := book.slab.q1[level].next;
      ghost var e, taker, before, logged, hash := book.Book().entries, book.slab.ord[x], book.ladder, book.log,
          book.hash;
      SideTurn(p, e, rest, product, taker, asked);
      ghost var r := MatchLevel(p, e, rest[0], product, price, taker, asked);
      asked := VisitLevel(book, product, x, p, level, price, asked, k, done, rest);
      LevelsTurned(book, r, before, ladder0, k, done, rest[1..], lg, x, taker, t0, logged, log0);
      JoinSideJoin(done, lg, B.Glue(r.ids, []), r.log, MatchSide(p, r.e, rest[1..], product, book.slab.ord[x], asked));
      done, rest, lg := done + B.Glue(r.ids, []), rest[1..], lg + r.log;
      SameFirst(book, k, done, rest, hash);
      level := next;
    }
    LevelReady(book, x, k, done, rest);
    SideOver(p, book.Book().entries, rest, product, book.slab.ord[x], asked, done, lg);
  }

  // ------------------------------------------------------ engine operations

  function Setup(book: OrderBook): R.Config { R.Config(book.products, book.orgs, book.slab.ord.Length) }

  /** The book's log after an operation that emits `records`. */
  ghost predicate Logged(book: OrderBook, log: seq<B.Record>, records: seq<B.Record>)
    reads book`log, book`logging
  {
    book.log == log + if book.logging then records else []
  }

  /** Matches the taker in slot `x` and rests what is left of it, unless the pre-booking callback refuses. */
  method Match(book: OrderBook, product: nat, x: nat, p: Policy, preBook: bool) returns (ok: bool)
    requires Holding(book, x) && product < book.products && !B.Parked(book.slab.ord[x].flags)
    modifies book`hash, book`log, book`ladder, book`members, book.slab`freeA, book.slab`freeB, book.slab`used,
        book.slab`free
    modifies book.slab.ord, book.slab.q0, book.slab.q1, book.slab.q2, book.slab.q3, book.slab.aux, book.heads,
        book.roots, book.known, book.orgHeads
    ensures book.Valid() && x < book.slab.ord.Length && (book.slab.ord[x].remain == 0 ==> ok && Holding(book, x))
    ensures book.slab.ord[x].id == old(book.slab.ord[x].id) && (!preBook ==> ok)
    ensures book.slab.ord[x].remain > 0 ==> if ok && preBook then Rests(book, product, x) else Holding(book, x)
    ensures var l := R.Submit(Setup(book), old(book.Book()), product, old(book.slab.ord[x]), p, preBook);
            book.Book() == l.book && Logged(book, old(book.log), l.log)
  {
    hide Ok, B.Wf, Entries, book.slab.Valid, MatchSide, SidePresent, B.Insert, R.Submit, Worked;
    ghost var b, taker, log := book.Book(), book.slab.ord[x], book.log;
    SubmitIs(Setup(book), b, product, taker, p, preBook);
    if book.slab.ord[x].remain == 0 { return true; }
    WorkSide(book, product, x, p);
    if book.slab.ord[x].remain == 0 { return true; }
    if !preBook { return true; }
    InBook(book, x, taker.id);
    ghost var r := Worked(p, b, product, taker);
    assert log + r.log + [B.RInsert(product, book.slab.ord[x])] == log +
        (r.log + [B.RInsert(product, book.slab.ord[x])]);
    ok := book.Insert(product, x);
  }

  lemma InBook(book: OrderBook, x: nat, id: nat)
    requires Holding(book, x)
    ensures id in book.Book().entries <==> id in book.hash
  {
    EntryAt(book.hash, book.slab.ord[..], id);
  }

  /** The map has the order that is in the slot. */
  ghost predicate Rests(book: OrderBook, product: nat, x: nat)
    reads book`hash, book.slab.ord
  {
    x < book.slab.ord.Length && book.slab.ord[x].id in book.hash && book.hash[book.slab.ord[x].id] == Loc(x, product)
  }

  /** Submission in terms of the whole side's outcome. */
  lemma SubmitIs(c: R.Config, b: B.Book, product: nat, taker: B.Order, p: Policy, preBook: bool)
    requires B.Wf(b) && product < c.products && |b.ladder| == 2 * c.products
    ensures R.MakerKey(product, taker) < |b.ladder|
    ensures R.Submit(c, b, product, taker, p, preBook)
            == if taker.remain == 0 then R.Live(b, [])
               else
                 var k, r := R.MakerKey(product, taker), Worked(p, b, product, taker);
                 var mid := B.Book(r.e, b.ladder[k := r.levels]);
                 if r.remain == 0 || !preBook || taker.org >= c.orgs || taker.id == 0 ||
                     taker.id in r.e then R.Live(mid, r.log)
                 else R.Live(B.Insert(mid, product, taker.(remain := r.remain)), r.log +
                     [B.RInsert(product, taker.(remain := r.remain))])
  {
  }

  /** Cancels by id: sound exactly unless a deactivated order with two or more orders at its price is named. */
  method CancelOrder(book: OrderBook, id: nat) returns (ok: bool)
    requires book.Valid()
    modifies book`hash, book`log, book`ladder, book`members, book.slab`freeA, book.slab`freeB, book.slab`used,
        book.slab`free
    modifies book.slab.q0, book.slab.q1, book.slab.q2, book.slab.q3, book.slab.aux, book.heads, book.roots, book.known
    ensures Harmless(old(book.Book()), id) ==>
              var l := R.CancelLive(old(book.Book()), id);
                  book.Valid() && book.Book() == l.book && Logged(book, old(book.log), l.log)
    ensures !Harmless(old(book.Book()), id) ==> forall s: State :: s.q2 == book.slab.q2[..] ==> !Ok(s)
    ensures var b := old(book.Book());
            ok <==> id in b.entries && B.KeyOf(b.entries[id]) < |b.ladder| && (B.Linked(b, id) || R.PeersOf(b, id) > 0)
  {
    hide Ok, B.Wf, Entries, book.slab.Valid, R.PeersOf, B.Linked, SeveredBeside, R.CancelEffect;
    SafeIs(book, id);
    if id !in book.hash { return false; }
    var x, product := book.hash[id].slot, book.hash[id].product;
    book.Admitted(product, x, id);
    if book.logging { book.log := book.log + [B.RCancel(id)]; }
    ok := book.RemoveSlot(product, x);
    forall s: State | SeveredBeside(book.slab.q2[..], x) && s.q2 == book.slab.q2[..]
        ensures !Ok(s) { SeveredNotOk(s, x); }
  }

  lemma SafeIs(book: OrderBook, id: nat)
    requires book.Valid()
    ensures R.KeysOk(book.Book()) && (Harmless(book.Book(), id) <==> R.CancelSafe(book.Book(), id))
    ensures id in book.Book().entries <==> id in book.hash
  {
    EntryAt(book.hash, book.slab.ord[..], id);
    hide Ok;
  }

  /** Takes an active order off the book but keeps it for a later activation. */
  method DeactivateOrder(book: OrderBook, id: nat) returns (ok: bool)
    requires book.Valid()
    modifies book`log, book`ladder, book`members
    modifies book.slab.ord, book.slab.q1, book.slab.q2, book.slab.q3, book.heads, book.roots, book.known, book.orgHeads
    ensures book.Valid() && ok == Q.Active(old(book.Book()).entries, id)
    ensures book.Book() == if ok then B.Deactivate(old(book.Book()), id) else old(book.Book())
    ensures Logged(book, old(book.log), if ok then [B.RDeactivate(id)] else []) &&
        (old(book.OrgSound()) ==> book.OrgSound())
  {
    hide Ok, B.Wf, Entries, book.slab.Valid, R.PeersOf, B.Linked, SeveredBeside, B.Deactivate, book.OrgSound;
    SafeIs(book, id);
    if id !in book.hash { return false; }
    var x, product := book.hash[id].slot, book.hash[id].product;
    book.Admitted(product, x, id);
    if B.Parked(book.slab.ord[x].flags) { return false; }
    DeactivateIs(book.Book(), id);
    if book.logging { book.log := book.log + [B.RDeactivate(id)]; }
    ok := book.Park(product, x);
  }

  lemma DeactivateIs(b: B.Book, id: nat)
    requires R.KeysOk(b) && B.Linked(b, id)
    ensures Harmless(b, id) && R.DeactivateEffect(b, id) == Some(B.Deactivate(b, id))
  {
  }

  /** A deactivated order leaves the map and becomes a taker again. */
  method Withdraw(book: OrderBook, x: nat, ghost product: nat)
    requires book.Valid() && x < book.slab.ord.Length &&
        book.slab.ord[x].id in book.hash && book.hash[book.slab.ord[x].id] == Loc(x, product)
    requires B.Parked(book.slab.ord[x].flags)
    modifies book`hash, book.slab.ord
    ensures Holding(book, x) &&
        book.Book() == old(book.Book()).(entries := old(book.Book()).entries - {old(book.slab.ord[x].id)})
    ensures book.slab.ord[x] == old(book.slab.ord[x]).(flags := B.SetStatus(old(book.slab.ord[x].flags), B.STATUS_NEW))
  {
    hide Ok, B.Wf, Entries, book.slab.Valid, B.SetStatus;
    ghost var s, id := book.St(), book.slab.ord[x].id;
    var o := book.slab.ord[x].(flags := B.SetStatus(book.slab.ord[x].flags, B.STATUS_NEW));
    book.Admitted(product, x, id);
    WithdrawState(s, id, product, x, o);
    book.hash := book.hash - {book.slab.ord[x].id};
    book.slab.ord[x] := o;
    assert book.St() == s.(hash := s.hash - {id}, ord := s.ord[x := o]);
  }

  lemma WithdrawState(s: State, id: nat, product: nat, x: nat, o: B.Order)
    requires Ok(s) && B.Wf(Abs(s)) &&
        id in s.hash && s.hash[id] == Loc(x, product) && x < |s.ord| && B.Parked(s.ord[x].flags)
    ensures var t := s.(hash := s.hash - {id}, ord := s.ord[x := o]);
            Ok(t) && Abs(t) == Abs(s).(entries := Abs(s).entries - {id}) && B.Wf(Abs(t))
    ensures forall i :: i in s.hash - {id} ==> s.hash[i].slot != x
  {
    EntryAtSlot(s, id, product, x);
    OffSides(s, id);
    R.ParkedGone(Abs(s), id);
    forall i | i in s.hash - {id} ensures s.hash[i].slot != x { SlotApart(s.hash, s.ord, i, id); }
    hide Ok, B.Wf, Entries;
    ForgetOk(s, s.(hash := s.hash - {id}), id);
    TouchIdle(s.(hash := s.hash - {id}), x, o);
  }

  /**
   Resubmits a deactivated order. A fully matched one goes back to the slab; one that is left over and
   refused by the pre-booking callback is lost with its slot.
   */
  method ActivateOrder(book: OrderBook, id: nat, can: Option<CanMatch>, preBook: bool) returns (ok: bool)
    requires book.Valid()
    modifies book`hash, book`log, book`ladder, book`members, book.slab`freeA, book.slab`freeB, book.slab`used,
        book.slab`free
    modifies book.slab.ord, book.slab.q0, book.slab.q1, book.slab.q2, book.slab.q3, book.slab.aux, book.heads,
        book.roots, book.known, book.orgHeads
    ensures book.Valid()
    ensures var b := old(book.Book());
            if id in b.entries && B.Parked(b.entries[id].order.flags) then
              var en, b' := b.entries[id], b.(entries := b.entries - {id});
              && B.Wf(b') && en.product < book.products && |b'.ladder| == 2 * book.products
              && var l := R.Submit(Setup(book), b', en.product,
                 en.order.(flags := B.SetStatus(en.order.flags, B.STATUS_NEW)), Policy(can, false), preBook);
                 book.Book() == l.book && Logged(book, old(book.log), [B.RActivate(id)] + l.log)
            else book.Book() == b && book.log == old(book.log) && !ok
    ensures var b := old(book.Book());
            id in b.entries && B.Parked(b.entries[id].order.flags) ==>
              && id in old(book.hash) && var loc := old(book.hash)[id];
              && loc.slot < book.slab.ord.Length && book.slab.ord[loc.slot].id == id
              && if book.slab.ord[loc.slot].remain == 0 then ok && book.slab.free != [] && book.slab.free[0] == loc.slot
                 else if ok && preBook then Rests(book, loc.product, loc.slot) else Holding(book, loc.slot)
  {
    hide Ok, B.Wf, Entries, book.Valid, R.Submit, B.SetStatus, Holding, R.KeysOk, R.CancelSafe, Harmless;
    SafeIs(book, id);
    if id !in book.hash { return false; }
    var x, product := book.hash[id].slot, book.hash[id].product;
    book.Admitted(product, x, id);
    if !B.Parked(book.slab.ord[x].flags) { return false; }
    NotParkedNew(book.slab.ord[x].flags);
    WithdrawnWf(book, id);
    ghost var log := book.log;
    if book.logging { book.log := book.log + [B.RActivate(id)]; }
    Withdraw(book, x, product);
    ok := Rematch(book, product, x, Policy(can, false), preBook);
  }

  /**
   Matches an order and gives its slot back if nothing of it is left. If something is left and not
   booked, the slot is lost: it is neither free nor in the map.
   */
  method Rematch(book: OrderBook, product: nat, x: nat, p: Policy, preBook: bool) returns (ok: bool)
    requires Holding(book, x) && product < book.products && !B.Parked(book.slab.ord[x].flags)
    modifies book`hash, book`log, book`ladder, book`members, book.slab`freeA, book.slab`freeB, book.slab`used,
        book.slab`free
    modifies book.slab.ord, book.slab.q0, book.slab.q1, book.slab.q2, book.slab.q3, book.slab.aux, book.heads,
        book.roots, book.known, book.orgHeads
    ensures book.Valid()
    ensures var l := R.Submit(Setup(book), old(book.Book()), product, old(book.slab.ord[x]), p, preBook);
            book.Book() == l.book && Logged(book, old(book.log), l.log)
    ensures x < book.slab.ord.Length && book.slab.ord[x].id == old(book.slab.ord[x].id) && (!preBook ==> ok)
    ensures if book.slab.ord[x].remain == 0 then ok && book.slab.free != [] && book.slab.free[0] == x
            else if ok && preBook then Rests(book, product, x) else Holding(book, x)
  {
    hide Ok, B.Wf, Entries, book.slab.Valid, R.Submit, Holding;
    ok := Match(book, product, x, p, preBook);
    if ok && book.slab.ord[x].remain == 0 { GiveBack(book, x); }
  }

  lemma NotParkedNew(flags: B.Flags)
    ensures !B.Parked(B.SetStatus(flags, B.STATUS_NEW))
  {
  }

  lemma WithdrawnWf(book: OrderBook, id: nat)
    requires book.Valid() && id in book.Book().entries && B.Parked(book.Book().entries[id].order.flags)
    ensures B.Wf(book.Book().(entries := book.Book().entries - {id})) && |book.ladder| == 2 * book.products
  {
    R.ParkedGone(book.Book(), id);
  }

  /** Returns a slot that is in no queue to the slab. */
  method GiveBack(book: OrderBook, x: nat)
    requires Holding(book, x)
    modifies book.slab`freeA, book.slab`freeB, book.slab`used, book.slab`free, book.slab.q0, book.slab.q1, book.slab.q2,
        book.slab.q3, book.slab.aux
    ensures book.Valid() && book.Book() == old(book.Book()) && book.slab.free == [x] + old(book.slab.free)
  {
    hide Ok, B.Wf, Entries, book.slab.Valid;
    ClearIdle(book.St(), x);
    book.slab.Free(x);
    assert book.St() == old(book.St());
  }

  lemma ClearIdle(s: State, x: nat)
    requires Ok(s) && x < |s.ord| && forall i :: i in s.hash ==> s.hash[i].slot != x
    ensures x < |s.q1| == |s.q2| && s.q1[x := UNLINKED] == s.q1 && s.q2[x := UNLINKED] == s.q2
  {
    assert Sizes(s);
    NotOnLadder(s, x);
    ClearLoose(s, x);
  }
}
