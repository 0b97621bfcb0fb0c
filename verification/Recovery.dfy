/**
 Recovery of the in-memory book from the records of a write-ahead log, proved against Replay.
 */
module Recovery {
  import opened Common
  import opened Links
  import opened BookState
  import opened OrderBooks
  import opened Engine
  import opened Logs
  import B = Book
  import M = Matching
  import Q = OrgQueue
  import R = Replay
  import S = Slab

  /** The abstract state of a book under recovery. */
  ghost function Image(book: OrderBook): R.Recovered
    reads book`hash, book`ladder, book.slab`nextId, book.slab.ord, book.slab.q1, book.slab.q2, book.known, book.heads,
        book.roots
  {
    R.Recovered(book.Book(), book.slab.nextId)
  }

  /** Every slot is either free or held by an order in the map. */
  ghost predicate Tight(book: OrderBook)
    reads book`hash, book`ladder, book.slab`freeA, book.slab`freeB, book.slab`used, book.slab`free, book.slab.ord,
        book.slab.q0, book.slab.q1, book.slab.q2, book.slab.q3, book.slab.aux
    reads book.heads, book.roots, book.known, book.orgHeads
  {
    book.Valid() && |book.hash| + |book.slab.free| == book.slab.ord.Length
  }

  lemma EntryCount(book: OrderBook)
    requires book.Valid()
    ensures |book.Book().entries| == |book.hash| && book.Book().entries.Keys == book.hash.Keys
  {
    assert HashOk(book.hash, book.slab.ord[..]);
    assert book.Book().entries.Keys == book.hash.Keys;
  }

  /** The slot the slab would hand out is in no queue and in no map entry. */
  lemma FreeIdle(book: OrderBook)
    requires book.Valid() && book.slab.free != []
    ensures var x, s := book.slab.free[0], book.St();
            && x < |s.ord| && (forall i :: i in s.hash ==> s.hash[i].slot != x)
            && Ok(s.(ord := s.ord[x := S.BLANK])) && Abs(s.(ord := s.ord[x := S.BLANK])) == Abs(s)
            && x < |s.q1| == |s.q2| && s.q1[x := UNLINKED] == s.q1 && s.q2[x := UNLINKED] == s.q2
  {
    var x, s := book.slab.free[0], book.St();
    assert x in book.slab.free;
    hide Ok, B.Wf, Entries;
    TouchIdle(s, x, S.BLANK);
    ClearIdle(s, x);
  }

  lemma SlotsApart(book: OrderBook)
    requires book.Valid()
    ensures Q.Apart(book.Book().entries, book.hash, book.slab.q3.Length)
  {
    assert HashOk(book.hash, book.slab.ord[..]);
    Q.ApartOf(book.hash, book.slab.ord[..]);
  }

  /** Takes a slot from the slab. */
  method TakeSlot(book: OrderBook) returns (x: nat)
    requires Tight(book)
    modifies book.slab`freeA, book.slab`freeB, book.slab`used, book.slab`free, book.slab.ord, book.slab.q0,
        book.slab.q1, book.slab.q2, book.slab.q3, book.slab.aux
    ensures book.Book() == old(book.Book()) && book.Valid()
    ensures x == NULL <==> |book.Book().entries| >= book.slab.ord.Length
    ensures x != NULL ==> Holding(book, x) && |book.hash| + |book.slab.free| + 1 == book.slab.ord.Length
    ensures (x == NULL || x < book.slab.q3.Length) && book.slab.q3.Length <= NULL
    ensures book.slab.q3[..] == if x == NULL then old(book.slab.q3[..]) else old(book.slab.q3[..])[x := UNLINKED]
    ensures x != NULL ==> old(book.slab.free) != [] && x == old(book.slab.free)[0]
  {
    hide Ok, B.Wf, Entries, book.slab.Valid;
    EntryCount(book);
    if book.slab.free != [] { FreeIdle(book); }
    x := book.slab.Alloc();
    assert old(book.slab.free) == [] ==> book.St() == old(book.St());
    assert old(book.slab.free) != [] ==> book.St() == old(book.St()).(ord := old(book.slab.ord[..])[x := S.BLANK]);
  }

  /** The same, for the organisation queues. */
  method Take(book: OrderBook) returns (x: nat)
    requires Tight(book)
    modifies book.slab`freeA, book.slab`freeB, book.slab`used, book.slab`free, book.slab.ord, book.slab.q0,
        book.slab.q1, book.slab.q2, book.slab.q3, book.slab.aux
    ensures book.Book() == old(book.Book()) && book.Valid()
    ensures x == NULL <==> |book.Book().entries| >= book.slab.ord.Length
    ensures x != NULL ==> Holding(book, x) && |book.hash| + |book.slab.free| + 1 == book.slab.ord.Length
    ensures old(book.OrgSound()) ==> book.OrgSound()
    ensures x != NULL ==> old(book.slab.free) != [] && x == old(book.slab.free)[0] && x < book.slab.q3.Length &&
                          book.slab.q3[..] == old(book.slab.q3[..])[x := UNLINKED]
  {
    hide Ok, B.Wf, Entries, book.slab.Valid, Q.OrgOk;
    ghost var e, hash, q3, heads := book.Book().entries, book.hash, book.slab.q3[..], book.orgHeads[..];
    x := TakeSlot(book);
    if x != NULL && Q.OrgOk(e, hash, q3, heads, book.orgs, book.members) {
      SlotsApart(book);
      Q.IdleSlot(e, hash, q3, heads, book.orgs, book.members, x);
    }
  }

  /** Writes a record's order into a slot that is in no queue. */
  method FillSlot(book: OrderBook, x: nat, o: B.Order)
    requires Holding(book, x)
    modifies book.slab.ord
    ensures Holding(book, x) && book.Book() == old(book.Book()) && book.slab.ord[x] == o &&
        (old(book.OrgSound()) ==> book.OrgSound())
  {
    hide Ok, Entries, B.Wf, book.slab.Valid, Q.OrgOk;
    TouchIdle(book.St(), x, o);
    book.slab.ord[x] := o;
    assert book.St() == old(book.St()).(ord := old(book.slab.ord[..])[x := o]);
  }

  /** Keeps the order id counter ahead of a logged id. */
  method SkipPast(book: OrderBook, id: nat)
    modifies book.slab`nextId
    ensures book.slab.nextId == R.Bump(old(book.slab.nextId), id)
  {
    if book.slab.nextId != 0 && id >= book.slab.nextId {
      book.slab.nextId := if id == 0xFFFF_FFFF then 0 else id + 1;
    }
  }

  method ReplayInsert(book: OrderBook, product: nat, o: B.Order) returns (ok: bool)
    requires Tight(book) && !book.logging && !B.Parked(o.flags)
    modifies book`hash, book`log, book`ladder, book`members, book.slab, book.slab.ord, book.slab.q0, book.slab.q1,
        book.slab.q2, book.slab.q3, book.slab.aux
    modifies book.heads, book.roots, book.known, book.orgHeads
    ensures var r := R.Step(Setup(book), old(Image(book)), B.RInsert(product, o));
            (ok ==> Tight(book) && r == R.Ok(Image(book))) && (!ok ==> r == R.Failed)
    ensures book.log == old(book.log) && (ok && old(book.OrgSound()) ==> book.OrgSound())
  {
    hide Ok, Entries, book.Valid, R.Step, B.Insert, B.Wf, R.Bump, book.OrgSound;
    EntryCount(book);
    InsertStep(Setup(book), Image(book), product, o, book);
    if product >= book.products || o.org >= book.orgs || o.id == 0 { return false; }
    SkipPast(book, o.id);
    var x := Take(book);
    if x == NULL { return false; }
    FillSlot(book, x, o);
    ok := InsertOrFree(book, product, x);
  }

  /** Rests the order in the slot, or gives the slot back. */
  method InsertOrFree(book: OrderBook, product: nat, x: nat) returns (ok: bool)
    requires Holding(book, x) && |book.hash| + |book.slab.free| + 1 == book.slab.ord.Length && !book.logging &&
        !B.Parked(book.slab.ord[x].flags)
    requires product < book.products && book.slab.ord[x].org < book.orgs && book.slab.ord[x].id != 0 &&
        |book.ladder| == 2 * book.products
    modifies book`hash, book`log, book`ladder, book`members, book.slab`freeA, book.slab`freeB, book.slab`used,
        book.slab`free
    modifies book.slab.q0, book.slab.q1, book.slab.q2, book.slab.q3, book.slab.aux, book.heads, book.roots, book.known,
        book.orgHeads
    ensures Tight(book) && ok == (book.slab.ord[x].id !in old(book.Book()).entries) && book.log == old(book.log)
    ensures ok ==> book.Book() == B.Insert(old(book.Book()), product, book.slab.ord[x]) && (old(book.OrgSound()) ==>
        book.OrgSound())
  {
    hide Ok, Entries, book.Valid, B.Insert, B.Wf, book.OrgSound, book.OrgJoined;
    EntryCount(book);
    if book.slab.ord[x].id !in book.hash { OneMore(book.hash, book.slab.ord[x].id, Loc(x, product)); }
    ok := book.Insert(product, x);
    if !ok { GiveBack(book, x); }
  }

  lemma OneMore(h: map<nat, Loc>, id: nat, loc: Loc)
    requires id !in h
    ensures |h[id := loc]| == |h| + 1
  {
    assert h[id := loc].Keys == h.Keys + {id};
  }

  lemma InsertStep(c: R.Config, s: R.Recovered, product: nat, o: B.Order, book: OrderBook)
    requires book.Valid() && s.book == book.Book() && c == Setup(book)
    ensures |s.book.ladder| == 2 * c.products
    ensures R.Step(c, s, B.RInsert(product, o))
            == if product >= c.products || o.org >= c.orgs || o.id == 0 || |s.book.entries| >= c.slots ||
                o.id in s.book.entries then R.Failed
               else R.Ok(R.Recovered(B.Insert(s.book, product, o), R.Bump(s.nextId, o.id)))
  {
    assert R.KeysOk(s.book);
  }

  lemma OneLess(h: map<nat, Loc>, id: nat)
    requires id in h
    ensures |h - {id}| == |h| - 1
  {
    assert (h - {id}).Keys == h.Keys - {id};
  }

  /** A cancel by id, when it is harmless. */
  method CancelTight(book: OrderBook, id: nat)
    requires Tight(book) && !book.logging && Harmless(book.Book(), id) && R.KeysOk(book.Book())
    modifies book`hash, book`log, book`ladder, book`members, book.slab`freeA, book.slab`freeB, book.slab`used,
        book.slab`free
    modifies book.slab.q0, book.slab.q1, book.slab.q2, book.slab.q3, book.slab.aux, book.heads, book.roots, book.known,
        book.orgHeads
    ensures Tight(book) && R.CancelEffect(old(book.Book()), id) == Some(book.Book()) && book.log == old(book.log)
  {
    hide Ok, Entries, B.Wf, book.slab.Valid, SeveredBeside, R.PeersOf, B.Linked;
    EntryCount(book);
    if id in book.hash { OneLess(book.hash, id); }
    var ok := book.Cancel(id);
  }

  /** The maker's volume drops by what was traded, and an emptied maker is cancelled. */
  method ReplayMatch(book: OrderBook, maker: nat, taker: nat, volume: nat, ghost rec: B.Record) returns (ok: bool)
    requires Tight(book) && !book.logging && rec.RMatch? && rec.maker == maker && rec.taker == taker &&
        rec.volume == volume
    requires R.Step(Setup(book), Image(book), rec) != R.Corrupts
    modifies book`hash, book`log, book`ladder, book`members, book.slab, book.slab.ord, book.slab.q0, book.slab.q1,
        book.slab.q2, book.slab.q3, book.slab.aux
    modifies book.heads, book.roots, book.known, book.orgHeads
    ensures var r := R.Step(Setup(book), old(Image(book)), rec);
            (ok ==> Tight(book) && r == R.Ok(Image(book))) && (!ok ==> r == R.Failed)
    ensures book.log == old(book.log)
  {
    hide Ok, Entries, book.Valid, R.Step, B.Wf, R.Bump, B.SetRemain, R.CancelEffect, Harmless;
    MatchStep(book, rec);
    if maker == 0 || taker == 0 || volume == 0 { return false; }
    SkipPast(book, if maker > taker then maker else taker);
    if maker !in book.hash { return false; }
    var x := book.hash[maker].slot;
    book.Admitted(book.hash[maker].product, x, maker);
    if book.slab.ord[x].remain < volume { return false; }
    Reduce(book, maker, x, book.slab.ord[x].remain - volume);
    if book.slab.ord[x].remain == 0 { CancelTight(book, maker); }
    return true;
  }

  lemma MatchStep(book: OrderBook, rec: B.Record)
    requires Tight(book) && rec.RMatch?
    ensures rec.maker in book.Book().entries <==> rec.maker in book.hash
    ensures var b, next := book.Book(), book.slab.nextId;
            var next' := R.Bump(next, if rec.maker > rec.taker then rec.maker else rec.taker);
            var r := R.Step(Setup(book), Image(book), rec);
            if rec.maker == 0 || rec.taker == 0 || rec.volume == 0 || rec.maker !in b.entries ||
                b.entries[rec.maker].order.remain < rec.volume then r == R.Failed
            else
              var left := b.entries[rec.maker].order.remain - rec.volume;
              var b' := b.(entries := B.SetRemain(b.entries, rec.maker, left));
              && R.KeysOk(b')
              && (left != 0 ==> r == R.Ok(R.Recovered(b', next')))
              && (left == 0 ==> r == R.Lift(R.CancelEffect(b', rec.maker), next') && (r != R.Corrupts ==>
                 Harmless(b', rec.maker)))
  {
    hide R.Step, R.KeysOk, Harmless, R.CancelEffect, B.SetRemain, R.Bump;
    BookKeys(book);
    EntryAt(book.hash, book.slab.ord[..], rec.maker);
    MatchEffect(Setup(book), Image(book), rec);
  }

  lemma BookKeys(book: OrderBook)
    requires Tight(book)
    ensures R.KeysOk(book.Book())
  {
  }

  lemma MatchEffect(c: R.Config, s: R.Recovered, rec: B.Record)
    requires R.KeysOk(s.book) && rec.RMatch?
    ensures var b, next' := s.book, R.Bump(s.nextId, if rec.maker > rec.taker then rec.maker else rec.taker);
            var r := R.Step(c, s, rec);
            if rec.maker == 0 || rec.taker == 0 || rec.volume == 0 || rec.maker !in b.entries ||
                b.entries[rec.maker].order.remain < rec.volume then r == R.Failed
            else
              var left := b.entries[rec.maker].order.remain - rec.volume;
              var b' := b.(entries := B.SetRemain(b.entries, rec.maker, left));
              && R.KeysOk(b')
              && (left != 0 ==> r == R.Ok(R.Recovered(b', next')))
              && (left == 0 ==> r == R.Lift(R.CancelEffect(b', rec.maker), next') && (r != R.Corrupts ==>
                 Harmless(b', rec.maker)))
  {
    hide R.PeersOf;
  }

  /** Overwrites an order's remaining volume. */
  method Reduce(book: OrderBook, id: nat, x: nat, remain: nat)
    requires Tight(book) && id in book.hash && book.hash[id].slot == x && x < book.slab.ord.Length
    modifies book.slab.ord
    ensures Tight(book) && book.slab.ord[x].remain == remain
    ensures id in old(book.Book()).entries &&
                  book.Book() == old(book.Book()).(entries := B.SetRemain(old(book.Book()).entries, id, remain))
  {
    hide Ok, Entries, B.Wf, book.slab.Valid, B.SetRemain;
    TouchMaker(book.St(), id, x, remain);
    book.slab.ord[x] := book.slab.ord[x].(remain := remain);
    assert book.St() == old(book.St()).(ord := old(book.slab.ord[..])[x := old(book.slab.ord[x]).(remain := remain)]);
  }

  method ReplayDeactivate(book: OrderBook, id: nat)
    requires Tight(book) && R.Step(Setup(book), Image(book), B.RDeactivate(id)) != R.Corrupts
    modifies book`ladder, book`members
    modifies book.slab.ord, book.slab.q1, book.slab.q2, book.slab.q3, book.heads, book.roots, book.known, book.orgHeads
    ensures Tight(book) && R.Step(Setup(book), old(Image(book)), B.RDeactivate(id)) == R.Ok(Image(book))
  {
    hide Ok, Entries, book.Valid, B.Wf, R.PeersOf, B.Linked, R.DeactivateEffect, Harmless;
    DeactivateStep(book, id);
    if id in book.hash {
      var x, product := book.hash[id].slot, book.hash[id].product;
      book.Admitted(product, x, id);
      var ok := book.Park(product, x);
    }
  }

  lemma DeactivateStep(book: OrderBook, id: nat)
    requires Tight(book)
    ensures R.KeysOk(book.Book()) && (R.DeactivateEffect(book.Book(), id).Some? ==> Harmless(book.Book(), id))
    ensures id !in book.hash ==> R.DeactivateEffect(book.Book(), id) == Some(book.Book())
  {
    EntryAt(book.hash, book.slab.ord[..], id);
    assert R.KeysOk(book.Book());
    hide Ok, Entries, B.Wf, R.PeersOf;
  }

  /** An activated order leaves the book; what became of it is in the records that follow. */
  method ReplayActivate(book: OrderBook, id: nat)
    requires Tight(book)
    modifies book`hash, book.slab`freeA, book.slab`freeB, book.slab`used, book.slab`free
    modifies book.slab.q0, book.slab.q1, book.slab.q2, book.slab.q3, book.slab.aux
    ensures Tight(book) && R.Step(Setup(book), old(Image(book)), B.RActivate(id)) == R.Ok(Image(book))
  {
    hide Ok, Entries, book.Valid, B.Wf, R.PeersOf, B.Linked, Forget;
    ActivateStep(book, id);
    if id in book.hash {
      var x := book.hash[id].slot;
      book.Admitted(book.hash[id].product, x, id);
      if B.Parked(book.slab.ord[x].flags) { Drop(book, id, x); }
    }
  }

  /** Forgets a deactivated order. */
  method Drop(book: OrderBook, id: nat, x: nat)
    requires Tight(book) &&
        id in book.hash && book.hash[id].slot == x && x < book.slab.ord.Length && B.Parked(book.slab.ord[x].flags)
    modifies book`hash, book.slab`freeA, book.slab`freeB, book.slab`used, book.slab`free
    modifies book.slab.q0, book.slab.q1, book.slab.q2, book.slab.q3, book.slab.aux
    ensures Tight(book) && book.Book() == old(book.Book()).(entries := old(book.Book()).entries - {id})
  {
    hide Ok, Entries, book.slab.Valid, B.Wf, Forget, B.Linked;
    book.Admitted(book.hash[id].product, x, id);
    OneLess(book.hash, id);
    DropParked(book.St(), id);
    book.Release(x, id);
  }

  lemma DropParked(s: State, id: nat)
    requires Ok(s) && B.Wf(Abs(s)) && id in s.hash && id in Abs(s).entries && B.Parked(Abs(s).entries[id].order.flags)
    ensures var t := Forget(s, s.hash[id].slot, id);
            Ok(t) && Abs(t) == Abs(s).(entries := Abs(s).entries - {id}) && B.Wf(Abs(t)) && |t.ladder| == |s.ladder|
  {
    OffSides(s, id);
    R.ParkedGone(Abs(s), id);
    ForgetKeeps(s, s.hash[id].slot, id);
  }

  lemma ActivateStep(book: OrderBook, id: nat)
    requires Tight(book)
    ensures R.KeysOk(book.Book()) && (id in book.Book().entries <==> id in book.hash)
  {
    EntryAt(book.hash, book.slab.ord[..], id);
    hide Ok, Entries;
  }

  // --------------------------------------------------------- whole logs

  method ReplayOne(book: OrderBook, rec: B.Record) returns (ok: bool)
    requires Tight(book) && !book.logging && (rec.RInsert? ==> !B.Parked(rec.order.flags)) &&
        R.Step(Setup(book), Image(book), rec) != R.Corrupts
    modifies book`hash, book`log, book`ladder, book`members, book.slab, book.slab.ord, book.slab.q0, book.slab.q1,
        book.slab.q2, book.slab.q3, book.slab.aux
    modifies book.heads, book.roots, book.known, book.orgHeads
    ensures var r := R.Step(Setup(book), old(Image(book)), rec);
            (ok ==> Tight(book) && r == R.Ok(Image(book))) && (!ok ==> r == R.Failed)
    ensures book.log == old(book.log)
  {
    hide Ok, Entries, book.Valid, B.Wf, R.Step, R.CancelEffect, Harmless;
    ok := true;
    match rec
    case RInsert(product, o) => ok := ReplayInsert(book, product, o);
    case RCancel(id) =>
      CancelStep(book, id);
      CancelTight(book, id);
    case RMatch(maker, taker, price, volume, product) => ok := ReplayMatch(book, maker, taker, volume, rec);
    case RDeactivate(id) => ReplayDeactivate(book, id);
    case RActivate(id) => ReplayActivate(book, id);
  }

  lemma CancelStep(book: OrderBook, id: nat)
    requires Tight(book)
    ensures R.KeysOk(book.Book()) &&
        R.Step(Setup(book), Image(book), B.RCancel(id)) == R.Lift(R.CancelEffect(book.Book(), id), book.slab.nextId)
    ensures R.CancelEffect(book.Book(), id).Some? ==> Harmless(book.Book(), id)
  {
    ActivateStep(book, id);
    hide Ok, Entries, B.Wf, R.PeersOf;
  }

  /** Replays a log with logging switched off, stopping at the first record that cannot be applied. */
  method Recover(book: OrderBook, log: seq<B.Record>) returns (ok: bool)
    requires Tight(book) && Insertable(log) && R.Replay(Setup(book), Image(book), log) != R.Corrupts
    modifies book, book.slab, book.slab.ord, book.slab.q0, book.slab.q1, book.slab.q2, book.slab.q3, book.slab.aux
    modifies book.heads, book.roots, book.known, book.orgHeads
    ensures var r := R.Replay(Setup(book), old(Image(book)), log);
            (ok ==> Tight(book) && r == R.Ok(Image(book))) && (!ok ==> r == R.Failed)
    ensures book.log == old(book.log) && book.logging == old(book.logging)
  {
    hide Ok, Entries, book.Valid, B.Wf, R.Step;
    var saved := book.logging;
    book.logging := false;
    var i := 0;
    ghost var s0, c := Image(book), Setup(book);
    while i < |log|
      invariant 0 <= i <= |log| && Tight(book) && !book.logging && book.log == old(book.log)
      invariant R.Replay(c, s0, log) == R.Replay(c, Image(book), log[i..]) && R.Replay(c, s0, log) != R.Corrupts
    {
      ghost var s := Image(book);
      ReplayFirst(c, s, log[i..]);
      ok := ReplayOne(book, log[i]);
      if !ok {
        book.logging := saved;
        return false;
      }
      assert log[i..][1..] == log[i + 1..];
      i := i + 1;
    }
    book.logging := saved;
    return true;
  }

  lemma ReplayFirst(c: R.Config, s: R.Recovered, log: seq<B.Record>)
    requires log != []
    ensures R.Replay(c, s, log) ==
        match R.Step(c, s, log[0]) case Ok(t) => R.Replay(c, t,
        log[1..]) case Failed => R.Failed case Corrupts => R.Corrupts
  {
  }

  /**
   Restarting from the log of any run gives a sound book in memory that is exactly the live one,
   unless the log holds a trade whose taker has no id: then, and only then, it fails.
   */
  method Restart(c: R.Config, log: seq<B.Record>, ghost ops: seq<R.Op>) returns (book: OrderBook, ok: bool)
    requires 0 < c.slots <= NULL && R.RunOk(c, B.EmptyBook(c.products), ops) &&
        log == R.Run(c, B.EmptyBook(c.products), ops).log
    ensures ok == R.Traceable(log) && fresh(book)
    ensures ok ==> book.Valid() && book.Book() == R.Run(c, B.EmptyBook(c.products), ops).book
    ensures ok ==> book.slab.nextId == 0 || forall i, id: nat :: 0 <= i < |log| && R.Mentions(log[i], id) ==>
        id < book.slab.nextId
    ensures ok && R.Narrow(log) ==> R.Counts(log, book.slab.nextId)
  {
    hide Ok, Entries, B.Wf, R.Run, R.RunOk, R.Replay, R.Mentions, R.Traceable, R.Counts, R.Narrow;
    book := new OrderBook(c.products, c.orgs, c.slots, true);
    assert Setup(book) == c && Image(book) == R.Start(c) && Tight(book);
    R.RecoveryTheorem(c, ops);
    RunLogs(c, B.EmptyBook(c.products), ops);
    ok := Recover(book, log);
  }
}
