/**
 What becomes of an organisation's bulk cancel once the order at the head of its queue has been
 removed: nothing is cancelled while the slot is free; once it has been used again, the orders of
 whoever uses it.
 */
module OrgFailures {
  import opened Common
  import opened Links
  import opened BookState
  import opened OrderBooks
  import opened Engine
  import opened Recovery
  import opened OrgCancel
  import opened Failures
  import B = Book
  import Q = OrgQueue
  import R = Replay
  import S = Slab

  /** Removes the order at the head of its organisation's queue: but for that head the queues stay exact. */
  method RemoveLead(book: OrderBook, product: nat, x: nat) returns (ghost head: nat, ghost lists: seq<seq<nat>>)
    requires Tight(book) && book.OrgSound() && x < book.slab.ord.Length && book.slab.ord[x].id in book.hash
    requires book.hash[book.slab.ord[x].id] == Loc(x, product) && B.Linked(book.Book(), book.slab.ord[x].id) &&
        book.LeadsOrg(product, x)
    modifies book`hash, book`ladder, book`members, book.slab`freeA, book.slab`freeB, book.slab`used, book.slab`free
    modifies book.slab.q0, book.slab.q1, book.slab.q2, book.slab.q3, book.slab.aux, book.heads, book.roots, book.known
    ensures Tight(book) && book.Book() == B.Remove(old(book.Book()), book.slab.ord[x].id)
    ensures book.hash == old(book.hash) - {book.slab.ord[x].id} && book.slab.free == [x] + old(book.slab.free)
    ensures var o := Q.OrgIndex(product, book.slab.ord[x].org, book.orgs);
            && o < |old(book.members)| && old(book.members)[o] != [] &&
               lists == old(book.members)[o := old(book.members)[o][1..]]
            && LeftBehind(book, o) && book.orgHeads[o] == x && Patched(book, o, head, lists)
  {
    hide Ok, B.Wf, Entries, book.slab.Valid, Q.OrgOk, Q.OrgIndex, B.Linked, B.Remove, R.PeersOf, Unlink, R.CancelEffect,
         Q.Holds, Q.Active;
    var id := book.slab.ord[x].id;
    book.Admitted(product, x, id);
    RemoveEffect(book.Book(), id);
    ghost var o, m, st := Q.OrgIndex(product, book.slab.ord[x].org, book.orgs), book.members, book.St();
    ghost var q3, heads := book.slab.q3[..], book.orgHeads[..];
    ExactStands(book, o);
    WalkStarts(book, o, book.orgHeads[o], m, o, 0);
    WalkAt(book, o, book.orgHeads[o], m, o, 0, 0, x);
    assert heads[o := heads[o]] == heads;
    OneLeaves(st, q3, heads, book.orgs, m, o, 0);
    UnlinkClears(q3, x);
    assert Delete(m[o], 0) == m[o][1..];
    head, lists := q3[x].next, m[o := m[o][1..]];
    OneLess(book.hash, id);
    var ok := book.RemoveSlot(product, x);
    assert book.slab.q3[x] == UNLINKED;
  }

  lemma OneLess(h: map<nat, Loc>, id: nat)
    requires id in h
    ensures |h - {id}| == |h| - 1
  {
    assert (h - {id}).Keys == h.Keys - {id};
  }

  /** Another organisation's order in the slot: the queues stay exact but for the one head. */
  lemma OtherJoins(s: State, q3: seq<Link>, heads: seq<nat>, orgs: nat, o: nat, head: nat, lists: seq<seq<nat>>,
                   product: nat, x: nat)
    requires Ok(s) && Incoming(s, product, x) && |q3| == |s.ord| && o < |heads|
    requires Q.OrgOk(Entries(s.hash, s.ord), s.hash, q3, heads[o := head], orgs, lists)
    requires var o2 := Q.OrgIndex(product, s.ord[x].org, orgs); o2 < |heads| && o2 != o
    ensures var o2, hash := Q.OrgIndex(product, s.ord[x].org, orgs), Enter(s, product, x);
            && (heads[o2] == NULL || heads[o2] < |q3|) && o2 < |lists|
            && Q.OrgOk(Entries(hash, s.ord), hash, Q.Push(q3, heads[o2], x), heads[o2 := x][o := head], orgs,
                       lists[o2 := [s.ord[x].id] + lists[o2]])
  {
    hide Ok, Q.OrgOk, Entries, Q.OrgIndex, Q.Push;
    var o2 := Q.OrgIndex(product, s.ord[x].org, orgs);
    InsertOrgs(s, q3, heads[o := head], orgs, lists, product, x);
    assert heads[o := head][o2 := x] == heads[o2 := x][o := head];
  }

  /**
   Books a new order in the first free slot; queues exact but for the head of `o1` stay so, if it is not one
   of them.
   */
  method Occupy(book: OrderBook, product: nat, o: B.Order, ghost o1: nat, ghost head: nat, ghost lists: seq<seq<nat>>)
                returns (x: nat)
    requires Tight(book) && product < book.products && o.org < book.orgs && o.id != 0 && !B.Parked(o.flags)
    requires o.id !in book.Book().entries && book.slab.free != [] && Patched(book, o1, head, lists)
    modifies book`hash, book`log, book`ladder, book`members, book.slab`freeA, book.slab`freeB, book.slab`used,
        book.slab`free
    modifies book.slab.ord, book.slab.q0, book.slab.q1, book.slab.q2, book.slab.q3, book.slab.aux, book.heads
    modifies book.roots, book.known, book.orgHeads
    ensures Tight(book) && x == old(book.slab.free)[0] && x < book.slab.ord.Length && book.slab.ord[x] == o
    ensures |old(book.ladder)| == 2 * book.products && book.Book() == B.Insert(old(book.Book()), product, o)
    ensures book.hash == old(book.hash)[o.id := Loc(x, product)] && (old(book.OrgSound()) ==> book.OrgSound())
    ensures x < book.slab.q3.Length &&
            book.OrgJoined(old(book.slab.q3[..])[x := UNLINKED], old(book.orgHeads[..]), product, x)
    ensures var o2 := Q.OrgIndex(product, o.org, book.orgs);
            o2 != o1 ==> o2 < |lists| && Patched(book, o1, head, lists[o2 := [o.id] + lists[o2]])
  {
    hide Ok, Entries, B.Wf, B.Insert, book.OrgSound, book.slab.Valid, Q.OrgOk, Q.OrgIndex, Q.Push;
    EntryCount(book);
    ghost var e, q3, heads := book.Book().entries, book.slab.q3[..], book.orgHeads[..];
    x := Take(book);
    FillSlot(book, x, o);
    SlotsApart(book);
    Q.IdleSlot(e, book.hash, q3, heads[o1 := head], book.orgs, lists, x);
    EntryCount(book);
    OneMore(book.hash, o.id, Loc(x, product));
    ghost var st := book.St();
    OrgInRange(product, book.products, o.org, book.orgs);
    if Q.OrgIndex(product, o.org, book.orgs) != o1 {
      OtherJoins(st, q3[x := UNLINKED], heads, book.orgs, o1, head, lists, product, x);
    }
    var ok := book.Insert(product, x);
    assert book.hash == Enter(st, product, x) && book.slab.ord[..] == st.ord;
  }

  /** The organisation's own order in the slot is linked before itself. */
  lemma OwnJoins(q3: seq<Link>, x: nat)
    requires x < |q3| <= NULL && q3[x] == UNLINKED
    ensures Q.Push(q3, x, x)[x] == Link(x, x)
  {
  }

  // ------------------------------------------------------------- what follows

  /** While the slot is free the bulk cancel does nothing, whatever is left. */
  method RemoveThenCancel(book: OrderBook, product: nat, x: nat) returns (cancelled: nat)
    requires Tight(book) && book.OrgSound() && x < book.slab.ord.Length && book.slab.ord[x].id in book.hash
    requires book.hash[book.slab.ord[x].id] == Loc(x, product) && B.Linked(book.Book(), book.slab.ord[x].id) &&
        book.LeadsOrg(product, x)
    modifies book`hash, book`log, book`ladder, book`members, book.slab`freeA, book.slab`freeB, book.slab`used,
        book.slab`free
    modifies book.slab.q0, book.slab.q1, book.slab.q2, book.slab.q3, book.slab.aux, book.heads, book.roots, book.known,
        book.orgHeads
    ensures book.Valid() && cancelled == 0 && book.Book() == B.Remove(old(book.Book()), book.slab.ord[x].id)
  {
    hide Ok, B.Wf, Entries, book.slab.Valid, Q.OrgOk, Q.OrgIndex, B.Linked, B.Remove, R.PeersOf, LeftBehind, Purged;
    ghost var head, lists := RemoveLead(book, product, x);
    NothingPurged(book.Book());
    ghost var ids;
    cancelled, ids := CancelOrgProduct(book, product, book.slab.ord[x].org, Behind);
  }

  /** An order is removed from the head of its queue and the next one is booked in its slot. */
  method Reuse(book: OrderBook, product: nat, x: nat, product2: nat, o: B.Order) returns (ghost s: Stand)
    requires Tight(book) && book.OrgSound() && x < book.slab.ord.Length && book.slab.ord[x].id in book.hash
    requires book.hash[book.slab.ord[x].id] == Loc(x, product) && B.Linked(book.Book(), book.slab.ord[x].id) &&
        book.LeadsOrg(product, x)
    requires product2 < book.products && o.org < book.orgs && o.id != 0 && !B.Parked(o.flags) &&
        o.id !in book.Book().entries
    modifies book`hash, book`log, book`ladder, book`members, book.slab`freeA, book.slab`freeB, book.slab`used,
        book.slab`free
    modifies book.slab.ord, book.slab.q0, book.slab.q1, book.slab.q2, book.slab.q3, book.slab.aux, book.heads
    modifies book.roots, book.known, book.orgHeads
    ensures Tight(book) && |old(book.ladder)| == 2 * book.products && product < book.products
    ensures book.Book() == B.Insert(B.Remove(old(book.Book()), old(book.slab.ord[x].id)), product2, o)
    ensures old(book.slab.ord[x].org) < book.orgs
    ensures var o1, o2 := Q.OrgIndex(product, old(book.slab.ord[x].org), book.orgs),
        Q.OrgIndex(product2, o.org, book.orgs);
            && Stands(book, o1, s) && o2 < |old(book.members)|
            && Reached(book, o1, s) == if o1 == o2 then [o.id] else [o.id] + old(book.members)[o2]
  {
    hide Ok, B.Wf, Entries, book.slab.Valid, Q.OrgOk, Q.OrgIndex, B.Linked, B.Remove, B.Insert, R.PeersOf, Q.Push,
         Patched, LeftBehind, book.OrgJoined, Stands, Reached;
    ghost var o1, o2 := Q.OrgIndex(product, book.slab.ord[x].org, book.orgs), Q.OrgIndex(product2, o.org, book.orgs);
    book.Admitted(product, x, book.slab.ord[x].id);
    EntryCount(book);
    ghost var m := book.members;
    ghost var head, lists := RemoveLead(book, product, x);
    EntryCount(book);
    ghost var q3, heads := book.slab.q3[..], book.orgHeads[..];
    assert heads[o1] == x by { HeadAt(book, o1); }
    var y := Occupy(book, product2, o, o1, head, lists);
    s := Settles(book, o1, o2, x, head, lists, q3, heads, product2);
  }

  /** Where the head stands that was left on the slot. */
  lemma Settles(book: OrderBook, o1: nat, o2: nat, x: nat, head: nat, lists: seq<seq<nat>>, q3: seq<Link>,
                heads: seq<nat>, product: nat) returns (s: Stand)
    requires book.Valid() && x < book.slab.ord.Length && x < |q3| && o1 < |heads| && heads[o1] == x
    requires var o := book.slab.ord[x];
             && o.id in book.hash && book.hash[o.id] == Loc(x, product) && !B.Parked(o.flags)
             && o2 == Q.OrgIndex(product, o.org, book.orgs) < |lists|
             && book.OrgJoined(q3[x := UNLINKED], heads, product, x)
             && (o2 != o1 ==> Patched(book, o1, head, lists[o2 := [o.id] + lists[o2]]))
    ensures Stands(book, o1, s)
    ensures Reached(book, o1, s) == if o1 == o2 then [book.slab.ord[x].id] else [book.slab.ord[x].id] + lists[o2]
  {
    hide Ok, B.Wf, Entries, book.slab.Valid, Q.OrgOk, Q.OrgIndex, B.Linked, Q.Push, Patched;
    if o1 == o2 {
      s := Looped;
      OwnJoins(q3[x := UNLINKED], x);
      NowActive(book, product, x);
    } else {
      s := Within(lists[o2 := [book.slab.ord[x].id] + lists[o2]], head, o2, 0);
      assert s.lists[o2][0..] == s.lists[o2];
    }
  }

  lemma HeadAt(book: OrderBook, o: nat)
    requires LeftBehind(book, o)
    ensures o < book.orgHeads.Length && book.orgHeads[..][o] == book.orgHeads[o]
  {
  }

  lemma NowActive(book: OrderBook, product: nat, x: nat)
    requires book.Valid() && x < book.slab.ord.Length && book.slab.ord[x].id in book.hash
    requires book.hash[book.slab.ord[x].id] == Loc(x, product) && !B.Parked(book.slab.ord[x].flags)
    ensures B.Linked(book.Book(), book.slab.ord[x].id)
  {
    hide Ok, B.Wf, Entries, book.slab.Valid, B.Linked;
    book.Admitted(product, x, book.slab.ord[x].id);
  }

  /**
   Once an order of another organisation is in the slot, the bulk cancel of the first cancels that
   order and every other order of its organisation, and none of its own. Once it is one of the same
   organisation, only that order is cancelled, whatever else there is.
   */
  method ReuseThenCancel(book: OrderBook, product: nat, x: nat, product2: nat, o: B.Order)
                         returns (cancelled: nat, ghost ids: seq<nat>)
    requires Tight(book) && book.OrgSound() && x < book.slab.ord.Length && book.slab.ord[x].id in book.hash
    requires book.hash[book.slab.ord[x].id] == Loc(x, product) && B.Linked(book.Book(), book.slab.ord[x].id) &&
        book.LeadsOrg(product, x)
    requires product2 < book.products && o.org < book.orgs && o.id != 0 && !B.Parked(o.flags) &&
        o.id !in book.Book().entries
    modifies book`hash, book`log, book`ladder, book`members, book.slab`freeA, book.slab`freeB, book.slab`used,
        book.slab`free
    modifies book.slab.ord, book.slab.q0, book.slab.q1, book.slab.q2, book.slab.q3, book.slab.aux, book.heads
    modifies book.roots, book.known, book.orgHeads
    ensures book.Valid() && cancelled == |ids|
    ensures var o1, o2 := Q.OrgIndex(product, old(book.slab.ord[x].org), book.orgs),
        Q.OrgIndex(product2, o.org, book.orgs);
            o2 < |old(book.members)| && ids == if o1 == o2 then [o.id] else [o.id] + old(book.members)[o2]
    ensures |old(book.ladder)| == 2 * book.products &&
            Purged(B.Insert(B.Remove(old(book.Book()), old(book.slab.ord[x].id)), product2, o), ids, book.Book())
  {
    hide Ok, B.Wf, Entries, book.slab.Valid, Q.OrgOk, Q.OrgIndex, B.Linked, B.Remove, B.Insert, Purged, Stands, Reached;
    var org := book.slab.ord[x].org;
    ghost var s := Reuse(book, product, x, product2, o);
    cancelled, ids := CancelOrgProduct(book, product, org, s);
  }

  // ------------------------------------------------------------ reachable books

  /** An organisation with an active order has one at the head of its exact queue. */
  lemma Lead(book: OrderBook, o: nat, id: nat)
    requires book.Valid() && book.OrgSound() && o < book.orgHeads.Length
    requires Q.Belongs(book.Book().entries, book.orgs, o, id)
    ensures var y := book.orgHeads[o];
            && y < book.slab.ord.Length && var i := book.slab.ord[y].id;
            && i in book.hash && book.hash[i].slot == y && B.Linked(book.Book(), i)
            && Q.OrgIndex(book.hash[i].product, book.slab.ord[y].org, book.orgs) == o
            && Q.Belongs(book.Book().entries, book.orgs, o, i)
  {
    hide Ok, B.Wf, Entries, book.slab.Valid, Q.OrgOk, Q.OrgIndex, B.Linked, Q.Belongs;
    ExactStands(book, o);
    assert id in book.members[o];
    WalkStarts(book, o, book.orgHeads[o], book.members, o, 0);
    WalkAt(book, o, book.orgHeads[o], book.members, o, 0, 0, book.orgHeads[o]);
    assert book.members[o][0] in book.members[o];
  }

  /** Whichever of the two is removed, the other stays. */
  lemma OtherStays(id: nat)
    requires Q.Belongs(Pair().entries, 1, 0, id)
    ensures 0 < id < 3 && id in Pair().entries && B.KeyOf(Pair().entries[id]) < |Pair().ladder|
    ensures |B.Remove(Pair(), id).ladder| == 2 && Q.Belongs(B.Remove(Pair(), id).entries, 1, 0, 3 - id)
  {
  }

  /** A book of one organisation with two bids; `y` is the slot at the head of its queue. */
  method TwoOrders() returns (book: OrderBook, y: nat)
    ensures fresh(book) && fresh(book.slab) && fresh(book.slab.ord) && fresh(book.slab.q0) && fresh(book.slab.q1)
    ensures fresh(book.slab.q2) && fresh(book.slab.q3) && fresh(book.slab.aux) && fresh(book.heads) && fresh(book.roots)
    ensures fresh(book.known) && fresh(book.orgHeads)
    ensures Tight(book) && book.OrgSound() && book.Book() == Pair() && book.products == book.orgs == 1
    ensures y < book.slab.ord.Length && book.slab.ord[y].id in book.hash && book.LeadsOrg(0, y)
    ensures book.hash[book.slab.ord[y].id] == Loc(y, 0) && B.Linked(book.Book(), book.slab.ord[y].id)
    ensures Q.Belongs(Pair().entries, 1, 0, book.slab.ord[y].id)
  {
    hide Entries, B.Wf, book.Valid, book.OrgSound, B.Insert, B.EmptyBook, Q.Belongs, B.Remove, B.Linked, Pair;
    TwoBids();
    book := new OrderBook(1, 1, 2, false);
    AddBid(book, 1);
    AddBid(book, 2);
    HeadsFor(book);
    Lead(book, 0, 1);
    y := book.orgHeads[0];
    book.Admitted(book.hash[book.slab.ord[y].id].product, y, book.slab.ord[y].id);
  }

  /**
   The newest of an organisation's two orders is removed. The bulk cancel that follows reports no
   order and leaves the other one resting.
   */
  method MissedOrder() returns (book: OrderBook, cancelled: nat)
    ensures fresh(book) && book.Valid() && cancelled == 0
    ensures exists id: nat :: Q.Belongs(book.Book().entries, book.orgs, 0, id)
  {
    hide Ok, Entries, B.Wf, book.slab.Valid, book.OrgSound, Q.Belongs, B.Remove, B.Linked, Pair, book.LeadsOrg;
    var y;
    book, y := TwoOrders();
    ghost var id := book.slab.ord[y].id;
    OtherStays(id);
    cancelled := RemoveThenCancel(book, 0, y);
    assert Q.Belongs(book.Book().entries, book.orgs, 0, 3 - id);
  }

  /** With `o` booked and cancelled again, an order that was active stays so. */
  lemma StillActive(b: B.Book, o: B.Order, cur: B.Book, orgs: nat, k: nat, id: nat)
    requires B.Key(0, B.IsBid(o.flags)) < |b.ladder| && Purged(B.Insert(b, 0, o), [o.id], cur)
    requires Q.Belongs(b.entries, orgs, k, id) && id != o.id
    ensures Q.Belongs(cur.entries, orgs, k, id)
  {
    hide B.Wf, R.CancelAll, Q.OrgOf, B.PlaceId;
  }

  /**
   The newest of the two orders is removed and a third booked, in its slot. The bulk cancel that follows
   cancels the third and leaves the older one resting.
   */
  method OnlyNewest() returns (book: OrderBook, cancelled: nat)
    ensures fresh(book) && book.Valid() && cancelled == 1 && 3 !in book.hash
    ensures exists id: nat :: Q.Belongs(book.Book().entries, book.orgs, 0, id)
  {
    hide Ok, Entries, B.Wf, book.slab.Valid, book.OrgSound, Q.Belongs, B.Remove, B.Linked, Pair, book.LeadsOrg, Purged,
         B.Insert;
    var y;
    book, y := TwoOrders();
    ghost var id, was := book.slab.ord[y].id, book.Book();
    OtherStays(id);
    NoThird();
    ghost var ids;
    cancelled, ids := ReuseThenCancel(book, 0, y, 0, Bid(3));
    StillActive(B.Remove(was, id), Bid(3), book.Book(), 1, 0, 3 - id);
    NotIn(B.Insert(B.Remove(was, id), 0, Bid(3)), ids, book, 3);
    assert Q.Belongs(book.Book().entries, book.orgs, 0, 3 - id);
  }

  lemma NoThird()
    ensures 3 !in Pair().entries
  {
  }

  lemma NotIn(b: B.Book, ids: seq<nat>, book: OrderBook, id: nat)
    requires Purged(b, ids, book.Book()) && book.Valid() && id in ids
    ensures id !in book.hash && id !in book.Book().entries
  {
    EntryCount(book);
    hide B.Wf, R.CancelAll, Ok, Entries;
  }

  lemma FirstIn(m: seq<nat>)
    ensures m == [] || m[0] in m
  {
  }

  /** An organisation without orders has an empty queue. */
  lemma NoOrders(book: OrderBook, o: nat)
    requires book.Valid() && book.OrgSound() && o < book.orgHeads.Length
    requires forall id: nat :: !Q.Belongs(book.Book().entries, book.orgs, o, id)
    ensures o < |book.members| && book.members[o] == []
  {
    hide Ok, B.Wf, Entries, book.slab.Valid, Q.OrgOk, Q.Belongs;
    ExactStands(book, o);
    FirstIn(book.members[o]);
  }

  /** A single bid, of organisation 0 of two. */
  method OneOrder() returns (book: OrderBook, y: nat)
    ensures fresh(book) && fresh(book.slab) && fresh(book.slab.ord) && fresh(book.slab.q0) && fresh(book.slab.q1)
    ensures fresh(book.slab.q2) && fresh(book.slab.q3) && fresh(book.slab.aux) && fresh(book.heads) && fresh(book.roots)
    ensures fresh(book.known) && fresh(book.orgHeads)
    ensures Tight(book) && book.OrgSound() && book.products == 1 && book.orgs == 2 && |book.members| == 2
    ensures book.Book() == B.Book(map[1 := B.Entry(0, Bid(1))], [[[1]], []]) && book.members[1] == []
    ensures y < book.slab.ord.Length && book.slab.ord[y].id == 1 && 1 in book.hash && book.LeadsOrg(0, y)
    ensures book.hash[1] == Loc(y, 0) && B.Linked(book.Book(), 1)
  {
    hide Ok, Entries, B.Wf, book.slab.Valid, book.OrgSound, B.Insert, B.EmptyBook, B.Linked, Q.Belongs, Q.OrgIndex,
         Q.OrgOf;
    FirstBid();
    NoEntries();
    book := new OrderBook(1, 2, 1, false);
    AddBid(book, 1);
    OrgZero(B.Entry(0, Bid(1)));
    forall id: nat ensures Q.Belongs(book.Book().entries, 2, 0, 1) && !Q.Belongs(book.Book().entries, 2, 1, id) {
      OnlyFirst(book.Book().entries, id);
    }
    assert Q.Belongs(book.Book().entries, 2, 0, 1) by { OnlyFirst(book.Book().entries, 0); }
    Lead(book, 0, 1);
    NoOrders(book, 1);
    y := book.orgHeads[0];
    book.Admitted(book.hash[book.slab.ord[y].id].product, y, book.slab.ord[y].id);
    Members(book);
    Leads(book, y);
  }

  lemma OnlyFirst(e: map<nat, B.Entry>, id: nat)
    requires 1 in e && !B.Parked(e[1].order.flags) && Q.OrgOf(e[1], 2) == 0 && forall id :: id in e ==> id == 1
    ensures Q.Belongs(e, 2, 0, 1) && !Q.Belongs(e, 2, 1, id)
  {
    hide Q.OrgOf;
  }

  lemma OrgZero(en: B.Entry)
    requires en.product == 0 && en.order.org == 0
    ensures Q.OrgOf(en, 2) == 0
  {
  }

  lemma Leads(book: OrderBook, y: nat)
    requires 0 < book.orgHeads.Length && book.orgHeads[0] == y < book.slab.ord.Length && book.slab.ord[y].org == 0
    ensures book.LeadsOrg(0, y)
  {
  }

  lemma Members(book: OrderBook)
    requires book.OrgSound()
    ensures |book.members| == book.orgHeads.Length
  {
  }

  /**
   An organisation's only order is removed and another organisation books one, in the same slot. The
   first one's bulk cancel reports one order: it has cancelled the other's.
   */
  method StolenOrder() returns (book: OrderBook, cancelled: nat)
    ensures fresh(book) && book.Valid() && cancelled == 1 && book.Book().entries == map[]
  {
    hide Ok, Entries, B.Wf, book.slab.Valid, book.OrgSound, B.Linked, book.LeadsOrg, Purged, B.PlaceId;
    var y;
    book, y := OneOrder();
    ghost var was := book.Book();
    ghost var ids;
    cancelled, ids := ReuseThenCancel(book, 0, y, 0, Bid(2).(org := 1));
    assert ids == [2];
    Emptied(was, book.Book());
  }

  lemma Emptied(was: B.Book, cur: B.Book)
    requires was == B.Book(map[1 := B.Entry(0, Bid(1))], [[[1]], []])
    requires Purged(B.Insert(B.Remove(was, 1), 0, Bid(2).(org := 1)), [2], cur)
    ensures cur.entries == map[]
  {
    hide B.Wf, R.CancelAll, B.PlaceId, B.RemoveId;
  }
}
