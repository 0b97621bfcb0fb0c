/**
 Bulk cancellation of an organisation's orders in one product: the walk along the organisation's
 queue. It cancels exactly the active orders there as long as the queue is exact. Once removal has
 left the queue's head behind it cancels nothing while the slot is free, and whatever queue the slot
 has come to be in after the slot has been used again.
 */
module OrgCancel {
  import opened Common
  import opened Links
  import opened BookState
  import opened OrderBooks
  import opened Engine
  import opened BulkCancel
  import B = Book
  import Q = OrgQueue
  import R = Replay
  import S = Slab

  /** `cur` is `b` with the orders `ids` cancelled one after the other, all different. */
  ghost predicate Purged(b: B.Book, ids: seq<nat>, cur: B.Book) {
    && B.Wf(b) && B.Wf(cur) && (forall i :: 0 <= i < |ids| ==> B.Linked(b, ids[i])) && Distinct(ids)
    && R.CancelAll(b, ids) == R.Live(cur, Cancels(ids)) && cur.entries == b.entries - S.Elements(ids)
  }

  ghost predicate Cancellable(b: B.Book, ids: seq<nat>) { forall i :: 0 <= i < |ids| ==> ids[i] in b.entries ==>
                              B.Linked(b, ids[i]) }

  lemma {:induction false} CancelAllAppend(b: B.Book, ids: seq<nat>, id: nat)
    requires B.Wf(b) && Cancellable(b, ids) && (id in b.entries ==> B.Linked(b, id))
    ensures var l := R.CancelAll(b, ids);
            && B.Wf(l.book) && (id in l.book.entries ==> B.Linked(l.book, id)) && Cancellable(b, ids + [id])
            && R.CancelAll(b, ids + [id]) == R.Live(R.CancelLive(l.book, id).book, l.log + R.CancelLive(l.book, id).log)
    decreases |ids|
  {
    hide B.Wf, B.Linked, R.CancelLive, R.CancelSafe, R.KeysOk, R.CancelAll;
    assert Cancellable(b, ids + [id]);
    CancelAllFirst(b, ids + [id]);
    if ids == [] {
      assert (ids + [id])[1..] == [] && (ids + [id])[0] == id;
      NoneToCancel(b);
      NoneToCancel(R.CancelLive(b, id).book);
    } else {
      var l := R.CancelLive(b, ids[0]);
      assert (ids + [id])[0] == ids[0] && (ids + [id])[1..] == ids[1..] + [id];
      CancelAllFirst(b, ids);
      R.LinkedAfterCancel(b, ids[0]);
      CancelAllAppend(l.book, ids[1..], id);
    }
  }

  lemma NoneToCancel(b: B.Book)
    requires B.Wf(b)
    ensures R.CancelAll(b, []) == R.Live(b, [])
  {
  }

  lemma CancelAllFirst(b: B.Book, ids: seq<nat>)
    requires B.Wf(b) && ids != [] && Cancellable(b, ids)
    ensures R.KeysOk(b) && R.CancelSafe(b, ids[0]) && var l := R.CancelLive(b, ids[0]);
            && B.Wf(l.book) && Cancellable(l.book, ids[1..])
            && R.CancelAll(b, ids) == var rest := R.CancelAll(l.book, ids[1..]); R.Live(rest.book, l.log + rest.log)
  {
    assert ids[0] in b.entries ==> B.Linked(b, ids[0]);
    R.LinkedAfterCancel(b, ids[0]);
    hide B.Wf, B.Linked;
  }

  lemma PurgeOne(b: B.Book, ids: seq<nat>, cur: B.Book, id: nat)
    requires Purged(b, ids, cur) && B.Linked(cur, id)
    ensures Purged(b, ids + [id], B.Remove(cur, id))
  {
    WasLinked(b, ids, cur, id);
    hide B.Wf, B.Linked, B.Remove, R.CancelAll, R.CancelEffect;
    CancelAllAppend(b, ids, id);
    RemoveOnly(cur, id);
    GoneOne(b.entries, ids, id);
  }

  lemma PurgeLogged(b: B.Book, ids: seq<nat>, cur: B.Book, id: nat, log: seq<B.Record>)
    requires Purged(b, ids, cur) && B.Linked(cur, id)
    ensures Purged(b, ids + [id], B.Remove(cur, id))
    ensures log + Cancels(ids) + [B.RCancel(id)] == log + Cancels(ids + [id]) && log + [] == log
  {
    hide B.Wf, B.Linked, B.Remove, R.CancelAll;
    PurgeOne(b, ids, cur, id);
    GoneOne(b.entries, ids, id);
  }

  lemma RemoveOnly(b: B.Book, id: nat)
    requires B.Wf(b) && B.Linked(b, id)
    ensures B.Wf(B.Remove(b, id)) && B.Remove(b, id).entries == b.entries - {id} && R.KeysOk(b) && R.CancelSafe(b, id)
    ensures R.CancelLive(b, id) == R.Live(B.Remove(b, id), [B.RCancel(id)])
  {
    B.RemoveWf(b, id);
    RemoveEffect(b, id);
  }

  lemma WasLinked(b: B.Book, ids: seq<nat>, cur: B.Book, id: nat)
    requires Purged(b, ids, cur) && B.Linked(cur, id)
    ensures B.Linked(b, id) && id !in ids && Distinct(ids + [id])
  {
    hide R.CancelAll;
    assert B.EntriesOk(b) && B.EntriesOk(cur);
    assert b.entries[id] == cur.entries[id];
  }

  /** Nothing has been cancelled yet. */
  lemma NothingPurged(b: B.Book)
    requires B.Wf(b)
    ensures forall cur :: Purged(b, [], cur) <==> cur == b
  {
    NoneToCancel(b);
    hide B.Wf, R.CancelAll;
    assert Cancels([]) == [] && b.entries - S.Elements([]) == b.entries;
  }

  // ---------------------------------------------------- where a head can stand

  /** The head of a queue is left on a slot that holds no order and leads nowhere. */
  ghost predicate LeftBehind(book: OrderBook, o: nat)
    reads book`hash, book.slab.ord, book.slab.q3, book.orgHeads
  {
    && o < book.orgHeads.Length && var y := book.orgHeads[o];
    && y != NULL && y < book.slab.ord.Length && y < book.slab.q3.Length && book.slab.ord[y].id !in book.hash &&
       book.slab.q3[y].next == NULL
  }

  /** The organisation's own next order took the slot and was linked before itself. */
  ghost predicate SelfLinked(book: OrderBook, o: nat)
    reads book`hash, book`ladder, book.slab.ord, book.slab.q1, book.slab.q2, book.slab.q3, book.known, book.heads
    reads book.roots, book.orgHeads
  {
    && o < book.orgHeads.Length && var y := book.orgHeads[o];
    && y != NULL && y < book.slab.ord.Length && y < book.slab.q3.Length && book.slab.q3[y] == Link(y, y)
    && var id := book.slab.ord[y].id;
    && id in book.hash && book.hash[id].slot == y && B.Linked(book.Book(), id)
    && Q.OrgIndex(book.hash[id].product, book.slab.ord[y].org, book.orgs) == o
  }

  /** The queues would be exact if the head of queue `o` were `head`. */
  ghost predicate Patched(book: OrderBook, o: nat, head: nat, lists: seq<seq<nat>>)
    reads book`hash, book.slab.ord, book.slab.q3, book.orgHeads
  {
    && o < book.orgHeads.Length
    && Q.OrgOk(Entries(book.hash, book.slab.ord[..]), book.hash, book.slab.q3[..], book.orgHeads[..][o := head],
               book.orgs, lists)
  }

  /** The head of queue `o` stands at order `i` of queue `o2`, which is exact: its own first, or of another. */
  ghost predicate Points(book: OrderBook, o: nat, head: nat, lists: seq<seq<nat>>, o2: nat, i: nat)
    reads book`hash, book.slab.ord, book.slab.q3, book.orgHeads
  {
    && Patched(book, o, head, lists) && o2 < |lists| && i <= |lists[o2]|
    && book.orgHeads[o] == SlotAt(book.hash, lists[o2], i) && (o2 == o ==> head == book.orgHeads[o] && i == 0)
  }

  datatype Stand = Behind | Looped | Within(lists: seq<seq<nat>>, head: nat, o2: nat, i: nat)

  ghost predicate Stands(book: OrderBook, o: nat, s: Stand)
    reads book`hash, book`ladder, book.slab.ord, book.slab.q1, book.slab.q2, book.slab.q3, book.known, book.heads
    reads book.roots, book.orgHeads
  {
    match s
    case Behind => LeftBehind(book, o)
    case Looped => SelfLinked(book, o)
    case Within(lists, head, o2, i) => Points(book, o, head, lists, o2, i)
  }

  /** With exact queues every head stands at the first order of its own. */
  lemma ExactStands(book: OrderBook, o: nat)
    requires book.Valid() && book.OrgSound() && o < book.orgHeads.Length
    ensures Stands(book, o, Within(book.members, book.orgHeads[o], o, 0))
    ensures o < |book.members| && Q.Holds(book.Book().entries, book.orgs, o, book.members[o])
  {
    hide Ok, B.Wf, Entries, book.slab.Valid, Q.Holds, Q.IdleClear, Chain;
    assert book.orgHeads[..][o := book.orgHeads[o]] == book.orgHeads[..];
    assert Q.Queue(book.slab.q3[..], book.orgHeads[o], Slots(book.hash, book.members[o]));
  }

  // -------------------------------------------------------------- one step

  /** Cancels the order in a slot, if the slot holds one, having read where its link leads. */
  method CancelAt(book: OrderBook, y: nat) returns (ok: bool, next: nat)
    requires book.Valid() && y < book.slab.ord.Length
    requires var id := book.slab.ord[y].id;
             id in book.hash ==> book.hash[id].slot == y && B.Linked(book.Book(), id)
    modifies book`hash, book`log, book`ladder, book`members, book.slab`freeA, book.slab`freeB, book.slab`used,
        book.slab`free
    modifies book.slab.q0, book.slab.q1, book.slab.q2, book.slab.q3, book.slab.aux, book.heads, book.roots, book.known,
        book.orgHeads
    ensures book.Valid() && (old(book.OrgSound()) ==> book.OrgSound()) && y < book.slab.q3.Length
    ensures ok == (book.slab.ord[y].id in old(book.hash)) && next == old(book.slab.q3[y].next)
    ensures ok ==>
              var id := book.slab.ord[y].id;
              && book.Book() == B.Remove(old(book.Book()), id) && book.hash == old(book.hash) - {id}
              && Logged(book, old(book.log), [B.RCancel(id)])
              && book.OrgLeft(old(book.slab.q3[..]), old(book.orgHeads[..]), old(book.hash)[id].product, y)
    ensures !ok ==> book.Book() == old(book.Book()) && book.hash == old(book.hash) && book.log == old(book.log) &&
                    book.slab.q3[..] == old(book.slab.q3[..]) && book.orgHeads[..] == old(book.orgHeads[..])
  {
    hide Ok, B.Wf, Entries, book.slab.Valid, Q.OrgOk, Q.OrgIndex, B.Linked, B.Remove, R.PeersOf, Unlink;
    SafeIs(book, book.slab.ord[y].id);
    if book.slab.ord[y].id in book.hash { RemoveEffect(book.Book(), book.slab.ord[y].id); }
    next := book.slab.q3[y].next;
    ok := book.Cancel(book.slab.ord[y].id);
  }

  /** What the queues say about one order of them. */
  lemma OneIs(s: State, q3: seq<Link>, heads: seq<nat>, orgs: nat, lists: seq<seq<nat>>, o: nat, i: nat)
    requires Ok(s) && |q3| == |s.ord| && Q.OrgOk(Entries(s.hash, s.ord), s.hash, q3, heads, orgs, lists)
    requires o < |lists| && i < |lists[o]|
    ensures var id := lists[o][i];
            && id in s.hash && s.hash[id].slot < |s.ord| && s.ord[s.hash[id].slot].id == id && o < |heads|
            && Q.Active(Entries(s.hash, s.ord), id)
            && Q.OrgIndex(s.hash[id].product, s.ord[s.hash[id].slot].org, orgs) == o
  {
    var id, e := lists[o][i], Entries(s.hash, s.ord);
    assert HashOk(s.hash, s.ord);
    assert Q.Members(e, orgs, lists);
    hide Ok, Q.OrgIndex, Chain;
    assert Q.Holds(e, orgs, o, lists[o]);
    assert id in lists[o] && Q.Belongs(e, orgs, o, id);
  }

  /** Where an order's link leads, before it has left its queue and after. */
  lemma NextIs(s: State, q3: seq<Link>, heads: seq<nat>, orgs: nat, lists: seq<seq<nat>>, o: nat, i: nat)
    requires Ok(s) && |q3| == |s.ord| && Q.OrgOk(Entries(s.hash, s.ord), s.hash, q3, heads, orgs, lists)
    requires o < |lists| && i < |lists[o]|
    ensures var id := lists[o][i]; var x := SlotOf(s.hash, id);
            && x < |q3| && x != NULL && q3[x].next == SlotAt(s.hash, lists[o], i + 1)
            && SlotAt(s.hash, lists[o], i + 1) == SlotAt(s.hash - {id}, Delete(lists[o], i), i)
  {
    OneIs(s, q3, heads, orgs, lists, o, i);
    if i + 1 < |lists[o]| { OneIs(s, q3, heads, orgs, lists, o, i + 1); }
    hide Ok, Q.OrgIndex, Entries, Q.Members, Q.IdleClear;
    assert Q.Queue(q3, heads[o], Slots(s.hash, lists[o]));
    ChainElim(q3, Slots(s.hash, lists[o]), i);
    Q.IdsDistinct(s.hash, lists[o]);
  }

  /** The queues once it has left. */
  lemma OneLeaves(s: State, q3: seq<Link>, heads: seq<nat>, orgs: nat, lists: seq<seq<nat>>, o: nat, i: nat)
    requires Ok(s) && |q3| == |s.ord| && Q.OrgOk(Entries(s.hash, s.ord), s.hash, q3, heads, orgs, lists)
    requires o < |lists| && i < |lists[o]|
    ensures var x, h := SlotOf(s.hash, lists[o][i]), s.hash - {lists[o][i]};
            && x < |q3| && o < |heads|
            && Q.OrgOk(Entries(h, s.ord), h, Unlink(q3, x),
                       heads[o := if heads[o] == x then q3[x].next else heads[o]], orgs,
                       lists[o := Delete(lists[o], i)])
  {
    hide Ok, Entries, Q.OrgOk, Unlink, Q.Apart, Q.Leaves, Q.OrgIndex, Q.Members, Q.Active;
    OneIs(s, q3, heads, orgs, lists, o, i);
    var id, e := lists[o][i], Entries(s.hash, s.ord);
    QueuedFacts(s, q3, heads, orgs, lists, id, s.hash[id].product, s.hash[id].slot);
    Q.DropOk(e, s.hash, e - {id}, s.hash - {id}, q3, heads, orgs, lists, o, i, id);
  }

  // --------------------------------------------------------------- the walk

  /** How far the walk through queue `o2` from order `i` on has come: `n` orders are gone. */
  ghost predicate Walking(book: OrderBook, o: nat, head: nat, lists: seq<seq<nat>>, o2: nat, i: nat, n: nat, y: nat)
    reads book`hash, book.slab.ord, book.slab.q3, book.orgHeads
  {
    && o2 < |lists| && i + n <= |lists[o2]|
    && var rest := lists[o2][..i] + lists[o2][i + n..];
       && Patched(book, o, head, lists[o2 := rest]) && y == SlotAt(book.hash, rest, i)
       && (o2 == o ==> head == book.orgHeads[o] && i == 0 && y == head)
  }

  lemma WalkStarts(book: OrderBook, o: nat, head: nat, lists: seq<seq<nat>>, o2: nat, i: nat)
    requires Points(book, o, head, lists, o2, i)
    ensures Walking(book, o, head, lists, o2, i, 0, book.orgHeads[o])
  {
    hide Q.OrgOk;
    assert lists[o2][..i] + lists[o2][i + 0..] == lists[o2] && lists[o2 := lists[o2]] == lists;
  }

  /** The order in the slot the walk has come to. */
  lemma WalkAt(book: OrderBook, o: nat, head: nat, lists: seq<seq<nat>>, o2: nat, i: nat, n: nat, y: nat)
    requires book.Valid() && Walking(book, o, head, lists, o2, i, n, y)
    ensures y == NULL <==> i + n == |lists[o2]|
    ensures y != NULL ==>
              && y < book.slab.ord.Length == book.slab.q3.Length && var id := book.slab.ord[y].id;
              && id == lists[o2][i + n] && id in book.hash && book.hash[id].slot == y && B.Linked(book.Book(), id)
              && Q.OrgIndex(book.hash[id].product, book.slab.ord[y].org, book.orgs) == o2
  {
    var rest := lists[o2][..i] + lists[o2][i + n..];
    var s := book.St();
    hide Ok, B.Wf, Entries, book.slab.Valid, Q.OrgOk, Q.OrgIndex, B.Linked, Q.Active;
    if i < |rest| {
      OneIs(s, book.slab.q3[..], book.orgHeads[..][o := head], book.orgs, lists[o2 := rest], o2, i);
      NextIs(s, book.slab.q3[..], book.orgHeads[..][o := head], book.orgs, lists[o2 := rest], o2, i);
      var id := rest[i];
      book.Admitted(s.hash[id].product, s.hash[id].slot, id);
    }
  }

  /** One more order leaves; `head2` is where the queue `o` would now start. */
  lemma WalkNext(s: State, q3: seq<Link>, heads: seq<nat>, orgs: nat, o: nat, head: nat, lists: seq<seq<nat>>, o2: nat,
                 i: nat, n: nat) returns (head2: nat)
    requires o < |heads| && o2 < |lists| && i + n < |lists[o2]| && Ok(s) && |q3| == |s.ord|
    requires var rest := lists[o2][..i] + lists[o2][i + n..];
             && Q.OrgOk(Entries(s.hash, s.ord), s.hash, q3, heads[o := head], orgs, lists[o2 := rest])
             && (o2 == o ==> head == heads[o] == SlotAt(s.hash, rest, i) && i == 0)
    ensures var id, rest := lists[o2][i + n], lists[o2][..i] + lists[o2][i + n + 1..];
            var y, h := SlotOf(s.hash, id), s.hash - {id};
            && y < |q3| && o2 < |heads| && q3[y].next == SlotAt(h, rest, i)
            && var after := heads[o2 := if heads[o2] == y then q3[y].next else heads[o2]];
               && Q.OrgOk(Entries(h, s.ord), h, Unlink(q3, y), after[o := head2], orgs, lists[o2 := rest])
               && (o2 == o ==> head2 == after[o] == q3[y].next) && (o2 != o ==> head2 == head)
  {
    hide Ok, Entries, Q.OrgOk, Unlink, Q.OrgIndex, Q.Active;
    var now, rest := lists[o2][..i] + lists[o2][i + n..], lists[o2][..i] + lists[o2][i + n + 1..];
    assert now[i] == lists[o2][i + n] && Delete(now, i) == rest;
    assert lists[o2 := now][o2 := rest] == lists[o2 := rest];
    OneIs(s, q3, heads[o := head], orgs, lists[o2 := now], o2, i);
    NextIs(s, q3, heads[o := head], orgs, lists[o2 := now], o2, i);
    OneLeaves(s, q3, heads[o := head], orgs, lists[o2 := now], o2, i);
    var y := SlotOf(s.hash, now[i]);
    var after := heads[o2 := if heads[o2] == y then q3[y].next else heads[o2]];
    head2 := if o2 == o then after[o] else head;
    assert heads[o := head][o2 := if heads[o := head][o2] == y then q3[y].next else heads[o := head][o2]]
        == after[o := head2];
  }

  /** What the walk cancels, by where the head stands. */
  ghost function Reached(book: OrderBook, o: nat, s: Stand): seq<nat>
    requires Stands(book, o, s)
    reads book`hash, book`ladder, book.slab.ord, book.slab.q1, book.slab.q2, book.slab.q3, book.known, book.heads
    reads book.roots, book.orgHeads
  {
    match s
    case Behind => []
    case Looped => [book.slab.ord[book.orgHeads[o]].id]
    case Within(lists, _, o2, i) => lists[o2][i..]
  }

  /** Where the walk is: on the way through a queue, at an order linked before itself, or at the end. */
  ghost predicate OnTheWay(book: OrderBook, o: nat, s: Stand, all: seq<nat>, n: nat, head: nat, y: nat)
    reads book`hash, book`ladder, book.slab.ord, book.slab.q1, book.slab.q2, book.slab.q3, book.known, book.heads
    reads book.roots, book.orgHeads
  {
    match s
    case Behind => LeftBehind(book, o) && all == [] && n == 0 && (y == NULL || y == book.orgHeads[o])
    case Looped =>
      if n == 0 then SelfLinked(book, o) && y == book.orgHeads[o] && all == [book.slab.ord[y].id]
      else n == |all| == 1 && LeftBehind(book, o) && (y == NULL || y == book.orgHeads[o])
    case Within(lists, _, o2, i) =>
      Walking(book, o, head, lists, o2, i, n, y) && i <= |lists[o2]| && all == lists[o2][i..]
  }

  lemma SetsOut(book: OrderBook, o: nat, s: Stand)
    requires Stands(book, o, s)
    ensures OnTheWay(book, o, s, Reached(book, o, s), 0, if s.Within? then s.head else 0, book.orgHeads[o])
  {
    hide Walking, Q.OrgOk;
    if s.Within? { WalkStarts(book, o, s.head, s.lists, s.o2, s.i); }
  }

  /** What is known of the slot the walk has come to, in terms of the memory before its order is cancelled. */
  ghost predicate Ready(st: State, q3: seq<Link>, heads: seq<nat>, orgs: nat, o: nat, s: Stand, all: seq<nat>, n: nat,
                        head: nat, y: nat) {
    && y < |st.ord| && y < |q3| && o < |heads| && var id := st.ord[y].id;
    match s
    case Behind => id !in st.hash && q3[y].next == NULL && heads[o] == y && y != NULL && all == [] && n == 0
    case Looped =>
      if n == 0 then
        && id in st.hash && q3[y] == Link(y, y) && heads[o] == y && y != NULL && all == [id]
        && Q.OrgIndex(st.hash[id].product, st.ord[y].org, orgs) == o
      else n == |all| == 1 && id !in st.hash && q3[y].next == NULL && heads[o] == y && y != NULL
    case Within(lists, _, o2, i) =>
      && o2 < |lists| && o2 < |heads| && i + n < |lists[o2]| && all == lists[o2][i..] && id == lists[o2][i + n]
      && id in st.hash && Q.OrgIndex(st.hash[id].product, st.ord[y].org, orgs) == o2
      && var h, rest := st.hash - {id}, lists[o2][..i] + lists[o2][i + n + 1..];
         var after := heads[o2 := if heads[o2] == y then q3[y].next else heads[o2]];
         && q3[y].next == SlotAt(h, rest, i) && (o2 == o ==> head == after[o] == q3[y].next && i == 0)
         && Q.OrgOk(Entries(h, st.ord), h, Unlink(q3, y), after[o := head], orgs, lists[o2 := rest])
  }

  lemma GetsReady(book: OrderBook, o: nat, s: Stand, all: seq<nat>, n: nat, head: nat, y: nat) returns (head2: nat)
    requires book.Valid() && OnTheWay(book, o, s, all, n, head, y) && y != NULL
    ensures y < book.slab.ord.Length && var id := book.slab.ord[y].id;
            && (id in book.hash ==> book.hash[id].slot == y && B.Linked(book.Book(), id) && n < |all| && id == all[n])
            && (id !in book.hash ==> y < book.slab.q3.Length && book.slab.q3[y].next == NULL)
            && Ready(book.St(), book.slab.q3[..], book.orgHeads[..], book.orgs, o, s, all, n, head2, y)
  {
    hide Ok, B.Wf, Entries, book.slab.Valid, Q.OrgOk, Q.OrgIndex, B.Linked, Unlink, Q.Active;
    head2 := head;
    match s
    case Behind =>
    case Looped =>
    case Within(lists, _, o2, i) =>
      WalkAt(book, o, head, lists, o2, i, n, y);
      head2 := WalkNext(book.St(), book.slab.q3[..], book.orgHeads[..], book.orgs, o, head, lists, o2, i, n);
  }

  /** The walk after the slot's order has been cancelled. */
  lemma GoesOn(book: OrderBook, st: State, q3: seq<Link>, heads: seq<nat>, o: nat, s: Stand, all: seq<nat>, n: nat,
               head: nat, y: nat)
    requires Ready(st, q3, heads, book.orgs, o, s, all, n, head, y) && book.slab.ord[..] == st.ord
    requires book.slab.q3.Length == |q3| && book.orgHeads.Length == |heads|
    requires var id := st.ord[y].id;
             if id in st.hash then book.hash == st.hash - {id} && book.OrgLeft(q3, heads, st.hash[id].product, y)
             else book.hash == st.hash && book.slab.q3[..] == q3 && book.orgHeads[..] == heads
    ensures OnTheWay(book, o, s, all, n + (if st.ord[y].id in st.hash then 1 else 0), head, q3[y].next)
  {
    hide Entries, Q.OrgOk, Q.OrgIndex;
    match s
    case Behind =>
    case Looped => LoopCleared(q3, y);
    case Within(lists, _, o2, i) =>
      hide Unlink;
      assert book.slab.ord[..] == st.ord;
  }

  lemma LoopCleared(q3: seq<Link>, y: nat)
    requires y < |q3| && y != NULL
    ensures q3[y] == Link(y, y) ==> Unlink(q3, y)[y] == UNLINKED
  {
  }

  lemma Arrives(book: OrderBook, o: nat, s: Stand, all: seq<nat>, n: nat, head: nat)
    requires book.Valid() && OnTheWay(book, o, s, all, n, head, NULL)
    ensures n == |all| && (!s.Within? ==> LeftBehind(book, o))
  {
    hide Ok, B.Wf, Entries, book.slab.Valid, Q.OrgOk, Q.OrgIndex, B.Linked;
    if s.Within? { WalkAt(book, o, head, s.lists, s.o2, s.i, n, NULL); }
  }

  /** One turn of the walk. */
  method WalkStep(book: OrderBook, y: nat, ghost o: nat, ghost s: Stand, ghost all: seq<nat>, ghost n: nat,
                  ghost head: nat) returns (ok: bool, next: nat, ghost head2: nat)
    requires book.Valid() && OnTheWay(book, o, s, all, n, head, y) && y != NULL
    modifies book`hash, book`log, book`ladder, book`members, book.slab`freeA, book.slab`freeB, book.slab`used,
        book.slab`free
    modifies book.slab.q0, book.slab.q1, book.slab.q2, book.slab.q3, book.slab.aux, book.heads, book.roots, book.known,
        book.orgHeads
    ensures book.Valid() && (old(book.OrgSound()) ==> book.OrgSound()) && y < book.slab.ord.Length
    ensures ok ==>
              var id := book.slab.ord[y].id;
              && n < |all| && id == all[n] && id in old(book.hash) && B.Linked(old(book.Book()), id)
              && book.Book() == B.Remove(old(book.Book()), id) && book.hash == old(book.hash) - {id}
              && Logged(book, old(book.log), [B.RCancel(id)])
    ensures !ok ==> next == NULL && book.Book() == old(book.Book()) && book.hash == old(book.hash) &&
                    book.log == old(book.log)
    ensures OnTheWay(book, o, s, all, n + (if ok then 1 else 0), head2, next)
  {
    hide B.Wf, Entries, book.Valid, B.Linked, B.Remove, book.OrgSound, OnTheWay, Ready;
    head2 := GetsReady(book, o, s, all, n, head, y);
    ghost var st, q3, heads := book.St(), book.slab.q3[..], book.orgHeads[..];
    ok, next := CancelAt(book, y);
    GoesOn(book, st, q3, heads, o, s, all, n, head2, y);
  }

  lemma HeadsFor(book: OrderBook)
    requires book.Valid()
    ensures B.Wf(book.Book()) && book.orgHeads.Length == book.products * book.orgs
  {
  }

  /**
   Cancels from the head of the organisation's queue on. Where the queues are exact these are all of
   its active orders, and no other. Where the head has been left behind they are none while the slot is
   free; those of another queue from the slot on, once another organisation's order is in it; and the
   one order in it, once that is of the same organisation.
   */
  method CancelOrgProduct(book: OrderBook, product: nat, org: nat, ghost s: Stand)
                          returns (cancelled: nat, ghost ids: seq<nat>)
    requires book.Valid()
    requires product < book.products && org < book.orgs ==> Stands(book, Q.OrgIndex(product, org, book.orgs), s)
    modifies book`hash, book`log, book`ladder, book`members, book.slab`freeA, book.slab`freeB, book.slab`used,
        book.slab`free
    modifies book.slab.q0, book.slab.q1, book.slab.q2, book.slab.q3, book.slab.aux, book.heads, book.roots, book.known,
        book.orgHeads
    ensures book.Valid() && cancelled == |ids| && (old(book.OrgSound()) ==> book.OrgSound())
    ensures Purged(old(book.Book()), ids, book.Book()) && Logged(book, old(book.log), Cancels(ids))
    ensures product >= book.products || org >= book.orgs ==> ids == []
    ensures product < book.products && org < book.orgs ==>
              ids == old(Reached(book, Q.OrgIndex(product, org, book.orgs), s))
    ensures product < book.products && org < book.orgs && !s.Within? ==>
              LeftBehind(book, Q.OrgIndex(product, org, book.orgs))
  {
    hide B.Wf, Entries, book.Valid, Q.OrgIndex, B.Linked, B.Remove, Purged, Cancels, book.OrgSound, R.CancelAll,
         Walking,
         OnTheWay, SelfLinked, LeftBehind, Stands, Ready, Reached;
    HeadsFor(book);
    cancelled, ids := 0, [];
    ghost var b, log := book.Book(), book.log;
    NothingPurged(b);
    assert log + Cancels([]) == log;
    if product >= book.products || org >= book.orgs { return; }
    OrgInRange(product, book.products, org, book.orgs);
    var o := Q.OrgIndex(product, org, book.orgs);
    var y := book.orgHeads[o];
    ghost var head: nat := if s.Within? then s.head else 0;
    ghost var all := Reached(book, o, s);
    SetsOut(book, o, s);
    while y != NULL
      invariant book.Valid() && (old(book.OrgSound()) ==> book.OrgSound()) && cancelled == |ids| <= |all|
      invariant Purged(b, ids, book.Book()) && Logged(book, log, Cancels(ids)) && ids == all[..|ids|]
      invariant OnTheWay(book, o, s, all, |ids|, head, y)
      decreases |book.hash|, y != NULL
    {
      ghost var cur := book.Book();
      var ok, next, head2 := WalkStep(book, y, o, s, all, |ids|, head);
      if ok {
        PurgeLogged(b, ids, cur, book.slab.ord[y].id, log);
        ids, cancelled := ids + [book.slab.ord[y].id], cancelled + 1;
      }
      y, head := next, head2;
    }
    Arrives(book, o, s, all, |ids|, head);
  }
}
