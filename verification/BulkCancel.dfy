/**
 Bulk cancellation of one side of a product: the walk over levels and queues that cancels every
 order in passing, having read each next index before its order is freed.
 */
module BulkCancel {
  import opened Common
  import opened Links
  import opened BookState
  import opened OrderBooks
  import opened Engine
  import B = Book
  import P = Priority
  import R = Replay
  import S = Slab

  /** The records of cancelling the orders one by one. */
  function Cancels(ids: seq<nat>): (r: seq<B.Record>)
    ensures |r| == |ids| && forall i :: 0 <= i < |ids| ==> r[i] == B.RCancel(ids[i])
  {
    seq(|ids|, i requires 0 <= i < |ids| => B.RCancel(ids[i]))
  }

  /** Side `k` with only `levels` left of it, the orders `gone` having been cancelled. */
  ghost predicate Remaining(book: OrderBook, b: B.Book, k: nat, gone: seq<nat>, levels: seq<seq<nat>>,
                            log: seq<B.Record>)
    reads book`hash, book`ladder, book`log, book`logging, book.slab.ord, book.slab.q1, book.slab.q2, book.known,
        book.heads, book.roots
  {
    k < |b.ladder| && book.Book() == B.Book(b.entries - S.Elements(gone), b.ladder[k := levels]) &&
        Logged(book, log, Cancels(gone))
  }

  /** Cancels the order at the front of the side. */
  method CancelFront(book: OrderBook, y: nat, ghost k: nat, ghost ids: seq<nat>, ghost post: seq<seq<nat>>)
                     returns (ok: bool)
    requires book.Valid() && k < |book.ladder| && book.ladder[k] == B.Glue(ids, post) && ids != [] &&
        y == SlotAt(book.hash, ids, 0)
    modifies book`hash, book`log, book`ladder, book`members, book.slab`freeA, book.slab`freeB, book.slab`used,
        book.slab`free
    modifies book.slab.q0, book.slab.q1, book.slab.q2, book.slab.q3, book.slab.aux, book.heads, book.roots, book.known,
        book.orgHeads
    ensures ok && book.Valid() && book.hash == old(book.hash) - {ids[0]} && (old(book.OrgSound()) ==> book.OrgSound())
    ensures book.Book() == B.Book(old(book.Book()).entries - {ids[0]}, old(book.ladder)[k := B.Glue(ids[1..], post)])
    ensures Logged(book, old(book.log), [B.RCancel(ids[0])])
  {
    hide Ok, B.Wf, Entries, book.slab.Valid, B.Linked, B.Remove, book.OrgSound, R.PeersOf, B.Glue;
    assert [] + B.Glue([] + ids, post) == B.Glue(ids, post) && [] + ids[1..] == ids[1..] by { assert [] + ids == ids; }
    assert [] + B.Glue(ids[1..], post) == B.Glue(ids[1..], post);
    MakerFacts(book.St(), k, [], [], ids, post);
    RemoveEffect(book.Book(), ids[0]);
    ok := book.Cancel(book.slab.ord[y].id);
  }

  /** Cancels a whole queue. */
  method CancelQueue(book: OrderBook, first: nat, ghost b: B.Book, ghost k: nat, ghost gone: seq<nat>,
                     ghost ids: seq<nat>, ghost post: seq<seq<nat>>, ghost log: seq<B.Record>)
    returns (n: nat)
    requires book.Valid() && Remaining(book, b, k, gone, B.Glue(ids, post), log) && first == SlotAt(book.hash, ids, 0)
    modifies book`hash, book`log, book`ladder, book`members, book.slab`freeA, book.slab`freeB, book.slab`used,
        book.slab`free
    modifies book.slab.q0, book.slab.q1, book.slab.q2, book.slab.q3, book.slab.aux, book.heads, book.roots, book.known,
        book.orgHeads
    ensures book.Valid() && Shrunk(old(book.hash), book.hash) && (old(book.OrgSound()) ==> book.OrgSound())
    ensures Remaining(book, b, k, gone + ids, post, log) && n == |ids|
  {
    hide Ok, B.Wf, Entries, book.Valid, B.Glue, book.OrgSound, S.Elements, Cancels;
    var y := first;
    n := 0;
    assert gone + ids[..0] == gone;
    while y != NULL
      invariant book.Valid() && Shrunk(old(book.hash), book.hash) && (old(book.OrgSound()) ==> book.OrgSound())
      invariant 0 <= n <= |ids| && Remaining(book, b, k, gone + ids[..n], B.Glue(ids[n..], post), log) &&
          y == SlotAt(book.hash, ids[n..], 0)
      decreases |ids| - n
    {
      ghost var rest, before, logged := ids[n..], book.Book(), book.log;
      NextInQueue(book, k, rest, post);
      var next := book.slab.q2[y].next;
      var ok := CancelFront(book, y, k, rest, post);
      GoneOne(b.entries, gone + ids[..n], rest[0]);
      assert gone + ids[..n] + [rest[0]] == gone + ids[..n + 1] && rest[1..] == ids[n + 1..];
      assert log + Cancels(gone + ids[..n]) + [B.RCancel(rest[0])] == log +
          (Cancels(gone + ids[..n]) + [B.RCancel(rest[0])]);
      y := next;
      if ok { n := n + 1; }
    }
    if ids[n..] != [] { NextInQueue(book, k, ids[n..], post); }
    NothingLeft(ids, n, post);
  }

  lemma NothingLeft(ids: seq<nat>, n: nat, post: seq<seq<nat>>)
    requires n <= |ids| && ids[n..] == []
    ensures ids[..n] == ids && n == |ids| && B.Glue(ids[n..], post) == post
  {
  }

  lemma NextInQueue(book: OrderBook, k: nat, ids: seq<nat>, post: seq<seq<nat>>)
    requires book.Valid() && k < |book.ladder| && book.ladder[k] == B.Glue(ids, post) && ids != []
    ensures var y := SlotAt(book.hash, ids, 0);
            && y < book.slab.ord.Length == book.slab.q2.Length && y != NULL
            && book.slab.q2[y].next == SlotAt(book.hash, ids[1..], 0) == SlotAt(book.hash - {ids[0]}, ids[1..], 0)
  {
    hide Ok, B.Wf, Entries, book.slab.Valid, B.Glue, B.Linked, B.Remove;
    assert [] + B.Glue([] + ids, post) == B.Glue(ids, post) by { assert [] + ids == ids; }
    MakerFacts(book.St(), k, [], [], ids, post);
  }

  lemma GoneOne(e: map<nat, B.Entry>, gone: seq<nat>, id: nat)
    ensures e - S.Elements(gone) - {id} == e - S.Elements(gone + [id])
    ensures Cancels(gone + [id]) == Cancels(gone) + [B.RCancel(id)]
  {
  }

  /** Cancels every order on one side of a product, best level first, each queue in FIFO order. */
  method CancelSide(book: OrderBook, product: nat, bid: bool) returns (cancelled: nat)
    requires book.Valid()
    modifies book`hash, book`log, book`ladder, book`members, book.slab`freeA, book.slab`freeB, book.slab`used,
        book.slab`free
    modifies book.slab.q0, book.slab.q1, book.slab.q2, book.slab.q3, book.slab.aux, book.heads, book.roots, book.known,
        book.orgHeads
    ensures book.Valid() && (old(book.OrgSound()) ==> book.OrgSound())
    ensures product >= book.products ==> cancelled == 0 && book.Book() == old(book.Book()) && book.log == old(book.log)
    ensures product < book.products ==>
              var k := B.Key(product, bid);
              && k < |old(book.ladder)| && cancelled == |P.Flat(old(book.ladder)[k])|
              && Remaining(book, old(book.Book()), k, P.Flat(old(book.ladder)[k]), [], old(book.log))
  {
    hide Ok, B.Wf, Entries, book.slab.Valid, B.Glue, book.OrgSound, S.Elements, Cancels, P.Flat;
    if product >= book.products { return 0; }
    var k := B.Key(product, bid);
    ghost var b, log, all := book.Book(), book.log, P.Flat(book.ladder[k]);
    ghost var gone: seq<nat>, rest := [], book.ladder[k];
    SideReady(book, k);
    var level := book.heads[k];
    cancelled := 0;
    while level != NULL
      invariant book.Valid() && (old(book.OrgSound()) ==> book.OrgSound())
      invariant Remaining(book, b, k, gone, rest, log) && level == FirstSlot(book.hash, rest)
      invariant cancelled == |gone| && gone + P.Flat(rest) == all
      decreases |rest|
    {
      QueueReady(book, k, rest);
      ghost var hash := book.hash;
      var next := book.slab.q1[level].next;
      var n := CancelQueue(book, level, b, k, gone, rest[0], rest[1..], log);
      cancelled := cancelled + n;
      FlatStep(gone, rest);
      gone, rest := gone + rest[0], rest[1..];
      SameFirst(book, k, [], rest, hash);
      level := next;
    }
    QueueReady(book, k, rest);
    FlatEmpty();
    assert gone + [] == gone;
  }

  lemma FlatStep(gone: seq<nat>, rest: seq<seq<nat>>)
    requires rest != []
    ensures gone + P.Flat(rest) == gone + rest[0] + P.Flat(rest[1..])
    ensures [] + rest[1..] == rest[1..]
  {
  }

  lemma FlatEmpty()
    ensures P.Flat([]) == []
  {
  }

  lemma SideReady(book: OrderBook, k: nat)
    requires book.Valid() && k < 2 * book.products
    ensures k < |book.ladder| == book.heads.Length && book.heads[k] == FirstSlot(book.hash, book.ladder[k])
    ensures Remaining(book, book.Book(), k, [], book.ladder[k], book.log)
    ensures [] + P.Flat(book.ladder[k]) == P.Flat(book.ladder[k])
  {
    hide Ok, B.Wf, Entries, book.slab.Valid, P.Flat, S.Elements, Cancels;
    NoCancels(book.Book(), book.log);
    assert [] + book.ladder[k] == book.ladder[k];
    LevelFacts(book.St(), k, [], book.ladder[k]);
    BestHead(book.St(), k);
  }

  lemma NoCancels(b: B.Book, log: seq<B.Record>)
    ensures b.entries - S.Elements([]) == b.entries && log + Cancels([]) == log
  {
  }

  lemma QueueReady(book: OrderBook, k: nat, rest: seq<seq<nat>>)
    requires book.Valid() && k < |book.ladder| && book.ladder[k] == rest
    ensures rest == [] <==> FirstSlot(book.hash, rest) == NULL
    ensures rest != [] ==>
              var y := FirstSlot(book.hash, rest);
              && y < book.slab.q1.Length && book.slab.q1[y].next == FirstSlot(book.hash, rest[1..])
              && rest == B.Glue(rest[0], rest[1..]) && y == SlotAt(book.hash, rest[0], 0)
  {
    hide Ok, B.Wf, Entries, book.slab.Valid;
    assert [] + rest == rest;
    LevelFacts(book.St(), k, [], rest);
    if rest != [] { assert rest == [rest[0]] + rest[1..]; }
  }

  /** Cancelling a side is cancelling its orders one by one. */
  lemma SideIsMany(b: B.Book, k: nat)
    requires B.Wf(b) && k < |b.ladder|
    ensures var ids := P.Flat(b.ladder[k]);
            && (forall i :: 0 <= i < |ids| ==> B.Linked(b, ids[i]))
            && R.CancelAll(b, ids) == R.Live(B.Book(b.entries - S.Elements(ids), b.ladder[k := []]), Cancels(ids))
  {
    ManyFromFront(b, k, b.ladder[k]);
  }

  lemma {:induction false} ManyFromFront(b: B.Book, k: nat, levels: seq<seq<nat>>)
    requires B.Wf(b) && k < |b.ladder| && levels == b.ladder[k]
    ensures var ids := P.Flat(levels);
            && (forall i :: 0 <= i < |ids| ==> B.Linked(b, ids[i]))
            && R.CancelAll(b, ids) == R.Live(B.Book(b.entries - S.Elements(ids), b.ladder[k := []]), Cancels(ids))
    decreases |P.Flat(levels)|
  {
    hide B.Wf, B.OnSide, P.Flat, R.CancelAll, B.Remove, S.Elements, Cancels, B.Glue;
    var ids := P.Flat(levels);
    AllOnSide(b, k);
    if levels == [] {
      FlatEmpty();
      NoneLeft(b, k);
    } else {
      FrontOfSide(b, k, levels);
      var id, left := levels[0][0], B.Glue(levels[0][1..], levels[1..]);
      B.RemoveWf(b, id);
      ManyFromFront(B.Remove(b, id), k, left);
      forall i | 0 <= i < |P.Flat(left)| ensures B.Linked(b, P.Flat(left)[i]) { assert P.Flat(left)[i] == ids[i + 1]; }
      CancelAllStep(b, id, P.Flat(left));
      OneMore(b, k, id, left, P.Flat(left));
    }
  }

  lemma AllOnSide(b: B.Book, k: nat)
    requires B.Wf(b) && k < |b.ladder|
    ensures var ids := P.Flat(b.ladder[k]); forall i :: 0 <= i < |ids| ==> B.Linked(b, ids[i])
  {
    var ids := P.Flat(b.ladder[k]);
    forall i | 0 <= i < |ids| ensures B.Linked(b, ids[i]) {
      P.FlatIn(b.ladder[k], ids[i]);
      B.OnSideKey(b, k, ids[i]);
    }
  }

  lemma NoneLeft(b: B.Book, k: nat)
    requires B.Wf(b) && k < |b.ladder| && b.ladder[k] == []
    ensures R.CancelAll(b, []) == R.Live(B.Book(b.entries - S.Elements([]), b.ladder[k := []]), Cancels([]))
  {
    assert b.entries - S.Elements([]) == b.entries && b.ladder[k := []] == b.ladder && Cancels([]) == [];
  }

  lemma CancelAllStep(b: B.Book, id: nat, ids: seq<nat>)
    requires B.Wf(b) && B.Linked(b, id) && B.Wf(B.Remove(b, id))
    requires (forall i :: 0 <= i < |ids| ==> B.Linked(B.Remove(b, id), ids[i])) && forall i :: 0 <= i < |ids| ==>
        B.Linked(b, ids[i])
    ensures var rest := R.CancelAll(B.Remove(b, id), ids);
        R.CancelAll(b, [id] + ids) == R.Live(rest.book, [B.RCancel(id)] + rest.log)
  {
    hide B.Wf;
    assert ([id] + ids)[1..] == ids && ([id] + ids)[0] == id;
  }

  lemma OneMore(b: B.Book, k: nat, id: nat, left: seq<seq<nat>>, ids: seq<nat>)
    requires k < |b.ladder|
    ensures b.entries - {id} - S.Elements(ids) == b.entries - S.Elements([id] + ids)
    ensures b.ladder[k := left][k := []] == b.ladder[k := []] && [B.RCancel(id)] + Cancels(ids) == Cancels([id] + ids)
  {
  }

  lemma FrontOfSide(b: B.Book, k: nat, levels: seq<seq<nat>>)
    requires B.Wf(b) && k < |b.ladder| && levels == b.ladder[k] && levels != []
    ensures levels[0] != [] && var id, left := levels[0][0], B.Glue(levels[0][1..], levels[1..]);
            && B.Linked(b, id) && B.Remove(b, id) == B.Book(b.entries - {id}, b.ladder[k := left])
            && P.Flat(levels) == [id] + P.Flat(left)
  {
    assert B.SideOk(b.entries, k, levels);
    assert B.LevelOk(b.entries, k, levels[0]);
    hide B.Wf, B.SideOk, B.LevelOk, B.OnSide, P.Flat, B.Remove;
    var id, tail, rest := levels[0][0], levels[0][1..], levels[1..];
    FrontGlue(levels);
    R.FrontMaker(b, k, [], [], id, tail, rest);
    FlatFront(levels);
  }

  lemma FrontGlue(levels: seq<seq<nat>>)
    requires levels != [] && levels[0] != []
    ensures var id, tail, rest := levels[0][0], levels[0][1..], levels[1..];
            levels == [] + B.Glue([] + ([id] + tail), rest) && [] + B.Glue([] + tail, rest) == B.Glue(tail, rest)
  {
    var id, tail, rest := levels[0][0], levels[0][1..], levels[1..];
    assert [] + ([id] + tail) == levels[0] && [] + tail == tail && levels == [levels[0]] + rest;
  }

  lemma FlatFront(levels: seq<seq<nat>>)
    requires levels != [] && levels[0] != []
    ensures P.Flat(levels) == [levels[0][0]] + P.Flat(B.Glue(levels[0][1..], levels[1..]))
  {
    var id, tail, rest := levels[0][0], levels[0][1..], levels[1..];
    if tail == [] {
      assert levels[0] == [id];
    } else {
      assert B.Glue(tail, rest)[0] == tail && B.Glue(tail, rest)[1..] == rest;
      assert levels[0] + P.Flat(rest) == [id] + (tail + P.Flat(rest));
    }
  }
}
