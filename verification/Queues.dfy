/**
 The book as its users see it: for every side and price the queue of orders waiting there. What each
 operation does to all of these queues at once.
 */
module Queues {
  import opened Common
  import opened Book

  /** The orders waiting at a price of one side, first come first. */
  function QueueIn(e: map<nat, Entry>, levels: seq<seq<nat>>, p: nat): seq<nat> {
    if levels == [] then [] else if LevelPrice(e, levels[0]) == p then levels[0] else QueueIn(e, levels[1..], p)
  }

  function QueueAt(b: Book, k: nat, p: nat): seq<nat> {
    if k < |b.ladder| then QueueIn(b.entries, b.ladder[k], p) else []
  }

  /** A side has one queue per price. */
  lemma {:induction false} QueueIs(e: map<nat, Entry>, k: nat, levels: seq<seq<nat>>, p: nat, i: nat)
    requires SideOk(e, k, levels) && i < |levels| && LevelPrice(e, levels[i]) == p
    ensures QueueIn(e, levels, p) == levels[i]
  {
    if i > 0 {
      assert Rank(k, LevelPrice(e, levels[0])) < Rank(k, LevelPrice(e, levels[i]));
      RestOk(e, k, levels);
      assert levels[1..][i - 1] == levels[i];
      QueueIs(e, k, levels[1..], p, i - 1);
    }
  }

  lemma RestOk(e: map<nat, Entry>, k: nat, levels: seq<seq<nat>>)
    requires SideOk(e, k, levels) && levels != []
    ensures SideOk(e, k, levels[1..])
  {
    var rest := levels[1..];
    assert forall i :: 0 <= i < |rest| ==> rest[i] == levels[i + 1];
  }

  lemma {:induction false} NoQueue(e: map<nat, Entry>, levels: seq<seq<nat>>, p: nat)
    requires forall i :: 0 <= i < |levels| ==> LevelPrice(e, levels[i]) != p
    ensures QueueIn(e, levels, p) == []
  {
    if levels != [] {
      assert forall i :: 0 <= i < |levels[1..]| ==> levels[1..][i] == levels[i + 1];
      NoQueue(e, levels[1..], p);
    }
  }

  /** Queues depend on the prices of their orders only. */
  lemma {:induction false} QueueFrame(e: map<nat, Entry>, f: map<nat, Entry>, levels: seq<seq<nat>>, p: nat)
    requires forall i :: 0 <= i < |levels| ==> LevelPrice(e, levels[i]) == LevelPrice(f, levels[i])
    ensures QueueIn(e, levels, p) == QueueIn(f, levels, p)
  {
    if levels != [] {
      assert forall i :: 0 <= i < |levels[1..]| ==> levels[1..][i] == levels[i + 1];
      QueueFrame(e, f, levels[1..], p);
    }
  }

  // ------------------------------------------------------------------- insertion

  /** Placing an order on its side: it goes to the end of the queue at its price, and no other queue changes. */
  lemma PlaceQueues(e: map<nat, Entry>, f: map<nat, Entry>, k: nat, levels: seq<seq<nat>>, price: nat, id: nat, p: nat)
    requires SideOk(e, k, levels) && SideOk(f, k, PlaceId(e, k, levels, price, id))
    requires id !in e && id in f && f[id].order.price == price && forall x :: x in e ==> x in f && f[x] == e[x]
    ensures QueueIn(f, PlaceId(e, k, levels, price, id), p) == QueueIn(e, levels, p) + if p == price then [id] else []
  {
    var n, now := Better(e, k, levels, Rank(k, price)), PlaceId(e, k, levels, price, id);
    forall i | 0 <= i < |levels| ensures levels[i] != [] && LevelPrice(f, levels[i]) == LevelPrice(e, levels[i]) {
      assert LevelOk(e, k, levels[i]);
    }
    QueueFrame(e, f, levels, p);
    if LevelExists(e, k, levels, price) {
      Joined(f, k, levels, now, n, id, p);
    } else {
      NotThere(e, k, levels, price, n);
      Opened(f, k, levels, now, n, id, p);
    }
  }

  lemma NotThere(e: map<nat, Entry>, k: nat, levels: seq<seq<nat>>, price: nat, n: nat)
    requires SideOk(e, k, levels) && n == Better(e, k, levels, Rank(k, price)) && !LevelExists(e, k, levels, price)
    ensures forall i :: 0 <= i < |levels| ==> LevelPrice(e, levels[i]) != price
  {
    forall i | n <= i < |levels| ensures LevelPrice(e, levels[i]) != price {
      if i > n { assert Rank(k, LevelPrice(e, levels[n])) < Rank(k, LevelPrice(e, levels[i])); }
    }
  }

  lemma Joined(f: map<nat, Entry>, k: nat, levels: seq<seq<nat>>, now: seq<seq<nat>>, n: nat, id: nat, p: nat)
    requires n < |levels| && now == levels[n := levels[n] + [id]] && SideOk(f, k, now) && levels[n] != []
    ensures QueueIn(f, now, p) == QueueIn(f, levels, p) + if p == LevelPrice(f, levels[n]) then [id] else []
  {
    assert LevelPrice(f, now[n]) == LevelPrice(f, levels[n]);
    forall i | 0 <= i < |levels| && LevelPrice(f, now[i]) == p
        ensures QueueIn(f, now, p) == now[i] && QueueIn(f, levels, p) == levels[i] {
      QueueIs(f, k, now, p, i);
      QueueFirst(f, k, levels, now, p, i);
    }
    if forall i :: 0 <= i < |levels| ==> LevelPrice(f, now[i]) != p {
      NoQueue(f, now, p);
      assert forall i :: 0 <= i < |levels| ==> LevelPrice(f, levels[i]) == LevelPrice(f, now[i]);
      NoQueue(f, levels, p);
    }
  }

  /** The levels have distinct prices, being those of a sorted side. */
  lemma {:induction false} QueueFirst(f: map<nat, Entry>, k: nat, levels: seq<seq<nat>>, now: seq<seq<nat>>, p: nat,
                                      i: nat)
    requires SideOk(f, k, now) && |levels| == |now| && i < |levels| && LevelPrice(f, levels[i]) == p
    requires forall j :: 0 <= j < |levels| ==> LevelPrice(f, levels[j]) == LevelPrice(f, now[j])
    ensures QueueIn(f, levels, p) == levels[i]
  {
    if i > 0 {
      assert Rank(k, LevelPrice(f, now[0])) < Rank(k, LevelPrice(f, now[i]));
      assert LevelPrice(f, levels[0]) == LevelPrice(f, now[0]) && LevelPrice(f, levels[i]) == LevelPrice(f, now[i]);
      RestOk(f, k, now);
      assert forall j :: 0 <= j < |levels[1..]| ==> levels[1..][j] == levels[j + 1] && now[1..][j] == now[j + 1];
      QueueFirst(f, k, levels[1..], now[1..], p, i - 1);
    }
  }

  lemma Opened(f: map<nat, Entry>, k: nat, levels: seq<seq<nat>>, now: seq<seq<nat>>, n: nat, id: nat, p: nat)
    requires n <= |levels| && now == levels[..n] + [[id]] + levels[n..] && SideOk(f, k, now) && id in f
    requires SideOk(f, k, levels) && forall i :: 0 <= i < |levels| ==> LevelPrice(f, levels[i]) != f[id].order.price
    ensures QueueIn(f, now, p) == QueueIn(f, levels, p) + if p == f[id].order.price then [id] else []
  {
    hide SideOk, QueueIn;
    assert now[n] == [id];
    if p == f[id].order.price {
      QueueIs(f, k, now, p, n);
      NoQueue(f, levels, p);
    } else {
      OpenedBeside(f, k, levels, now, n, id, p);
    }
  }

  lemma OpenedBeside(f: map<nat, Entry>, k: nat, levels: seq<seq<nat>>, now: seq<seq<nat>>, n: nat, id: nat, p: nat)
    requires n <= |levels| && now == levels[..n] + [[id]] + levels[n..] && SideOk(f, k, now) && id in f
    requires SideOk(f, k, levels) && p != f[id].order.price
    ensures QueueIn(f, now, p) == QueueIn(f, levels, p)
  {
    hide SideOk, QueueIn;
    forall i | 0 <= i < |levels| && LevelPrice(f, levels[i]) == p ensures QueueIn(f, now, p) == QueueIn(f, levels, p) {
      var j := if i < n then i else i + 1;
      assert now[j] == levels[i];
      QueueIs(f, k, levels, p, i);
      QueueIs(f, k, now, p, j);
    }
    if forall i :: 0 <= i < |levels| ==> LevelPrice(f, levels[i]) != p {
      forall j | 0 <= j < |now| ensures LevelPrice(f, now[j]) != p {
        if j < n { assert now[j] == levels[j]; } else if j > n { assert now[j] == levels[j - 1]; }
      }
      NoQueue(f, levels, p);
      NoQueue(f, now, p);
    }
  }

  /** Insertion: last at its price, every other queue of the book as it was. */
  lemma InsertQueues(b: Book, product: nat, o: Order, k: nat, p: nat)
    requires Wf(b) && o.id != 0 && o.id !in b.entries && Key(product, IsBid(o.flags)) < |b.ladder| && !Parked(o.flags)
    ensures QueueAt(Insert(b, product, o), k, p) ==
            QueueAt(b, k, p) + if k == Key(product, IsBid(o.flags)) && p == o.price then [o.id] else []
  {
    var key, b' := Key(product, IsBid(o.flags)), Insert(b, product, o);
    InsertWf(b, product, o);
    if k == key {
      assert SideOk(b.entries, k, b.ladder[k]) && SideOk(b'.entries, k, b'.ladder[k]);
      PlaceQueues(b.entries, b'.entries, k, b.ladder[k], o.price, o.id, p);
    } else if k < |b.ladder| {
      assert SideOk(b.entries, k, b.ladder[k]);
      forall i | 0 <= i < |b.ladder[k]|
          ensures LevelPrice(b.entries, b.ladder[k][i]) == LevelPrice(b'.entries, b.ladder[k][i]) {
        assert LevelOk(b.entries, k, b.ladder[k][i]);
      }
      QueueFrame(b.entries, b'.entries, b.ladder[k], p);
    }
  }

  // --------------------------------------------------------------------- removal

  lemma {:induction false} WithoutAbsent(ids: seq<nat>, id: nat)
    requires id !in ids
    ensures Without(ids, id) == ids
  {
    if ids != [] { WithoutAbsent(ids[1..], id); }
  }

  /** Orders other than `id` keep their prices. */
  ghost predicate PricesKept(e: map<nat, Entry>, f: map<nat, Entry>, id: nat) {
    forall x :: x in e && x != id ==> x in f && f[x].order.price == e[x].order.price
  }

  lemma KeptPrice(e: map<nat, Entry>, f: map<nat, Entry>, k: nat, level: seq<nat>, id: nat)
    requires LevelOk(e, k, level) && PricesKept(e, f, id) && level[0] != id
    ensures LevelPrice(f, level) == LevelPrice(e, level)
  {
  }

  /** What is left of a level has its price. */
  lemma WithoutPrice(e: map<nat, Entry>, f: map<nat, Entry>, k: nat, level: seq<nat>, id: nat)
    requires LevelOk(e, k, level) && PricesKept(e, f, id) && Without(level, id) != []
    ensures LevelPrice(f, Without(level, id)) == LevelPrice(e, level)
  {
    var left := Without(level, id);
    assert left[0] in level;
    if level[0] == id {
      assert left == level[1..] && left[0] == level[1];
    }
  }

  /** An order is in one queue only. */
  lemma NotInRest(e: map<nat, Entry>, k: nat, levels: seq<seq<nat>>, id: nat)
    requires SideOk(e, k, levels) && levels != [] && id in levels[0]
    ensures forall i :: 1 <= i < |levels| ==> id !in levels[i]
  {
    assert LevelOk(e, k, levels[0]);
    forall i | 1 <= i < |levels| ensures id !in levels[i] {
      assert LevelOk(e, k, levels[i]);
      assert Rank(k, LevelPrice(e, levels[0])) < Rank(k, LevelPrice(e, levels[i]));
    }
  }

  lemma {:induction false} QueueWithin(e: map<nat, Entry>, levels: seq<seq<nat>>, p: nat, id: nat)
    requires forall i :: 0 <= i < |levels| ==> id !in levels[i]
    ensures id !in QueueIn(e, levels, p)
  {
    if levels != [] {
      assert forall i :: 0 <= i < |levels[1..]| ==> levels[1..][i] == levels[i + 1];
      QueueWithin(e, levels[1..], p, id);
    }
  }

  /** The rest of a side, `id` being in its first level or not on it. */
  lemma RestQueues(e: map<nat, Entry>, f: map<nat, Entry>, k: nat, levels: seq<seq<nat>>, id: nat, p: nat)
    requires SideOk(e, k, levels) && PricesKept(e, f, id) && forall i :: 0 <= i < |levels| ==> id !in levels[i]
    ensures QueueIn(f, levels, p) == QueueIn(e, levels, p) == Without(QueueIn(e, levels, p), id)
  {
    forall i | 0 <= i < |levels| ensures LevelPrice(e, levels[i]) == LevelPrice(f, levels[i]) {
      assert LevelOk(e, k, levels[i]);
      assert levels[i][0] in levels[i];
      KeptPrice(e, f, k, levels[i], id);
    }
    QueueFrame(e, f, levels, p);
    QueueWithin(e, levels, p, id);
    WithoutAbsent(QueueIn(e, levels, p), id);
  }

  lemma {:induction false} RemoveIdQueues(e: map<nat, Entry>, f: map<nat, Entry>, k: nat, levels: seq<seq<nat>>,
                                          id: nat,
                                          p: nat)
    requires SideOk(e, k, levels) && PricesKept(e, f, id)
    ensures QueueIn(f, RemoveId(levels, id), p) == Without(QueueIn(e, levels, p), id)
    decreases |levels|
  {
    if levels != [] {
      var rest := levels[1..];
      RestOk(e, k, levels);
      assert LevelOk(e, k, levels[0]);
      if id in levels[0] {
        FirstLoses(e, f, k, levels, id, p);
      } else {
        hide SideOk;
        RemoveIdQueues(e, f, k, rest, id, p);
        assert levels[0][0] in levels[0];
        KeptPrice(e, f, k, levels[0], id);
        var now := [levels[0]] + RemoveId(rest, id);
        assert now[1..] == RemoveId(rest, id);
        if LevelPrice(e, levels[0]) == p { WithoutAbsent(levels[0], id); }
      }
    }
  }

  lemma FirstLoses(e: map<nat, Entry>, f: map<nat, Entry>, k: nat, levels: seq<seq<nat>>, id: nat, p: nat)
    requires SideOk(e, k, levels) && PricesKept(e, f, id) && levels != [] && id in levels[0]
    ensures QueueIn(f, Glue(Without(levels[0], id), levels[1..]), p) == Without(QueueIn(e, levels, p), id)
  {
    var rest, left := levels[1..], Without(levels[0], id);
    NotInRest(e, k, levels, id);
    RestOk(e, k, levels);
    assert forall i :: 0 <= i < |rest| ==> rest[i] == levels[i + 1];
    RestQueues(e, f, k, rest, id, p);
    if LevelPrice(e, levels[0]) == p {
      forall i | 0 <= i < |rest| ensures LevelPrice(e, rest[i]) != p {
        assert Rank(k, LevelPrice(e, levels[0])) < Rank(k, LevelPrice(e, levels[i + 1]));
      }
      NoQueue(e, rest, p);
    }
    if left != [] {
      assert LevelOk(e, k, levels[0]);
      WithoutPrice(e, f, k, levels[0], id);
      assert ([left] + rest)[1..] == rest;
    }
  }

  /** Removal and deactivation: the order leaves its queue, and every other order keeps its place. */
  lemma RemoveQueues(b: Book, id: nat, k: nat, p: nat)
    requires Wf(b) && Linked(b, id)
    ensures QueueAt(Remove(b, id), k, p) == Without(QueueAt(b, k, p), id)
    ensures QueueAt(Deactivate(b, id), k, p) == Without(QueueAt(b, k, p), id)
  {
    var key, r, d := KeyOf(b.entries[id]), Remove(b, id), Deactivate(b, id);
    assert PricesKept(b.entries, r.entries, id) && PricesKept(b.entries, d.entries, id);
    if k < |b.ladder| {
      assert SideOk(b.entries, k, b.ladder[k]);
      if k == key {
        RemoveIdQueues(b.entries, r.entries, k, b.ladder[k], id, p);
        RemoveIdQueues(b.entries, d.entries, k, b.ladder[k], id, p);
      } else {
        if OnSide(b.ladder[k], id) { OnSideKey(b, k, id); }
        RestQueues(b.entries, r.entries, k, b.ladder[k], id, p);
        RestQueues(b.entries, d.entries, k, b.ladder[k], id, p);
      }
    }
  }

  /** A trade that leaves the maker with volume moves nobody. */
  lemma TradeQueues(b: Book, id: nat, remain: nat, k: nat, p: nat)
    requires Wf(b) && id in b.entries
    ensures QueueAt(b.(entries := SetRemain(b.entries, id, remain)), k, p) == QueueAt(b, k, p)
  {
    if k < |b.ladder| { QueueFrame(b.entries, SetRemain(b.entries, id, remain), b.ladder[k], p); }
  }
}
