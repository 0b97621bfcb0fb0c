/**
 Full copies of a private ladder: the quantities are recomputed from the live orders into a scratch
 map and then read out along the product ladder, so that they come best price first.
 */
module Snapshot {
  import opened Common
  import opened Links
  import opened LevelList
  import opened Market
  import opened Deltas
  import opened PrivateMarket
  import opened PrivateWorkers
  import B = Book
  import L = LevelBooks

  // ---------------------------------------------------------- the scratch map

  ghost predicate Gathered(f: Dealable, orders: map<nat, Quote>, sub: map<nat, Quote>, org: nat, g: nat, bid: bool,
                           tmp: map<nat, nat>, p: nat) {
    (At(tmp, p) + Total(Parts(f, sub, org, g, bid, p))) % TWO64 == Total(Parts(f, orders, org, g, bid, p)) % TWO64
  }

  /** Per price, what the viewer sees of the live orders of one side. */
  method Gather(f: Dealable, orders: map<nat, Quote>, ids: set<nat>, org: nat, g: nat, bid: bool)
                returns (tmp: map<nat, nat>)
    requires forall id :: id in ids <==> id in orders && orders[id].at.product == g
    ensures forall p: nat :: At(tmp, p) == Total(Parts(f, orders, org, g, bid, p)) % TWO64
  {
    hide Total, Parts;
    tmp := map[];
    var rest := ids;
    ghost var sub := orders;
    while rest != {}
      invariant rest <= ids && (forall id :: id in sub <==> id in orders && (id in ids ==> id in rest)) &&
          (forall id :: id in sub ==> sub[id] == orders[id])
      invariant forall p: nat :: Gathered(f, orders, sub, org, g, bid, tmp, p)
      invariant forall p :: p in tmp ==> tmp[p] < TWO64
      decreases |rest|
    {
      var id :| id in rest;
      var o, before := orders[id].at, tmp;
      ghost var was := sub;
      var qty := if o.bid == bid then Seen(f, id, orders[id], org) else 0;
      if qty != 0 { tmp := tmp[o.price := (At(tmp, o.price) + qty) % TWO64]; }
      rest, sub := rest - {id}, sub - {id};
      forall p: nat ensures Gathered(f, orders, sub, org, g, bid, tmp, p) {
        assert Gathered(f, orders, was, org, g, bid, before, p);
        GatherNext(f, was, id, org, g, bid, p);
        Wraps(At(before, p), qty, Total(Parts(f, sub, org, g, bid, p)));
      }
    }
    forall p: nat ensures At(tmp, p) == Total(Parts(f, orders, org, g, bid, p)) % TWO64 {
      assert Gathered(f, orders, sub, org, g, bid, tmp, p);
      NoParts(f, sub, org, g, bid, p);
    }
  }

  lemma GatherNext(f: Dealable, sub: map<nat, Quote>, id: nat, org: nat, g: nat, bid: bool, p: nat)
    requires id in sub && sub[id].at.product == g
    ensures Total(Parts(f, sub, org, g, bid, p))
            == Total(Parts(f, sub - {id}, org, g, bid, p)) + if sub[id].at.bid == bid &&
                sub[id].at.price == p then Seen(f, id, sub[id], org) else 0
  {
    assert sub - {id} - {id} == sub - {id};
    PartsChanged(f, sub, sub - {id}, id, org, g, bid, p);
  }

  lemma NoParts(f: Dealable, sub: map<nat, Quote>, org: nat, g: nat, bid: bool, p: nat)
    requires forall id :: id in sub ==> sub[id].at.product != g
    ensures Total(Parts(f, sub, org, g, bid, p)) == 0
  {
    assert Parts(f, sub, org, g, bid, p) == map[];
  }

  // ------------------------------------------------------------- the read-out

  /** The cast to a signed number of 64 bits. */
  function Signed(q: nat): int { if q > INT64_MAX then q - TWO64 else q }

  ghost predicate Row(w: Delta, tmp: map<nat, nat>) {
    w.price in tmp && w.qty == tmp[w.price] > 0 && w.delta == Signed(w.qty)
  }

  /** `p` is the price of one of the first `i` levels. */
  ghost predicate Among(price: seq<nat>, list: seq<nat>, i: nat, p: nat) {
    exists m :: 0 <= m < i && m < |list| && list[m] < |price| && price[list[m]] == p
  }

  function Prices(out: seq<Delta>): set<nat> { set n | 0 <= n < |out| :: out[n].price }

  ghost predicate RowsRise(k: nat, out: seq<Delta>) {
    forall n, m :: 0 <= n < m < |out| ==> B.Rank(k, out[n].price) < B.Rank(k, out[m].price)
  }

  /** The rows so far come from the first `i` levels and leave none of them out. */
  ghost predicate ReadOut(price: seq<nat>, k: nat, list: seq<nat>, i: nat, tmp: map<nat, nat>, out: seq<Delta>) {
    && i <= |list| && (forall m :: 0 <= m < |list| ==> list[m] < |price|)
    && (forall n :: 0 <= n < |out| ==> Row(out[n], tmp) && Among(price, list, i, out[n].price))
    && RowsRise(k, out)
    && (forall m :: 0 <= m < i && At(tmp, price[list[m]]) > 0 ==> price[list[m]] in Prices(out))
  }

  lemma Worse(price: seq<nat>, k: nat, list: seq<nat>, i: nat, p: nat, j: nat)
    requires Sorted(price, k, list) && Among(price, list, i, p) && i <= j < |list|
    ensures B.Rank(k, p) < B.Rank(k, price[list[j]])
  {
  }

  lemma PricesNext(out: seq<Delta>, w: Delta)
    ensures Prices(out + [w]) == Prices(out) + {w.price}
  {
    var now := out + [w];
    forall p ensures p in Prices(now) <==> p in Prices(out) || p == w.price {
      if p in Prices(out) {
        var n :| 0 <= n < |out| && out[n].price == p;
        assert now[n].price == p;
      }
      if p == w.price { assert now[|out|].price == p; }
    }
  }

  lemma RiseNext(price: seq<nat>, k: nat, list: seq<nat>, i: nat, tmp: map<nat, nat>, out: seq<Delta>, w: Delta)
    requires Sorted(price, k, list) && i < |list| && ReadOut(price, k, list, i, tmp, out) && w.price == price[list[i]]
    ensures RowsRise(k, out + [w])
  {
    forall n | 0 <= n < |out|
        ensures B.Rank(k, out[n].price) < B.Rank(k, w.price) { Worse(price, k, list, i, out[n].price, i); }
  }

  lemma AmongMore(price: seq<nat>, list: seq<nat>, i: nat, p: nat)
    requires Among(price, list, i, p)
    ensures Among(price, list, i + 1, p)
  {
  }

  lemma ReadNext(price: seq<nat>, k: nat, list: seq<nat>, i: nat, tmp: map<nat, nat>, out: seq<Delta>)
    requires Sorted(price, k, list) && i < |list| && ReadOut(price, k, list, i, tmp, out)
    ensures var p := price[list[i]];
            ReadOut(price, k, list, i + 1, tmp, if At(tmp, p) > 0 then out + [Delta(p, Signed(tmp[p]), tmp[p])]
                else out)
  {
    hide RowsRise, Prices, Sorted, Signed;
    var p := price[list[i]];
    assert Among(price, list, i + 1, p);
    forall n | 0 <= n < |out|
        ensures Among(price, list, i + 1, out[n].price) { AmongMore(price, list, i, out[n].price); }
    hide Among;
    if At(tmp, p) > 0 {
      var w := Delta(p, Signed(tmp[p]), tmp[p]);
      RiseNext(price, k, list, i, tmp, out, w);
      PricesNext(out, w);
    }
  }

  lemma ReadNone(price: seq<nat>, k: nat, list: seq<nat>, tmp: map<nat, nat>)
    requires Sorted(price, k, list)
    ensures ReadOut(price, k, list, 0, tmp, [])
  {
  }

  /** Walks one side from its head and emits the prices the map has something for, at most `max`. */
  method Walk(s: L.LevelBook, k: nat, tmp: map<nat, nat>, max: nat) returns (out: seq<Delta>, ghost i: nat)
    requires s.Valid() && k < |s.lists| && k < |s.ends|
    ensures |out| <= max && ReadOut(s.price, k, s.lists[k], i, tmp, out) && (|out| < max ==> i == |s.lists[k]|)
  {
    L.Parts(s.View(), k);
    assert ListOk(s.price, s.q1, k, s.lists[k], s.ends[k]);
    ReadNone(s.price, k, s.lists[k], tmp);
    hide L.Ok, L.FreeOk, L.SideOk, Chain, ReadOut, RowsRise, Prices;
    var slot := s.ends[k].head;
    out, i := [], 0;
    while slot != NULL && |out| < max
      invariant i <= |s.lists[k]| && |out| <= max && slot == (if i < |s.lists[k]| then s.lists[k][i] else NULL)
      invariant ReadOut(s.price, k, s.lists[k], i, tmp, out)
      decreases |s.lists[k]| - i
    {
      ReadNext(s.price, k, s.lists[k], i, tmp, out);
      ChainElim(s.q1, s.lists[k], i);
      var p := s.price[slot];
      if p in tmp && tmp[p] > 0 { out := out + [Delta(p, Signed(tmp[p]), tmp[p])]; }
      slot := s.q1[slot].next;
      i := i + 1;
    }
    if i < |s.lists[k]| { ChainElim(s.q1, s.lists[k], i); }
  }

  /** A price of which a viewer sees something is a level of the product ladder on that side. */
  lemma PriceListed(w: PrivateWorker, org: nat, g: nat, bid: bool, p: nat) returns (m: nat)
    requires w.Valid() && g < |w.fan| && B.Key(g, bid) < |w.ladders.lists| &&
        Total(Parts(w.dealable, w.orders, org, g, bid, p)) > 0
    ensures m < |w.ladders.lists[B.Key(g, bid)]| && w.ladders.lists[B.Key(g, bid)][m] < |w.ladders.price| &&
        w.ladders.price[w.ladders.lists[B.Key(g, bid)][m]] == p
  {
    var id := SomePositive(Parts(w.dealable, w.orders, org, g, bid, p));
    var q := w.orders[id];
    SeenIs(q.volume, w.dealable(TermsOf(id, q), org), q.at.remaining);
    assert Ats(w.orders)[id] == q.at;
    var s := w.ladders.View();
    ShownAt(Ats(w.orders), s, id);
    hide Mirrors, FanOk, AllListed, Views, Total, Parts;
    L.PriceIs(s, g, p);
    var x := s.slotOf[g][p];
    m := L.LevelFacts(s, B.Key(g, bid), x);
  }

  /**
   The full copy: best price first, every row the recomputed quantity of its price, and complete unless
   cut off at `max`, in which case what is missing is worse than everything copied.
   */
  method CopyFull(w: PrivateWorker, g: nat, j: nat, bid: bool, max: nat) returns (out: seq<Delta>)
    requires w.Valid() && g < |w.fan| && j < |w.fan[g]| && w.fan[g][j].ladder.Some?
    ensures |out| <= max
    ensures forall n :: 0 <= n < |out| ==>
              out[n].qty == w.Settled(g, j, bid, out[n].price) > 0 && out[n].delta == Signed(out[n].qty)
    ensures RowsRise(B.Key(g, bid), out)
    ensures forall p: nat :: w.Settled(g, j, bid, p) > 0 ==>
              p in Prices(out) || (|out| == max && Behind(out, B.Key(g, bid), p))
  {
    hide Drift, Total, Parts;
    var v, k := w.fan[g][j], B.Key(g, bid);
    L.ShapeOf(w.ladders.View());
    var tmp := Gather(w.dealable, w.orders, w.live[g], v.org, g, bid);
    ghost var i;
    out, i := Walk(w.ladders, k, tmp, max);
    forall p: nat ensures At(tmp, p) == w.Settled(g, j, bid, p) {
      assert ViewRight(w.dealable, w.orders, w.heard, w.sides, v, g, bid, p);
    }
    forall p: nat | At(tmp, p) > 0 ensures p in Prices(out) || (|out| == max && Behind(out, k, p)) {
      var m := PriceListed(w, v.org, g, bid, p);
      Covered(w.ladders.View(), k, i, tmp, out, m);
    }
    forall n | 0 <= n < |out|
        ensures out[n].qty == w.Settled(g, j, bid, out[n].price) > 0 && out[n].delta == Signed(out[n].qty) {
      assert Row(out[n], tmp);
    }
  }

  /** Everything copied is better than `p`. */
  predicate Behind(out: seq<Delta>, k: nat, p: nat) { forall n :: 0 <= n < |out| ==>
                   B.Rank(k, out[n].price) < B.Rank(k, p) }

  lemma Covered(s: L.Ladders, k: nat, i: nat, tmp: map<nat, nat>, out: seq<Delta>, m: nat)
    requires L.Ok(s) && k < |s.lists| && ReadOut(s.price, k, s.lists[k], i, tmp, out) && m < |s.lists[k]| &&
        At(tmp, s.price[s.lists[k][m]]) > 0
    ensures s.price[s.lists[k][m]] in Prices(out) || (i < |s.lists[k]| && Behind(out, k, s.price[s.lists[k][m]]))
  {
    L.Parts(s, k);
    hide L.Ok;
    var p := s.price[s.lists[k][m]];
    if m >= i {
      forall n | 0 <= n < |out|
          ensures B.Rank(k, out[n].price) < B.Rank(k, p) { Worse(s.price, k, s.lists[k], i, out[n].price, m); }
    }
  }
}
