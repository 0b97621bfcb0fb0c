/**
 One side of a market-data ladder: price levels in a doubly linked list, best price first, with a
 hint that remembers where the last level was inserted.
 */
module LevelList {
  import opened Common
  import opened Links
  import B = Book

  /** The list's ends, its length and the hint. */
  datatype Ends = Ends(head: nat, tail: nat, count: nat, hint: nat)

  const EMPTY: Ends := Ends(NULL, NULL, 0, NULL)

  function Last(p: seq<nat>): nat { if p == [] then NULL else p[|p| - 1] }

  /** Levels are strictly ordered: descending prices for bids, ascending for asks. */
  predicate Sorted(price: seq<nat>, k: nat, p: seq<nat>) {
    && (forall i :: 0 <= i < |p| ==> p[i] < |price|)
    && (forall i, j :: 0 <= i < j < |p| ==> B.Rank(k, price[p[i]]) < B.Rank(k, price[p[j]]))
  }

  ghost predicate ListOk(price: seq<nat>, q1: seq<Link>, k: nat, p: seq<nat>, e: Ends) {
    && |q1| == |price| && Chain(q1, p) && Sorted(price, k, p)
    && e.head == First(p) && e.tail == Last(p) && e.count == |p| && (e.hint == NULL || e.hint in p)
  }

  /** How many levels are better than `r`: where a plain walk from the head stops. */
  function Place(price: seq<nat>, k: nat, p: seq<nat>, r: int): (n: nat)
    requires forall i :: 0 <= i < |p| ==> p[i] < |price|
    ensures n <= |p| && (forall i :: 0 <= i < n ==> B.Rank(k, price[p[i]]) < r)
    ensures n < |p| ==> B.Rank(k, price[p[n]]) >= r
  {
    if p == [] || B.Rank(k, price[p[0]]) >= r then 0 else 1 + Place(price, k, p[1..], r)
  }

  /** The level behind which a new price goes: NULL is the front. */
  function Behind(price: seq<nat>, k: nat, p: seq<nat>, new_: nat): nat
    requires forall i :: 0 <= i < |p| ==> p[i] < |price|
  {
    var n := Place(price, k, p, B.Rank(k, new_));
    if n == 0 then NULL else p[n - 1]
  }

  /** An index with everything up to it better and nothing behind it better is the place. */
  lemma PlaceIs(price: seq<nat>, k: nat, p: seq<nat>, r: int, n: nat)
    requires Sorted(price, k, p) && n <= |p|
    requires n > 0 ==> B.Rank(k, price[p[n - 1]]) < r
    requires n < |p| ==> B.Rank(k, price[p[n]]) >= r
    ensures Place(price, k, p, r) == n
  {
    var m := Place(price, k, p, r);
  }

  /** Walking back from position `i` while levels are not better. */
  method WalkBack(price: seq<nat>, q1: seq<Link>, ghost k: nat, bid: bool, ghost p: seq<nat>, start: nat, ghost i: nat,
                  new_: nat) returns (walk: nat, ghost j: nat)
    requires |q1| == |price| && Chain(q1, p) && Sorted(price, k, p) && bid == B.KeyIsBid(k) && i < |p| && start == p[i]
    requires forall m :: 0 <= m < |p| ==> price[p[m]] != new_
    ensures j <= i + 1 && walk == (if j == 0 then NULL else p[j - 1])
    ensures j > 0 ==> B.Rank(k, price[p[j - 1]]) < B.Rank(k, new_)
    ensures j <= i ==> B.Rank(k, price[p[j]]) >= B.Rank(k, new_)
  {
    hide Chain;
    walk, j := start, i + 1;
    while walk != NULL && (if bid then price[walk] < new_ else price[walk] > new_)
      invariant j <= i + 1 && walk == (if j == 0 then NULL else p[j - 1])
      invariant j <= i ==> B.Rank(k, price[p[j]]) >= B.Rank(k, new_)
      decreases j
    {
      ChainElim(q1, p, j - 1);
      walk := q1[walk].prev;
      j := j - 1;
    }
    if j > 0 { ChainElim(q1, p, j - 1); }
  }

  /** Walking on from behind position `i` while levels are better. */
  method WalkOn(price: seq<nat>, q1: seq<Link>, ghost k: nat, bid: bool, ghost p: seq<nat>, start: nat, ghost i: nat,
                new_: nat) returns (prev: nat)
    requires |q1| == |price| && Chain(q1, p) && Sorted(price, k, p) && bid == B.KeyIsBid(k) && i < |p| && start == p[i]
    requires forall m :: 0 <= m < |p| ==> price[p[m]] != new_
    requires B.Rank(k, price[p[i]]) < B.Rank(k, new_)
    ensures prev == Behind(price, k, p, new_)
  {
    hide Chain, Place;
    ghost var j := i;
    prev := start;
    ChainElim(q1, p, i);
    var curr := q1[start].next;
    while curr != NULL && (if bid then price[curr] >= new_ else price[curr] <= new_)
      invariant i <= j < |p| && prev == p[j] && curr == After(p, j) && B.Rank(k, price[p[j]]) < B.Rank(k, new_)
      decreases |p| - j
    {
      j := j + 1;
      ChainElim(q1, p, j);
      prev := curr;
      curr := q1[curr].next;
    }
    if j + 1 < |p| { ChainElim(q1, p, j + 1); }
    PlaceIs(price, k, p, B.Rank(k, new_), j + 1);
  }

  /** Finds where a new price goes: at the front, behind the tail, from the hint, or by a walk from the head. */
  method FindInsertPos(price: seq<nat>, q1: seq<Link>, ghost k: nat, bid: bool, ghost p: seq<nat>, e: Ends, new_: nat)
                       returns (after: nat)
    requires ListOk(price, q1, k, p, e) && bid == B.KeyIsBid(k) && |price| <= NULL
    requires forall m :: 0 <= m < |p| ==> price[p[m]] != new_
    ensures after == Behind(price, k, p, new_)
  {
    hide Chain, Place;
    if p != [] { ChainElim(q1, p, 0); }
    if e.head == NULL { return NULL; }
    if if bid then new_ > price[e.head] else new_ < price[e.head] {
      PlaceIs(price, k, p, B.Rank(k, new_), 0);
      return NULL;
    }
    if e.tail != NULL {
      if if bid then new_ <= price[e.tail] else new_ >= price[e.tail] {
        PlaceIs(price, k, p, B.Rank(k, new_), |p|);
        return e.tail;
      }
    }
    if e.hint != NULL && e.hint < |price| {
      ghost var i :| 0 <= i < |p| && p[i] == e.hint;
      if if bid then new_ > price[e.hint] else new_ < price[e.hint] {
        var walk, j := WalkBack(price, q1, k, bid, p, e.hint, i, new_);
        if walk == NULL { assert false; }   // a price better than the head was dealt with above
        after := WalkOn(price, q1, k, bid, p, walk, j - 1, new_);
        return;
      }
      after := WalkOn(price, q1, k, bid, p, e.hint, i, new_);
      return;
    }
    after := HeadWalk(price, q1, k, bid, p, e.head, new_);
  }

  /** The plain walk from the head. */
  method HeadWalk(price: seq<nat>, q1: seq<Link>, ghost k: nat, bid: bool, ghost p: seq<nat>, head: nat, new_: nat)
                  returns (prev: nat)
    requires |q1| == |price| && Chain(q1, p) && Sorted(price, k, p) && bid == B.KeyIsBid(k) && head == First(p)
    requires forall m :: 0 <= m < |p| ==> price[p[m]] != new_
    ensures prev == Behind(price, k, p, new_)
  {
    hide Chain, Place;
    prev := NULL;
    var curr := head;
    ghost var j := 0;
    while curr != NULL
      invariant 0 <= j <= |p| && prev == (if j == 0 then NULL else p[j - 1]) && curr == (if j < |p| then p[j] else NULL)
      invariant j > 0 ==> B.Rank(k, price[p[j - 1]]) < B.Rank(k, new_)
      decreases |p| - j
    {
      if if bid then price[curr] < new_ else price[curr] > new_ {
        PlaceIs(price, k, p, B.Rank(k, new_), j);
        return;
      }
      ChainElim(q1, p, j);
      prev := curr;
      curr := q1[curr].next;
      j := j + 1;
    }
    if j < |p| { ChainElim(q1, p, j); }
    PlaceIs(price, k, p, B.Rank(k, new_), j);
  }

  // ---------------------------------------------------- linking and unlinking

  function LinkAt(q1: seq<Link>, head: nat, x: nat, after: nat): (r: seq<Link>)
    requires x < |q1| && (after == NULL || after < |q1|)
    ensures |r| == |q1|
  {
    if after == NULL then LinkFirst(q1, head, x) else LinkAfter(q1, after, x)
  }

  function Linked(e: Ends, q1: seq<Link>, x: nat, after: nat): Ends
    requires after == NULL || after < |q1|
  {
    Ends(if after == NULL then x else e.head,
         if (if after == NULL then e.head == NULL else q1[after].next == NULL) then x else e.tail, e.count + 1, x)
  }

  function Unlinked(e: Ends, q1: seq<Link>, x: nat): Ends
    requires x < |q1|
  {
    var prev, next := q1[x].prev, q1[x].next;
    Ends(if prev == NULL then next else e.head, if next == NULL then prev else e.tail, if e.count == 0 then 0xFFFF_FFFF
        else e.count - 1,
         if e.count == 1 then NULL else if e.hint == x then (if prev != NULL then prev else next) else e.hint)
  }

  lemma SortedInsert(price: seq<nat>, k: nat, p: seq<nat>, n: nat, x: nat)
    requires Sorted(price, k, p) && x < |price| && n == Place(price, k, p, B.Rank(k, price[x]))
    requires forall m :: 0 <= m < |p| ==> price[p[m]] != price[x]
    ensures Sorted(price, k, Insert(p, n, x))
  {
    var s := Insert(p, n, x);
    hide Place, B.Rank;
    assert forall i :: 0 <= i < |s| ==> s[i] < |price|;
    hide Sorted;
    forall i, j | 0 <= i < j < |s| ensures B.Rank(k, price[s[i]]) < B.Rank(k, price[s[j]]) {
      if i == n { WorseThan(price, k, p, n, x, j - 1); }
      else if j != n { InOrder(price, k, p, if i < n then i else i - 1, if j < n then j else j - 1); }
    }
    SortedFrom(price, k, s);
  }

  lemma InOrder(price: seq<nat>, k: nat, p: seq<nat>, i: nat, j: nat)
    requires Sorted(price, k, p) && i < j < |p|
    ensures p[i] < |price| && p[j] < |price| && B.Rank(k, price[p[i]]) < B.Rank(k, price[p[j]])
  {
  }

  lemma SortedFrom(price: seq<nat>, k: nat, p: seq<nat>)
    requires forall i :: 0 <= i < |p| ==> p[i] < |price|
    requires forall i, j :: 0 <= i < j < |p| ==> B.Rank(k, price[p[i]]) < B.Rank(k, price[p[j]])
    ensures Sorted(price, k, p)
  {
  }

  /** What stands from its place on is strictly worse than a new price. */
  lemma WorseThan(price: seq<nat>, k: nat, p: seq<nat>, n: nat, x: nat, i: nat)
    requires Sorted(price, k, p) && x < |price| && n == Place(price, k, p, B.Rank(k, price[x])) && n <= i < |p|
    requires price[p[n]] != price[x]
    ensures B.Rank(k, price[x]) < B.Rank(k, price[p[i]])
  {
  }

  /** A new level linked behind its place. */
  lemma LinkOk(price: seq<nat>, q1: seq<Link>, k: nat, p: seq<nat>, e: Ends, x: nat)
    requires ListOk(price, q1, k, p, e) && x < |price| <= NULL && x !in p && forall m :: 0 <= m < |p| ==>
        price[p[m]] != price[x]
    ensures var n, after := Place(price, k, p, B.Rank(k, price[x])), Behind(price, k, p, price[x]);
            && (after == NULL || after < |q1|)
            && ListOk(price, LinkAt(q1, e.head, x, after), k, Insert(p, n, x), Linked(e, q1, x, after))
            && OnlyAt(q1, LinkAt(q1, e.head, x, after), p + [x])
  {
    var n := Place(price, k, p, B.Rank(k, price[x]));
    hide Chain, OnlyAt, LinkAfter, LinkFirst, Place, Linked;
    SortedInsert(price, k, p, n, x);
    LinkEnds(q1, p, e, n, x);
    if n == 0 { ChainLinkFirst(q1, p, x); } else { ChainElim(q1, p, n - 1); ChainLinkAfter(q1, p, n, x); }
  }

  lemma LinkEnds(q1: seq<Link>, p: seq<nat>, e: Ends, n: nat, x: nat)
    requires Chain(q1, p) && e.head == First(p) && e.tail == Last(p) && e.count == |p| && n <= |p| && |q1| <= NULL
    ensures var after, s := if n == 0 then NULL else p[n - 1], Insert(p, n, x);
            && (after == NULL || after < |q1|)
            && var f := Linked(e, q1, x, after); f.head == First(s) && f.tail == Last(s) && f.count == |s| &&
                                                 f.hint in s
  {
    hide Chain;
    var s := Insert(p, n, x);
    assert s[n] == x;
    if n > 0 { ChainElim(q1, p, n - 1); }
    if n < |p| { ChainElim(q1, p, n); }
    if p != [] { ChainElim(q1, p, 0); }
  }

  lemma SortedDelete(price: seq<nat>, k: nat, p: seq<nat>, n: nat)
    requires Sorted(price, k, p) && n < |p|
    ensures Sorted(price, k, Delete(p, n))
  {
  }

  lemma UnlinkOk(price: seq<nat>, q1: seq<Link>, k: nat, p: seq<nat>, e: Ends, n: nat)
    requires ListOk(price, q1, k, p, e) && |price| <= NULL && n < |p|
    ensures var x := p[n];
            && x < |q1| && ListOk(price, Unlink(q1, x), k, Delete(p, n), Unlinked(e, q1, x))
            && OnlyAt(q1, Unlink(q1, x), p)
  {
    hide Chain, OnlyAt, Unlink, Unlinked;
    ChainElim(q1, p, n);
    ChainUnlink(q1, p, n);
    SortedDelete(price, k, p, n);
    UnlinkEnds(q1, p, e, n);
  }

  lemma UnlinkEnds(q1: seq<Link>, p: seq<nat>, e: Ends, n: nat)
    requires Chain(q1, p) && e.head == First(p) && e.tail == Last(p) && e.count == |p| && n < |p| && |q1| <= NULL &&
        (e.hint == NULL || e.hint in p)
    ensures p[n] < |q1| && var d, f := Delete(p, n), Unlinked(e, q1, p[n]);
            f.head == First(d) && f.tail == Last(d) && f.count == |d| && (f.hint == NULL || f.hint in d)
  {
    hide Chain;
    var d := Delete(p, n);
    ChainElim(q1, p, n);
    if n > 0 { ChainElim(q1, p, n - 1); assert d[n - 1] == p[n - 1]; }
    if n + 1 < |p| { ChainElim(q1, p, n + 1); assert d[n] == p[n + 1]; }
    KeptHint(p, n, e.hint);
  }

  lemma KeptHint(p: seq<nat>, n: nat, y: nat)
    requires n < |p|
    ensures y in p && y != p[n] ==> y in Delete(p, n)
  {
    if y in p && y != p[n] {
      var i :| 0 <= i < |p| && p[i] == y;
      assert Delete(p, n)[if i < n then i else i - 1] == y;
    }
  }
}
