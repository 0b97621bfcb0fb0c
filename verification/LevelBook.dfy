/**
 The market-data ladders of all products on one slab of level slots: a free list, two sorted lists
 per product, and one map per product from price to slot.
 */
module LevelBooks {
  import opened Common
  import opened Links
  import opened LevelList
  import B = Book

  const UINT64_MAX: nat := 0xFFFF_FFFF_FFFF_FFFF

  /** Who a slot belongs to: the free list, or one side of one product. */
  datatype Owner = Free | Side(k: nat)

  /** The slab and the ladders as a value; `free`, `lists` and `owner` are what the links spell out. */
  datatype Ladders = Ladders(price: seq<nat>, qty: seq<nat>, q0: seq<Link>, q1: seq<Link>, freeHead: nat, freeTail: nat,
      freeCount: nat,
                             ends: seq<Ends>, slotOf: seq<map<nat, nat>>, free: seq<nat>, lists: seq<seq<nat>>,
                                 owner: seq<Owner>)

  ghost predicate Shape(s: Ladders) {
    && |s.qty| == |s.q0| == |s.q1| == |s.owner| == |s.price| <= NULL
    && |s.lists| == |s.ends| == 2 * |s.slotOf|
  }

  ghost predicate FreeOk(s: Ladders) {
    && Chain(s.q0, s.free) && s.freeHead == First(s.free) && s.freeTail == Last(s.free) && s.freeCount == |s.free|
    && (forall i :: 0 <= i < |s.free| && s.free[i] < |s.owner| ==> s.owner[s.free[i]] == Free)
  }

  ghost predicate SideOk(s: Ladders, k: nat) {
    && k < |s.lists| && k < |s.ends| && ListOk(s.price, s.q1, k, s.lists[k], s.ends[k])
    && (forall i :: 0 <= i < |s.lists[k]| && s.lists[k][i] < |s.owner| ==> s.owner[s.lists[k][i]] == Side(k))
  }

  /** A slot is where its owner says and, if it is a level, in the price map with something to show. */
  predicate SlotOk(s: Ladders, x: nat) {
    x < |s.owner| && x < |s.price| && x < |s.qty| &&
    match s.owner[x]
    case Free => x in s.free
    case Side(k) =>
      && k < |s.lists| && k / 2 < |s.slotOf| && x in s.lists[k] && s.qty[x] > 0
      && s.price[x] in s.slotOf[k / 2] && s.slotOf[k / 2][s.price[x]] == x
  }

  predicate PriceOk(s: Ladders, product: nat, p: nat) {
    product < |s.slotOf| && (p in s.slotOf[product] ==>
      var x := s.slotOf[product][p];
      x < |s.owner| && x < |s.price| && s.price[x] == p && s.owner[x].Side? && s.owner[x].k / 2 == product)
  }

  /** Every slot is on the free list or on exactly one side; both sides are strictly sorted; the maps are exact. */
  ghost predicate Ok(s: Ladders) {
    && Shape(s) && FreeOk(s)
    && (forall k :: 0 <= k < |s.lists| ==> SideOk(s, k))
    && (forall x :: 0 <= x < |s.price| ==> SlotOk(s, x))
    && (forall product: nat, p: nat :: product < |s.slotOf| ==> PriceOk(s, product, p))
  }

  /** The quantity shown at a price. */
  function Qty(s: Ladders, product: nat, p: nat): nat {
    if product < |s.slotOf| && p in s.slotOf[product] && s.slotOf[product][p] < |s.qty| then s.qty[s.slotOf[product][p]]
        else 0
  }

  // ------------------------------------------------------------- one level

  /** The side's slots, by price and by owner, are not `x`. */
  lemma FreeSlot(s: Ladders, k: nat)
    requires Ok(s) && s.free != [] && k < |s.lists|
    ensures var x := s.freeHead; x == s.free[0] && x < |s.price| && s.owner[x] == Free && x !in s.lists[k]
  {
    assert SideOk(s, k);
    ChainElim(s.q0, s.free, 0);
  }

  function Record(m: map<nat, nat>, p: nat, x: nat): map<nat, nat> { m[p := x] }

  /** Taking the first free slot for a new level of side `k`. */
  ghost function Opened(s: Ladders, k: nat, p: nat, q: nat): Ladders
    requires Ok(s) && k < |s.lists| && s.free != []
  {
    FreeSlot(s, k);
    assert SideOk(s, k);
    var x: nat := s.freeHead;
    var price: seq<nat> := s.price[x := p];
    var n: nat, after: nat := Place(price, k, s.lists[k], B.Rank(k, p)), Behind(price, k, s.lists[k], p);
    if !(after == NULL || after < |s.q1|) then s else
    s.(price := price, qty := s.qty[x := q], q0 := Unlink(s.q0, x), q1 :=
        LinkAt(s.q1[x := UNLINKED], s.ends[k].head, x, after),
       freeHead := s.q0[x].next, freeTail := if s.q0[x].next == NULL then NULL else s.freeTail,
           freeCount := s.freeCount - 1,
       ends := s.ends[k := Linked(s.ends[k], s.q1[x := UNLINKED], x, after)],
           slotOf := s.slotOf[k / 2 := Record(s.slotOf[k / 2], p, x)],
       free := s.free[1..], lists := s.lists[k := Insert(s.lists[k], n, x)], owner := s.owner[x := Side(k)])
  }

  lemma OpenList(s: Ladders, k: nat, p: nat)
    requires Ok(s) && k < |s.lists| && s.free != [] && p !in s.slotOf[k / 2]
    ensures var x := s.freeHead;
            x < |s.price| && var price := s.price[x := p]; var list := s.lists[k];
            && (forall i :: 0 <= i < |list| ==> list[i] < |price|) && x !in list
            && (forall i :: 0 <= i < |list| ==> price[list[i]] != p)
            && ListOk(price, s.q1[x := UNLINKED], k, list, s.ends[k])
  {
    FreeSlot(s, k);
    assert SideOk(s, k);
    var x, list := s.freeHead, s.lists[k];
    forall i | 0 <= i < |list| ensures list[i] < |s.price| && list[i] != x && s.price[list[i]] != p {
      assert list[i] in list && SlotOk(s, list[i]);
    }
    ChainFrame(s.q1, s.q1[x := UNLINKED], list);
  }

  /** Other lists keep their links when only `p` and `x` were written. */
  lemma OtherList(s: Ladders, k: nat, m: nat, price: seq<nat>, r: seq<Link>, x: nat)
    requires Ok(s) && k < |s.lists| && m < |s.lists| && k != m && x < |s.price| && s.owner[x] != Side(m)
    requires |price| == |s.price| && |r| == |s.q1| && (forall y :: 0 <= y < |price| && y != x ==>
        price[y] == s.price[y])
    requires OnlyAt(s.q1, r, s.lists[k] + [x])
    ensures ListOk(price, r, m, s.lists[m], s.ends[m]) && x !in s.lists[m]
  {
    assert SideOk(s, m) && SideOk(s, k);
    hide Ok, Chain, Sorted;
    forall i | 0 <= i < |s.lists[m]| ensures s.lists[m][i] != x && s.lists[m][i] < |s.price| &&
        r[s.lists[m][i]] == s.q1[s.lists[m][i]] {
      var y := s.lists[m][i];
      assert y < |s.owner| && s.owner[y] == Side(m);
      assert y !in s.lists[k];
      assert y !in s.lists[k] + [x];
    }
    ChainFrame(s.q1, r, s.lists[m]);
    SortedFrame(s.price, price, m, s.lists[m]);
  }

  lemma SortedFrame(price: seq<nat>, price': seq<nat>, k: nat, p: seq<nat>)
    requires Sorted(price, k, p) && |price'| == |price| && forall i :: 0 <= i < |p| && p[i] < |price| ==>
        price'[p[i]] == price[p[i]]
    ensures Sorted(price', k, p)
  {
  }

  lemma Parts(s: Ladders, k: nat)
    requires Ok(s) && k < |s.lists|
    ensures Shape(s) && FreeOk(s) && SideOk(s, k)
  {
  }

  lemma ShapeOf(s: Ladders)
    requires Ok(s)
    ensures Shape(s)
  {
  }

  /** The record written out, the place found being a slot or the front. */
  lemma OpenFields(s: Ladders, k: nat, p: nat, q: nat)
    requires Ok(s) && k < |s.lists| && s.free != [] && p !in s.slotOf[k / 2]
    ensures var t, x := Opened(s, k, p, q), s.freeHead;
            && Shape(s) && x < |s.price| && x == s.free[0] && s.owner[x] == Free
            && t.price == s.price[x := p] && t.qty == s.qty[x := q] && t.q0 == Unlink(s.q0, x) && t.free == s.free[1..]
            && t.freeHead == s.q0[x].next && t.freeTail == (if s.q0[x].next == NULL then NULL else s.freeTail) &&
               t.freeCount == s.freeCount - 1
            && t.slotOf == s.slotOf[k / 2 := Record(s.slotOf[k / 2], p, x)] && t.owner == s.owner[x := Side(k)]
            && |t.q1| == |s.q1| && |t.lists| == |s.lists| && t.lists == s.lists[k := t.lists[k]] &&
               |t.ends| == |s.ends| && t.ends == s.ends[k := t.ends[k]]
            && ListOk(t.price, t.q1, k, t.lists[k], t.ends[k]) && OnlyAt(s.q1, t.q1, s.lists[k] + [x])
            && (forall y :: y in t.lists[k] <==> y in s.lists[k] || y == x)
  {
    var x, list := s.freeHead, s.lists[k];
    FreeSlot(s, k);
    OpenList(s, k, p);
    hide ListOk, OnlyAt, LinkAt, Linked, Ok, Unlink;
    var price := s.price[x := p];
    var n := Place(price, k, list, B.Rank(k, p));
    LinkOk(price, s.q1[x := UNLINKED], k, list, s.ends[k], x);
    InsertIn(list, n, x);
    OnlyThrough(s.q1, s.q1[x := UNLINKED], Opened(s, k, p, q).q1, list, x);
  }

  lemma OpenFree(s: Ladders, k: nat, p: nat, q: nat)
    requires Ok(s) && k < |s.lists| && s.free != [] && p !in s.slotOf[k / 2]
    ensures FreeOk(Opened(s, k, p, q)) && Shape(Opened(s, k, p, q))
  {
    hide Opened, Chain, ListOk, Unlink, OnlyAt, Ok;
    var t, x := Opened(s, k, p, q), s.freeHead;
    Parts(s, k);
    OpenFields(s, k, p, q);
    PopChain(s.q0, s.free);
    forall i | 0 <= i < |t.free| ensures t.free[i] < |s.owner| && t.owner[t.free[i]] == Free {
      assert t.free[i] == s.free[i + 1];
    }
  }

  lemma PopChain(q0: seq<Link>, free: seq<nat>)
    requires Chain(q0, free) && free != [] && |q0| <= NULL
    ensures free[0] < |q0| && Chain(Unlink(q0, free[0]), free[1..]) && q0[free[0]].next == First(free[1..])
    ensures (if q0[free[0]].next == NULL then NULL else Last(free)) == Last(free[1..])
    ensures forall i :: 1 <= i < |free| ==> free[i] < |q0| && free[i] != free[0]
  {
    hide Unlink;
    ChainUnlink(q0, free, 0);
    assert Delete(free, 0) == free[1..];
    ChainElim(q0, free, 0);
  }

  /** The new level in its side's list. */
  lemma OpenSide(s: Ladders, k: nat, p: nat, q: nat)
    requires Ok(s) && k < |s.lists| && s.free != [] && p !in s.slotOf[k / 2]
    ensures SideOk(Opened(s, k, p, q), k)
  {
    hide Opened, ListOk, OnlyAt, Ok, FreeOk;
    var t := Opened(s, k, p, q);
    Parts(s, k);
    OpenFields(s, k, p, q);
    forall i | 0 <= i < |t.lists[k]| && t.lists[k][i] < |t.owner| ensures t.owner[t.lists[k][i]] == Side(k) {
      assert t.lists[k][i] in t.lists[k];
    }
  }

  lemma InsertIn(p: seq<nat>, n: nat, x: nat)
    requires n <= |p|
    ensures forall y :: y in Insert(p, n, x) <==> y in p || y == x
  {
    var s := Insert(p, n, x);
    assert s[n] == x;
    forall y | y in p ensures y in s {
      var i :| 0 <= i < |p| && p[i] == y;
      assert s[if i < n then i else i + 1] == y;
    }
  }

  lemma OnlyThrough(q: seq<Link>, mid: seq<Link>, r: seq<Link>, p: seq<nat>, x: nat)
    requires x < |q| && mid == q[x := UNLINKED] && OnlyAt(mid, r, p + [x])
    ensures OnlyAt(q, r, p + [x])
  {
  }

  lemma OpenSides(s: Ladders, k: nat, p: nat, q: nat, m: nat)
    requires Ok(s) && k < |s.lists| && m < |s.lists| && m != k && s.free != [] && p !in s.slotOf[k / 2]
    ensures SideOk(Opened(s, k, p, q), m)
  {
    hide Opened, ListOk, OnlyAt, Ok, FreeOk;
    Parts(s, m);
    var t, x := Opened(s, k, p, q), s.freeHead;
    OpenFields(s, k, p, q);
    OtherList(s, k, m, t.price, t.q1, x);
    forall i | 0 <= i < |t.lists[m]| && t.lists[m][i] < |t.owner| ensures t.owner[t.lists[m][i]] == Side(m) {
      assert t.lists[m][i] in s.lists[m];
    }
  }

  lemma OpenSlots(s: Ladders, k: nat, p: nat, q: nat, y: nat)
    requires Ok(s) && k < |s.lists| && s.free != [] && p !in s.slotOf[k / 2] && y < |s.price| && q > 0
    ensures SlotOk(Opened(s, k, p, q), y)
  {
    hide Opened, ListOk, OnlyAt, Ok, FreeOk, SideOk;
    SlotIs(s, y);
    var t := Opened(s, k, p, q);
    OpenFields(s, k, p, q);
    if y != s.freeHead && s.owner[y].Free? {
      var i :| 0 <= i < |s.free| && s.free[i] == y;
      assert t.free[i - 1] == y;
    }
  }

  lemma OpenPrices(s: Ladders, k: nat, p: nat, q: nat, product: nat, r: nat)
    requires Ok(s) && k < |s.lists| && s.free != [] && p !in s.slotOf[k / 2] && product < |s.slotOf|
    ensures PriceOk(Opened(s, k, p, q), product, r)
  {
    hide Opened, ListOk, OnlyAt, Ok, FreeOk, SideOk;
    PriceAt(s, product, r);
    OpenFields(s, k, p, q);
  }

  /** A new level: every invariant is kept, the new price shows its quantity and no other price changes. */
  lemma OpenOk(s: Ladders, k: nat, p: nat, q: nat)
    requires Ok(s) && k < |s.lists| && s.free != [] && p !in s.slotOf[k / 2] && q > 0
    ensures Ok(Opened(s, k, p, q))
    ensures forall product: nat, r: nat :: Qty(Opened(s, k, p, q), product, r) == if product == k / 2 && r == p then q
        else Qty(s, product, r)
  {
    var t := Opened(s, k, p, q);
    hide Opened, ListOk, OnlyAt, FreeOk, Qty, SlotOk, PriceOk;
    OpenFields(s, k, p, q);
    OpenFree(s, k, p, q);
    forall m | 0 <= m < |t.lists|
        ensures SideOk(t, m) { if m == k { OpenSide(s, k, p, q); } else { OpenSides(s, k, p, q, m); } }
    forall y | 0 <= y < |t.price| ensures SlotOk(t, y) { OpenSlots(s, k, p, q, y); }
    forall product: nat, r: nat | product < |t.slotOf|
        ensures PriceOk(t, product, r) { OpenPrices(s, k, p, q, product, r); }
    forall product: nat, r: nat ensures Qty(t, product, r) == if product == k / 2 &&
        r == p then q else Qty(s, product, r) { OpenQty(s, k, p, q, product, r); }
  }

  lemma OpenQty(s: Ladders, k: nat, p: nat, q: nat, product: nat, r: nat)
    requires Ok(s) && k < |s.lists| && s.free != [] && p !in s.slotOf[k / 2]
    ensures Qty(Opened(s, k, p, q), product, r) == if product == k / 2 && r == p then q else Qty(s, product, r)
  {
    hide Opened, ListOk, OnlyAt, Ok, FreeOk, SideOk;
    OpenFields(s, k, p, q);
    if product < |s.slotOf| { PriceAt(s, product, r); }
  }

  lemma PriceAt(s: Ladders, product: nat, r: nat)
    requires Ok(s) && product < |s.slotOf|
    ensures PriceOk(s, product, r)
  {
  }

  // ------------------------------------------------------ a level disappears

  function Erase(m: map<nat, nat>, p: nat): map<nat, nat> { m - {p} }

  ghost predicate IsLevel(s: Ladders, k: nat, x: nat) { k < |s.lists| && x < |s.owner| && s.owner[x] == Side(k) }

  lemma LevelFacts(s: Ladders, k: nat, x: nat) returns (n: nat)
    requires Ok(s) && IsLevel(s, k, x)
    ensures n < |s.lists[k]| && s.lists[k][n] == x && x < |s.price| && k / 2 < |s.slotOf| && k < |s.ends| &&
        s.ends[k].count > 0
    ensures s.qty[x] > 0 && s.price[x] in s.slotOf[k / 2] && s.slotOf[k / 2][s.price[x]] == x && x !in s.free
  {
    assert SlotOk(s, x) && SideOk(s, k);
    n :| 0 <= n < |s.lists[k]| && s.lists[k][n] == x;
  }

  lemma LevelThere(s: Ladders, k: nat, x: nat)
    requires Ok(s) && IsLevel(s, k, x)
    ensures x < |s.price| == |s.q1| == |s.q0| && k / 2 < |s.slotOf| && k < |s.ends| && s.ends[k].count > 0
  {
    var n := LevelFacts(s, k, x);
  }

  /** Unlinking level `x` of side `k` and giving its slot back. */
  ghost function Closed(s: Ladders, k: nat, x: nat): Ladders
    requires Ok(s) && IsLevel(s, k, x)
  {
    LevelThere(s, k, x);
    s.(q1 := Unlink(s.q1, x), ends := s.ends[k := Unlinked(s.ends[k], s.q1, x)], slotOf :=
        s.slotOf[k / 2 := Erase(s.slotOf[k / 2], s.price[x])],
       q0 := LinkFirst(s.q0, s.freeHead, x), freeHead := x, freeTail := if s.freeHead == NULL then x else s.freeTail,
           freeCount := s.freeCount + 1,
       free := [x] + s.free, lists := s.lists[k := Removed(s.lists[k], x)], owner := s.owner[x := Free])
  }

  function Removed(list: seq<nat>, x: nat): seq<nat> {
    if list == [] then [] else if list[0] == x then list[1..] else [list[0]] + Removed(list[1..], x)
  }

  lemma DistinctTail(list: seq<nat>)
    requires Distinct(list) && list != []
    ensures Distinct(list[1..])
  {
  }

  lemma {:induction false} RemovedIs(list: seq<nat>, n: nat)
    requires Distinct(list) && n < |list|
    ensures Removed(list, list[n]) == Delete(list, n)
  {
    Same(list, 0, n);
    DistinctTail(list);
    hide Distinct;
    if n > 0 {
      RemovedIs(list[1..], n - 1);
      assert list[1..][n - 1] == list[n];
      assert Delete(list, n) == [list[0]] + Delete(list[1..], n - 1);
    } else {
      assert Delete(list, 0) == list[1..];
    }
  }

  lemma DeleteIn(p: seq<nat>, n: nat)
    requires Distinct(p) && n < |p|
    ensures forall y :: y in Delete(p, n) <==> y in p && y != p[n]
  {
    forall y ensures y in Delete(p, n) <==> y in p && y != p[n] { KeptHint(p, n, y); }
  }

  lemma CloseFields(s: Ladders, k: nat, x: nat)
    requires Ok(s) && IsLevel(s, k, x)
    ensures var t := Closed(s, k, x);
            && Shape(s) && x < |s.price| && k / 2 < |s.slotOf| && t.price == s.price && t.qty == s.qty
            && t.slotOf == s.slotOf[k / 2 := Erase(s.slotOf[k / 2], s.price[x])] &&
               s.price[x] in s.slotOf[k / 2] && s.slotOf[k / 2][s.price[x]] == x
            && t.q0 == LinkFirst(s.q0, s.freeHead, x) && t.freeHead == x &&
               t.freeTail == (if s.freeHead == NULL then x else s.freeTail)
            && t.freeCount == s.freeCount + 1 && t.free == [x] + s.free && t.owner == s.owner[x := Free] && x !in s.free
            && |t.q1| == |s.q1| && |t.lists| == |s.lists| && t.lists == s.lists[k := t.lists[k]] &&
               |t.ends| == |s.ends| && t.ends == s.ends[k := t.ends[k]]
            && ListOk(t.price, t.q1, k, t.lists[k], t.ends[k]) && OnlyAt(s.q1, t.q1, s.lists[k])
            && (forall y :: y in t.lists[k] <==> y in s.lists[k] && y != x)
  {
    var n := LevelFacts(s, k, x);
    Parts(s, k);
    hide Ok, FreeOk, Unlinked, OnlyAt, Unlink, LinkFirst;
    var list := s.lists[k];
    ChainElim(s.q1, list, n);
    RemovedIs(list, n);
    DeleteIn(list, n);
    UnlinkOk(s.price, s.q1, k, list, s.ends[k], n);
  }

  lemma CloseFree(s: Ladders, k: nat, x: nat)
    requires Ok(s) && IsLevel(s, k, x)
    ensures FreeOk(Closed(s, k, x)) && Shape(Closed(s, k, x))
  {
    hide Closed, Chain, ListOk, OnlyAt, Ok, LinkFirst;
    var t := Closed(s, k, x);
    Parts(s, k);
    CloseFields(s, k, x);
    PushChain(s.q0, s.free, x);
    forall i | 0 <= i < |t.free| && t.free[i] < |t.owner| ensures t.owner[t.free[i]] == Free {
      if i > 0 { assert t.free[i] == s.free[i - 1]; }
    }
  }

  lemma PushChain(q0: seq<Link>, free: seq<nat>, x: nat)
    requires Chain(q0, free) && x < |q0| <= NULL && x !in free
    ensures Chain(LinkFirst(q0, First(free), x), [x] + free)
    ensures (if First(free) == NULL then x else Last(free)) == Last([x] + free)
  {
    hide LinkFirst;
    ChainLinkFirst(q0, free, x);
    assert Insert(free, 0, x) == [x] + free;
    if free != [] { ChainElim(q0, free, 0); }
  }

  lemma CloseSides(s: Ladders, k: nat, x: nat, m: nat)
    requires Ok(s) && IsLevel(s, k, x) && m < |s.lists|
    ensures SideOk(Closed(s, k, x), m)
  {
    hide Closed, ListOk, OnlyAt, Ok, FreeOk;
    var t := Closed(s, k, x);
    Parts(s, m);
    CloseFields(s, k, x);
    if m != k {
      WiderOnly(s.q1, t.q1, s.lists[k], x);
      OtherList(s, k, m, t.price, t.q1, x);
    }
    forall i | 0 <= i < |t.lists[m]| && t.lists[m][i] < |t.owner| ensures t.owner[t.lists[m][i]] == Side(m) {
      assert t.lists[m][i] in t.lists[m];
    }
  }

  lemma WiderOnly(q: seq<Link>, r: seq<Link>, p: seq<nat>, x: nat)
    requires OnlyAt(q, r, p)
    ensures OnlyAt(q, r, p + [x])
  {
  }

  lemma SlotIs(s: Ladders, y: nat)
    requires Ok(s) && y < |s.price|
    ensures SlotOk(s, y)
  {
  }

  lemma ErasedAt(m: map<nat, nat>, p: nat)
    ensures forall r :: r in Erase(m, p) <==> r in m && r != p
    ensures forall r :: r in Erase(m, p) ==> Erase(m, p)[r] == m[r]
  {
  }

  lemma CloseSlots(s: Ladders, k: nat, x: nat, y: nat)
    requires Ok(s) && IsLevel(s, k, x) && y < |s.price|
    ensures SlotOk(Closed(s, k, x), y)
  {
    hide Closed, ListOk, OnlyAt, Ok, LinkFirst, Erase;
    SlotIs(s, y);
    var t := Closed(s, k, x);
    CloseFields(s, k, x);
    ErasedAt(s.slotOf[k / 2], s.price[x]);
    assert t.free[0] == x;
    if y != x && s.owner[y].Free? {
      var i :| 0 <= i < |s.free| && s.free[i] == y;
      assert t.free[i + 1] == y;
    }
  }

  lemma ClosePrices(s: Ladders, k: nat, x: nat, product: nat, r: nat)
    requires Ok(s) && IsLevel(s, k, x) && product < |s.slotOf|
    ensures PriceOk(Closed(s, k, x), product, r)
    ensures Qty(Closed(s, k, x), product, r) == if product == k / 2 && r == s.price[x] then 0 else Qty(s, product, r)
  {
    hide Closed, ListOk, OnlyAt, Ok, FreeOk, SideOk;
    PriceAt(s, product, r);
    CloseFields(s, k, x);
  }

  /** A level removed: every invariant is kept, its price shows nothing and no other price changes. */
  lemma CloseOk(s: Ladders, k: nat, x: nat)
    requires Ok(s) && IsLevel(s, k, x)
    ensures Ok(Closed(s, k, x)) && k / 2 < |s.slotOf|
    ensures forall product: nat, r: nat ::
              Qty(Closed(s, k, x), product, r) == if product == k / 2 && x < |s.price| &&
                  r == s.price[x] then 0 else Qty(s, product, r)
  {
    hide Closed, ListOk, OnlyAt, FreeOk, SlotOk, PriceOk;
    var t := Closed(s, k, x);
    CloseFields(s, k, x);
    CloseFree(s, k, x);
    forall m | 0 <= m < |t.lists| ensures SideOk(t, m) { CloseSides(s, k, x, m); }
    forall y | 0 <= y < |t.price| ensures SlotOk(t, y) { CloseSlots(s, k, x, y); }
    forall product: nat, r: nat
      ensures (product < |t.slotOf| ==> PriceOk(t, product, r))
              && Qty(t, product, r) == if product == k / 2 && r == s.price[x] then 0 else Qty(s, product, r)
    {
      if product < |s.slotOf| { ClosePrices(s, k, x, product, r); }
    }
  }

  // ------------------------------------------------ quantities and growth

  /** Changing the quantity of a level that keeps some. */
  lemma TouchOk(s: Ladders, k: nat, x: nat, q: nat)
    requires Ok(s) && IsLevel(s, k, x) && q > 0
    ensures x < |s.qty| && k / 2 < |s.slotOf| && Ok(s.(qty := s.qty[x := q]))
    ensures forall product: nat, r: nat ::
              Qty(s.(qty := s.qty[x := q]), product, r) == if product == k / 2 && x < |s.price| &&
                  r == s.price[x] then q else Qty(s, product, r)
  {
    hide FreeOk, SideOk, SlotOk, PriceOk, Qty;
    LevelThere(s, k, x);
    SlotIs(s, x);
    var t := s.(qty := s.qty[x := q]);
    TouchFree(s, t);
    forall m | 0 <= m < |t.lists| ensures SideOk(t, m) { TouchSide(s, t, m); }
    forall y | 0 <= y < |t.price| ensures SlotOk(t, y) { TouchSlot(s, x, q, y); }
    forall product: nat, r: nat
      ensures (product < |t.slotOf| ==> PriceOk(t, product, r))
              && Qty(t, product, r) == if product == k / 2 && r == s.price[x] then q else Qty(s, product, r)
    {
      TouchPrice(s, k, x, q, product, r);
    }
  }

  lemma TouchFree(s: Ladders, t: Ladders)
    requires Ok(s) && t == s.(qty := t.qty)
    ensures FreeOk(t)
  {
  }

  lemma TouchSide(s: Ladders, t: Ladders, m: nat)
    requires Ok(s) && t == s.(qty := t.qty) && m < |s.lists|
    ensures SideOk(t, m)
  {
    Parts(s, m);
    hide Ok;
  }

  lemma TouchSlot(s: Ladders, x: nat, q: nat, y: nat)
    requires Ok(s) && x < |s.qty| && q > 0 && y < |s.price|
    ensures SlotOk(s.(qty := s.qty[x := q]), y)
  {
    SlotIs(s, y);
    hide Ok;
  }

  lemma TouchPrice(s: Ladders, k: nat, x: nat, q: nat, product: nat, r: nat)
    requires Ok(s) && IsLevel(s, k, x) && x < |s.qty| && x < |s.price|
    ensures var t := s.(qty := s.qty[x := q]);
            && (product < |t.slotOf| ==> PriceOk(t, product, r))
            && Qty(t, product, r) == if product == k / 2 && r == s.price[x] then q else Qty(s, product, r)
  {
    SlotIs(s, x);
    if product < |s.slotOf| {
      assert PriceOk(s, product, r);
      if r in s.slotOf[product] && s.slotOf[product][r] < |s.price| { SlotIs(s, s.slotOf[product][r]); }
    }
    hide Ok;
  }

  /** The capacity after growing: twice as much, or 64 more where that is larger or twice as much leaves 32 bits. */
  function Larger(n: nat): (m: nat)
    ensures m > n
  {
    if 2 * n < n + 64 || 2 * n > NULL then n + 64 else 2 * n
  }

  function Fresh(n: nat, m: nat): (r: seq<nat>)
    requires n <= m
    ensures |r| == m - n && forall i :: 0 <= i < m - n ==> r[i] == n + i
  {
    seq(m - n, i requires 0 <= i < m - n => n + i)
  }

  /** Free-list links of the new slots, the first one continuing from the old tail. */
  function FreshLinks(n: nat, m: nat, tail: nat): (r: seq<Link>)
    requires n <= m
    ensures |r| == m - n
    ensures forall i :: 0 <= i < m - n ==>
        r[i] == Link(if n + i == m - 1 then NULL else n + i + 1, if i == 0 then tail else n + i - 1)
  {
    seq(m - n, i requires 0 <= i <
        m - n => Link(if n + i == m - 1 then NULL else n + i + 1, if i == 0 then tail else n + i - 1))
  }

  function GrownLinks(q0: seq<Link>, m: nat, tail: nat): (r: seq<Link>)
    requires |q0| <= m
    ensures |r| == m
  {
    var q := q0 + FreshLinks(|q0|, m, tail);
    if tail < |q0| then SetNext(q, tail, |q0|) else q
  }

  lemma GrowChain(q0: seq<Link>, free: seq<nat>, m: nat)
    requires Chain(q0, free) && |q0| < m <= NULL
    ensures Chain(GrownLinks(q0, m, Last(free)), free + Fresh(|q0|, m))
  {
    var n, r, p := |q0|, GrownLinks(q0, m, Last(free)), free + Fresh(|q0|, m);
    if free != [] { ChainElim(q0, free, |free| - 1); }
    forall i: nat | i < |p| ensures ChainAt(r, p, i) {
      if i < |free| {
        ChainElim(q0, free, i);
        Same(free, i, |free| - 1);
      }
    }
    forall i, j | 0 <= i < j < |p| ensures p[i] != p[j] {
      if i < |free| { ChainElim(q0, free, i); }
      if j < |free| { ChainElim(q0, free, j); }
    }
    ChainIntro(r, p);
  }

  function Copies<T>(x: T, n: nat): (r: seq<T>)
    ensures |r| == n && forall i :: 0 <= i < n ==> r[i] == x
  {
    seq(n, _ => x)
  }

  function Grown(s: Ladders, m: nat): Ladders
    requires |s.price| == |s.q0| < m
  {
    var n := |s.price|;
    s.(price := s.price + Copies(0, m - n), qty := s.qty + Copies(0, m - n), q0 := GrownLinks(s.q0, m, s.freeTail),
        q1 := s.q1 + Copies(UNLINKED, m - n),
       freeHead := if s.freeTail == NULL then n else s.freeHead, freeTail := m - 1, freeCount := s.freeCount + (m - n),
       free := s.free + Fresh(n, m), owner := s.owner + Copies(Free, m - n))
  }

  lemma ExtendList(price: seq<nat>, q1: seq<Link>, k: nat, p: seq<nat>, e: Ends, price': seq<nat>, q1': seq<Link>)
    requires ListOk(price, q1, k, p, e) && price <= price' && q1 <= q1' && |q1'| == |price'| <= NULL
    ensures ListOk(price', q1', k, p, e)
  {
    forall i: nat | i < |p| ensures ChainAt(q1', p, i) && price'[p[i]] == price[p[i]] { ChainElim(q1, p, i); }
    ChainIntro(q1', p);
  }

  lemma TailSlot(s: Ladders)
    requires Ok(s)
    ensures Shape(s) && FreeOk(s) && (s.free == [] <==> s.freeTail == NULL) &&
        (s.freeTail != NULL ==> s.freeTail < |s.q0|)
  {
    if s.free != [] { ChainElim(s.q0, s.free, |s.free| - 1); }
  }

  lemma GrowFree(s: Ladders, m: nat)
    requires Ok(s) && |s.price| < m <= NULL
    ensures FreeOk(Grown(s, m)) && Shape(Grown(s, m))
  {
    hide Chain, GrownLinks, Ok;
    TailSlot(s);
    var t, n := Grown(s, m), |s.price|;
    GrowChain(s.q0, s.free, m);
    forall i | 0 <= i < |t.free| && t.free[i] < |t.owner| ensures t.owner[t.free[i]] == Free {
      if i < |s.free| { ChainElim(s.q0, s.free, i); }
    }
  }

  /** Growing the slab changes no ladder: indices stay valid and the new slots are all free. */
  lemma GrowOk(s: Ladders, m: nat)
    requires Ok(s) && |s.price| < m <= NULL
    ensures Ok(Grown(s, m)) && Grown(s, m).free != [] && forall product: nat, r: nat ::
        Qty(Grown(s, m), product, r) == Qty(s, product, r)
  {
    hide FreeOk, GrownLinks, SideOk, SlotOk, PriceOk, Qty;
    var t := Grown(s, m);
    GrowFree(s, m);
    forall k | 0 <= k < |t.lists| ensures SideOk(t, k) { GrowSide(s, m, k); }
    forall y | 0 <= y < |t.price| ensures SlotOk(t, y) { GrowSlot(s, m, y); }
    forall product: nat, r: nat ensures (product < |t.slotOf| ==> PriceOk(t, product, r)) &&
        Qty(t, product, r) == Qty(s, product, r) {
      GrowPrice(s, m, product, r);
    }
    assert t.free[|s.free|] == |s.price|;
  }

  lemma GrowPrice(s: Ladders, m: nat, product: nat, r: nat)
    requires Ok(s) && |s.price| < m <= NULL
    ensures (product < |s.slotOf| ==> PriceOk(Grown(s, m), product, r)) &&
        Qty(Grown(s, m), product, r) == Qty(s, product, r)
  {
    if product < |s.slotOf| { assert PriceOk(s, product, r); }
    hide FreeOk, GrownLinks, SideOk;
  }

  lemma GrowSide(s: Ladders, m: nat, k: nat)
    requires Ok(s) && |s.price| < m <= NULL && k < |s.lists|
    ensures SideOk(Grown(s, m), k)
  {
    hide Ok, FreeOk, GrownLinks;
    Parts(s, k);
    var t := Grown(s, m);
    ExtendList(s.price, s.q1, k, s.lists[k], s.ends[k], t.price, t.q1);
    forall i | 0 <= i < |t.lists[k]| && t.lists[k][i] < |t.owner| ensures t.owner[t.lists[k][i]] == Side(k) {
      ChainElim(s.q1, s.lists[k], i);
    }
  }

  lemma GrowSlot(s: Ladders, m: nat, y: nat)
    requires Ok(s) && |s.price| < m <= NULL && y < m
    ensures SlotOk(Grown(s, m), y)
  {
    var t, n := Grown(s, m), |s.price|;
    if y < n {
      assert SlotOk(s, y);
    } else {
      assert Fresh(n, m)[y - n] == y;
      assert t.free[|s.free| + (y - n)] == y;
    }
  }

  // -------------------------------------------------------------- the class

  class LevelBook {
    var price: seq<nat>
    var qty: seq<nat>
    var q0: seq<Link>
    var q1: seq<Link>
    var freeHead: nat
    var freeTail: nat
    var freeCount: nat
    var ends: seq<Ends>               // bids of product p at 2p, asks at 2p + 1
    var slotOf: seq<map<nat, nat>>    // per product, shared by both sides
    ghost var free: seq<nat>
    ghost var lists: seq<seq<nat>>
    ghost var owner: seq<Owner>

    ghost function View(): Ladders
      reads this
    {
      Ladders(price, qty, q0, q1, freeHead, freeTail, freeCount, ends, slotOf, free, lists, owner)
    }

    ghost predicate Valid()
      reads this
    {
      Ok(View())
    }

    constructor (products: nat, capacity: nat)
      requires 0 < capacity <= NULL
      ensures Valid() && |slotOf| == products && |price| == capacity && forall product: nat, p: nat ::
          Qty(View(), product, p) == 0 && Where(View(), product, p) == None
    {
      price, qty := Copies(0, capacity), Copies(0, capacity);
      q0 := FreshLinks(0, capacity, NULL);
      q1 := Copies(UNLINKED, capacity);
      freeHead, freeTail, freeCount := 0, capacity - 1, capacity;
      ends, slotOf := Copies(EMPTY, 2 * products), Copies(map[], products);
      free := Fresh(0, capacity);
      lists, owner := Copies([], 2 * products), Copies(Free, capacity);
      new;
      NewOk(View(), products, capacity);
    }

    /** Doubles the slab; slot indices stay what they were. */
    method Grow()
      requires Valid() && Larger(|price|) <= NULL
      modifies this
      ensures View() == Grown(old(View()), Larger(old(|price|)))
    {
      hide Ok, Copies, Fresh, FreshLinks, Qty, FreeOk, Grown, Larger, SetNext, GrownLinks, Shape, Chain, Last, First;
      ghost var s := View();
      var n, m := |price|, Larger(|price|);
      TailSlot(s);
      LinksGrow(s.q0, m, s.freeTail);
      var links, head := q0 + FreshLinks(n, m, freeTail), freeHead;
      if freeTail != NULL { links := SetNext(links, freeTail, n); } else { head := n; }
      q0, freeHead, freeTail, freeCount, free := links, head, m - 1, freeCount + (m - n), free + Fresh(n, m);
      Extend(m - n);
      GrownIs(s, View(), m);
    }

    /** Blank slots behind the ones there are. */
    method Extend(more: nat)
      modifies this`price, this`qty, this`q1, this`owner
      ensures price == old(price) + Copies(0, more) && qty == old(qty) + Copies(0, more)
      ensures q1 == old(q1) + Copies(UNLINKED, more) && owner == old(owner) + Copies(Free, more)
    {
      price, qty, q1, owner := price + Copies(0, more), qty + Copies(0, more), q1 + Copies(UNLINKED, more),
          owner + Copies(Free, more);
    }

    /** Takes the first free slot. */
    method Alloc() returns (x: nat)
      requires Valid() && free != []
      modifies this`q0, this`q1, this`price, this`qty, this`freeHead, this`freeTail, this`freeCount, this`free
      ensures x == old(freeHead) && x < |old(price)| && x < |old(qty)| && x < |old(q0)| && x < |old(q1)| &&
          free == old(free)[1..]
      ensures price == old(price)[x := 0] && qty == old(qty)[x := 0] && q0 == Unlink(old(q0), x) &&
          q1 == old(q1)[x := UNLINKED]
      ensures freeHead == old(q0)[x].next && freeTail == (if old(q0)[x].next == NULL then NULL else old(freeTail)) &&
          freeCount == old(freeCount) - 1
    {
      FirstFree(View());
      PopIsUnlink(q0, freeHead);
      hide Ok, Unlink;
      x := freeHead;
      freeHead := q0[x].next;
      if freeHead != NULL {
        q0 := SetPrev(q0, freeHead, NULL);
      } else {
        freeTail := NULL;
      }
      q0, q1 := q0[x := UNLINKED], q1[x := UNLINKED];
      price, qty, freeCount := price[x := 0], qty[x := 0], freeCount - 1;
      free := free[1..];
    }

    /** Opens a level in the slot at the head of the free list. */
    method Open(k: nat, p: nat, q: nat)
      requires Valid() && free != [] && k < |lists| && p !in slotOf[k / 2] && q > 0
      modifies this
      ensures View() == Opened(old(View()), k, p, q)
    {
      hide Ok, Unlink, Opened, LinkAt, Linked, Place, Behind, ListOk;
      ghost var s := View();
      OpenReady(s, k, p, q);
      var x := Alloc();
      price, qty := price[x := p], qty[x := q];
      assert price == s.price[x := p] && qty == s.qty[x := q];
      slotOf := slotOf[k / 2 := Record(slotOf[k / 2], p, x)];
      var after := FindInsertPos(price, q1, k, B.KeyIsBid(k), lists[k], ends[k], p);
      ghost var list := Insert(lists[k], Place(price, k, lists[k], B.Rank(k, p)), x);
      LinkLevel(k, x, after, list);
    }

    /** Links a slot into a side behind `after`. */
    method LinkLevel(k: nat, x: nat, after: nat, ghost list: seq<nat>)
      requires x < |q1| && (after == NULL || after < |q1|) && k < |ends| && k < |lists| && x < |owner|
      modifies this`q1, this`ends, this`lists, this`owner
      ensures q1 == LinkAt(old(q1), old(ends)[k].head, x, after) &&
          ends == old(ends)[k := Linked(old(ends)[k], old(q1), x, after)]
      ensures lists == old(lists)[k := list] && owner == old(owner)[x := Side(k)]
    {
      hide LinkAt, Linked;
      var e := ends[k];
      q1, ends := LinkAt(q1, e.head, x, after), ends[k := Linked(e, q1, x, after)];
      lists, owner := lists[k := list], owner[x := Side(k)];
    }

    /** Puts a slot in front of the free list. */
    method Release(x: nat)
      requires x < |q0| <= NULL && (freeHead == NULL || freeHead < |q0|)
      modifies this`q0, this`freeHead, this`freeTail, this`freeCount, this`free
      ensures q0 == LinkFirst(old(q0), old(freeHead), x) &&
          freeTail == (if old(freeHead) == NULL then x else old(freeTail))
      ensures freeHead == x && freeCount == old(freeCount) + 1 && free == [x] + old(free)
    {
      var q := q0[x := Link(freeHead, NULL)];
      if freeHead != NULL { q := SetPrev(q, freeHead, x); } else { freeTail := x; }
      q0, freeHead, freeCount, free := q, x, freeCount + 1, [x] + free;
    }

    /** Unlinks a level as one of side `k` and returns its slot; it is a level of side `m` of the same product. */
    method Close(k: nat, x: nat, ghost m: nat)
      requires Valid() && IsLevel(View(), m, x) && k < |ends| && k / 2 == m / 2
      modifies this
      ensures k == m ==> View() == Closed(old(View()), k, x)
      ensures k != m ==> Misplaced(old(View()), View(), m, x)
    {
      hide Ok, Closed, LinkFirst, Unlink, Unlinked, Removed, Erase, IsLevel;
      ghost var s := View();
      CloseReady(s, m, x);
      q1, ends, slotOf := Unlink(q1, x), ends[k := Unlinked(ends[k], q1, x)],
          slotOf[k / 2 := Erase(slotOf[k / 2], price[x])];
      lists, owner := lists[k := Removed(lists[k], x)], owner[x := Free];
      Release(x);
    }

    /** Makes sure that a slot is free. */
    method Reserve() returns (ok: bool)
      requires Valid()
      modifies this
      ensures Valid() && slotOf == old(slotOf) && |lists| == |old(lists)| &&
          ok == (old(freeCount) > 0 || Larger(old(|price|)) <= NULL) && (ok ==> free != [])
      ensures forall i: nat, r: nat :: Qty(View(), i, r) == Qty(old(View()), i, r)
      ensures forall i: nat, r: nat :: Where(View(), i, r) == Where(old(View()), i, r)
    {
      hide Ok, Qty, Where, Larger;
      ghost var s := View();
      FullWhen(s);
      if freeCount > 0 { return true; }
      if Larger(|price|) > NULL { return false; }
      Grow();
      GrowWhere(s, Larger(|s.price|));
      GrowOk(s, Larger(|s.price|));
      return true;
    }

    /** Adds to the quantity at a price, opening a level where there is none; refuses to overflow 64 bits. */
    method AddQty(product: nat, p: nat, q: nat, bid: bool) returns (ok: bool)
      requires Valid() && product < |slotOf|
      modifies this
      ensures Valid() && |slotOf| == |old(slotOf)|
      ensures ok == HasRoom(old(View()), product, p, q)
      ensures forall i: nat, r: nat :: Qty(View(), i, r) == Qty(old(View()), i, r) + if ok && i == product && r == p
          then q else 0
      ensures forall i: nat, r: nat :: Where(View(), i, r) == if ok then Placed(old(View()), i, r, product, p, q, bid)
          else Where(old(View()), i, r)
    {
      hide Ok, Qty, Where, Larger, IsLevel;
      if q == 0 { return true; }
      ghost var s := View();
      PriceIs(s, product, p);
      if p in slotOf[product] {
        var x := slotOf[product][p];
        if UINT64_MAX - qty[x] < q { return false; }
        TouchOk(s, owner[x].k, x, qty[x] + q);
        TouchWhere(s, x, qty[x] + q);
        qty := qty[x := qty[x] + q];
        return true;
      }
      ok := Reserve();
      if !ok { return; }
      ghost var t := View();
      OpenOk(t, B.Key(product, bid), p, q);
      OpenWhere(t, B.Key(product, bid), p, q);
      Open(B.Key(product, bid), p, q);
    }

    /**
     Takes from the quantity at a price; a level left with nothing disappears. The map of a product is
     shared by its sides: when the level to disappear is on the other side than the one named, every
     price still shows the right quantity, but the links, heads and counts are no ladders any more.
     */
    method SubQty(product: nat, p: nat, q: nat, bid: bool)
      requires Valid() && product < |slotOf|
      modifies this
      ensures |slotOf| == |old(slotOf)| && |price| == |old(price)|
      ensures forall i: nat, r: nat ::
                Qty(View(), i, r) == if i != product || r != p then Qty(old(View()), i, r)
                    else if q >= Qty(old(View()), i, r) then 0 else Qty(old(View()), i, r) - q
      ensures !Astray(old(View()), product, p, q, bid) ==> Valid()
      ensures !Astray(old(View()), product, p, q, bid) ==> forall i: nat, r: nat ::
                Where(View(), i, r) == if q > 0 && i == product && r == p && q >= Qty(old(View()), i, r) then None
                    else Where(old(View()), i, r)
      ensures Astray(old(View()), product, p, q, bid) ==> forall t: Ladders :: SameMemory(t, View()) ==> !Ok(t)
    {
      hide Ok, Qty, Where, IsLevel, SameMemory, Misplaced;
      if q == 0 { return; }
      ghost var s := View();
      PriceIs(s, product, p);
      if p !in slotOf[product] { return; }
      var x := slotOf[product][p];
      if q >= qty[x] {
        CloseOk(s, owner[x].k, x);
        CloseWhere(s, owner[x].k, x);
        MisplacedQty(s, owner[x].k, x);
        Close(B.Key(product, bid), x, owner[x].k);
      } else {
        TouchOk(s, owner[x].k, x, qty[x] - q);
        TouchWhere(s, x, qty[x] - q);
        qty := qty[x := qty[x] - q];
      }
    }
  }

  /** More can be shown at the price: the quantity fits 64 bits, or a slot can be had for a new level. */
  predicate HasRoom(s: Ladders, product: nat, p: nat, q: nat) {
    product < |s.slotOf| &&
    (q == 0 || if p in s.slotOf[product] then Qty(s, product, p) + q <= UINT64_MAX
               else s.freeCount > 0 || Larger(|s.price|) <= NULL)
  }

  // ------------------------------------------------- a level on the other side

  /** A level used up, on the other side than the one named. */
  predicate Astray(s: Ladders, product: nat, p: nat, q: nat, bid: bool) {
    q > 0 && product < |s.slotOf| &&
        p in s.slotOf[product] && q >= Qty(s, product, p) && Where(s, product, p) != Some(B.Key(product, bid))
  }

  /** What the program stores is the same, whatever lists it is thought to spell out. */
  predicate SameMemory(s: Ladders, t: Ladders) {
    s == t.(free := s.free, lists := s.lists, owner := s.owner)
  }

  /** `t` is `s` with level `x` of side `m` unlinked and freed, the ends of that side being left alone. */
  ghost predicate Misplaced(s: Ladders, t: Ladders, m: nat, x: nat) {
    && x < |s.q1| && x < |s.price| && m / 2 < |s.slotOf| && m < |s.ends| == |t.ends|
    && t.q1 == Unlink(s.q1, x) && t.ends[m] == s.ends[m] && t.price == s.price && t.qty == s.qty && t.freeHead == x
    && t.slotOf == s.slotOf[m / 2 := Erase(s.slotOf[m / 2], s.price[x])]
  }

  lemma SameChain(q: seq<Link>, p: seq<nat>, r: seq<nat>)
    requires Chain(q, p) && Chain(q, r) && First(p) == First(r)
    ensures p == r
  {
    hide Chain;
    assert p[0..] == p && r[0..] == r;
    SameFrom(q, p, r, 0);
  }

  function Or(p: seq<nat>, i: nat): nat { if i < |p| then p[i] else NULL }

  lemma {:induction false} SameFrom(q: seq<Link>, p: seq<nat>, r: seq<nat>, i: nat)
    requires Chain(q, p) && Chain(q, r) && i <= |p| && i <= |r| && Or(p, i) == Or(r, i)
    ensures p[i..] == r[i..] && |p| == |r|
    decreases |p| - i
  {
    if i < |p| { ChainElim(q, p, i); }
    if i < |r| { ChainElim(q, r, i); }
    hide Chain;
    if i < |p| {
      SameFrom(q, p, r, i + 1);
      assert p[i..] == [p[i]] + p[i + 1..] && r[i..] == [r[i]] + r[i + 1..];
    }
  }

  /** A list cannot have lost a member and kept its ends. */
  lemma NoLadder(s: Ladders, t: Ladders, m: nat, x: nat)
    requires Ok(s) && IsLevel(s, m, x) && Misplaced(s, t, m, x)
    ensures !Ok(t)
  {
    if Ok(t) {
      var n := LevelFacts(s, m, x);
      assert SideOk(s, m) && SideOk(t, m) && FreeOk(t);
      if n == 0 { HeadTwice(t, m); } else { ShorterList(s, t, m, n); }
      assert false;
    }
  }

  /** The first level of a side is not the first free slot. */
  lemma HeadTwice(t: Ladders, m: nat)
    requires Shape(t) && SideOk(t, m) && FreeOk(t) && t.ends[m].count > 0
    ensures t.ends[m].head != t.freeHead
  {
    hide Sorted;
    if t.free != [] { assert t.free[0] < |t.owner| && t.owner[t.free[0]] == Free; }
    assert t.lists[m][0] < |t.owner| && t.owner[t.lists[m][0]] == Side(m);
  }

  lemma ShorterList(s: Ladders, t: Ladders, m: nat, n: nat)
    requires SideOk(s, m) && 0 < n < |s.lists[m]| && Misplaced(s, t, m, s.lists[m][n])
    ensures !SideOk(t, m)
  {
    if SideOk(t, m) {
      var list, other := s.lists[m], t.lists[m];
      assert Chain(s.q1, list) && Chain(t.q1, other);
      hide Unlink, Chain, Sorted;
      ChainUnlink(s.q1, list, n);
      assert First(Delete(list, n)) == list[0];
      SameChain(t.q1, other, Delete(list, n));
    }
  }

  lemma MisplacedQty(s: Ladders, m: nat, x: nat)
    requires Ok(s) && IsLevel(s, m, x) && x < |s.price|
    ensures forall t: Ladders, i: nat, r: nat :: Misplaced(s, t, m, x) ==>
              |t.slotOf| == |s.slotOf| && |t.price| == |s.price| && Qty(t, i, r) == if i == m / 2 &&
                  r == s.price[x] then 0 else Qty(s, i, r)
    ensures forall t: Ladders, u: Ladders :: Misplaced(s, t, m, x) && SameMemory(u, t) ==> !Ok(u)
  {
    hide Ok, Qty;
    forall t: Ladders, i: nat, r: nat | Misplaced(s, t, m, x)
        ensures Qty(t, i, r) == if i == m / 2 && r == s.price[x] then 0 else Qty(s, i, r) {
      ErasedQty(s, t, m, x, i, r);
    }
    forall t: Ladders, u: Ladders | Misplaced(s, t, m, x) && SameMemory(u, t) ensures !Ok(u) { NoLadder(s, u, m, x); }
  }

  lemma ErasedQty(s: Ladders, t: Ladders, m: nat, x: nat, i: nat, r: nat)
    requires Ok(s) && IsLevel(s, m, x) && Misplaced(s, t, m, x)
    ensures Qty(t, i, r) == if i == m / 2 && r == s.price[x] then 0 else Qty(s, i, r)
  {
    LevelThere(s, m, x);
    hide Ok;
  }

  /** A bid and an ask shown at one price, then both taken away: the ladders are broken though nothing is shown. */
  method BothSides() returns (book: LevelBook)
    ensures fresh(book) && |book.slotOf| == 1 && forall i: nat, p: nat :: Qty(book.View(), i, p) == 0
    ensures forall t: Ladders :: SameMemory(t, book.View()) ==> !Ok(t)
  {
    hide Ok, SameMemory;
    book := new LevelBook(1, 64);
    var ok := book.AddQty(0, 100, 10, true);
    ok := book.AddQty(0, 100, 5, false);
    book.SubQty(0, 100, 10, true);
    book.SubQty(0, 100, 5, false);
  }

  /** The side a price is shown on. */
  function Where(s: Ladders, product: nat, p: nat): Option<nat> {
    if product < |s.slotOf| &&
        p in s.slotOf[product] && s.slotOf[product][p] < |s.owner| && s.owner[s.slotOf[product][p]].Side?
    then Some(s.owner[s.slotOf[product][p]].k) else None
  }

  function Placed(s: Ladders, i: nat, r: nat, product: nat, p: nat, q: nat, bid: bool): Option<nat> {
    if i == product && r == p && q > 0 && i < |s.slotOf| && r !in s.slotOf[i] then Some(B.Key(product, bid))
        else Where(s, i, r)
  }

  lemma PriceIs(s: Ladders, product: nat, p: nat)
    requires Ok(s) && product < |s.slotOf|
    ensures Shape(s) && Qty(s, product, p) ==
        (if p in s.slotOf[product] && s.slotOf[product][p] < |s.qty| then s.qty[s.slotOf[product][p]] else 0)
    ensures p in s.slotOf[product] ==>
              var x := s.slotOf[product][p];
              && x < |s.qty| && x < |s.price| && s.price[x] == p && x < |s.owner| && s.owner[x].Side? &&
                 s.owner[x].k / 2 == product
              && IsLevel(s, s.owner[x].k, x) && s.qty[x] > 0 && Where(s, product, p) == Some(s.owner[x].k)
    ensures p !in s.slotOf[product] ==> Where(s, product, p) == None
    ensures forall bid: bool :: B.Key(product, bid) / 2 == product && B.Key(product, bid) < |s.lists|
  {
    assert PriceOk(s, product, p);
    if p in s.slotOf[product] { assert SlotOk(s, s.slotOf[product][p]); }
  }

  lemma TouchWhere(s: Ladders, x: nat, q: nat)
    requires x < |s.qty|
    ensures forall i: nat, r: nat :: Where(s.(qty := s.qty[x := q]), i, r) == Where(s, i, r)
  {
  }

  lemma FullWhen(s: Ladders)
    requires Ok(s)
    ensures s.freeCount == 0 <==> s.free == []
  {
  }

  lemma GrowWhere(s: Ladders, m: nat)
    requires Ok(s) && |s.price| < m
    ensures |s.q0| == |s.price| && forall i: nat, r: nat :: Where(Grown(s, m), i, r) == Where(s, i, r)
  {
    forall i: nat, r: nat ensures Where(Grown(s, m), i, r) == Where(s, i, r) {
      if i < |s.slotOf| { assert PriceOk(s, i, r); }
    }
  }

  lemma OpenWhere(s: Ladders, k: nat, p: nat, q: nat)
    requires Ok(s) && k < |s.lists| && s.free != [] && p !in s.slotOf[k / 2]
    ensures |Opened(s, k, p, q).slotOf| == |s.slotOf|
    ensures forall i: nat, r: nat :: Where(Opened(s, k, p, q), i, r) == if i == k / 2 && r == p then Some(k)
        else Where(s, i, r)
  {
    hide Opened, ListOk, OnlyAt, FreeOk, SideOk;
    OpenFields(s, k, p, q);
    forall i: nat, r: nat ensures Where(Opened(s, k, p, q), i, r) == if i == k / 2 &&
        r == p then Some(k) else Where(s, i, r) {
      if i < |s.slotOf| { assert PriceOk(s, i, r); }
    }
  }

  lemma CloseWhere(s: Ladders, k: nat, x: nat)
    requires Ok(s) && IsLevel(s, k, x)
    ensures |Closed(s, k, x).slotOf| == |s.slotOf| && |Closed(s, k, x).price| == |s.price| && x < |s.price|
    ensures forall i: nat, r: nat :: Where(Closed(s, k, x), i, r) == if i == k / 2 && r == s.price[x] then None
        else Where(s, i, r)
  {
    hide Closed, ListOk, OnlyAt, FreeOk, SideOk;
    CloseFields(s, k, x);
    forall i: nat, r: nat ensures Where(Closed(s, k, x), i, r) == if i == k / 2 && r == s.price[x] then None
        else Where(s, i, r) {
      if i < |s.slotOf| { assert PriceOk(s, i, r); }
    }
  }

  lemma CloseReady(s: Ladders, k: nat, x: nat)
    requires Ok(s) && IsLevel(s, k, x)
    ensures Shape(s) && x < |s.price| && k / 2 < |s.slotOf| && (s.freeHead == NULL || s.freeHead < |s.q0|)
    ensures Closed(s, k, x)
            == s.(q1 := Unlink(s.q1, x), ends := s.ends[k := Unlinked(s.ends[k], s.q1, x)], slotOf :=
                s.slotOf[k / 2 := Erase(s.slotOf[k / 2], s.price[x])],
                  q0 := LinkFirst(s.q0, s.freeHead, x), freeHead := x, freeTail := if s.freeHead == NULL then x
                      else s.freeTail, freeCount := s.freeCount + 1,
                  free := [x] + s.free, lists := s.lists[k := Removed(s.lists[k], x)], owner := s.owner[x := Free])
  {
    LevelThere(s, k, x);
    if s.free != [] { ChainElim(s.q0, s.free, 0); }
  }

  lemma FirstFree(s: Ladders)
    requires Ok(s) && s.free != []
    ensures Shape(s) && s.freeHead == s.free[0] && s.freeHead < |s.q0| && s.freeHead != NULL && s.freeCount > 0
    ensures s.q0[s.freeHead].prev == NULL && (s.q0[s.freeHead].next == NULL || s.q0[s.freeHead].next < |s.q0|) &&
        s.q0[s.freeHead].next != s.freeHead
  {
    ChainElim(s.q0, s.free, 0);
    if |s.free| > 1 { ChainElim(s.q0, s.free, 1); Same(s.free, 0, 1); }
  }

  lemma PopIsUnlink(q0: seq<Link>, x: nat)
    requires x < |q0| <= NULL && q0[x].prev == NULL && (q0[x].next == NULL || q0[x].next < |q0|) && q0[x].next != x
    ensures (if q0[x].next != NULL then SetPrev(q0, q0[x].next, NULL) else q0)[x := UNLINKED] == Unlink(q0, x)
  {
  }

  lemma OpenReady(s: Ladders, k: nat, p: nat, q: nat)
    requires Ok(s) && s.free != [] && k < |s.lists| && p !in s.slotOf[k / 2]
    ensures var x := s.freeHead;
            && Shape(s) && x < |s.price|
            && var price, q1, list := s.price[x := p], s.q1[x := UNLINKED], s.lists[k];
               && ListOk(price, q1, k, list, s.ends[k]) &&
                  (forall i :: 0 <= i < |list| ==> list[i] < |price| && price[list[i]] != p)
               && var n, after := Place(price, k, list, B.Rank(k, p)), Behind(price, k, list, p);
                  && (after == NULL || after < |q1|)
                  && Opened(s, k, p, q)
                     == s.(price := price, qty := s.qty[x := q], q0 := Unlink(s.q0, x), q1 :=
                         LinkAt(q1, s.ends[k].head, x, after),
                           freeHead := s.q0[x].next, freeTail := if s.q0[x].next == NULL then NULL else s.freeTail,
                               freeCount := s.freeCount - 1,
                           ends := s.ends[k := Linked(s.ends[k], q1, x, after)],
                               slotOf := s.slotOf[k / 2 := Record(s.slotOf[k / 2], p, x)],
                           free := s.free[1..], lists := s.lists[k := Insert(list, n, x)],
                               owner := s.owner[x := Side(k)])
  {
    FreeSlot(s, k);
    OpenList(s, k, p);
    LinkOk(s.price[s.freeHead := p], s.q1[s.freeHead := UNLINKED], k, s.lists[k], s.ends[k], s.freeHead);
    hide ListOk, OnlyAt, LinkAt, Linked, Unlink, Ok;
  }

  lemma LinksGrow(q0: seq<Link>, m: nat, tail: nat)
    requires |q0| < m && (tail == NULL || tail < |q0|) && |q0| <= NULL
    ensures |q0 + FreshLinks(|q0|, m, tail)| == m
    ensures GrownLinks(q0, m, tail) == if tail == NULL then q0 + FreshLinks(|q0|, m, tail)
        else SetNext(q0 + FreshLinks(|q0|, m, tail), tail, |q0|)
  {
  }

  lemma GrownIs(s: Ladders, t: Ladders, m: nat)
    requires |s.price| == |s.q0| < m
    requires t.price == s.price + Copies(0, m - |s.price|) && t.qty == s.qty + Copies(0, m - |s.price|) &&
        t.q1 == s.q1 + Copies(UNLINKED, m - |s.price|)
    requires t.q0 == GrownLinks(s.q0, m, s.freeTail) &&
        t.freeHead == (if s.freeTail == NULL then |s.price| else s.freeHead)
    requires t.freeTail == m - 1 && t.freeCount == s.freeCount + (m - |s.price|) && t.ends == s.ends &&
        t.slotOf == s.slotOf && t.lists == s.lists
    requires t.free == s.free + Fresh(|s.price|, m) && t.owner == s.owner + Copies(Free, m - |s.price|)
    ensures t == Grown(s, m)
  {
  }

  lemma NewOk(s: Ladders, products: nat, capacity: nat)
    requires 0 < capacity <= NULL
    requires |s.price| == |s.qty| == |s.q1| == |s.owner| == capacity && s.q0 == FreshLinks(0, capacity, NULL)
    requires s.freeHead == 0 && s.freeTail == capacity - 1 && s.freeCount == capacity && s.free == Fresh(0, capacity)
    requires |s.ends| == |s.lists| == 2 * products && |s.slotOf| == products
    requires forall k :: 0 <= k < 2 * products ==> s.ends[k] == EMPTY && s.lists[k] == []
    requires (forall i :: 0 <= i < products ==> s.slotOf[i] == map[]) && forall x :: 0 <= x < capacity ==>
        s.owner[x] == Free
    ensures Ok(s) && forall product: nat, p: nat :: Qty(s, product, p) == 0
  {
    hide FreshLinks, Fresh, ListOk, Chain;
    FreshChain(capacity);
    forall k | 0 <= k < |s.lists| ensures SideOk(s, k) { EmptyList(s.price, s.q1, k); }
    forall x | 0 <= x < capacity ensures SlotOk(s, x) { assert s.free[x] == x; }
  }

  lemma FreshChain(capacity: nat)
    requires 0 < capacity <= NULL
    ensures Chain(FreshLinks(0, capacity, NULL), Fresh(0, capacity)) && First(Fresh(0, capacity)) == 0 &&
        Last(Fresh(0, capacity)) == capacity - 1
  {
    forall i: nat | i < capacity ensures ChainAt(FreshLinks(0, capacity, NULL), Fresh(0, capacity), i) { }
    ChainIntro(FreshLinks(0, capacity, NULL), Fresh(0, capacity));
  }

  lemma EmptyList(price: seq<nat>, q1: seq<Link>, k: nat)
    requires |q1| == |price| <= NULL
    ensures ListOk(price, q1, k, [], EMPTY)
  {
  }
}
