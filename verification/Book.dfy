/**
 The order book as a value: the order map and, for every product and side, the
 price levels with their FIFO queues. The classes in OrderBook.dfy and Engine.dfy
 are proved against the operations defined here.
 */
module Book {

  import opened Common

  /** The mandatory fields of a slab slot. */
  datatype Order = Order(id: nat, price: nat, volume: nat, remain: nat, org: nat, flags: Flags)

  /** What the order map holds for an id: its product and the order itself. */
  datatype Entry = Entry(product: nat, order: Order)

  /**
   `ladder[Key(p, bid)]` lists the levels of product `p`, best price first; a level is the
   FIFO queue of the ids resting at one price. Deactivated orders are in `entries` only.
   */
  datatype Book = Book(entries: map<nat, Entry>, ladder: seq<seq<seq<nat>>>)

  /** The write-ahead log records that carry book state. */
  datatype Record =
    | RInsert(product: nat, order: Order)
    | RCancel(id: nat)
    | RMatch(maker: nat, taker: nat, price: nat, volume: nat, product: nat)
    | RDeactivate(id: nat)
    | RActivate(id: nat)

  // ------------------------------------------------------------------ flags

  /** The fields packed into a slot's 16 flag bits; `spare` is bits 8 to 15. */
  datatype Flags = Flags(bid: bool, kind: nat, status: nat, spare: nat)

  const STATUS_NEW: nat := 0
  const STATUS_DEACTIVATED: nat := 5

  predicate IsBid(flags: Flags) { flags.bid }

  predicate Parked(flags: Flags) { flags.status == STATUS_DEACTIVATED }

  function SetStatus(flags: Flags, status: nat): Flags { flags.(status := status) }

  // ------------------------------------------------------- sides and levels

  function Key(product: nat, bid: bool): (k: nat)
  {
    2 * product + (if bid then 0 else 1)
  }

  predicate KeyIsBid(k: nat) { k % 2 == 0 }

  function KeyOf(en: Entry): nat { Key(en.product, IsBid(en.order.flags)) }

  /** Bids are ranked high price first, asks low price first. */
  function Rank(k: nat, price: nat): int { if KeyIsBid(k) then 0 - price else price }

  /** The ids are distinct resting orders of side `k` at `price`. */
  ghost predicate Members(e: map<nat, Entry>, k: nat, price: nat, ids: seq<nat>) {
    && (forall j :: 0 <= j < |ids| ==>
          ids[j] in e && KeyOf(e[ids[j]]) == k && e[ids[j]].order.price == price && !Parked(e[ids[j]].order.flags))
    && Distinct(ids)
  }

  function LevelPrice(e: map<nat, Entry>, level: seq<nat>): nat {
    if level != [] && level[0] in e then e[level[0]].order.price else 0
  }

  ghost predicate LevelOk(e: map<nat, Entry>, k: nat, level: seq<nat>) {
    level != [] && Members(e, k, LevelPrice(e, level), level)
  }

  ghost predicate SideOk(e: map<nat, Entry>, k: nat, levels: seq<seq<nat>>) {
    && (forall i :: 0 <= i < |levels| ==> LevelOk(e, k, levels[i]))
    && (forall i, j :: 0 <= i < j < |levels| ==>
          Rank(k, LevelPrice(e, levels[i])) < Rank(k, LevelPrice(e, levels[j])))
  }

  predicate OnSide(levels: seq<seq<nat>>, id: nat) {
    exists i :: 0 <= i < |levels| && id in levels[i]
  }

  predicate Linked(b: Book, id: nat)
  {
    id in b.entries && KeyOf(b.entries[id]) < |b.ladder| && OnSide(b.ladder[KeyOf(b.entries[id])], id)
  }

  ghost predicate EntriesOk(b: Book) {
    forall id :: id in b.entries ==>
      && id != 0 && b.entries[id].order.id == id
      && KeyOf(b.entries[id]) < |b.ladder|
      && (Linked(b, id) <==> !Parked(b.entries[id].order.flags))
  }

  /** Every side is price-sorted with FIFO levels, and exactly the active orders rest on a side. */
  ghost predicate Wf(b: Book) {
    && |b.ladder| % 2 == 0
    && EntriesOk(b)
    && (forall k :: 0 <= k < |b.ladder| ==> SideOk(b.entries, k, b.ladder[k]))
  }

  /** No order in the book has used up its volume. */
  ghost predicate AllPositive(e: map<nat, Entry>) {
    forall id :: id in e ==> e[id].order.remain > 0
  }

  function EmptyBook(products: nat): (b: Book)
    ensures Wf(b) && AllPositive(b.entries)
  {
    Book(map[], seq(2 * products, _ => []))
  }

  // ------------------------------------------------- operations on one side

  /** Put a level in front, unless it has become empty. */
  function Glue<T>(level: seq<T>, rest: seq<seq<T>>): seq<seq<T>> {
    if level == [] then rest else [level] + rest
  }

  function Without(ids: seq<nat>, id: nat): (r: seq<nat>)
    ensures forall x :: x in r ==> x in ids
  {
    if ids == [] then []
    else if ids[0] == id then ids[1..]
    else [ids[0]] + Without(ids[1..], id)
  }

  function RemoveId(levels: seq<seq<nat>>, id: nat): seq<seq<nat>> {
    if levels == [] then []
    else if id in levels[0] then Glue(Without(levels[0], id), levels[1..])
    else [levels[0]] + RemoveId(levels[1..], id)
  }

  /** The number of levels strictly better than rank `r` at the front of `levels`. */
  function Better(e: map<nat, Entry>, k: nat, levels: seq<seq<nat>>, r: int): (n: nat)
    ensures n <= |levels|
    ensures forall i :: 0 <= i < n ==> Rank(k, LevelPrice(e, levels[i])) < r
    ensures n < |levels| ==> Rank(k, LevelPrice(e, levels[n])) >= r
  {
    if levels == [] || Rank(k, LevelPrice(e, levels[0])) >= r then 0
    else 1 + Better(e, k, levels[1..], r)
  }

  /** Append to the FIFO at its price, or open a new level at the sorted position. */
  function PlaceAt<T>(levels: seq<seq<T>>, n: nat, exists_: bool, x: T): seq<seq<T>>
    requires n <= |levels| && (exists_ ==> n < |levels|)
  {
    if exists_ then levels[n := levels[n] + [x]] else levels[..n] + [[x]] + levels[n..]
  }

  predicate LevelExists(e: map<nat, Entry>, k: nat, levels: seq<seq<nat>>, price: nat) {
    var n := Better(e, k, levels, Rank(k, price));
    n < |levels| && Rank(k, LevelPrice(e, levels[n])) == Rank(k, price)
  }

  function PlaceId(e: map<nat, Entry>, k: nat, levels: seq<seq<nat>>, price: nat, id: nat): seq<seq<nat>> {
    PlaceAt(levels, Better(e, k, levels, Rank(k, price)), LevelExists(e, k, levels, price), id)
  }

  // ----------------------------------------------- operations on the book

  function Insert(b: Book, product: nat, o: Order): Book
    requires Key(product, IsBid(o.flags)) < |b.ladder|
  {
    var k := Key(product, IsBid(o.flags));
    Book(b.entries[o.id := Entry(product, o)],
         b.ladder[k := PlaceId(b.entries, k, b.ladder[k], o.price, o.id)])
  }

  /** Unlink from the ladder only. */
  function Unlink(b: Book, id: nat): Book
    requires id in b.entries && KeyOf(b.entries[id]) < |b.ladder|
  {
    var k := KeyOf(b.entries[id]);
    b.(ladder := b.ladder[k := RemoveId(b.ladder[k], id)])
  }

  function Remove(b: Book, id: nat): Book
    requires id in b.entries && KeyOf(b.entries[id]) < |b.ladder|
  {
    Book(b.entries - {id}, Unlink(b, id).ladder)
  }

  function SetRemain(e: map<nat, Entry>, id: nat, remain: nat): map<nat, Entry>
    requires id in e
  {
    e[id := e[id].(order := e[id].order.(remain := remain))]
  }

  function SetFlags(e: map<nat, Entry>, id: nat, flags: Flags): map<nat, Entry>
    requires id in e
  {
    e[id := e[id].(order := e[id].order.(flags := flags))]
  }

  function Deactivate(b: Book, id: nat): Book
    requires id in b.entries && KeyOf(b.entries[id]) < |b.ladder|
  {
    Book(SetFlags(b.entries, id, SetStatus(b.entries[id].order.flags, STATUS_DEACTIVATED)), Unlink(b, id).ladder)
  }

  /** A fill of `q`: the remaining volume drops, and a fully filled order leaves the book. */
  function Fill(b: Book, id: nat, q: nat): Book
    requires id in b.entries && KeyOf(b.entries[id]) < |b.ladder|
    requires q <= b.entries[id].order.remain
  {
    if q == b.entries[id].order.remain then Remove(b, id)
    else b.(entries := SetRemain(b.entries, id, b.entries[id].order.remain - q))
  }

  function LevelVolume(e: map<nat, Entry>, ids: seq<nat>): nat {
    if ids == [] then 0
    else LevelVolume(e, ids[..|ids| - 1]) + (if ids[|ids| - 1] in e then e[ids[|ids| - 1]].order.remain else 0)
  }

  lemma LevelVolumeNext(e: map<nat, Entry>, ids: seq<nat>, j: nat)
    requires j < |ids| && ids[j] in e
    ensures LevelVolume(e, ids[..j + 1]) == LevelVolume(e, ids[..j]) + e[ids[j]].order.remain
  {
    assert ids[..j + 1][..j] == ids[..j];
  }

  /** The total remaining volume at one price of a side. */
  function VolumeAt(b: Book, k: nat, price: nat): nat
    requires k < |b.ladder|
  {
    if LevelExists(b.entries, k, b.ladder[k], price)
    then LevelVolume(b.entries, b.ladder[k][Better(b.entries, k, b.ladder[k], Rank(k, price))]) else 0
  }

  // -------------------------------------------------------- lemmas: one side

  lemma LevelsDisjoint(e: map<nat, Entry>, k: nat, levels: seq<seq<nat>>, i: nat, j: nat, id: nat)
    requires SideOk(e, k, levels) && i < |levels| && j < |levels|
    ensures id in levels[i] && id in levels[j] ==> i == j
  {
    assert LevelOk(e, k, levels[i]) && LevelOk(e, k, levels[j]);
    assert id in levels[i] ==> LevelPrice(e, levels[i]) == e[id].order.price;
    assert id in levels[j] ==> LevelPrice(e, levels[j]) == e[id].order.price;
  }

  lemma {:induction false} WithoutAt(a: seq<nat>, id: nat, c: seq<nat>)
    requires id !in a
    ensures Without(a + [id] + c, id) == a + c
  {
    var s := a + [id] + c;
    if a == [] {
      assert s[1..] == c;
    } else {
      assert s[0] == a[0];
      assert s[1..] == a[1..] + [id] + c;
      WithoutAt(a[1..], id, c);
    }
  }

  lemma {:induction false} RemoveIdAt(pre: seq<seq<nat>>, a: seq<nat>, id: nat, c: seq<nat>, post: seq<seq<nat>>)
    requires !OnSide(pre, id) && id !in a
    ensures RemoveId(pre + [a + [id] + c] + post, id) == pre + Glue(a + c, post)
  {
    var levels := pre + [a + [id] + c] + post;
    if pre == [] {
      assert (a + [id] + c)[|a|] == id;
      WithoutAt(a, id, c);
      assert levels[1..] == post;
    } else {
      assert levels[0] == pre[0];
      assert id !in pre[0];
      assert levels[1..] == pre[1..] + [a + [id] + c] + post;
      forall i | 0 <= i < |pre[1..]| ensures id !in pre[1..][i] { assert pre[1..][i] == pre[i + 1]; }
      RemoveIdAt(pre[1..], a, id, c, post);
    }
  }

  /** Where an id rests, its side splits uniquely around it. */
  lemma Split(e: map<nat, Entry>, k: nat, levels: seq<seq<nat>>, id: nat)
    returns (pre: seq<seq<nat>>, a: seq<nat>, c: seq<nat>, post: seq<seq<nat>>)
    requires SideOk(e, k, levels) && OnSide(levels, id)
    ensures levels == pre + [a + [id] + c] + post
    ensures !OnSide(pre, id) && !OnSide(post, id) && id !in a && id !in c
  {
    var i :| 0 <= i < |levels| && id in levels[i];
    var j :| 0 <= j < |levels[i]| && levels[i][j] == id;
    pre, post := levels[..i], levels[i + 1..];
    a, c := levels[i][..j], levels[i][j + 1..];
    assert LevelOk(e, k, levels[i]);
    forall x | 0 <= x < |pre| ensures id !in pre[x] { LevelsDisjoint(e, k, levels, x, i, id); }
    forall x | 0 <= x < |post| ensures id !in post[x] { LevelsDisjoint(e, k, levels, x + i + 1, i, id); }
    assert levels[i] == a + [id] + c;
    assert levels == pre + [levels[i]] + post;
  }

  /** Ids on a side are unaffected by changes to other entries and to remaining volumes. */
  ghost predicate SameKeyAndPrice(e: map<nat, Entry>, f: map<nat, Entry>, id: nat) {
    id in e && id in f && KeyOf(e[id]) == KeyOf(f[id]) && e[id].order.price == f[id].order.price
    && Parked(e[id].order.flags) == Parked(f[id].order.flags)
  }

  lemma SideFrame(e: map<nat, Entry>, f: map<nat, Entry>, k: nat, levels: seq<seq<nat>>)
    requires SideOk(e, k, levels)
    requires forall i, j :: 0 <= i < |levels| && 0 <= j < |levels[i]| ==> SameKeyAndPrice(e, f, levels[i][j])
    ensures SideOk(f, k, levels)
    ensures forall i :: 0 <= i < |levels| ==> LevelPrice(e, levels[i]) == LevelPrice(f, levels[i])
  {
    forall i | 0 <= i < |levels|
      ensures LevelOk(f, k, levels[i]) && LevelPrice(e, levels[i]) == LevelPrice(f, levels[i])
    {
      assert LevelOk(e, k, levels[i]);
      assert SameKeyAndPrice(e, f, levels[i][0]);
      forall j | 0 <= j < |levels[i]|
        ensures levels[i][j] in f && KeyOf(f[levels[i][j]]) == k &&
            f[levels[i][j]].order.price == LevelPrice(f, levels[i]) && !Parked(f[levels[i][j]].order.flags)
      {
        assert SameKeyAndPrice(e, f, levels[i][j]);
      }
    }
  }

  lemma RemoveIdKeepsSide(e: map<nat, Entry>, k: nat, levels: seq<seq<nat>>, id: nat)
    requires SideOk(e, k, levels) && OnSide(levels, id)
    ensures SideOk(e, k, RemoveId(levels, id))
    ensures forall x :: OnSide(RemoveId(levels, id), x) <==> OnSide(levels, x) && x != id
  {
    var pre, a, c, post := Split(e, k, levels, id);
    RemoveIdAt(pre, a, id, c, post);
    DropKeepsSide(e, k, pre, a, id, c, post);
    DropMembershipAll(e, k, pre, a, id, c, post);
  }

  lemma DropMembers(e: map<nat, Entry>, k: nat, price: nat, a: seq<nat>, id: nat, c: seq<nat>)
    requires Members(e, k, price, a + [id] + c)
    ensures Members(e, k, price, a + c) && id !in a + c
  {
    var level, rest := a + [id] + c, a + c;
    assert level[|a|] == id;
    forall j | 0 <= j < |rest| ensures rest[j] == level[if j < |a| then j else j + 1] && rest[j] in e { }
  }

  lemma DropKeepsSide(e: map<nat, Entry>, k: nat, pre: seq<seq<nat>>, a: seq<nat>, id: nat, c: seq<nat>,
                      post: seq<seq<nat>>)
    requires SideOk(e, k, pre + [a + [id] + c] + post)
    ensures SideOk(e, k, pre + Glue(a + c, post))
  {
    var levels, after := pre + [a + [id] + c] + post, pre + Glue(a + c, post);
    var n := |pre|;
    assert levels[n] == a + [id] + c;
    assert LevelOk(e, k, levels[n]);
    DropMembers(e, k, LevelPrice(e, levels[n]), a, id, c);
    var rest := a + c;
    if rest == [] {
      assert after == pre + post;
      assert forall i :: 0 <= i < |after| ==> after[i] == levels[if i < n then i else i + 1];
    } else {
      assert after == pre + [rest] + post;
      assert rest[0] in e;
      assert forall i :: 0 <= i < |after| ==> after[i] == if i == n then rest else levels[i];
    }
  }

  lemma DropMembershipAll(e: map<nat, Entry>, k: nat, pre: seq<seq<nat>>, a: seq<nat>, id: nat, c: seq<nat>,
                          post: seq<seq<nat>>)
    requires SideOk(e, k, pre + [a + [id] + c] + post)
    requires !OnSide(pre, id) && !OnSide(post, id) && id !in a && id !in c
    ensures forall x :: OnSide(pre + Glue(a + c, post), x) <==> OnSide(pre + [a + [id] + c] + post, x) && x != id
  {
    var after := pre + Glue(a + c, post);
    var n := |pre|;
    forall i | 0 <= i < |after| ensures id !in after[i] {
      if i < n { assert after[i] == pre[i]; }
      else if a + c == [] { assert after[i] == post[i - n]; }
      else if i > n { assert after[i] == post[i - n - 1]; }
    }
    forall x ensures OnSide(after, x) <==> OnSide(pre + [a + [id] + c] + post, x) && x != id {
      if x != id { DropMembership(pre, a, id, c, post, x); }
    }
  }

  lemma DropMembership(pre: seq<seq<nat>>, a: seq<nat>, id: nat, c: seq<nat>, post: seq<seq<nat>>, x: nat)
    requires x != id
    ensures OnSide(pre + Glue(a + c, post), x) <==> OnSide(pre + [a + [id] + c] + post, x)
  {
    var levels, after := pre + [a + [id] + c] + post, pre + Glue(a + c, post);
    var n := |pre|;
    if OnSide(levels, x) {
      var i :| 0 <= i < |levels| && x in levels[i];
      if i < n { assert after[i] == levels[i]; }
      else if i == n {
        assert x in a + c;
        assert after[n] == a + c;
      } else if a + c == [] {
        assert after[i - 1] == levels[i];
      } else {
        assert after[i] == levels[i];
      }
    }
    if OnSide(after, x) {
      var i :| 0 <= i < |after| && x in after[i];
      if i < n { assert levels[i] == after[i]; }
      else if a + c == [] { assert levels[i + 1] == after[i]; }
      else if i == n { assert x in a + c; assert x in levels[n]; }
      else { assert levels[i] == after[i]; }
    }
  }

  lemma PlaceMembership(levels: seq<seq<nat>>, n: nat, exists_: bool, id: nat, x: nat)
    requires n <= |levels| && (exists_ ==> n < |levels|)
    ensures OnSide(PlaceAt(levels, n, exists_, id), x) <==> OnSide(levels, x) || x == id
  {
    var after := PlaceAt(levels, n, exists_, id);
    assert id in after[n] by { if exists_ { assert after[n][|levels[n]|] == id; } }
    if OnSide(levels, x) {
      var i :| 0 <= i < |levels| && x in levels[i];
      assert x in after[if exists_ || i < n then i else i + 1];
    }
    if OnSide(after, x) && x != id {
      var i :| 0 <= i < |after| && x in after[i];
      assert i != n || exists_;
      assert x in levels[if exists_ || i < n then i else i - 1];
    }
  }

  lemma PlaceKeepsSide(e: map<nat, Entry>, f: map<nat, Entry>, k: nat, levels: seq<seq<nat>>, id: nat)
    requires SideOk(e, k, levels) && id !in e
    requires id in f && KeyOf(f[id]) == k && !Parked(f[id].order.flags)
    requires forall x :: x in e ==> x in f && f[x] == e[x]
    ensures SideOk(f, k, PlaceId(e, k, levels, f[id].order.price, id))
    ensures forall x :: OnSide(PlaceId(e, k, levels, f[id].order.price, id), x) <==> OnSide(levels, x) || x == id
  {
    var price := f[id].order.price;
    var n := Better(e, k, levels, Rank(k, price));
    forall i, j | 0 <= i < |levels| && 0 <= j < |levels[i]| ensures SameKeyAndPrice(e, f, levels[i][j]) {
      assert LevelOk(e, k, levels[i]);
    }
    SideFrame(e, f, k, levels);
    if LevelExists(e, k, levels, price) {
      AppendKeepsSide(e, f, k, levels, n, id);
    } else {
      OpenKeepsSide(f, k, levels, n, id);
    }
    forall x ensures OnSide(PlaceId(e, k, levels, price, id), x) <==> OnSide(levels, x) || x == id {
      PlaceMembership(levels, n, LevelExists(e, k, levels, price), id, x);
    }
  }

  lemma AppendKeepsSide(e: map<nat, Entry>, f: map<nat, Entry>, k: nat, levels: seq<seq<nat>>, n: nat, id: nat)
    requires SideOk(e, k, levels) && SideOk(f, k, levels) && n < |levels| && id !in e
    requires id in f && KeyOf(f[id]) == k && f[id].order.price == LevelPrice(f, levels[n]) && !Parked(f[id].order.flags)
    ensures SideOk(f, k, levels[n := levels[n] + [id]])
  {
    var level := levels[n] + [id];
    assert LevelOk(f, k, levels[n]) && LevelOk(e, k, levels[n]);
    assert level[0] == levels[n][0];
    assert LevelOk(f, k, level);
  }

  lemma OpenKeepsSide(f: map<nat, Entry>, k: nat, levels: seq<seq<nat>>, n: nat, id: nat)
    requires SideOk(f, k, levels) && n <= |levels|
    requires id in f && KeyOf(f[id]) == k && !Parked(f[id].order.flags)
    requires n > 0 ==> Rank(k, LevelPrice(f, levels[n - 1])) < Rank(k, f[id].order.price)
    requires n < |levels| ==> Rank(k, f[id].order.price) < Rank(k, LevelPrice(f, levels[n]))
    ensures SideOk(f, k, levels[..n] + [[id]] + levels[n..])
  {
    var after := levels[..n] + [[id]] + levels[n..];
    assert LevelOk(f, k, [id]) && LevelPrice(f, [id]) == f[id].order.price;
    assert forall i :: 0 <= i < |after| ==> after[i] == if i < n then levels[i] else if i == n then [id]
        else levels[i - 1];
    forall i, j | 0 <= i < j < |after| ensures Rank(k, LevelPrice(f, after[i])) < Rank(k, LevelPrice(f, after[j])) {
      if j == n {
        assert i == n - 1 || Rank(k, LevelPrice(f, levels[i])) < Rank(k, LevelPrice(f, levels[n - 1]));
      } else if i == n {
        assert j == n + 1 || Rank(k, LevelPrice(f, levels[n])) < Rank(k, LevelPrice(f, levels[j - 1]));
      }
    }
  }

  // -------------------------------------------------- lemmas: the whole book

  lemma OnSideKey(b: Book, k: nat, id: nat)
    requires Wf(b) && k < |b.ladder| && OnSide(b.ladder[k], id)
    ensures id in b.entries && KeyOf(b.entries[id]) == k && Linked(b, id)
  {
    var i :| 0 <= i < |b.ladder[k]| && id in b.ladder[k][i];
    assert SideOk(b.entries, k, b.ladder[k]);
    assert LevelOk(b.entries, k, b.ladder[k][i]);
  }

  /** Insert keeps the book well formed and links exactly the new order in addition. */
  lemma InsertWf(b: Book, product: nat, o: Order)
    requires Wf(b) && o.id != 0 && o.id !in b.entries && Key(product, IsBid(o.flags)) < |b.ladder| && !Parked(o.flags)
    ensures Wf(Insert(b, product, o))
    ensures forall x :: Linked(Insert(b, product, o), x) <==> Linked(b, x) || x == o.id
  {
    var k := Key(product, IsBid(o.flags));
    var b' := Insert(b, product, o);
    PlaceKeepsSide(b.entries, b'.entries, k, b.ladder[k], o.id);
    forall q | 0 <= q < |b'.ladder| ensures SideOk(b'.entries, q, b'.ladder[q]) {
      if q != k {
        forall i, j | 0 <= i < |b.ladder[q]| && 0 <= j < |b.ladder[q][i]|
            ensures SameKeyAndPrice(b.entries, b'.entries, b.ladder[q][i][j]) {
          assert SideOk(b.entries, q, b.ladder[q]);
          assert LevelOk(b.entries, q, b.ladder[q][i]);
        }
        SideFrame(b.entries, b'.entries, q, b.ladder[q]);
      }
    }
    forall id | id in b'.entries
      ensures id != 0 && b'.entries[id].order.id == id && KeyOf(b'.entries[id]) < |b'.ladder| &&
          (Linked(b', id) <==> !Parked(b'.entries[id].order.flags))
    {
      if id != o.id {
        assert b'.entries[id] == b.entries[id];
        assert Linked(b, id) <==> Linked(b', id);
      }
    }
    forall x ensures Linked(b', x) <==> Linked(b, x) || x == o.id {
      if x in b.entries { assert b'.entries[x] == b.entries[x]; }
    }
  }

  lemma OthersSame(b: Book, id: nat, q: nat, x: nat)
    requires Wf(b) && Linked(b, id) && q < |b.ladder| && OnSide(Remove(b, id).ladder[q], x)
    ensures SameKeyAndPrice(b.entries, Remove(b, id).entries, x) &&
        SameKeyAndPrice(b.entries, Deactivate(b, id).entries, x)
  {
    var k := KeyOf(b.entries[id]);
    assert SideOk(b.entries, k, b.ladder[k]);
    RemoveIdKeepsSide(b.entries, k, b.ladder[k], id);
    hide Wf, SideOk, RemoveId, OnSide, SetStatus;
    assert OnSide(b.ladder[q], x);
    OnSideKey(b, q, x);
  }

  /** Without an order that was on it, a side is still sorted, whether the order is forgotten or marked. */
  lemma SideWithout(b: Book, id: nat, q: nat)
    requires Wf(b) && Linked(b, id) && q < |b.ladder|
    ensures var r, d := Remove(b, id), Deactivate(b, id);
            SideOk(r.entries, q, r.ladder[q]) && SideOk(d.entries, q, d.ladder[q])
  {
    var k, levels := KeyOf(b.entries[id]), Remove(b, id).ladder[q];
    assert SideOk(b.entries, k, b.ladder[k]) && SideOk(b.entries, q, b.ladder[q]);
    RemoveIdKeepsSide(b.entries, k, b.ladder[k], id);
    hide Wf, SideOk, RemoveId, SameKeyAndPrice, SetStatus;
    forall i, j | 0 <= i < |levels| && 0 <= j < |levels[i]|
      ensures SameKeyAndPrice(b.entries, Remove(b, id).entries, levels[i][j]) &&
          SameKeyAndPrice(b.entries, Deactivate(b, id).entries, levels[i][j])
    {
      assert OnSide(levels, levels[i][j]);
      OthersSame(b, id, q, levels[i][j]);
    }
    SideFrame(b.entries, Remove(b, id).entries, q, levels);
    SideFrame(b.entries, Deactivate(b, id).entries, q, levels);
  }

  lemma LinkedWithout(b: Book, id: nat, x: nat)
    requires Wf(b) && Linked(b, id)
    ensures Linked(Remove(b, id), x) <==> Linked(b, x) && x != id
    ensures Linked(Deactivate(b, id), x) <==> Linked(b, x) && x != id
  {
    var k := KeyOf(b.entries[id]);
    assert SideOk(b.entries, k, b.ladder[k]);
    RemoveIdKeepsSide(b.entries, k, b.ladder[k], id);
    hide Wf, SideOk, RemoveId, OnSide;
  }

  lemma EntriesWithout(b: Book, id: nat)
    requires Wf(b) && Linked(b, id)
    ensures EntriesOk(Remove(b, id)) && EntriesOk(Deactivate(b, id))
  {
    hide SideOk, RemoveId, OnSide;
    forall x ensures (Linked(Remove(b, id), x) <==> Linked(b, x) && x != id) &&
                     (Linked(Deactivate(b, id), x) <==> Linked(b, x) && x != id) {
      LinkedWithout(b, id, x);
    }
  }

  /** Removing or deactivating a resting order keeps the book well formed and takes exactly that order off it. */
  lemma RemoveWf(b: Book, id: nat)
    requires Wf(b) && Linked(b, id)
    ensures Wf(Remove(b, id)) && Wf(Deactivate(b, id))
    ensures forall x :: Linked(Remove(b, id), x) <==> Linked(b, x) && x != id
    ensures forall x :: Linked(Deactivate(b, id), x) <==> Linked(b, x) && x != id
  {
    hide SideOk, RemoveId, OnSide, EntriesOk, SetStatus;
    var r, d := Remove(b, id), Deactivate(b, id);
    forall q | 0 <= q < |b.ladder| ensures SideOk(r.entries, q, r.ladder[q]) && SideOk(d.entries, q, d.ladder[q]) {
      SideWithout(b, id, q);
    }
    forall x ensures (Linked(r, x) <==> Linked(b, x) && x != id) && (Linked(d, x) <==> Linked(b, x) && x != id) {
      LinkedWithout(b, id, x);
    }
    EntriesWithout(b, id);
  }

  /** Changing a remaining volume keeps the book well formed. */
  lemma SetRemainWf(b: Book, id: nat, remain: nat)
    requires Wf(b) && id in b.entries
    ensures Wf(b.(entries := SetRemain(b.entries, id, remain)))
  {
    var e := SetRemain(b.entries, id, remain);
    var b' := b.(entries := e);
    forall q | 0 <= q < |b.ladder| ensures SideOk(e, q, b.ladder[q]) {
      assert SideOk(b.entries, q, b.ladder[q]);
      forall i, j | 0 <= i < |b.ladder[q]| && 0 <= j < |b.ladder[q][i]|
          ensures SameKeyAndPrice(b.entries, e, b.ladder[q][i][j]) {
        assert LevelOk(b.entries, q, b.ladder[q][i]);
      }
      SideFrame(b.entries, e, q, b.ladder[q]);
    }
    forall x | x in e ensures Linked(b', x) <==> Linked(b, x) {
      assert KeyOf(e[x]) == KeyOf(b.entries[x]);
    }
  }

  lemma FillWf(b: Book, id: nat, q: nat)
    requires Wf(b) && Linked(b, id) && q <= b.entries[id].order.remain
    ensures Wf(Fill(b, id, q))
  {
    var after := Fill(b, id, q);
    if q == b.entries[id].order.remain {
      assert after == Remove(b, id);
      RemoveWf(b, id);
    } else {
      var remain := b.entries[id].order.remain - q;
      assert after == b.(entries := SetRemain(b.entries, id, remain));
      SetRemainWf(b, id, remain);
    }
  }
}
