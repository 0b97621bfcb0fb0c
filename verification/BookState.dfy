/**
 The order book's memory as a value: order map, slots, links, tree roots and the organisation cache.
 Says when it represents a Book and proves that each change of the links keeps it so.
 */
module BookState {
  import opened Common
  import opened Links
  import B = Book
  import L = Ladders
  import T = PriceTree

  const UNKNOWN: nat := 0xFFFF_FFFF

  datatype Loc = Loc(slot: nat, product: nat)

  datatype State = State(hash: map<nat, Loc>, ord: seq<B.Order>, q1: seq<Link>, q2: seq<Link>, known: seq<nat>,
                         heads: seq<nat>, roots: seq<T.Tree>, ladder: seq<seq<seq<nat>>>)

  function SlotOf(hash: map<nat, Loc>, id: nat): nat { if id in hash then hash[id].slot else NULL }

  function Slots(hash: map<nat, Loc>, ids: seq<nat>): (p: seq<nat>)
    ensures |p| == |ids| && forall j :: 0 <= j < |ids| ==> p[j] == SlotOf(hash, ids[j])
  {
    seq(|ids|, j requires 0 <= j < |ids| => SlotOf(hash, ids[j]))
  }

  function SlotLevels(hash: map<nat, Loc>, levels: seq<seq<nat>>): (s: seq<seq<nat>>)
    ensures |s| == |levels| && forall i :: 0 <= i < |levels| ==> s[i] == Slots(hash, levels[i])
  {
    seq(|levels|, i requires 0 <= i < |levels| => Slots(hash, levels[i]))
  }

  function Entries(hash: map<nat, Loc>, ord: seq<B.Order>): map<nat, B.Entry> {
    map id | id in hash && hash[id].slot < |ord| :: B.Entry(hash[id].product, ord[hash[id].slot])
  }

  ghost function Abs(s: State): B.Book { B.Book(Entries(s.hash, s.ord), s.ladder) }

  // ------------------------------------------------------------ invariants

  ghost predicate HashOk(hash: map<nat, Loc>, ord: seq<B.Order>) {
    forall id :: id in hash ==> hash[id].slot < |ord| && ord[hash[id].slot].id == id
  }

  /** One of the levels has this price. */
  ghost predicate Priced(e: map<nat, B.Entry>, levels: seq<seq<nat>>, p: nat) {
    exists i :: 0 <= i < |levels| && B.LevelPrice(e, levels[i]) == p
  }

  /** The tree maps each level's price to the slot of its head, and nothing else. */
  ghost predicate TreeOk(root: T.Tree, e: map<nat, B.Entry>, hash: map<nat, Loc>, levels: seq<seq<nat>>) {
    && T.Bst(root)
    && (forall i :: 0 <= i < |levels| && levels[i] != [] ==>
          B.LevelPrice(e, levels[i]) in T.Contents(root) &&
                                        T.Contents(root)[B.LevelPrice(e, levels[i])] == SlotOf(hash, levels[i][0]))
    && (forall p :: p in T.Contents(root) ==> Priced(e, levels, p))
  }

  /** A known organisation is that of every order at the level. */
  ghost predicate OrgKnown(known: seq<nat>, e: map<nat, B.Entry>, hash: map<nat, Loc>, level: seq<nat>) {
    level != [] && SlotOf(hash, level[0]) < |known| && known[SlotOf(hash, level[0])] != UNKNOWN ==>
      forall j :: 0 <= j < |level| && level[j] in e ==> e[level[j]].order.org == known[SlotOf(hash, level[0])]
  }

  ghost predicate OrgsOk(known: seq<nat>, e: map<nat, B.Entry>, hash: map<nat, Loc>, levels: seq<seq<nat>>) {
    forall i :: 0 <= i < |levels| ==> OrgKnown(known, e, hash, levels[i])
  }

  ghost predicate SideState(s: State, k: nat)
    requires k < |s.ladder| && |s.heads| == |s.ladder| && |s.roots| == |s.ladder|
  {
    && L.Side(s.q1, s.q2, SlotLevels(s.hash, s.ladder[k]), s.heads[k])
    && TreeOk(s.roots[k], Entries(s.hash, s.ord), s.hash, s.ladder[k])
    && OrgsOk(s.known, Entries(s.hash, s.ord), s.hash, s.ladder[k])
  }

  ghost predicate Sizes(s: State) {
    && |s.q1| == |s.q2| == |s.known| == |s.ord| <= NULL
    && |s.heads| == |s.roots| == |s.ladder|
  }

  predicate OnLadder(hash: map<nat, Loc>, ladder: seq<seq<seq<nat>>>, x: nat) {
    exists k :: 0 <= k < |ladder| && L.On(SlotLevels(hash, ladder[k]), x)
  }

  /** Slots that are in no queue have clear links. */
  ghost predicate Loose(s: State) {
    forall x :: 0 <= x < |s.q1| && x < |s.q2| && !OnLadder(s.hash, s.ladder, x) ==>
        s.q1[x] == UNLINKED && s.q2[x] == UNLINKED
  }

  ghost predicate Ok(s: State) {
    && Sizes(s) && HashOk(s.hash, s.ord) && Loose(s)
    && (forall k :: 0 <= k < |s.ladder| ==> SideState(s, k))
    && (forall k :: 0 <= k < |s.ladder| ==> B.SideOk(Entries(s.hash, s.ord), k, s.ladder[k]))
  }

  // ------------------------------------------------------------ basic facts

  lemma EntryAt(hash: map<nat, Loc>, ord: seq<B.Order>, id: nat)
    requires HashOk(hash, ord)
    ensures id in Entries(hash, ord) <==> id in hash
    ensures id in hash ==>
        SlotOf(hash, id) < |ord| && Entries(hash, ord)[id] == B.Entry(hash[id].product, ord[SlotOf(hash, id)]) &&
        ord[SlotOf(hash, id)].id == id
  {
  }

  /** Different ids are in different slots. */
  lemma SlotApart(hash: map<nat, Loc>, ord: seq<B.Order>, a: nat, b: nat)
    requires HashOk(hash, ord) && a in hash && b in hash
    ensures SlotOf(hash, a) == SlotOf(hash, b) <==> a == b
  {
  }

  lemma SideIdAt(s: State, k: nat, i: nat, j: nat)
    requires Ok(s) && k < |s.ladder| && i < |s.ladder[k]| && j < |s.ladder[k][i]|
    ensures var id := s.ladder[k][i][j];
            && id in s.hash && id in Entries(s.hash, s.ord) && SlotOf(s.hash, id) < |s.ord| &&
                                     s.ord[SlotOf(s.hash, id)].id == id
            && B.KeyOf(Entries(s.hash, s.ord)[id]) == k
            && SlotLevels(s.hash, s.ladder[k])[i][j] == SlotOf(s.hash, id)
  {
    var e := Entries(s.hash, s.ord);
    assert B.SideOk(e, k, s.ladder[k]);
    assert B.LevelOk(e, k, s.ladder[k][i]);
    EntryAt(s.hash, s.ord, s.ladder[k][i][j]);
  }

  /** A slot on a side holds an order whose id is on that side. */
  lemma OnSlot(s: State, k: nat, x: nat)
    requires Ok(s) && k < |s.ladder| && L.On(SlotLevels(s.hash, s.ladder[k]), x)
    ensures x < |s.ord| && s.ord[x].id in s.hash && SlotOf(s.hash, s.ord[x].id) == x
    ensures B.OnSide(s.ladder[k], s.ord[x].id) && B.KeyOf(Entries(s.hash, s.ord)[s.ord[x].id]) == k
  {
    var t := SlotLevels(s.hash, s.ladder[k]);
    var i :| 0 <= i < |t| && x in t[i];
    var j :| 0 <= j < |t[i]| && t[i][j] == x;
    SideIdAt(s, k, i, j);
    assert s.ladder[k][i][j] in s.ladder[k][i];
  }

  lemma SideApart(s: State, k: nat)
    requires Ok(s) && k < |s.ladder|
    ensures L.Apart(SlotLevels(s.hash, s.ladder[k]))
  {
    var t := SlotLevels(s.hash, s.ladder[k]);
    var e := Entries(s.hash, s.ord);
    assert B.SideOk(e, k, s.ladder[k]);
    forall i, j, m, n | 0 <= i < |t| && 0 <= j < |t[i]| && 0 <= m < |t| && 0 <= n < |t[m]| && t[i][j] == t[m][n]
        ensures i == m && j == n {
      SideIdAt(s, k, i, j);
      SideIdAt(s, k, m, n);
      var id := s.ladder[k][i][j];
      SlotApart(s.hash, s.ord, id, s.ladder[k][m][n]);
      B.LevelsDisjoint(e, k, s.ladder[k], i, m, id);
      assert B.LevelOk(e, k, s.ladder[k][i]);
    }
  }

  /** A slot is on one side only. */
  lemma SidesApart(s: State, k: nat, m: nat, x: nat)
    requires Ok(s) && k < |s.ladder| && m < |s.ladder| && k != m && L.On(SlotLevels(s.hash, s.ladder[k]), x)
    ensures !L.On(SlotLevels(s.hash, s.ladder[m]), x)
  {
    OnSlot(s, k, x);
    if L.On(SlotLevels(s.hash, s.ladder[m]), x) { OnSlot(s, m, x); }
  }

  // ---------------------------------------------------------------- frames

  /** What a side depends on is the same in both states. */
  ghost predicate SameSide(s: State, t: State, k: nat) {
    && k < |s.ladder| && k < |t.ladder| && t.ladder[k] == s.ladder[k]
    && k < |s.heads| && k < |t.heads| && t.heads[k] == s.heads[k]
    && k < |s.roots| && k < |t.roots| && t.roots[k] == s.roots[k]
    && (forall i, j :: 0 <= i < |s.ladder[k]| && 0 <= j < |s.ladder[k][i]| ==> SameId(s, t, s.ladder[k][i][j]))
  }

  ghost predicate SameId(s: State, t: State, id: nat) {
    var x := SlotOf(s.hash, id);
    && id in s.hash && id in t.hash && t.hash[id] == s.hash[id]
    && x < |s.ord| && x < |t.ord| && t.ord[x].price == s.ord[x].price && t.ord[x].org == s.ord[x].org
    && t.ord[x].flags.bid == s.ord[x].flags.bid && B.Parked(t.ord[x].flags) == B.Parked(s.ord[x].flags)
    && x < |s.q1| && x < |t.q1| && t.q1[x] == s.q1[x]
    && x < |s.q2| && x < |t.q2| && t.q2[x] == s.q2[x]
    && x < |s.known| && x < |t.known| && t.known[x] == s.known[x]
  }

  lemma SameLevels(s: State, t: State, k: nat)
    requires SameSide(s, t, k)
    ensures SlotLevels(t.hash, t.ladder[k]) == SlotLevels(s.hash, s.ladder[k])
  {
    forall i | 0 <= i < |s.ladder[k]| ensures Slots(t.hash, s.ladder[k][i]) == Slots(s.hash, s.ladder[k][i]) {
      forall j | 0 <= j < |s.ladder[k][i]|
          ensures SlotOf(t.hash, s.ladder[k][i][j]) == SlotOf(s.hash, s.ladder[k][i][j]) {
        assert SameId(s, t, s.ladder[k][i][j]);
      }
    }
  }

  lemma SameEntry(s: State, t: State, id: nat)
    requires HashOk(s.hash, s.ord) && HashOk(t.hash, t.ord) && SameId(s, t, id)
    ensures id in Entries(s.hash, s.ord) && id in Entries(t.hash, t.ord)
    ensures var a, b := Entries(s.hash, s.ord)[id], Entries(t.hash, t.ord)[id];
            a.order.price == b.order.price && a.order.org == b.order.org && B.KeyOf(a) == B.KeyOf(b)
    ensures B.SameKeyAndPrice(Entries(s.hash, s.ord), Entries(t.hash, t.ord), id)
  {
  }

  lemma SamePrices(s: State, t: State, k: nat)
    requires HashOk(s.hash, s.ord) && HashOk(t.hash, t.ord) && SameSide(s, t, k)
    ensures forall i :: 0 <= i < |s.ladder[k]| ==>
      B.LevelPrice(Entries(s.hash, s.ord), s.ladder[k][i]) == B.LevelPrice(Entries(t.hash, t.ord), s.ladder[k][i])
  {
    forall i | 0 <= i < |s.ladder[k]|
      ensures B.LevelPrice(Entries(s.hash, s.ord), s.ladder[k][i]) ==
          B.LevelPrice(Entries(t.hash, t.ord), s.ladder[k][i])
    {
      if s.ladder[k][i] != [] {
        assert SameId(s, t, s.ladder[k][i][0]);
        SameEntry(s, t, s.ladder[k][i][0]);
      }
    }
  }

  lemma TreeFrame(root: T.Tree, e: map<nat, B.Entry>, f: map<nat, B.Entry>, hash: map<nat, Loc>, hash': map<nat, Loc>,
                  levels: seq<seq<nat>>)
    requires TreeOk(root, e, hash, levels)
    requires forall i :: 0 <= i < |levels| ==> B.LevelPrice(e, levels[i]) == B.LevelPrice(f, levels[i])
    requires forall i :: 0 <= i < |levels| && levels[i] != [] ==>
        SlotOf(hash, levels[i][0]) == SlotOf(hash', levels[i][0])
    ensures TreeOk(root, f, hash', levels)
  {
    forall p | p in T.Contents(root) ensures Priced(f, levels, p) {
      var i :| 0 <= i < |levels| && B.LevelPrice(e, levels[i]) == p;
      assert B.LevelPrice(f, levels[i]) == p;
    }
  }

  lemma OrgFrame(s: State, t: State, k: nat)
    requires HashOk(s.hash, s.ord) && HashOk(t.hash, t.ord) && SameSide(s, t, k)
    requires OrgsOk(s.known, Entries(s.hash, s.ord), s.hash, s.ladder[k])
    ensures OrgsOk(t.known, Entries(t.hash, t.ord), t.hash, t.ladder[k])
  {
    forall i | 0 <= i < |s.ladder[k]| ensures OrgKnown(t.known, Entries(t.hash, t.ord), t.hash, s.ladder[k][i]) {
      var level := s.ladder[k][i];
      assert OrgKnown(s.known, Entries(s.hash, s.ord), s.hash, level);
      if level != [] {
        assert SameId(s, t, level[0]);
        forall j | 0 <= j < |level|
            ensures Entries(t.hash, t.ord)[level[j]].order.org == Entries(s.hash, s.ord)[level[j]].order.org {
          assert SameId(s, t, level[j]);
          SameEntry(s, t, level[j]);
        }
      }
    }
  }

  lemma LinksUnchanged(s: State, t: State, k: nat)
    requires Ok(s) && Sizes(t) && SameSide(s, t, k) && |t.q1| == |s.q1|
    ensures L.Side(t.q1, t.q2, SlotLevels(t.hash, t.ladder[k]), t.heads[k])
  {
    assert SideState(s, k);
    SameLevels(s, t, k);
    var p := SlotLevels(s.hash, s.ladder[k]);
    forall y | 0 <= y < |s.q1| && L.On(p, y) ensures t.q1[y] == s.q1[y] && t.q2[y] == s.q2[y] {
      var i :| 0 <= i < |p| && y in p[i];
      var j :| 0 <= j < |p[i]| && p[i][j] == y;
      assert SameId(s, t, s.ladder[k][i][j]);
    }
    L.SideFrame(s.q1, t.q1, s.q2, t.q2, p, s.heads[k]);
  }

  lemma TreeUnchanged(s: State, t: State, k: nat)
    requires Ok(s) && HashOk(t.hash, t.ord) && Sizes(t) && SameSide(s, t, k)
    ensures TreeOk(t.roots[k], Entries(t.hash, t.ord), t.hash, t.ladder[k])
  {
    assert SideState(s, k);
    SamePrices(s, t, k);
    hide L.Side, OrgsOk, TreeOk;
    forall i | 0 <= i < |s.ladder[k]| && s.ladder[k][i] != []
        ensures SlotOf(t.hash, s.ladder[k][i][0]) == SlotOf(s.hash, s.ladder[k][i][0]) {
      assert SameId(s, t, s.ladder[k][i][0]);
    }
    TreeFrame(s.roots[k], Entries(s.hash, s.ord), Entries(t.hash, t.ord), s.hash, t.hash, s.ladder[k]);
  }

  lemma BookSideUnchanged(s: State, t: State, k: nat)
    requires Ok(s) && HashOk(t.hash, t.ord) && SameSide(s, t, k)
    ensures B.SideOk(Entries(t.hash, t.ord), k, t.ladder[k])
  {
    assert B.SideOk(Entries(s.hash, s.ord), k, s.ladder[k]);
    forall i, j | 0 <= i < |s.ladder[k]| && 0 <= j < |s.ladder[k][i]|
        ensures B.SameKeyAndPrice(Entries(s.hash, s.ord), Entries(t.hash, t.ord), s.ladder[k][i][j]) {
      assert SameId(s, t, s.ladder[k][i][j]);
      SameEntry(s, t, s.ladder[k][i][j]);
    }
    B.SideFrame(Entries(s.hash, s.ord), Entries(t.hash, t.ord), k, s.ladder[k]);
  }

  lemma SideUnchanged(s: State, t: State, k: nat)
    requires Ok(s) && HashOk(t.hash, t.ord) && Sizes(t) && SameSide(s, t, k) && |t.q1| == |s.q1|
    ensures SideState(t, k) && B.SideOk(Entries(t.hash, t.ord), k, t.ladder[k])
  {
    assert SideState(s, k);
    LinksUnchanged(s, t, k);
    TreeUnchanged(s, t, k);
    OrgFrame(s, t, k);
    BookSideUnchanged(s, t, k);
  }

  // --------------------------------------------------- changing one side

  /** Only side `k` and slot `x` were written, and the order map changed at most at `x`'s id. */
  ghost predicate OneSide(s: State, t: State, k: nat, x: nat)
    requires k < |s.ladder|
  {
    var p := SlotLevels(s.hash, s.ladder[k]);
    && Sizes(t) && |t.ord| == |s.ord| && |t.ladder| == |s.ladder|
    && (forall m :: 0 <= m < |s.ladder| && m != k && m < |s.heads| && m < |s.roots| ==>
          t.ladder[m] == s.ladder[m] && t.heads[m] == s.heads[m] && t.roots[m] == s.roots[m])
    && L.Outside(s.q1, t.q1, p, x) && L.Outside(s.q2, t.q2, p, x)
    && (forall y :: 0 <= y < |s.known| && y != x && !L.On(p, y) ==> y < |t.known| && t.known[y] == s.known[y])
    && (forall y :: 0 <= y < |s.ord| && y != x ==> t.ord[y] == s.ord[y])
    && (forall id :: id in s.hash && s.hash[id].slot != x ==> id in t.hash && t.hash[id] == s.hash[id])
  }

  /** `x` is on no side but possibly `k`. */
  ghost predicate Elsewhere(s: State, k: nat, x: nat) {
    forall m :: 0 <= m < |s.ladder| && m != k ==> !L.On(SlotLevels(s.hash, s.ladder[m]), x)
  }

  lemma OtherSide(s: State, t: State, k: nat, x: nat, m: nat)
    requires Ok(s) && HashOk(t.hash, t.ord) && k < |s.ladder| && m < |s.ladder| && m != k
    requires OneSide(s, t, k, x) && Elsewhere(s, k, x)
    ensures SameSide(s, t, m) && SideState(t, m) && B.SideOk(Entries(t.hash, t.ord), m, t.ladder[m])
  {
    assert Sizes(s);
    forall i, j | 0 <= i < |s.ladder[m]| && 0 <= j < |s.ladder[m][i]| ensures SameId(s, t, s.ladder[m][i][j]) {
      SideIdAt(s, m, i, j);
      var y := SlotOf(s.hash, s.ladder[m][i][j]);
      L.HeadOn(SlotLevels(s.hash, s.ladder[m]), i, j);
      if L.On(SlotLevels(s.hash, s.ladder[k]), y) { SidesApart(s, k, m, y); }
    }
    SideUnchanged(s, t, m);
  }

  lemma LooseAfter(s: State, t: State, k: nat, x: nat)
    requires Ok(s) && HashOk(t.hash, t.ord) && k < |s.ladder| && OneSide(s, t, k, x) && Elsewhere(s, k, x)
    requires forall y :: y != x && L.On(SlotLevels(s.hash, s.ladder[k]), y) ==> L.On(SlotLevels(t.hash, t.ladder[k]), y)
    requires x < |t.q1| && (L.On(SlotLevels(t.hash, t.ladder[k]), x) || (t.q1[x] == UNLINKED && t.q2[x] == UNLINKED))
    ensures Loose(t)
  {
    forall y | 0 <= y < |t.q1| && !OnLadder(t.hash, t.ladder, y) ensures t.q1[y] == UNLINKED && t.q2[y] == UNLINKED {
      if y != x {
        assert !L.On(SlotLevels(s.hash, s.ladder[k]), y);
        forall m | 0 <= m < |s.ladder| ensures !L.On(SlotLevels(s.hash, s.ladder[m]), y) {
          if m != k {
            OtherSide(s, t, k, x, m);
            SameLevels(s, t, m);
          }
        }
        assert !OnLadder(s.hash, s.ladder, y);
      } else {
        assert !L.On(SlotLevels(t.hash, t.ladder[k]), x);
      }
    }
  }

  lemma OneSideOk(s: State, t: State, k: nat, x: nat)
    requires Ok(s) && HashOk(t.hash, t.ord) && k < |s.ladder| && OneSide(s, t, k, x) && Elsewhere(s, k, x)
    requires SideState(t, k) && B.SideOk(Entries(t.hash, t.ord), k, t.ladder[k]) && Loose(t)
    ensures Ok(t)
  {
    forall m | 0 <= m < |t.ladder| ensures SideState(t, m) && B.SideOk(Entries(t.hash, t.ord), m, t.ladder[m]) {
      if m != k { OtherSide(s, t, k, x, m); }
    }
  }

  // ------------------------------------------------------------- inserting

  /** Slot `x` holds an order that may enter the book for `product`. */
  ghost predicate Incoming(s: State, product: nat, x: nat) {
    && x < |s.ord| && s.ord[x].id !in s.hash && s.ord[x].id != 0 && !B.Parked(s.ord[x].flags)
    && B.Key(product, s.ord[x].flags.bid) < |s.ladder|
    && (forall id :: id in s.hash ==> s.hash[id].slot != x)
  }

  function Enter(s: State, product: nat, x: nat): map<nat, Loc>
    requires x < |s.ord|
  {
    s.hash[s.ord[x].id := Loc(x, product)]
  }

  lemma IncomingLoose(s: State, product: nat, x: nat, m: nat)
    requires Ok(s) && Incoming(s, product, x) && m < |s.ladder|
    ensures !L.On(SlotLevels(s.hash, s.ladder[m]), x)
  {
    if L.On(SlotLevels(s.hash, s.ladder[m]), x) { OnSlot(s, m, x); }
  }

  lemma EnterHash(s: State, product: nat, x: nat)
    requires Ok(s) && Incoming(s, product, x)
    ensures HashOk(Enter(s, product, x), s.ord)
    ensures Entries(Enter(s, product, x), s.ord) == Entries(s.hash, s.ord)[s.ord[x].id := B.Entry(product, s.ord[x])]
  {
    var h := Enter(s, product, x);
    var e, f := Entries(s.hash, s.ord), Entries(h, s.ord);
    forall id | id in h ensures h[id].slot < |s.ord| && s.ord[h[id].slot].id == id { }
    assert f.Keys == h.Keys;
  }

  /** Levels keep their slots when a new id enters the map. */
  lemma EnterLevels(s: State, product: nat, x: nat, k: nat)
    requires Ok(s) && Incoming(s, product, x) && k < |s.ladder|
    ensures SlotLevels(Enter(s, product, x), s.ladder[k]) == SlotLevels(s.hash, s.ladder[k])
  {
    var h := Enter(s, product, x);
    forall i | 0 <= i < |s.ladder[k]| ensures Slots(h, s.ladder[k][i]) == Slots(s.hash, s.ladder[k][i]) {
      forall j | 0 <= j < |s.ladder[k][i]| ensures SlotOf(h, s.ladder[k][i][j]) == SlotOf(s.hash, s.ladder[k][i][j]) {
        SideIdAt(s, k, i, j);
      }
    }
  }

  lemma OpenedLevels(hash: map<nat, Loc>, levels: seq<seq<nat>>, n: nat, id: nat)
    requires n <= |levels|
    ensures SlotLevels(hash, levels[..n] + [[id]] + levels[n..]) ==
        L.OpenAt(SlotLevels(hash, levels), n, SlotOf(hash, id))
  {
    var placed := levels[..n] + [[id]] + levels[n..];
    assert Slots(hash, [id]) == [SlotOf(hash, id)];
    assert forall i :: 0 <= i < |placed| ==> placed[i] == if i < n then levels[i] else if i == n then [id]
        else levels[i - 1];
  }

  lemma AppendedLevels(hash: map<nat, Loc>, levels: seq<seq<nat>>, n: nat, id: nat)
    requires n < |levels|
    ensures SlotLevels(hash, levels[n := levels[n] + [id]])
            == var p := SlotLevels(hash, levels); p[n := p[n] + [SlotOf(hash, id)]]
  {
    assert Slots(hash, levels[n] + [id]) == Slots(hash, levels[n]) + [SlotOf(hash, id)];
  }

  /** The new order's level and neighbours, as the descent finds them. */
  ghost function Position(s: State, k: nat, price: nat): (n: nat)
    requires k < |s.ladder|
    ensures n <= |s.ladder[k]|
  {
    B.Better(Entries(s.hash, s.ord), k, s.ladder[k], B.Rank(k, price))
  }

  ghost predicate HasLevel(s: State, k: nat, price: nat)
    requires k < |s.ladder|
  {
    B.LevelExists(Entries(s.hash, s.ord), k, s.ladder[k], price)
  }

  ghost function HeadSlot(s: State, k: nat, n: nat): nat
    requires k < |s.ladder| && n < |s.ladder[k]|
  {
    if s.ladder[k][n] == [] then NULL else SlotOf(s.hash, s.ladder[k][n][0])
  }

  /** `after` is `levels` with a new level of the order `id` at position `n`. */
  ghost predicate LevelAdded(levels: seq<seq<nat>>, after: seq<seq<nat>>, n: nat, id: nat) {
    && n <= |levels| && |after| == |levels| + 1 && after[n] == [id]
    && (forall i :: 0 <= i < n ==> after[i] == levels[i]) && (forall i :: n < i < |after| ==> after[i] == levels[i - 1])
  }

  lemma AddedPriced(e: map<nat, B.Entry>, f: map<nat, B.Entry>, levels: seq<seq<nat>>, after: seq<seq<nat>>, n: nat,
                    id: nat, p: nat)
    requires LevelAdded(levels, after, n, id) && id in f && (p == f[id].order.price || Priced(e, levels, p))
    requires forall i :: 0 <= i < |levels| ==> B.LevelPrice(e, levels[i]) == B.LevelPrice(f, levels[i])
    ensures Priced(f, after, p)
  {
    if p == f[id].order.price {
      assert B.LevelPrice(f, after[n]) == p;
    } else {
      var i :| 0 <= i < |levels| && B.LevelPrice(e, levels[i]) == p;
      var j := if i < n then i else i + 1;
      assert after[j] == levels[i];
      assert B.LevelPrice(f, after[j]) == p;
    }
  }

  lemma InsertTreeOpen(root: T.Tree, root': T.Tree, e: map<nat, B.Entry>, f: map<nat, B.Entry>, h: map<nat, Loc>,
                       levels: seq<seq<nat>>, after: seq<seq<nat>>, n: nat, id: nat)
    requires TreeOk(root, e, h, levels) && LevelAdded(levels, after, n, id) &&
        id in h && id in f && f[id].order.price !in T.Contents(root)
    requires T.Bst(root') && T.Contents(root') == T.Contents(root)[f[id].order.price := SlotOf(h, id)]
    requires forall i :: 0 <= i < |levels| ==> B.LevelPrice(e, levels[i]) == B.LevelPrice(f, levels[i])
    ensures TreeOk(root', f, h, after)
  {
    hide T.Bst, T.Contents, Priced, SlotOf;
    forall i | 0 <= i < |after| && after[i] != []
      ensures B.LevelPrice(f, after[i]) in T.Contents(root') &&
                                           T.Contents(root')[B.LevelPrice(f, after[i])] == SlotOf(h, after[i][0])
    {
      if i != n {
        var j := if i < n then i else i - 1;
        assert after[i] == levels[j] && B.LevelPrice(e, levels[j]) == B.LevelPrice(f, levels[j]);
      }
    }
    forall p | p in T.Contents(root') ensures Priced(f, after, p) { AddedPriced(e, f, levels, after, n, id, p); }
  }

  lemma InsertTreeAppend(root: T.Tree, e: map<nat, B.Entry>, f: map<nat, B.Entry>, h: map<nat, Loc>,
                         levels: seq<seq<nat>>, n: nat, id: nat)
    requires TreeOk(root, e, h, levels) && n < |levels| && levels[n] != []
    requires forall i :: 0 <= i < |levels| ==> B.LevelPrice(e, levels[i]) == B.LevelPrice(f, levels[i])
    ensures TreeOk(root, f, h, levels[n := levels[n] + [id]])
  {
    var after := levels[n := levels[n] + [id]];
    assert B.LevelPrice(f, after[n]) == B.LevelPrice(f, levels[n]);
    forall p | p in T.Contents(root) ensures Priced(f, after, p) {
      var i :| 0 <= i < |levels| && B.LevelPrice(e, levels[i]) == p;
      assert B.LevelPrice(f, after[i]) == p;
    }
  }

  ghost predicate Inserted(s: State, t: State, product: nat, x: nat)
    requires x < |s.ord| && B.Key(product, s.ord[x].flags.bid) < |s.ladder|
  {
    var k, price := B.Key(product, s.ord[x].flags.bid), s.ord[x].price;
    && t.hash == Enter(s, product, x) && t.ord == s.ord
    && t.ladder == s.ladder[k := B.PlaceId(Entries(s.hash, s.ord), k, s.ladder[k], price, s.ord[x].id)]
  }

  lemma InsertedAbs(s: State, t: State, product: nat, x: nat)
    requires Ok(s) && Incoming(s, product, x) && Inserted(s, t, product, x)
    ensures Abs(t) == B.Insert(Abs(s), product, s.ord[x])
  {
    EnterHash(s, product, x);
  }

  lemma InsertedSide(s: State, t: State, product: nat, x: nat)
    requires Ok(s) && Incoming(s, product, x) && Inserted(s, t, product, x)
    ensures var k := B.Key(product, s.ord[x].flags.bid);
            && HashOk(t.hash, t.ord) && B.SideOk(Entries(t.hash, t.ord), k, t.ladder[k])
            && (forall i :: 0 <= i < |s.ladder[k]| ==>
                  B.LevelPrice(Entries(s.hash, s.ord), s.ladder[k][i]) ==
                      B.LevelPrice(Entries(t.hash, t.ord), s.ladder[k][i]))
  {
    var k, id := B.Key(product, s.ord[x].flags.bid), s.ord[x].id;
    var e, f := Entries(s.hash, s.ord), Entries(t.hash, t.ord);
    EnterHash(s, product, x);
    EntryAt(s.hash, s.ord, id);
    assert B.SideOk(e, k, s.ladder[k]);
    B.PlaceKeepsSide(e, f, k, s.ladder[k], id);
    forall i | 0 <= i < |s.ladder[k]| ensures B.LevelPrice(e, s.ladder[k][i]) == B.LevelPrice(f, s.ladder[k][i]) {
      assert B.LevelOk(e, k, s.ladder[k][i]);
    }
  }

  lemma NotPriced(e: map<nat, B.Entry>, k: nat, levels: seq<seq<nat>>, price: nat)
    requires B.SideOk(e, k, levels) && !B.LevelExists(e, k, levels, price)
    ensures !Priced(e, levels, price)
  {
    hide B.LevelOk, B.LevelPrice;
    var n := B.Better(e, k, levels, B.Rank(k, price));
    forall i | 0 <= i < |levels| ensures B.LevelPrice(e, levels[i]) != price {
      if n < i { assert B.Rank(k, B.LevelPrice(e, levels[n])) < B.Rank(k, B.LevelPrice(e, levels[i])); }
    }
  }

  lemma SideIsOk(s: State, k: nat)
    requires Ok(s) && k < |s.ladder|
    ensures B.SideOk(Entries(s.hash, s.ord), k, s.ladder[k])
  {
  }

  lemma FreshPrice(s: State, k: nat, price: nat)
    requires Ok(s) && k < |s.ladder| && k < |s.roots| && !HasLevel(s, k, price)
    ensures price !in T.Contents(s.roots[k])
  {
    hide Ok, L.Side, L.Apart, OrgsOk, HashOk, Entries, B.SideOk, B.LevelExists, Priced, T.Contents, T.Bst;
    SideLinks(s, k);
    SideIsOk(s, k);
    NotPriced(Entries(s.hash, s.ord), k, s.ladder[k], price);
  }

  /** What opening a level writes. */
  ghost predicate Opened(s: State, t: State, product: nat, x: nat)
    requires Sizes(s) && x < |s.ord| && B.Key(product, s.ord[x].flags.bid) < |s.ladder|
  {
    var k, price := B.Key(product, s.ord[x].flags.bid), s.ord[x].price;
    var n := Position(s, k, price);
    && Inserted(s, t, product, x) && !HasLevel(s, k, price)
    && (n > 0 ==> HeadSlot(s, k, n - 1) < |s.q1|)
    && t.q1 == (if n == 0 then LinkFirst(s.q1, s.heads[k], x) else LinkAfter(s.q1, HeadSlot(s, k, n - 1), x))
    && t.q2 == s.q2[x := UNLINKED] && t.known == s.known[x := s.ord[x].org]
    && t.heads == s.heads[k := if n == 0 then x else s.heads[k]]
    && |t.roots| == |s.roots| && t.roots == s.roots[k := t.roots[k]]
    && T.Bst(t.roots[k]) && T.Contents(t.roots[k]) == T.Contents(s.roots[k])[price := x]
  }

  lemma EnteredOneSide(s: State, t: State, product: nat, x: nat, k: nat)
    requires Sizes(s) && x < |s.ord| && s.ord[x].id !in s.hash && k < |s.ladder| && Sizes(t)
    requires t.hash == Enter(s, product, x) && t.ord == s.ord && |t.ladder| == |s.ladder|
    requires t.ladder == s.ladder[k := t.ladder[k]] && t.heads == s.heads[k := t.heads[k]] &&
        t.roots == s.roots[k := t.roots[k]]
    requires L.Outside(s.q1, t.q1, SlotLevels(s.hash, s.ladder[k]), x) &&
        L.Outside(s.q2, t.q2, SlotLevels(s.hash, s.ladder[k]), x)
    requires forall y :: 0 <= y < |s.known| && y != x && !L.On(SlotLevels(s.hash, s.ladder[k]), y) ==>
        t.known[y] == s.known[y]
    ensures OneSide(s, t, k, x)
  {
    hide L.Outside, L.On;
  }

  lemma IncomingElsewhere(s: State, product: nat, x: nat, k: nat)
    requires Ok(s) && Incoming(s, product, x) && k < |s.ladder|
    ensures Elsewhere(s, k, x) && !L.On(SlotLevels(s.hash, s.ladder[k]), x) && s.q1[x] == UNLINKED
  {
    forall m | 0 <= m < |s.ladder|
        ensures !L.On(SlotLevels(s.hash, s.ladder[m]), x) { IncomingLoose(s, product, x, m); }
    assert !OnLadder(s.hash, s.ladder, x);
  }

  lemma OpenedShape(s: State, t: State, product: nat, x: nat)
    requires Ok(s) && Incoming(s, product, x) && Opened(s, t, product, x)
    ensures var k := B.Key(product, s.ord[x].flags.bid);
            SlotLevels(t.hash, t.ladder[k]) ==
                L.OpenAt(SlotLevels(s.hash, s.ladder[k]), Position(s, k, s.ord[x].price), x)
  {
    var k := B.Key(product, s.ord[x].flags.bid);
    EnterLevels(s, product, x, k);
    OpenedLevels(t.hash, s.ladder[k], Position(s, k, s.ord[x].price), s.ord[x].id);
  }

  lemma SideLinks(s: State, k: nat)
    requires Ok(s) && k < |s.ladder|
    ensures Sizes(s) && HashOk(s.hash, s.ord)
    ensures L.Side(s.q1, s.q2, SlotLevels(s.hash, s.ladder[k]), s.heads[k]) && L.Apart(SlotLevels(s.hash, s.ladder[k]))
    ensures TreeOk(s.roots[k], Entries(s.hash, s.ord), s.hash, s.ladder[k])
    ensures OrgsOk(s.known, Entries(s.hash, s.ord), s.hash, s.ladder[k])
  {
    assert SideState(s, k);
    SideApart(s, k);
  }

  lemma OpenedLinks(s: State, t: State, product: nat, x: nat)
    requires Ok(s) && Incoming(s, product, x) && Opened(s, t, product, x)
    ensures var k := B.Key(product, s.ord[x].flags.bid);
            && L.Side(t.q1, t.q2, SlotLevels(t.hash, t.ladder[k]), t.heads[k])
            && OneSide(s, t, k, x)
            && (forall y :: L.On(SlotLevels(s.hash, s.ladder[k]), y) ==> L.On(SlotLevels(t.hash, t.ladder[k]), y))
            && L.On(SlotLevels(t.hash, t.ladder[k]), x)
  {
    var k := B.Key(product, s.ord[x].flags.bid);
    var n := Position(s, k, s.ord[x].price);
    var p := SlotLevels(s.hash, s.ladder[k]);
    if n > 0 { SideNonempty(s, k, n - 1); assert p[n - 1][0] == HeadSlot(s, k, n - 1); }
    hide *;
    SideLinks(s, k);
    IncomingElsewhere(s, product, x, k);
    OpenedShape(s, t, product, x);
    OpenedFields(s, t, product, x, k, n);
    L.OpensLevel(s.q1, s.q2, p, s.heads[k], n, x);
    assert t.q1 == L.LinkLevel(s.q1, p, s.heads[k], n, x) by { LinkLevelIs(s.q1, p, s.heads[k], n, x); }
    OpenOn(p, n, x);
    ClearOutside(s.q2, p, x);
    EnteredOneSide(s, t, product, x, k);
  }

  lemma LinkLevelIs(q1: seq<Link>, p: seq<seq<nat>>, head: nat, n: nat, x: nat)
    requires n <= |p| && x < |q1| && (n > 0 ==> p[n - 1] != [] && p[n - 1][0] < |q1|)
    ensures L.LinkLevel(q1, p, head, n, x) == if n == 0 then LinkFirst(q1, head, x) else LinkAfter(q1, p[n - 1][0], x)
  {
  }

  lemma OpenedFields(s: State, t: State, product: nat, x: nat, k: nat, n: nat)
    requires Ok(s) && Incoming(s, product, x) && Opened(s, t, product, x) && k == B.Key(product, s.ord[x].flags.bid)
    requires n == Position(s, k, s.ord[x].price)
    ensures Sizes(t) && Sizes(s) && x < |s.q1| && (n > 0 ==> HeadSlot(s, k, n - 1) < |s.q1|)
    ensures t.hash == Enter(s, product, x) && t.ord == s.ord && |t.ladder| == |s.ladder| && s.ord[x].id !in s.hash
    ensures t.ladder == s.ladder[k := t.ladder[k]] && t.heads == s.heads[k := t.heads[k]] &&
        t.roots == s.roots[k := t.roots[k]]
    ensures t.q1 == if n == 0 then LinkFirst(s.q1, s.heads[k], x) else LinkAfter(s.q1, HeadSlot(s, k, n - 1), x)
    ensures t.q2 == s.q2[x := UNLINKED] && t.heads[k] == if n == 0 then x else s.heads[k]
    ensures forall y :: 0 <= y < |s.known| && y != x ==> t.known[y] == s.known[y]
  {
    hide LinkFirst, LinkAfter, B.PlaceId, Position, HeadSlot, HasLevel, Entries, SideState, HashOk, T.Bst, T.Contents;
    assert Sizes(s);
  }

  lemma ClearOutside(q: seq<Link>, p: seq<seq<nat>>, x: nat)
    requires x < |q|
    ensures L.Outside(q, q[x := UNLINKED], p, x)
  {
  }

  lemma OpenOn(p: seq<seq<nat>>, n: nat, x: nat)
    requires n <= |p|
    ensures L.On(L.OpenAt(p, n, x), x)
    ensures forall y :: L.On(p, y) ==> L.On(L.OpenAt(p, n, x), y)
  {
    var r := L.OpenAt(p, n, x);
    assert x in r[n];
    forall y | L.On(p, y) ensures L.On(r, y) {
      var i :| 0 <= i < |p| && y in p[i];
      assert y in r[if i < n then i else i + 1];
    }
  }

  /** Ids of the level have the same entries, slots and cached organisation in both states. */
  ghost predicate SameOrgs(s: State, t: State, level: seq<nat>) {
    forall j :: 0 <= j < |level| ==>
      && SlotOf(t.hash, level[j]) == SlotOf(s.hash, level[j])
      && level[j] in Entries(s.hash, s.ord) && level[j] in Entries(t.hash, t.ord)
      && Entries(t.hash, t.ord)[level[j]].order.org == Entries(s.hash, s.ord)[level[j]].order.org
  }

  lemma EnteredOrgs(s: State, t: State, product: nat, x: nat, k: nat, i: nat)
    requires Ok(s) && Incoming(s, product, x) && k < |s.ladder| && i < |s.ladder[k]|
    requires t.hash == Enter(s, product, x) && t.ord == s.ord
    ensures SameOrgs(s, t, s.ladder[k][i]) && s.ladder[k][i] != [] && HeadSlot(s, k, i) != x &&
        HeadSlot(s, k, i) < |s.known|
  {
    EnterHash(s, product, x);
    SideNonempty(s, k, i);
    assert Sizes(s);
    forall j | 0 <= j < |s.ladder[k][i]|
      ensures var id := s.ladder[k][i][j];
              id in Entries(s.hash, s.ord) && id in Entries(t.hash, t.ord) &&
                                                    Entries(t.hash, t.ord)[id] == Entries(s.hash, s.ord)[id]
              && SlotOf(t.hash, id) == SlotOf(s.hash, id) && SlotOf(s.hash, id) != x && SlotOf(s.hash, id) < |s.known|
    {
      SideIdAt(s, k, i, j);
    }
  }

  lemma OrgTransfer(s: State, t: State, level: seq<nat>)
    requires OrgKnown(s.known, Entries(s.hash, s.ord), s.hash, level) && SameOrgs(s, t, level) && level != []
    requires var h := SlotOf(s.hash, level[0]);
             h < |s.known| && h < |t.known| && (t.known[h] == s.known[h] || t.known[h] == UNKNOWN)
    ensures OrgKnown(t.known, Entries(t.hash, t.ord), t.hash, level)
  {
  }

  lemma OpenedLevel(s: State, t: State, product: nat, x: nat, k: nat, n: nat)
    requires Ok(s) && Incoming(s, product, x) && Opened(s, t, product, x) && k == B.Key(product, s.ord[x].flags.bid)
    requires n == Position(s, k, s.ord[x].price)
    ensures var id, after := s.ord[x].id, t.ladder[k];
            && n <= |s.ladder[k]| && |after| == |s.ladder[k]| + 1 && after[n] == [id]
            && (forall i :: 0 <= i < |after| && i != n ==> after[i] == s.ladder[k][if i < n then i else i - 1])
            && id in t.hash && t.hash[id] == Loc(x, product) && x < |t.known| && x < |t.ord| &&
                     t.known[x] == t.ord[x].org
  {
    hide LinkFirst, LinkAfter, HeadSlot, Entries, SideState, HashOk, T.Bst, T.Contents;
    assert Sizes(s);
  }

  lemma OpenedOrgs(s: State, t: State, product: nat, x: nat)
    requires Ok(s) && Incoming(s, product, x) && Opened(s, t, product, x)
    ensures var k := B.Key(product, s.ord[x].flags.bid); OrgsOk(t.known, Entries(t.hash, t.ord), t.hash, t.ladder[k])
  {
    var k, id := B.Key(product, s.ord[x].flags.bid), s.ord[x].id;
    var n := Position(s, k, s.ord[x].price);
    hide Ok, Incoming, Opened, OrgKnown, Entries, L.OpenAt, Position;
    var after := t.ladder[k];
    OpenedFields(s, t, product, x, k, n);
    OpenedLevel(s, t, product, x, k, n);
    forall i | 0 <= i < |after| ensures OrgKnown(t.known, Entries(t.hash, t.ord), t.hash, after[i]) {
      if i == n {
        NewLevelOrg(t, product, x, id);
      } else {
        KeptLevelOrg(s, t, product, x, k, if i < n then i else i - 1);
      }
    }
  }

  lemma KeptLevelOrg(s: State, t: State, product: nat, x: nat, k: nat, m: nat)
    requires Ok(s) && Incoming(s, product, x) && k < |s.ladder| && m < |s.ladder[k]|
    requires t.hash == Enter(s, product, x) && t.ord == s.ord && |t.known| == |s.known|
    requires forall y :: 0 <= y < |s.known| && y != x ==> t.known[y] == s.known[y]
    ensures OrgKnown(t.known, Entries(t.hash, t.ord), t.hash, s.ladder[k][m])
  {
    SideLinks(s, k);
    EnteredOrgs(s, t, product, x, k, m);
    assert OrgKnown(s.known, Entries(s.hash, s.ord), s.hash, s.ladder[k][m]);
    OrgTransfer(s, t, s.ladder[k][m]);
  }

  lemma NewLevelOrg(t: State, product: nat, x: nat, id: nat)
    requires id in t.hash && t.hash[id] == Loc(x, product) && x < |t.ord| && x < |t.known| && t.known[x] == t.ord[x].org
    ensures OrgKnown(t.known, Entries(t.hash, t.ord), t.hash, [id])
  {
  }

  /** Opening a level at the position the descent finds keeps the state sound. */
  lemma OpenOk(s: State, t: State, product: nat, x: nat)
    requires Ok(s) && Incoming(s, product, x) && Opened(s, t, product, x)
    ensures Ok(t) && Abs(t) == B.Insert(Abs(s), product, s.ord[x])
  {
    var k, id := B.Key(product, s.ord[x].flags.bid), s.ord[x].id;
    var n := Position(s, k, s.ord[x].price);
    OpenedLinks(s, t, product, x);
    IncomingElsewhere(s, product, x, k);
    OpenedOrgs(s, t, product, x);
    InsertedSide(s, t, product, x);
    InsertedAbs(s, t, product, x);
    FreshPrice(s, k, s.ord[x].price);
    OpenedTree(s, t, product, x);
    hide L.Side, TreeOk, OrgsOk;
    LooseAfter(s, t, k, x);
    OneSideOk(s, t, k, x);
  }

  lemma OpenedTree(s: State, t: State, product: nat, x: nat)
    requires Ok(s) && Incoming(s, product, x) && Opened(s, t, product, x)
    ensures var k := B.Key(product, s.ord[x].flags.bid); TreeOk(t.roots[k], Entries(t.hash, t.ord), t.hash, t.ladder[k])
  {
    hide L.Side, OrgsOk, TreeOk, HashOk, LinkFirst, LinkAfter, SlotLevels, B.SideOk, T.Bst, T.Contents, Entries;
    var k, id := B.Key(product, s.ord[x].flags.bid), s.ord[x].id;
    var e, f := Entries(s.hash, s.ord), Entries(t.hash, t.ord);
    assert SideState(s, k);
    InsertedSide(s, t, product, x);
    FreshPrice(s, k, s.ord[x].price);
    forall i | 0 <= i < |s.ladder[k]| && s.ladder[k][i] != []
        ensures SlotOf(s.hash, s.ladder[k][i][0]) == SlotOf(t.hash, s.ladder[k][i][0]) {
      SideIdAt(s, k, i, 0);
    }
    TreeFrame(s.roots[k], e, e, s.hash, t.hash, s.ladder[k]);
    EnterHash(s, product, x);
    InsertTreeOpen(s.roots[k], t.roots[k], e, f, t.hash, s.ladder[k], t.ladder[k], Position(s, k, s.ord[x].price), id);
  }

  /** What appending to a level writes. */
  ghost predicate Appended(s: State, t: State, product: nat, x: nat)
    requires Sizes(s) && x < |s.ord| && B.Key(product, s.ord[x].flags.bid) < |s.ladder|
  {
    var k, price := B.Key(product, s.ord[x].flags.bid), s.ord[x].price;
    && Inserted(s, t, product, x) && HasLevel(s, k, price)
    && var h := HeadSlot(s, k, Position(s, k, price));
       && h < |s.q2| && FifoTail(s.q2, h) < |s.q2|
       && t.q1 == s.q1 && t.q2 == FifoPush(s.q2, h, x) && t.heads == s.heads && t.roots == s.roots
       && t.known == if s.known[h] != UNKNOWN && s.known[h] != s.ord[x].org then s.known[h := UNKNOWN] else s.known
  }

  lemma AppendOn(p: seq<seq<nat>>, n: nat, x: nat)
    requires n < |p|
    ensures L.On(p[n := p[n] + [x]], x)
    ensures forall y :: L.On(p, y) ==> L.On(p[n := p[n] + [x]], y)
  {
    var r := p[n := p[n] + [x]];
    assert r[n][|p[n]|] == x;
    assert x in r[n];
    forall y | L.On(p, y) ensures L.On(r, y) {
      var i :| 0 <= i < |p| && y in p[i];
      assert y in r[i];
    }
  }

  lemma AppendedShape(s: State, t: State, product: nat, x: nat)
    requires Ok(s) && Incoming(s, product, x) && Appended(s, t, product, x)
    ensures var k := B.Key(product, s.ord[x].flags.bid);
            var n, p := Position(s, k, s.ord[x].price), SlotLevels(s.hash, s.ladder[k]);
            && n < |p| && SlotLevels(t.hash, t.ladder[k]) == p[n := p[n] + [x]]
            && s.ladder[k][n] != [] && p[n] != [] && p[n][0] == HeadSlot(s, k, n) && L.On(p, HeadSlot(s, k, n))
  {
    var k := B.Key(product, s.ord[x].flags.bid);
    var n := Position(s, k, s.ord[x].price);
    SideNonempty(s, k, n);
    EnterLevels(s, product, x, k);
    AppendedLevels(t.hash, s.ladder[k], n, s.ord[x].id);
    L.HeadOn(SlotLevels(s.hash, s.ladder[k]), n, 0);
  }

  lemma AppendedFields(s: State, t: State, product: nat, x: nat, k: nat, h: nat)
    requires Ok(s) && Incoming(s, product, x) && Appended(s, t, product, x) && k == B.Key(product, s.ord[x].flags.bid)
    requires h == HeadSlot(s, k, Position(s, k, s.ord[x].price))
    ensures Sizes(t) && Sizes(s) && x < |s.q1| && h < |s.q2| && FifoTail(s.q2, h) < |s.q2|
    ensures t.hash == Enter(s, product, x) && t.ord == s.ord && |t.ladder| == |s.ladder| && s.ord[x].id !in s.hash
    ensures t.ladder == s.ladder[k := t.ladder[k]] && t.heads == s.heads[k := t.heads[k]] &&
        t.roots == s.roots[k := t.roots[k]]
    ensures t.q1 == s.q1 && t.q2 == FifoPush(s.q2, h, x) && t.heads[k] == s.heads[k]
    ensures forall y :: 0 <= y < |s.known| && y != h ==> t.known[y] == s.known[y]
  {
    assert Sizes(s);
  }

  lemma AppendedLinks(s: State, t: State, product: nat, x: nat)
    requires Ok(s) && Incoming(s, product, x) && Appended(s, t, product, x)
    ensures var k := B.Key(product, s.ord[x].flags.bid);
            && L.Side(t.q1, t.q2, SlotLevels(t.hash, t.ladder[k]), t.heads[k])
            && OneSide(s, t, k, x)
            && (forall y :: L.On(SlotLevels(s.hash, s.ladder[k]), y) ==> L.On(SlotLevels(t.hash, t.ladder[k]), y))
            && L.On(SlotLevels(t.hash, t.ladder[k]), x)
  {
    var k := B.Key(product, s.ord[x].flags.bid);
    var n := Position(s, k, s.ord[x].price);
    var p := SlotLevels(s.hash, s.ladder[k]);
    hide *;
    SideLinks(s, k);
    IncomingElsewhere(s, product, x, k);
    AppendedShape(s, t, product, x);
    AppendedFields(s, t, product, x, k, HeadSlot(s, k, n));
    L.AppendsToLevel(s.q1, s.q2, p, s.heads[k], n, x);
    AppendOn(p, n, x);
    SameOutside(s.q1, p, x);
    EnteredOneSide(s, t, product, x, k);
  }

  lemma SideNonempty(s: State, k: nat, n: nat)
    requires Ok(s) && k < |s.ladder| && n < |s.ladder[k]|
    ensures s.ladder[k][n] != []
  {
    assert B.SideOk(Entries(s.hash, s.ord), k, s.ladder[k]);
    assert B.LevelOk(Entries(s.hash, s.ord), k, s.ladder[k][n]);
  }

  lemma SameOutside(q: seq<Link>, p: seq<seq<nat>>, x: nat)
    ensures L.Outside(q, q, p, x)
  {
  }

  lemma AppendedLevel(s: State, t: State, product: nat, x: nat, k: nat, n: nat)
    requires Ok(s) && Incoming(s, product, x) && Appended(s, t, product, x) && k == B.Key(product, s.ord[x].flags.bid)
    requires n == Position(s, k, s.ord[x].price)
    ensures n < |s.ladder[k]| && |t.ladder| == |s.ladder| &&
        t.ladder[k] == s.ladder[k][n := s.ladder[k][n] + [s.ord[x].id]]
    ensures HeadSlot(s, k, n) < |s.known| == |t.known|
    ensures t.known[HeadSlot(s, k, n)] in {s.known[HeadSlot(s, k, n)], UNKNOWN} * {s.ord[x].org, UNKNOWN}
  {
    assert Sizes(s);
  }

  lemma AppendedOrg(s: State, t: State, product: nat, x: nat, k: nat, n: nat, i: nat)
    requires Ok(s) && Incoming(s, product, x) && Appended(s, t, product, x) && k == B.Key(product, s.ord[x].flags.bid)
    requires n == Position(s, k, s.ord[x].price) && i < |s.ladder[k]| && |t.ladder| == |s.ladder| && i < |t.ladder[k]|
    ensures OrgKnown(t.known, Entries(t.hash, t.ord), t.hash, t.ladder[k][i])
  {
    hide Ok, TreeOk, HashOk, Appended, Entries, OrgKnown, L.Side, L.Apart, Position, SameOrgs;
    SideLinks(s, k);
    AppendedLevel(s, t, product, x, k, n);
    AppendedFields(s, t, product, x, k, HeadSlot(s, k, n));
    EnteredOrgs(s, t, product, x, k, i);
    if i != n { HeadsDiffer(s, k, i, n); }
    OrgTransfer(s, t, s.ladder[k][i]);
    if i == n { GrownLevelOrg(t, s.ladder[k][n], product, x, s.ord[x].id); }
  }

  lemma AppendedOrgs(s: State, t: State, product: nat, x: nat)
    requires Ok(s) && Incoming(s, product, x) && Appended(s, t, product, x)
    ensures var k := B.Key(product, s.ord[x].flags.bid); OrgsOk(t.known, Entries(t.hash, t.ord), t.hash, t.ladder[k])
  {
    var k := B.Key(product, s.ord[x].flags.bid);
    assert Sizes(s);
    var n := Position(s, k, s.ord[x].price);
    hide Ok, Appended, Entries, OrgKnown;
    AppendedLevel(s, t, product, x, k, n);
    forall i | 0 <= i < |t.ladder[k]| ensures OrgKnown(t.known, Entries(t.hash, t.ord), t.hash, t.ladder[k][i]) {
      AppendedOrg(s, t, product, x, k, n, i);
    }
  }

  lemma GrownLevelOrg(t: State, level: seq<nat>, product: nat, x: nat, id: nat)
    requires OrgKnown(t.known, Entries(t.hash, t.ord), t.hash, level) && level != []
    requires id in t.hash && t.hash[id] == Loc(x, product) && x < |t.ord|
    requires SlotOf(t.hash, level[0]) < |t.known|
    requires t.known[SlotOf(t.hash, level[0])] == UNKNOWN || t.known[SlotOf(t.hash, level[0])] == t.ord[x].org
    ensures OrgKnown(t.known, Entries(t.hash, t.ord), t.hash, level + [id])
  {
  }

  lemma HeadsDiffer(s: State, k: nat, i: nat, n: nat)
    requires Ok(s) && k < |s.ladder| && i < |s.ladder[k]| && n < |s.ladder[k]| && i != n
    ensures HeadSlot(s, k, i) != HeadSlot(s, k, n)
  {
    SideNonempty(s, k, i);
    SideNonempty(s, k, n);
    SideIdAt(s, k, i, 0);
    SideIdAt(s, k, n, 0);
    SideApart(s, k);
  }

  /** Appending to a level keeps the state sound. */
  lemma AppendOk(s: State, t: State, product: nat, x: nat)
    requires Ok(s) && Incoming(s, product, x) && Appended(s, t, product, x)
    ensures Ok(t) && Abs(t) == B.Insert(Abs(s), product, s.ord[x])
  {
    var k, id := B.Key(product, s.ord[x].flags.bid), s.ord[x].id;
    AppendedLinks(s, t, product, x);
    IncomingElsewhere(s, product, x, k);
    AppendedOrgs(s, t, product, x);
    InsertedSide(s, t, product, x);
    InsertedAbs(s, t, product, x);
    AppendedTree(s, t, product, x);
    hide L.Side, TreeOk, OrgsOk;
    LooseAfter(s, t, k, x);
    OneSideOk(s, t, k, x);
  }

  lemma AppendedTree(s: State, t: State, product: nat, x: nat)
    requires Ok(s) && Incoming(s, product, x) && Appended(s, t, product, x)
    ensures var k := B.Key(product, s.ord[x].flags.bid); TreeOk(t.roots[k], Entries(t.hash, t.ord), t.hash, t.ladder[k])
  {
    hide L.Side, OrgsOk, TreeOk, HashOk, SlotLevels, B.SideOk, T.Bst, T.Contents, Entries, FifoPush;
    var k, id := B.Key(product, s.ord[x].flags.bid), s.ord[x].id;
    var e, f := Entries(s.hash, s.ord), Entries(t.hash, t.ord);
    assert SideState(s, k);
    InsertedSide(s, t, product, x);
    forall i | 0 <= i < |s.ladder[k]| && s.ladder[k][i] != []
        ensures SlotOf(s.hash, s.ladder[k][i][0]) == SlotOf(t.hash, s.ladder[k][i][0]) {
      SideIdAt(s, k, i, 0);
    }
    TreeFrame(s.roots[k], e, e, s.hash, t.hash, s.ladder[k]);
    SideNonempty(s, k, Position(s, k, s.ord[x].price));
    InsertTreeAppend(s.roots[k], e, f, t.hash, s.ladder[k], Position(s, k, s.ord[x].price), id);
  }

  // ------------------------------------------------------------- detaching

  /** `id` is the order at position `j` of level `n` on side `k`. */
  ghost predicate At(s: State, k: nat, n: nat, j: nat, id: nat) {
    k < |s.ladder| && n < |s.ladder[k]| && j < |s.ladder[k][n]| && s.ladder[k][n][j] == id
  }

  lemma RemovedIds(e: map<nat, B.Entry>, k: nat, levels: seq<seq<nat>>, n: nat, j: nat, id: nat)
    requires B.SideOk(e, k, levels) && n < |levels| && j < |levels[n]| && levels[n][j] == id
    ensures B.RemoveId(levels, id) == L.DropAt(levels, n, j)
    ensures B.SideOk(e, k, L.DropAt(levels, n, j))
  {
    var pre, post, a, c := levels[..n], levels[n + 1..], levels[n][..j], levels[n][j + 1..];
    assert levels[n] == a + [id] + c;
    assert levels == pre + [levels[n]] + post;
    assert id in levels[n];
    forall i | 0 <= i < |pre| ensures id !in pre[i] { B.LevelsDisjoint(e, k, levels, i, n, id); }
    assert B.LevelOk(e, k, levels[n]);
    B.RemoveIdAt(pre, a, id, c, post);
    assert Delete(levels[n], j) == a + c;
    if |levels[n]| == 1 { assert a + c == []; assert pre + B.Glue(a + c, post) == L.DropAt(levels, n, j); }
    else { assert pre + B.Glue(a + c, post) == L.DropAt(levels, n, j); }
    assert B.OnSide(levels, id);
    B.RemoveIdKeepsSide(e, k, levels, id);
  }

  lemma DroppedSlots(hash: map<nat, Loc>, levels: seq<seq<nat>>, n: nat, j: nat)
    requires n < |levels| && j < |levels[n]|
    ensures SlotLevels(hash, L.DropAt(levels, n, j)) == L.DropAt(SlotLevels(hash, levels), n, j)
  {
    var p := SlotLevels(hash, levels);
    if |levels[n]| == 1 {
      L.DroppedAt(levels, n);
      L.DroppedAt(p, n);
      hide L.DropAt, Slots;
      assert SlotLevels(hash, L.DropAt(levels, n, j)) == L.DropAt(p, n, j);
    } else {
      assert Slots(hash, Delete(levels[n], j)) == Delete(p[n], j);
      hide Slots, Delete;
      assert SlotLevels(hash, L.DropAt(levels, n, j)) == L.DropAt(p, n, j);
    }
  }

  lemma DropOn(p: seq<seq<nat>>, n: nat, j: nat)
    requires n < |p| && j < |p[n]|
    ensures forall y :: y != p[n][j] && L.On(p, y) ==> L.On(L.DropAt(p, n, j), y)
  {
    var r := L.DropAt(p, n, j);
    forall y | y != p[n][j] && L.On(p, y) ensures L.On(r, y) {
      var i :| 0 <= i < |p| && y in p[i];
      var m :| 0 <= m < |p[i]| && p[i][m] == y;
      if |p[n]| == 1 {
        assert r[if i < n then i else i - 1] == p[i];
      } else if i == n {
        assert Delete(p[n], j)[if m < j then m else m - 1] == y;
        assert y in r[n];
      } else {
        assert r[i] == p[i];
      }
    }
  }

  /** What all three ways of detaching have in common. */
  ghost predicate Detaches(s: State, t: State, k: nat, n: nat, j: nat, id: nat) {
    && At(s, k, n, j, id) && Sizes(s) && Sizes(t) && |t.q1| == |s.q1|
    && t.hash == s.hash && t.ord == s.ord && t.ladder == s.ladder[k := L.DropAt(s.ladder[k], n, j)]
    && t.heads == s.heads[k := t.heads[k]] && t.roots == s.roots[k := t.roots[k]]
  }

  ghost predicate DetachedLinks(s: State, t: State, k: nat, x: nat)
    requires k < |s.ladder| && k < |t.ladder| && |t.heads| == |t.ladder|
  {
    && L.Side(t.q1, t.q2, SlotLevels(t.hash, t.ladder[k]), t.heads[k])
    && L.Outside(s.q1, t.q1, SlotLevels(s.hash, s.ladder[k]), x) &&
       L.Outside(s.q2, t.q2, SlotLevels(s.hash, s.ladder[k]), x)
    && x < |t.q1| && x < |t.q2| && t.q1[x] == UNLINKED && t.q2[x] == UNLINKED
  }

  lemma DetachedElsewhere(s: State, k: nat, n: nat, j: nat, id: nat)
    requires Ok(s) && At(s, k, n, j, id)
    ensures Elsewhere(s, k, SlotOf(s.hash, id))
  {
    var x := SlotOf(s.hash, id);
    SideIdAt(s, k, n, j);
    L.HeadOn(SlotLevels(s.hash, s.ladder[k]), n, j);
    forall m | 0 <= m < |s.ladder| && m != k
        ensures !L.On(SlotLevels(s.hash, s.ladder[m]), x) { SidesApart(s, k, m, x); }
  }

  lemma DetachedOneSide(s: State, t: State, k: nat, n: nat, j: nat, id: nat)
    requires Detaches(s, t, k, n, j, id) && DetachedLinks(s, t, k, SlotOf(s.hash, id))
    requires forall y :: 0 <= y < |s.known| && !L.On(SlotLevels(s.hash, s.ladder[k]), y) ==> t.known[y] == s.known[y]
    ensures OneSide(s, t, k, SlotOf(s.hash, id))
  {
    hide L.Side, L.Outside, L.On, L.DropAt;
  }

  lemma DetachOk(s: State, t: State, k: nat, n: nat, j: nat, id: nat)
    requires Ok(s) && Detaches(s, t, k, n, j, id) && DetachedLinks(s, t, k, SlotOf(s.hash, id))
    requires forall y :: 0 <= y < |s.known| && !L.On(SlotLevels(s.hash, s.ladder[k]), y) ==> t.known[y] == s.known[y]
    requires TreeOk(t.roots[k], Entries(s.hash, s.ord), s.hash, t.ladder[k])
    requires OrgsOk(t.known, Entries(s.hash, s.ord), s.hash, t.ladder[k])
    ensures Ok(t) && t.ladder[k] == B.RemoveId(s.ladder[k], id)
  {
    var x := SlotOf(s.hash, id);
    var e := Entries(s.hash, s.ord);
    var p := SlotLevels(s.hash, s.ladder[k]);
    assert B.SideOk(e, k, s.ladder[k]) && HashOk(s.hash, s.ord);
    assert p[n][j] == x;
    DetachedOneSide(s, t, k, n, j, id);
    DetachedElsewhere(s, k, n, j, id);
    hide Ok, TreeOk, OrgsOk, L.Side, L.Outside, L.On, OneSide, Elsewhere;
    RemovedIds(e, k, s.ladder[k], n, j, id);
    DroppedSlots(s.hash, s.ladder[k], n, j);
    DropOn(p, n, j);
    LooseAfter(s, t, k, x);
    assert SideState(t, k);
    OneSideOk(s, t, k, x);
  }

  // ---- the last order of a level

  ghost predicate DetachedLast(s: State, t: State, k: nat, n: nat, id: nat) {
    && Detaches(s, t, k, n, 0, id) && |s.ladder[k][n]| == 1
    && var x := SlotOf(s.hash, id);
       && x < |s.q1| && x < |s.ord| && t.q1 == Unlink(s.q1, x) && t.q2 == s.q2 && t.known == s.known
       && t.heads[k] == (if s.heads[k] == x then s.q1[x].next else s.heads[k])
       && T.Bst(t.roots[k]) && T.Contents(t.roots[k]) == T.Contents(s.roots[k]) - {s.ord[x].price}
  }

  lemma LastLinks(s: State, t: State, k: nat, n: nat, id: nat)
    requires Ok(s) && DetachedLast(s, t, k, n, id)
    ensures DetachedLinks(s, t, k, SlotOf(s.hash, id))
  {
    var p := SlotLevels(s.hash, s.ladder[k]);
    assert p[n][0] == SlotOf(s.hash, id) && |p[n]| == 1;
    SideLinks(s, k);
    DroppedSlots(s.hash, s.ladder[k], n, 0);
    hide Ok, TreeOk, OrgsOk, L.Side, L.Outside, L.On, L.Apart, Unlink, SlotLevels, L.DropAt;
    L.DropsLevel(s.q1, s.q2, p, s.heads[k], n);
    SameOutside(s.q2, p, SlotOf(s.hash, id));
  }

  lemma PriceAt(s: State, k: nat, n: nat, j: nat, id: nat)
    requires Ok(s) && At(s, k, n, j, id)
    ensures var x := SlotOf(s.hash, id);
        x < |s.ord| && id in s.hash && B.LevelPrice(Entries(s.hash, s.ord), s.ladder[k][n]) == s.ord[x].price
    ensures forall i :: 0 <= i < |s.ladder[k]| && i != n ==>
      B.LevelPrice(Entries(s.hash, s.ord), s.ladder[k][i]) != B.LevelPrice(Entries(s.hash, s.ord), s.ladder[k][n])
  {
    SideIdAt(s, k, n, j);
    var e := Entries(s.hash, s.ord);
    assert B.SideOk(e, k, s.ladder[k]);
    assert B.LevelOk(e, k, s.ladder[k][n]);
    forall i | 0 <= i < |s.ladder[k]| && i != n
        ensures B.LevelPrice(e, s.ladder[k][i]) != B.LevelPrice(e, s.ladder[k][n]) {
      if i < n { assert B.Rank(k, B.LevelPrice(e, s.ladder[k][i])) < B.Rank(k, B.LevelPrice(e, s.ladder[k][n])); }
      else { assert B.Rank(k, B.LevelPrice(e, s.ladder[k][n])) < B.Rank(k, B.LevelPrice(e, s.ladder[k][i])); }
    }
  }

  lemma TreeDropLevel(root: T.Tree, root': T.Tree, e: map<nat, B.Entry>, hash: map<nat, Loc>, levels: seq<seq<nat>>,
                      n: nat)
    requires TreeOk(root, e, hash, levels) && n < |levels| && |levels[n]| == 1
    requires forall i :: 0 <= i < |levels| && i != n ==> B.LevelPrice(e, levels[i]) != B.LevelPrice(e, levels[n])
    requires T.Bst(root') && T.Contents(root') == T.Contents(root) - {B.LevelPrice(e, levels[n])}
    ensures TreeOk(root', e, hash, L.DropAt(levels, n, 0))
  {
    hide L.DropAt, T.Bst, T.Contents, Priced, SlotOf, B.LevelPrice;
    L.DroppedAt(levels, n);
    var after := L.DropAt(levels, n, 0);
    forall i | 0 <= i < |after| && after[i] != []
      ensures B.LevelPrice(e, after[i]) in T.Contents(root') &&
                                           T.Contents(root')[B.LevelPrice(e, after[i])] == SlotOf(hash, after[i][0])
    {
      assert after[i] == levels[if i < n then i else i + 1];
    }
    forall p | p in T.Contents(root') ensures Priced(e, after, p) { DroppedPriced(e, levels, after, n, p); }
  }

  lemma DroppedPriced(e: map<nat, B.Entry>, levels: seq<seq<nat>>, after: seq<seq<nat>>, n: nat, p: nat)
    requires n < |levels| && |after| == |levels| - 1 && Priced(e, levels, p) && B.LevelPrice(e, levels[n]) != p
    requires forall i :: 0 <= i < |after| ==> after[i] == levels[if i < n then i else i + 1]
    ensures Priced(e, after, p)
  {
    var i :| 0 <= i < |levels| && B.LevelPrice(e, levels[i]) == p;
    var j := if i < n then i else i - 1;
    assert after[j] == levels[i];
    assert B.LevelPrice(e, after[j]) == p;
  }

  lemma OrgsDropLevel(known: seq<nat>, e: map<nat, B.Entry>, hash: map<nat, Loc>, levels: seq<seq<nat>>, n: nat)
    requires OrgsOk(known, e, hash, levels) && n < |levels| && |levels[n]| == 1
    ensures OrgsOk(known, e, hash, L.DropAt(levels, n, 0))
  {
    L.DroppedAt(levels, n);
    hide L.DropAt, OrgKnown;
  }

  lemma DetachLastOk(s: State, t: State, k: nat, n: nat, id: nat)
    requires Ok(s) && DetachedLast(s, t, k, n, id)
    ensures Ok(t) && t.ladder[k] == B.RemoveId(s.ladder[k], id) && t.hash == s.hash && t.ord == s.ord
    ensures var x := SlotOf(s.hash, id); x < |t.q1| && t.q1[x] == UNLINKED && t.q2[x] == UNLINKED
  {
    LastLinks(s, t, k, n, id);
    SideLinks(s, k);
    PriceAt(s, k, n, 0, id);
    hide L.Side, L.Outside, L.On, L.Apart, Ok, TreeOk, OrgsOk, Unlink;
    TreeDropLevel(s.roots[k], t.roots[k], Entries(s.hash, s.ord), s.hash, s.ladder[k], n);
    OrgsDropLevel(s.known, Entries(s.hash, s.ord), s.hash, s.ladder[k], n);
    DetachOk(s, t, k, n, 0, id);
  }

  // ---- the head of a longer level

  ghost predicate DetachedHead(s: State, t: State, k: nat, n: nat, id: nat) {
    && Detaches(s, t, k, n, 0, id) && |s.ladder[k][n]| >= 2
    && var x, y := SlotOf(s.hash, id), SlotOf(s.hash, s.ladder[k][n][1]);
       && x < |s.q1| && y < |s.q1| && t.q1 == Replace(s.q1, x, y) && t.q2 == FifoPromote(s.q2, x, y)
       && t.known == s.known[y := s.known[x]]
       && t.heads[k] == (if s.heads[k] == x then y else s.heads[k])
       && T.Bst(t.roots[k]) &&
          T.Contents(t.roots[k]) == (T.Contents(s.roots[k]) - {s.ord[x].price})[s.ord[x].price := y]
  }

  lemma HeadLinks(s: State, t: State, k: nat, n: nat, id: nat)
    requires Ok(s) && DetachedHead(s, t, k, n, id)
    ensures DetachedLinks(s, t, k, SlotOf(s.hash, id))
    ensures L.On(SlotLevels(s.hash, s.ladder[k]), SlotOf(s.hash, s.ladder[k][n][1]))
  {
    var p := SlotLevels(s.hash, s.ladder[k]);
    assert p[n][0] == SlotOf(s.hash, id) && |p[n]| >= 2 && p[n][1] == SlotOf(s.hash, s.ladder[k][n][1]);
    SideLinks(s, k);
    DroppedSlots(s.hash, s.ladder[k], n, 0);
    L.HeadOn(p, n, 1);
    hide Ok, TreeOk, OrgsOk, L.Side, L.Outside, L.On, L.Apart, Replace, FifoPromote, SlotLevels, L.DropAt;
    L.Promotes(s.q1, s.q2, p, s.heads[k], n);
  }

  lemma TreePromote(root: T.Tree, root': T.Tree, e: map<nat, B.Entry>, hash: map<nat, Loc>, levels: seq<seq<nat>>,
                    n: nat)
    requires TreeOk(root, e, hash, levels) && n < |levels| && |levels[n]| >= 2
    requires forall i :: 0 <= i < |levels| && i != n ==> B.LevelPrice(e, levels[i]) != B.LevelPrice(e, levels[n])
    requires B.LevelPrice(e, Delete(levels[n], 0)) == B.LevelPrice(e, levels[n])
    requires T.Bst(root') &&
        T.Contents(root') == (T.Contents(root) - {B.LevelPrice(e, levels[n])})[B.LevelPrice(e, levels[n]) :=
        SlotOf(hash, levels[n][1])]
    ensures TreeOk(root', e, hash, L.DropAt(levels, n, 0))
  {
    var after := L.DropAt(levels, n, 0);
    assert after == levels[n := Delete(levels[n], 0)];
    assert after[n][0] == levels[n][1];
    forall p | p in T.Contents(root') ensures Priced(e, after, p) {
      if p == B.LevelPrice(e, levels[n]) {
        assert B.LevelPrice(e, after[n]) == p;
      } else {
        var i :| 0 <= i < |levels| && B.LevelPrice(e, levels[i]) == p;
        assert B.LevelPrice(e, after[i]) == p;
      }
    }
  }

  lemma OrgShrink(known: seq<nat>, known': seq<nat>, e: map<nat, B.Entry>, hash: map<nat, Loc>, level: seq<nat>, j: nat)
    requires OrgKnown(known, e, hash, level) && j < |level| && |level| >= 2 &&
        SlotOf(hash, level[0]) < |known| == |known'|
    requires var h := SlotOf(hash, Delete(level, j)[0]); h < |known| && known'[h] == known[SlotOf(hash, level[0])]
    ensures OrgKnown(known', e, hash, Delete(level, j))
  {
  }

  lemma OrgSame(known: seq<nat>, known': seq<nat>, e: map<nat, B.Entry>, hash: map<nat, Loc>, level: seq<nat>)
    requires OrgKnown(known, e, hash, level) && |known'| == |known|
    requires level != [] && SlotOf(hash, level[0]) < |known| ==>
        known'[SlotOf(hash, level[0])] == known[SlotOf(hash, level[0])]
    ensures OrgKnown(known', e, hash, level)
  {
  }

  /** Position `m` of level `i` and the head of another level are different slots. */
  lemma NotThatHead(s: State, k: nat, i: nat, n: nat, m: nat)
    requires Ok(s) && k < |s.ladder| && i < |s.ladder[k]| && n < |s.ladder[k]| && m < |s.ladder[k][n]| && i != n
    ensures s.ladder[k][i] != [] && SlotOf(s.hash, s.ladder[k][i][0]) != SlotOf(s.hash, s.ladder[k][n][m])
  {
    SideNonempty(s, k, i);
    SideIdAt(s, k, i, 0);
    SideIdAt(s, k, n, m);
    SideApart(s, k);
  }

  lemma HeadFields(s: State, t: State, k: nat, n: nat, id: nat)
    requires Ok(s) && DetachedHead(s, t, k, n, id)
    ensures At(s, k, n, 0, id) && |s.ladder[k][n]| >= 2 && Sizes(s) && |t.known| == |s.known| &&
        Detaches(s, t, k, n, 0, id)
    ensures k < |t.ladder| && t.ladder[k] == s.ladder[k][n := Delete(s.ladder[k][n], 0)] &&
        t.ladder[k] == L.DropAt(s.ladder[k], n, 0)
    ensures var x, y := SlotOf(s.hash, id), SlotOf(s.hash, s.ladder[k][n][1]);
            && x < |s.known| && y < |s.known| && t.known[y] == s.known[x]
            && (forall z :: 0 <= z < |s.known| && z != y ==> t.known[z] == s.known[z])
            && x < |s.ord| && T.Bst(t.roots[k]) &&
               T.Contents(t.roots[k]) == (T.Contents(s.roots[k]) - {s.ord[x].price})[s.ord[x].price := y]
    ensures t.hash == s.hash && t.ord == s.ord
  {
    assert Sizes(s);
  }

  lemma HeadOrgAt(s: State, t: State, k: nat, n: nat, id: nat, i: nat)
    requires Ok(s) && At(s, k, n, 0, id) && |s.ladder[k][n]| >= 2 && Sizes(s) && |t.known| == |s.known| &&
        i < |s.ladder[k]|
    requires var x, y := SlotOf(s.hash, id), SlotOf(s.hash, s.ladder[k][n][1]);
             && x < |s.known| && y < |s.known| && t.known[y] == s.known[x]
             && (forall z :: 0 <= z < |s.known| && z != y ==> t.known[z] == s.known[z])
    ensures OrgKnown(t.known, Entries(s.hash, s.ord), s.hash, if i == n then Delete(s.ladder[k][n], 0)
        else s.ladder[k][i])
  {
    var e, levels := Entries(s.hash, s.ord), s.ladder[k];
    SideLinks(s, k);
    assert OrgKnown(s.known, e, s.hash, levels[i]);
    hide *;
    if i == n {
      OrgShrink(s.known, t.known, e, s.hash, levels[n], 0);
    } else {
      NotThatHead(s, k, i, n, 1);
      OrgSame(s.known, t.known, e, s.hash, levels[i]);
    }
  }

  lemma HeadOrgs(s: State, t: State, k: nat, n: nat, id: nat)
    requires Ok(s) && DetachedHead(s, t, k, n, id)
    ensures k < |t.ladder| && OrgsOk(t.known, Entries(s.hash, s.ord), s.hash, t.ladder[k])
  {
    hide Ok, DetachedHead, OrgKnown, Entries, Delete;
    HeadFields(s, t, k, n, id);
    forall i | 0 <= i < |t.ladder[k]| ensures OrgKnown(t.known, Entries(s.hash, s.ord), s.hash, t.ladder[k][i]) {
      HeadOrgAt(s, t, k, n, id, i);
    }
  }

  lemma HeadTree(s: State, t: State, k: nat, n: nat, id: nat)
    requires Ok(s) && DetachedHead(s, t, k, n, id)
    ensures k < |t.ladder| && k < |t.roots| && TreeOk(t.roots[k], Entries(s.hash, s.ord), s.hash, t.ladder[k])
  {
    hide *;
    HeadFields(s, t, k, n, id);
    InBounds(s, t, k, n, id);
    SideLinks(s, k);
    PriceAt(s, k, n, 0, id);
    SecondPrice(s, k, n);
    TreePromote(s.roots[k], t.roots[k], Entries(s.hash, s.ord), s.hash, s.ladder[k], n);
  }

  lemma InBounds(s: State, t: State, k: nat, n: nat, id: nat)
    requires Detaches(s, t, k, n, 0, id)
    ensures k < |s.ladder| && n < |s.ladder[k]| && k < |s.roots| && k < |t.roots| && k < |t.ladder|
  {
  }

  lemma DetachHeadOk(s: State, t: State, k: nat, n: nat, id: nat)
    requires Ok(s) && DetachedHead(s, t, k, n, id)
    ensures Ok(t) && k < |s.ladder| && k < |t.ladder| && t.ladder[k] == B.RemoveId(s.ladder[k], id) &&
        t.hash == s.hash && t.ord == s.ord
    ensures var x := SlotOf(s.hash, id); x < |t.q1| && x < |t.q2| && t.q1[x] == UNLINKED && t.q2[x] == UNLINKED
  {
    HeadLinks(s, t, k, n, id);
    HeadOrgs(s, t, k, n, id);
    HeadTree(s, t, k, n, id);
    HeadFields(s, t, k, n, id);
    hide L.Side, L.Outside, L.On, L.Apart, Ok, TreeOk, OrgsOk, DetachedHead, Detaches;
    InBounds(s, t, k, n, id);
    DetachOk(s, t, k, n, 0, id);
  }

  lemma SecondPrice(s: State, k: nat, n: nat)
    requires Ok(s) && k < |s.ladder| && n < |s.ladder[k]| && |s.ladder[k][n]| >= 2
    ensures B.LevelPrice(Entries(s.hash, s.ord), Delete(s.ladder[k][n], 0)) ==
        B.LevelPrice(Entries(s.hash, s.ord), s.ladder[k][n])
  {
    var e := Entries(s.hash, s.ord);
    assert B.SideOk(e, k, s.ladder[k]);
    assert B.LevelOk(e, k, s.ladder[k][n]);
    assert Delete(s.ladder[k][n], 0)[0] == s.ladder[k][n][1];
  }

  // ---- any other order of a level

  ghost predicate DetachedInner(s: State, t: State, k: nat, n: nat, j: nat, id: nat) {
    && Detaches(s, t, k, n, j, id) && j > 0
    && var h, x := SlotOf(s.hash, s.ladder[k][n][0]), SlotOf(s.hash, id);
       && h < |s.q2| && x < |s.q2| && t.q1 == s.q1 && t.q2 == FifoDrop(s.q2, h, x)
       && t.known == s.known && t.heads == s.heads && t.roots == s.roots
  }

  lemma InnerLinks(s: State, t: State, k: nat, n: nat, j: nat, id: nat)
    requires Ok(s) && DetachedInner(s, t, k, n, j, id)
    ensures DetachedLinks(s, t, k, SlotOf(s.hash, id))
  {
    var p := SlotLevels(s.hash, s.ladder[k]);
    assert p[n][0] == SlotOf(s.hash, s.ladder[k][n][0]) && p[n][j] == SlotOf(s.hash, id);
    SideLinks(s, k);
    DroppedSlots(s.hash, s.ladder[k], n, j);
    hide Ok, TreeOk, OrgsOk, L.Side, L.Outside, L.On, L.Apart, FifoDrop, SlotLevels, L.DropAt;
    L.DropsMiddle(s.q1, s.q2, p, s.heads[k], n, j);
    SameOutside(s.q1, p, SlotOf(s.hash, id));
  }

  lemma TreeSameHeads(root: T.Tree, e: map<nat, B.Entry>, hash: map<nat, Loc>, levels: seq<seq<nat>>, n: nat, j: nat)
    requires TreeOk(root, e, hash, levels) && n < |levels| && 0 < j < |levels[n]|
    ensures TreeOk(root, e, hash, L.DropAt(levels, n, j))
  {
    var after := L.DropAt(levels, n, j);
    assert after == levels[n := Delete(levels[n], j)];
    assert after[n][0] == levels[n][0];
    assert B.LevelPrice(e, after[n]) == B.LevelPrice(e, levels[n]);
    forall p | p in T.Contents(root) ensures Priced(e, after, p) {
      var i :| 0 <= i < |levels| && B.LevelPrice(e, levels[i]) == p;
      assert B.LevelPrice(e, after[i]) == p;
    }
  }

  lemma InnerOrgs(s: State, t: State, k: nat, n: nat, j: nat, id: nat)
    requires Ok(s) && DetachedInner(s, t, k, n, j, id)
    ensures OrgsOk(t.known, Entries(s.hash, s.ord), s.hash, t.ladder[k])
  {
    var e, levels := Entries(s.hash, s.ord), s.ladder[k];
    SideLinks(s, k);
    SideIdAt(s, k, n, 0);
    assert t.ladder[k] == levels[n := Delete(levels[n], j)];
    forall i | 0 <= i < |levels| ensures OrgKnown(t.known, e, s.hash, t.ladder[k][i]) {
      assert OrgKnown(s.known, e, s.hash, levels[i]);
      hide *;
      if i == n { OrgShrink(s.known, t.known, e, s.hash, levels[n], j); }
    }
  }

  lemma DetachInnerOk(s: State, t: State, k: nat, n: nat, j: nat, id: nat)
    requires Ok(s) && DetachedInner(s, t, k, n, j, id)
    ensures Ok(t) && t.ladder[k] == B.RemoveId(s.ladder[k], id) && t.hash == s.hash && t.ord == s.ord
    ensures var x := SlotOf(s.hash, id); x < |t.q1| && t.q1[x] == UNLINKED && t.q2[x] == UNLINKED
  {
    InnerLinks(s, t, k, n, j, id);
    InnerOrgs(s, t, k, n, j, id);
    SideLinks(s, k);
    hide L.Side, L.Outside, L.On, L.Apart, Ok, TreeOk, OrgsOk, FifoDrop;
    TreeSameHeads(s.roots[k], Entries(s.hash, s.ord), s.hash, s.ladder[k], n, j);
    DetachOk(s, t, k, n, j, id);
  }

  // ------------------------------------------ changes that move no order

  lemma AllSame(s: State, t: State)
    requires Ok(s) && HashOk(t.hash, t.ord) && Sizes(t) && |t.q1| == |s.q1| && t.q1 == s.q1 && t.q2 == s.q2 &&
        t.ladder == s.ladder
    requires forall k :: 0 <= k < |s.ladder| ==> SameSide(s, t, k)
    ensures Ok(t)
  {
    forall k | 0 <= k < |s.ladder|
      ensures SideState(t, k) && B.SideOk(Entries(t.hash, t.ord), k, t.ladder[k])
              && SlotLevels(t.hash, t.ladder[k]) == SlotLevels(s.hash, s.ladder[k])
    {
      SideUnchanged(s, t, k);
      SameLevels(s, t, k);
    }
    forall x | 0 <= x < |t.q1| && !OnLadder(t.hash, t.ladder, x) ensures t.q1[x] == UNLINKED && t.q2[x] == UNLINKED {
      forall k | 0 <= k < |s.ladder| ensures !L.On(SlotLevels(s.hash, s.ladder[k]), x) {
        assert !L.On(SlotLevels(t.hash, t.ladder[k]), x);
      }
      assert !OnLadder(s.hash, s.ladder, x);
    }
  }

  /** Dropping an order that rests nowhere from the map. */
  lemma ForgetOk(s: State, t: State, id: nat)
    requires Ok(s) && t == s.(hash := s.hash - {id}) && forall k :: 0 <= k < |s.ladder| ==> !B.OnSide(s.ladder[k], id)
    ensures Ok(t) && Entries(t.hash, t.ord) == Entries(s.hash, s.ord) - {id}
  {
    assert Sizes(s) && HashOk(s.hash, s.ord);
    forall k | 0 <= k < |s.ladder| ensures SameSide(s, t, k) {
      forall i, j | 0 <= i < |s.ladder[k]| && 0 <= j < |s.ladder[k][i]| ensures SameId(s, t, s.ladder[k][i][j]) {
        SideIdAt(s, k, i, j);
        assert s.ladder[k][i][j] in s.ladder[k][i];
      }
    }
    AllSame(s, t);
  }

  /** Overwriting an order's fields without moving it. */
  lemma TouchOk(s: State, t: State, x: nat, o: B.Order)
    requires Ok(s) && x < |s.ord| && t == s.(ord := s.ord[x := o])
    requires forall id :: id in s.hash && s.hash[id].slot == x ==> o.id == id
    requires OnLadder(s.hash, s.ladder, x) ==>
               o.price == s.ord[x].price && o.org == s.ord[x].org && o.flags.bid == s.ord[x].flags.bid &&
                   B.Parked(o.flags) == B.Parked(s.ord[x].flags)
    ensures Ok(t)
    ensures forall id :: id in s.hash ==> Entries(t.hash, t.ord)[id] == if s.hash[id].slot == x
        then B.Entry(s.hash[id].product, o) else Entries(s.hash, s.ord)[id]
    ensures Entries(t.hash, t.ord).Keys == Entries(s.hash, s.ord).Keys == s.hash.Keys
  {
    assert Sizes(s) && HashOk(s.hash, s.ord);
    forall k | 0 <= k < |s.ladder| ensures SameSide(s, t, k) {
      forall i, j | 0 <= i < |s.ladder[k]| && 0 <= j < |s.ladder[k][i]| ensures SameId(s, t, s.ladder[k][i][j]) {
        SideIdAt(s, k, i, j);
        L.HeadOn(SlotLevels(s.hash, s.ladder[k]), i, j);
      }
    }
    AllSame(s, t);
  }

  lemma ClearLoose(s: State, x: nat)
    requires Ok(s) && x < |s.q1| && !OnLadder(s.hash, s.ladder, x)
    ensures s.q1[x := UNLINKED] == s.q1 && s.q2[x := UNLINKED] == s.q2
  {
    assert s.q1[x] == UNLINKED && s.q2[x] == UNLINKED;
  }

  lemma NotOnLadder(s: State, x: nat)
    requires Ok(s) && x < |s.ord| && forall id :: id in s.hash && s.hash[id].slot == x ==> !B.Linked(Abs(s), id)
    ensures !OnLadder(s.hash, s.ladder, x)
  {
    forall k | 0 <= k < |s.ladder| ensures !L.On(SlotLevels(s.hash, s.ladder[k]), x) {
      if L.On(SlotLevels(s.hash, s.ladder[k]), x) {
        OnSlot(s, k, x);
        EntryAt(s.hash, s.ord, s.ord[x].id);
      }
    }
  }

  lemma EmptyOk(s: State)
    requires Sizes(s) && s.hash == map[] &&
        (forall k :: 0 <= k < |s.ladder| ==> s.ladder[k] == [] && s.heads[k] == NULL && s.roots[k] == T.Leaf)
    requires forall x :: 0 <= x < |s.q1| ==> s.q1[x] == UNLINKED && s.q2[x] == UNLINKED
    ensures Ok(s)
  {
    forall k | 0 <= k < |s.ladder| ensures SideState(s, k) && B.SideOk(Entries(s.hash, s.ord), k, s.ladder[k]) {
      assert SlotLevels(s.hash, s.ladder[k]) == [];
      assert L.Heads([]) == [];
    }
  }

  // ------------------------------------------------------ finding a level

  /** The prices above and below the one searched for that bound what is left of the tree. */
  ghost predicate Descent(c: map<nat, nat>, t: T.Tree, price: nat, up: Option<nat>, low: Option<nat>) {
    && T.Bst(t)
    && (forall p :: p in T.Contents(t) ==> p in c && c[p] == T.Contents(t)[p])
    && (up.Some? ==> up.value in c && up.value > price)
    && (low.Some? ==> low.value in c && low.value < price)
    && (forall p :: p in T.Contents(t) ==> (up.Some? ==> p < up.value) && (low.Some? ==> low.value < p))
    && (forall p :: p in c && p !in T.Contents(t) ==> (up.Some? && up.value <= p) || (low.Some? && p <= low.value))
  }

  lemma DescentStart(t: T.Tree, price: nat)
    requires T.Bst(t)
    ensures Descent(T.Contents(t), t, price, None, None)
  {
  }

  lemma DescentStep(c: map<nat, nat>, t: T.Tree, price: nat, up: Option<nat>, low: Option<nat>)
    requires Descent(c, t, price, up, low) && t.Node?
    ensures t.price in c && c[t.price] == t.slot
    ensures price < t.price ==> Descent(c, t.left, price, Some(t.price), low)
    ensures price > t.price ==> Descent(c, t.right, price, up, Some(t.price))
  {
    var l, r := T.Contents(t.left), T.Contents(t.right);
    forall p: nat ensures (p in T.Contents(t) <==> p == t.price || (if p < t.price then p in l else p in r))
                          && (p in T.Contents(t) ==>
                             T.Contents(t)[p] == if p == t.price then t.slot else if p < t.price then l[p] else r[p]) {
      T.JoinAt(l, t.price, t.slot, r, p);
    }
    hide T.Join, T.Contents;
  }

  lemma RankIff(e: map<nat, B.Entry>, k: nat, levels: seq<seq<nat>>, i: nat, j: nat)
    requires B.SideOk(e, k, levels) && i < |levels| && j < |levels|
    ensures i < j <==> B.Rank(k, B.LevelPrice(e, levels[i])) < B.Rank(k, B.LevelPrice(e, levels[j]))
  {
  }

  lemma PositionIff(e: map<nat, B.Entry>, k: nat, levels: seq<seq<nat>>, r: int, m: nat)
    requires B.SideOk(e, k, levels) && m < |levels|
    ensures m < B.Better(e, k, levels, r) <==> B.Rank(k, B.LevelPrice(e, levels[m])) < r
  {
    var n := B.Better(e, k, levels, r);
    if n <= m { RankIff(e, k, levels, n, m); }
  }

  lemma LevelInTree(s: State, k: nat, i: nat)
    requires Ok(s) && k < |s.ladder| && i < |s.ladder[k]|
    ensures k < |s.roots| && s.ladder[k][i] != []
    ensures var p := B.LevelPrice(Entries(s.hash, s.ord), s.ladder[k][i]);
            p in T.Contents(s.roots[k]) && T.Contents(s.roots[k])[p] == HeadSlot(s, k, i)
    ensures B.SideOk(Entries(s.hash, s.ord), k, s.ladder[k])
  {
    SideLinks(s, k);
    SideNonempty(s, k, i);
  }

  lemma TreeInLevels(s: State, k: nat, p: nat) returns (i: nat)
    requires Ok(s) && k < |s.ladder| && k < |s.roots| && p in T.Contents(s.roots[k])
    ensures i < |s.ladder[k]| && B.LevelPrice(Entries(s.hash, s.ord), s.ladder[k][i]) == p
  {
    SideLinks(s, k);
    i :| 0 <= i < |s.ladder[k]| && B.LevelPrice(Entries(s.hash, s.ord), s.ladder[k][i]) == p;
  }

  lemma DescentMisses(s: State, k: nat, price: nat, up: Option<nat>, low: Option<nat>)
    requires Ok(s) && k < |s.ladder| && k < |s.roots| && Descent(T.Contents(s.roots[k]), T.Leaf, price, up, low)
    ensures !HasLevel(s, k, price)
  {
    var n := Position(s, k, price);
    if n < |s.ladder[k]| { LevelInTree(s, k, n); }
  }

  /** When the descent has run out, its bounds are the neighbouring levels. */
  lemma DescentEnds(s: State, k: nat, price: nat, up: Option<nat>, low: Option<nat>)
    requires Ok(s) && k < |s.ladder| && k < |s.roots| && Descent(T.Contents(s.roots[k]), T.Leaf, price, up, low)
    ensures !HasLevel(s, k, price)
    ensures var n := Position(s, k, price);
            var near := if B.KeyIsBid(k) then up else low;
            if n == 0 then near.None?
            else near.Some? && near.value in T.Contents(s.roots[k]) &&
                                             T.Contents(s.roots[k])[near.value] == HeadSlot(s, k, n - 1)
  {
    hide Ok, B.SideOk, HasLevel, Entries;
    DescentMisses(s, k, price, up, low);
    var e, levels := Entries(s.hash, s.ord), s.ladder[k];
    SideIsOk(s, k);
    var n := Position(s, k, price);
    var near := if B.KeyIsBid(k) then up else low;
    if n > 0 {
      LevelInTree(s, k, n - 1);
      PositionIff(e, k, levels, B.Rank(k, price), n - 1);
      assert near.Some?;
    }
    if near.Some? {
      var m := TreeInLevels(s, k, near.value);
      PositionIff(e, k, levels, B.Rank(k, price), m);
      LevelInTree(s, k, m);
      RankIff(e, k, levels, m, n - 1);
      assert m == n - 1;
    }
  }

  /** A price found in the tree is that of the level at the sorted position. */
  lemma DescentFound(s: State, k: nat, price: nat)
    requires Ok(s) && k < |s.ladder| && k < |s.roots| && price in T.Contents(s.roots[k])
    ensures HasLevel(s, k, price) && T.Contents(s.roots[k])[price] == HeadSlot(s, k, Position(s, k, price))
    ensures s.ladder[k][Position(s, k, price)] != [] &&
        B.LevelPrice(Entries(s.hash, s.ord), s.ladder[k][Position(s, k, price)]) == price
  {
    var e, levels := Entries(s.hash, s.ord), s.ladder[k];
    var i := TreeInLevels(s, k, price);
    LevelInTree(s, k, i);
    var n := Position(s, k, price);
    PositionIff(e, k, levels, B.Rank(k, price), i);
    assert n <= i;
    RankIff(e, k, levels, n, i);
    assert n == i;
  }
}
