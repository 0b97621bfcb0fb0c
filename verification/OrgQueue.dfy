/**
 The per-product, per-organisation queues (Q3): which orders they hold, and what the three ways of
 writing them do. They are kept beside the book: nothing in matching or recovery reads them.
 */
module OrgQueue {
  import opened Common
  import opened Links
  import opened BookState
  import B = Book

  predicate Active(e: map<nat, B.Entry>, id: nat) { id in e && !B.Parked(e[id].order.flags) }

  function OrgIndex(product: nat, org: nat, orgs: nat): nat { product * orgs + org }

  function OrgOf(en: B.Entry, orgs: nat): nat { OrgIndex(en.product, en.order.org, orgs) }

  /** A new order goes to the front of its organisation's queue. */
  function Push(q3: seq<Link>, head: nat, x: nat): (r: seq<Link>)
    requires x < |q3| && (head == NULL || head < |q3|)
    ensures |r| == |q3|
  {
    if head == NULL then q3[x := UNLINKED] else LinkBefore(q3, head, x)
  }

  ghost predicate Queue(q3: seq<Link>, head: nat, p: seq<nat>) { Chain(q3, p) && head == First(p) }

  ghost predicate Belongs(e: map<nat, B.Entry>, orgs: nat, o: nat, id: nat) { Active(e, id) && OrgOf(e[id], orgs) == o }

  /** The list holds exactly the active orders of product and organisation `o`. */
  ghost predicate Holds(e: map<nat, B.Entry>, orgs: nat, o: nat, list: seq<nat>) {
    forall id: nat :: id in list <==> Belongs(e, orgs, o, id)
  }

  ghost predicate Members(e: map<nat, B.Entry>, orgs: nat, lists: seq<seq<nat>>) {
    forall o :: 0 <= o < |lists| ==> Holds(e, orgs, o, lists[o])
  }

  ghost predicate IdleClear(e: map<nat, B.Entry>, hash: map<nat, Loc>, q3: seq<Link>) {
    forall id :: id in e && !Active(e, id) && SlotOf(hash, id) < |q3| ==> q3[SlotOf(hash, id)] == UNLINKED
  }

  ghost predicate OrgOk(e: map<nat, B.Entry>, hash: map<nat, Loc>, q3: seq<Link>, heads: seq<nat>, orgs: nat,
                        lists: seq<seq<nat>>) {
    && |lists| == |heads| && |q3| <= NULL
    && (forall o :: 0 <= o < |lists| ==> Queue(q3, heads[o], Slots(hash, lists[o])))
    && Members(e, orgs, lists)
    && IdleClear(e, hash, q3)
  }

  /** Ids are where the map says, each in its own slot. */
  ghost predicate Apart(e: map<nat, B.Entry>, hash: map<nat, Loc>, n: nat) {
    && (forall a :: a in e <==> a in hash) && (forall a :: a in hash ==> hash[a].slot < n)
    && (forall a, b :: a in hash && b in hash && hash[a].slot == hash[b].slot ==> a == b)
  }

  lemma ApartOf(hash: map<nat, Loc>, ord: seq<B.Order>)
    requires HashOk(hash, ord)
    ensures Apart(Entries(hash, ord), hash, |ord|)
  {
  }

  lemma ChainPush(q: seq<Link>, p: seq<nat>, x: nat)
    requires Chain(q, p) && x < |q| && x !in p
    ensures Chain(Push(q, First(p), x), Insert(p, 0, x)) && OnlyAt(q, Push(q, First(p), x), p + [x])
  {
    ChainLinkFirst(q, p, x);
    if p != [] { ChainElim(q, p, 0); }
    assert Push(q, First(p), x) == LinkFirst(q, First(p), x);
  }

  /** The slots of another list, or of an idle order, are not those of list `o`. */
  lemma NotInList(e: map<nat, B.Entry>, hash: map<nat, Loc>, orgs: nat, lists: seq<seq<nat>>, n: nat, o: nat, id: nat)
    requires Apart(e, hash, n) && Members(e, orgs, lists) && o < |lists| && id in hash && id !in lists[o]
    ensures SlotOf(hash, id) !in Slots(hash, lists[o])
  {
    hide OrgOf;
    assert Holds(e, orgs, o, lists[o]);
    forall j | 0 <= j < |lists[o]| ensures SlotOf(hash, lists[o][j]) != SlotOf(hash, id) {
      var other := lists[o][j];
      assert other in lists[o] && Belongs(e, orgs, o, other) && other in hash;
      assert other != id;
    }
  }

  lemma OtherQueue(e: map<nat, B.Entry>, hash: map<nat, Loc>, hash': map<nat, Loc>, q: seq<Link>, r: seq<Link>,
                   head: nat,
                   orgs: nat, lists: seq<seq<nat>>, o: nat, m: nat, x: nat)
    requires Apart(e, hash, |q|) && Members(e, orgs, lists) && o < |lists| && m < |lists| && o != m
    requires Queue(q, head, Slots(hash, lists[m])) && OnlyAt(q, r, Slots(hash, lists[o]) + [x])
    requires forall id :: id in lists[m] ==> SlotOf(hash', id) == SlotOf(hash, id) != x
    ensures Queue(r, head, Slots(hash', lists[m]))
  {
    hide OrgOf;
    var p := Slots(hash, lists[m]);
    assert Slots(hash', lists[m]) == p by {
      assert forall j :: 0 <= j < |lists[m]| ==> lists[m][j] in lists[m];
    }
    forall j | 0 <= j < |p| ensures r[p[j]] == q[p[j]] {
      var id := lists[m][j];
      assert id in lists[m];
      NotInList(e, hash, orgs, lists, |q|, o, id);
    }
    ChainFrame(q, r, p);
  }

  lemma PushMembers(e: map<nat, B.Entry>, orgs: nat, lists: seq<seq<nat>>, id: nat, en: B.Entry)
    requires Members(e, orgs, lists) && id !in e && !B.Parked(en.order.flags) && OrgOf(en, orgs) < |lists|
    ensures var o := OrgOf(en, orgs); Members(e[id := en], orgs, lists[o := [id] + lists[o]])
  {
    hide OrgOf;
    var o := OrgOf(en, orgs);
    var e', lists' := e[id := en], lists[o := [id] + lists[o]];
    forall m | 0 <= m < |lists| ensures Holds(e', orgs, m, lists'[m]) {
      assert Holds(e, orgs, m, lists[m]);
      forall j: nat ensures j in lists'[m] <==> Belongs(e', orgs, m, j) {
        assert Belongs(e', orgs, m, j) <==> (j == id && m == o) || (j != id && Belongs(e, orgs, m, j));
      }
    }
  }

  lemma PushFront(e: map<nat, B.Entry>, hash: map<nat, Loc>, q3: seq<Link>, head: nat, orgs: nat, o: nat,
                  list: seq<nat>, id: nat, loc: Loc)
    requires Queue(q3, head, Slots(hash, list)) && Holds(e, orgs, o, list) && Apart(e, hash, |q3|) && id !in hash &&
        loc.slot < |q3|
    requires forall i :: i in hash ==> hash[i].slot != loc.slot
    ensures head == NULL || head < |q3|
    ensures OnlyAt(q3, Push(q3, head, loc.slot), Slots(hash, list) + [loc.slot])
    ensures Queue(Push(q3, head, loc.slot), loc.slot, Slots(hash[id := loc], [id] + list))
  {
    hide OrgOf;
    var p, hash', x := Slots(hash, list), hash[id := loc], loc.slot;
    forall j | 0 <= j < |p| ensures p[j] != x && SlotOf(hash', list[j]) == p[j] {
      assert list[j] in list && Belongs(e, orgs, o, list[j]);
    }
    if p != [] { ChainElim(q3, p, 0); }
    hide Chain, Holds, Apart, Push;
    ChainPush(q3, p, x);
    assert Slots(hash', [id] + list) == Insert(p, 0, x);
  }

  lemma PushRest(e: map<nat, B.Entry>, hash: map<nat, Loc>, q3: seq<Link>, r: seq<Link>, heads: seq<nat>, orgs: nat,
                 lists: seq<seq<nat>>,
                 o: nat, id: nat, en: B.Entry, x: nat)
    requires OrgOk(e, hash, q3, heads, orgs, lists) && Apart(e, hash, |q3|) && o < |lists|
    requires id !in hash && !B.Parked(en.order.flags) && OnlyAt(q3, r, Slots(hash, lists[o]) + [x])
    requires forall i :: i in hash ==> hash[i].slot != x
    ensures forall m :: 0 <= m < |lists| && m != o ==>
        Queue(r, heads[m], Slots(hash[id := Loc(x, en.product)], lists[m]))
    ensures IdleClear(e[id := en], hash[id := Loc(x, en.product)], r)
  {
    hide OrgOf, Chain;
    var e', hash' := e[id := en], hash[id := Loc(x, en.product)];
    forall m | 0 <= m < |lists| && m != o ensures Queue(r, heads[m], Slots(hash', lists[m])) {
      assert Holds(e, orgs, m, lists[m]) && Queue(q3, heads[m], Slots(hash, lists[m]));
      forall i | i in lists[m]
          ensures SlotOf(hash', i) == SlotOf(hash, i) && SlotOf(hash, i) != x { assert Belongs(e, orgs, m, i); }
      OtherQueue(e, hash, hash', q3, r, heads[m], orgs, lists, o, m, x);
    }
    forall i | i in e' && !Active(e', i) && SlotOf(hash', i) < |r| ensures r[SlotOf(hash', i)] == UNLINKED {
      assert Holds(e, orgs, o, lists[o]);
      NotInList(e, hash, orgs, lists, |q3|, o, i);
      StaysClear(q3, r, Slots(hash, lists[o]) + [x], SlotOf(hash, i));
    }
  }

  /** Inserting an order. */
  lemma PushOk(e: map<nat, B.Entry>, hash: map<nat, Loc>, q3: seq<Link>, heads: seq<nat>, orgs: nat,
               lists: seq<seq<nat>>,
               id: nat, en: B.Entry, x: nat)
    requires OrgOk(e, hash, q3, heads, orgs, lists) && Apart(e, hash, |q3|)
    requires id !in hash && x < |q3| && !B.Parked(en.order.flags) && OrgOf(en, orgs) < |lists|
    requires forall i :: i in hash ==> hash[i].slot != x
    ensures var o := OrgOf(en, orgs);
            && (heads[o] == NULL || heads[o] < |q3|)
            && OrgOk(e[id := en], hash[id := Loc(x, en.product)], Push(q3, heads[o], x), heads[o := x], orgs,
               lists[o := [id] + lists[o]])
  {
    var o := OrgOf(en, orgs);
    assert Queue(q3, heads[o], Slots(hash, lists[o])) && Holds(e, orgs, o, lists[o]);
    assert id !in e;
    hide OrgOf, Chain, Slots, Queue, OnlyAt, Push, Holds, Members, IdleClear, Apart;
    PushFront(e, hash, q3, heads[o], orgs, o, lists[o], id, Loc(x, en.product));
    PushMembers(e, orgs, lists, id, en);
    PushRest(e, hash, q3, Push(q3, heads[o], x), heads, orgs, lists, o, id, en, x);
  }

  lemma StaysClear(q: seq<Link>, r: seq<Link>, p: seq<nat>, y: nat)
    requires OnlyAt(q, r, p) && y < |q| && y !in p
    ensures r[y] == q[y]
  {
  }

  /** `id` stops being active; every other order and its slot are as before. */
  ghost predicate Leaves(e: map<nat, B.Entry>, hash: map<nat, Loc>, e': map<nat, B.Entry>, hash': map<nat, Loc>,
                         id: nat) {
    && !Active(e', id) && (id in e' ==> id in hash' && id in hash && hash'[id] == hash[id])
    && (forall j :: j != id ==> (j in e' <==> j in e) && (j in hash' <==> j in hash))
    && (forall j :: j != id && j in e ==> e'[j] == e[j])
    && (forall j :: j != id && j in hash ==> hash'[j] == hash[j])
  }

  lemma DropMembers(e: map<nat, B.Entry>, hash: map<nat, Loc>, e': map<nat, B.Entry>, hash': map<nat, Loc>,
                    orgs: nat, lists: seq<seq<nat>>, o: nat, i: nat, id: nat)
    requires Members(e, orgs, lists) && Leaves(e, hash, e', hash', id) && o < |lists| && i < |lists[o]| &&
        lists[o][i] == id && Distinct(lists[o])
    ensures Members(e', orgs, lists[o := Delete(lists[o], i)])
  {
    hide OrgOf;
    var d, lists' := Delete(lists[o], i), lists[o := Delete(lists[o], i)];
    assert id in lists[o] && Holds(e, orgs, o, lists[o]);
    forall m | 0 <= m < |lists| ensures Holds(e', orgs, m, lists'[m]) {
      assert Holds(e, orgs, m, lists[m]);
      forall j: nat ensures j in lists'[m] <==> Belongs(e', orgs, m, j) {
        if m == o && j in lists[o] && j != id {
          var n :| 0 <= n < |lists[o]| && lists[o][n] == j;
          assert d[if n < i then n else n - 1] == j;
        }
        assert Belongs(e', orgs, m, j) <==> j != id && Belongs(e, orgs, m, j);
      }
    }
  }

  lemma IdsDistinct(hash: map<nat, Loc>, list: seq<nat>)
    requires Distinct(Slots(hash, list))
    ensures Distinct(list)
  {
    forall i, j | 0 <= i < j < |list| ensures list[i] != list[j] {
      assert Slots(hash, list)[i] != Slots(hash, list)[j];
    }
  }

  /** Taking an active order out of its queue, `heads'` being the heads afterwards. */
  lemma DropLinks(e: map<nat, B.Entry>, hash: map<nat, Loc>, e': map<nat, B.Entry>, hash': map<nat, Loc>, q3: seq<Link>,
                  heads: seq<nat>,
                  orgs: nat, lists: seq<seq<nat>>, o: nat, i: nat, id: nat)
    requires OrgOk(e, hash, q3, heads, orgs, lists) && Apart(e, hash, |q3|) && Leaves(e, hash, e', hash', id)
    requires o < |lists| && i < |lists[o]| && lists[o][i] == id && SlotOf(hash, id) < |q3|
    ensures var x := SlotOf(hash, id);
            var r, lists' := Unlink(q3, x), lists[o := Delete(lists[o], i)];
            && (forall m :: 0 <= m < |lists| && m != o ==> Queue(r, heads[m], Slots(hash', lists'[m])))
            && Chain(r, Slots(hash', lists'[o])) && Members(e', orgs, lists') && IdleClear(e', hash', r)
            && First(Slots(hash', lists'[o])) == (if i == 0 then q3[x].next else heads[o])
            && (heads[o] == x <==> i == 0)
  {
    hide OrgOf, Chain, Unlink;
    var x, p := SlotOf(hash, id), Slots(hash, lists[o]);
    var r, lists' := Unlink(q3, x), lists[o := Delete(lists[o], i)];
    assert Queue(q3, heads[o], p) && p[i] == x;
    ChainUnlink(q3, p, i);
    ChainElim(q3, p, i);
    Same(p, 0, i);
    IdsDistinct(hash, lists[o]);
    DropMembers(e, hash, e', hash', orgs, lists, o, i, id);
    assert Slots(hash', lists'[o]) == Delete(p, i) by {
      hide OnlyAt, OrgOk, Apart;
      DeleteSlots(hash, hash', lists[o], i);
    }
    hide OnlyAt, Slots, Members, Queue, IdleClear, OrgOk, Apart, Leaves, Distinct;
    DropRest(e, hash, e', hash', q3, r, heads, orgs, lists, o, id);
  }

  lemma DeleteSlots(hash: map<nat, Loc>, hash': map<nat, Loc>, list: seq<nat>, i: nat)
    requires i < |list| && Distinct(list) && forall j :: j in hash && j != list[i] ==> j in hash' && hash'[j] == hash[j]
    requires forall j :: j in hash' ==> j in hash
    ensures Slots(hash', Delete(list, i)) == Delete(Slots(hash, list), i)
  {
    forall n | 0 <= n < |list| - 1 ensures SlotOf(hash', Delete(list, i)[n]) == SlotOf(hash, Delete(list, i)[n]) {
      assert Delete(list, i)[n] == list[if n < i then n else n + 1];
    }
  }

  lemma DropRest(e: map<nat, B.Entry>, hash: map<nat, Loc>, e': map<nat, B.Entry>, hash': map<nat, Loc>, q3: seq<Link>,
                 r: seq<Link>,
                 heads: seq<nat>, orgs: nat, lists: seq<seq<nat>>, o: nat, id: nat)
    requires OrgOk(e, hash, q3, heads, orgs, lists) && Apart(e, hash, |q3|) && Leaves(e, hash, e', hash', id)
    requires o < |lists| && id in lists[o] && OnlyAt(q3, r, Slots(hash, lists[o]))
    requires SlotOf(hash, id) < |r| && r[SlotOf(hash, id)] == UNLINKED
    ensures forall m :: 0 <= m < |lists| && m != o ==> Queue(r, heads[m], Slots(hash', lists[m]))
    ensures IdleClear(e', hash', r)
  {
    hide OrgOf;
    var p := Slots(hash, lists[o]);
    assert p + [NULL] == p + [NULL];
    assert OnlyAt(q3, r, p + [NULL]);
    forall m | 0 <= m < |lists| && m != o ensures Queue(r, heads[m], Slots(hash', lists[m])) {
      assert Queue(q3, heads[m], Slots(hash, lists[m]));
      forall j | j in lists[m]
          ensures SlotOf(hash', j) == SlotOf(hash, j) && SlotOf(hash, j) != NULL { assert j != id; }
      OtherQueue(e, hash, hash', q3, r, heads[m], orgs, lists, o, m, NULL);
    }
    forall j | j in e' && !Active(e', j) && SlotOf(hash', j) < |r| ensures r[SlotOf(hash', j)] == UNLINKED {
      if j != id {
        NotInList(e, hash, orgs, lists, |q3|, o, j);
        StaysClear(q3, r, p, SlotOf(hash, j));
      }
    }
  }

  /** Cancel and unlink move the queue's head along, so the queues stay exact. */
  lemma DropOk(e: map<nat, B.Entry>, hash: map<nat, Loc>, e': map<nat, B.Entry>, hash': map<nat, Loc>, q3: seq<Link>,
               heads: seq<nat>,
               orgs: nat, lists: seq<seq<nat>>, o: nat, i: nat, id: nat)
    requires OrgOk(e, hash, q3, heads, orgs, lists) && Apart(e, hash, |q3|) && Leaves(e, hash, e', hash', id)
    requires o < |lists| && i < |lists[o]| && lists[o][i] == id && SlotOf(hash, id) < |q3|
    ensures var x := SlotOf(hash, id);
            OrgOk(e', hash', Unlink(q3, x), heads[o := if heads[o] == x then q3[x].next else heads[o]], orgs,
                lists[o := Delete(lists[o], i)])
  {
    hide OrgOf, Chain, Unlink, Members, IdleClear, Apart, Leaves, Slots, Delete;
    DropLinks(e, hash, e', hash', q3, heads, orgs, lists, o, i, id);
  }

  /** Removal without moving the head keeps the queues exact unless the removed order was the head. */
  lemma StaleHead(e: map<nat, B.Entry>, hash: map<nat, Loc>, q3: seq<Link>, heads: seq<nat>, orgs: nat,
                  lists: seq<seq<nat>>, o: nat, i: nat, id: nat)
    requires OrgOk(e, hash, q3, heads, orgs, lists) && Apart(e, hash, |q3|)
    requires o < |lists| && i < |lists[o]| && lists[o][i] == id && SlotOf(hash, id) < |q3|
    ensures var r := Unlink(q3, SlotOf(hash, id));
            && (heads[o] != SlotOf(hash, id) ==>
               OrgOk(e - {id}, hash - {id}, r, heads, orgs, lists[o := Delete(lists[o], i)]))
            && (heads[o] == SlotOf(hash, id) ==> forall l :: !OrgOk(e - {id}, hash - {id}, r, heads, orgs, l))
  {
    hide OrgOf, Chain, Slots, OnlyAt, Unlink, Holds, Members, IdleClear;
    var x := SlotOf(hash, id);
    var e', hash' := e - {id}, hash - {id};
    assert Leaves(e, hash, e', hash', id);
    DropLinks(e, hash, e', hash', q3, heads, orgs, lists, o, i, id);
    if heads[o] == x {
      assert forall a :: a in e' ==> a in hash' && hash'[a].slot != x;
      forall l ensures !OrgOk(e', hash', Unlink(q3, x), heads, orgs, l) {
        NoSuchHead(e', hash', Unlink(q3, x), heads, orgs, l, o);
      }
    }
  }

  lemma NoSuchHead(e: map<nat, B.Entry>, hash: map<nat, Loc>, q3: seq<Link>, heads: seq<nat>, orgs: nat,
                   lists: seq<seq<nat>>, o: nat)
    requires o < |heads| && heads[o] != NULL && forall a :: a in e ==> a in hash && hash[a].slot != heads[o]
    ensures !OrgOk(e, hash, q3, heads, orgs, lists)
  {
    if OrgOk(e, hash, q3, heads, orgs, lists) { HeadIsHeld(e, hash, q3, heads, orgs, lists, o); }
  }

  /** A queue's head is the slot of an order in the map. */
  lemma HeadIsHeld(e: map<nat, B.Entry>, hash: map<nat, Loc>, q3: seq<Link>, heads: seq<nat>, orgs: nat,
                   lists: seq<seq<nat>>, o: nat)
    requires OrgOk(e, hash, q3, heads, orgs, lists) && (forall a :: a in e ==> a in hash) && o < |heads|
    ensures heads[o] == NULL || exists id :: id in hash && hash[id].slot == heads[o] && Belongs(e, orgs, o, id)
  {
    hide OrgOf;
    assert Queue(q3, heads[o], Slots(hash, lists[o]));
    if lists[o] != [] {
      var id := lists[o][0];
      assert id in lists[o];
      assert id in hash && hash[id].slot == heads[o];
    }
  }

  /** Nothing the queues depend on has changed. */
  lemma FrameOk(e: map<nat, B.Entry>, hash: map<nat, Loc>, e': map<nat, B.Entry>, hash': map<nat, Loc>, q3: seq<Link>,
                heads: seq<nat>,
                orgs: nat, lists: seq<seq<nat>>)
    requires OrgOk(e, hash, q3, heads, orgs, lists)
    requires forall j :: j in e' ==> j in e && SlotOf(hash', j) == SlotOf(hash, j) && Active(e', j) == Active(e, j)
    requires forall j :: j in e' ==> OrgOf(e'[j], orgs) == OrgOf(e[j], orgs)
    requires forall j :: Active(e, j) ==> j in e'
    ensures OrgOk(e', hash', q3, heads, orgs, lists)
  {
    hide OrgOf;
    forall o | 0 <= o < |lists| ensures Slots(hash', lists[o]) == Slots(hash, lists[o]) &&
        Holds(e', orgs, o, lists[o]) {
      assert Holds(e, orgs, o, lists[o]);
      forall j: nat ensures Belongs(e', orgs, o, j) <==> Belongs(e, orgs, o, j) { }
      forall j | 0 <= j < |lists[o]| ensures SlotOf(hash', lists[o][j]) == SlotOf(hash, lists[o][j]) {
        assert lists[o][j] in lists[o] && Belongs(e, orgs, o, lists[o][j]);
      }
    }
    hide Chain, Slots, Holds, Active;
  }

  /** A slot that holds no order is in no queue: clearing it changes nothing. */
  lemma IdleSlot(e: map<nat, B.Entry>, hash: map<nat, Loc>, q3: seq<Link>, heads: seq<nat>, orgs: nat,
                 lists: seq<seq<nat>>, x: nat)
    requires OrgOk(e, hash, q3, heads, orgs, lists) && Apart(e, hash, |q3|) && x < |q3| && forall a :: a in hash ==>
        hash[a].slot != x
    ensures OrgOk(e, hash, q3[x := UNLINKED], heads, orgs, lists)
  {
    hide OrgOf;
    forall o | 0 <= o < |lists| ensures Queue(q3[x := UNLINKED], heads[o], Slots(hash, lists[o])) {
      var p := Slots(hash, lists[o]);
      assert Queue(q3, heads[o], p) && Holds(e, orgs, o, lists[o]);
      forall j | 0 <= j < |p| ensures q3[x := UNLINKED][p[j]] == q3[p[j]] {
        assert lists[o][j] in lists[o] && Belongs(e, orgs, o, lists[o][j]);
      }
      ChainFrame(q3, q3[x := UNLINKED], p);
    }
  }

  /** An idle order is in no queue: unlinking it changes nothing. */
  lemma IdleUntouched(e: map<nat, B.Entry>, hash: map<nat, Loc>, q3: seq<Link>, heads: seq<nat>, orgs: nat,
                      lists: seq<seq<nat>>, o: nat, id: nat)
    requires OrgOk(e, hash, q3, heads, orgs, lists) && Apart(e, hash, |q3|) && id in e && !Active(e, id) && o < |heads|
    ensures SlotOf(hash, id) < |q3| && Unlink(q3, SlotOf(hash, id)) == q3 && heads[o] != SlotOf(hash, id)
  {
    hide OrgOf;
    HeadIsHeld(e, hash, q3, heads, orgs, lists, o);
  }
}
