/**
 The order book as it is in memory: slab slots linked into price ladders and FIFOs, a search tree
 per side, an order map, the organisation queues and the write-ahead log.
 */
module OrderBooks {
  import opened Common
  import opened Links
  import opened BookState
  import opened Slab
  import B = Book
  import L = Ladders
  import R = Replay
  import T = PriceTree
  import Q = OrgQueue

  class OrderBook {
    const products: nat
    const orgs: nat
    const slab: DualSlab
    const heads: array<nat>        // best level of each side: bids of product p at 2p, asks at 2p + 1
    const roots: array<T.Tree>     // search tree of each side
    const known: array<nat>        // per slot: the organisation of a whole level, or UNKNOWN
    const orgHeads: array<nat>     // per product and organisation
    var hash: map<nat, Loc>
    var logging: bool
    var log: seq<B.Record>
    /** The resting ids, level by level. */
    ghost var ladder: seq<seq<seq<nat>>>
    /** The active ids of each product and organisation, newest first. */
    ghost var members: seq<seq<nat>>

    ghost function St(): State
      reads this`hash, this`ladder, slab.ord, slab.q1, slab.q2, known, heads, roots
    {
      State(hash, slab.ord[..], slab.q1[..], slab.q2[..], known[..], heads[..], roots[..], ladder)
    }

    /** The book this memory represents. */
    ghost function Book(): B.Book
      reads this`hash, this`ladder, slab.ord, slab.q1, slab.q2, known, heads, roots
    {
      Abs(St())
    }

    ghost predicate Layout() {
      && slab.Shape()
      && heads.Length == roots.Length == 2 * products && known.Length == slab.ord.Length &&
         orgHeads.Length == products * orgs
      && heads != known && heads != orgHeads && known != orgHeads
      && slab.aux != heads && slab.aux != known && slab.aux != orgHeads
    }

    /** Organisation links and heads name slots, so that following them stays inside the slab. */
    ghost predicate OrgLinksInRange()
      reads slab.q3, orgHeads
    {
      && (forall i :: 0 <= i < slab.q3.Length ==> slab.q3[i].next == NULL || slab.q3[i].next < slab.q3.Length)
      && (forall i :: 0 <= i < orgHeads.Length ==> orgHeads[i] == NULL || orgHeads[i] < slab.q3.Length)
    }

    ghost predicate Held()
      reads this`hash, slab`free
    {
      forall id :: id in hash ==> hash[id].slot !in slab.free
    }

    ghost predicate OrgsKnown()
      reads this`hash, slab.ord
    {
      forall id :: id in hash && hash[id].slot < slab.ord.Length ==> slab.ord[hash[id].slot].org < orgs
    }

    /** Every organisation queue holds exactly its active orders. */
    ghost predicate OrgSound()
      reads this`hash, this`members, slab.ord, slab.q3, orgHeads
    {
      Q.OrgOk(Entries(hash, slab.ord[..]), hash, slab.q3[..], orgHeads[..], orgs, members)
    }

    ghost predicate OrgSoundFor(lists: seq<seq<nat>>)
      reads this`hash, slab.ord, slab.q3, orgHeads
    {
      Q.OrgOk(Entries(hash, slab.ord[..]), hash, slab.q3[..], orgHeads[..], orgs, lists)
    }

    /** Slot `x` is at the head of its organisation's queue. */
    predicate LeadsOrg(product: nat, x: nat)
      reads slab.ord, orgHeads
    {
      && x < slab.ord.Length && Q.OrgIndex(product, slab.ord[x].org, orgs) < orgHeads.Length
      && orgHeads[Q.OrgIndex(product, slab.ord[x].org, orgs)] == x
    }

    ghost predicate Sound()
      reads this`hash, this`ladder, slab`freeA, slab`freeB, slab`used, slab`free, slab.ord, slab.q0, slab.q1, slab.q2,
          slab.q3, slab.aux, heads, roots, known, orgHeads
    {
      Layout() && slab.Valid() && Ok(St()) && |ladder| == 2 * products && Held() && OrgLinksInRange() && OrgsKnown()
    }

    ghost predicate Valid()
      reads this`hash, this`ladder, slab`freeA, slab`freeB, slab`used, slab`free, slab.ord, slab.q0, slab.q1, slab.q2,
          slab.q3, slab.aux, heads, roots, known, orgHeads
    {
      Sound() && B.Wf(Book())
    }

    constructor (products: nat, orgs: nat, slots: nat, logging: bool)
      requires 0 < slots <= NULL
      ensures Valid() && OrgSound() && Book() == B.EmptyBook(products)
      ensures fresh(slab) && fresh(slab.ord) && fresh(slab.q0) && fresh(slab.q1) && fresh(slab.q2) && fresh(slab.q3) &&
          fresh(slab.aux)
      ensures fresh(heads) && fresh(roots) && fresh(known) && fresh(orgHeads)
      ensures this.products == products && this.orgs == orgs && slab.ord.Length == slots && hash == map[]
      ensures this.logging == logging && log == [] && slab.nextId == 1 && |slab.free| == slots
    {
      hide Ok, B.Wf, Entries, Q.OrgOk, B.EmptyBook, Abs, DualSlab.Valid;
      this.products, this.orgs, this.logging := products, orgs, logging;
      slab := new DualSlab(slots);
      heads := new nat[2 * products](_ => NULL);
      roots := new T.Tree[2 * products](_ => T.Leaf);
      known := new nat[slots](_ => 0);
      orgHeads := new nat[products * orgs](_ => NULL);
      hash, log := map[], [];
      ladder := B.EmptyBook(products).ladder;
      members := seq(products * orgs, _ => []);
      new;
      Established();
    }

    lemma Established()
      requires Layout() && slab.Valid() && hash == map[] && ladder == B.EmptyBook(products).ladder
      requires members == seq(products * orgs, _ => [])
      requires forall k :: 0 <= k < heads.Length ==> heads[k] == NULL && roots[k] == T.Leaf
      requires forall x :: 0 <= x < slab.q1.Length ==>
          slab.q1[x] == UNLINKED && slab.q2[x] == UNLINKED && slab.q3[x] == UNLINKED
      requires forall o :: 0 <= o < orgHeads.Length ==> orgHeads[o] == NULL
      ensures Valid() && OrgSound() && Book() == B.EmptyBook(products)
    {
      ghost var s := St();
      EmptyBookOk(s, products);
      NoMembers(s, slab.q3[..], orgHeads[..], orgs, members);
      hide Ok, B.Wf, Q.OrgOk, slab.Valid, B.EmptyBook;
    }

    // ------------------------------------------------------ price descent

    /**
     Finds the head of the level at `price`, or else the head of the next better level
     (NULL at the front): the best level is looked at first, then the tree is descended.
     */
    method FindLevel(k: nat, price: nat) returns (found: nat, after: nat)
      requires Layout() && Ok(St()) && k < heads.Length
      ensures HasLevel(St(), k, price) ==>
          found == HeadSlot(St(), k, Position(St(), k, price)) && found < slab.ord.Length
      ensures !HasLevel(St(), k, price) ==>
                found == NULL && after == if Position(St(), k, price) == 0 then NULL
                    else HeadSlot(St(), k, Position(St(), k, price) - 1)
    {
      ghost var s := St();
      var head := heads[k];
      BestHead(s, k);
      TreeSorted(s, k);
      hide Ok, HasLevel, Position, HeadSlot, Sizes;
      if head == NULL { return NULL, NULL; }
      if B.KeyIsBid(k) && price > slab.ord[head].price { return NULL, NULL; }
      if !B.KeyIsBid(k) && price < slab.ord[head].price { return NULL, NULL; }
      var node := roots[k];
      ghost var c := T.Contents(node);
      ghost var up: Option<nat>, low: Option<nat> := None, None;
      after := NULL;
      DescentStart(node, price);
      while node.Node?
        invariant Descent(c, node, price, up, low)
        invariant after == var near := if B.KeyIsBid(k) then up else low; if near.Some? then c[near.value] else NULL
        decreases node
      {
        DescentStep(c, node, price, up, low);
        if node.price == price {
          DescentFound(s, k, price);
          FoundInRange(s, k, price);
          return node.slot, after;
        }
        if price < node.price {
          if B.KeyIsBid(k) { after := node.slot; }
          up := Some(node.price);
          node := node.left;
        } else {
          if !B.KeyIsBid(k) { after := node.slot; }
          low := Some(node.price);
          node := node.right;
        }
      }
      DescentEnds(s, k, price, up, low);
      return NULL, after;
    }

    // ----------------------------------------------------------- inserting

    method OpenLevel(k: nat, x: nat, after: nat)
      requires Layout() && k < heads.Length && x < slab.ord.Length && (after == NULL || after < slab.ord.Length)
      requires T.Bst(roots[k]) && slab.ord[x].price !in T.Contents(roots[k])
      requires slab.q1[x] == UNLINKED && after != x && (heads[k] == NULL || heads[k] < slab.ord.Length) && heads[k] != x
      requires after != NULL ==> slab.q1[after].next != x
      modifies slab.q1, slab.q2, heads, roots, known
      ensures slab.q1[..] == if after == NULL then LinkFirst(old(slab.q1[..]), old(heads[k]), x)
          else LinkAfter(old(slab.q1[..]), after, x)
      ensures slab.q2[..] == old(slab.q2[..])[x := UNLINKED] && known[..] == old(known[..])[x := slab.ord[x].org]
      ensures heads[..] == old(heads[..])[k := if after == NULL then x else old(heads[k])]
      ensures roots[..] == old(roots[..])[k := roots[k]] && T.Bst(roots[k])
      ensures T.Contents(roots[k]) == T.Contents(old(roots[k]))[slab.ord[x].price := x]
    {
      hide T.Bst, T.Contents, LinkFirst, LinkAfter;
      LinkInLadder(k, x, after);
      known[x] := slab.ord[x].org;
      var root := T.Insert(roots[k], slab.ord[x].price, x);
      roots[k] := root;
      slab.q2[x] := UNLINKED;
    }

    /** Links a slot into the price ladder behind `after`, or at its head. */
    method LinkInLadder(k: nat, x: nat, after: nat)
      requires Layout() && k < heads.Length && x < slab.ord.Length && (after == NULL || after < slab.ord.Length)
      requires slab.q1[x] == UNLINKED && after != x && (heads[k] == NULL || heads[k] < slab.ord.Length) && heads[k] != x
      requires after != NULL ==> slab.q1[after].next != x
      modifies slab.q1, heads
      ensures slab.q1[..] == if after == NULL then LinkFirst(old(slab.q1[..]), old(heads[k]), x)
          else LinkAfter(old(slab.q1[..]), after, x)
      ensures heads[..] == old(heads[..])[k := if after == NULL then x else old(heads[k])]
    {
      slab.q1[x] := UNLINKED;
      if after == NULL {
        if heads[k] != NULL {
          slab.q1[x] := slab.q1[x].(next := heads[k]);
          slab.q1[heads[k]] := slab.q1[heads[k]].(prev := x);
        }
        heads[k] := x;
      } else {
        QueueLinkAfter(slab.q1, after, x);
      }
    }

    method AppendLevel(head: nat, x: nat)
      requires Layout() && head < slab.ord.Length && x < slab.ord.Length &&
          FifoTail(slab.q2[..], head) < slab.ord.Length
      requires head != x && FifoTail(slab.q2[..], head) != x
      modifies slab.q2, known
      ensures slab.q2[..] == FifoPush(old(slab.q2[..]), head, x)
      ensures known[..] == if old(known[head]) != UNKNOWN && old(known[head]) != slab.ord[x].org
          then old(known[..])[head := UNKNOWN] else old(known[..])
    {
      var tail := slab.q2[head].prev;
      if tail == NULL { tail := head; }
      QueueLinkAfter(slab.q2, tail, x);
      slab.q2[head] := slab.q2[head].(prev := x);
      if known[head] != UNKNOWN && known[head] != slab.ord[x].org {
        known[head] := UNKNOWN;
      }
    }

    method LinkOrg(product: nat, x: nat)
      requires Layout() && OrgLinksInRange() && product < products && x < slab.ord.Length && slab.ord[x].org < orgs
      modifies this`members, slab.q3, orgHeads
      ensures OrgLinksInRange()
      ensures var o := Q.OrgIndex(product, slab.ord[x].org, orgs);
              && 0 <= o < orgHeads.Length && (old(orgHeads[o]) == NULL || old(orgHeads[o]) < slab.q3.Length)
              && slab.q3[..] == Q.Push(old(slab.q3[..]), old(orgHeads[o]), x) &&
                 orgHeads[..] == old(orgHeads[..])[o := x]
              && members == if o < |old(members)| then old(members)[o := [slab.ord[x].id] + old(members)[o]]
                 else old(members)
    {
      OrgInRange(product, products, slab.ord[x].org, orgs);
      var o := Q.OrgIndex(product, slab.ord[x].org, orgs);
      if orgHeads[o] == NULL {
        orgHeads[o] := x;
        slab.q3[x] := UNLINKED;
      } else {
        PushInRange(slab.q3[..], orgHeads[o], x);
        QueueLinkBefore(slab.q3, orgHeads[o], x);
        orgHeads[o] := x;
      }
      if o < |members| { members := members[o := [slab.ord[x].id] + members[o]]; }
    }

    method LeaveOrg(product: nat, x: nat)
      requires Layout() && OrgLinksInRange() && product < products && x < slab.ord.Length && slab.ord[x].org < orgs
      modifies slab.q3, orgHeads
      ensures OrgLinksInRange()
      ensures var o := Q.OrgIndex(product, slab.ord[x].org, orgs);
              && 0 <= o < orgHeads.Length
              && slab.q3[..] == Unlink(old(slab.q3[..]), x)
              && orgHeads[..] == old(orgHeads[..])[o := if old(orgHeads[o]) == x then old(slab.q3[x].next)
                 else old(orgHeads[o])]
    {
      OrgInRange(product, products, slab.ord[x].org, orgs);
      var o := Q.OrgIndex(product, slab.ord[x].org, orgs);
      if orgHeads[o] == x {
        orgHeads[o] := slab.q3[x].next;
      }
      UnlinkInRange(slab.q3[..], x);
      hide Unlink;
      var linked := QueueUnlink(slab.q3, x);
    }

    method PlaceOnNewLevel(product: nat, x: nat, k: nat, after: nat)
      requires Layout() && Ok(St()) && Incoming(St(), product, x) && k == B.Key(product, slab.ord[x].flags.bid)
      requires !HasLevel(St(), k, slab.ord[x].price)
      requires after == if Position(St(), k, slab.ord[x].price) == 0 then NULL
          else HeadSlot(St(), k, Position(St(), k, slab.ord[x].price) - 1)
      modifies this`hash, this`ladder, slab.q1, slab.q2, heads, roots, known
      ensures Ok(St()) && |ladder| == |old(ladder)| && Book() == B.Insert(old(Book()), product, slab.ord[x])
      ensures hash == old(hash)[slab.ord[x].id := Loc(x, product)]
    {
      ghost var s := St();
      IncomingElsewhere(s, product, x, k);
      OpenReady(s, product, x, k, after);
      assert k < heads.Length && x < slab.ord.Length && (after == NULL || after < |s.q1|) && s.roots == roots[..] &&
          s.ord == slab.ord[..];
      hide *;
      OpenLevel(k, x, after);
      OpenedIs(s, product, x, k, after, roots[k]);
      hash := hash[slab.ord[x].id := Loc(x, product)];
      ladder := ladder[k := B.PlaceId(Entries(s.hash, s.ord), k, ladder[k], slab.ord[x].price, slab.ord[x].id)];
      ghost var t := St();
      assert t == State(hash, slab.ord[..], slab.q1[..], slab.q2[..], known[..], heads[..], roots[..], ladder);
      assert Opened(s, t, product, x);
      OpenOk(s, t, product, x);
    }

    method PlaceOnLevel(product: nat, x: nat, k: nat, head: nat)
      requires Layout() && Ok(St()) && Incoming(St(), product, x) && k == B.Key(product, slab.ord[x].flags.bid)
      requires HasLevel(St(), k, slab.ord[x].price) && head == HeadSlot(St(), k, Position(St(), k, slab.ord[x].price))
      modifies this`hash, this`ladder, slab.q2, known
      ensures Ok(St()) && |ladder| == |old(ladder)| && Book() == B.Insert(old(Book()), product, slab.ord[x])
      ensures hash == old(hash)[slab.ord[x].id := Loc(x, product)]
    {
      hide Ok, Entries, HasLevel, Position, HeadSlot, B.Insert, B.PlaceId, Appended, FifoPush, FifoTail;
      ghost var s := St();
      AppendReady(s, product, x, k);
      AppendedIs(s, product, x, k, head);
      hide *;
      AppendLevel(head, x);
      hash := hash[slab.ord[x].id := Loc(x, product)];
      ladder := ladder[k := B.PlaceId(Entries(s.hash, s.ord), k, ladder[k], slab.ord[x].price, slab.ord[x].id)];
      ghost var t := St();
      assert t == State(hash, slab.ord[..], slab.q1[..], slab.q2[..], known[..], heads[..], roots[..], ladder);
      AppendOk(s, t, product, x);
    }

    method Place(product: nat, x: nat)
      requires Layout() && Ok(St()) && Incoming(St(), product, x)
      modifies this`hash, this`ladder, slab.q1, slab.q2, heads, roots, known
      ensures Ok(St()) && |ladder| == |old(ladder)| && Book() == B.Insert(old(Book()), product, slab.ord[x])
      ensures hash == old(hash)[slab.ord[x].id := Loc(x, product)]
    {
      var k := B.Key(product, slab.ord[x].flags.bid);
      hide *;
      var found, after := FindLevel(k, slab.ord[x].price);
      if found == NULL {
        PlaceOnNewLevel(product, x, k, after);
      } else {
        PlaceOnLevel(product, x, k, found);
      }
    }

    /** Rests an admitted order in the book and in its organisation's queue. */
    method Rest(product: nat, x: nat)
      requires Layout() && Ok(St()) && OrgLinksInRange() && Incoming(St(), product, x) && product < products &&
          slab.ord[x].org < orgs
      modifies this`hash, this`ladder, this`members, slab.q1, slab.q2, slab.q3, heads, roots, known, orgHeads
      ensures Ok(St()) && |ladder| == |old(ladder)| && Book() == B.Insert(old(Book()), product, slab.ord[x])
      ensures hash == old(hash)[slab.ord[x].id := Loc(x, product)]
      ensures OrgLinksInRange() && (old(OrgSound()) ==> OrgSound())
      ensures OrgJoined(old(slab.q3[..]), old(orgHeads[..]), product, x)
    {
      hide Ok, Entries, Q.OrgOk, Q.OrgIndex, B.Insert;
      ghost var s, q3, before := St(), slab.q3[..], orgHeads[..];
      OrgInRange(product, products, slab.ord[x].org, orgs);
      assert |q3| == |s.ord| && |before| == products * orgs;
      hide *;
      if OrgSound() { InsertOrgs(s, q3, before, orgs, members, product, x); }
      Place(product, x);
      LinkOrg(product, x);
      assert Enter(s, product, x) == hash && s.ord == slab.ord[..];
      assert OrgJoined(q3, before, product, x);
    }

    /** The organisation links after an order has entered its queue. */
    ghost predicate OrgJoined(q3: seq<Link>, before: seq<nat>, product: nat, x: nat)
      reads slab.ord, slab.q3, orgHeads
    {
      && x < slab.ord.Length && x < |q3| && var o := Q.OrgIndex(product, slab.ord[x].org, orgs);
      && o < |before| && (before[o] == NULL || before[o] < |q3|)
      && slab.q3[..] == Q.Push(q3, before[o], x) && orgHeads[..] == before[o := x]
    }

    /** Logs the order, rests it at the end of its level's queue and adds it to its organisation's queue. */
    method Insert(product: nat, x: nat) returns (ok: bool)
      requires Valid() && x < slab.ord.Length && x !in slab.free && !B.Parked(slab.ord[x].flags)
      requires forall id :: id in hash ==> hash[id].slot != x
      modifies this`hash, this`log, this`ladder, this`members, slab.q1, slab.q2, slab.q3, heads, roots, known, orgHeads
      ensures Valid() && (old(OrgSound()) ==> OrgSound())
      ensures ok <==> product < products && slab.ord[x].org < orgs && slab.ord[x].id != 0 &&
                      slab.ord[x].id !in old(hash)
      ensures !ok ==> Book() == old(Book()) && log == old(log) && hash == old(hash)
      ensures ok ==> Book() == B.Insert(old(Book()), product, slab.ord[x]) &&
                     hash == old(hash)[slab.ord[x].id := Loc(x, product)]
      ensures ok ==> log == old(log) + (if logging then [B.RInsert(product, slab.ord[x])] else [])
      ensures ok ==> OrgJoined(old(slab.q3[..]), old(orgHeads[..]), product, x)
    {
      hide Ok, B.Wf, HasLevel, Position, HeadSlot, B.Insert, Entries, slab.Valid, OrgSound, OrgJoined, Q.OrgIndex,
           Q.Push,
           OrgLinksInRange;
      var o := slab.ord[x];
      if product >= products || o.org >= orgs || o.id == 0 { return false; }
      if o.id in hash { return false; }
      assert Incoming(St(), product, x);
      NotInBook(St(), o.id);
      B.InsertWf(Book(), product, o);
      if logging { log := log + [B.RInsert(product, o)]; }
      Rest(product, x);
      return true;
    }

    // ----------------------------------------------------------- detaching

    method RemovePriceLevel(k: nat, x: nat)
      requires Layout() && k < heads.Length && x < slab.ord.Length && T.Bst(roots[k])
      modifies slab.q1, heads, roots
      ensures slab.q1[..] == Unlink(old(slab.q1[..]), x)
      ensures heads[..] == old(heads[..])[k := if old(heads[k]) == x then old(slab.q1[x].next) else old(heads[k])]
      ensures roots[..] == old(roots[..])[k := roots[k]] && T.Bst(roots[k])
      ensures T.Contents(roots[k]) == T.Contents(old(roots[k])) - {slab.ord[x].price}
    {
      hide T.Bst, T.Contents, Unlink;
      if heads[k] == x { heads[k] := slab.q1[x].next; }
      var root := T.Erase(roots[k], slab.ord[x].price);
      roots[k] := root;
      var linked := QueueUnlink(slab.q1, x);
    }

    method ReplaceInLadder(k: nat, x: nat, y: nat)
      requires Layout() && k < heads.Length && x < slab.ord.Length && y < slab.ord.Length
      modifies slab.q1, heads
      ensures slab.q1[..] == Replace(old(slab.q1[..]), x, y)
      ensures heads[..] == old(heads[..])[k := if old(heads[k]) == x then y else old(heads[k])]
    {
      var prev, next := slab.q1[x].prev, slab.q1[x].next;
      slab.q1[y] := Link(next, prev);
      if heads[k] == x { heads[k] := y; }
      if prev != NULL && prev < slab.q1.Length { slab.q1[prev] := slab.q1[prev].(next := y); }
      if next != NULL && next < slab.q1.Length { slab.q1[next] := slab.q1[next].(prev := y); }
      slab.q1[x] := UNLINKED;
    }

    method PromoteInFifo(x: nat, y: nat)
      requires Layout() && x < slab.ord.Length && y < slab.ord.Length
      modifies slab.q2
      ensures slab.q2[..] == FifoPromote(old(slab.q2[..]), x, y)
    {
      var last := slab.q2[y].next == NULL;
      slab.q2[y] := slab.q2[y].(prev := slab.q2[x].prev);
      if last { slab.q2[y] := slab.q2[y].(prev := NULL); }
      var after := slab.q2[y].next;
      if !last && after < slab.q2.Length { slab.q2[after] := slab.q2[after].(prev := y); }
      slab.q2[x] := UNLINKED;
    }

    method PromoteInTree(k: nat, x: nat, y: nat)
      requires Layout() && k < heads.Length && x < slab.ord.Length && y < slab.ord.Length && T.Bst(roots[k])
      requires slab.ord[x].price == slab.ord[y].price
      modifies roots, known
      ensures roots[..] == old(roots[..])[k := roots[k]] && T.Bst(roots[k])
      ensures T.Contents(roots[k]) == (T.Contents(old(roots[k])) - {slab.ord[x].price})[slab.ord[x].price := y]
      ensures known[..] == old(known[..])[y := old(known[x])]
    {
      hide T.Bst, T.Contents;
      var knownOrg := known[x];
      var root := T.Erase(roots[k], slab.ord[x].price);
      known[y] := slab.ord[y].org;
      root := T.Insert(root, slab.ord[y].price, y);
      roots[k] := root;
      known[y] := knownOrg;
    }

    method DropFromFifo(head: nat, x: nat)
      requires Layout() && head < slab.ord.Length && x < slab.ord.Length
      modifies slab.q2
      ensures slab.q2[..] == FifoDrop(old(slab.q2[..]), head, x)
    {
      hide Unlink;
      var next, prev := slab.q2[x].next, slab.q2[x].prev;
      var linked := QueueUnlink(slab.q2, x);
      if next == NULL {
        if prev == head {
          slab.q2[head] := slab.q2[head].(prev := NULL);
        } else {
          slab.q2[head] := slab.q2[head].(prev := prev);
        }
      }
    }

    method DetachLast(k: nat, x: nat, ghost n: nat, ghost id: nat)
      requires Layout() && Ok(St()) && At(St(), k, n, 0, id) && |ladder[k][n]| == 1 && x == SlotOf(hash, id)
      modifies this`ladder, slab.q1, heads, roots
      ensures Ok(St()) && ladder == old(ladder)[k := B.RemoveId(old(ladder)[k], id)]
    {
      ghost var s := St();
      LastIs(s, k, n, id);
      hide *;
      RemovePriceLevel(k, x);
      ladder := ladder[k := L.DropAt(ladder[k], n, 0)];
      ghost var t := St();
      assert t == State(hash, slab.ord[..], slab.q1[..], slab.q2[..], known[..], heads[..], roots[..], ladder);
      assert DetachedLast(s, t, k, n, id);
      DetachLastOk(s, t, k, n, id);
    }

    method DetachHead(k: nat, x: nat, y: nat, ghost n: nat, ghost id: nat)
      requires Layout() && Ok(St()) && At(St(), k, n, 0, id) && |ladder[k][n]| >= 2
      requires x == SlotOf(hash, id) && y == SlotOf(hash, ladder[k][n][1])
      modifies this`ladder, slab.q1, slab.q2, heads, roots, known
      ensures Ok(St()) && ladder == old(ladder)[k := B.RemoveId(old(ladder)[k], id)]
    {
      hide Ok, Entries, T.Bst, T.Contents, Replace, FifoPromote, L.DropAt, B.RemoveId, DetachedHead, Abs;
      ghost var s := St();
      HeadIs(s, k, n, id);
      PromoteInTree(k, x, y);
      PromoteInFifo(x, y);
      ReplaceInLadder(k, x, y);
      ladder := ladder[k := L.DropAt(ladder[k], n, 0)];
      ghost var t := St();
      assert t == HeadReplaced(s, k, n, x, y, roots[k]);
      DetachHeadOk(s, t, k, n, id);
    }

    /** The order is not the head of the level at its price, and in the level at all only if `linked`. */
    method DetachOther(k: nat, head: nat, x: nat, ghost linked: bool, ghost n: nat, ghost j: nat, ghost id: nat)
      requires Layout() && Ok(St()) && head < slab.ord.Length && x < slab.ord.Length
      requires linked ==> At(St(), k, n, j, id) && j > 0 && x == SlotOf(hash, id) &&
                          head == SlotOf(hash, ladder[k][n][0])
      modifies this`ladder, slab.q2
      ensures linked ==> Ok(St()) && ladder == old(ladder)[k := B.RemoveId(old(ladder)[k], id)]
      ensures !linked ==> St() == old(St()).(q2 := FifoDrop(old(slab.q2[..]), head, x))
    {
      ghost var s := St();
      if linked { InnerIs(s, k, n, j, id); }
      hide *;
      DropFromFifo(head, x);
      if linked {
        ladder := ladder[k := L.DropAt(ladder[k], n, j)];
        ghost var t := St();
        assert t == State(hash, slab.ord[..], slab.q1[..], slab.q2[..], known[..], heads[..], roots[..], ladder);
        DetachInnerOk(s, t, k, n, j, id);
      }
    }

    /**
     Takes an order out of its level: the last order takes the level along, a head hands over to
     the next order, any other order just leaves its queue.
     */
    method Detach(product: nat, x: nat, ghost id: nat) returns (ok: bool)
      requires Layout() && Ok(St()) && B.Wf(Book()) && id in hash && hash[id] == Loc(x, product)
      modifies this`ladder, slab.q1, slab.q2, heads, roots, known
      ensures old(B.Linked(Book(), id)) ==>
                ok && Ok(St()) && ladder ==
                    old(ladder)[B.Key(product, slab.ord[x].flags.bid) :=
                    B.RemoveId(old(ladder)[B.Key(product, slab.ord[x].flags.bid)], id)]
      ensures !old(B.Linked(Book(), id)) ==> (ok <==> R.PeersOf(old(Book()), id) > 0) && ladder == old(ladder)
      ensures !old(B.Linked(Book(), id)) && R.PeersOf(old(Book()), id) < 2 ==> St() == old(St())
      ensures !old(B.Linked(Book(), id)) && R.PeersOf(old(Book()), id) >= 2 ==>
          x < slab.q2.Length && SeveredBeside(slab.q2[..], x)
    {
      hide Ok, B.Wf, Entries, R.PeersOf, B.Linked, HasLevel, Position, HeadSlot, SeveredBeside, FifoDrop, B.RemoveId;
      ghost var s := St();
      Keyed(s, id, product, x);
      var k := B.Key(product, slab.ord[x].flags.bid);
      ghost var linked, n, j := Situate(s, id, product, x);
      var head, after := FindLevel(k, slab.ord[x].price);
      if head == NULL { return false; }
      var next := slab.q2[x].next;
      if x == head {
        if next == NULL {
          DetachLast(k, x, n, id);
        } else {
          DetachHead(k, x, next, n, id);
        }
      } else {
        DetachOther(k, head, x, linked, n, j, id);
      }
      return true;
    }

    // ------------------------------------------------- removing and unlinking

    /** Forgets an order that is in no queue and returns its slot to the slab. */
    method Release(x: nat, id: nat)
      requires Layout() && slab.Valid() && x < slab.ord.Length && x !in slab.free
      modifies this`hash, slab`freeA, slab`freeB, slab`used, slab`free, slab.q0, slab.q1, slab.q2, slab.q3, slab.aux
      ensures slab.Valid() && slab.free == [x] + old(slab.free) && hash == old(hash) - {id}
      ensures St() == Forget(old(St()), x, id) && slab.q3[..] == old(slab.q3[..])[x := UNLINKED]
    {
      hide slab.Valid;
      hash := hash - {id};
      slab.Free(x);
    }

    /** What validity says about one order of the map. */
    lemma Admitted(product: nat, x: nat, id: nat)
      requires Valid() && id in hash && hash[id] == Loc(x, product)
      ensures x < slab.ord.Length && slab.ord[x].id == id &&
          id in Book().entries && Book().entries[id] == B.Entry(product, slab.ord[x])
      ensures B.KeyOf(Book().entries[id]) == B.Key(product, slab.ord[x].flags.bid) < heads.Length == |ladder|
      ensures product < products && slab.ord[x].org < orgs &&
          Q.OrgIndex(product, slab.ord[x].org, orgs) < orgHeads.Length
      ensures B.Linked(Book(), id) <==> Q.Active(Book().entries, id)
      ensures x !in slab.free && forall i :: i in hash - {id} ==> hash[i].slot !in [x] + slab.free
    {
      Keyed(St(), id, product, x);
      assert HashOk(hash, slab.ord[..]);
      OrgInRange(product, products, slab.ord[x].org, orgs);
      hide Q.OrgIndex, Ok, slab.Valid;
    }

    method TakeOut(product: nat, x: nat, id: nat) returns (ok: bool)
      requires Layout() && slab.Valid() && Ok(St()) && B.Wf(Book()) &&
          id in hash && hash[id] == Loc(x, product) && x !in slab.free
      modifies this`hash, this`ladder, slab`freeA, slab`freeB, slab`used, slab`free
      modifies slab.q0, slab.q1, slab.q2, slab.q3, slab.aux, heads, roots, known
      ensures slab.Valid() && TakenOut(old(St()), id, ok, St(), x)
      ensures slab.free == (if ok then [x] + old(slab.free) else old(slab.free))
      ensures slab.q3[..] == if ok then Unlink(old(slab.q3[..]), x)[x := UNLINKED] else old(slab.q3[..])
    {
      ghost var s := St();
      assert s == State(hash, slab.ord[..], slab.q1[..], slab.q2[..], known[..], heads[..], roots[..], ladder);
      hide Ok, B.Wf, Entries, slab.Valid, R.PeersOf, B.Linked, TakenOut, Forget, Unlink, SeveredBeside, B.Unlink,
           B.RemoveId, Abs;
      Prepared(s, id, product, x);
      ok := Detach(product, x, id);
      if !ok { return; }
      ghost var t := St();
      assert t == State(hash, slab.ord[..], slab.q1[..], slab.q2[..], known[..], heads[..], roots[..], ladder);
      DropAndFree(x, id);
      AfterRelease(s, t, x, id);
    }

    /** Leaves the organisation's queue, without looking at its head, and frees the slot. */
    method DropAndFree(x: nat, id: nat)
      requires Layout() && slab.Valid() && x < slab.ord.Length && x !in slab.free
      modifies this`hash, slab`freeA, slab`freeB, slab`used, slab`free, slab.q0, slab.q1, slab.q2, slab.q3, slab.aux
      ensures slab.Valid() && slab.free == [x] + old(slab.free)
      ensures St() == Forget(old(St()), x, id) && slab.q3[..] == Unlink(old(slab.q3[..]), x)[x := UNLINKED]
    {
      hide slab.Valid, Unlink;
      var unlinked := QueueUnlink(slab.q3, x);
      Release(x, id);
    }

    /**
     Removes an order found by the matcher or by a cancel request. The head of its organisation's
     queue is not moved along, so that queue survives only if the order was not at its head.
     */
    method RemoveSlot(product: nat, x: nat) returns (ok: bool)
      requires Valid() && x < slab.ord.Length && slab.ord[x].id in hash && hash[slab.ord[x].id] == Loc(x, product)
      modifies this`hash, this`ladder, this`members, slab`freeA, slab`freeB, slab`used, slab`free
      modifies slab.q0, slab.q1, slab.q2, slab.q3, slab.aux, heads, roots, known
      ensures TakenOut(old(St()), slab.ord[x].id, ok, St(), x) && slab.free == if ok then [x] + old(slab.free)
          else old(slab.free)
      ensures Harmless(old(Book()), slab.ord[x].id) ==> Valid()
      ensures ok && old(OrgSound()) ==>
                if old(B.Linked(Book(), slab.ord[x].id)) && LeadsOrg(product, x)
                then forall l :: !OrgSoundFor(l) else OrgSound()
      ensures ok ==> slab.q3[..] == Unlink(old(slab.q3[..]), x)[x := UNLINKED]
    {
      hide Ok, B.Wf, Entries, slab.Valid, Unlink, Q.OrgOk, Q.OrgIndex, R.PeersOf, B.Linked, R.CancelEffect,
           SeveredBeside;
      ghost var s, id := St(), slab.ord[x].id;
      Admitted(product, x, id);
      UnlinkInRange(slab.q3[..], x);
      ghost var after := members;
      if OrgSound() { after := StaleOrgs(s, slab.q3[..], orgHeads[..], orgs, members, id, product, x); }
      ok := TakeOut(product, x, slab.ord[x].id);
      if ok { members := after; }
    }

    /** Takes an order off its level and out of its organisation's queue, whose head moves along. */
    method UnlinkSlot(product: nat, x: nat, ghost id: nat) returns (ok: bool)
      requires Layout() && Ok(St()) && B.Wf(Book()) && id in hash && hash[id] == Loc(x, product)
      requires OrgLinksInRange() && product < products && slab.ord[x].org < orgs
      modifies this`ladder, slab.q1, slab.q2, slab.q3, heads, roots, known, orgHeads
      ensures OffLevel(old(St()), id, ok, St(), product, x) && OrgLinksInRange()
      ensures ok ==> OrgLeft(old(slab.q3[..]), old(orgHeads[..]), product, x)
      ensures !ok ==> slab.q3[..] == old(slab.q3[..]) && orgHeads[..] == old(orgHeads[..])
    {
      hide Ok, B.Wf, Entries, R.PeersOf, B.Linked, SeveredBeside, Unlink, Q.OrgIndex, B.RemoveId;
      ghost var s := St();
      Keyed(s, id, product, x);
      ok := Detach(product, x, id);
      if !ok { return; }
      LeaveOrg(product, x);
    }

    /** The organisation links after an order has left its queue. */
    ghost predicate OrgLeft(q3: seq<Link>, before: seq<nat>, product: nat, x: nat)
      reads slab.ord, slab.q3, orgHeads
    {
      && x < slab.ord.Length && x < |q3| && var o := Q.OrgIndex(product, slab.ord[x].org, orgs);
      && o < |before| && slab.q3[..] == Unlink(q3, x)
      && orgHeads[..] == before[o := if before[o] == x then q3[x].next else before[o]]
    }

    method UnlinkAndFree(product: nat, x: nat, id: nat) returns (ok: bool)
      requires Layout() && slab.Valid() && Ok(St()) && B.Wf(Book()) &&
          id in hash && hash[id] == Loc(x, product) && x !in slab.free
      requires OrgLinksInRange() && product < products && slab.ord[x].org < orgs
      modifies this`hash, this`ladder, slab`freeA, slab`freeB, slab`used, slab`free
      modifies slab.q0, slab.q1, slab.q2, slab.q3, slab.aux, heads, roots, known, orgHeads
      ensures slab.Valid() && TakenOut(old(St()), id, ok, St(), x) && OrgLinksInRange()
      ensures slab.free == (if ok then [x] + old(slab.free) else old(slab.free))
      ensures ok ==> OrgLeft(old(slab.q3[..]), old(orgHeads[..]), product, x)
      ensures !ok ==> slab.q3[..] == old(slab.q3[..]) && orgHeads[..] == old(orgHeads[..])
    {
      hide Ok, B.Wf, Entries, slab.Valid, Unlink, Q.OrgIndex, R.PeersOf, B.Linked, SeveredBeside, Forget, OffLevel,
           TakenOut;
      ghost var s := St();
      Keyed(s, id, product, x);
      UnlinkClears(slab.q3[..], x);
      ok := UnlinkSlot(product, x, id);
      OffLevelOut(s, id, ok, St(), product, x);
      if !ok { return; }
      Release(x, id);
    }

    method CancelEntry(product: nat, x: nat, id: nat) returns (ok: bool)
      requires Valid() && id in hash && hash[id] == Loc(x, product)
      modifies this`hash, this`ladder, this`members, slab`freeA, slab`freeB, slab`used, slab`free
      modifies slab.q0, slab.q1, slab.q2, slab.q3, slab.aux, heads, roots, known, orgHeads
      ensures TakenOut(old(St()), id, ok, St(), x) && slab.free == if ok then [x] + old(slab.free) else old(slab.free)
      ensures (Harmless(old(Book()), id) ==> Valid()) && (old(OrgSound()) ==> OrgSound())
      ensures ok ==> OrgLeft(old(slab.q3[..]), old(orgHeads[..]), product, x)
    {
      hide Ok, B.Wf, Entries, slab.Valid, Unlink, Q.OrgOk, Q.OrgIndex, R.PeersOf, B.Linked, R.CancelEffect,
           SeveredBeside;
      Admitted(product, x, id);
      ghost var after := members;
      if OrgSound() {
        UnlinkClears(slab.q3[..], x);
        after := CancelOrgs(St(), slab.q3[..], orgHeads[..], orgs, members, id, product, x);
      }
      ok := UnlinkAndFree(product, x, id);
      if ok { members := after; }
    }

    /** Cancelling by id: looked up, logged, unlinked everywhere and returned to the slab. */
    method Cancel(id: nat) returns (ok: bool)
      requires Valid()
      modifies this`hash, this`log, this`ladder, this`members, slab`freeA, slab`freeB, slab`used, slab`free
      modifies slab.q0, slab.q1, slab.q2, slab.q3, slab.aux, heads, roots, known, orgHeads
      ensures id !in old(hash) ==> !ok && St() == old(St()) && log == old(log) && slab.free == old(slab.free)
      ensures id !in old(hash) ==>
          slab.q3[..] == old(slab.q3[..]) && orgHeads[..] == old(orgHeads[..]) && members == old(members)
      ensures id in old(hash) ==> log == old(log) + if logging then [B.RCancel(id)] else []
      ensures id in old(hash) ==> TakenOut(old(St()), id, ok, St(), old(hash)[id].slot)
      ensures id in old(hash) ==> slab.free == if ok then [old(hash)[id].slot] + old(slab.free) else old(slab.free)
      ensures (Harmless(old(Book()), id) ==> Valid()) && (old(OrgSound()) ==> OrgSound())
      ensures id in old(hash) && ok ==>
          OrgLeft(old(slab.q3[..]), old(orgHeads[..]), old(hash)[id].product, old(hash)[id].slot)
    {
      hide TakenOut, Harmless, Q.OrgOk, B.Wf, Ok, slab.Valid, Entries, Unlink, Q.OrgIndex;
      if id !in hash { return false; }
      var x, product := hash[id].slot, hash[id].product;
      if logging { log := log + [B.RCancel(id)]; }
      ok := CancelEntry(product, x, id);
    }

    /** Takes an order off the book but keeps it in the map, marked as deactivated. */
    method Park(product: nat, x: nat) returns (ok: bool)
      requires Valid() && x < slab.ord.Length && slab.ord[x].id in hash && hash[slab.ord[x].id] == Loc(x, product)
      modifies this`ladder, this`members, slab.ord, slab.q1, slab.q2, slab.q3, heads, roots, known, orgHeads
      ensures var b, id := old(Book()), old(slab.ord[x].id);
              && (ok <==> B.Linked(b, id) || R.PeersOf(b, id) > 0)
              && (Harmless(b, id) ==> Valid() && R.DeactivateEffect(b, id) == Some(Book()) && (old(OrgSound()) ==>
                 OrgSound()))
              && (!Harmless(b, id) ==> SeveredBeside(slab.q2[..], x))
    {
      hide Ok, B.Wf, Entries, slab.Valid, Unlink, Q.OrgOk, Q.OrgIndex, R.PeersOf, B.Linked, SeveredBeside, OffLevel,
           B.SetStatus,
           R.DeactivateEffect, Harmless, Q.Active, Held, OrgLinksInRange;
      ghost var s, id := St(), slab.ord[x].id;
      Admitted(product, x, id);
      var parked := slab.ord[x].(flags := B.SetStatus(slab.ord[x].flags, B.STATUS_DEACTIVATED));
      ghost var after := members;
      if OrgSound() { after := ParkedOrgs(s, slab.q3[..], orgHeads[..], orgs, members, id, product, x, parked); }
      ok := UnlinkSlot(product, x, id);
      ParkedState(s, id, ok, St(), product, x, parked);
      slab.ord[x] := parked;
      members := after;
    }

    // ----------------------------------------------------------- reading

    /**
     The first order at a level that is not of `org`, from the cache where it knows and learning where it
     does not.
     */
    method FirstOtherOrg(head: nat, org: nat, ghost k: nat, ghost n: nat) returns (y: nat)
      requires Layout() && Ok(St()) && k < |ladder| && n < |ladder[k]| && head == HeadSlot(St(), k, n)
      modifies known
      ensures Ok(St())
      ensures y == SlotAt(hash, ladder[k][n], FirstOther(Book().entries, ladder[k][n], org))
    {
      ghost var s, level := St(), ladder[k][n];
      LevelHead(s, k, n);
      CachedOrg(s, k, n, org);
      hide Ok, Entries, FirstOther, HeadSlot;
      if known[head] != UNKNOWN {
        return if known[head] == org then NULL else head;
      }
      var idx := head;
      ghost var j := 0;
      FirstOtherStart(Entries(s.hash, s.ord), level, org);
      while idx != NULL
        invariant 0 <= j <= |level| && idx == SlotAt(hash, level, j)
        invariant j <= FirstOther(Entries(s.hash, s.ord), level, org) && St() == s
        decreases |level| - j
      {
        LevelSlotAt(s, k, n, j);
        FirstOtherNext(Entries(s.hash, s.ord), level, org, j);
        if slab.ord[idx].org != org { return idx; }
        idx := slab.q2[idx].next;
        j := j + 1;
      }
      Relearn(s, k, n, org);
      known[head] := org;
      return NULL;
    }

    /** The volume resting at a price, in 64-bit arithmetic. */
    method VolumeAt(product: nat, price: nat, bid: bool) returns (total: nat)
      requires Layout() && Ok(St()) && product < products && |ladder| == 2 * products
      ensures total == B.VolumeAt(Book(), B.Key(product, bid), price) % 0x1_0000_0000_0000_0000
    {
      hide Ok, Entries, HeadSlot, HasLevel, Position, B.VolumeAt, B.LevelVolume;
      var k := B.Key(product, bid);
      ghost var s := St();
      VolumeIs(s, k, price);
      var level, after := FindLevel(k, price);
      if level == NULL { return 0; }
      ghost var n := Position(s, k, price);
      ghost var ids := ladder[k][n];
      LevelHead(s, k, n);
      EmptyVolume(Book().entries);
      total := 0;
      var idx := level;
      ghost var j := 0;
      assert ids[..0] == [] && ids[..|ids|] == ids;
      while idx != NULL
        invariant 0 <= j <= |ids| && idx == SlotAt(hash, ids, j)
        invariant total == B.LevelVolume(Book().entries, ids[..j]) % 0x1_0000_0000_0000_0000
        decreases |ids| - j
      {
        LevelSlotAt(s, k, n, j);
        B.LevelVolumeNext(Book().entries, ids, j);
        AddWrap(B.LevelVolume(Book().entries, ids[..j]), slab.ord[idx].remain);
        total := (total + slab.ord[idx].remain) % 0x1_0000_0000_0000_0000;
        idx := slab.q2[idx].next;
        j := j + 1;
      }
      if j < |ids| { LevelSlotAt(s, k, n, j); }
    }

  }

  // ----------------------------------------------------------- small facts

  lemma OrgInRange(p: nat, products: nat, o: nat, orgs: nat)
    requires p < products && o < orgs
    ensures 0 <= Q.OrgIndex(p, o, orgs) < products * orgs
  {
    assert (p + 1) * orgs <= products * orgs;
  }

  /** The side's head is its best level, and a price better than that level's has no level and no better one. */
  lemma BestHead(s: State, k: nat)
    requires Ok(s) && k < |s.ladder|
    ensures s.heads[k] == NULL <==> s.ladder[k] == []
    ensures s.ladder[k] != [] ==> s.heads[k] < |s.ord| && s.heads[k] == HeadSlot(s, k, 0)
    ensures forall price: nat :: s.ladder[k] == [] || B.Rank(k, price) < B.Rank(k, s.ord[s.heads[k]].price) ==>
              Position(s, k, price) == 0 && !HasLevel(s, k, price)
  {
    SideLinks(s, k);
    if s.ladder[k] != [] {
      SideNonempty(s, k, 0);
      SideIdAt(s, k, 0, 0);
      PriceAt(s, k, 0, 0, s.ladder[k][0][0]);
    }
  }

  lemma FoundInRange(s: State, k: nat, price: nat)
    requires Ok(s) && k < |s.ladder| && HasLevel(s, k, price)
    ensures HeadSlot(s, k, Position(s, k, price)) < |s.ord|
  {
    var n := Position(s, k, price);
    SideNonempty(s, k, n);
    SideIdAt(s, k, n, 0);
  }

  /** Opening a level in terms of links: link behind `after`, or in front when there is none. */
  lemma OpenedIs(s: State, product: nat, x: nat, k: nat, after: nat, root: T.Tree)
    requires Ok(s) && Incoming(s, product, x) && k == B.Key(product, s.ord[x].flags.bid) &&
        !HasLevel(s, k, s.ord[x].price)
    requires after == if Position(s, k, s.ord[x].price) == 0 then NULL
        else HeadSlot(s, k, Position(s, k, s.ord[x].price) - 1)
    requires after == NULL <==> Position(s, k, s.ord[x].price) == 0
    requires after == NULL || after < |s.q1|
    requires T.Bst(root) && T.Contents(root) == T.Contents(s.roots[k])[s.ord[x].price := x]
    ensures Opened(s, State(Enter(s, product, x), s.ord,
                            if after == NULL then LinkFirst(s.q1, s.heads[k], x) else LinkAfter(s.q1, after, x),
                            s.q2[x := UNLINKED], s.known[x := s.ord[x].org],
                            s.heads[k := if after == NULL then x else s.heads[k]], s.roots[k := root],
                            s.ladder[k := B.PlaceId(Entries(s.hash, s.ord), k, s.ladder[k], s.ord[x].price,
                                s.ord[x].id)]), product, x)
  {
    hide T.Bst, T.Contents, LinkFirst, LinkAfter, B.PlaceId, Position, HeadSlot, HasLevel, Entries, SideState, HashOk;
    assert Sizes(s);
  }

  lemma AppendedIs(s: State, product: nat, x: nat, k: nat, head: nat)
    requires Ok(s) && Incoming(s, product, x) && k == B.Key(product, s.ord[x].flags.bid) &&
        HasLevel(s, k, s.ord[x].price)
    requires head == HeadSlot(s, k, Position(s, k, s.ord[x].price)) && head < |s.q2| && FifoTail(s.q2, head) < |s.q2|
    ensures x < |s.ord| && head < |s.known|
    ensures Appended(s, State(Enter(s, product, x), s.ord, s.q1, FifoPush(s.q2, head, x),
                              if s.known[head] != UNKNOWN && s.known[head] != s.ord[x].org then s.known[head := UNKNOWN]
                                  else s.known,
                              s.heads, s.roots,
                              s.ladder[k := B.PlaceId(Entries(s.hash, s.ord), k, s.ladder[k], s.ord[x].price,
                                  s.ord[x].id)]), product, x)
  {
    assert Sizes(s);
  }

  lemma EmptyBookOk(s: State, products: nat)
    requires Sizes(s) && s.hash == map[] && s.ladder == B.EmptyBook(products).ladder
    requires forall k :: 0 <= k < |s.ladder| ==> s.heads[k] == NULL && s.roots[k] == T.Leaf
    requires forall x :: 0 <= x < |s.q1| ==> s.q1[x] == UNLINKED && s.q2[x] == UNLINKED
    ensures Ok(s) && Abs(s) == B.EmptyBook(products) && B.Wf(Abs(s))
  {
    EmptyOk(s);
    assert Entries(s.hash, s.ord) == map[];
  }

  lemma NoMembers(s: State, q3: seq<Link>, heads: seq<nat>, orgs: nat, members: seq<seq<nat>>)
    requires s.hash == map[] && |q3| <= NULL && |heads| == |members|
    requires forall o :: 0 <= o < |heads| ==> heads[o] == NULL && members[o] == []
    ensures Q.OrgOk(Entries(s.hash, s.ord), s.hash, q3, heads, orgs, members)
  {
    hide Q.OrgOf;
    forall o | 0 <= o < |heads| ensures Q.Queue(q3, heads[o], Slots(s.hash, members[o])) &&
        Q.Holds(Entries(s.hash, s.ord), orgs, o, members[o]) {
      assert Slots(s.hash, []) == [];
    }
  }

  lemma PushInRange(q: seq<Link>, head: nat, x: nat)
    requires x < |q| && head < |q| && forall i :: 0 <= i < |q| ==> q[i].next == NULL || q[i].next < |q|
    ensures forall i :: 0 <= i < |q| ==> LinkBefore(q, head, x)[i].next == NULL || LinkBefore(q, head, x)[i].next < |q|
  {
  }

  lemma UnlinkInRange(q: seq<Link>, x: nat)
    requires x < |q| && forall i :: 0 <= i < |q| ==> q[i].next == NULL || q[i].next < |q|
    ensures forall i :: 0 <= i < |q| ==> Unlink(q, x)[i].next == NULL || Unlink(q, x)[i].next < |q|
  {
  }

  lemma InsertOrgs(s: State, q3: seq<Link>, heads: seq<nat>, orgs: nat, members: seq<seq<nat>>, product: nat, x: nat)
    requires Ok(s) && Incoming(s, product, x) && |q3| == |s.ord|
    requires Q.OrgOk(Entries(s.hash, s.ord), s.hash, q3, heads, orgs, members)
    requires Q.OrgIndex(product, s.ord[x].org, orgs) < |heads|
    ensures var o, hash := Q.OrgIndex(product, s.ord[x].org, orgs), Enter(s, product, x);
            && (heads[o] == NULL || heads[o] < |q3|) && o < |members|
            && Q.OrgOk(Entries(hash, s.ord), hash, Q.Push(q3, heads[o], x), heads[o := x], orgs,
               members[o := [s.ord[x].id] + members[o]])
  {
    hide Q.OrgIndex, Q.OrgOk, Q.Push;
    assert HashOk(s.hash, s.ord);
    SameLength(Entries(s.hash, s.ord), s.hash, q3, heads, orgs, members);
    Q.ApartOf(s.hash, s.ord);
    EnterHash(s, product, x);
    hide Ok, HashOk, Entries, Q.Apart;
    Q.PushOk(Entries(s.hash, s.ord), s.hash, q3, heads, orgs, members, s.ord[x].id, B.Entry(product, s.ord[x]), x);
  }

  lemma SameLength(e: map<nat, B.Entry>, hash: map<nat, Loc>, q3: seq<Link>, heads: seq<nat>, orgs: nat,
                   members: seq<seq<nat>>)
    requires Q.OrgOk(e, hash, q3, heads, orgs, members)
    ensures |members| == |heads|
  {
  }

  lemma TreeSorted(s: State, k: nat)
    requires Ok(s) && k < |s.ladder|
    ensures k < |s.roots| && T.Bst(s.roots[k])
  {
    SideLinks(s, k);
  }

  function SlotAt(hash: map<nat, Loc>, ids: seq<nat>, j: nat): nat { if j < |ids| then SlotOf(hash, ids[j]) else NULL }

  /** The index of the first order that is not of `org`, or the length of the queue. */
  function FirstOther(e: map<nat, B.Entry>, ids: seq<nat>, org: nat): (j: nat)
    ensures j <= |ids| && (forall i :: 0 <= i < j ==> ids[i] in e && e[ids[i]].order.org == org)
    ensures j < |ids| && ids[j] in e ==> e[ids[j]].order.org != org
  {
    if ids == [] || ids[0] !in e || e[ids[0]].order.org != org then 0 else 1 + FirstOther(e, ids[1..], org)
  }

  lemma FirstOtherStart(e: map<nat, B.Entry>, ids: seq<nat>, org: nat)
    ensures 0 <= FirstOther(e, ids, org)
  {
  }

  lemma FirstOtherNext(e: map<nat, B.Entry>, ids: seq<nat>, org: nat, j: nat)
    requires j < |ids| && ids[j] in e && j <= FirstOther(e, ids, org)
    ensures e[ids[j]].order.org != org ==> FirstOther(e, ids, org) == j
    ensures e[ids[j]].order.org == org ==> FirstOther(e, ids, org) > j
  {
  }

  lemma LevelHead(s: State, k: nat, n: nat)
    requires Ok(s) && k < |s.ladder| && n < |s.ladder[k]|
    ensures s.ladder[k][n] != [] && HeadSlot(s, k, n) == SlotAt(s.hash, s.ladder[k][n], 0) && Sizes(s)
  {
    SideNonempty(s, k, n);
  }

  /** Walking a level's queue visits its orders' slots in FIFO order. */
  lemma LevelSlotAt(s: State, k: nat, n: nat, j: nat)
    requires Ok(s) && k < |s.ladder| && n < |s.ladder[k]| && j < |s.ladder[k][n]|
    ensures SlotWalk(s, s.ladder[k][n], j)
  {
    hide Ok, TreeOk, OrgsOk, L.Side, L.Apart, Fifo, Entries, HashOk;
    var p, level := SlotLevels(s.hash, s.ladder[k]), s.ladder[k][n];
    LevelFifo(s, k, n);
    SideIdAt(s, k, n, j);
    if j + 1 < |level| { SideIdAt(s, k, n, j + 1); }
    EntryAt(s.hash, s.ord, level[j]);
    FifoElim(s.q2, p[n], j);
  }

  lemma LevelFifo(s: State, k: nat, n: nat)
    requires Ok(s) && k < |s.ladder| && n < |s.ladder[k]|
    ensures Fifo(s.q2, SlotLevels(s.hash, s.ladder[k])[n]) && Sizes(s) && HashOk(s.hash, s.ord)
  {
    SideLinks(s, k);
    hide Ok, TreeOk, OrgsOk, L.Apart, Fifo, Entries, HashOk;
  }

  ghost predicate SlotWalk(s: State, level: seq<nat>, j: nat) {
    var y := SlotAt(s.hash, level, j);
    && j < |level| && level[j] in s.hash && level[j] in Entries(s.hash, s.ord) && y < |s.ord| && y < |s.q2| && y != NULL
    && s.q2[y].next == SlotAt(s.hash, level, j + 1) &&
       Entries(s.hash, s.ord)[level[j]] == B.Entry(s.hash[level[j]].product, s.ord[y])
  }

  lemma CachedOrg(s: State, k: nat, n: nat, org: nat)
    requires Ok(s) && k < |s.ladder| && n < |s.ladder[k]|
    ensures var h, level := HeadSlot(s, k, n), s.ladder[k][n];
            h < |s.known| && h != NULL
            && (s.known[h] != UNKNOWN ==>
               FirstOther(Entries(s.hash, s.ord), level, org) == if s.known[h] == org then |level| else 0)
  {
    var e, level := Entries(s.hash, s.ord), s.ladder[k][n];
    SideNonempty(s, k, n);
    SideIdAt(s, k, n, 0);
    SideLinks(s, k);
    assert OrgKnown(s.known, e, s.hash, level);
    assert Sizes(s) && B.SideOk(e, k, s.ladder[k]);
    assert B.LevelOk(e, k, level);
    var j := FirstOther(e, level, org);
    if j < |level| { assert level[j] in e; }
  }

  /** A cache entry may be set once the whole queue is known to be of one organisation. */
  lemma Relearn(s: State, k: nat, n: nat, org: nat)
    requires Ok(s) && k < |s.ladder| && n < |s.ladder[k]| &&
        FirstOther(Entries(s.hash, s.ord), s.ladder[k][n], org) == |s.ladder[k][n]|
    ensures HeadSlot(s, k, n) < |s.known| && Ok(s.(known := s.known[HeadSlot(s, k, n) := org]))
  {
    var h := HeadSlot(s, k, n);
    LevelHead(s, k, n);
    SideIdAt(s, k, n, 0);
    var t := s.(known := s.known[h := org]);
    forall m | 0 <= m < |t.ladder| ensures SideState(t, m) {
      SideLinks(s, m);
      hide Ok, TreeOk, L.Side, L.Apart, Entries, OrgKnown, FirstOther;
      forall i | 0 <= i < |t.ladder[m]| ensures OrgKnown(t.known, Entries(s.hash, s.ord), s.hash, t.ladder[m][i]) {
        RelearnLevel(s, k, n, org, m, i);
      }
    }
  }

  lemma RelearnLevel(s: State, k: nat, n: nat, org: nat, m: nat, i: nat)
    requires Ok(s) && k < |s.ladder| && n < |s.ladder[k]| &&
        FirstOther(Entries(s.hash, s.ord), s.ladder[k][n], org) == |s.ladder[k][n]|
    requires HeadSlot(s, k, n) < |s.known| && m < |s.ladder| && i < |s.ladder[m]|
    ensures OrgKnown(s.known[HeadSlot(s, k, n) := org], Entries(s.hash, s.ord), s.hash, s.ladder[m][i])
  {
    hide Ok, TreeOk, L.Side, L.Apart, Entries, L.On;
    LevelHead(s, k, n);
    SideLinks(s, m);
    assert OrgKnown(s.known, Entries(s.hash, s.ord), s.hash, s.ladder[m][i]);
    if m != k || i != n { OtherHead(s, k, n, m, i); }
  }

  lemma OtherHead(s: State, k: nat, n: nat, m: nat, i: nat)
    requires Ok(s) && k < |s.ladder| && n < |s.ladder[k]| && m < |s.ladder| && i < |s.ladder[m]| && (m != k || i != n)
    ensures s.ladder[m][i] != [] && s.ladder[k][n] != [] &&
        SlotOf(s.hash, s.ladder[m][i][0]) != SlotOf(s.hash, s.ladder[k][n][0])
  {
    SideNonempty(s, k, n);
    SideNonempty(s, m, i);
    SideIdAt(s, k, n, 0);
    SideIdAt(s, m, i, 0);
    if m == k { HeadsDiffer(s, k, i, n); }
  }

  lemma VolumeIs(s: State, k: nat, price: nat)
    requires Ok(s) && k < |s.ladder|
    ensures !HasLevel(s, k, price) ==> B.VolumeAt(Abs(s), k, price) == 0
    ensures HasLevel(s, k, price) ==>
              Position(s, k, price) < |s.ladder[k]| &&
                  B.VolumeAt(Abs(s), k, price) == B.LevelVolume(Abs(s).entries, s.ladder[k][Position(s, k, price)])
  {
  }

  lemma EmptyVolume(e: map<nat, B.Entry>)
    ensures B.LevelVolume(e, []) == 0
  {
  }

  lemma AddWrap(a: nat, b: nat)
    ensures (a % 0x1_0000_0000_0000_0000 + b) % 0x1_0000_0000_0000_0000 == (a + b) % 0x1_0000_0000_0000_0000
  {
  }

  lemma NotInBook(s: State, id: nat)
    requires Ok(s) && id !in s.hash
    ensures id !in Abs(s).entries
  {
  }

  /** The neighbours the new level is linked to are not the incoming slot. */
  lemma OpenReady(s: State, product: nat, x: nat, k: nat, after: nat)
    requires Ok(s) && Incoming(s, product, x) && k == B.Key(product, s.ord[x].flags.bid) &&
        !HasLevel(s, k, s.ord[x].price)
    requires after == if Position(s, k, s.ord[x].price) == 0 then NULL
        else HeadSlot(s, k, Position(s, k, s.ord[x].price) - 1)
    ensures T.Bst(s.roots[k]) && s.ord[x].price !in T.Contents(s.roots[k])
    ensures after == NULL || after < |s.ord|
    ensures after != x && (s.heads[k] == NULL || s.heads[k] < |s.ord|) && s.heads[k] != x
    ensures after != NULL ==> s.q1[after].next != x
    ensures after == NULL <==> Position(s, k, s.ord[x].price) == 0
    ensures s.q1[x] == UNLINKED
  {
    IncomingElsewhere(s, product, x, k);
    SideLinks(s, k);
    hide Ok, TreeOk, OrgsOk, L.Side, L.Apart, L.On, Incoming;
    assert T.Bst(s.roots[k]) by { TreeSorted(s, k); }
    FreshPrice(s, k, s.ord[x].price);
    BestHead(s, k);
    var n := Position(s, k, s.ord[x].price);
    assert Sizes(s);
    if s.ladder[k] != [] { SlotNotHead(s, product, x, k, 0); }
    if n > 0 { SlotNotHead(s, product, x, k, n - 1); }
  }

  lemma SlotNotHead(s: State, product: nat, x: nat, k: nat, n: nat)
    requires Ok(s) && Incoming(s, product, x) && k < |s.ladder| && n < |s.ladder[k]|
    ensures HeadSlot(s, k, n) < |s.ord| == |s.q1| && HeadSlot(s, k, n) != x && HeadSlot(s, k, n) != NULL &&
        s.q1[HeadSlot(s, k, n)].next != x
  {
    var p := SlotLevels(s.hash, s.ladder[k]);
    SideNonempty(s, k, n);
    SideIdAt(s, k, n, 0);
    SideLinks(s, k);
    IncomingLoose(s, product, x, k);
    assert p[n][0] == HeadSlot(s, k, n) && |s.ord| == |s.q1|;
    if n + 1 < |p| { SideNonempty(s, k, n + 1); }
    hide Ok, TreeOk, OrgsOk, L.Apart, Incoming, SlotLevels, HashOk;
    NotAfter(s.q1, s.q2, p, s.heads[k], n, x);
  }

  lemma NotAfter(q1: seq<Link>, q2: seq<Link>, p: seq<seq<nat>>, head: nat, n: nat, x: nat)
    requires L.Side(q1, q2, p, head) && n < |p| && x < |q1| && !L.On(p, x)
    ensures p[n] != [] && p[n][0] < |q1| <= NULL && p[n][0] != x && q1[p[n][0]].next != x
  {
    hide L.Fifos;
    ChainElim(q1, L.Heads(p), n);
    L.HeadOn(p, n, 0);
    if n + 1 < |p| { L.HeadOn(p, n + 1, 0); }
  }

  lemma AppendReady(s: State, product: nat, x: nat, k: nat)
    requires Ok(s) && Incoming(s, product, x) && k == B.Key(product, s.ord[x].flags.bid) &&
        HasLevel(s, k, s.ord[x].price)
    ensures var h := HeadSlot(s, k, Position(s, k, s.ord[x].price));
            h < |s.ord| && h != x && FifoTail(s.q2, h) < |s.q2| && FifoTail(s.q2, h) != x
  {
    SideLinks(s, k);
    var n := Position(s, k, s.ord[x].price);
    var p := SlotLevels(s.hash, s.ladder[k]);
    SideNonempty(s, k, n);
    SideIdAt(s, k, n, 0);
    IncomingLoose(s, product, x, k);
    L.HeadOn(p, n, 0);
    L.HeadOn(p, n, |p[n]| - 1);
    FifoTailIs(s.q2, p[n]);
  }

  /** Taking out the only order of a level, in terms of links. */
  lemma LastIs(s: State, k: nat, n: nat, id: nat)
    requires Ok(s) && At(s, k, n, 0, id) && |s.ladder[k][n]| == 1
    ensures var x := SlotOf(s.hash, id);
            && Sizes(s) && x < |s.ord| && T.Bst(s.roots[k])
            && (forall root: T.Tree :: T.Bst(root) && T.Contents(root) == T.Contents(s.roots[k]) - {s.ord[x].price} ==>
                  DetachedLast(s, s.(q1 := Unlink(s.q1, x), heads :=
                      s.heads[k := if s.heads[k] == x then s.q1[x].next else s.heads[k]],
                                     roots := s.roots[k := root], ladder := s.ladder[k := L.DropAt(s.ladder[k], n, 0)]),
                                         k, n, id))
  {
    SideIdAt(s, k, n, 0);
    TreeSorted(s, k);
    assert Sizes(s);
  }

  lemma HeadIs(s: State, k: nat, n: nat, id: nat)
    requires Ok(s) && At(s, k, n, 0, id) && |s.ladder[k][n]| >= 2
    ensures var x, y := SlotOf(s.hash, id), SlotOf(s.hash, s.ladder[k][n][1]);
            && Sizes(s) && x < |s.ord| && y < |s.ord| && T.Bst(s.roots[k]) && s.ord[x].price == s.ord[y].price
            && (forall root: T.Tree ::
               T.Bst(root) && T.Contents(root) == (T.Contents(s.roots[k]) - {s.ord[x].price})[s.ord[x].price := y] ==>
                  DetachedHead(s, HeadReplaced(s, k, n, x, y, root), k, n, id))
  {
    SideIdAt(s, k, n, 0);
    SideIdAt(s, k, n, 1);
    PriceAt(s, k, n, 0, id);
    PriceAt(s, k, n, 1, s.ladder[k][n][1]);
    TreeSorted(s, k);
    assert Sizes(s);
    var x, y := SlotOf(s.hash, id), SlotOf(s.hash, s.ladder[k][n][1]);
    forall root: T.Tree | T.Bst(root) &&
        T.Contents(root) == (T.Contents(s.roots[k]) - {s.ord[x].price})[s.ord[x].price := y]
      ensures DetachedHead(s, HeadReplaced(s, k, n, x, y, root), k, n, id)
    {
      HeadReplacedIs(s, k, n, id, root);
    }
  }

  /** The state with the head of a level's queue replaced by its successor. */
  ghost function HeadReplaced(s: State, k: nat, n: nat, x: nat, y: nat, root: T.Tree): State
    requires Sizes(s) && k < |s.ladder| && n < |s.ladder[k]| && s.ladder[k][n] != [] && x < |s.ord| && y < |s.ord|
  {
    s.(q1 := Replace(s.q1, x, y), q2 := FifoPromote(s.q2, x, y), known := s.known[y := s.known[x]],
       heads := s.heads[k := if s.heads[k] == x then y else s.heads[k]],
       roots := s.roots[k := root], ladder := s.ladder[k := L.DropAt(s.ladder[k], n, 0)])
  }

  lemma HeadReplacedIs(s: State, k: nat, n: nat, id: nat, root: T.Tree)
    requires Sizes(s) && At(s, k, n, 0, id) && |s.ladder[k][n]| >= 2
    requires var x, y := SlotOf(s.hash, id), SlotOf(s.hash, s.ladder[k][n][1]);
             && x < |s.ord| && y < |s.ord| && T.Bst(root)
             && T.Contents(root) == (T.Contents(s.roots[k]) - {s.ord[x].price})[s.ord[x].price := y]
    ensures DetachedHead(s, HeadReplaced(s, k, n, SlotOf(s.hash, id), SlotOf(s.hash, s.ladder[k][n][1]), root), k, n,
        id)
  {
  }

  lemma InnerIs(s: State, k: nat, n: nat, j: nat, id: nat)
    requires Ok(s) && At(s, k, n, j, id) && j > 0
    ensures var h, x := SlotOf(s.hash, s.ladder[k][n][0]), SlotOf(s.hash, id);
            && Sizes(s) && h < |s.ord| && x < |s.ord|
            && DetachedInner(s, s.(q2 := FifoDrop(s.q2, h, x), ladder := s.ladder[k := L.DropAt(s.ladder[k], n, j)]), k,
               n, j, id)
  {
    SideIdAt(s, k, n, 0);
    SideIdAt(s, k, n, j);
    assert Sizes(s);
  }

  /** A queue member with a successor but no tail link: no arrangement of levels explains it. */
  ghost predicate SeveredBeside(q2: seq<Link>, x: nat) {
    exists y :: 0 <= y < |q2| && y != x && q2[y].next != NULL && q2[y].prev == NULL
  }

  lemma SeveredNotOk(s: State, x: nat)
    requires SeveredBeside(s.q2, x)
    ensures !Ok(s)
  {
    if Ok(s) {
      var y :| 0 <= y < |s.q2| && y != x && s.q2[y].next != NULL && s.q2[y].prev == NULL;
      TailKept(s, y);
    }
  }

  lemma TailKept(s: State, y: nat)
    requires Ok(s) && y < |s.q2| && s.q2[y].next != NULL
    ensures s.q2[y].prev != NULL
  {
    assert Sizes(s);
    if OnLadder(s.hash, s.ladder, y) {
      var k :| 0 <= k < |s.ladder| && L.On(SlotLevels(s.hash, s.ladder[k]), y);
      var p := SlotLevels(s.hash, s.ladder[k]);
      var i :| 0 <= i < |p| && y in p[i];
      var j :| 0 <= j < |p[i]| && p[i][j] == y;
      SideLinks(s, k);
      assert Fifo(s.q2, p[i]);
      hide *;
      FifoPrev(s.q2, p[i], j);
    }
  }

  lemma FifoPrev(q: seq<Link>, p: seq<nat>, j: nat)
    requires Fifo(q, p) && j < |p|
    ensures q[p[j]].next != NULL ==> q[p[j]].prev != NULL
  {
    FifoElim(q, p, j);
    if j > 0 { FifoElim(q, p, j - 1); } else { FifoElim(q, p, |p| - 1); }
  }

  lemma Keyed(s: State, id: nat, product: nat, x: nat)
    requires Ok(s) && B.Wf(Abs(s)) && id in s.hash && s.hash[id] == Loc(x, product)
    ensures x < |s.ord| && s.ord[x].id == id && id in Abs(s).entries && Abs(s).entries[id] == B.Entry(product, s.ord[x])
    ensures B.KeyOf(Abs(s).entries[id]) == B.Key(product, s.ord[x].flags.bid) < |s.ladder| == |s.heads| == |s.roots|
  {
    EntryAt(s.hash, s.ord, id);
    assert Sizes(s);
  }

  /** The level found at a linked order's price is its own. */
  lemma FoundLinked(s: State, k: nat, n: nat, j: nat, id: nat)
    requires Ok(s) && At(s, k, n, j, id)
    ensures var x, level := SlotOf(s.hash, id), s.ladder[k][n];
            && x < |s.ord| == |s.q2| && HasLevel(s, k, s.ord[x].price) && Position(s, k, s.ord[x].price) == n
            && HeadSlot(s, k, n) == SlotOf(s.hash, level[0]) && HeadSlot(s, k, n) != NULL &&
               (x == HeadSlot(s, k, n) <==> j == 0)
            && (j == 0 ==> s.q2[x].next == if |level| == 1 then NULL else SlotOf(s.hash, level[1]))
            && (j == 0 && |level| > 1 ==> s.q2[x].next != NULL)
  {
    var x, level := SlotOf(s.hash, id), s.ladder[k][n];
    SideIdAt(s, k, n, j);
    SideIdAt(s, k, n, 0);
    PriceAt(s, k, n, j, id);
    LevelInTree(s, k, n);
    DescentFound(s, k, s.ord[x].price);
    SideLinks(s, k);
    var p := SlotLevels(s.hash, s.ladder[k]);
    assert Fifo(s.q2, p[n]) && p[n][j] == x;
    if |level| > 1 { SideIdAt(s, k, n, 1); }
    hide Ok, TreeOk, OrgsOk, L.Side, L.Apart, HasLevel, Position;
    FifoElim(s.q2, p[n], 0);
    Same(p[n], 0, j);
  }

  /** What the tail repair does when the order is in no queue. */
  lemma PeersFifo(s: State, k: nat, price: nat)
    requires Ok(s) && k < |s.ladder| && HasLevel(s, k, price)
    ensures var n, p := Position(s, k, price), SlotLevels(s.hash, s.ladder[k]);
            && n < |s.ladder[k]| && |p| == |s.ladder[k]| && Fifo(s.q2, p[n]) && |p[n]| == |s.ladder[k][n]| > 0 &&
               p[n][0] == HeadSlot(s, k, n)
            && |s.q2| == |s.ord| <= NULL
  {
    var n, p := Position(s, k, price), SlotLevels(s.hash, s.ladder[k]);
    SideNonempty(s, k, n);
    SideIdAt(s, k, n, 0);
    SideLinks(s, k);
    hide Ok, TreeOk, OrgsOk, L.Apart;
  }

  lemma IdleApart(s: State, k: nat, x: nat, n: nat)
    requires Ok(s) && k < |s.ladder| && x < |s.ord| && !OnLadder(s.hash, s.ladder, x) && n < |s.ladder[k]|
    ensures s.q2[x] == UNLINKED && x != HeadSlot(s, k, n)
  {
    SideNonempty(s, k, n);
    SideIdAt(s, k, n, 0);
    L.HeadOn(SlotLevels(s.hash, s.ladder[k]), n, 0);
    ClearLoose(s, x);
  }

  lemma IdleDetach(s: State, k: nat, x: nat)
    requires Ok(s) && k < |s.ladder| && x < |s.ord| && !OnLadder(s.hash, s.ladder, x) && HasLevel(s, k, s.ord[x].price)
    ensures var n := Position(s, k, s.ord[x].price);
            var h := HeadSlot(s, k, n);
            && h < |s.q2| == |s.ord| && x != h && h != NULL
            && (|s.ladder[k][n]| == 1 ==> FifoDrop(s.q2, h, x) == s.q2)
            && (|s.ladder[k][n]| != 1 ==> |s.ladder[k][n]| >= 2 && SeveredBeside(FifoDrop(s.q2, h, x), x))
  {
    hide Ok, TreeOk, OrgsOk, L.Side, L.Apart, HasLevel, OnLadder, SlotLevels;
    var n, p := Position(s, k, s.ord[x].price), SlotLevels(s.hash, s.ladder[k]);
    PeersFifo(s, k, s.ord[x].price);
    var h := HeadSlot(s, k, n);
    IdleApart(s, k, x, n);
    FifoElim(s.q2, p[n], 0);
    if |p[n]| > 1 {
      FifoElim(s.q2, p[n], 1);
      assert FifoDrop(s.q2, h, x)[h].next != NULL && FifoDrop(s.q2, h, x)[h].prev == NULL;
    }
  }

  /** Where the order is, and what the level lookup at its price will find. */
  lemma Situate(s: State, id: nat, product: nat, x: nat) returns (linked: bool, n: nat, j: nat)
    requires Ok(s) && B.Wf(Abs(s)) && id in s.hash && s.hash[id] == Loc(x, product) && x < |s.ord|
    requires id in Abs(s).entries && B.KeyOf(Abs(s).entries[id]) == B.Key(product, s.ord[x].flags.bid) < |s.ladder|
    requires Abs(s).entries[id] == B.Entry(product, s.ord[x])
    ensures linked == B.Linked(Abs(s), id) && Sizes(s) && x == SlotOf(s.hash, id)
    ensures var k, price := B.Key(product, s.ord[x].flags.bid), s.ord[x].price;
            if linked then
              && At(s, k, n, j, id) && HasLevel(s, k, price) && Position(s, k, price) == n
              && HeadSlot(s, k, n) == SlotOf(s.hash, s.ladder[k][n][0]) && HeadSlot(s, k, n) != NULL &&
                 (x == HeadSlot(s, k, n) <==> j == 0)
              && (j == 0 ==> s.q2[x].next == if |s.ladder[k][n]| == 1 then NULL else SlotOf(s.hash, s.ladder[k][n][1]))
              && (j == 0 && |s.ladder[k][n]| > 1 ==> s.q2[x].next != NULL)
            else
              && (HasLevel(s, k, price) <==> R.PeersOf(Abs(s), id) > 0)
              && (HasLevel(s, k, price) ==>
                    var h := HeadSlot(s, k, Position(s, k, price));
                    && h < |s.q2| && x != h && h != NULL
                    && (R.PeersOf(Abs(s), id) == 1 ==> FifoDrop(s.q2, h, x) == s.q2)
                    && (R.PeersOf(Abs(s), id) != 1 ==> SeveredBeside(FifoDrop(s.q2, h, x), x)))
  {
    var k := B.Key(product, s.ord[x].flags.bid);
    linked, n, j := B.Linked(Abs(s), id), 0, 0;
    assert Sizes(s);
    if linked {
      n :| 0 <= n < |s.ladder[k]| && id in s.ladder[k][n];
      j :| 0 <= j < |s.ladder[k][n]| && s.ladder[k][n][j] == id;
      FoundLinked(s, k, n, j, id);
    } else {
      forall i | i in s.hash && s.hash[i].slot == x ensures i == id { SlotApart(s.hash, s.ord, i, id); }
      NotOnLadder(s, x);
      if HasLevel(s, k, s.ord[x].price) {
        SideNonempty(s, k, Position(s, k, s.ord[x].price));
        IdleDetach(s, k, x);
      }
    }
  }

  /** The state once an order is out of the map and its slot's links are cleared. */
  function Forget(s: State, x: nat, id: nat): State {
    if x < |s.q1| && x < |s.q2| then s.(hash := s.hash - {id}, q1 := s.q1[x := UNLINKED], q2 := s.q2[x := UNLINKED])
        else s
  }

  lemma ForgetKeeps(s: State, x: nat, id: nat)
    requires Ok(s) && id in s.hash && s.hash[id].slot == x && forall k :: 0 <= k < |s.ladder| ==>
        !B.OnSide(s.ladder[k], id)
    ensures Ok(Forget(s, x, id)) && Abs(Forget(s, x, id)) == Abs(s).(entries := Abs(s).entries - {id})
  {
    assert Sizes(s) && HashOk(s.hash, s.ord);
    forall k | 0 <= k < |s.ladder| ensures !L.On(SlotLevels(s.hash, s.ladder[k]), x) {
      if L.On(SlotLevels(s.hash, s.ladder[k]), x) { OnSlot(s, k, x); }
    }
    ClearLoose(s, x);
    ForgetOk(s, s.(hash := s.hash - {id}), id);
  }

  /** After a linked order has been taken off its level it is on no side. */
  lemma OffEverySide(s: State, t: State, id: nat)
    requires B.Wf(Abs(s)) && B.Linked(Abs(s), id) && t.ladder == B.Unlink(Abs(s), id).ladder
    ensures forall k :: 0 <= k < |t.ladder| ==> !B.OnSide(t.ladder[k], id)
  {
    B.RemoveWf(Abs(s), id);
    forall k | 0 <= k < |t.ladder| ensures !B.OnSide(t.ladder[k], id) {
      if B.OnSide(t.ladder[k], id) { B.OnSideKey(B.Remove(Abs(s), id), k, id); }
    }
  }

  /** An idle order is on no side. */
  lemma OffSides(s: State, id: nat)
    requires B.Wf(Abs(s)) && !B.Linked(Abs(s), id)
    ensures forall k :: 0 <= k < |s.ladder| ==> !B.OnSide(s.ladder[k], id)
  {
    forall k | 0 <= k < |s.ladder| ensures !B.OnSide(s.ladder[k], id) {
      if B.OnSide(s.ladder[k], id) { B.OnSideKey(Abs(s), k, id); }
    }
  }

  /** Unlinking and forgetting a linked order, or forgetting an idle one, is the cancellation. */
  lemma RemovedBook(s: State, t: State, x: nat, id: nat)
    requires Ok(s) && B.Wf(Abs(s)) && id in s.hash && s.hash[id].slot == x && id in Abs(s).entries
    requires Ok(t) && t.hash == s.hash && t.ord == s.ord && B.KeyOf(Abs(s).entries[id]) < |s.ladder|
    requires if B.Linked(Abs(s), id) then t.ladder == B.Unlink(Abs(s), id).ladder
        else t == s && R.PeersOf(Abs(s), id) == 1
    ensures Ok(Forget(t, x, id)) && B.Wf(Abs(Forget(t, x, id))) && |Forget(t, x, id).ladder| == |s.ladder|
    ensures R.CancelEffect(Abs(s), id) == Some(Abs(Forget(t, x, id)))
  {
    if B.Linked(Abs(s), id) {
      OffEverySide(s, t, id);
      B.RemoveWf(Abs(s), id);
    } else {
      OffSides(s, id);
      assert B.Parked(Abs(s).entries[id].order.flags);
      R.ParkedGone(Abs(s), id);
    }
    hide Ok, B.Wf, Entries, Forget;
    ForgetKeeps(t, x, id);
  }

  /** What a removal that returned `ok` does to the state. */
  ghost predicate TakenOut(s: State, id: nat, ok: bool, t: State, x: nat)
  {
    && id in Abs(s).entries && B.KeyOf(Abs(s).entries[id]) < |s.ladder|
    && (ok <==> B.Linked(Abs(s), id) || R.PeersOf(Abs(s), id) > 0)
    && (Harmless(Abs(s), id) ==> Ok(t) && B.Wf(Abs(t)) && R.CancelEffect(Abs(s), id) == Some(Abs(t)))
    && (!Harmless(Abs(s), id) ==> SeveredBeside(t.q2, x))
    && t.hash == (if ok then s.hash - {id} else s.hash) && t.ord == s.ord && |t.ladder| == |s.ladder|
  }

  /** Removing a resting order, or a deactivated one with fewer than two orders at its price. */
  predicate Harmless(b: B.Book, id: nat) {
    id in b.entries && B.KeyOf(b.entries[id]) < |b.ladder| ==> B.Linked(b, id) || R.PeersOf(b, id) < 2
  }

  /** What taking an order off its level does to the state. */
  ghost predicate OffLevel(s: State, id: nat, ok: bool, t: State, product: nat, x: nat) {
    && x < |s.ord| && B.Key(product, s.ord[x].flags.bid) < |s.ladder| && t.hash == s.hash && t.ord == s.ord
    && id in Abs(s).entries && B.KeyOf(Abs(s).entries[id]) == B.Key(product, s.ord[x].flags.bid)
    && (ok <==> B.Linked(Abs(s), id) || R.PeersOf(Abs(s), id) > 0)
    && (var k := B.Key(product, s.ord[x].flags.bid);
        B.Linked(Abs(s), id) ==> Ok(t) && t.ladder == s.ladder[k := B.RemoveId(s.ladder[k], id)])
    && (!B.Linked(Abs(s), id) ==> t.ladder == s.ladder)
    && (!B.Linked(Abs(s), id) && R.PeersOf(Abs(s), id) < 2 ==> t == s)
    && (!B.Linked(Abs(s), id) && R.PeersOf(Abs(s), id) >= 2 ==> SeveredBeside(t.q2, x))
  }

  lemma OffLevelOut(s: State, id: nat, ok: bool, t: State, product: nat, x: nat)
    requires Ok(s) && B.Wf(Abs(s)) &&
        id in s.hash && s.hash[id] == Loc(x, product) && OffLevel(s, id, ok, t, product, x)
    requires |t.q1| == |t.q2| == |s.ord|
    ensures TakenOut(s, id, ok, if ok then Forget(t, x, id) else t, x)
  {
    Prepared(s, id, product, x);
    if ok { AfterRelease(s, t, x, id); }
  }

  lemma Prepared(s: State, id: nat, product: nat, x: nat)
    requires Ok(s) && B.Wf(Abs(s)) && id in s.hash && s.hash[id] == Loc(x, product)
    ensures id in Abs(s).entries && B.KeyOf(Abs(s).entries[id]) == B.Key(product, s.ord[x].flags.bid) < |s.ladder|
    ensures x < |s.ord| && |s.q1| == |s.q2| == |s.ord|
    ensures var k := B.Key(product, s.ord[x].flags.bid);
        B.Unlink(Abs(s), id).ladder == s.ladder[k := B.RemoveId(s.ladder[k], id)]
    ensures !B.Linked(Abs(s), id) && R.PeersOf(Abs(s), id) == 0 ==> TakenOut(s, id, false, s, x)
  {
    Keyed(s, id, product, x);
    assert Sizes(s);
    hide Ok, B.Wf, Entries, B.RemoveId, R.PeersOf, B.OnSide, SeveredBeside;
  }

  lemma AfterRelease(s: State, t: State, x: nat, id: nat)
    requires Ok(s) && B.Wf(Abs(s)) &&
        id in s.hash && s.hash[id].slot == x && id in Abs(s).entries && B.KeyOf(Abs(s).entries[id]) < |s.ladder|
    requires t.hash == s.hash && t.ord == s.ord && |t.ladder| == |s.ladder| &&
        (B.Linked(Abs(s), id) || R.PeersOf(Abs(s), id) > 0)
    requires x < |t.q1| && x < |t.q2|
    requires B.Linked(Abs(s), id) ==> Ok(t) && t.ladder == B.Unlink(Abs(s), id).ladder
    requires !B.Linked(Abs(s), id) && R.PeersOf(Abs(s), id) < 2 ==> t == s
    requires !B.Linked(Abs(s), id) && R.PeersOf(Abs(s), id) >= 2 ==> SeveredBeside(t.q2, x)
    ensures TakenOut(s, id, true, Forget(t, x, id), x)
  {
    if Harmless(Abs(s), id) {
      RemovedBook(s, t, x, id);
    } else {
      var y :| 0 <= y < |t.q2| && y != x && t.q2[y].next != NULL && t.q2[y].prev == NULL;
      assert Forget(t, x, id).q2[y] == t.q2[y];
    }
  }

  // ------------------------------------------- organisation queues, in state terms

  lemma MemberAt(e: map<nat, B.Entry>, orgs: nat, members: seq<seq<nat>>, id: nat) returns (i: nat)
    requires Q.Members(e, orgs, members) && Q.Active(e, id) && Q.OrgOf(e[id], orgs) < |members|
    ensures var o := Q.OrgOf(e[id], orgs); i < |members[o]| && members[o][i] == id
  {
    hide Q.OrgOf;
    var o := Q.OrgOf(e[id], orgs);
    assert Q.Holds(e, orgs, o, members[o]) && Q.Belongs(e, orgs, o, id);
    i :| 0 <= i < |members[o]| && members[o][i] == id;
  }

  /** An order in the map, with the organisation queues exact. */
  ghost predicate Queued(s: State, q3: seq<Link>, heads: seq<nat>, orgs: nat, members: seq<seq<nat>>, id: nat,
                         product: nat, x: nat) {
    && Ok(s) && id in s.hash && s.hash[id] == Loc(x, product) && x < |s.ord| == |q3| &&
                      Q.OrgIndex(product, s.ord[x].org, orgs) < |heads|
    && Q.OrgOk(Entries(s.hash, s.ord), s.hash, q3, heads, orgs, members)
  }

  lemma QueuedFacts(s: State, q3: seq<Link>, heads: seq<nat>, orgs: nat, members: seq<seq<nat>>, id: nat, product: nat,
                    x: nat)
    requires Queued(s, q3, heads, orgs, members, id, product, x)
    ensures var e := Entries(s.hash, s.ord);
            && Q.Apart(e, s.hash, |q3|) && id in e && e[id] == B.Entry(product, s.ord[x]) && |members| == |heads|
            && Q.Members(e, orgs, members) && Q.OrgOf(e[id], orgs) == Q.OrgIndex(product, s.ord[x].org, orgs)
            && Entries(s.hash - {id}, s.ord) == e - {id}
            && Q.Leaves(e, s.hash, e - {id}, s.hash - {id}, id)
  {
    hide Q.OrgIndex;
    assert HashOk(s.hash, s.ord);
    Q.ApartOf(s.hash, s.ord);
  }

  lemma UnlinkClears(q: seq<Link>, x: nat)
    requires x < |q|
    ensures Unlink(q, x)[x := UNLINKED] == Unlink(q, x)
  {
  }

  lemma IdleForgotten(s: State, q3: seq<Link>, heads: seq<nat>, orgs: nat, members: seq<seq<nat>>, id: nat,
                      product: nat, x: nat)
    requires Queued(s, q3, heads, orgs, members, id, product, x) && !Q.Active(Entries(s.hash, s.ord), id)
    ensures var o := Q.OrgIndex(product, s.ord[x].org, orgs);
            && Unlink(q3, x) == q3 && heads[o] != x
            && Q.OrgOk(Entries(s.hash - {id}, s.ord), s.hash - {id}, q3, heads, orgs, members)
  {
    var e := Entries(s.hash, s.ord);
    hide Q.OrgIndex, Q.OrgOk, Entries, Ok, Q.Members, Q.Holds;
    QueuedFacts(s, q3, heads, orgs, members, id, product, x);
    Q.IdleUntouched(e, s.hash, q3, heads, orgs, members, Q.OrgIndex(product, s.ord[x].org, orgs), id);
    Q.FrameOk(e, s.hash, e - {id}, s.hash - {id}, q3, heads, orgs, members);
  }

  /** Removal that leaves the queue's head alone. */
  lemma StaleOrgs(s: State, q3: seq<Link>, heads: seq<nat>, orgs: nat, members: seq<seq<nat>>, id: nat, product: nat,
                  x: nat)
    returns (after: seq<seq<nat>>)
    requires Queued(s, q3, heads, orgs, members, id, product, x)
    ensures var e, hash, r := Entries(s.hash - {id}, s.ord), s.hash - {id}, Unlink(q3, x)[x := UNLINKED];
            if Q.Active(Entries(s.hash, s.ord), id) && heads[Q.OrgIndex(product, s.ord[x].org, orgs)] == x
            then forall l :: !Q.OrgOk(e, hash, r, heads, orgs, l)
            else Q.OrgOk(e, hash, r, heads, orgs, after)
  {
    var e := Entries(s.hash, s.ord);
    hide Q.OrgIndex, Q.OrgOk, Entries, Ok, Q.Members, Unlink, Q.Apart, Q.Leaves;
    QueuedFacts(s, q3, heads, orgs, members, id, product, x);
    UnlinkClears(q3, x);
    after := members;
    if Q.Active(e, id) {
      var o := Q.OrgIndex(product, s.ord[x].org, orgs);
      var i := MemberAt(e, orgs, members, id);
      Q.StaleHead(e, s.hash, q3, heads, orgs, members, o, i, id);
      after := members[o := Delete(members[o], i)];
    } else {
      IdleForgotten(s, q3, heads, orgs, members, id, product, x);
    }
  }

  /** Cancellation, which moves the queue's head along. */
  lemma CancelOrgs(s: State, q3: seq<Link>, heads: seq<nat>, orgs: nat, members: seq<seq<nat>>, id: nat, product: nat,
                   x: nat)
    returns (after: seq<seq<nat>>)
    requires Queued(s, q3, heads, orgs, members, id, product, x)
    ensures var e, hash, r := Entries(s.hash - {id}, s.ord), s.hash - {id}, Unlink(q3, x)[x := UNLINKED];
            var o := Q.OrgIndex(product, s.ord[x].org, orgs);
            Q.OrgOk(e, hash, r, heads[o := if heads[o] == x then q3[x].next else heads[o]], orgs, after)
  {
    var e := Entries(s.hash, s.ord);
    hide Q.OrgIndex, Q.OrgOk, Entries, Ok, Q.Members, Unlink, Q.Apart, Q.Leaves;
    QueuedFacts(s, q3, heads, orgs, members, id, product, x);
    UnlinkClears(q3, x);
    after := members;
    var o := Q.OrgIndex(product, s.ord[x].org, orgs);
    if Q.Active(e, id) {
      var i := MemberAt(e, orgs, members, id);
      Q.DropOk(e, s.hash, e - {id}, s.hash - {id}, q3, heads, orgs, members, o, i, id);
      after := members[o := Delete(members[o], i)];
    } else {
      IdleForgotten(s, q3, heads, orgs, members, id, product, x);
      assert heads[o := heads[o]] == heads;
    }
  }

  /** Deactivation: the order stays in the map with its status changed. */
  lemma ParkOrgs(s: State, q3: seq<Link>, heads: seq<nat>, orgs: nat, members: seq<seq<nat>>, id: nat, product: nat,
                 x: nat, o': B.Order)
    returns (after: seq<seq<nat>>)
    requires Queued(s, q3, heads, orgs, members, id, product, x) && Q.Active(Entries(s.hash, s.ord), id)
    requires o'.id == id && B.Parked(o'.flags)
    ensures var e, r := Entries(s.hash, s.ord[x := o']), Unlink(q3, x);
            var o := Q.OrgIndex(product, s.ord[x].org, orgs);
            Q.OrgOk(e, s.hash, r, heads[o := if heads[o] == x then q3[x].next else heads[o]], orgs, after)
  {
    var e, f := Entries(s.hash, s.ord), Entries(s.hash, s.ord[x := o']);
    hide Q.OrgIndex, Q.OrgOk, Entries, Ok, Q.Members, Unlink;
    ParkedEntry(s, id, product, x, o');
    QueuedFacts(s, q3, heads, orgs, members, id, product, x);
    ParkedLeaves(e, s.hash, id, B.Entry(product, o'));
    hide Q.Leaves, Q.Apart;
    var o := Q.OrgIndex(product, s.ord[x].org, orgs);
    var i := MemberAt(e, orgs, members, id);
    Q.DropOk(e, s.hash, f, s.hash, q3, heads, orgs, members, o, i, id);
    after := members[o := Delete(members[o], i)];
  }

  lemma ParkedOrgs(s: State, q3: seq<Link>, heads: seq<nat>, orgs: nat, members: seq<seq<nat>>, id: nat, product: nat,
                   x: nat, o': B.Order)
    returns (after: seq<seq<nat>>)
    requires Queued(s, q3, heads, orgs, members, id, product, x) &&
        o' == s.ord[x].(flags := B.SetStatus(s.ord[x].flags, B.STATUS_DEACTIVATED))
    ensures var o := Q.OrgIndex(product, s.ord[x].org, orgs);
            var moved := heads[o := if heads[o] == x then q3[x].next else heads[o]];
            && Q.OrgOk(Entries(s.hash, s.ord[x := o']), s.hash, Unlink(q3, x), moved, orgs, after)
            && (!Q.Active(Entries(s.hash, s.ord), id) ==> Unlink(q3, x) == q3 && moved == heads)
  {
    var e := Entries(s.hash, s.ord);
    hide Q.OrgIndex, Q.OrgOk, Entries, Ok, Unlink;
    after := members;
    QueuedFacts(s, q3, heads, orgs, members, id, product, x);
    EntryAtSlot(s, id, product, x);
    if Q.Active(e, id) {
      after := ParkOrgs(s, q3, heads, orgs, members, id, product, x, o');
    } else {
      IdleForgotten(s, q3, heads, orgs, members, id, product, x);
      assert s.ord[x := o'] == s.ord;
      var o := Q.OrgIndex(product, s.ord[x].org, orgs);
      assert heads[o := heads[o]] == heads;
    }
  }

  lemma EntryAtSlot(s: State, id: nat, product: nat, x: nat)
    requires Ok(s) && id in s.hash && s.hash[id] == Loc(x, product)
    ensures x < |s.ord| && s.ord[x].id == id &&
        id in Entries(s.hash, s.ord) && Entries(s.hash, s.ord)[id] == B.Entry(product, s.ord[x])
  {
    EntryAt(s.hash, s.ord, id);
  }

  /** Off its level and marked: the book with the order deactivated. */
  lemma ParkedState(s: State, id: nat, ok: bool, t: State, product: nat, x: nat, o': B.Order)
    requires Ok(s) && B.Wf(Abs(s)) &&
        id in s.hash && s.hash[id] == Loc(x, product) && OffLevel(s, id, ok, t, product, x)
    requires x < |s.ord| && o' == s.ord[x].(flags := B.SetStatus(s.ord[x].flags, B.STATUS_DEACTIVATED))
    ensures Harmless(Abs(s), id) ==>
              var u := t.(ord := t.ord[x := o']);
              Ok(u) && B.Wf(Abs(u)) && R.DeactivateEffect(Abs(s), id) == Some(Abs(u)) && |u.ladder| == |s.ladder|
    ensures !Harmless(Abs(s), id) ==> SeveredBeside(t.q2, x)
    ensures ok <==> B.Linked(Abs(s), id) || R.PeersOf(Abs(s), id) > 0
  {
    Prepared(s, id, product, x);
    EntryAtSlot(s, id, product, x);
    if Harmless(Abs(s), id) {
      if B.Linked(Abs(s), id) {
        B.RemoveWf(Abs(s), id);
        OffEverySide(s, t, id);
        hide B.Wf, B.OnSide, R.PeersOf;
        ParkedAfter(t, id, product, x, o');
      } else {
        assert B.Parked(Abs(s).entries[id].order.flags);
        assert s.ord[x := o'] == s.ord;
      }
    }
  }

  lemma ParkedAfter(t: State, id: nat, product: nat, x: nat, o': B.Order)
    requires Ok(t) && id in t.hash && t.hash[id] == Loc(x, product) && x < |t.ord| && o'.id == id
    requires forall k :: 0 <= k < |t.ladder| ==> !B.OnSide(t.ladder[k], id)
    ensures var u := t.(ord := t.ord[x := o']);
        Ok(u) && Abs(u) == B.Book(Abs(t).entries[id := B.Entry(product, o')], t.ladder)
  {
    forall k | 0 <= k < |t.ladder| ensures !L.On(SlotLevels(t.hash, t.ladder[k]), x) {
      if L.On(SlotLevels(t.hash, t.ladder[k]), x) { OnSlot(t, k, x); EntryAtSlot(t, id, product, x); }
    }
    EntryAtSlot(t, id, product, x);
    forall i | i in t.hash && t.hash[i].slot == x ensures i == id { EntryAt(t.hash, t.ord, i); }
    ParkedEntry(t, id, product, x, o');
    assert !OnLadder(t.hash, t.ladder, x);
    hide Ok;
    TouchOk(t, t.(ord := t.ord[x := o']), x, o');
  }

  lemma ParkedLeaves(e: map<nat, B.Entry>, hash: map<nat, Loc>, id: nat, en: B.Entry)
    requires id in e && id in hash && B.Parked(en.order.flags)
    ensures Q.Leaves(e, hash, e[id := en], hash, id)
  {
  }

  lemma ParkedEntry(s: State, id: nat, product: nat, x: nat, o': B.Order)
    requires Ok(s) && id in s.hash && s.hash[id] == Loc(x, product) && o'.id == id && x < |s.ord|
    ensures Entries(s.hash, s.ord[x := o']) == Entries(s.hash, s.ord)[id := B.Entry(product, o')]
    ensures id in Entries(s.hash, s.ord)
  {
    var e, f := Entries(s.hash, s.ord), Entries(s.hash, s.ord[x := o']);
    assert f.Keys == s.hash.Keys == e.Keys;
    forall i | i in s.hash
        ensures f[i] == if i == id then B.Entry(product, o') else e[i] { SlotApart(s.hash, s.ord, i, id); }
  }
}
