/**
 The dual slab: a fixed slab of order slots with their queue links and an aux slab of the same
 size. Each keeps its own free list, and allocation gives up when the two heads disagree.
 */
module Slab {
  import opened Common
  import opened Links
  import opened Book

  const BLANK: Order := Order(NULL, 0, 0, 0, 0, Flags(true, 0, 0, 0))

  class DualSlab {
    const ord: array<Order>     // mandatory fields
    const q0: array<Link>       // free list of the fixed slab
    const q1: array<Link>       // price ladder
    const q2: array<Link>       // time FIFO
    const q3: array<Link>       // organisation queue
    const aux: array<nat>       // first word of each aux slot: free list of the aux slab
    var freeA: nat
    var freeB: nat
    var used: nat
    var nextId: nat
    /** The free slots, in the order both lists hold them. */
    ghost var free: seq<nat>

    ghost predicate Shape() {
      && 0 < ord.Length <= NULL
      && q0.Length == q1.Length == q2.Length == q3.Length == aux.Length == ord.Length
      && q0 != q1 && q0 != q2 && q0 != q3 && q1 != q2 && q1 != q3 && q2 != q3
    }

    ghost predicate Valid()
      reads this`freeA, this`freeB, this`used, this`free, q0, aux
    {
      && Shape()
      && InRange(free, ord.Length) && Distinct(free)
      && used + |free| == ord.Length
      && freeA == First(free) && freeB == First(free)
      && (forall i :: 0 <= i < |free| ==> q0[free[i]].next == After(free, i))
      && (forall i :: 0 <= i < |free| ==> aux[free[i]] == After(free, i))
    }

    constructor (slots: nat)
      requires 0 < slots <= NULL
      ensures Valid() && ord.Length == slots && nextId == 1 && used == 0
      ensures fresh(ord) && fresh(q0) && fresh(q1) && fresh(q2) && fresh(q3) && fresh(aux)
      ensures |free| == slots && forall i :: 0 <= i < slots ==> free[i] == slots - 1 - i
      ensures forall i :: 0 <= i < slots ==> q1[i] == UNLINKED && q2[i] == UNLINKED && q3[i] == UNLINKED
    {
      ord := new Order[slots](_ => BLANK);
      q0 := new Link[slots](_ => UNLINKED);
      q1 := new Link[slots](_ => UNLINKED);
      q2 := new Link[slots](_ => UNLINKED);
      q3 := new Link[slots](_ => UNLINKED);
      aux := new nat[slots](_ => 0);
      used, nextId := 0, 1;
      freeA, freeB, free := NULL, NULL, [];
      new;
      freeA := PushAll(q0);
      ChainAll(aux);
      freeB := slots - 1;
      free := Descending(slots);
      DescendingLinks(slots);
    }

    /** Both lists give the same slot, so allocation fails only when no slot is left. */
    method Alloc() returns (x: nat)
      requires Valid()
      modifies this`freeA, this`freeB, this`used, this`free, ord, q0, q1, q2, q3, aux
      ensures Valid()
      ensures old(free) == [] ==> x == NULL && free == [] && used == old(used)
      ensures old(free) == [] ==>
          ord[..] == old(ord[..]) && q1[..] == old(q1[..]) && q2[..] == old(q2[..]) && q3[..] == old(q3[..])
      ensures old(free) != [] ==>
          x == old(free[0]) && free == old(free[1..]) && x < ord.Length && x !in free && used == old(used) + 1
      ensures old(free) != [] ==> ord[..] == old(ord[..])[x := BLANK] && q1[..] == old(q1[..])[x := UNLINKED]
      ensures old(free) != [] ==> q2[..] == old(q2[..])[x := UNLINKED] && q3[..] == old(q3[..])[x := UNLINKED]
    {
      if freeA == NULL { return NULL; }
      x := freeA;
      freeA := q0[x].next;
      if freeB == NULL { assert false; }
      if freeB != x { assert false; }   // the lists never disagree, so nothing is ever put back
      freeB := aux[x];
      ord[x] := BLANK;
      q0[x], q1[x], q2[x], q3[x] := UNLINKED, UNLINKED, UNLINKED, UNLINKED;
      aux[x] := 0;
      used := used + 1;
      free := free[1..];
    }

    /** A freed slot becomes the head of both lists. */
    method Free(x: nat)
      requires Valid() && x < ord.Length && x !in free
      modifies this`freeA, this`freeB, this`used, this`free, q0, q1, q2, q3, aux
      ensures Valid() && free == [x] + old(free) && used == old(used) - 1
      ensures q1[..] == old(q1[..])[x := UNLINKED] && q2[..] == old(q2[..])[x := UNLINKED] &&
          q3[..] == old(q3[..])[x := UNLINKED]
    {
      RoomToFree(free, x, ord.Length);
      q0[x], q1[x], q2[x], q3[x] := UNLINKED, UNLINKED, UNLINKED, UNLINKED;
      q0[x] := q0[x].(next := freeA);
      freeA := x;
      used := used - 1;
      aux[x] := freeB;
      freeB := x;
      free := [x] + free;
    }

    /** Ids start at 1 and are never reused; 0 means the counter is exhausted. */
    method NextOrderId() returns (id: nat)
      requires nextId <= 0xFFFF_FFFF
      modifies this`nextId
      ensures id == old(nextId)
      ensures nextId == if old(nextId) == 0 || old(nextId) == 0xFFFF_FFFF then 0 else old(nextId) + 1
    {
      if nextId == 0 { return 0; }
      id := nextId;
      nextId := if nextId == 0xFFFF_FFFF then 0 else nextId + 1;
    }
  }

  /** Pushes every slot onto the fixed slab's free list, so that the last one ends up in front. */
  method PushAll(q0: array<Link>) returns (head: nat)
    requires 0 < q0.Length
    modifies q0
    ensures head == q0.Length - 1 && forall j :: 0 <= j < q0.Length ==> q0[j].next == Below(j)
  {
    head := NULL;
    var i := 0;
    while i < q0.Length
      invariant 0 <= i <= q0.Length && head == Below(i)
      invariant forall j :: 0 <= j < i ==> q0[j].next == Below(j)
    {
      q0[i] := q0[i].(next := head);
      head := i;
      i := i + 1;
    }
  }

  /** Links every aux slot to the one below it. */
  method ChainAll(aux: array<nat>)
    modifies aux
    ensures forall j :: 0 <= j < aux.Length ==> aux[j] == Below(j)
  {
    var i := 0;
    while i < aux.Length
      invariant 0 <= i <= aux.Length
      invariant forall j :: 0 <= j < i ==> aux[j] == Below(j)
    {
      aux[i] := if i == 0 then NULL else i - 1;
      i := i + 1;
    }
  }

  lemma DescendingLinks(n: nat)
    requires 0 < n <= NULL
    ensures InRange(Descending(n), n) && Distinct(Descending(n)) && First(Descending(n)) == n - 1
    ensures forall i :: 0 <= i < n ==> After(Descending(n), i) == Below(Descending(n)[i])
  {
  }

  function Below(j: nat): nat { if j == 0 then NULL else j - 1 }

  /** The order in which a new slab hands out its slots. */
  function Descending(n: nat): (p: seq<nat>)
    ensures |p| == n && forall j :: 0 <= j < n ==> p[j] == n - 1 - j
  {
    seq(n, j requires 0 <= j < n => n - 1 - j)
  }

  /** A free list that misses a slot is shorter than the slab. */
  lemma RoomToFree(free: seq<nat>, x: nat, n: nat)
    requires InRange(free, n) && Distinct(free) && x < n && x !in free
    ensures |free| < n
  {
    SeqSet(free);
    assert Elements(free) <= UpTo(n) - {x};
    SubsetSize(Elements(free), UpTo(n) - {x});
  }

  function Elements(p: seq<nat>): set<nat> { set x | x in p }

  function UpTo(n: nat): (s: set<nat>)
    ensures |s| == n && forall x: nat :: x in s <==> x < n
  {
    if n == 0 then {} else UpTo(n - 1) + {n - 1}
  }

  lemma {:induction false} SeqSet(p: seq<nat>)
    requires Distinct(p)
    ensures |Elements(p)| == |p|
  {
    if p != [] {
      var q := p[..|p| - 1];
      SeqSet(q);
      assert Elements(p) == Elements(q) + {p[|p| - 1]};
    }
  }
}
