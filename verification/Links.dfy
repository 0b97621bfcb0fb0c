/**
 Intrusive doubly linked queues: the link fields of the slots as a value, the three queue helpers,
 and the shapes the book keeps in them.
 */
module Links {
  import opened Common

  /** The "no slot" index. */
  const NULL: nat := 0xFFFF_FFFF

  datatype Link = Link(next: nat, prev: nat)

  const UNLINKED: Link := Link(NULL, NULL)

  // ------------------------------------------------------- queue helpers

  function SetNext(q: seq<Link>, x: nat, next: nat): (r: seq<Link>)
    requires x < |q|
    ensures |r| == |q|
  {
    q[x := q[x].(next := next)]
  }

  function SetPrev(q: seq<Link>, x: nat, prev: nat): (r: seq<Link>)
    requires x < |q|
    ensures |r| == |q|
  {
    q[x := q[x].(prev := prev)]
  }

  /** Writes through an index that names no slot are skipped. */
  function SetNextIf(q: seq<Link>, x: nat, next: nat): (r: seq<Link>)
    ensures |r| == |q|
  {
    if x < |q| then SetNext(q, x, next) else q
  }

  function SetPrevIf(q: seq<Link>, x: nat, prev: nat): (r: seq<Link>)
    ensures |r| == |q|
  {
    if x < |q| then SetPrev(q, x, prev) else q
  }

  function LinkAfter(q: seq<Link>, prev: nat, x: nat): (r: seq<Link>)
    requires prev < |q| && x < |q|
    ensures |r| == |q|
  {
    var next := q[prev].next;
    SetPrevIf(SetNext(q[x := Link(next, prev)], prev, x), next, x)
  }

  function LinkBefore(q: seq<Link>, next: nat, x: nat): (r: seq<Link>)
    requires next < |q| && x < |q|
    ensures |r| == |q|
  {
    var prev := q[next].prev;
    SetNextIf(SetPrev(q[x := Link(next, prev)], next, x), prev, x)
  }

  function Unlink(q: seq<Link>, x: nat): (r: seq<Link>)
    requires x < |q|
    ensures |r| == |q|
  {
    var next, prev := q[x].next, q[x].prev;
    if next == NULL && prev == NULL then q
    else SetPrevIf(SetNextIf(q, prev, next), next, prev)[x := UNLINKED]
  }

  method QueueLinkAfter(q: array<Link>, prev: nat, x: nat)
    requires prev < q.Length && x < q.Length && q.Length <= NULL
    modifies q
    ensures q[..] == LinkAfter(old(q[..]), prev, x)
  {
    var next := q[prev].next;
    q[x] := Link(next, prev);
    q[prev] := q[prev].(next := x);
    if next != NULL && next < q.Length {
      q[next] := q[next].(prev := x);
    }
  }

  method QueueLinkBefore(q: array<Link>, next: nat, x: nat)
    requires next < q.Length && x < q.Length && q.Length <= NULL
    modifies q
    ensures q[..] == LinkBefore(old(q[..]), next, x)
  {
    var prev := q[next].prev;
    q[x] := Link(next, prev);
    q[next] := q[next].(prev := x);
    if prev != NULL && prev < q.Length {
      q[prev] := q[prev].(next := x);
    }
  }

  method QueueUnlink(q: array<Link>, x: nat) returns (linked: bool)
    requires x < q.Length && q.Length <= NULL
    modifies q
    ensures q[..] == Unlink(old(q[..]), x)
    ensures linked == (old(q[x]) != UNLINKED)
  {
    var next, prev := q[x].next, q[x].prev;
    if next == NULL && prev == NULL { return false; }
    if prev != NULL && prev < q.Length { q[prev] := q[prev].(next := next); }
    if next != NULL && next < q.Length { q[next] := q[next].(prev := prev); }
    q[x] := UNLINKED;
    return true;
  }

  // ------------------------------------------------------------- shapes

  function First(p: seq<nat>): nat { if p == [] then NULL else p[0] }

  function After(p: seq<nat>, i: nat): nat { if i + 1 < |p| then p[i + 1] else NULL }

  function Before(p: seq<nat>, i: nat): nat
    requires i < |p|
  {
    if i > 0 then p[i - 1] else NULL
  }

  ghost predicate InRange(p: seq<nat>, n: nat) {
    n <= NULL && forall i :: 0 <= i < |p| ==> p[i] < n
  }

  /** `p` is a doubly linked list: the price ladder and the organisation queues. */
  ghost predicate Chain(q: seq<Link>, p: seq<nat>) {
    && InRange(p, |q|) && Distinct(p)
    && forall i :: 0 <= i < |p| ==> q[p[i]] == Link(After(p, i), Before(p, i))
  }

  /** The head of a FIFO keeps its tail in `prev`, or NULL when it is alone. */
  function Tail(p: seq<nat>): nat
    requires p != []
  {
    if |p| == 1 then NULL else p[|p| - 1]
  }

  function FifoLink(p: seq<nat>, i: nat): Link
    requires i < |p|
  {
    Link(After(p, i), if i == 0 then Tail(p) else p[i - 1])
  }

  ghost predicate Fifo(q: seq<Link>, p: seq<nat>) {
    && p != [] && InRange(p, |q|) && Distinct(p)
    && forall i :: 0 <= i < |p| ==> q[p[i]] == FifoLink(p, i)
  }

  /** Only slots of `p` and `x` were written. */
  ghost predicate OnlyAt(q: seq<Link>, r: seq<Link>, p: seq<nat>) {
    |r| == |q| && forall y :: 0 <= y < |q| && y !in p ==> r[y] == q[y]
  }

  // ------------------------------------------- distinct index sequences

  function Insert(p: seq<nat>, n: nat, x: nat): (s: seq<nat>)
    requires n <= |p|
    ensures |s| == |p| + 1
    ensures forall i :: 0 <= i < |s| ==> s[i] == if i < n then p[i] else if i == n then x else p[i - 1]
  {
    p[..n] + [x] + p[n..]
  }

  function Delete(p: seq<nat>, n: nat): (s: seq<nat>)
    requires n < |p|
    ensures |s| == |p| - 1
    ensures forall i :: 0 <= i < |s| ==> s[i] == if i < n then p[i] else p[i + 1]
  {
    p[..n] + p[n + 1..]
  }

  lemma DistinctInsert(p: seq<nat>, n: nat, x: nat)
    requires Distinct(p) && n <= |p| && x !in p
    ensures Distinct(Insert(p, n, x))
  {
    var s := Insert(p, n, x);
    forall i, j | 0 <= i < j < |s| ensures s[i] != s[j] {
      if i == n { assert s[j] == p[j - 1]; } else if j == n { assert s[i] == p[i]; }
    }
  }

  lemma DistinctDelete(p: seq<nat>, n: nat)
    requires Distinct(p) && n < |p|
    ensures Distinct(Delete(p, n)) && p[n] !in Delete(p, n)
  {
  }

  lemma DistinctReplace(p: seq<nat>, n: nat, x: nat)
    requires Distinct(p) && n < |p| && x !in p
    ensures Distinct(p[n := x])
  {
  }

  lemma Same(p: seq<nat>, i: int, j: int)
    requires Distinct(p) && 0 <= i < |p| && 0 <= j < |p|
    ensures p[i] == p[j] <==> i == j
  {
  }

  // ------------------------------------------------------- chain lemmas

  lemma LinkAfterAt(q: seq<Link>, prev: nat, x: nat, y: nat)
    requires prev < |q| && x < |q| && y < |q| && x != prev && q[prev].next != x && q[prev].next != prev
    ensures LinkAfter(q, prev, x)[y]
            == if y == x then Link(q[prev].next, prev) else if y == prev then Link(x, q[prev].prev)
               else if y == q[prev].next then Link(q[y].next, x) else q[y]
  {
  }

  ghost predicate ChainAt(q: seq<Link>, p: seq<nat>, i: nat)
    requires i < |p|
  {
    p[i] < |q| && q[p[i]] == Link(After(p, i), Before(p, i))
  }

  lemma ChainIntro(q: seq<Link>, p: seq<nat>)
    requires |q| <= NULL && Distinct(p) && forall i :: 0 <= i < |p| ==> ChainAt(q, p, i)
    ensures Chain(q, p)
  {
    forall i | 0 <= i < |p| ensures p[i] < |q| && q[p[i]] == Link(After(p, i), Before(p, i)) {
      assert ChainAt(q, p, i);
    }
  }

  lemma ChainElim(q: seq<Link>, p: seq<nat>, i: nat)
    requires Chain(q, p) && i < |p|
    ensures ChainAt(q, p, i) && |q| <= NULL && Distinct(p)
  {
  }

  lemma ChainLinkAfter(q: seq<Link>, p: seq<nat>, n: nat, x: nat)
    requires Chain(q, p) && 0 < n <= |p| && x < |q| && x !in p
    ensures Chain(LinkAfter(q, p[n - 1], x), Insert(p, n, x))
    ensures OnlyAt(q, LinkAfter(q, p[n - 1], x), p + [x])
  {
    hide Chain, Distinct, LinkAfter;
    var prev := p[n - 1];
    ChainElim(q, p, n - 1);
    var r, s := LinkAfter(q, prev, x), Insert(p, n, x);
    DistinctInsert(p, n, x);
    if n < |p| { Same(p, n - 1, n); assert p[n] in p; }
    forall i | 0 <= i < |s| ensures ChainAt(r, s, i) {
      if i != n {
        var j := if i < n then i else i - 1;
        ChainElim(q, p, j);
        Same(p, j, n - 1);
        if n < |p| { Same(p, j, n); }
        assert p[j] in p;
      }
      LinkAfterAt(q, prev, x, s[i]);
    }
    ChainIntro(r, s);
    forall y | 0 <= y < |q| && y !in p + [x] ensures r[y] == q[y] {
      assert prev in p && x in p + [x];
      if n < |p| { assert p[n] in p; }
      LinkAfterAt(q, prev, x, y);
    }
  }

  /** Linking a new first element. */
  function LinkFirst(q: seq<Link>, head: nat, x: nat): (r: seq<Link>)
    requires x < |q|
    ensures |r| == |q|
  {
    if head < |q| then SetPrev(q[x := Link(head, NULL)], head, x) else q[x := UNLINKED]
  }

  lemma LinkFirstAt(q: seq<Link>, head: nat, x: nat, y: nat)
    requires x < |q| && y < |q| && |q| <= NULL && head != x && (head < |q| || head == NULL)
    ensures LinkFirst(q, head, x)[y] == if y == x then Link(head, NULL) else if y == head then Link(q[y].next, x)
        else q[y]
  {
  }

  lemma ChainLinkFirst(q: seq<Link>, p: seq<nat>, x: nat)
    requires Chain(q, p) && x < |q| && x !in p
    ensures Chain(LinkFirst(q, First(p), x), Insert(p, 0, x))
    ensures OnlyAt(q, LinkFirst(q, First(p), x), p + [x])
  {
    var r, s := LinkFirst(q, First(p), x), Insert(p, 0, x);
    DistinctInsert(p, 0, x);
    if p != [] { ChainElim(q, p, 0); assert p[0] in p; }
    hide Chain, Distinct, LinkFirst;
    forall i | 0 <= i < |s| ensures ChainAt(r, s, i) {
      if i > 0 {
        ChainElim(q, p, i - 1);
        Same(p, 0, i - 1);
        assert p[i - 1] in p;
      }
      LinkFirstAt(q, First(p), x, s[i]);
    }
    ChainIntro(r, s);
    forall y | 0 <= y < |q| && y !in p + [x] ensures r[y] == q[y] {
      assert x in p + [x];
      LinkFirstAt(q, First(p), x, y);
    }
  }

  lemma UnlinkAt(q: seq<Link>, x: nat, y: nat)
    requires x < |q| && y < |q| && |q| <= NULL && q[x].next != x && q[x].prev != x &&
        (q[x].next == q[x].prev ==> q[x].next == NULL)
    ensures Unlink(q, x)[y]
            == if y == x then UNLINKED else if y == q[x].prev then Link(q[x].next, q[y].prev)
               else if y == q[x].next then Link(q[y].next, q[x].prev) else q[y]
  {
  }

  lemma ChainUnlink(q: seq<Link>, p: seq<nat>, n: nat)
    requires Chain(q, p) && n < |p|
    ensures Chain(Unlink(q, p[n]), Delete(p, n))
    ensures OnlyAt(q, Unlink(q, p[n]), p) && Unlink(q, p[n])[p[n]] == UNLINKED
  {
    hide Chain, Distinct, Unlink;
    var x := p[n];
    ChainElim(q, p, n);
    var r, s := Unlink(q, x), Delete(p, n);
    DistinctDelete(p, n);
    if n > 0 { Same(p, n - 1, n); ChainElim(q, p, n - 1); }
    if n + 1 < |p| { Same(p, n, n + 1); ChainElim(q, p, n + 1); }
    if 0 < n && n + 1 < |p| { Same(p, n - 1, n + 1); }
    UnlinkAt(q, x, x);
    forall i | 0 <= i < |s| ensures ChainAt(r, s, i) {
      var j := if i < n then i else i + 1;
      ChainElim(q, p, j);
      Same(p, j, n);
      if n > 0 { Same(p, j, n - 1); }
      if n + 1 < |p| { Same(p, j, n + 1); }
      UnlinkAt(q, x, s[i]);
    }
    ChainIntro(r, s);
    forall y | 0 <= y < |q| && y !in p ensures r[y] == q[y] {
      assert x in p;
      if n > 0 { assert p[n - 1] in p; }
      if n + 1 < |p| { assert p[n + 1] in p; }
      UnlinkAt(q, x, y);
    }
  }

  /** `x` takes over the place of `old_`. */
  function Replace(q: seq<Link>, old_: nat, x: nat): (r: seq<Link>)
    requires old_ < |q| && x < |q|
    ensures |r| == |q|
  {
    var prev, next := q[old_].prev, q[old_].next;
    SetPrevIf(SetNextIf(q[x := Link(next, prev)], prev, x), next, x)[old_ := UNLINKED]
  }

  lemma ReplaceAt(q: seq<Link>, h: nat, x: nat, y: nat)
    requires h < |q| && x < |q| && y < |q| && |q| <= NULL && x != h
    requires q[h].next != h && q[h].prev != h && q[h].next != x && q[h].prev != x &&
        (q[h].next == q[h].prev ==> q[h].next == NULL)
    ensures Replace(q, h, x)[y]
            == if y == h then UNLINKED else if y == x then q[h] else if y == q[h].prev then Link(x, q[y].prev)
               else if y == q[h].next then Link(q[y].next, x) else q[y]
  {
  }

  lemma ChainReplace(q: seq<Link>, p: seq<nat>, n: nat, x: nat)
    requires Chain(q, p) && n < |p| && x < |q| && x !in p
    ensures Chain(Replace(q, p[n], x), p[n := x])
    ensures OnlyAt(q, Replace(q, p[n], x), p + [x]) && Replace(q, p[n], x)[p[n]] == UNLINKED
  {
    hide Chain, Distinct, Replace;
    var h := p[n];
    ChainElim(q, p, n);
    var r, s := Replace(q, h, x), p[n := x];
    DistinctReplace(p, n, x);
    assert h in p;
    if n > 0 { Same(p, n - 1, n); ChainElim(q, p, n - 1); assert p[n - 1] in p; }
    if n + 1 < |p| { Same(p, n, n + 1); ChainElim(q, p, n + 1); assert p[n + 1] in p; }
    if 0 < n && n + 1 < |p| { Same(p, n - 1, n + 1); }
    ReplaceAt(q, h, x, h);
    forall i | 0 <= i < |s| ensures ChainAt(r, s, i) {
      if i != n {
        ChainElim(q, p, i);
        Same(p, i, n);
        if n > 0 { Same(p, i, n - 1); }
        if n + 1 < |p| { Same(p, i, n + 1); }
        assert p[i] in p;
      }
      ReplaceAt(q, h, x, s[i]);
    }
    ChainIntro(r, s);
    forall y | 0 <= y < |q| && y !in p + [x] ensures r[y] == q[y] {
      assert x in p + [x];
      ReplaceAt(q, h, x, y);
    }
  }

  // --------------------------------------------------------- FIFO lemmas

  ghost predicate FifoAt(q: seq<Link>, p: seq<nat>, i: nat)
    requires i < |p|
  {
    p[i] < |q| && q[p[i]] == FifoLink(p, i)
  }

  lemma FifoIntro(q: seq<Link>, p: seq<nat>)
    requires |q| <= NULL && Distinct(p) && p != [] && forall i :: 0 <= i < |p| ==> FifoAt(q, p, i)
    ensures Fifo(q, p)
  {
    forall i | 0 <= i < |p| ensures p[i] < |q| && q[p[i]] == FifoLink(p, i) {
      assert FifoAt(q, p, i);
    }
  }

  lemma FifoElim(q: seq<Link>, p: seq<nat>, i: nat)
    requires Fifo(q, p) && i < |p|
    ensures FifoAt(q, p, i) && |q| <= NULL && Distinct(p)
  {
  }

  function FifoTail(q: seq<Link>, head: nat): nat
    requires head < |q|
  {
    if q[head].prev == NULL then head else q[head].prev
  }

  function FifoPush(q: seq<Link>, head: nat, x: nat): (r: seq<Link>)
    requires head < |q| && x < |q| && FifoTail(q, head) < |q|
    ensures |r| == |q|
  {
    SetPrev(LinkAfter(q, FifoTail(q, head), x), head, x)
  }

  lemma FifoTailIs(q: seq<Link>, p: seq<nat>)
    requires Fifo(q, p)
    ensures p[0] < |q| && FifoTail(q, p[0]) == p[|p| - 1] && FifoTail(q, p[0]) < |q|
  {
    FifoElim(q, p, 0);
    FifoElim(q, p, |p| - 1);
  }

  lemma FifoPushAt(q: seq<Link>, head: nat, tail: nat, x: nat, y: nat)
    requires head < |q| && x < |q| && y < |q| && FifoTail(q, head) == tail < |q| && x != tail && x != head &&
        q[tail].next == NULL && |q| <= NULL
    ensures FifoPush(q, head, x)[y]
            == if y == x then Link(NULL, tail)
               else Link(if y == tail then x else q[y].next, if y == head then x else q[y].prev)
  {
    hide LinkAfter;
    LinkAfterAt(q, tail, x, y);
    LinkAfterAt(q, tail, x, head);
  }

  lemma FifoPushIndex(q: seq<Link>, p: seq<nat>, x: nat, i: nat)
    requires Fifo(q, p) && p != [] && x < |q| && x !in p && i <= |p| && p[0] < |q| &&
        FifoTail(q, p[0]) == p[|p| - 1] < |q|
    ensures FifoAt(FifoPush(q, p[0], x), Insert(p, |p|, x), i)
  {
    hide Fifo, Distinct, FifoPush, FifoTail;
    var head, tail := p[0], p[|p| - 1];
    FifoElim(q, p, 0);
    FifoElim(q, p, |p| - 1);
    assert tail in p && head in p;
    if i < |p| {
      FifoElim(q, p, i);
      Same(p, i, |p| - 1);
      Same(p, i, 0);
      assert p[i] in p;
      FifoPushAt(q, head, tail, x, p[i]);
    } else {
      FifoPushAt(q, head, tail, x, x);
    }
  }

  lemma FifoPushes(q: seq<Link>, p: seq<nat>, x: nat)
    requires Fifo(q, p) && x < |q| && x !in p
    ensures p[0] < |q| && FifoTail(q, p[0]) < |q|
    ensures Fifo(FifoPush(q, p[0], x), Insert(p, |p|, x)) && OnlyAt(q, FifoPush(q, p[0], x), p + [x])
  {
    FifoTailIs(q, p);
    FifoElim(q, p, 0);
    FifoElim(q, p, |p| - 1);
    hide Fifo, Distinct, FifoPush, FifoTail, FifoAt;
    var r, s := FifoPush(q, p[0], x), Insert(p, |p|, x);
    DistinctInsert(p, |p|, x);
    forall i | 0 <= i < |s| ensures FifoAt(r, s, i) { FifoPushIndex(q, p, x, i); }
    FifoIntro(r, s);
    forall y | 0 <= y < |q| && y !in p + [x] ensures r[y] == q[y] {
      assert p[0] in p && p[|p| - 1] in p && x in p + [x];
      FifoPushAt(q, p[0], p[|p| - 1], x, y);
    }
  }

  /** Taking a non-head out of a FIFO and repairing the tail kept in the head. */
  function FifoDrop(q: seq<Link>, head: nat, x: nat): (r: seq<Link>)
    requires head < |q| && x < |q|
    ensures |r| == |q|
  {
    var next, prev := q[x].next, q[x].prev;
    var u := Unlink(q, x);
    if next == NULL then SetPrev(u, head, if prev == head then NULL else prev) else u
  }

  lemma FifoDropAt(q: seq<Link>, head: nat, x: nat, y: nat)
    requires head < |q| && x < |q| && y < |q| && |q| <= NULL && head != x
    requires q[x].next != x && q[x].prev != x && q[x].prev != NULL && q[x].next != q[x].prev
    ensures FifoDrop(q, head, x)[y]
            == if y == x then UNLINKED
               else Link(if y == q[x].prev then q[x].next else q[y].next,
                         if y == head && q[x].next == NULL then (if q[x].prev == head then NULL else q[x].prev)
                         else if y == q[x].next then q[x].prev else q[y].prev)
  {
    hide Unlink;
    UnlinkAt(q, x, y);
    UnlinkAt(q, x, head);
  }

  lemma FifoDrops(q: seq<Link>, p: seq<nat>, n: nat)
    requires Fifo(q, p) && 0 < n < |p|
    ensures p[0] < |q| && p[n] < |q| && Fifo(FifoDrop(q, p[0], p[n]), Delete(p, n))
    ensures OnlyAt(q, FifoDrop(q, p[0], p[n]), p) && FifoDrop(q, p[0], p[n])[p[n]] == UNLINKED
  {
    hide Fifo, Distinct, FifoDrop;
    var head, x := p[0], p[n];
    FifoElim(q, p, 0);
    FifoElim(q, p, n);
    FifoElim(q, p, n - 1);
    Same(p, 0, n);
    Same(p, n - 1, n);
    if n + 1 < |p| { Same(p, n, n + 1); Same(p, n - 1, n + 1); FifoElim(q, p, n + 1); }
    var r, s := FifoDrop(q, head, x), Delete(p, n);
    DistinctDelete(p, n);
    FifoDropAt(q, head, x, x);
    forall i | 0 <= i < |s| ensures FifoAt(r, s, i) {
      var j := if i < n then i else i + 1;
      FifoElim(q, p, j);
      Same(p, j, n);
      Same(p, j, n - 1);
      Same(p, j, 0);
      Same(p, n - 1, 0);
      if n + 1 < |p| { Same(p, j, n + 1); Same(p, 0, n + 1); }
      FifoDropAt(q, head, x, s[i]);
    }
    FifoIntro(r, s);
    forall y | 0 <= y < |q| && y !in p ensures r[y] == q[y] {
      assert head in p && x in p && p[n - 1] in p;
      if n + 1 < |p| { assert p[n + 1] in p; }
      FifoDropAt(q, head, x, y);
    }
  }

  /** The second order becomes head. */
  function FifoPromote(q: seq<Link>, head: nat, next: nat): (r: seq<Link>)
    requires head < |q| && next < |q|
    ensures |r| == |q|
  {
    var last := q[next].next == NULL;
    var q1 := SetPrev(q, next, if last then NULL else q[head].prev);
    var q2 := if last then q1 else SetPrevIf(q1, q[next].next, next);
    q2[head := UNLINKED]
  }

  lemma FifoPromoteAt(q: seq<Link>, head: nat, next: nat, y: nat)
    requires head < |q| && next < |q| && y < |q| && |q| <= NULL && head != next && q[next].next != next &&
        q[next].next != head
    ensures FifoPromote(q, head, next)[y]
            == if y == head then UNLINKED
               else if y == next then Link(q[y].next, if q[next].next == NULL then NULL else q[head].prev)
               else if y == q[next].next then Link(q[y].next, next) else q[y]
  {
  }

  lemma FifoPromoteIndex(q: seq<Link>, p: seq<nat>, i: nat)
    requires Fifo(q, p) && |p| >= 2 && i + 1 < |p| && p[0] < |q| && p[1] < |q|
    ensures FifoAt(FifoPromote(q, p[0], p[1]), Delete(p, 0), i)
  {
    hide Fifo, Distinct, FifoPromote;
    FifoElim(q, p, 0);
    FifoElim(q, p, 1);
    FifoElim(q, p, i + 1);
    Same(p, 0, 1);
    Same(p, i + 1, 0);
    Same(p, i + 1, 1);
    if 2 < |p| { FifoElim(q, p, 2); Same(p, 0, 2); Same(p, 1, 2); Same(p, i + 1, 2); }
    FifoPromoteAt(q, p[0], p[1], p[i + 1]);
  }

  lemma FifoPromotes(q: seq<Link>, p: seq<nat>)
    requires Fifo(q, p) && |p| >= 2
    ensures p[0] < |q| && p[1] < |q| && Fifo(FifoPromote(q, p[0], p[1]), Delete(p, 0))
    ensures OnlyAt(q, FifoPromote(q, p[0], p[1]), p) && FifoPromote(q, p[0], p[1])[p[0]] == UNLINKED
  {
    FifoElim(q, p, 0);
    FifoElim(q, p, 1);
    Same(p, 0, 1);
    if 2 < |p| { FifoElim(q, p, 2); Same(p, 0, 2); Same(p, 1, 2); }
    hide Fifo, Distinct, FifoPromote, FifoAt, Delete;
    var r, s := FifoPromote(q, p[0], p[1]), Delete(p, 0);
    DistinctDelete(p, 0);
    forall i | 0 <= i < |s| ensures FifoAt(r, s, i) { FifoPromoteIndex(q, p, i); }
    FifoIntro(r, s);
    FifoPromoteAt(q, p[0], p[1], p[0]);
    forall y | 0 <= y < |q| && y !in p ensures r[y] == q[y] {
      assert p[0] in p && p[1] in p;
      if 2 < |p| { assert p[2] in p; }
      FifoPromoteAt(q, p[0], p[1], y);
    }
  }

  // ---------------------------------------------------------------- frames

  lemma ChainFrame(q: seq<Link>, r: seq<Link>, p: seq<nat>)
    requires Chain(q, p) && |r| == |q| && forall i :: 0 <= i < |p| ==> r[p[i]] == q[p[i]]
    ensures Chain(r, p)
  {
  }

  lemma FifoFrame(q: seq<Link>, r: seq<Link>, p: seq<nat>)
    requires Fifo(q, p) && |r| == |q| && forall i :: 0 <= i < |p| ==> r[p[i]] == q[p[i]]
    ensures Fifo(r, p)
  {
  }
}
