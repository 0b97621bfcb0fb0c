/**
 One side of the book in its link fields: the ladder of level heads in Q1, a FIFO per level in Q2,
 and what each of the five ways of changing it does to the levels.
 */
module Ladders {
  import opened Common
  import opened Links

  function Heads(s: seq<seq<nat>>): (h: seq<nat>)
    requires forall i :: 0 <= i < |s| ==> s[i] != []
    ensures |h| == |s| && forall i :: 0 <= i < |s| ==> h[i] == s[i][0]
  {
    seq(|s|, i requires 0 <= i < |s| => s[i][0])
  }

  predicate On(s: seq<seq<nat>>, x: nat) {
    exists i :: 0 <= i < |s| && x in s[i]
  }

  /** A slot occurs once. */
  ghost predicate Apart(s: seq<seq<nat>>) {
    forall i, j, m, n :: 0 <= i < |s| && 0 <= j < |s[i]| && 0 <= m < |s| && 0 <= n < |s[m]| && s[i][j] == s[m][n] ==>
        i == m && j == n
  }

  ghost predicate Full(s: seq<seq<nat>>) {
    forall i :: 0 <= i < |s| ==> s[i] != []
  }

  ghost predicate Fifos(q2: seq<Link>, s: seq<seq<nat>>) {
    forall i :: 0 <= i < |s| ==> Fifo(q2, s[i])
  }

  /** Only level heads are linked in Q1. */
  ghost predicate HeadsOnly(q1: seq<Link>, s: seq<seq<nat>>) {
    forall i, j :: 0 <= i < |s| && 0 < j < |s[i]| && s[i][j] < |q1| ==> q1[s[i][j]] == UNLINKED
  }

  ghost predicate Side(q1: seq<Link>, q2: seq<Link>, s: seq<seq<nat>>, head: nat) {
    && Full(s) && |q1| == |q2|
    && Chain(q1, Heads(s)) && head == First(Heads(s))
    && Fifos(q2, s) && HeadsOnly(q1, s)
  }

  /** Outside the levels and `x`, nothing was written. */
  ghost predicate Outside(q: seq<Link>, r: seq<Link>, s: seq<seq<nat>>, x: nat) {
    |r| == |q| && forall y :: 0 <= y < |q| && y != x && !On(s, y) ==> r[y] == q[y]
  }

  lemma HeadOn(s: seq<seq<nat>>, i: nat, j: nat)
    requires i < |s| && j < |s[i]|
    ensures On(s, s[i][j])
  {
    assert s[i][j] in s[i];
  }

  lemma InLevelRange(q1: seq<Link>, q2: seq<Link>, s: seq<seq<nat>>, head: nat, i: nat, j: nat)
    requires Side(q1, q2, s, head) && i < |s| && j < |s[i]|
    ensures s[i][j] < |q1| <= NULL
  {
    assert Fifo(q2, s[i]);
  }

  lemma SideFrame(q1: seq<Link>, r1: seq<Link>, q2: seq<Link>, r2: seq<Link>, s: seq<seq<nat>>, head: nat)
    requires Side(q1, q2, s, head) && |r1| == |q1| && |r2| == |q2|
    requires forall y :: 0 <= y < |q1| && On(s, y) ==> r1[y] == q1[y] && r2[y] == q2[y]
    ensures Side(r1, r2, s, head)
  {
    forall i, j | 0 <= i < |s| && 0 <= j < |s[i]| ensures s[i][j] < |q1| && r1[s[i][j]] == q1[s[i][j]] &&
        r2[s[i][j]] == q2[s[i][j]] {
      InLevelRange(q1, q2, s, head, i, j);
      HeadOn(s, i, j);
    }
    ChainFrame(q1, r1, Heads(s));
    forall i | 0 <= i < |s| ensures Fifo(r2, s[i]) { FifoFrame(q2, r2, s[i]); }
  }

  // -------------------------------------------------------- a new level

  function LinkLevel(q1: seq<Link>, s: seq<seq<nat>>, head: nat, n: nat, x: nat): (r: seq<Link>)
    requires n <= |s| && x < |q1| && (n > 0 ==> s[n - 1] != [] && s[n - 1][0] < |q1|)
    ensures |r| == |q1|
  {
    if n == 0 then LinkFirst(q1, head, x) else LinkAfter(q1, s[n - 1][0], x)
  }

  function OpenAt(s: seq<seq<nat>>, n: nat, x: nat): (r: seq<seq<nat>>)
    requires n <= |s|
    ensures |r| == |s| + 1
    ensures forall i :: 0 <= i < |r| ==> r[i] == if i < n then s[i] else if i == n then [x] else s[i - 1]
  {
    s[..n] + [[x]] + s[n..]
  }

  lemma HeadNotIn(q1: seq<Link>, q2: seq<Link>, s: seq<seq<nat>>, head: nat, x: nat)
    requires Side(q1, q2, s, head) && !On(s, x)
    ensures x !in Heads(s)
  {
    forall i | 0 <= i < |s| ensures Heads(s)[i] != x { HeadOn(s, i, 0); }
  }

  lemma OpenedHeads(s: seq<seq<nat>>, n: nat, x: nat)
    requires Full(s) && n <= |s|
    ensures Full(OpenAt(s, n, x)) && Heads(OpenAt(s, n, x)) == Links.Insert(Heads(s), n, x)
  {
  }

  lemma OpenedHeadsOnly(q1: seq<Link>, r1: seq<Link>, s: seq<seq<nat>>, n: nat, x: nat)
    requires Full(s) && Apart(s) && HeadsOnly(q1, s) && n <= |s| && !On(s, x) && |r1| == |q1|
    requires forall y :: 0 <= y < |q1| && y !in Heads(s) && y != x ==> r1[y] == q1[y]
    ensures HeadsOnly(r1, OpenAt(s, n, x))
  {
    var t := OpenAt(s, n, x);
    forall i, j | 0 <= i < |t| && 0 < j < |t[i]| && t[i][j] < |r1| ensures r1[t[i][j]] == UNLINKED {
      var m := if i < n then i else i - 1;
      assert t[i] == s[m];
      HeadOn(s, m, j);
      NotHead(s, m, j);
    }
  }

  lemma OpensLevel(q1: seq<Link>, q2: seq<Link>, s: seq<seq<nat>>, head: nat, n: nat, x: nat)
    requires Side(q1, q2, s, head) && Apart(s) && n <= |s| && x < |q1| && !On(s, x)
    ensures n > 0 ==> s[n - 1] != [] && s[n - 1][0] < |q1|
    ensures Side(LinkLevel(q1, s, head, n, x), q2[x := UNLINKED], OpenAt(s, n, x), if n == 0 then x else head)
    ensures Outside(q1, LinkLevel(q1, s, head, n, x), s, x)
  {
    if n > 0 { InLevelRange(q1, q2, s, head, n - 1, 0); }
    assert |q1| <= NULL;
    HeadNotIn(q1, q2, s, head, x);
    hide Fifos, HeadsOnly, Chain, Apart, On, Outside, OpenAt, LinkFirst, LinkAfter;
    var h := Heads(s);
    var r1 := LinkLevel(q1, s, head, n, x);
    if n == 0 { ChainLinkFirst(q1, h, x); } else { ChainLinkAfter(q1, h, n, x); }
    OpenedHeads(s, n, x);
    WrittenHeads(q1, r1, s, x);
    OpensFifos(q2, s, n, x);
    OpenedHeadsOnly(q1, r1, s, n, x);
  }

  lemma NotHead(s: seq<seq<nat>>, i: nat, j: nat)
    requires Apart(s) && Full(s) && i < |s| && 0 < j < |s[i]|
    ensures s[i][j] !in Heads(s)
  {
  }

  lemma WrittenHeads(q1: seq<Link>, r1: seq<Link>, s: seq<seq<nat>>, x: nat)
    requires Full(s) && OnlyAt(q1, r1, Heads(s) + [x])
    ensures Outside(q1, r1, s, x)
    ensures forall y :: 0 <= y < |q1| && y !in Heads(s) && y != x ==> r1[y] == q1[y]
  {
    forall y | 0 <= y < |q1| && y != x && y !in Heads(s) ensures r1[y] == q1[y] {
      assert y !in Heads(s) + [x];
    }
    forall y | 0 <= y < |q1| && y != x && !On(s, y) ensures r1[y] == q1[y] {
      forall i | 0 <= i < |s| ensures Heads(s)[i] != y { HeadOn(s, i, 0); }
    }
  }

  lemma OpensFifos(q2: seq<Link>, s: seq<seq<nat>>, n: nat, x: nat)
    requires Fifos(q2, s) && n <= |s| && x < |q2| <= NULL && !On(s, x)
    ensures Fifos(q2[x := UNLINKED], OpenAt(s, n, x))
  {
    var r2, t := q2[x := UNLINKED], OpenAt(s, n, x);
    forall i | 0 <= i < |t| ensures Fifo(r2, t[i]) {
      if i == n {
        assert t[i] == [x];
      } else {
        var m := if i < n then i else i - 1;
        assert t[i] == s[m] && Fifo(q2, s[m]);
        forall j | 0 <= j < |s[m]| ensures r2[s[m][j]] == q2[s[m][j]] { HeadOn(s, m, j); }
        FifoFrame(q2, r2, s[m]);
      }
    }
  }

  // ------------------------------------------------------ append to a level

  lemma AppendedFifos(q2: seq<Link>, r2: seq<Link>, s: seq<seq<nat>>, n: nat, x: nat)
    requires Fifos(q2, s) && Apart(s) && n < |s| && !On(s, x) && OnlyAt(q2, r2, s[n] + [x]) && Fifo(r2, s[n] + [x])
    ensures Fifos(r2, s[n := s[n] + [x]])
  {
    OthersKept(q2, r2, s, n, x);
  }

  lemma AppendedHeads(q1: seq<Link>, s: seq<seq<nat>>, n: nat, x: nat)
    requires Full(s) && n < |s| && HeadsOnly(q1, s) && x < |q1| && q1[x] == UNLINKED
    ensures Full(s[n := s[n] + [x]]) && Heads(s[n := s[n] + [x]]) == Heads(s) && HeadsOnly(q1, s[n := s[n] + [x]])
  {
  }

  lemma LevelWithout(s: seq<seq<nat>>, n: nat, x: nat)
    requires !On(s, x) && n < |s|
    ensures x !in s[n]
  {
  }

  lemma AppendsToLevel(q1: seq<Link>, q2: seq<Link>, s: seq<seq<nat>>, head: nat, n: nat, x: nat)
    requires Side(q1, q2, s, head) && Apart(s) && n < |s| && x < |q1| && !On(s, x) && q1[x] == UNLINKED
    ensures s[n] != [] && s[n][0] < |q2| && FifoTail(q2, s[n][0]) < |q2|
    ensures Side(q1, FifoPush(q2, s[n][0], x), s[n := s[n] + [x]], head)
    ensures Outside(q2, FifoPush(q2, s[n][0], x), s, x)
  {
    assert Fifo(q2, s[n]);
    LevelWithout(s, n, x);
    FifoPushes(q2, s[n], x);
    hide Fifos, HeadsOnly, Chain, Apart, On, Outside, Fifo, FifoPush, FifoTail;
    assert Links.Insert(s[n], |s[n]|, x) == s[n] + [x];
    var r2 := FifoPush(q2, s[n][0], x);
    AppendedHeads(q1, s, n, x);
    AppendedFifos(q2, r2, s, n, x);
    LevelOutside(q2, r2, s, n, x);
  }

  lemma OthersKept(q2: seq<Link>, r2: seq<Link>, s: seq<seq<nat>>, n: nat, x: nat)
    requires Fifos(q2, s) && Apart(s) && n < |s| && !On(s, x) && OnlyAt(q2, r2, s[n] + [x])
    ensures forall i :: 0 <= i < |s| && i != n ==> Fifo(r2, s[i])
  {
    forall i | 0 <= i < |s| && i != n ensures Fifo(r2, s[i]) {
      assert Fifo(q2, s[i]);
      forall j | 0 <= j < |s[i]| ensures r2[s[i][j]] == q2[s[i][j]] {
        HeadOn(s, i, j);
        assert s[i][j] !in s[n] + [x];
      }
      FifoFrame(q2, r2, s[i]);
    }
  }

  lemma LevelOutside(q2: seq<Link>, r2: seq<Link>, s: seq<seq<nat>>, n: nat, x: nat)
    requires n < |s| && OnlyAt(q2, r2, s[n] + [x])
    ensures Outside(q2, r2, s, x)
  {
    forall y | 0 <= y < |q2| && y != x && !On(s, y) ensures r2[y] == q2[y] {
      assert y !in s[n];
      assert y !in s[n] + [x];
    }
  }

  // --------------------------------------------------------- removing

  /** Levels after the order at position `j` of level `n` is gone. */
  function DropAt(s: seq<seq<nat>>, n: nat, j: nat): (r: seq<seq<nat>>)
    requires n < |s| && j < |s[n]|
  {
    if |s[n]| == 1 then s[..n] + s[n + 1..] else s[n := Delete(s[n], j)]
  }

  lemma DroppedAt(s: seq<seq<nat>>, n: nat)
    requires n < |s| && |s[n]| == 1
    ensures |DropAt(s, n, 0)| == |s| - 1
    ensures forall i :: 0 <= i < |s| - 1 ==> DropAt(s, n, 0)[i] == s[if i < n then i else i + 1]
  {
  }

  lemma DroppedHeads(q2: seq<Link>, s: seq<seq<nat>>, n: nat)
    requires Full(s) && n < |s| && |s[n]| == 1 && Fifos(q2, s)
    ensures Full(DropAt(s, n, 0)) && Heads(DropAt(s, n, 0)) == Delete(Heads(s), n) && Fifos(q2, DropAt(s, n, 0))
  {
    hide DropAt, Fifo;
    DroppedAt(s, n);
  }

  lemma DroppedHeadsOnly(q1: seq<Link>, r1: seq<Link>, s: seq<seq<nat>>, n: nat)
    requires Full(s) && Apart(s) && n < |s| && |s[n]| == 1 && HeadsOnly(q1, s) && |r1| == |q1|
    requires forall y :: 0 <= y < |q1| && y !in Heads(s) && y != s[n][0] ==> r1[y] == q1[y]
    ensures HeadsOnly(r1, DropAt(s, n, 0))
  {
    hide DropAt;
    DroppedAt(s, n);
    var t := DropAt(s, n, 0);
    forall i, j | 0 <= i < |t| && 0 < j < |t[i]| && t[i][j] < |r1| ensures r1[t[i][j]] == UNLINKED {
      var m := if i < n then i else i + 1;
      assert t[i] == s[m];
      NotHead(s, m, j);
      assert s[m][j] != s[n][0];
    }
  }

  lemma DroppedFirst(q1: seq<Link>, h: seq<nat>, head: nat, n: nat)
    requires Chain(q1, h) && head == First(h) && n < |h|
    ensures h[n] < |q1| && (if head == h[n] then q1[h[n]].next else head) == First(Delete(h, n))
  {
    ChainElim(q1, h, n);
    Same(h, 0, n);
  }

  lemma DropsLevel(q1: seq<Link>, q2: seq<Link>, s: seq<seq<nat>>, head: nat, n: nat)
    requires Side(q1, q2, s, head) && Apart(s) && n < |s| && |s[n]| == 1
    ensures var x := s[n][0]; x < |q1| && q2[x] == UNLINKED && Unlink(q1, x)[x] == UNLINKED
    ensures var x := s[n][0]; Side(Unlink(q1, x), q2, DropAt(s, n, 0), if head == x then q1[x].next else head)
    ensures Outside(q1, Unlink(q1, s[n][0]), s, s[n][0])
  {
    var x, h := s[n][0], Heads(s);
    InLevelRange(q1, q2, s, head, n, 0);
    assert Fifo(q2, s[n]);
    assert q2[s[n][0]] == FifoLink(s[n], 0);
    hide Fifos, HeadsOnly, Chain, Apart, On, Outside, Fifo, Unlink, DropAt, Delete;
    ChainUnlink(q1, h, n);
    var r1 := Unlink(q1, x);
    OnlyMore(q1, r1, h, x);
    WrittenHeads(q1, r1, s, x);
    DroppedHeads(q2, s, n);
    DroppedHeadsOnly(q1, r1, s, n);
    DroppedFirst(q1, h, head, n);
  }

  lemma PromotedLevel(q1: seq<Link>, r1: seq<Link>, s: seq<seq<nat>>, n: nat)
    requires Full(s) && Apart(s) && n < |s| && |s[n]| >= 2 && HeadsOnly(q1, s) && |r1| == |q1|
    requires forall z :: 0 <= z < |q1| && z !in Heads(s) && z != s[n][1] ==> r1[z] == q1[z]
    ensures Full(DropAt(s, n, 0)) && Heads(DropAt(s, n, 0)) == Heads(s)[n := s[n][1]] && HeadsOnly(r1, DropAt(s, n, 0))
  {
    var t := DropAt(s, n, 0);
    assert forall i :: 0 <= i < |t| && i != n ==> t[i] == s[i];
    assert t[n] == Delete(s[n], 0);
    KeptHeadsOnly(q1, r1, s, n, s[n][1]);
    forall i, j | 0 <= i < |t| && 0 < j < |t[i]| && t[i][j] < |r1| ensures r1[t[i][j]] == UNLINKED {
      if i == n { assert t[i][j] == s[n][j + 1]; } else { assert t[i][j] == s[i][j]; }
    }
  }

  lemma StillOutside(q: seq<Link>, r: seq<Link>, s: seq<seq<nat>>, n: nat, j: nat, x: nat)
    requires n < |s| && j < |s[n]| && Outside(q, r, s, s[n][j])
    ensures Outside(q, r, s, x)
  {
    HeadOn(s, n, j);
  }

  lemma Promotes(q1: seq<Link>, q2: seq<Link>, s: seq<seq<nat>>, head: nat, n: nat)
    requires Side(q1, q2, s, head) && Apart(s) && n < |s| && |s[n]| >= 2
    ensures var x, y := s[n][0], s[n][1]; x < |q1| && y < |q1|
    ensures var x, y := s[n][0], s[n][1]; Replace(q1, x, y)[x] == UNLINKED && FifoPromote(q2, x, y)[x] == UNLINKED
    ensures var x, y := s[n][0], s[n][1];
            Side(Replace(q1, x, y), FifoPromote(q2, x, y), DropAt(s, n, 0), if head == x then y else head)
    ensures var x, y := s[n][0], s[n][1];
        Outside(q1, Replace(q1, x, y), s, x) && Outside(q2, FifoPromote(q2, x, y), s, x)
  {
    var x, y, h := s[n][0], s[n][1], Heads(s);
    InLevelRange(q1, q2, s, head, n, 0);
    InLevelRange(q1, q2, s, head, n, 1);
    assert Fifo(q2, s[n]);
    hide Fifos, HeadsOnly, Chain, Apart, On, Outside, Fifo, Replace, FifoPromote, DropAt, Delete;
    NotHead(s, n, 1);
    FifoPromotes(q2, s[n]);
    ChainReplace(q1, h, n, y);
    var r1, r2 := Replace(q1, x, y), FifoPromote(q2, x, y);
    PromoteHead(q1, h, head, n, x, y);
    WrittenHeads(q1, r1, s, y);
    StillOutside(q1, r1, s, n, 1, x);
    PromotedLevel(q1, r1, s, n);
    PromotedFifos(q2, r2, s, n);
    OnlyMore(q2, r2, s[n], x);
    LevelOutside(q2, r2, s, n, x);
  }

  lemma PromoteHead(q1: seq<Link>, h: seq<nat>, head: nat, n: nat, x: nat, y: nat)
    requires Chain(q1, h) && head == First(h) && n < |h| && h[n] == x
    ensures (if head == x then y else head) == First(h[n := y])
  {
    if n > 0 { Same(h, 0, n); }
  }

  lemma KeptHeadsOnly(q1: seq<Link>, r1: seq<Link>, s: seq<seq<nat>>, n: nat, y: nat)
    requires Apart(s) && Full(s) && HeadsOnly(q1, s) && n < |s| && |s[n]| >= 2 && s[n][1] == y && |r1| == |q1|
    requires forall z :: 0 <= z < |q1| && z !in Heads(s) && z != y ==> r1[z] == q1[z]
    ensures forall i, j :: 0 <= i < |s| && 0 < j < |s[i]| && s[i][j] < |r1| && !(i == n && j == 1) ==>
        r1[s[i][j]] == UNLINKED
  {
    forall i, j | 0 <= i < |s| && 0 < j < |s[i]| && s[i][j] < |r1| && !(i == n && j == 1)
        ensures r1[s[i][j]] == UNLINKED {
      NotHead(s, i, j);
      assert s[i][j] != s[n][1];
    }
  }

  lemma OnlyMore(q: seq<Link>, r: seq<Link>, p: seq<nat>, x: nat)
    requires OnlyAt(q, r, p)
    ensures OnlyAt(q, r, p + [x])
  {
    forall y | 0 <= y < |q| && y !in p + [x] ensures r[y] == q[y] {
      assert forall i :: 0 <= i < |p| ==> (p + [x])[i] == p[i];
      assert y !in p;
    }
  }

  lemma PromotedFifos(q2: seq<Link>, r2: seq<Link>, s: seq<seq<nat>>, n: nat)
    requires Fifos(q2, s) && Apart(s) && n < |s| && |s[n]| >= 2 && OnlyAt(q2, r2, s[n]) && Fifo(r2, Delete(s[n], 0))
    ensures Fifos(r2, DropAt(s, n, 0))
  {
    SameLevelKept(q2, r2, s, n);
  }

  lemma SameLevelKept(q2: seq<Link>, r2: seq<Link>, s: seq<seq<nat>>, n: nat)
    requires Fifos(q2, s) && Apart(s) && n < |s| && OnlyAt(q2, r2, s[n])
    ensures forall i :: 0 <= i < |s| && i != n ==> Fifo(r2, s[i])
  {
    forall i | 0 <= i < |s| && i != n ensures Fifo(r2, s[i]) {
      assert Fifo(q2, s[i]);
      forall j | 0 <= j < |s[i]| ensures r2[s[i][j]] == q2[s[i][j]] {
        assert s[i][j] !in s[n];
      }
      FifoFrame(q2, r2, s[i]);
    }
  }

  lemma DroppedMiddle(q1: seq<Link>, q2: seq<Link>, r2: seq<Link>, s: seq<seq<nat>>, n: nat, j: nat)
    requires Full(s) && Apart(s) && n < |s| && 0 < j < |s[n]| && HeadsOnly(q1, s) && Fifos(q2, s)
    requires OnlyAt(q2, r2, s[n]) && Fifo(r2, Delete(s[n], j))
    ensures Full(DropAt(s, n, j)) && Heads(DropAt(s, n, j)) == Heads(s) && HeadsOnly(q1, DropAt(s, n, j)) &&
        Fifos(r2, DropAt(s, n, j))
  {
    var t := DropAt(s, n, j);
    assert t == s[n := Delete(s[n], j)];
    assert t[n][0] == s[n][0];
    SameLevelKept(q2, r2, s, n);
    forall i, m | 0 <= i < |t| && 0 < m < |t[i]| && t[i][m] < |q1| ensures q1[t[i][m]] == UNLINKED {
      if i == n { assert t[i][m] == s[n][if m < j then m else m + 1]; }
    }
  }

  lemma DropsMiddle(q1: seq<Link>, q2: seq<Link>, s: seq<seq<nat>>, head: nat, n: nat, j: nat)
    requires Side(q1, q2, s, head) && Apart(s) && n < |s| && 0 < j < |s[n]|
    ensures var h, x := s[n][0], s[n][j]; h < |q1| && x < |q1| && q1[x] == UNLINKED && FifoDrop(q2, h, x)[x] == UNLINKED
    ensures var h, x := s[n][0], s[n][j]; Side(q1, FifoDrop(q2, h, x), DropAt(s, n, j), head)
    ensures var h, x := s[n][0], s[n][j]; Outside(q2, FifoDrop(q2, h, x), s, x)
  {
    var h, x := s[n][0], s[n][j];
    InLevelRange(q1, q2, s, head, n, 0);
    InLevelRange(q1, q2, s, head, n, j);
    assert Fifo(q2, s[n]);
    assert q1[s[n][j]] == UNLINKED;
    hide Fifos, HeadsOnly, Chain, Apart, On, Outside, Fifo, FifoDrop, DropAt, Delete;
    FifoDrops(q2, s[n], j);
    var r2 := FifoDrop(q2, h, x);
    DroppedMiddle(q1, q2, r2, s, n, j);
    OnlyMore(q2, r2, s[n], x);
    LevelOutside(q2, r2, s, n, x);
  }
}
