/**
 A run of the engine that leaves a price on both sides, and what its log does to a public worker: an
 organisation's bid passes over its own ask at the same price, and both are cancelled later.
 */
module MarketFailures {
  import opened Common
  import opened Market
  import opened PublicMarket
  import opened Failures
  import A = Allocation
  import B = Book
  import L = LevelBooks
  import M = Matching
  import R = Replay

  const OWN: M.Policy := M.Policy(None, true)

  /** The ask rests; the bid excludes its own organisation and rests at the same price; both are cancelled. */
  const OPS: seq<R.Op> := [R.Match(0, ASK, A.PLAIN, true), R.Match(0, Bid(2), OWN, true), R.Cancel(1), R.Cancel(2)]

  const LOG: seq<B.Record> := [B.RInsert(0, ASK), B.RInsert(0, Bid(2)), B.RCancel(1), B.RCancel(2)]

  function Locked(): B.Book { B.Book(map[1 := B.Entry(0, ASK), 2 := B.Entry(0, Bid(2))], [[[2]], [[1]]]) }

  lemma PassesLevel()
    ensures M.MatchLevel(OWN, Asked().entries, [1], 0, 100, Bid(2), 0) ==
        M.LevelOutcome(Asked().entries, [1], 10, 0, [])
  {
    var e := Asked().entries;
    M.LevelSkips(OWN, e, [1], 0, 100, Bid(2), 0);
    assert [1][1..] == [];
    M.LevelRests(OWN, e, [], 0, 100, Bid(2), 0);
  }

  lemma PassesSide()
    requires M.SidePresent(Asked().entries, [[1]])
    ensures M.MatchSide(OWN, Asked().entries, [[1]], 0, Bid(2), 0) == M.SideOutcome(Asked().entries, [[1]], 10, 0, [])
  {
    hide M.MatchLevel;
    PassesLevel();
    assert [[1]][1..] == [] && [[1]][0] == [1];
    assert B.LevelPrice(Asked().entries, [1]) == 100;
  }

  /** The bid finds only its own organisation's ask and rests. */
  lemma BidPasses()
    requires B.Wf(Asked())
    ensures R.Submit(ONE, Asked(), 0, Bid(2), OWN, true) == R.Live(Locked(), [B.RInsert(0, Bid(2))])
  {
    hide B.Wf, M.MatchSide;
    var b, taker := Asked(), Bid(2);
    assert R.MakerKey(0, taker) == 1 && b.ladder[1] == [[1]] && b.ladder[0] == [];
    assert B.SideOk(b.entries, 1, b.ladder[1]) by { SideIs(); }
    R.SideOkPresent(b.entries, 1, b.ladder[1]);
    PassesSide();
    assert B.PlaceId(b.entries, 0, [], 100, 2) == [[2]];
    assert b.ladder[1 := [[1]]] == b.ladder;
  }

  lemma SideIs()
    requires B.Wf(Asked())
    ensures B.SideOk(Asked().entries, 1, Asked().ladder[1])
  {
  }

  lemma RunFirst(c: R.Config, b: B.Book, op: R.Op, ops: seq<R.Op>)
    requires R.Fits(c, b) && R.OpOk(c, b, op) && R.RunOk(c, R.Run1(c, b, op).book, ops)
    ensures R.RunOk(c, b, [op] + ops)
    ensures R.Run(c, b, [op] + ops).log == R.Run1(c, b, op).log + R.Run(c, R.Run1(c, b, op).book, ops).log
  {
    assert ([op] + ops)[0] == op && ([op] + ops)[1..] == ops;
  }

  function Unlocked(): B.Book { B.Book(map[2 := B.Entry(0, Bid(2))], [[[2]], []]) }

  /** Both orders are cancelled, one after the other. */
  lemma Cancelled()
    requires B.Wf(Locked()) && B.Wf(Unlocked())
    ensures B.Linked(Locked(), 1) && B.Linked(Unlocked(), 2) && R.KeysOk(Locked()) && R.KeysOk(Unlocked())
    ensures R.CancelLive(Locked(), 1) == R.Live(Unlocked(), [B.RCancel(1)])
    ensures R.CancelLive(Unlocked(), 2).log == [B.RCancel(2)]
  {
    var b, u := Locked(), Unlocked();
    assert 1 in b.ladder[1][0] && B.OnSide(b.ladder[1], 1) && 2 in u.ladder[0][0] && B.OnSide(u.ladder[0], 2);
    assert B.Without([1], 1) == [] && B.RemoveId([[1]], 1) == [];
    assert b.ladder[1 := []] == u.ladder && b.entries - {1} == u.entries;
  }

  /** The engine runs so and logs so. */
  lemma RunIs()
    ensures R.RunOk(ONE, B.EmptyBook(1), OPS) && R.Run(ONE, B.EmptyBook(1), OPS).log == LOG
  {
    hide R.Submit, B.Wf, R.CancelLive, R.Rebuilds, B.EmptyBook, R.CancelSafe;
    AskRests();
    NoEntries();
    R.OpRebuilds(ONE, B.EmptyBook(1), 1, OPS[0]);
    BidPasses();
    R.OpRebuilds(ONE, Asked(), 1, OPS[1]);
    assert R.Run1(ONE, Asked(), OPS[1]) == R.Live(Locked(), [B.RInsert(0, Bid(2))]);
    CancelsRun();
    RunFirst(ONE, Asked(), OPS[1], [OPS[2], OPS[3]]);
    assert [OPS[1]] + [OPS[2], OPS[3]] == [OPS[1], OPS[2], OPS[3]];
    RunFirst(ONE, B.EmptyBook(1), OPS[0], [OPS[1], OPS[2], OPS[3]]);
    assert [OPS[0]] + [OPS[1], OPS[2], OPS[3]] == OPS;
  }

  lemma CancelsRun()
    requires R.Fits(ONE, Locked())
    ensures R.RunOk(ONE, Locked(), [OPS[2], OPS[3]])
    ensures R.Run(ONE, Locked(), [OPS[2], OPS[3]]).log == [B.RCancel(1), B.RCancel(2)]
  {
    hide B.Wf, R.CancelLive, R.Rebuilds;
    LinkedFirst();
    R.OpRebuilds(ONE, Locked(), 1, OPS[2]);
    UnlockedIs();
    Cancelled();
    R.OpRebuilds(ONE, Unlocked(), 1, OPS[3]);
    var last := R.Run1(ONE, Unlocked(), OPS[3]).book;
    assert R.RunOk(ONE, last, []);
    RunFirst(ONE, Unlocked(), OPS[3], []);
    assert [OPS[3]] + [] == [OPS[3]] && [OPS[2]] + [OPS[3]] == [OPS[2], OPS[3]];
    RunFirst(ONE, Locked(), OPS[2], [OPS[3]]);
  }

  lemma LinkedFirst()
    ensures B.Linked(Locked(), 1)
  {
    assert 1 in Locked().ladder[1][0];
  }

  lemma UnlockedIs()
    requires B.Wf(Locked())
    ensures B.Wf(Unlocked())
  {
    hide B.Wf;
    LinkedFirst();
    AskRemoved();
    B.RemoveWf(Locked(), 1);
  }

  lemma AskRemoved()
    requires B.Wf(Locked())
    ensures B.Remove(Locked(), 1) == Unlocked()
  {
    hide B.Wf;
    assert B.Without([1], 1) == [] && B.RemoveId([[1]], 1) == [];
    assert B.Remove(Locked(), 1).ladder == Unlocked().ladder && Locked().entries - {1} == Unlocked().entries;
  }

  // ------------------------------------------------------------ the worker

  const FIRST: Resting := Resting(0, false, 100, 10)

  const SECOND: Resting := Resting(0, true, 100, 10)

  lemma OneTotal(id: nat, o: Resting)
    requires o.product == 0 && o.price == 100
    ensures Total(AtPrice(map[id := o], 0, 100)) == o.remaining
  {
    var m := AtPrice(map[id := o], 0, 100);
    TotalSplit(m, id);
    assert m - {id} == map[];
  }

  lemma TwoTotal()
    ensures Total(AtPrice(map[1 := FIRST, 2 := SECOND], 0, 100)) == 20
  {
    var m := AtPrice(map[1 := FIRST, 2 := SECOND], 0, 100);
    TotalSplit(m, 1);
    assert m - {1} == AtPrice(map[2 := SECOND], 0, 100);
    OneTotal(2, SECOND);
  }

  lemma ShownQty(orders: map<nat, Resting>, s: L.Ladders)
    requires Shows(orders, s) && |s.slotOf| == 1
    ensures L.Qty(s, 0, 100) == Total(AtPrice(orders, 0, 100))
  {
    assert QtyRight(orders, s, 0, 100);
  }

  /** A worker hears of the two orders: their price is shown on the first one's side, for both. */
  method HearsBoth() returns (w: PublicWorker)
    ensures fresh(w) && fresh(w.ladders) && w.Right() && |w.ladders.slotOf| == 1
    ensures w.orders == map[1 := FIRST, 2 := SECOND] && L.Where(w.ladders.View(), 0, 100) == Some(1)
  {
    hide Shows, Mirrors, L.Ok, L.Qty, Broken;
    w := new PublicWorker(1, 64, None);
    w.ValidRight();
    ShownQty(w.orders, w.ladders.View());
    assert AtPrice(map[], 0, 100) == map[];
    var ok := w.Process(LOG[0]);
    assert ok && w.orders == map[1 := FIRST];
    ShownAt(w.orders, w.ladders.View(), 1);
    ShownQty(w.orders, w.ladders.View());
    OneTotal(1, FIRST);
    ok := w.Process(LOG[1]);
    assert ok && w.orders == map[1 := FIRST, 2 := SECOND];
  }

  /** A worker hears the records the run logs (`RunIs`) and ends with ladders that are none, though it shows nothing. */
  method HearsRun() returns (w: PublicWorker)
    ensures fresh(w) && fresh(w.ladders) && w.orders == map[]
    ensures |w.ladders.slotOf| == 1 && Shows(map[], w.ladders.View()) && Broken(w.ladders.View())
  {
    hide Shows, Mirrors, L.Ok, L.Qty, L.Where, Broken;
    w := HearsBoth();
    ShownQty(w.orders, w.ladders.View());
    TwoTotal();
    var ok := w.Process(LOG[2]);
    assert ok && w.orders == map[2 := SECOND];
    assert L.Where(w.ladders.View(), 0, 100) == Some(1);
    ShownQty(w.orders, w.ladders.View());
    OneTotal(2, SECOND);
    assert 100 in w.ladders.slotOf[0] by { ShownThere(w.ladders.View()); }
    ok := w.Process(LOG[3]);
  }

  lemma ShownThere(s: L.Ladders)
    requires |s.slotOf| == 1 && L.Where(s, 0, 100) == Some(1)
    ensures 100 in s.slotOf[0]
  {
  }
}
