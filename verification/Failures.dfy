/**
 Books and runs, reached from an empty book, on which an operation does not keep what it should: a
 cancel that breaks the queue of other orders, and a trade that recovery refuses.
 */
module Failures {
  import opened Common
  import opened Links
  import opened BookState
  import opened OrderBooks
  import opened Engine
  import opened Recovery
  import A = Allocation
  import B = Book
  import M = Matching
  import Q = OrgQueue
  import R = Replay

  const BID := B.Flags(true, 0, B.STATUS_NEW, 0)

  /** A bid for ten at a hundred. */
  function Bid(id: nat): B.Order { B.Order(id, 100, 10, 10, 0, BID) }

  method AddBid(book: OrderBook, id: nat)
    requires Tight(book) && book.OrgSound() && !book.logging && book.products == 1 <= book.orgs
    requires id != 0 && id !in book.Book().entries && |book.Book().entries| < book.slab.ord.Length
    modifies book`hash, book`log, book`ladder, book`members, book.slab, book.slab.ord, book.slab.q0, book.slab.q1,
        book.slab.q2, book.slab.q3, book.slab.aux
    modifies book.heads, book.roots, book.known, book.orgHeads
    ensures Tight(book) && book.OrgSound() && |book.ladder| == 2 && |old(book.ladder)| == 2 &&
        book.Book() == B.Insert(old(book.Book()), 0, Bid(id))
  {
    hide Ok, Entries, B.Wf, book.slab.Valid, book.OrgSound, B.Insert;
    var ok := ReplayInsert(book, 0, Bid(id));
  }

  /** Two bids at one price. */
  function Pair(): B.Book { B.Book(map[1 := B.Entry(0, Bid(1)), 2 := B.Entry(0, Bid(2))], [[[1, 2]], []]) }

  /** Another order at the only price joins its level. */
  lemma JoinsLevel(e: map<nat, B.Entry>, ids: seq<nat>, id: nat)
    requires ids != [] && ids[0] in e && e[ids[0]].order.price == 100
    ensures B.PlaceId(e, 0, [ids], 100, id) == [ids + [id]]
  {
  }

  lemma FirstBid()
    ensures B.Insert(B.EmptyBook(1), 0, Bid(1)) == B.Book(map[1 := B.Entry(0, Bid(1))], [[[1]], []])
  {
    assert B.EmptyBook(1).ladder == [[], []] && B.PlaceId(map[], 0, [], 100, 1) == [[1]];
  }

  lemma SecondBid()
    ensures B.Insert(B.Book(map[1 := B.Entry(0, Bid(1))], [[[1]], []]), 0, Bid(2)) == Pair()
  {
    JoinsLevel(map[1 := B.Entry(0, Bid(1))], [1], 2);
    assert [1] + [2] == [1, 2];
  }

  lemma PairBelongs()
    ensures Q.Belongs(Pair().entries, 1, 0, 1) && Q.Belongs(Pair().entries, 1, 0, 2)
  {
  }

  lemma TwoBids()
    ensures var b := B.Insert(B.EmptyBook(1), 0, Bid(1));
            && |b.ladder| == 2 && |b.entries| == 1 && 2 !in b.entries && |B.EmptyBook(1).entries| == 0 &&
               B.Insert(b, 0, Bid(2)) == Pair()
    ensures |Pair().entries| == 2 && Q.Belongs(Pair().entries, 1, 0, 1) && Q.Belongs(Pair().entries, 1, 0, 2)
  {
    hide B.Insert, B.EmptyBook, Q.OrgIndex;
    FirstBid();
    SecondBid();
    Sizes(B.Entry(0, Bid(1)), B.Entry(0, Bid(2)));
    NoEntries();
    PairBelongs();
  }

  lemma NoEntries()
    ensures B.EmptyBook(1).entries == map[]
  {
  }

  lemma Sizes(x: B.Entry, y: B.Entry)
    ensures |map[1 := x]| == 1 && |map[1 := x, 2 := y]| == 2
  {
    assert map[1 := x].Keys == {1} && map[1 := x, 2 := y].Keys == {1, 2};
  }

  /** A deactivated bid with two others at its price. */
  function Idle(): B.Book
  {
    B.Book(Pair().entries[3 := B.Entry(0, Bid(3).(flags := B.SetStatus(BID, B.STATUS_DEACTIVATED)))], [[[1, 2]], []])
  }

  lemma ThirdBid()
    ensures |Pair().ladder| == 2 && 3 !in Pair().entries && var b := B.Insert(Pair(), 0, Bid(3));
            && 3 in b.entries && B.KeyOf(b.entries[3]) < |b.ladder| && Q.Active(b.entries, 3) &&
                    B.Deactivate(b, 3) == Idle()
    ensures !Harmless(Idle(), 3)
  {
    var b := B.Insert(Pair(), 0, Bid(3));
    hide B.Wf;
    JoinsLevel(Pair().entries, [1, 2], 3);
    assert [1, 2] + [3] == [1, 2, 3] && Pair().ladder[0] == [[1, 2]];
    assert b.ladder == [[[1, 2, 3]], []] && b.ladder[0] == [[1, 2, 3]];
    assert B.Without([1, 2, 3], 3) == [1, 2] by { assert [1, 2, 3][1..] == [2, 3] && [2, 3][1..] == [3]; }
    assert B.RemoveId([[1, 2, 3]], 3) == [[1, 2]] && B.Deactivate(b, 3).ladder == [[[1, 2]], []];
    assert !B.OnSide(Idle().ladder[0], 3);
    assert B.LevelExists(Idle().entries, 0, Idle().ladder[0], 100);
  }

  method Deactivated() returns (book: OrderBook)
    ensures fresh(book) && fresh(book.slab) && fresh(book.slab.ord) && fresh(book.slab.q0) && fresh(book.slab.q1) &&
        fresh(book.slab.q2)
    ensures fresh(book.slab.q3) && fresh(book.slab.aux) && fresh(book.heads) && fresh(book.roots) &&
        fresh(book.known) && fresh(book.orgHeads)
    ensures book.Valid() && book.Book() == Idle()
  {
    hide Ok, Entries, B.Wf, book.Valid, book.OrgSound, B.Insert, B.EmptyBook, Q.Belongs, Pair, Idle, B.Deactivate;
    TwoBids();
    ThirdBid();
    book := new OrderBook(1, 1, 3, false);
    AddBid(book, 1);
    AddBid(book, 2);
    AddBid(book, 3);
    var ok := DeactivateOrder(book, 3);
  }

  /**
   Three bids at one price, the last of them deactivated and then cancelled: the links of the other
   two no longer form a queue in any book.
   */
  method BrokenQueue() returns (book: OrderBook)
    ensures fresh(book) && forall s: State :: s.q2 == book.slab.q2[..] ==> !Ok(s)
  {
    hide Ok, Entries, B.Wf, book.Valid, book.OrgSound, Idle, Harmless;
    ThirdBid();
    book := Deactivated();
    var ok := CancelOrder(book, 3);
  }

  // ------------------------------------------------------ a taker without an id

  const ONE: R.Config := R.Config(1, 1, 2)

  /** An ask for ten at a hundred. */
  const ASK: B.Order := Bid(1).(flags := BID.(bid := false))

  /** The ask is submitted and rests, then a bid without an id takes it. */
  const TRADE: seq<R.Op> := [R.Match(0, ASK, A.PLAIN, true), R.Match(0, Bid(0), A.PLAIN, true)]

  function Asked(): B.Book { B.Book(map[1 := B.Entry(0, ASK)], [[], [[1]]]) }

  lemma AskRests()
    ensures R.Fits(ONE, B.EmptyBook(1)) && R.Submit(ONE, B.EmptyBook(1), 0, ASK, A.PLAIN, true)
                                           == R.Live(Asked(), [B.RInsert(0, ASK)])
  {
    var b := B.EmptyBook(1);
    assert b.ladder == [[], []] && B.PlaceId(map[], 1, [], 100, 1) == [[1]];
    assert R.MakerKey(0, ASK) == 0 && b.ladder[0 := []] == b.ladder;
  }

  lemma BidTakes()
    requires B.Wf(Asked())
    ensures R.Submit(ONE, Asked(), 0, Bid(0), A.PLAIN, true).log == [B.RMatch(1, 0, 100, 10, 0)]
  {
    var b, taker := Asked(), Bid(0);
    assert R.MakerKey(0, taker) == 1 && b.ladder[1] == [[1]];
    R.SideOkPresent(b.entries, 1, b.ladder[1]);
    var l := M.MatchLevel(A.PLAIN, b.entries, [1], 0, 100, taker, 0);
    assert l.log == [B.RMatch(1, 0, 100, 10, 0)] && l.remain == 0;
  }

  lemma TradeRun()
    ensures R.RunOk(ONE, B.EmptyBook(1), TRADE)
    ensures R.Run(ONE, B.EmptyBook(1), TRADE).log == [B.RInsert(0, ASK), B.RMatch(1, 0, 100, 10, 0)]
  {
    hide R.Submit, R.Replay, B.Wf, R.Rebuilds;
    AskRests();
    R.OpRebuilds(ONE, B.EmptyBook(1), 1, TRADE[0]);
    BidTakes();
    R.OpRebuilds(ONE, Asked(), 1, TRADE[1]);
    var last := R.Run1(ONE, Asked(), TRADE[1]);
    assert TRADE[1..] == [TRADE[1]] && [TRADE[1]][1..] == [];
    assert R.RunOk(ONE, last.book, []) && R.Run(ONE, last.book, []) == R.Live(last.book, []);
    assert R.Run(ONE, Asked(), [TRADE[1]]).log == last.log + [];
  }

  /** A run of the engine whose log recovery refuses: the bid's trade names no taker. */
  lemma NamelessTaker()
    ensures R.RunOk(ONE, B.EmptyBook(1), TRADE)
    ensures var log := R.Run(ONE, B.EmptyBook(1), TRADE).log;
            && log == [B.RInsert(0, ASK), B.RMatch(1, 0, 100, 10, 0)] && R.Replay(ONE, R.Start(ONE), log) == R.Failed
  {
    hide R.RunOk, R.Run, R.Replay, B.EmptyBook;
    TradeRun();
    assert R.Run(ONE, B.EmptyBook(1), TRADE).log[1] == B.RMatch(1, 0, 100, 10, 0);
    R.RecoveryTheorem(ONE, TRADE);
  }
}
