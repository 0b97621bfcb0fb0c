/** The private worker hears the same book as the public one: whatever the log, they keep the same live orders. */
module PrivateFeed {
  import opened Common
  import opened Market
  import opened PrivateMarket
  import opened PrivateWorkers
  import P = PublicMarket
  import B = Book
  import F = BookFeed
  import R = Replay

  /** The two workers keep the same orders, as far as these have volume left. */
  ghost predicate SameLive(a: map<nat, Quote>, b: map<nat, Resting>) {
    forall id :: SameOne(a, b, id)
  }

  predicate SameOne(a: map<nat, Quote>, b: map<nat, Resting>, id: nat) {
    && (id in a && a[id].at.remaining > 0 <==> id in b && b[id].remaining > 0)
    && (id in a && id in b && b[id].remaining > 0 ==> a[id].at == b[id])
  }

  /** The products with subscribers are those the public worker listens to. */
  ghost predicate SameProducts(fan: seq<seq<Viewer>>, subs: Option<seq<bool>>) {
    forall g: nat :: P.Listens(subs, g) <==> g < |fan| && fan[g] != []
  }

  lemma OneRecord(a: map<nat, Quote>, b: map<nat, Resting>, fan: seq<seq<Viewer>>, subs: Option<seq<bool>>, r: B.Record)
    requires SameLive(a, b) && SameProducts(fan, subs)
    ensures SameLive(Noted(a, fan, r), P.Heard(b, subs, r))
  {
    forall id ensures SameOne(Noted(a, fan, r), P.Heard(b, subs, r), id) {
      assert SameOne(a, b, id);
      if r.RMatch? { assert SameOne(a, b, r.maker); }
    }
  }

  /** Over any log the private worker notes what the public worker hears. */
  lemma {:induction false} NotesWhatIsHeard(a: map<nat, Quote>, b: map<nat, Resting>, fan: seq<seq<Viewer>>,
                                            subs: Option<seq<bool>>, log: seq<B.Record>)
    requires SameLive(a, b) && SameProducts(fan, subs)
    ensures SameLive(NotedAll(a, fan, log), P.HeardAll(b, subs, log))
    decreases |log|
  {
    hide Noted, P.Heard;
    if log != [] {
      OneRecord(a, b, fan, subs, log[0]);
      NotesWhatIsHeard(Noted(a, fan, log[0]), P.Heard(b, subs, log[0]), fan, subs, log[1..]);
    }
  }

  /** Fed the log of any run that matches without a callback, the private worker keeps the book's active orders. */
  lemma PrivateShows(c: R.Config, fan: seq<seq<Viewer>>, subs: Option<seq<bool>>, ops: seq<R.Op>)
    requires R.RunOk(c, B.EmptyBook(c.products), ops) && forall i :: 0 <= i < |ops| ==> F.Plain(ops[i])
    requires SameProducts(fan, subs)
    ensures var l := R.Run(c, B.EmptyBook(c.products), ops);
            SameLive(NotedAll(map[], fan, l.log), F.Showing(l.book, subs))
  {
    hide SameLive, NotedAll, P.HeardAll, R.Run, R.RunOk, F.Showing, F.Quiet, F.Uncrossed, F.Good;
    var b := B.EmptyBook(c.products);
    var l := R.Run(c, b, ops);
    F.EmptyShows(c, subs);
    F.RunQuiet(c, b, 1, ops);
    R.RunRebuilds(c, b, 1, ops);
    F.LogShows(c, R.Start(c), R.Signed(l.log), subs);
    F.HeardSigned(map[], subs, l.log);
    NoneLive();
    NotesWhatIsHeard(map[], map[], fan, subs, l.log);
  }

  lemma NoneLive()
    ensures SameLive(map[], map[])
  {
  }
}
