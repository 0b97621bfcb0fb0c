/**
 The private market-data worker: per subscription it keeps how much of every resting order the
 subscriber could deal with, changing the running quantities record by record. They differ from a
 recomputation from the live orders by what the callback answered differently for the logged
 insertions and for their rebuilt forms, and by nothing else.
 */
module PrivateMarket {
  import opened Common
  import opened Market
  import opened Deltas
  import B = Book
  import L = LevelBooks

  /**
   What the dealable callback is told about an order. A record of the log is `logged`: it has its own
   volume, and a timestamp and user data besides, on which the answer may depend.
   */
  datatype Terms =
    Terms(id: nat, product: nat, price: nat, volume: nat, remain: nat, org: nat, flags: B.Flags, logged: bool)

  type Dealable = (Terms, nat) -> nat

  /** A live order; `volume` is what it had left when it was inserted. */
  datatype Quote = Quote(at: Resting, org: nat, flags: B.Flags, volume: nat)

  /** A subscriber of a product and the ladder kept for it. */
  datatype Viewer = Viewer(org: nat, ladder: Option<nat>)

  /** The record rebuilt from the order's state: what it had left stands for its volume as well. */
  function TermsOf(id: nat, q: Quote): Terms {
    Terms(id, q.at.product, q.at.price, q.volume, q.volume, q.org, q.flags, false)
  }

  function Rebuilt(t: Terms): Terms { t.(volume := t.remain, logged := false) }

  function Least(a: nat, b: nat): nat { if a < b then a else b }

  /** What an insertion records for a viewer beyond what is seen of it ever after. */
  function Excess(f: Dealable, t: Terms,
                  org: nat): int { Least(t.remain, f(t, org)) - Least(t.remain, f(Rebuilt(t), org)) }

  predicate Concerns(t: Terms, product: nat, bid: bool, p: nat) {
    t.product == product && t.flags.bid == bid && t.price == p
  }

  /** The sum of these differences over the insertions heard. */
  function Drift(f: Dealable, heard: seq<Terms>, org: nat, product: nat, bid: bool, p: nat): int
    decreases |heard|
  {
    if heard == [] then 0
    else
      var n := |heard| - 1;
      Drift(f, heard[..n], org, product, bid, p) + if Concerns(heard[n], product, bid, p) then Excess(f, heard[n], org)
        else 0
  }

  lemma DriftNext(f: Dealable, heard: seq<Terms>, t: Terms, org: nat, product: nat, bid: bool, p: nat)
    ensures Drift(f, heard + [t], org, product, bid, p)
            == Drift(f, heard, org, product, bid, p) + if Concerns(t, product, bid, p) then Excess(f, t, org) else 0
  {
    assert (heard + [t])[..|heard|] == heard;
  }

  /**
   The callback answers for the record as it does for its rebuilt form, as far as the order's volume lets it
   matter.
   */
  predicate Alike(f: Dealable, t: Terms, org: nat) { Excess(f, t, org) == 0 }

  lemma {:induction false} NoDrift(f: Dealable, heard: seq<Terms>, org: nat, product: nat, bid: bool, p: nat)
    requires forall i :: 0 <= i < |heard| ==> Alike(f, heard[i], org)
    ensures Drift(f, heard, org, product, bid, p) == 0
    decreases |heard|
  {
    if heard != [] { NoDrift(f, heard[..|heard| - 1], org, product, bid, p); }
  }

  /** The first insertion answered differently shows at once, at its price. */
  lemma FirstDrift(f: Dealable, heard: seq<Terms>, t: Terms, org: nat)
    requires forall i :: 0 <= i < |heard| ==> Alike(f, heard[i], org)
    ensures Drift(f, heard + [t], org, t.product, t.flags.bid, t.price) == 0 <==> Alike(f, t, org)
  {
    DriftNext(f, heard, t, org, t.product, t.flags.bid, t.price);
    NoDrift(f, heard, org, t.product, t.flags.bid, t.price);
  }

  /** The part of an order a viewer sees: what it may deal with less what has already been matched. */
  function SeenOf(volume: nat, dq: nat, remaining: nat): nat {
    if dq == 0 then 0
    else
      var cap, matched := if volume < dq then volume else dq, volume - remaining;
      if cap > matched then cap - matched else 0
  }

  function Seen(f: Dealable, id: nat, q: Quote,
                org: nat): nat { SeenOf(q.volume, f(TermsOf(id, q), org), q.at.remaining) }

  lemma SeenIs(volume: nat, dq: nat, remaining: nat)
    requires remaining <= volume
    ensures SeenOf(volume, dq, remaining) <= remaining && SeenOf(volume, dq, remaining) <= dq &&
        SeenOf(volume, dq, 0) == 0
    ensures SeenOf(volume, dq, remaining) > 0 <==> volume - remaining < dq && remaining > 0
    ensures forall less: nat :: less <= remaining ==> SeenOf(volume, dq, less) <= SeenOf(volume, dq, remaining)
  {
  }

  /**
   At first a viewer sees the smaller of the volume and what it may deal with. A trade takes away what it
   trades, as long as the viewer sees that much.
   */
  lemma SeenMoves(volume: nat, dq: nat, remaining: nat, t: nat)
    requires t <= remaining <= volume
    ensures SeenOf(volume, dq, volume) == Least(volume, dq)
    ensures SeenOf(volume, dq, remaining) - SeenOf(volume, dq, remaining - t) == Least(t, SeenOf(volume, dq, remaining))
  {
  }

  // --------------------------------------------------- recomputed from orders

  /** What a viewer sees of each live order of one side at one price. */
  function Parts(f: Dealable, orders: map<nat, Quote>, org: nat, product: nat, bid: bool, p: nat): map<nat, nat> {
    map id | id in orders && orders[id].at.product == product && orders[id].at.bid == bid && orders[id].at.price == p ::
        Seen(f, id, orders[id], org)
  }

  lemma PartsChanged(f: Dealable, a: map<nat, Quote>, b: map<nat, Quote>, id: nat, org: nat, product: nat, bid: bool,
                     p: nat)
    requires a - {id} == b - {id}
    ensures Total(Parts(f, b, org, product, bid, p)) + At(Parts(f, a, org, product, bid, p), id)
            == Total(Parts(f, a, org, product, bid, p)) + At(Parts(f, b, org, product, bid, p), id)
  {
    var m, n := Parts(f, a, org, product, bid, p), Parts(f, b, org, product, bid, p);
    forall x ensures x in m - {id} <==> x in n - {id} {
      assert x in a - {id} <==> x in b - {id};
    }
    forall x | x in m - {id} ensures m[x] == n[x] {
      assert (a - {id})[x] == (b - {id})[x];
    }
    assert m - {id} == n - {id};
    TotalChanged(m, n, id);
  }

  // ------------------------------------------------------------- the fan-out

  /** Where the changes of one side of a ladder are kept. */
  function Slot(ladder: nat, bid: bool): nat { 2 * ladder + if bid then 0 else 1 }

  /** Subscriptions are distinct: no two viewers share a ladder. */
  ghost predicate FanOk(fan: seq<seq<Viewer>>, sides: nat) {
    && (forall g, j :: 0 <= g < |fan| && 0 <= j < |fan[g]| && fan[g][j].ladder.Some? ==>
       Slot(fan[g][j].ladder.value, false) < sides)
    && (forall g, j, h, i :: 0 <= g < |fan| && 0 <= j < |fan[g]| && 0 <= h < |fan| && 0 <= i < |fan[h]| ==>
          fan[g][j].ladder.Some? && fan[g][j].ladder == fan[h][i].ladder ==> g == h && j == i)
  }

  /** The three ways a record changes an order; an insertion comes with its own terms. */
  datatype Kind = Appears(own: Terms) | Leaves | Trades(q: nat)

  /** The change of one viewer's quantity, as each record computes it. */
  function ChangeOf(f: Dealable, kind: Kind, id: nat, q: Quote, org: nat): int {
    match kind
    case Appears(own) => Least(q.volume, f(own, org))
    case Leaves => 0 - Seen(f, id, q, org)
    case Trades(v) =>
      var dq := f(TermsOf(id, q), org);
      if v > q.at.remaining then 0 else SeenOf(q.volume, dq, q.at.remaining - v) - SeenOf(q.volume, dq, q.at.remaining)
  }

  /** The order before and after, None where it is not known. */
  function Before(kind: Kind, q: Quote): Option<Quote> { if kind.Appears? then None else Some(q) }

  function Afterwards(kind: Kind, q: Quote): Option<Quote> {
    match kind
    case Appears(_) => Some(q)
    case Leaves => None
    case Trades(v) => if v >= q.at.remaining then None else Some(q.(at := q.at.(remaining := q.at.remaining - v)))
  }

  function SeenIf(f: Dealable, id: nat, q: Option<Quote>, org: nat): nat { if q.Some? then Seen(f, id, q.value, org)
                  else 0 }

  predicate KindOk(kind: Kind, id: nat, q: Quote) {
    && q.at.remaining <= q.volume
    && (kind.Appears? ==>
          q.at.remaining == q.volume && Rebuilt(kind.own) == TermsOf(id, q) && q.at.bid == q.flags.bid)
    && (kind.Trades? ==> kind.q <= q.at.remaining)
  }

  /** The insertions heard, this one included. */
  function Hearing(heard: seq<Terms>, kind: Kind): seq<Terms> { if kind.Appears? then heard + [kind.own] else heard }

  function ExcessOf(f: Dealable, kind: Kind, org: nat): int { if kind.Appears? then Excess(f, kind.own, org) else 0 }

  /** Each of the three computations is the difference of what is seen after and before, and an insertion's excess. */
  lemma ChangeIs(f: Dealable, kind: Kind, id: nat, q: Quote, org: nat)
    requires KindOk(kind, id, q)
    ensures ChangeOf(f, kind, id, q, org) ==
        SeenIf(f, id, Afterwards(kind, q), org) - SeenIf(f, id, Before(kind, q), org) + ExcessOf(f, kind, org)
  {
    SeenIs(q.volume, f(TermsOf(id, q), org), q.at.remaining);
  }

  /** How far a viewer's quantity moves. */
  function MoveOf(f: Dealable, kind: Kind, id: nat, q: Quote, org: nat): int {
    match kind
    case Appears(own) => Least(own.remain, f(own, org))
    case Leaves => 0 - Seen(f, id, q, org)
    case Trades(t) => 0 - Least(t, Seen(f, id, q, org))
  }

  /**
   The change computed: an order that appears adds what the viewer may deal with of it, one that leaves
   takes away what was seen of it, and a trade what it trades as far as that was seen.
   */
  lemma ChangeMoves(f: Dealable, kind: Kind, id: nat, q: Quote, org: nat)
    requires KindOk(kind, id, q)
    ensures ChangeOf(f, kind, id, q, org) == MoveOf(f, kind, id, q, org)
  {
    if kind.Trades? { SeenMoves(q.volume, f(TermsOf(id, q), org), q.at.remaining, kind.q); }
  }

  /** One viewer's side after the fan-out. */
  ghost predicate Reached(was: seq<Side>, now: seq<Side>, v: Viewer, bid: bool, p: nat, d: int) {
    v.ladder.Some? ==>
      var i := Slot(v.ladder.value, bid);
      i < |was| && i < |now| && now[i] == Put(was[i], p, d).0 && Put(was[i], p, d).1
  }

  ghost predicate Aside(viewers: seq<Viewer>, n: nat, bid: bool, i: nat) {
    n <= |viewers| && forall j :: 0 <= j < n && viewers[j].ladder.Some? ==> Slot(viewers[j].ladder.value, bid) != i
  }

  ghost predicate Spread(f: Dealable, was: seq<Side>, now: seq<Side>, viewers: seq<Viewer>, n: nat, kind: Kind, id: nat,
                         q: Quote) {
    && n <= |viewers| && |now| == |was|
    && (forall j :: 0 <= j < n ==>
       Reached(was, now, viewers[j], q.at.bid, q.at.price, ChangeOf(f, kind, id, q, viewers[j].org)))
    && (forall i :: 0 <= i < |was| && Aside(viewers, n, q.at.bid, i) ==> now[i] == was[i])
  }

  /** A viewer's quantity or window cannot take its change. */
  predicate Refused(f: Dealable, was: seq<Side>, v: Viewer, kind: Kind, id: nat, q: Quote) {
    v.ladder.Some? && var i := Slot(v.ladder.value, q.at.bid);
    i < |was| && !Put(was[i], q.at.price, ChangeOf(f, kind, id, q, v.org)).1
  }

  /** Calls every viewer's callback and records its change; stops at the first refusal. */
  method FanOut(f: Dealable, was: seq<Side>, viewers: seq<Viewer>, kind: Kind, id: nat, q: Quote)
                returns (sides: seq<Side>, ok: bool)
    requires FanOk([viewers], |was|)
    ensures |sides| == |was| && (ok ==> Spread(f, was, sides, viewers, |viewers|, kind, id, q))
    ensures ok <==> forall j :: 0 <= j < |viewers| ==> !Refused(f, was, viewers[j], kind, id, q)
  {
    sides := was;
    var j := 0;
    while j < |viewers|
      invariant 0 <= j <= |viewers| && Spread(f, was, sides, viewers, j, kind, id, q)
    {
      if viewers[j].ladder.Some? {
        ghost var before := sides;
        var i := Slot(viewers[j].ladder.value, q.at.bid);
        var d := ChangeOf(f, kind, id, q, viewers[j].org);
        assert [viewers][0][j] == viewers[j];
        AsideYet(viewers, j, q.at.bid, |was|);
        assert sides[i] == was[i];
        var r := Put(sides[i], q.at.price, d);
        sides := sides[i := r.0];
        if !r.1 {
          assert Refused(f, was, viewers[j], kind, id, q);
          return sides, false;
        }
        SpreadNext(f, was, before, sides, viewers, j, kind, id, q);
      } else {
        SpreadNext(f, was, sides, sides, viewers, j, kind, id, q);
      }
      j := j + 1;
    }
    forall k | 0 <= k < |viewers| ensures !Refused(f, was, viewers[k], kind, id, q) {
      assert Reached(was, sides, viewers[k], q.at.bid, q.at.price, ChangeOf(f, kind, id, q, viewers[k].org));
    }
    return sides, true;
  }

  lemma AsideYet(viewers: seq<Viewer>, j: nat, bid: bool, sides: nat)
    requires FanOk([viewers], sides) && j < |viewers| && viewers[j].ladder.Some?
    ensures Slot(viewers[j].ladder.value, bid) < sides && Aside(viewers, j, bid, Slot(viewers[j].ladder.value, bid))
  {
    assert [viewers][0][j] == viewers[j];
    forall k | 0 <= k < j && viewers[k].ladder.Some?
        ensures Slot(viewers[k].ladder.value, bid) != Slot(viewers[j].ladder.value, bid) {
      assert [viewers][0][k] == viewers[k];
    }
  }

  lemma SpreadNext(f: Dealable, was: seq<Side>, before: seq<Side>, now: seq<Side>, viewers: seq<Viewer>, j: nat,
                   kind: Kind, id: nat, q: Quote)
    requires FanOk([viewers], |was|) && j < |viewers| && Spread(f, was, before, viewers, j, kind, id, q)
    requires var v := viewers[j];
             if v.ladder.None? then now == before
             else
               var i := Slot(v.ladder.value, q.at.bid);
               i < |was| && now == before[i := Put(was[i], q.at.price, ChangeOf(f, kind, id, q, v.org)).0]
                  && Put(was[Slot(v.ladder.value, q.at.bid)], q.at.price, ChangeOf(f, kind, id, q, v.org)).1
    ensures Spread(f, was, now, viewers, j + 1, kind, id, q)
  {
    hide Put, ChangeOf;
    forall k | 0 <= k < j + 1
        ensures Reached(was, now, viewers[k], q.at.bid, q.at.price, ChangeOf(f, kind, id, q, viewers[k].org)) {
      if k < j {
        assert Reached(was, before, viewers[k], q.at.bid, q.at.price, ChangeOf(f, kind, id, q, viewers[k].org));
        assert [viewers][0][k] == viewers[k] && [viewers][0][j] == viewers[j];
      }
    }
    forall i | 0 <= i < |was| && Aside(viewers, j + 1, q.at.bid, i) ensures now[i] == was[i] {
      assert Aside(viewers, j, q.at.bid, i);
    }
  }

  // ------------------------------------------------------------ the invariant

  function SideQty(sides: seq<Side>, v: Viewer, bid: bool, p: nat): nat {
    if v.ladder.Some? && Slot(v.ladder.value, bid) < |sides| then NowQty(sides[Slot(v.ladder.value, bid)], p) else 0
  }

  /** A running quantity is what the viewer sees of the live orders at that price, and the drift. */
  ghost predicate ViewRight(f: Dealable, orders: map<nat, Quote>, heard: seq<Terms>, sides: seq<Side>, v: Viewer,
                            product: nat, bid: bool, p: nat) {
    v.ladder.Some? ==>
      SideQty(sides, v, bid, p)
      == Total(Parts(f, orders, v.org, product, bid, p)) + Drift(f, heard, v.org, product, bid, p)
  }

  ghost predicate Views(f: Dealable, orders: map<nat, Quote>, heard: seq<Terms>, sides: seq<Side>,
                        fan: seq<seq<Viewer>>) {
    forall g, j, bid, p: nat :: 0 <= g < |fan| && 0 <= j < |fan[g]| ==>
        ViewRight(f, orders, heard, sides, fan[g][j], g, bid, p)
  }

  ghost predicate Listed(s: Side, base: map<nat, nat>) { exists dirty: seq<nat> :: Tracks(s, dirty, base) }

  ghost predicate AllListed(sides: seq<Side>, bases: seq<map<nat, nat>>) {
    |bases| == |sides| && forall i :: 0 <= i < |sides| ==> Listed(sides[i], bases[i])
  }

  lemma PutListed(s: Side, base: map<nat, nat>, p: nat, d: int)
    requires Listed(s, base) && Put(s, p, d).1
    ensures Listed(Put(s, p, d).0, base) && forall r: nat :: NowQty(Put(s, p, d).0, r) == NowQty(s, r) + if r == p
        then d else 0
  {
    var dirty: seq<nat> :| Tracks(s, dirty, base);
    PutTracks(s, dirty, base, p, d);
  }

  /** The orders before and after a record differ in the one it names. */
  ghost predicate Turned(a: map<nat, Quote>, b: map<nat, Quote>, kind: Kind, id: nat, q: Quote) {
    && a - {id} == b - {id} && KindOk(kind, id, q)
    && (Before(kind, q) == if id in a then Some(a[id]) else None)
    && (Afterwards(kind, q) == if id in b then Some(b[id]) else None)
  }

  lemma PartIs(f: Dealable, orders: map<nat, Quote>, id: nat, q: Option<Quote>, org: nat, product: nat, bid: bool,
               p: nat)
    requires q == if id in orders then Some(orders[id]) else None
    ensures At(Parts(f, orders, org, product, bid, p), id)
            == if q.Some? && q.value.at.product == product && q.value.at.bid == bid &&
                q.value.at.price == p then SeenIf(f, id, q, org) else 0
  {
  }

  /** What each viewer sees in all changes by what the fan-out records, but for the drift. */
  lemma TurnTotals(f: Dealable, a: map<nat, Quote>, b: map<nat, Quote>, heard: seq<Terms>, kind: Kind, id: nat,
                   q: Quote, org: nat, product: nat, bid: bool, p: nat)
    requires Turned(a, b, kind, id, q)
    ensures Total(Parts(f, b, org, product, bid, p)) + Drift(f, Hearing(heard, kind), org, product, bid, p)
            == Total(Parts(f, a, org, product, bid, p)) + Drift(f, heard, org, product, bid, p) +
               (if product == q.at.product && bid == q.at.bid && p == q.at.price then ChangeOf(f, kind, id, q, org)
                else 0)
  {
    hide Parts, Total, ChangeOf, SeenIf, Drift, Excess;
    PartsChanged(f, a, b, id, org, product, bid, p);
    PartIs(f, a, id, Before(kind, q), org, product, bid, p);
    PartIs(f, b, id, Afterwards(kind, q), org, product, bid, p);
    ChangeIs(f, kind, id, q, org);
    SeenNothing(f, id, org);
    if kind.Appears? { DriftNext(f, heard, kind.own, org, product, bid, p); }
  }

  lemma SeenNothing(f: Dealable, id: nat, org: nat)
    ensures SeenIf(f, id, None, org) == 0
  {
  }

  /** A viewer's quantity is asked to go below zero exactly where the drift is too negative for what would be seen. */
  lemma UnderflowsWhen(f: Dealable, a: map<nat, Quote>, b: map<nat, Quote>, heard: seq<Terms>, sides: seq<Side>,
                       fan: seq<seq<Viewer>>, j: nat, kind: Kind, id: nat, q: Quote)
    requires Turned(a, b, kind, id, q) && Views(f, a, heard, sides, fan) && q.at.product < |fan|
    requires j < |fan[q.at.product]| && fan[q.at.product][j].ladder.Some?
    ensures var v := fan[q.at.product][j];
            SideQty(sides, v, q.at.bid, q.at.price) + ChangeOf(f, kind, id, q, v.org)
            == Total(Parts(f, b, v.org, q.at.product, q.at.bid, q.at.price)) +
               Drift(f, Hearing(heard, kind), v.org, q.at.product, q.at.bid, q.at.price)
  {
    hide Parts, Total, ChangeOf, Drift;
    var v := fan[q.at.product][j];
    assert ViewRight(f, a, heard, sides, v, q.at.product, q.at.bid, q.at.price);
    TurnTotals(f, a, b, heard, kind, id, q, v.org, q.at.product, q.at.bid, q.at.price);
  }

  /** With a callback that answers alike no viewer's quantity is ever asked to go below zero. */
  lemma NeverUnderflows(f: Dealable, a: map<nat, Quote>, b: map<nat, Quote>, heard: seq<Terms>, sides: seq<Side>,
                        fan: seq<seq<Viewer>>, j: nat, kind: Kind, id: nat, q: Quote)
    requires Turned(a, b, kind, id, q) && Views(f, a, heard, sides, fan) && q.at.product < |fan|
    requires j < |fan[q.at.product]| && fan[q.at.product][j].ladder.Some?
    requires forall i :: 0 <= i < |heard| ==> Alike(f, heard[i], fan[q.at.product][j].org)
    ensures var v := fan[q.at.product][j];
        SideQty(sides, v, q.at.bid, q.at.price) + ChangeOf(f, kind, id, q, v.org) >= 0
  {
    hide Parts, Total, Drift;
    var v := fan[q.at.product][j];
    UnderflowsWhen(f, a, b, heard, sides, fan, j, kind, id, q);
    NoDrift(f, heard, v.org, q.at.product, q.at.bid, q.at.price);
  }

  lemma OtherSlot(fan: seq<seq<Viewer>>, sides: nat, g: nat, j: nat, bid: bool, h: nat, bid': bool)
    requires FanOk(fan, sides) && g < |fan| && j < |fan[g]| && fan[g][j].ladder.Some? && h < |fan| &&
        (g != h || bid != bid')
    ensures Slot(fan[g][j].ladder.value, bid) < sides &&
        Aside(fan[h], |fan[h]|, bid', Slot(fan[g][j].ladder.value, bid))
  {
  }

  lemma FanKeepsView(f: Dealable, a: map<nat, Quote>, b: map<nat, Quote>, was: seq<Side>, now: seq<Side>,
                     heard: seq<Terms>, bases: seq<map<nat, nat>>, fan: seq<seq<Viewer>>,
                     kind: Kind, id: nat, q: Quote, g: nat, j: nat, bid: bool, p: nat)
    requires FanOk(fan, |was|) && AllListed(was, bases) && Views(f, a, heard, was, fan) && Turned(a, b, kind, id, q) &&
        q.at.product < |fan|
    requires Spread(f, was, now, fan[q.at.product], |fan[q.at.product]|, kind, id, q) && g < |fan| && j < |fan[g]|
    ensures ViewRight(f, b, Hearing(heard, kind), now, fan[g][j], g, bid, p)
  {
    hide Parts, Total, ChangeOf, Put, NowQty, Drift;
    var v := fan[g][j];
    if v.ladder.Some? {
      assert ViewRight(f, a, heard, was, v, g, bid, p);
      TurnTotals(f, a, b, heard, kind, id, q, v.org, g, bid, p);
      var i, d := Slot(v.ladder.value, bid), ChangeOf(f, kind, id, q, v.org);
      assert i < |was|;
      if g == q.at.product && bid == q.at.bid {
        assert Reached(was, now, v, bid, q.at.price, d);
        PutListed(was[i], bases[i], q.at.price, d);
      } else {
        OtherSlot(fan, |was|, g, j, bid, q.at.product, q.at.bid);
      }
    }
  }

  /** A viewer's quantity at a price has moved by the order's change, if the order is there, and otherwise not. */
  ghost predicate MovedAt(f: Dealable, was: seq<Side>, now: seq<Side>, v: Viewer, g: nat, bid: bool, p: nat, kind: Kind,
                          id: nat, q: Quote) {
    v.ladder.Some? ==>
      SideQty(now, v, bid, p) == SideQty(was, v, bid, p) +
        (if g == q.at.product && bid == q.at.bid && p == q.at.price then MoveOf(f, kind, id, q, v.org) else 0)
  }

  ghost predicate Moved(f: Dealable, was: seq<Side>, now: seq<Side>, fan: seq<seq<Viewer>>, kind: Kind, id: nat,
                        q: Quote) {
    forall g, j, bid, p: nat :: 0 <= g < |fan| && 0 <= j < |fan[g]| ==>
        MovedAt(f, was, now, fan[g][j], g, bid, p, kind, id, q)
  }

  lemma FanMovesAt(f: Dealable, was: seq<Side>, now: seq<Side>, bases: seq<map<nat, nat>>, fan: seq<seq<Viewer>>,
                   kind: Kind, id: nat, q: Quote, g: nat, j: nat, bid: bool, p: nat)
    requires FanOk(fan, |was|) && AllListed(was, bases) && KindOk(kind, id, q) && q.at.product < |fan|
    requires Spread(f, was, now, fan[q.at.product], |fan[q.at.product]|, kind, id, q) && g < |fan| && j < |fan[g]|
    ensures MovedAt(f, was, now, fan[g][j], g, bid, p, kind, id, q)
  {
    hide ChangeOf, MoveOf, Put, NowQty;
    var v := fan[g][j];
    if v.ladder.Some? {
      var i, d := Slot(v.ladder.value, bid), ChangeOf(f, kind, id, q, v.org);
      assert i < |was|;
      if g == q.at.product && bid == q.at.bid {
        ChangeMoves(f, kind, id, q, v.org);
        assert Reached(was, now, v, bid, q.at.price, d);
        PutListed(was[i], bases[i], q.at.price, d);
      } else {
        OtherSlot(fan, |was|, g, j, bid, q.at.product, q.at.bid);
      }
    }
  }

  lemma FanMoves(f: Dealable, was: seq<Side>, now: seq<Side>, bases: seq<map<nat, nat>>, fan: seq<seq<Viewer>>,
                 kind: Kind, id: nat, q: Quote)
    requires FanOk(fan, |was|) && AllListed(was, bases) && KindOk(kind, id, q) && q.at.product < |fan|
    requires Spread(f, was, now, fan[q.at.product], |fan[q.at.product]|, kind, id, q)
    ensures Moved(f, was, now, fan, kind, id, q)
  {
    hide FanOk, AllListed, Spread, KindOk, MovedAt;
    forall g, j, bid, p: nat | 0 <= g < |fan| && 0 <= j < |fan[g]|
        ensures MovedAt(f, was, now, fan[g][j], g, bid, p, kind, id, q) {
      FanMovesAt(f, was, now, bases, fan, kind, id, q, g, j, bid, p);
    }
  }

  lemma FanKeepsLists(f: Dealable, was: seq<Side>, now: seq<Side>, bases: seq<map<nat, nat>>, viewers: seq<Viewer>,
                      kind: Kind, id: nat, q: Quote)
    requires AllListed(was, bases) && Spread(f, was, now, viewers, |viewers|, kind, id, q)
    ensures AllListed(now, bases)
  {
    hide Put, ChangeOf, Listed;
    forall i | 0 <= i < |now| ensures Listed(now[i], bases[i]) {
      if !Aside(viewers, |viewers|, q.at.bid, i) {
        var j :| 0 <= j < |viewers| && viewers[j].ladder.Some? && Slot(viewers[j].ladder.value, q.at.bid) == i;
        assert Reached(was, now, viewers[j], q.at.bid, q.at.price, ChangeOf(f, kind, id, q, viewers[j].org));
        PutListed(was[i], bases[i], q.at.price, ChangeOf(f, kind, id, q, viewers[j].org));
      }
    }
  }

  /** A fan-out carries every running quantity from the orders before to the orders after. */
  lemma FanKeeps(f: Dealable, a: map<nat, Quote>, b: map<nat, Quote>, was: seq<Side>, now: seq<Side>,
                 heard: seq<Terms>, bases: seq<map<nat, nat>>, fan: seq<seq<Viewer>>,
                 kind: Kind, id: nat, q: Quote)
    requires FanOk(fan, |was|) && AllListed(was, bases) && Views(f, a, heard, was, fan) && Turned(a, b, kind, id, q) &&
        q.at.product < |fan|
    requires Spread(f, was, now, fan[q.at.product], |fan[q.at.product]|, kind, id, q)
    ensures Views(f, b, Hearing(heard, kind), now, fan) && AllListed(now, bases)
  {
    hide FanOk, AllListed, Spread, Turned, ViewRight;
    forall g, j, bid, p: nat | 0 <= g < |fan| && 0 <= j < |fan[g]|
        ensures ViewRight(f, b, Hearing(heard, kind), now, fan[g][j], g, bid, p) {
      FanKeepsView(f, a, b, was, now, heard, bases, fan, kind, id, q, g, j, bid, p);
    }
    FanKeepsLists(f, was, now, bases, fan[q.at.product], kind, id, q);
  }
}
