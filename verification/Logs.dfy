/** Which records the engine's operations write. */
module Logs {
  import opened Common
  import B = Book
  import M = Matching
  import R = Replay

  /** No insert record carries an order marked as deactivated. */
  predicate Insertable(log: seq<B.Record>) {
    forall i :: 0 <= i < |log| && log[i].RInsert? ==> !B.Parked(log[i].order.flags)
  }

  predicate NoInserts(log: seq<B.Record>) { forall i :: 0 <= i < |log| ==> !log[i].RInsert? }

  lemma {:induction false} LevelLogs(p: M.Policy, e: map<nat, B.Entry>, ids: seq<nat>, product: nat, price: nat,
                                     taker: B.Order, calls: nat)
    requires M.Present(e, ids) && Distinct(ids)
    ensures NoInserts(M.MatchLevel(p, e, ids, product, price, taker, calls).log)
    decreases |ids|, taker.remain
  {
    if ids != [] && taker.remain > 0 {
      var m, tail, maker := ids[0], ids[1..], e[ids[0]].order;
      var asked := if M.Consults(p, maker, taker) then calls + 1 else calls;
      match M.Decide(p, calls, maker, taker)
      case Skip => LevelLogs(p, e, tail, product, price, taker, asked);
      case Drop => LevelLogs(p, e - {m}, tail, product, price, taker, asked);
      case CancelMaker => LevelLogs(p, e - {m}, tail, product, price, taker, asked);
      case CancelBoth =>
      case Trade(q) =>
        var left := taker.(remain := taker.remain - q);
        if q == maker.remain { LevelLogs(p, e - {m}, tail, product, price, left, asked); }
        else if left.remain > 0 { LevelLogs(p, B.SetRemain(e, m, maker.remain - q), ids, product, price, left, asked); }
    }
  }

  lemma {:induction false} SideLogs(p: M.Policy, e: map<nat, B.Entry>, levels: seq<seq<nat>>, product: nat,
                                    taker: B.Order, calls: nat)
    requires M.SidePresent(e, levels)
    ensures NoInserts(M.MatchSide(p, e, levels, product, taker, calls).log)
    decreases |levels|
  {
    if levels != [] && taker.remain > 0 && M.Crosses(taker, B.LevelPrice(e, levels[0])) {
      var r := M.MatchLevel(p, e, levels[0], product, B.LevelPrice(e, levels[0]), taker, calls);
      LevelLogs(p, e, levels[0], product, B.LevelPrice(e, levels[0]), taker, calls);
      M.LevelConsumes(p, e, levels[0], product, B.LevelPrice(e, levels[0]), taker, calls);
      M.SidePresentTail(e, levels, r.e);
      SideLogs(p, r.e, levels[1..], product, taker.(remain := r.remain), r.calls);
    }
  }

  lemma SubmitLogs(c: R.Config, b: B.Book, product: nat, taker: B.Order, p: M.Policy, book: bool)
    requires B.Wf(b) && product < c.products && |b.ladder| == 2 * c.products && !B.Parked(taker.flags)
    ensures Insertable(R.Submit(c, b, product, taker, p, book).log)
  {
    hide B.Wf, M.MatchSide;
    if taker.remain > 0 {
      var k := R.MakerKey(product, taker);
      SideIsOk(b, k);
      R.SideOkPresent(b.entries, k, b.ladder[k]);
      SideLogs(p, b.entries, b.ladder[k], product, taker, 0);
    }
  }

  lemma SideIsOk(b: B.Book, k: nat)
    requires B.Wf(b) && k < |b.ladder|
    ensures B.SideOk(b.entries, k, b.ladder[k])
  {
  }

  lemma {:induction false} ManyLogs(b: B.Book, ids: seq<nat>)
    requires B.Wf(b) && forall i :: 0 <= i < |ids| ==> ids[i] in b.entries ==> B.Linked(b, ids[i])
    ensures NoInserts(R.CancelAll(b, ids).log)
    decreases |ids|
  {
    if ids != [] {
      R.LinkedAfterCancel(b, ids[0]);
      ManyLogs(R.CancelLive(b, ids[0]).book, ids[1..]);
    }
  }

  lemma OpLogs(c: R.Config, b: B.Book, op: R.Op)
    requires R.Fits(c, b) && R.OpOk(c, b, op)
    ensures Insertable(R.Run1(c, b, op).log)
  {
    match op
    case Match(product, taker, p, book) => SubmitLogs(c, b, product, taker, p, book);
    case Cancel(_) =>
    case CancelMany(ids) => ManyLogs(b, ids);
    case DeactivateOp(_) =>
    case ActivateOp(id, p, book) =>
      if id in b.entries && B.Parked(b.entries[id].order.flags) {
        R.ParkedGone(b, id);
        var en := b.entries[id];
        SubmitLogs(c, b.(entries := b.entries - {id}), en.product,
            en.order.(flags := B.SetStatus(en.order.flags, B.STATUS_NEW)), p, book);
      }
  }

  lemma {:induction false} RunLogs(c: R.Config, b: B.Book, ops: seq<R.Op>)
    requires R.RunOk(c, b, ops)
    ensures Insertable(R.Run(c, b, ops).log)
    decreases |ops|
  {
    hide B.Wf, R.Run1;
    if ops != [] {
      OpLogs(c, b, ops[0]);
      RunLogs(c, R.Run1(c, b, ops[0]).book, ops[1..]);
    }
  }
}
