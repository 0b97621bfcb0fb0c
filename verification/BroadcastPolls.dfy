/**
 What a poll in broadcast mode answers, exactly: in every reachable state the seq of each slot says
 which position it holds, so the first look at it decides between a record, LAPPED and nothing yet,
 and a record that is not being overwritten is read to its end and returned.
 */
module BroadcastPolls {
  import opened Common
  import opened Laps
  import opened Stream
  import opened Broadcast

  /** A published position that nothing later has begun to use shows its seq; an unused slot its index. */
  ghost predicate Exact(s: Board) {
    && s.slots != []
    && (forall p: nat :: p < |s.published| && Begun(s) <= p + |s.slots| ==> Shown(s, p))
    && (forall i: nat :: i < |s.slots| && Begun(s) <= i ==> s.slots[i].seq_ == i)
  }

  predicate Shown(s: Board, p: nat) { s.slots != [] && s.slots[At(s, p)].seq_ == p + 1 }

  lemma BeginExact(s: Board, rec: Rec)
    requires Exact(s) && Do(s, Begin(rec)).Some?
    ensures Exact(Do(s, Begin(rec)).value.0)
  {
    var t, pos, n := Do(s, Begin(rec)).value.0, |s.published|, |s.slots|;
    forall p: nat | p < |t.published| && Begun(t) <= p + n ensures Shown(t, p) {
      assert Shown(s, p);
      ModApart(p, pos, n);
    }
    forall i: nat | i < n && Begun(t) <= i ensures t.slots[i].seq_ == i {
      ModBelow(i, n);
      ModApart(pos, i, n);
    }
  }

  lemma WriteExact(s: Board)
    requires Exact(s) && Do(s, Write).Some?
    ensures Exact(Do(s, Write).value.0)
  {
    var t := Do(s, Write).value.0;
    forall p: nat | p < |t.published| && Begun(t) <= p + |t.slots| ensures Shown(t, p) { assert Shown(s, p); }
  }

  lemma PublishExact(s: Board)
    requires Exact(s) && Do(s, Publish).Some?
    ensures Exact(Do(s, Publish).value.0)
  {
    var t, pos, n := Do(s, Publish).value.0, |s.published|, |s.slots|;
    forall p: nat | p < |t.published| && Begun(t) <= p + n ensures Shown(t, p) {
      if p < pos {
        assert Shown(s, p);
        ModApart(p, pos, n);
      }
    }
    forall i: nat | i < n && Begun(t) <= i ensures t.slots[i].seq_ == i {
      ModBelow(i, n);
      ModApart(pos, i, n);
    }
  }

  lemma StepExact(s: Board, a: Action)
    requires Exact(s) && Do(s, a).Some?
    ensures Exact(Do(s, a).value.0)
  {
    match a
    case Begin(rec) => BeginExact(s, rec);
    case Write => WriteExact(s);
    case Publish => PublishExact(s);
    case _ => SameSlots(s, Do(s, a).value.0);
  }

  lemma SameSlots(s: Board, t: Board)
    requires Exact(s) && t.slots == s.slots && t.published == s.published && t.publisher == s.publisher
    ensures Exact(t)
  {
    forall p: nat | p < |t.published| && Begun(t) <= p + |t.slots| ensures Shown(t, p) { assert Shown(s, p); }
  }

  lemma {:induction false} RunExact(states: seq<Board>, actions: seq<Action>, n: nat)
    requires Run(states, actions) && n < |states|
    ensures Exact(states[n])
    decreases n
  {
    if n > 0 {
      RunExact(states, actions, n - 1);
      hide Exact, Do;
      assert Do(states[n - 1], actions[n - 1]).Some? && Do(states[n - 1], actions[n - 1]).value.0 == states[n - 1 + 1];
      StepExact(states[n - 1], actions[n - 1]);
    }
  }

  // ------------------------------------------------------------- the first look

  /** The position is published and overwriting it has not begun. */
  predicate Readable(s: Board, pos: nat) { pos < |s.published| && Begun(s) <= pos + |s.slots| }

  /** A later lap has been published in the position's slot, and the slot is not being written just now. */
  predicate Overrun(s: Board, pos: nat) {
    && s.slots != [] && pos + |s.slots| < |s.published|
    && !(s.publisher.Writing? && At(s, |s.published|) == At(s, pos))
  }

  /** The seq in a position's slot: of the position, of a later one, or of neither. */
  lemma SeqMeans(s: Board, pos: nat)
    requires Inv(s) && Exact(s)
    ensures var q := s.slots[At(s, pos)].seq_;
            (Readable(s, pos) <==> q == pos + 1) && (Overrun(s, pos) <==> q > pos + 1)
  {
    var n, i := |s.slots|, At(s, pos);
    assert SlotOk(s, i);
    if Readable(s, pos) {
      assert Shown(s, pos);
      if Overrun(s, pos) { assert false; }
    } else if pos < |s.published| {
      if s.publisher.Writing? && At(s, |s.published|) == i {
      } else {
        var last := LatestIn(s, pos);
        assert Shown(s, last);
      }
    } else {
      NotYet(s, pos);
    }
  }

  /** The last published position in the slot, its slot not being written. */
  lemma LatestIn(s: Board, pos: nat) returns (last: nat)
    requires Exact(s) && pos < |s.published| && !(s.publisher.Writing? && At(s, |s.published|) == At(s, pos))
    ensures pos <= last < |s.published| && At(s, last) == At(s, pos) && Begun(s) <= last + |s.slots|
    ensures last == pos || last >= pos + |s.slots|
    decreases |s.published| - pos
  {
    var n := |s.slots|;
    if pos + n < |s.published| {
      ModNext(pos, n);
      last := LatestIn(s, pos + n);
    } else {
      last := pos;
      if s.publisher.Writing? && |s.published| == pos + n { ModNext(pos, n); }
    }
  }

  lemma NotYet(s: Board, pos: nat)
    requires Inv(s) && Exact(s) && pos >= |s.published|
    ensures s.slots[At(s, pos)].seq_ <= pos && !Overrun(s, pos)
  {
    ModBelow(pos, |s.slots|);
    assert SlotOk(s, At(s, pos));
  }

  /**
   The first load of a poll: reading begins if and only if the position is published and not being
   overwritten; LAPPED if and only if a later lap has been published in its slot; otherwise nothing yet.
   */
  lemma SeeFinds(states: seq<Board>, actions: seq<Action>, n: nat, e: nat)
    requires Run(states, actions) && n < |states|
    requires e in states[n].endpoints && states[n].endpoints[e].stage.Away?
    ensures var s, ep := states[n], states[n].endpoints[e];
            Do(s, See(e)) == Some(if Readable(s, ep.tail) then (Move(s, e, ep.(stage := Reading([]))), Nothing)
                                  else if Overrun(s, ep.tail) then (s, Lapped) else (s, Nothing))
  {
    RunInv(states, actions, n);
    RunExact(states, actions, n);
    SeqMeans(states[n], states[n].endpoints[e].tail);
  }

  // ---------------------------------------------------------- the whole poll

  /** The record's cells as far as they have been read. */
  ghost predicate Underway(s: Board, e: nat, k: nat) {
    && e in s.endpoints && var ep := s.endpoints[e];
    && ep.tail < |s.published| && k <= Size(s.published[ep.tail]) && ep.stage.Reading? && |ep.stage.got| == k
    && Stream.Reads(ep.stage.got, s.published[ep.tail])
  }

  /** A read of a record that is not being overwritten takes its next cell. */
  lemma ReadGoes(s: Board, e: nat, k: nat)
    requires Inv(s) && Exact(s) && Underway(s, e, k) && Readable(s, s.endpoints[e].tail)
    requires k < Size(s.published[s.endpoints[e].tail])
    ensures var ep := s.endpoints[e];
            && |ep.stage.got| < |s.slots[At(s, ep.tail)].cells|
            && var t := Move(s, e,
               ep.(stage := Reading(ep.stage.got + [s.slots[At(s, ep.tail)].cells[|ep.stage.got|]])));
               Do(s, Read(e)) == Some((t, Nothing)) && Underway(t, e, k + 1)
  {
    var ep := s.endpoints[e];
    var i, r := At(s, ep.tail), s.published[ep.tail];
    assert Shown(s, ep.tail) && SlotOk(s, i) && EndpointOk(s, e);
    NotFresh(s, ep.tail);
    CompleteWhen(ep.stage.got, r);
    ReadNext(ep.stage.got, s.slots[i].cells, r);
  }

  lemma NotFresh(s: Board, pos: nat)
    requires Inv(s) && Shown(s, pos) && pos < |s.published|
    ensures Stream.Holds(s.slots[At(s, pos)].cells, s.published[pos])
  {
    assert SlotOk(s, At(s, pos));
    ModBelow(pos, |s.slots|);
  }

  /** Once all cells are read, the second load of the seq agrees and the record is returned. */
  lemma CheckGoes(s: Board, e: nat)
    requires Inv(s) && Exact(s) && e in s.endpoints && s.endpoints[e].tail < |s.published|
    requires Underway(s, e, Size(s.published[s.endpoints[e].tail])) && Readable(s, s.endpoints[e].tail)
    ensures var ep := s.endpoints[e];
            Do(s, Check(e)) == Some((Move(s, e, ep.(tail := ep.tail + 1, stage := Away,
                delivered := ep.delivered + [s.published[ep.tail]])), Record))
  {
    var ep := s.endpoints[e];
    assert Shown(s, ep.tail);
    CompleteWhen(ep.stage.got, s.published[ep.tail]);
    AssembleIs(ep.stage.got, s.published[ep.tail]);
  }

  /**
   A poll under way, in any reachable state: as long as overwriting has not begun, what has been read is
   the beginning of the record, the next read takes its next cell, and after the last cell the check
   returns the record.
   */
  lemma ReadsOn(states: seq<Board>, actions: seq<Action>, n: nat, e: nat)
    requires Run(states, actions) && n < |states| && e in states[n].endpoints
    requires states[n].endpoints[e].stage.Reading? && Readable(states[n], states[n].endpoints[e].tail)
    ensures var s, ep := states[n], states[n].endpoints[e];
            var r, got := s.published[ep.tail], ep.stage.got;
            && Stream.Reads(got, r)
            && if |got| < Size(r)
               then Do(s, Read(e)) == Some((Move(s, e, ep.(stage := Reading(got + [Cell(r, |got|)]))), Nothing))
               else Do(s, Check(e)) == Some((Move(s, e, ep.(tail := ep.tail + 1, stage := Away,
                        delivered := ep.delivered + [r])), Record))
  {
    RunInv(states, actions, n);
    RunExact(states, actions, n);
    var s, ep := states[n], states[n].endpoints[e];
    assert EndpointOk(s, e) && Shown(s, ep.tail);
    if |ep.stage.got| < Size(s.published[ep.tail]) {
      ReadGoes(s, e, |ep.stage.got|);
      NotFresh(s, ep.tail);
    } else {
      CheckGoes(s, e);
    }
  }

  /** A number of reads by one endpoint, nobody else moving. */
  function ReadMany(s: Board, e: nat, n: nat): Option<Board>
    requires s.slots != []
    decreases n
  {
    if n == 0 then Some(s)
    else
      var r := Do(s, Read(e));
      if r.Some? && r.value.1 == Nothing && r.value.0.slots != [] then ReadMany(r.value.0, e, n - 1) else None
  }

  /** A whole poll: the first load of the seq, the cells, the second load. */
  function Poll(s: Board, e: nat, cells: nat): Option<(Board, Result)>
    requires s.slots != []
  {
    var r := Do(s, See(e));
    if r.None? || r.value.0.slots == [] then None
    else
      var t := ReadMany(r.value.0, e, cells);
      if t.None? || t.value.slots == [] then None else Do(t.value, Check(e))
  }

  lemma {:induction false} ManyGo(s: Board, e: nat, k: nat)
    requires Inv(s) && Exact(s) && Underway(s, e, k) && Readable(s, s.endpoints[e].tail)
    ensures var ep := s.endpoints[e];
            var size := Size(s.published[ep.tail]);
            && k <= size && var t := ReadMany(s, e, size - k);
               && t.Some? && t.value.slots != [] && Inv(t.value) && Exact(t.value) && e in t.value.endpoints
               && t.value == Move(s, e, t.value.endpoints[e]) && Underway(t.value, e, size)
               && t.value.endpoints[e] == ep.(stage := t.value.endpoints[e].stage)
    decreases Size(s.published[s.endpoints[e].tail]) - k
  {
    hide Inv, Exact, Do;
    var ep := s.endpoints[e];
    var size := Size(s.published[ep.tail]);
    assert s.slots != [] by { Rings(s); }
    if k == size {
      assert s == Move(s, e, ep);
    } else {
      ReadGoes(s, e, k);
      StepInv(s, Read(e));
      StepExact(s, Read(e));
      var t := Do(s, Read(e)).value.0;
      ManyGo(t, e, k + 1);
      MoveTwice(s, e, t.endpoints[e], ReadMany(t, e, size - k - 1).value.endpoints[e]);
    }
  }

  lemma Rings(s: Board)
    requires Exact(s)
    ensures s.slots != []
  {
  }

  lemma SameRing(s: Board, t: Board, pos: nat)
    requires t.slots == s.slots && t.published == s.published && t.publisher == s.publisher
    ensures Readable(t, pos) <==> Readable(s, pos)
  {
  }

  lemma MoveTwice(s: Board, e: nat, a: Endpoint, b: Endpoint)
    ensures Move(Move(s, e, a), e, b) == Move(s, e, b)
  {
    assert s.endpoints[e := a][e := b] == s.endpoints[e := b];
  }

  /** In every reachable state a poll returns the record at its position if that is readable, and moves on. */
  lemma PollFinds(states: seq<Board>, actions: seq<Action>, n: nat, e: nat)
    requires Run(states, actions) && n < |states|
    requires e in states[n].endpoints && states[n].endpoints[e].stage.Away?
    requires Readable(states[n], states[n].endpoints[e].tail)
    ensures var s, ep := states[n], states[n].endpoints[e];
            var r := s.published[ep.tail];
            Poll(s, e, Size(r)) == Some((Move(s, e, ep.(tail := ep.tail + 1, delivered := ep.delivered + [r])), Record))
  {
    hide Inv, Exact, Do, Run, Begun;
    var s, ep := states[n], states[n].endpoints[e];
    RunInv(states, actions, n);
    RunExact(states, actions, n);
    Rings(s);
    SeeFinds(states, actions, n, e);
    StepInv(s, See(e));
    StepExact(s, See(e));
    var t := Move(s, e, ep.(stage := Reading([])));
    SameRing(s, t, ep.tail);
    ManyGo(t, e, 0);
    var u := ReadMany(t, e, Size(s.published[ep.tail])).value;
    SameRing(t, u, ep.tail);
    CheckGoes(u, e);
    var last := ep.(tail := ep.tail + 1, delivered := ep.delivered + [s.published[ep.tail]]);
    MoveTwice(s, e, ep.(stage := Reading([])), u.endpoints[e]);
    MoveTwice(s, e, u.endpoints[e], last);
  }
}
