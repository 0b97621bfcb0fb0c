/**
 The stream in broadcast mode. The publisher never waits: it takes a slot's seq to 0, rewrites the
 cells and stores the new seq; an endpoint reads between two loads of the seq and trusts what it
 read only if they agree. One action per cell or seq access, interleaved arbitrarily.
 */
module Broadcast {
  import opened Common
  import opened Laps
  import opened Stream

  datatype Publisher = Quiet | Writing(rec: Rec, n: nat)

  datatype Stage = Away | Reading(got: seq<nat>)

  /** `delivered` is what polls have returned since the endpoint was opened at `start`. */
  datatype Endpoint = Endpoint(start: nat, tail: nat, stage: Stage, delivered: seq<Rec>)

  datatype Board = Board(width: nat, slots: seq<Slot>, publisher: Publisher, published: seq<Rec>, endpoints: map<nat,
      Endpoint>)

  datatype Action =
    | Begin(rec: Rec)
    | Write
    | Publish
    | Open(e: nat, start: nat)
    | See(e: nat)
    | Read(e: nat)
    | Check(e: nat)

  datatype Result = Nothing | Record | Lapped | TooLarge

  function At(s: Board, pos: nat): nat
    requires s.slots != []
  {
    pos % |s.slots|
  }

  function Put(s: Board, i: nat, slot: Slot): Board
    requires i < |s.slots|
  {
    s.(slots := s.slots[i := slot])
  }

  function Move(s: Board, e: nat, ep: Endpoint): Board { s.(endpoints := s.endpoints[e := ep]) }

  /** The state after an action and what a poll that ends with it returns; None if it is not enabled. */
  function Do(s: Board, a: Action): Option<(Board, Result)>
    requires s.slots != []
  {
    var pos := |s.published|;
    var i := At(s, pos);
    match a
    case Begin(rec) =>
      if s.publisher.Quiet? && |rec.body| <= s.width
      then Some((Put(s, i, s.slots[i].(seq_ := 0)).(publisher := Writing(rec, 0)), Nothing)) else None
    case Write =>
      if s.publisher.Writing? && s.publisher.n < Size(s.publisher.rec) &&
          Size(s.publisher.rec) <= |s.slots[i].cells| then
        var rec, n := s.publisher.rec, s.publisher.n;
        Some((Put(s, i, s.slots[i].(cells :=
            s.slots[i].cells[Target(rec, n) := Cell(rec, Target(rec, n))])).(publisher := Writing(rec, n + 1)),
            Nothing))
      else None
    case Publish =>
      if s.publisher.Writing? && s.publisher.n == Size(s.publisher.rec)
      then Some((Put(s, i, s.slots[i].(seq_ := pos + 1)).(publisher := Quiet, published := s.published +
          [s.publisher.rec]), Nothing)) else None
    case Open(e, start) =>
      if start <= pos then Some((Move(s, e, Endpoint(start, start, Away, [])), Nothing)) else None
    case See(e) =>
      if e !in s.endpoints || !s.endpoints[e].stage.Away? then None
      else
        var ep := s.endpoints[e];
        var q := s.slots[At(s, ep.tail)].seq_;
        if q == 0 || q < ep.tail + 1 then Some((s, Nothing))
        else if q > ep.tail + 1 then Some((s, Lapped))
        else Some((Move(s, e, ep.(stage := Reading([]))), Nothing))
    case Read(e) =>
      if e !in s.endpoints || !s.endpoints[e].stage.Reading? || Complete(s.endpoints[e].stage.got) then None
      else
        var ep := s.endpoints[e];
        var got, cells := ep.stage.got, s.slots[At(s, ep.tail)].cells;
        if |got| >= 3 && got[2] > s.width then Some((Move(s, e, ep.(stage := Away)), TooLarge))
        else if |got| < |cells| then Some((Move(s, e, ep.(stage := Reading(got + [cells[|got|]]))), Nothing))
        else None
    case Check(e) =>
      if e !in s.endpoints || !s.endpoints[e].stage.Reading? || !Complete(s.endpoints[e].stage.got) then None
      else
        var ep := s.endpoints[e];
        if s.slots[At(s, ep.tail)].seq_ != ep.tail + 1 then Some((Move(s, e, ep.(stage := Away)), Lapped))
        else Some((Move(s, e, ep.(tail := ep.tail + 1, stage := Away, delivered := ep.delivered +
            [Assemble(ep.stage.got)])), Record))
  }

  predicate Initial(s: Board) {
    && s.slots != [] && (forall i :: 0 <= i < |s.slots| ==>
       s.slots[i].seq_ == i && |s.slots[i].cells| == s.width + 3 && s.slots[i].cells[2] <= s.width)
    && s.publisher == Quiet && s.published == [] && s.endpoints == map[]
  }

  ghost predicate Run(states: seq<Board>, actions: seq<Action>) {
    && |states| == |actions| + 1 && Initial(states[0])
    && (forall i :: 0 <= i < |states| ==> states[i].slots != [])
    && (forall i :: 0 <= i < |actions| ==>
       Do(states[i], actions[i]).Some? && Do(states[i], actions[i]).value.0 == states[i + 1])
  }

  // ------------------------------------------------------------ invariant

  /** A slot as the stream was created with it: no position has begun to use it. */
  predicate Fresh(s: Board, i: nat) { i < |s.slots| && s.slots[i].seq_ == i && Begun(s) <= i }

  predicate SlotOk(s: Board, i: nat) {
    i < |s.slots| && var slot := s.slots[i];
    && |slot.cells| == s.width + 3 && slot.cells[2] <= s.width
    && (slot.seq_ != 0 && !Fresh(s, i) ==>
          && slot.seq_ <= |s.published| && At(s, slot.seq_ - 1) == i && Holds(slot.cells, s.published[slot.seq_ - 1])
          && Begun(s) < slot.seq_ + |s.slots|)   // and nothing later has begun in this slot
  }

  predicate PublisherOk(s: Board) {
    s.slots != [] && (s.publisher.Writing? ==>
      var slot := s.slots[At(s, |s.published|)];
      slot.seq_ == 0 && |s.publisher.rec.body| <= s.width && Written(slot.cells, s.publisher.rec, s.publisher.n))
  }

  /** How many positions the publisher has begun to write. */
  function Begun(s: Board): nat { |s.published| + if s.publisher.Writing? then 1 else 0 }

  predicate ReadingOk(s: Board, tail: nat, got: seq<nat>) {
    && s.slots != [] && tail < |s.published| && (|got| >= 3 ==> got[2] <= s.width)
    && ((s.slots[At(s, tail)].seq_ == tail + 1 && Reads(got, s.published[tail])) || Begun(s) > tail + |s.slots|)
  }

  predicate EndpointOk(s: Board, e: nat) {
    e in s.endpoints && var ep := s.endpoints[e];
    && ep.start <= ep.tail <= |s.published| && ep.delivered == s.published[ep.start..ep.tail]
    && (ep.stage.Reading? ==> ReadingOk(s, ep.tail, ep.stage.got))
  }

  ghost predicate Inv(s: Board) {
    && PublisherOk(s)
    && (forall i :: 0 <= i < |s.slots| ==> SlotOk(s, i))
    && (forall e :: e in s.endpoints ==> EndpointOk(s, e))
  }

  /** A seq past the one waited for belongs to a later lap. */
  lemma LaterLap(s: Board, tail: nat)
    requires Inv(s) && s.slots[At(s, tail)].seq_ > tail + 1
    ensures Begun(s) > tail + |s.slots|
  {
    var q := s.slots[At(s, tail)].seq_;
    assert SlotOk(s, At(s, tail));
    ModBelow(tail, |s.slots|);
    LapAhead(tail, q - 1, |s.slots|);
  }

  lemma BeginInv(s: Board, rec: Rec)
    requires Inv(s) && s.publisher.Quiet? && |rec.body| <= s.width
    ensures Inv(Do(s, Begin(rec)).value.0)
  {
    var t := Do(s, Begin(rec)).value.0;
    var pos := |s.published|;
    forall i | 0 <= i < |t.slots| ensures SlotOk(t, i) {
      assert SlotOk(s, i);
      ModBelow(pos, |s.slots|);
      if s.slots[i].seq_ != 0 { ModNext(s.slots[i].seq_ - 1, |s.slots|); }
    }
    assert SlotOk(s, At(s, pos));
    forall e | e in t.endpoints ensures EndpointOk(t, e) {
      assert EndpointOk(s, e);
      var ep := s.endpoints[e];
      if ep.stage.Reading? && At(s, ep.tail) == At(s, pos) { LapAhead(ep.tail, pos, |s.slots|); }
    }
  }

  lemma WriteInv(s: Board)
    requires Inv(s) && Do(s, Write).Some?
    ensures Inv(Do(s, Write).value.0)
  {
    var t := Do(s, Write).value.0;
    var i0 := At(s, |s.published|);
    WriteNext(s.slots[i0].cells, s.publisher.rec, s.publisher.n);
    forall i | 0 <= i < |t.slots| ensures SlotOk(t, i) { assert SlotOk(s, i); }
    forall e | e in t.endpoints ensures EndpointOk(t, e) {
      assert EndpointOk(s, e);
      var ep := s.endpoints[e];
      if ep.stage.Reading? && At(s, ep.tail) == i0 { LapAhead(ep.tail, |s.published|, |s.slots|); }
    }
  }

  lemma PublishInv(s: Board)
    requires Inv(s) && Do(s, Publish).Some?
    ensures Inv(Do(s, Publish).value.0)
  {
    var t := Do(s, Publish).value.0;
    var pos := |s.published|;
    var i0 := At(s, pos);
    WrittenHolds(s.slots[i0].cells, s.publisher.rec);
    forall i | 0 <= i < |t.slots| ensures SlotOk(t, i) { assert SlotOk(s, i); }
    forall e | e in t.endpoints ensures EndpointOk(t, e) {
      assert EndpointOk(s, e);
      var ep := s.endpoints[e];
      assert t.published[ep.start..ep.tail] == s.published[ep.start..ep.tail];
      if ep.stage.Reading? && At(s, ep.tail) == i0 { LapAhead(ep.tail, pos, |s.slots|); }
    }
  }

  lemma MoveInv(s: Board, e: nat, ep: Endpoint)
    requires Inv(s) && EndpointOk(Move(s, e, ep), e)
    ensures Inv(Move(s, e, ep))
  {
    var t := Move(s, e, ep);
    forall i | 0 <= i < |t.slots| ensures SlotOk(t, i) { assert SlotOk(s, i); }
    forall f | f in t.endpoints ensures EndpointOk(t, f) { if f != e { assert EndpointOk(s, f); } }
  }

  lemma SeeInv(s: Board, e: nat)
    requires Inv(s) && Do(s, See(e)).Some?
    ensures Inv(Do(s, See(e)).value.0)
    ensures Do(s, See(e)).value.1.Lapped? ==> Begun(s) > s.endpoints[e].tail + |s.slots|
  {
    var ep := s.endpoints[e];
    assert EndpointOk(s, e) && SlotOk(s, At(s, ep.tail));
    ModBelow(ep.tail, |s.slots|);
    if s.slots[At(s, ep.tail)].seq_ == ep.tail + 1 { MoveInv(s, e, ep.(stage := Reading([]))); }
    else if s.slots[At(s, ep.tail)].seq_ > ep.tail + 1 { LaterLap(s, ep.tail); }
  }

  lemma ReadInv(s: Board, e: nat)
    requires Inv(s) && Do(s, Read(e)).Some?
    ensures Inv(Do(s, Read(e)).value.0) && !Do(s, Read(e)).value.1.TooLarge?
  {
    var ep := s.endpoints[e];
    var i := At(s, ep.tail);
    var got := ep.stage.got;
    assert EndpointOk(s, e) && SlotOk(s, i);
    var after := got + [s.slots[i].cells[|got|]];
    if s.slots[i].seq_ == ep.tail + 1 && Reads(got, s.published[ep.tail]) {
      ReadNext(got, s.slots[i].cells, s.published[ep.tail]);
    }
    assert |after| >= 3 ==> after[2] <= s.width;
    MoveInv(s, e, ep.(stage := Reading(after)));
  }

  lemma CheckInv(s: Board, e: nat)
    requires Inv(s) && Do(s, Check(e)).Some?
    ensures Inv(Do(s, Check(e)).value.0)
    ensures var ep, r := s.endpoints[e], Do(s, Check(e)).value.1;
            && (r.Record? ==> ep.tail < |s.published| && Assemble(ep.stage.got) == s.published[ep.tail])
            && (r.Lapped? ==> Begun(s) > ep.tail + |s.slots|)
  {
    var ep := s.endpoints[e];
    var i := At(s, ep.tail);
    assert EndpointOk(s, e) && SlotOk(s, i);
    ModBelow(ep.tail, |s.slots|);
    if s.slots[i].seq_ != ep.tail + 1 {
      MoveInv(s, e, ep.(stage := Away));
    } else {
      AssembleIs(ep.stage.got, s.published[ep.tail]);
      assert s.published[ep.start..ep.tail + 1] == s.published[ep.start..ep.tail] + [s.published[ep.tail]];
      MoveInv(s, e, ep.(tail := ep.tail + 1, stage := Away, delivered := ep.delivered + [Assemble(ep.stage.got)]));
    }
  }

  lemma StepInv(s: Board, a: Action)
    requires Inv(s) && Do(s, a).Some?
    ensures Inv(Do(s, a).value.0)
  {
    match a
    case Begin(rec) => BeginInv(s, rec);
    case Write => WriteInv(s);
    case Publish => PublishInv(s);
    case Open(e, start) =>
      assert s.published[start..start] == [];
      MoveInv(s, e, Endpoint(start, start, Away, []));
    case See(e) => SeeInv(s, e);
    case Read(e) => ReadInv(s, e);
    case Check(e) => CheckInv(s, e);
  }

  lemma {:induction false} RunInv(states: seq<Board>, actions: seq<Action>, n: nat)
    requires Run(states, actions) && n < |states|
    ensures Inv(states[n])
    decreases n
  {
    if n == 0 {
      forall i | 0 <= i < |states[0].slots| ensures SlotOk(states[0], i) { }
    } else {
      RunInv(states, actions, n - 1);
      hide Inv, Do;
      assert Do(states[n - 1], actions[n - 1]).Some? && Do(states[n - 1], actions[n - 1]).value.0 == states[n - 1 + 1];
      StepInv(states[n - 1], actions[n - 1]);
    }
  }

  // ------------------------------------------------------------- theorems

  /**
   Every endpoint has been given exactly the records published at the positions it has passed: none torn,
   lost or repeated.
   */
  lemma NeverTorn(states: seq<Board>, actions: seq<Action>, n: nat, e: nat)
    requires Run(states, actions) && n < |states| && e in states[n].endpoints
    ensures var s, ep := states[n], states[n].endpoints[e];
            ep.start <= ep.tail <= |s.published| && ep.delivered == s.published[ep.start..ep.tail]
  {
    RunInv(states, actions, n);
    assert EndpointOk(states[n], e);
  }

  function EndpointOf(a: Action): nat { match a case See(e) => e case Read(e) => e case Check(e) => e case Open(e,
                      _) => e case _ => 0 }

  /**
   LAPPED is returned only once overwriting of the position asked for has begun, and no read length is ever
   out of bounds.
   */
  lemma LappedMeans(states: seq<Board>, actions: seq<Action>, n: nat)
    requires Run(states, actions) && n < |actions|
    ensures var s, a := states[n], actions[n];
            && (Do(s, a).value.1.Lapped? ==>
               EndpointOf(a) in s.endpoints && Begun(s) > s.endpoints[EndpointOf(a)].tail + |s.slots|)
            && !Do(s, a).value.1.TooLarge?
  {
    var s, a := states[n], actions[n];
    RunInv(states, actions, n);
    assert Do(s, a).Some?;
    if a.See? { SeeInv(s, a.e); } else if a.Check? { CheckInv(s, a.e); } else if a.Read? { ReadInv(s, a.e); }
  }
}
