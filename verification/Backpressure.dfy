/**
 The stream without broadcast: the publisher waits while the ring is full, judging by a cached
 minimum of the endpoints' tails that publisher and endpoints recompute without synchronising.
 Endpoints are opened before the first publish and only poll; staleness is switched off.
 */
module Backpressure {
  import opened Common
  import opened Laps
  import opened Stream

  /** A walk over the tails: those before `next` have been loaded, `least` is their minimum. */
  datatype Scan = Scan(next: nat, least: Option<nat>)

  datatype Publisher = Quiet | Wanting(rec: Rec) | Scanning(rec: Rec, scan: Scan) | Writing(rec: Rec, n: nat)

  datatype Stage = Away | Reading(got: seq<nat>) | Advanced(old_: nat) | Scanning(scan: Scan)

  datatype Endpoint = Endpoint(open: bool, tail: nat, stage: Stage, delivered: seq<Rec>)

  /** `limit` is the position up to which the publisher has allowed itself to write. */
  datatype Flow = Flow(width: nat, slots: seq<Slot>, publisher: Publisher, published: seq<Rec>, limit: nat,
      minTail: nat, endpoints: seq<Endpoint>)

  datatype Action =
    | Want(rec: Rec)           // a publish begins
    | Continue(rec: Rec)       // a batch goes on within the room found before
    | LoadMin(rescan: bool)    // room: start writing; none: maybe recompute the minimum
    | ScanTail
    | ScanEnd
    | Write
    | Publish
    | See(e: nat)
    | Read(e: nat)
    | Take(e: nat)             // deliver and advance the tail
    | SeeMin(e: nat)
    | EndpointTail(e: nat)
    | EndpointEnd(e: nat)

  function At(s: Flow, pos: nat): nat
    requires s.slots != []
  {
    pos % |s.slots|
  }

  function Put(s: Flow, i: nat, slot: Slot): Flow
    requires i < |s.slots|
  {
    s.(slots := s.slots[i := slot])
  }

  function Set(s: Flow, e: nat, ep: Endpoint): Flow
    requires e < |s.endpoints|
  {
    s.(endpoints := s.endpoints[e := ep])
  }

  /** One endpoint's tail is loaded; one that was never opened is passed over. */
  function Look(s: Flow, scan: Scan): Scan
    requires scan.next < |s.endpoints|
  {
    var ep := s.endpoints[scan.next];
    if !ep.open then Scan(scan.next + 1, scan.least)
    else Scan(scan.next + 1, Some(if scan.least.Some? &&
        scan.least.value <= ep.tail then scan.least.value else ep.tail))
  }

  function Minimum(scan: Scan, fallback: nat): nat { if scan.least.Some? then scan.least.value else fallback }

  function Publishing(s: Flow, a: Action): Option<Flow>
    requires s.slots != []
  {
    var pos := |s.published|;
    var i := At(s, pos);
    match (a, s.publisher)
    case (Want(rec), Quiet) => if |rec.body| <= s.width then Some(s.(publisher := Wanting(rec))) else None
    case (Continue(rec), Quiet) => if |rec.body| <= s.width && pos < s.limit then Some(s.(publisher := Writing(rec, 0)))
        else None
    case (LoadMin(rescan), Wanting(rec)) =>
      if pos < s.minTail + |s.slots| then Some(s.(publisher := Writing(rec, 0), limit := s.minTail + |s.slots|))
      else if rescan then Some(s.(publisher := Publisher.Scanning(rec, Scan(0, None))))
      else Some(s)
    case (ScanTail, Scanning(rec, scan)) =>
      if scan.next < |s.endpoints| then Some(s.(publisher := Publisher.Scanning(rec, Look(s, scan)))) else None
    case (ScanEnd, Scanning(rec, scan)) =>
      if scan.next >= |s.endpoints| then Some(s.(publisher := Wanting(rec), minTail := Minimum(scan, pos))) else None
    case (Write, Writing(rec, n)) =>
      if n < Size(rec) && Size(rec) <= |s.slots[i].cells|
      then Some(Put(s, i, s.slots[i].(cells :=
          s.slots[i].cells[Target(rec, n) := Cell(rec, Target(rec, n))])).(publisher := Writing(rec, n + 1)))
      else None
    case (Publish, Writing(rec, n)) =>
      if n == Size(rec) then Some(Put(s, i, s.slots[i].(seq_ := pos + 1)).(publisher := Quiet, published :=
          s.published + [rec])) else None
    case _ => None
  }

  function Polling(s: Flow, a: Action, e: nat): Option<Flow>
    requires s.slots != [] && e < |s.endpoints|
  {
    var ep := s.endpoints[e];
    var slot := s.slots[At(s, ep.tail)];
    match (a, ep.stage)
    case (See(_), Away) => if slot.seq_ == ep.tail + 1 then Some(Set(s, e, ep.(stage := Reading([])))) else Some(s)
    case (Read(_), Reading(got)) =>
      if !Complete(got) && |got| < |slot.cells| then Some(Set(s, e, ep.(stage := Reading(got + [slot.cells[|got|]]))))
          else None
    case (Take(_), Reading(got)) =>
      if Complete(got) then Some(Set(s, e, ep.(stage := Advanced(ep.tail), tail := ep.tail + 1, delivered :=
          ep.delivered + [Assemble(got)]))) else None
    case (SeeMin(_), Advanced(old_)) =>
      Some(Set(s, e, ep.(stage := if old_ == s.minTail ||
          ep.tail < s.minTail then Stage.Scanning(Scan(0, None)) else Away)))
    case (EndpointTail(_), Scanning(scan)) =>
      if scan.next < |s.endpoints| then Some(Set(s, e, ep.(stage := Stage.Scanning(Look(s, scan))))) else None
    case (EndpointEnd(_), Scanning(scan)) =>
      if scan.next >= |s.endpoints| then Some(Set(s, e, ep.(stage := Away)).(minTail := Minimum(scan, ep.tail)))
          else None
    case _ => None
  }

  function Poller(a: Action): Option<nat> {
    match a
    case See(e) => Some(e)
    case Read(e) => Some(e)
    case Take(e) => Some(e)
    case SeeMin(e) => Some(e)
    case EndpointTail(e) => Some(e)
    case EndpointEnd(e) => Some(e)
    case _ => None
  }

  function Do(s: Flow, a: Action): Option<Flow>
    requires s.slots != []
  {
    if Poller(a).None? then Publishing(s, a)
    else if Poller(a).value < |s.endpoints| && s.endpoints[Poller(a).value].open then Polling(s, a, Poller(a).value)
    else None
  }

  predicate Initial(s: Flow) {
    && s.slots != [] && (forall i :: 0 <= i < |s.slots| ==> s.slots[i].seq_ == i && |s.slots[i].cells| == s.width + 3)
    && s.publisher == Quiet && s.published == [] && s.limit == 0 && s.minTail == 0
    && forall e :: 0 <= e < |s.endpoints| ==>
       s.endpoints[e].tail == 0 && s.endpoints[e].stage == Away && s.endpoints[e].delivered == []
  }

  ghost predicate Run(states: seq<Flow>, actions: seq<Action>) {
    && |states| == |actions| + 1 && Initial(states[0])
    && (forall i :: 0 <= i < |states| ==> states[i].slots != [])
    && (forall i :: 0 <= i < |actions| ==> Do(states[i], actions[i]) == Some(states[i + 1]))
  }

  // ------------------------------------------------------------ invariant

  /** `m` is a lower bound of every open endpoint's tail. */
  predicate Below(s: Flow, m: int) { forall e :: 0 <= e < |s.endpoints| && s.endpoints[e].open ==>
                  m <= s.endpoints[e].tail }

  predicate ScanOk(s: Flow, scan: Scan) {
    && scan.next <= |s.endpoints|
    && forall e :: 0 <= e < scan.next && s.endpoints[e].open ==>
       scan.least.Some? && scan.least.value <= s.endpoints[e].tail
  }

  function Begun(s: Flow): nat { |s.published| + if s.publisher.Writing? then 1 else 0 }

  /** Position `q` is published and its slot has not been reused. */
  predicate Live(s: Flow, q: nat) { q < |s.published| && Begun(s) <= q + |s.slots| }

  predicate Kept(s: Flow, q: nat) {
    s.slots != [] && (Live(s, q) ==> s.slots[At(s, q)].seq_ == q + 1 && Holds(s.slots[At(s, q)].cells, s.published[q]))
  }

  predicate SlotOk(s: Flow, i: nat) {
    && i < |s.slots| && |s.slots[i].cells| == s.width + 3
    && (s.slots[i].seq_ <= |s.published| || (s.slots[i].seq_ == i && |s.published| <= i))   // used, or as created
  }

  predicate PublisherOk(s: Flow) {
    s.slots != [] && match s.publisher
    case Quiet => true
    case Wanting(rec) => |rec.body| <= s.width
    case Scanning(rec, scan) => |rec.body| <= s.width && ScanOk(s, scan)
    case Writing(rec, n) =>
      |rec.body| <= s.width && |s.published| < s.limit && Written(s.slots[At(s, |s.published|)].cells, rec, n)
  }

  predicate EndpointOk(s: Flow, e: nat) {
    e < |s.endpoints| && var ep := s.endpoints[e];
    (ep.open ==>
      && ep.tail <= |s.published| && |s.published| <= ep.tail + |s.slots| && ep.delivered == s.published[..ep.tail]
      && (ep.stage.Reading? ==> ep.tail < |s.published| && Reads(ep.stage.got, s.published[ep.tail]))
      && (ep.stage.Scanning? ==> ScanOk(s, ep.stage.scan)))
  }

  ghost predicate Inv(s: Flow) {
    && PublisherOk(s) && Below(s, s.minTail) && Below(s, s.limit - |s.slots|)
    && (forall i :: 0 <= i < |s.slots| ==> SlotOk(s, i))
    && (forall q: nat :: q < |s.published| ==> Kept(s, q))
    && (forall e :: 0 <= e < |s.endpoints| ==> EndpointOk(s, e))
  }

  lemma LookOk(s: Flow, scan: Scan)
    requires ScanOk(s, scan) && scan.next < |s.endpoints|
    ensures ScanOk(s, Look(s, scan))
  {
  }

  /** Nothing but the publisher's stage, its limit or the cached minimum has changed. */
  lemma StageInv(s: Flow, t: Flow)
    requires Inv(s) && t == s.(publisher := t.publisher, limit := t.limit, minTail := t.minTail)
    requires PublisherOk(t) && Below(t, t.minTail) && Below(t, t.limit - |t.slots|) && !s.publisher.Writing?
    ensures Inv(t)
  {
    forall i | 0 <= i < |t.slots| ensures SlotOk(t, i) { assert SlotOk(s, i); }
    forall q: nat | q < |t.published| ensures Kept(t, q) { assert Kept(s, q); }
    forall e | 0 <= e < |t.endpoints| ensures EndpointOk(t, e) { assert EndpointOk(s, e); }
  }

  lemma WriteInv(s: Flow)
    requires Inv(s) && Do(s, Write).Some?
    ensures Inv(Do(s, Write).value)
  {
    var t := Do(s, Write).value;
    var pos := |s.published|;
    WriteNext(s.slots[At(s, pos)].cells, s.publisher.rec, s.publisher.n);
    forall i | 0 <= i < |t.slots| ensures SlotOk(t, i) { assert SlotOk(s, i); }
    forall q: nat | q < |t.published| ensures Kept(t, q) {
      assert Kept(s, q);
      if Live(s, q) { ModApart(q, pos, |s.slots|); }
    }
    forall e | 0 <= e < |t.endpoints| ensures EndpointOk(t, e) { assert EndpointOk(s, e); }
  }

  lemma PublishInv(s: Flow)
    requires Inv(s) && Do(s, Publish).Some?
    ensures Inv(Do(s, Publish).value)
  {
    var t := Do(s, Publish).value;
    var pos := |s.published|;
    WrittenHolds(s.slots[At(s, pos)].cells, s.publisher.rec);
    ModBelow(pos, |s.slots|);
    forall i | 0 <= i < |t.slots| ensures SlotOk(t, i) { assert SlotOk(s, i); }
    forall q: nat | q < |t.published| ensures Kept(t, q) {
      if q < pos {
        assert Kept(s, q);
        if Live(s, q) { ModApart(q, pos, |s.slots|); }
      }
    }
    forall e | 0 <= e < |t.endpoints| ensures EndpointOk(t, e) {
      assert EndpointOk(s, e);
      var ep := s.endpoints[e];
      if ep.open { assert t.published[..ep.tail] == s.published[..ep.tail]; }
    }
  }

  /** An endpoint changes its stage, and possibly moves its tail forward. */
  lemma EndpointInv(s: Flow, e: nat, ep: Endpoint, minTail: nat)
    requires Inv(s) && e < |s.endpoints| && ep.open && s.endpoints[e].open && ep.tail >= s.endpoints[e].tail
    requires EndpointOk(Set(s, e, ep).(minTail := minTail), e) && Below(Set(s, e, ep), minTail)
    ensures Inv(Set(s, e, ep).(minTail := minTail))
  {
    var t := Set(s, e, ep).(minTail := minTail);
    forall i | 0 <= i < |t.slots| ensures SlotOk(t, i) { assert SlotOk(s, i); }
    forall q: nat | q < |t.published| ensures Kept(t, q) { assert Kept(s, q); }
    forall f | 0 <= f < |t.endpoints| ensures EndpointOk(t, f) { if f != e { assert EndpointOk(s, f); } }
  }

  /** What an endpoint waits for is still in its slot, untouched. */
  lemma TailIsLive(s: Flow, e: nat)
    requires Inv(s) && e < |s.endpoints| && s.endpoints[e].open && s.endpoints[e].tail < |s.published|
    ensures var t := s.endpoints[e].tail;
        s.slots[At(s, t)].seq_ == t + 1 && Holds(s.slots[At(s, t)].cells, s.published[t])
  {
    assert EndpointOk(s, e) && Kept(s, s.endpoints[e].tail);
  }

  lemma PollingInv(s: Flow, a: Action, e: nat)
    requires Inv(s) && Poller(a) == Some(e) && Do(s, a).Some?
    ensures Inv(Do(s, a).value)
  {
    var t, ep := Do(s, a).value, s.endpoints[e];
    assert Do(s, a) == Polling(s, a, e) && EndpointOk(s, e);
    if a.See? {
      assert SlotOk(s, At(s, ep.tail));
      ModBelow(ep.tail, |s.slots|);
      if s.slots[At(s, ep.tail)].seq_ == ep.tail + 1 { EndpointInv(s, e, t.endpoints[e], s.minTail); }
    } else if a.Read? {
      TailIsLive(s, e);
      ReadNext(ep.stage.got, s.slots[At(s, ep.tail)].cells, s.published[ep.tail]);
      EndpointInv(s, e, t.endpoints[e], s.minTail);
    } else if a.Take? {
      AssembleIs(ep.stage.got, s.published[ep.tail]);
      assert s.published[..ep.tail + 1] == s.published[..ep.tail] + [s.published[ep.tail]];
      EndpointInv(s, e, t.endpoints[e], s.minTail);
    } else {
      if a.EndpointTail? { LookOk(s, ep.stage.scan); }
      EndpointInv(s, e, t.endpoints[e], t.minTail);
    }
  }

  lemma PublishingInv(s: Flow, a: Action)
    requires Inv(s) && Poller(a).None? && Do(s, a).Some?
    ensures Inv(Do(s, a).value)
  {
    var t := Do(s, a).value;
    if a.Write? {
      WriteInv(s);
    } else if a.Publish? {
      PublishInv(s);
    } else {
      if a.ScanTail? { LookOk(s, s.publisher.scan); }
      if a.LoadMin? || a.Continue? { RoomToWrite(s); }
      StageInv(s, t);
    }
  }

  lemma RoomToWrite(s: Flow)
    requires Inv(s)
    ensures |s.slots[At(s, |s.published|)].cells| == s.width + 3
  {
    assert SlotOk(s, At(s, |s.published|));
  }

  lemma StepInv(s: Flow, a: Action)
    requires Inv(s) && Do(s, a).Some?
    ensures Inv(Do(s, a).value)
  {
    if Poller(a).Some? { PollingInv(s, a, Poller(a).value); } else { PublishingInv(s, a); }
  }

  lemma {:induction false} RunInv(states: seq<Flow>, actions: seq<Action>, n: nat)
    requires Run(states, actions) && n < |states|
    ensures Inv(states[n])
    decreases n
  {
    if n == 0 {
      forall i | 0 <= i < |states[0].slots| ensures SlotOk(states[0], i) { }
      forall e | 0 <= e < |states[0].endpoints| ensures EndpointOk(states[0], e) { }
    } else {
      RunInv(states, actions, n - 1);
      hide Inv, Do;
      assert Do(states[n - 1], actions[n - 1]) == Some(states[n - 1 + 1]);
      StepInv(states[n - 1], actions[n - 1]);
    }
  }

  // ------------------------------------------------------------- theorems

  /**
   The cached minimum never exceeds an open endpoint's tail, and every endpoint receives exactly the
   published sequence.
   */
  lemma DeliversAll(states: seq<Flow>, actions: seq<Action>, n: nat, e: nat)
    requires Run(states, actions) && n < |states| && e < |states[n].endpoints| && states[n].endpoints[e].open
    ensures var s, ep := states[n], states[n].endpoints[e];
            && s.minTail <= ep.tail <= |s.published| <= ep.tail + |s.slots|
            && ep.delivered == s.published[..ep.tail]
  {
    RunInv(states, actions, n);
    assert EndpointOk(states[n], e);
  }

  /**
   No unread slot is overwritten: whatever position is being written, every open endpoint is past the one it
   replaces.
   */
  lemma NoOverwrite(states: seq<Flow>, actions: seq<Action>, n: nat, e: nat)
    requires Run(states, actions) && n < |states| && states[n].publisher.Writing? && e < |states[n].endpoints| &&
        states[n].endpoints[e].open
    ensures |states[n].published| < states[n].endpoints[e].tail + |states[n].slots|
  {
    RunInv(states, actions, n);
  }

  /** An endpoint with something left to read finds it: a poll that looks never comes back empty-handed. */
  lemma PollFinds(states: seq<Flow>, actions: seq<Action>, n: nat, e: nat)
    requires Run(states, actions) && n < |states| && e < |states[n].endpoints| && states[n].endpoints[e].open
    ensures var s, ep := states[n], states[n].endpoints[e];
            s.slots[At(s, ep.tail)].seq_ == ep.tail + 1 <==> ep.tail < |s.published|
  {
    var s, ep := states[n], states[n].endpoints[e];
    RunInv(states, actions, n);
    assert SlotOk(s, At(s, ep.tail));
    ModBelow(ep.tail, |s.slots|);
    if ep.tail < |s.published| { TailIsLive(s, e); }
  }
}
