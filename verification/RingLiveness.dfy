/**
 Two more facts about the multi-producer ring: a sleeping consumer with work pending is always about
 to be woken, and what is delivered is what was sent unless a skipped producer wrote after the skip.
 */
module RingLiveness {
  import opened Common
  import opened MpRing
  import opened RingSafety

  // ------------------------------------------------------ no lost wake-up

  /** The producer owns a ticket or has committed it, and has not bumped the notify word for it yet. */
  predicate Unannounced(pc: Producer) { Owns(pc) || pc.Committed? || pc.Bumping? }

  ghost predicate Attended(s: Ring, t: nat) {
    exists p :: p in s.producers && InFlight(s.producers[p]) && s.producers[p].pos == t
  }

  ghost predicate Awaited(s: Ring, t: nat) {
    exists p :: p in s.producers && Unannounced(s.producers[p]) && s.producers[p].pos == t
  }

  predicate Enlisted(c: Consumer) { c.Rechecking? || c.Dozing? || c.Asleep? || c.Leaving? }

  predicate Expects(c: Consumer) { c.Enlisting? || c.Rechecking? || c.Dozing? || c.Asleep? }

  ghost predicate WakeInv(s: Ring) {
    && s.waiters == (if Enlisted(s.consumer) then 1 else 0)
    && (Expects(s.consumer) ==> s.consumer.expected <= s.notify)
    && (s.consumer.Dozing? && s.consumer.expected == s.notify ==> forall t: nat :: s.deq <= t < s.enq ==> Awaited(s, t))
    && (s.consumer.Asleep? ==> forall t: nat :: s.deq <= t < s.enq ==> Attended(s, t))
  }

  lemma OthersUntouched(s: Ring, a: Action, q: nat)
    requires s.slots != [] && Do(s, a).Some? && q in s.producers && Actor(a) != Some(q)
    ensures q in Do(s, a).value.producers && Do(s, a).value.producers[q] == s.producers[q]
  {
  }

  /** While the consumer is enlisted, a producer with a pending ticket goes from step to step without dropping out. */
  lemma StaysInFlight(s: Ring, a: Action, p: nat)
    requires Inv(s) && Do(s, a).Some? && s.waiters == 1 && !s.consumer.Released?
    requires p in s.producers && InFlight(s.producers[p]) && s.deq <= s.producers[p].pos && !a.Wake?
    ensures var s' := Do(s, a).value;
            p in s'.producers && InFlight(s'.producers[p]) && s'.producers[p].pos == s.producers[p].pos
    ensures Unannounced(s.producers[p]) && !a.Bump? ==> Unannounced(Do(s, a).value.producers[p])
  {
    assert Cursors(s);
    if Actor(a) == Some(p) {
      if a.Commit? { CommitDecides(s, p); }
      hide Inv;
      assert Do(s, a) == Produce(s, a, p, s.producers[p]);
    } else {
      hide Inv, Do;
      OthersUntouched(s, a, p);
    }
  }

  lemma AwaitedStays(s: Ring, a: Action, t: nat)
    requires Inv(s) && Do(s, a).Some? && s.waiters == 1 && !s.consumer.Released? && !a.Bump? && !a.Wake? &&
        s.deq <= t && Awaited(s, t)
    ensures Awaited(Do(s, a).value, t)
  {
    hide Inv, Do;
    var p :| p in s.producers && Unannounced(s.producers[p]) && s.producers[p].pos == t;
    StaysInFlight(s, a, p);
  }

  lemma AttendedStays(s: Ring, a: Action, t: nat)
    requires Inv(s) && Do(s, a).Some? && s.waiters == 1 && !s.consumer.Released? && !a.Wake? && s.deq <= t &&
        Attended(s, t)
    ensures Attended(Do(s, a).value, t)
  {
    hide Inv, Do;
    var p :| p in s.producers && InFlight(s.producers[p]) && s.producers[p].pos == t;
    StaysInFlight(s, a, p);
  }

  lemma NewlyClaimed(s: Ring, a: Action, t: nat)
    requires s.slots != [] && Do(s, a).Some? && s.enq <= t < Do(s, a).value.enq
    ensures Awaited(Do(s, a).value, t) && Attended(Do(s, a).value, t)
  {
    var s' := Do(s, a).value;
    assert a.Claim? && a.p in s'.producers && s'.producers[a.p].Claimed? && s'.producers[a.p].pos == t;
  }

  lemma AwaitedIsAttended(s: Ring, s': Ring, t: nat)
    requires Awaited(s, t) && s'.producers == s.producers
    ensures Attended(s', t)
  {
    var p :| p in s.producers && Unannounced(s.producers[p]) && s.producers[p].pos == t;
    assert p in s'.producers && InFlight(s'.producers[p]) && s'.producers[p].pos == t;
  }

  lemma StillDozes(s: Ring, a: Action)
    requires s.slots != [] && Do(s, a).Some? && Do(s, a).value.consumer.Dozing?
    ensures var s' := Do(s, a).value;
            && (a.Recheck? || (s.consumer == s'.consumer && s.deq == s'.deq)) && (a.Recheck? ==> s'.enq <= s'.deq)
            && s'.notify == if a.Bump? then s.notify + 1 else s.notify
  {
  }

  lemma StepDozing(s: Ring, a: Action)
    requires Inv(s) && WakeInv(s) && Do(s, a).Some? && Do(s, a).value.consumer.Dozing?
    ensures var s' := Do(s, a).value;
            s'.consumer.expected == s'.notify ==> forall t: nat :: s'.deq <= t < s'.enq ==> Awaited(s', t)
  {
    hide Inv, Do, Awaited;
    HasSlots(s);
    StillDozes(s, a);
    var s' := Do(s, a).value;
    if s'.consumer.expected == s'.notify {
      forall t: nat | s'.deq <= t < s'.enq ensures Awaited(s', t) {
        if t >= s.enq { NewlyClaimed(s, a, t); } else if a.Wake? { DozingWake(s, a, t); }
            else { AwaitedStays(s, a, t); }
      }
    }
  }

  lemma DozingWake(s: Ring, a: Action, t: nat)
    requires s.slots != [] && Do(s, a).Some? && a.Wake? && Awaited(s, t)
    ensures Awaited(Do(s, a).value, t)
  {
    var p :| p in s.producers && Unannounced(s.producers[p]) && s.producers[p].pos == t;
    assert Do(s, a).value.producers[p] == s.producers[p];
  }

  lemma FallsAsleep(s: Ring, a: Action)
    requires s.slots != [] && Do(s, a).Some? && Do(s, a).value.consumer.Asleep?
    ensures var s' := Do(s, a).value;
            && !a.Wake? && s.deq == s'.deq && (!a.Doze? ==> s.consumer.Asleep?)
            && (a.Doze? ==> s.consumer.Dozing? && s.consumer.expected == s.notify && s'.producers == s.producers &&
                            s'.enq == s.enq)
  {
  }

  lemma StepAsleep(s: Ring, a: Action)
    requires Inv(s) && WakeInv(s) && Do(s, a).Some? && Do(s, a).value.consumer.Asleep?
    ensures var s' := Do(s, a).value; forall t: nat :: s'.deq <= t < s'.enq ==> Attended(s', t)
  {
    hide Inv, Do, Awaited, Attended;
    HasSlots(s);
    FallsAsleep(s, a);
    var s' := Do(s, a).value;
    forall t: nat | s'.deq <= t < s'.enq ensures Attended(s', t) {
      if t >= s.enq { NewlyClaimed(s, a, t); } else if a.Doze? { AwaitedIsAttended(s, s', t); }
          else { AttendedStays(s, a, t); }
    }
  }

  lemma HasSlots(s: Ring)
    requires Inv(s)
    ensures s.slots != []
  {
  }

  lemma ProducersLeave(s: Ring, a: Action, p: nat, pc: Producer)
    requires s.slots != [] && Produce(s, a, p, pc).Some?
    ensures var s' := Produce(s, a, p, pc).value;
            && (s'.consumer == s.consumer || (s.consumer.Asleep? && s'.consumer == Leaving))
            && s'.waiters == s.waiters && s'.notify >= s.notify
  {
  }

  lemma WaitersConsume(s: Ring, a: Action)
    requires s.slots != [] && Consume(s, a).Some? && s.waiters == (if Enlisted(s.consumer) then 1 else 0)
    requires Expects(s.consumer) ==> s.consumer.expected <= s.notify
    ensures var s' := Consume(s, a).value;
            s'.waiters == (if Enlisted(s'.consumer) then 1 else 0) &&
                (Expects(s'.consumer) ==> s'.consumer.expected <= s'.notify)
  {
    hide Hand;
  }

  lemma WaitersStep(s: Ring, a: Action)
    requires s.slots != [] && Do(s, a).Some? && s.waiters == (if Enlisted(s.consumer) then 1 else 0)
    requires Expects(s.consumer) ==> s.consumer.expected <= s.notify
    ensures var s' := Do(s, a).value;
            s'.waiters == (if Enlisted(s'.consumer) then 1 else 0) &&
                (Expects(s'.consumer) ==> s'.consumer.expected <= s'.notify)
  {
    hide Produce, Consume;
    if Actor(a).Some? { ProducersLeave(s, a, Actor(a).value, s.producers[Actor(a).value]); }
        else { WaitersConsume(s, a); }
  }

  lemma StepWake(s: Ring, a: Action)
    requires Inv(s) && WakeInv(s) && Do(s, a).Some?
    ensures WakeInv(Do(s, a).value)
  {
    hide Inv, Awaited, Attended, Do;
    HasSlots(s);
    WaitersStep(s, a);
    var s' := Do(s, a).value;
    if s'.consumer.Dozing? { StepDozing(s, a); }
    if s'.consumer.Asleep? { StepAsleep(s, a); }
  }

  lemma {:induction false} RunWake(states: seq<Ring>, actions: seq<Action>, n: nat)
    requires Run(states, actions) && n < |states| && Capacity(states[0]) >= 2
    ensures WakeInv(states[n])
    decreases n
  {
    if n > 0 {
      RunWake(states, actions, n - 1);
      RunInv(states, actions, n - 1);
      assert Do(states[n - 1], actions[n - 1]) == Some(states[n - 1 + 1]);
      StepWake(states[n - 1], actions[n - 1]);
    }
  }

  /** If the consumer sleeps while tickets are pending, each of them has a producer that has yet to wake it. */
  lemma NoLostWakeUp(states: seq<Ring>, actions: seq<Action>, n: nat)
    requires Run(states, actions) && n < |states| && Capacity(states[0]) >= 2 && states[n].consumer.Asleep?
    ensures forall t: nat :: states[n].deq <= t < states[n].enq ==> Attended(states[n], t)
  {
    RunWake(states, actions, n);
  }

  // ----------------------------------------------------------- contents

  /** A write into the slot of a ticket that has already been resolved. */
  predicate LateWrite(s: Ring, a: Action) {
    (a.Title? || a.Fill?) && a.p in s.producers && Owns(s.producers[a.p]) && s.producers[a.p].pos < Rel(s)
  }

  function Content(s: Ring, t: nat): Rec
    requires s.slots != []
  {
    var slot := s.slots[At(s, t)];
    Rec(slot.sequence, slot.producer, slot.payload)
  }

  predicate Written(s: Ring, p: nat) {
    p in s.producers && s.slots != [] && var pc := s.producers[p];
    && (pc.Titled? && pc.pos >= Rel(s) ==> Content(s, pc.pos).sequence == pc.pos && Content(s, pc.pos).producer == p)
    && (pc.Filled? && pc.pos >= Rel(s) ==> Content(s, pc.pos) == Rec(pc.pos, p, pc.payload))
  }

  predicate Intact(s: Ring, t: nat) { s.slots != [] && t in s.sent && Content(s, t) == s.sent[t] }

  predicate Faithful(s: Ring, i: nat) {
    i < |s.resolved| && (s.resolved[i].Delivered? ==> i in s.sent && s.resolved[i].rec == s.sent[i])
  }

  /** The ticket of the next lap has not been claimed: the slot is still this ticket's, released or not. */
  predicate Held(s: Ring, t: nat) { s.enq <= t + Capacity(s) }

  ghost predicate ContentInv(s: Ring) {
    && (forall p :: p in s.producers ==> Written(s, p))
    && (forall t :: t in s.committed && Held(s, t) ==> Intact(s, t))
    && (forall i: nat :: i < |s.resolved| ==> Faithful(s, i))
    && (s.consumer.Reading? ==> s.consumer.pos in s.sent && s.sent[s.consumer.pos].sequence == s.consumer.sequence
                                && s.sent[s.consumer.pos].producer == s.consumer.producer)
    && (s.consumer.Taking? ==> s.consumer.pos in s.sent && s.consumer.rec == s.sent[s.consumer.pos])
  }

  /** Tickets that are not resolved yet do not share a slot. */
  lemma PendingApart(s: Ring, t: nat, u: nat)
    requires Inv(s) && Rel(s) <= t < s.enq && Rel(s) <= u < s.enq && t != u
    ensures At(s, t) != At(s, u)
  {
    if t < u { SlotsApart(s, t, u); } else { SlotsApart(s, u, t); }
  }

  /** Nor does one share a slot with a ticket whose slot has not been claimed again. */
  lemma HeldApart(s: Ring, t: nat, u: nat)
    requires Inv(s) && Rel(s) <= t < s.enq && u < s.enq && Held(s, u) && t != u
    ensures At(s, t) != At(s, u)
  {
    assert Cursors(s);
    if t < u { SlotsApart(s, t, u); } else { SlotsApart(s, u, t); }
  }

  /** Slot contents as they were, except possibly at index `i`. */
  predicate SameContents(s: Ring, t: Ring, i: int) {
    |t.slots| == |s.slots| && forall j :: 0 <= j < |s.slots| && j != i ==>
      t.slots[j].sequence == s.slots[j].sequence && t.slots[j].producer == s.slots[j].producer &&
          t.slots[j].payload == s.slots[j].payload
  }

  lemma IntactKept(s: Ring, t: Ring, u: nat)
    requires Intact(s, u) && SameContents(s, t, -1) && u in t.sent && t.sent[u] == s.sent[u]
    ensures Intact(t, u)
  {
    assert At(t, u) == At(s, u);
  }

  /** An action that writes no slot contents and commits nothing. */
  lemma ContentFrame(s: Ring, t: Ring)
    requires Inv(s) && ContentInv(s) && SameContents(s, t, -1) && Rel(s) <= Rel(t) && t.committed == s.committed
    requires s.enq <= t.enq
    requires forall u :: u in s.sent && u < s.enq ==> u in t.sent && t.sent[u] == s.sent[u]
    requires forall p :: p in t.producers && (t.producers[p].Titled? || t.producers[p].Filled?) ==>
        p in s.producers && s.producers[p] == t.producers[p]
    requires forall i: nat :: i < |t.resolved| ==> Faithful(t, i)
    requires t.consumer.Reading? ==>
        t.consumer.pos in t.sent && t.sent[t.consumer.pos].sequence == t.consumer.sequence &&
                          t.sent[t.consumer.pos].producer == t.consumer.producer
    requires t.consumer.Taking? ==> t.consumer.pos in t.sent && t.consumer.rec == t.sent[t.consumer.pos]
    ensures ContentInv(t)
  {
    hide At;
    assert s.slots != [] by { assert Cursors(s); }
    forall p | p in t.producers ensures Written(t, p) {
      if t.producers[p].Titled? || t.producers[p].Filled? { assert Written(s, p); SameAt(s, t, t.producers[p].pos); }
    }
    assert History(s);
    forall u | u in t.committed && Held(t, u) ensures Intact(t, u) {
      assert Held(s, u) && Intact(s, u);
      IntactKept(s, t, u);
    }
  }

  lemma SameAt(s: Ring, t: Ring, u: nat)
    requires s.slots != [] && |t.slots| == |s.slots|
    ensures At(t, u) == At(s, u) < |s.slots|
  {
  }

  /** A write into the slot of a ticket still being filled. */
  lemma WriteContent(s: Ring, a: Action, p: nat)
    requires Inv(s) && ContentInv(s) && (a.Title? || a.Fill?) && a.p == p && Do(s, a).Some? && !LateWrite(s, a)
    ensures ContentInv(Do(s, a).value)
  {
    var t := Do(s, a).value;
    assert p in s.producers && Do(s, a) == Produce(s, a, p, s.producers[p]);
    var pos := s.producers[p].pos;
    assert ProducerOk(s, p) && Written(s, p);
    assert SameContents(s, t, At(s, pos)) && Cursors(s);
    forall q | q in t.producers ensures Written(t, q) {
      assert ProducerOk(s, q) && Written(s, q) && Distinct2(s, p, q);
      if q != p && Owns(t.producers[q]) && t.producers[q].pos >= Rel(s) { PendingApart(s, pos, t.producers[q].pos); }
    }
    assert History(s);
    forall u | u in t.committed && Held(t, u) ensures Intact(t, u) {
      assert Held(s, u) && Intact(s, u);
      HeldApart(s, pos, u);
    }
    forall i: nat | i < |t.resolved| ensures Faithful(t, i) { assert Faithful(s, i); }
  }

  lemma CommitContent(s: Ring, a: Action, p: nat)
    requires Inv(s) && ContentInv(s) && a.Commit? && a.p == p && Do(s, a).Some?
    ensures ContentInv(Do(s, a).value)
  {
    var t := Do(s, a).value;
    assert p in s.producers && Do(s, a) == Produce(s, a, p, s.producers[p]);
    var pos := s.producers[p].pos;
    CommitDecides(s, p);
    assert ProducerOk(s, p) && Written(s, p) && Cursors(s);
    forall q | q in t.producers ensures Written(t, q) { assert Written(s, q); }
    forall u | u in t.committed && Held(t, u)
        ensures Intact(t, u) { if u != pos { assert Held(s, u) && Intact(s, u); } }
    forall i: nat | i < |t.resolved| ensures Faithful(t, i) { assert Faithful(s, i); }
  }

  lemma ProduceContent(s: Ring, a: Action, p: nat)
    requires Inv(s) && ContentInv(s) && Actor(a) == Some(p) && Do(s, a).Some? && !a.Title? && !a.Fill? && !a.Commit?
    ensures ContentInv(Do(s, a).value)
  {
    var t := Do(s, a).value;
    assert p in s.producers && Do(s, a) == Produce(s, a, p, s.producers[p]);
    assert Cursors(s);
    forall i: nat | i < |t.resolved| ensures Faithful(t, i) { assert Faithful(s, i); }
    ContentFrame(s, t);
  }

  lemma ReadContent(s: Ring, a: Action)
    requires Inv(s) && ContentInv(s) && (a.ReadTitle? || a.ReadPayload?) && Do(s, a).Some?
    ensures ContentInv(Do(s, a).value)
  {
    var t := Do(s, a).value;
    assert Cursors(s) && Held(s, s.consumer.pos) && Intact(s, s.consumer.pos);
    forall i: nat | i < |t.resolved| ensures Faithful(t, i) { assert Faithful(s, i); }
    ContentFrame(s, t);
  }

  lemma ConsumeContent(s: Ring, a: Action)
    requires Inv(s) && ContentInv(s) && Actor(a) == None && Do(s, a).Some? && !a.ReadTitle? && !a.ReadPayload?
    ensures ContentInv(Do(s, a).value)
  {
    var t := Do(s, a).value;
    assert Cursors(s) && Do(s, a) == Consume(s, a);
    assert SameContents(s, t, -1);
    forall i: nat | i < |t.resolved| ensures Faithful(t, i) { if i < |s.resolved| { assert Faithful(s, i); } }
    ContentFrame(s, t);
  }

  lemma StepContent(s: Ring, a: Action)
    requires Inv(s) && ContentInv(s) && Do(s, a).Some? && !LateWrite(s, a)
    ensures ContentInv(Do(s, a).value)
  {
    hide Inv, ContentInv, Do;
    if a.Title? || a.Fill? { WriteContent(s, a, a.p); }
    else if a.Commit? { CommitContent(s, a, a.p); }
    else if Actor(a).Some? { ProduceContent(s, a, Actor(a).value); }
    else if a.ReadTitle? || a.ReadPayload? { ReadContent(s, a); }
    else { ConsumeContent(s, a); }
  }

  /** No producer writes into a slot whose ticket has been resolved before. */
  ghost predicate Prompt(states: seq<Ring>, actions: seq<Action>)
    requires |states| == |actions| + 1
  {
    forall i :: 0 <= i < |actions| ==> !LateWrite(states[i], actions[i])
  }

  lemma StartContent(s: Ring)
    requires Initial(s)
    ensures ContentInv(s)
  {
  }

  lemma {:induction false} RunContent(states: seq<Ring>, actions: seq<Action>, n: nat)
    requires Run(states, actions) && n < |states| && Capacity(states[0]) >= 2 && Prompt(states, actions)
    ensures ContentInv(states[n])
    decreases n
  {
    hide Inv, ContentInv, Do;
    if n == 0 {
      StartContent(states[0]);
    } else {
      RunContent(states, actions, n - 1);
      RunInv(states, actions, n - 1);
      assert Do(states[n - 1], actions[n - 1]) == Some(states[n - 1 + 1]);
      StepContent(states[n - 1], actions[n - 1]);
    }
  }

  /** In such runs every delivered record is the one its ticket's owner sent, with the ticket as its sequence number. */
  lemma DeliveredAsSent(states: seq<Ring>, actions: seq<Action>, n: nat, i: nat)
    requires Run(states, actions) && n < |states| && Capacity(states[0]) >= 2 && Prompt(states, actions)
    requires i < |states[n].resolved| && states[n].resolved[i].Delivered?
    ensures i in states[n].sent && states[n].resolved[i].rec == states[n].sent[i]
  {
    RunContent(states, actions, n);
    assert Faithful(states[n], i);
  }

  /**
   The poll that does not copy hands out the slot itself and releases it. In such runs the slot shows
   the record that was sent for as long as the ticket that will reuse it has not been claimed.
   */
  lemma BorrowedAsSent(states: seq<Ring>, actions: seq<Action>, n: nat, i: nat)
    requires Run(states, actions) && n < |states| && Capacity(states[0]) >= 2 && Prompt(states, actions)
    requires i < |states[n].resolved| && states[n].resolved[i].Delivered? && Held(states[n], i)
    ensures states[n].slots != [] && i in states[n].sent && Content(states[n], i) == states[n].sent[i]
  {
    RunContent(states, actions, n);
    RunInv(states, actions, n);
    assert EventOk(states[n], i);
    assert Intact(states[n], i);
  }
}
