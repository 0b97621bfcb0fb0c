/**
 What every reachable state of the multi-producer ring satisfies: each ticket is resolved exactly
 once and in order, delivered if and only if its commit succeeded, whatever the interleaving.
 */
module RingSafety {
  import opened Common
  import opened Laps
  import opened MpRing

  /** Tickets less than a lap apart use different slots; a lap apart, the same. */
  lemma SlotsApart(s: Ring, t: nat, u: nat)
    requires s.slots != [] && t < u < t + Capacity(s)
    ensures At(s, t) != At(s, u)
  {
    ModApart(t, u, |s.slots|);
  }

  lemma SlotNext(s: Ring, t: nat)
    requires s.slots != []
    ensures At(s, t + Capacity(s)) == At(s, t)
  {
    ModNext(t, |s.slots|);
  }

  // ------------------------------------------------------------ invariant

  /** The number of tickets whose slot has been handed back. */
  function Rel(s: Ring): nat { |s.resolved| }

  predicate SeqAt(s: Ring, t: nat) {
    s.slots != [] && s.slots[At(s, t)].seq_ == if t in s.committed then t + 1 else t
  }

  ghost predicate Window(s: Ring) {
    forall t :: Rel(s) <= t < Rel(s) + Capacity(s) ==> SeqAt(s, t)
  }

  predicate Cursors(s: Ring) {
    && Capacity(s) >= 2 && Rel(s) <= s.enq <= Rel(s) + Capacity(s)
    && (if s.consumer.Released? then s.deq + 1 == Rel(s) else s.deq == Rel(s))
  }

  predicate EventOk(s: Ring, i: nat) {
    i < |s.resolved| && s.resolved[i].ticket == i && (s.resolved[i].Delivered? <==> i in s.committed)
  }

  ghost predicate History(s: Ring) {
    && (forall i: nat :: i < |s.resolved| ==> EventOk(s, i))
    && (forall t :: t in s.committed ==> t < s.enq)
    && (forall t :: t in s.poisoned ==> t < Rel(s) && t !in s.committed)
  }

  /** The producer owns a ticket it has not tried to commit yet. */
  predicate Owns(pc: Producer) { pc.Claimed? || pc.Titled? || pc.Filled? }

  /** The producer is between claiming a ticket and its wake step. */
  predicate InFlight(pc: Producer) { Owns(pc) || pc.Committed? || pc.Bumping? || pc.Waking? }

  predicate ProducerOk(s: Ring, p: nat) {
    p in s.producers && var pc := s.producers[p];
    && (pc.Loaded? ==> pc.pos <= s.enq)
    && (pc.Free? ==> pc.pos <= s.enq && pc.pos < Rel(s) + Capacity(s))
    && (Owns(pc) ==>
          pc.pos < s.enq && pc.pos !in s.committed && pc.pos !in s.poisoned && pc.pos in s.sent &&
          s.sent[pc.pos] == Rec(pc.pos, p, pc.payload))
    && (InFlight(pc) && !Owns(pc) ==> pc.pos in s.committed)
  }

  predicate Distinct2(s: Ring, p: nat, q: nat) {
    p in s.producers && q in s.producers && p != q && InFlight(s.producers[p]) && InFlight(s.producers[q]) ==>
      s.producers[p].pos != s.producers[q].pos
  }

  ghost predicate Producers(s: Ring) {
    && (forall p :: p in s.producers ==> ProducerOk(s, p))
    && (forall p, q :: p in s.producers && q in s.producers ==> Distinct2(s, p, q))
  }

  ghost predicate Accounted(s: Ring, t: nat) {
    t in s.committed || t in s.poisoned || exists p :: p in s.producers && Owns(s.producers[p]) &&
                                                            s.producers[p].pos == t
  }

  ghost predicate Owned(s: Ring) { forall t: nat :: t < s.enq ==> Accounted(s, t) && t in s.sent }

  predicate ConsumerOk(s: Ring) {
    var c := s.consumer;
    && (c.Polling? || c.Stalled? || c.Skipping? || c.Released? ==> c.pos == s.deq)
    && (c.Ready? || c.Reading? || c.Taking? ==> c.pos == s.deq && c.pos in s.committed)
    && (c.Skipping? ==> c.pos < s.enq)
  }

  ghost predicate Inv(s: Ring) {
    Cursors(s) && Window(s) && History(s) && Producers(s) && Owned(s) && ConsumerOk(s)
  }

  lemma InitialInv(s: Ring)
    requires Initial(s) && Capacity(s) >= 2
    ensures Inv(s)
  {
    forall t | 0 <= t < Capacity(s) ensures SeqAt(s, t) {
      ModIs(|s.slots|, 0, t);
    }
  }

  // ----------------------------------------------- actions of a producer

  /** No slot's seq, no history and no cursor has changed. */
  predicate Still(s: Ring, t: Ring) {
    && |t.slots| == |s.slots| && (forall i :: 0 <= i < |s.slots| ==> t.slots[i].seq_ == s.slots[i].seq_)
    && t.enq == s.enq && t.deq == s.deq && t.resolved == s.resolved && t.committed == s.committed
  }

  lemma StillWindow(s: Ring, t: Ring)
    requires Cursors(s) && Window(s) && Still(s, t)
    ensures Window(t)
  {
    forall u | Rel(t) <= u < Rel(t) + Capacity(t) ensures SeqAt(t, u) { assert SeqAt(s, u); }
  }

  lemma OwnersKept(s: Ring, t: Ring, u: nat)
    requires Owned(s) && u < s.enq && t.committed == s.committed && t.poisoned == s.poisoned && t.sent == s.sent
    requires forall q :: q in s.producers && Owns(s.producers[q]) ==>
        q in t.producers && Owns(t.producers[q]) && t.producers[q].pos == s.producers[q].pos
    ensures Accounted(t, u) && u in t.sent
  {
    assert Accounted(s, u);
    if u !in s.committed && u !in s.poisoned {
      var q :| q in s.producers && Owns(s.producers[q]) && s.producers[q].pos == u;
      assert q in t.producers && Owns(t.producers[q]) && t.producers[q].pos == u;
    }
  }

  /** A producer moves on without claiming, committing or giving up a ticket. */
  lemma MovesOn(s: Ring, t: Ring, p: nat, pc: Producer)
    requires Inv(s) && Still(s, t) &&
        p in s.producers && t.producers == s.producers[p := pc] && ConsumerOk(t) && Cursors(t)
    requires t.poisoned == s.poisoned && t.sent == s.sent
    requires ProducerOk(t, p) && Owns(pc) == Owns(s.producers[p])
    requires InFlight(pc) ==> InFlight(s.producers[p]) && pc.pos == s.producers[p].pos
    requires Owns(pc) ==> pc.pos == s.producers[p].pos
    ensures Inv(t)
  {
    StillWindow(s, t);
    forall i: nat | i < |t.resolved| ensures EventOk(t, i) { assert EventOk(s, i); }
    forall q | q in t.producers ensures ProducerOk(t, q) { assert ProducerOk(s, q); }
    forall q, r | q in t.producers && r in t.producers ensures Distinct2(t, q, r) { assert Distinct2(s, q, r); }
    forall u: nat | u < t.enq ensures Accounted(t, u) && u in t.sent { OwnersKept(s, t, u); }
  }

  /** A ticket still to be resolved is unclaimed, being filled, or committed: its slot's seq says which. */
  lemma PendingSeq(s: Ring, pos: nat)
    requires Inv(s) && Rel(s) <= pos < Rel(s) + Capacity(s)
    ensures s.slots[At(s, pos)].seq_ == if pos in s.committed then pos + 1 else pos
  {
    assert SeqAt(s, pos);
  }

  /** The slot of a resolved ticket has moved on by a lap at least. */
  lemma PastSeq(s: Ring, pos: nat)
    requires Inv(s) && pos < Rel(s)
    ensures s.slots[At(s, pos)].seq_ >= pos + Capacity(s)
  {
    var u := LapOf(s, pos, Rel(s));
    assert SeqAt(s, u);
  }

  /** The ticket of slot `At(pos)` that lies in the lap starting at `from`. */
  lemma LapOf(s: Ring, pos: nat, from: nat) returns (u: nat)
    requires s.slots != [] && pos < from
    ensures from <= u < from + Capacity(s) && At(s, u) == At(s, pos) && u >= pos + Capacity(s)
    decreases from - pos
  {
    SlotNext(s, pos);
    u := pos + Capacity(s);
    if u < from {
      u := LapOf(s, u, from);
    }
  }

  /** The slot a full lap ahead still belongs to the lap before: here two slots at least are needed. */
  lemma LapBehind(s: Ring)
    requires Inv(s)
    ensures s.slots[At(s, Rel(s) + Capacity(s))].seq_ < Rel(s) + Capacity(s)
  {
    SlotNext(s, Rel(s));
    assert SeqAt(s, Rel(s));
  }

  /** A slot whose seq is the loaded position is free for that very ticket. */
  lemma FreeMeans(s: Ring, pos: nat)
    requires Inv(s) && pos <= s.enq && s.slots[At(s, pos)].seq_ == pos
    ensures pos < Rel(s) + Capacity(s)
  {
    LapBehind(s);
  }

  lemma LoadSeqInv(s: Ring, p: nat)
    requires Inv(s) && p in s.producers && s.producers[p].Loaded?
    ensures Inv(Produce(s, LoadSeq(p), p, s.producers[p]).value)
  {
    var t := Produce(s, LoadSeq(p), p, s.producers[p]).value;
    assert ProducerOk(s, p);
    if t.producers[p].Free? { FreeMeans(s, s.producers[p].pos); }
    MovesOn(s, t, p, t.producers[p]);
  }

  lemma ClaimInv(s: Ring, p: nat)
    requires Inv(s) && p in s.producers && s.producers[p].Free? && s.enq == s.producers[p].pos
    ensures Inv(Produce(s, Claim(p, false), p, s.producers[p]).value)
  {
    var pos := s.enq;
    var t := Produce(s, Claim(p, false), p, s.producers[p]).value;
    assert ProducerOk(s, p);
    forall u | Rel(t) <= u < Rel(t) + Capacity(t) ensures SeqAt(t, u) { assert SeqAt(s, u); }
    forall i: nat | i < |t.resolved| ensures EventOk(t, i) { assert EventOk(s, i); }
    forall q | q in t.producers ensures ProducerOk(t, q) { assert ProducerOk(s, q); }
    forall q, r | q in t.producers && r in t.producers ensures Distinct2(t, q, r) {
      assert Distinct2(s, q, r) && ProducerOk(s, q) && ProducerOk(s, r);
    }
    forall u: nat | u < t.enq ensures Accounted(t, u) && u in t.sent { ClaimKeeps(s, t, p, u); }
  }

  lemma ClaimKeeps(s: Ring, t: Ring, p: nat, u: nat)
    requires Owned(s) && p in s.producers && !Owns(s.producers[p]) && u < t.enq == s.enq + 1
    requires p in t.producers && t.producers == s.producers[p := t.producers[p]] && t.producers[p].Claimed? &&
                  t.producers[p].pos == s.enq
    requires t.committed == s.committed && t.poisoned == s.poisoned && s.enq in t.sent && forall v :: v in s.sent ==>
        v in t.sent
    ensures Accounted(t, u) && u in t.sent
  {
    if u == s.enq {
      assert p in t.producers && Owns(t.producers[p]) && t.producers[p].pos == u;
    } else {
      assert Accounted(s, u) && u in s.sent;
      if u !in s.committed && u !in s.poisoned {
        var q :| q in s.producers && Owns(s.producers[q]) && s.producers[q].pos == u;
        assert q in t.producers && Owns(t.producers[q]) && t.producers[q].pos == u;
      }
    }
  }

  /** A commit goes through exactly when the consumer has not skipped the ticket. */
  lemma CommitDecides(s: Ring, p: nat)
    requires Inv(s) && p in s.producers && s.producers[p].Filled?
    ensures var pos := s.producers[p].pos; s.slots[At(s, pos)].seq_ == pos <==> pos >= Rel(s)
    ensures var pos := s.producers[p].pos; pos < Rel(s) ==> s.resolved[pos] == Skipped(pos)
  {
    var pos := s.producers[p].pos;
    assert ProducerOk(s, p);
    if pos >= Rel(s) {
      PendingSeq(s, pos);
    } else {
      PastSeq(s, pos);
      assert EventOk(s, pos);
    }
  }

  lemma CommitInv(s: Ring, p: nat)
    requires Inv(s) && p in s.producers && s.producers[p].Filled?
    ensures Inv(Produce(s, Commit(p), p, s.producers[p]).value)
  {
    CommitDecides(s, p);
    if s.producers[p].pos >= Rel(s) { CommitsInv(s, p); } else { PoisonsInv(s, p); }
  }

  lemma CommitsInv(s: Ring, p: nat)
    requires Inv(s) && p in s.producers && s.producers[p].Filled? && s.producers[p].pos >= Rel(s)
    requires s.slots[At(s, s.producers[p].pos)].seq_ == s.producers[p].pos
    ensures Inv(Produce(s, Commit(p), p, s.producers[p]).value)
  {
    var pos := s.producers[p].pos;
    var t := Produce(s, Commit(p), p, s.producers[p]).value;
    assert ProducerOk(s, p);
    forall u | Rel(t) <= u < Rel(t) + Capacity(t) ensures SeqAt(t, u) {
      assert SeqAt(s, u);
      if u < pos { SlotsApart(s, u, pos); } else if u > pos { SlotsApart(s, pos, u); }
    }
    forall i: nat | i < |t.resolved| ensures EventOk(t, i) { assert EventOk(s, i); }
    forall q | q in t.producers ensures ProducerOk(t, q) { assert ProducerOk(s, q) && Distinct2(s, p, q); }
    forall q, r | q in t.producers && r in t.producers ensures Distinct2(t, q, r) { assert Distinct2(s, q, r); }
    forall u: nat | u < t.enq ensures Accounted(t, u) && u in t.sent { StillOwned(s, t, p, u); }
  }

  lemma StillOwned(s: Ring, t: Ring, p: nat, u: nat)
    requires Owned(s) && p in s.producers && Owns(s.producers[p]) && u < t.enq == s.enq && t.sent == s.sent
    requires p in t.producers && t.producers == s.producers[p := t.producers[p]]
    requires s.committed <= t.committed && s.poisoned <= t.poisoned &&
        (s.producers[p].pos in t.committed || s.producers[p].pos in t.poisoned)
    ensures Accounted(t, u) && u in t.sent
  {
    assert Accounted(s, u);
    if u !in t.committed && u !in t.poisoned {
      var q :| q in s.producers && Owns(s.producers[q]) && s.producers[q].pos == u;
      assert q in t.producers && Owns(t.producers[q]) && t.producers[q].pos == u;
    }
  }

  lemma PoisonsInv(s: Ring, p: nat)
    requires Inv(s) && p in s.producers && s.producers[p].Filled? && s.producers[p].pos < Rel(s)
    requires s.slots[At(s, s.producers[p].pos)].seq_ != s.producers[p].pos
    ensures Inv(Produce(s, Commit(p), p, s.producers[p]).value)
  {
    var t := Produce(s, Commit(p), p, s.producers[p]).value;
    assert ProducerOk(s, p);
    StillWindow(s, t);
    forall i: nat | i < |t.resolved| ensures EventOk(t, i) { assert EventOk(s, i); }
    forall q | q in t.producers ensures ProducerOk(t, q) { assert ProducerOk(s, q) && Distinct2(s, p, q); }
    forall q, r | q in t.producers && r in t.producers ensures Distinct2(t, q, r) { assert Distinct2(s, q, r); }
    forall u: nat | u < t.enq ensures Accounted(t, u) && u in t.sent { StillOwned(s, t, p, u); }
  }

  lemma ProduceInv(s: Ring, a: Action, p: nat)
    requires Inv(s) && p in s.producers && Produce(s, a, p, s.producers[p]).Some?
    ensures Inv(Produce(s, a, p, s.producers[p]).value)
  {
    var pc := s.producers[p];
    if a.LoadSeq? {
      LoadSeqInv(s, p);
    } else if a.Commit? {
      CommitInv(s, p);
    } else if a.Claim? && s.enq == pc.pos && !a.spurious {
      ClaimInv(s, p);
    } else {
      Elsewhere(s, a, p);
    }
  }

  lemma ElsewhereKeeps(s: Ring, a: Action, p: nat)
    requires s.slots != [] && ProducerOk(s, p) && Cursors(s) && ConsumerOk(s)
    requires Produce(s, a, p, s.producers[p]).Some?
    requires !a.LoadSeq? && !a.Commit? && (a.Claim? ==> s.enq != s.producers[p].pos || a.spurious)
    ensures var t := Produce(s, a, p, s.producers[p]).value;
            Still(s, t) && ConsumerOk(t) && Cursors(t) && ProducerOk(t, p)
  {
    ElsewhereOwn(s, a, p);
    hide ProducerOk;
  }

  lemma ElsewhereOwn(s: Ring, a: Action, p: nat)
    requires s.slots != [] && ProducerOk(s, p) && Produce(s, a, p, s.producers[p]).Some?
    requires !a.LoadSeq? && !a.Commit? && (a.Claim? ==> s.enq != s.producers[p].pos || a.spurious)
    ensures ProducerOk(Produce(s, a, p, s.producers[p]).value, p)
  {
  }

  lemma Elsewhere(s: Ring, a: Action, p: nat)
    requires Inv(s) && p in s.producers && Produce(s, a, p, s.producers[p]).Some?
    requires !a.LoadSeq? && !a.Commit? && (a.Claim? ==> s.enq != s.producers[p].pos || a.spurious)
    ensures Inv(Produce(s, a, p, s.producers[p]).value)
  {
    var t := Produce(s, a, p, s.producers[p]).value;
    assert ProducerOk(s, p) && Cursors(s) && ConsumerOk(s);
    hide Inv, ProducerOk, ConsumerOk, Cursors;
    ElsewhereKeeps(s, a, p);
    MovesOn(s, t, p, t.producers[p]);
  }

  // ---------------------------------------------- actions of the consumer

  /** The consumer moves on without resolving a ticket. */
  lemma ConsumerMoves(s: Ring, t: Ring)
    requires Inv(s) && t == s.(consumer := t.consumer, waiters := t.waiters) && Cursors(t) && ConsumerOk(t)
    ensures Inv(t)
  {
    StillWindow(s, t);
    forall i: nat | i < |t.resolved| ensures EventOk(t, i) { assert EventOk(s, i); }
    forall q | q in t.producers ensures ProducerOk(t, q) { assert ProducerOk(s, q); }
    forall q, r | q in t.producers && r in t.producers ensures Distinct2(t, q, r) { assert Distinct2(s, q, r); }
    forall u: nat | u < t.enq ensures Accounted(t, u) && u in t.sent { OwnersKept(s, t, u); }
  }

  /** Resolving the ticket at the dequeue cursor, whichever way fits its commit. */
  lemma ResolveInv(s: Ring, ev: Event)
    requires Inv(s) && !s.consumer.Released? && s.deq < s.enq && ev.ticket == s.deq &&
        (ev.Delivered? <==> s.deq in s.committed)
    ensures Inv(s.(slots := Hand(s, s.deq), consumer := Released(s.deq), resolved := s.resolved + [ev]))
  {
    var t := s.(slots := Hand(s, s.deq), consumer := Released(s.deq), resolved := s.resolved + [ev]);
    forall u | Rel(t) <= u < Rel(t) + Capacity(t) ensures SeqAt(t, u) {
      if u < Rel(s) + Capacity(s) {
        assert SeqAt(s, u);
        SlotsApart(s, s.deq, u);
      } else {
        SlotNext(s, s.deq);
      }
    }
    forall i: nat | i < |t.resolved| ensures EventOk(t, i) { if i < |s.resolved| { assert EventOk(s, i); } }
    forall q | q in t.producers ensures ProducerOk(t, q) { assert ProducerOk(s, q); }
    forall q, r | q in t.producers && r in t.producers ensures Distinct2(t, q, r) { assert Distinct2(s, q, r); }
    forall u: nat | u < t.enq ensures Accounted(t, u) && u in t.sent { OwnersKept(s, t, u); }
  }

  lemma AdvanceInv(s: Ring)
    requires Inv(s) && s.consumer.Released?
    ensures Inv(Consume(s, Advance).value)
  {
    var t := Consume(s, Advance).value;
    forall u | Rel(t) <= u < Rel(t) + Capacity(t) ensures SeqAt(t, u) { assert SeqAt(s, u); }
    forall i: nat | i < |t.resolved| ensures EventOk(t, i) { assert EventOk(s, i); }
    forall q | q in t.producers ensures ProducerOk(t, q) { assert ProducerOk(s, q); }
    forall q, r | q in t.producers && r in t.producers ensures Distinct2(t, q, r) { assert Distinct2(s, q, r); }
    forall u: nat | u < t.enq ensures Accounted(t, u) && u in t.sent { OwnersKept(s, t, u); }
  }

  lemma ConsumeInv(s: Ring, a: Action)
    requires Inv(s) && Consume(s, a).Some?
    ensures Inv(Consume(s, a).value)
  {
    var t := Consume(s, a).value;
    if a.Release? {
      ResolveInv(s, Delivered(s.consumer.pos, s.consumer.rec));
    } else if a.Skip? && t.consumer.Released? {
      PendingSeq(s, s.consumer.pos);
      ResolveInv(s, Skipped(s.consumer.pos));
    } else if a.Advance? {
      AdvanceInv(s);
    } else {
      if a.SeeSeq? { PendingSeq(s, s.consumer.pos); }
      ConsumerMoves(s, t);
    }
  }

  /** Every action keeps the invariant. */
  lemma StepInv(s: Ring, a: Action)
    requires Inv(s) && Do(s, a).Some?
    ensures Inv(Do(s, a).value)
  {
    if Actor(a).Some? { ProduceInv(s, a, Actor(a).value); } else { ConsumeInv(s, a); }
  }

  lemma {:induction false} RunInv(states: seq<Ring>, actions: seq<Action>, n: nat)
    requires Run(states, actions) && n < |states| && Capacity(states[0]) >= 2
    ensures Inv(states[n])
    decreases n
  {
    if n == 0 {
      InitialInv(states[0]);
    } else {
      RunInv(states, actions, n - 1);
      assert Do(states[n - 1], actions[n - 1]) == Some(states[n - 1 + 1]);
      StepInv(states[n - 1], actions[n - 1]);
    }
  }

  // ------------------------------------------------------------- theorems

  /** Nothing is ever taken back: cursors and slot sequences grow, and history only gets longer. */
  predicate Grows(s: Ring, t: Ring) {
    && s.resolved <= t.resolved && s.committed <= t.committed && s.poisoned <= t.poisoned && s.enq <= t.enq &&
       s.deq <= t.deq
    && |s.slots| == |t.slots| && forall i :: 0 <= i < |s.slots| ==> s.slots[i].seq_ <= t.slots[i].seq_
  }

  lemma StepGrows(s: Ring, a: Action)
    requires Inv(s) && Do(s, a).Some?
    ensures Grows(s, Do(s, a).value)
  {
    hide Inv, Grows, Produce, Consume;
    CursorBehind(s);
    if Actor(a).Some? { ProduceGrows(s, a, Actor(a).value, s.producers[Actor(a).value]); } else { ConsumeGrows(s, a); }
  }

  lemma ProduceGrows(s: Ring, a: Action, p: nat, pc: Producer)
    requires s.slots != [] && Produce(s, a, p, pc).Some?
    ensures Grows(s, Produce(s, a, p, pc).value)
  {
  }

  lemma ConsumeGrows(s: Ring, a: Action)
    requires Inv(s) && s.slots != [] && Do(s, a).Some? && Do(s, a) == Consume(s, a)
    ensures Grows(s, Consume(s, a).value)
  {
    hide Inv, Do;
    CursorBehind(s);
    if a.Release? || a.Skip? { HandsOn(s, a); }
  }

  lemma CursorBehind(s: Ring)
    requires Inv(s)
    ensures s.slots != [] && (s.consumer.Released? ==> s.deq <= s.consumer.pos)
  {
  }

  /** Handing a slot on to the next lap raises its sequence number. */
  lemma HandsOn(s: Ring, a: Action)
    requires Inv(s) && Do(s, a).Some? && (a.Release? || a.Skip?)
    ensures s.consumer.Taking? || s.consumer.Skipping?
    ensures At(s, s.consumer.pos) < |s.slots| && s.slots[At(s, s.consumer.pos)].seq_ <= s.consumer.pos + Capacity(s)
  {
    PendingSeq(s, s.consumer.pos);
  }

  lemma GrowsSame(s: Ring)
    ensures Grows(s, s)
  {
  }

  lemma GrowsOn(s: Ring, t: Ring, u: Ring)
    requires Grows(s, t) && Grows(t, u)
    ensures Grows(s, u)
  {
  }

  lemma {:induction false} RunGrows(states: seq<Ring>, actions: seq<Action>, i: nat, j: nat)
    requires Run(states, actions) && i <= j < |states| && Capacity(states[0]) >= 2
    ensures Grows(states[i], states[j])
    decreases j - i
  {
    hide Inv, Do, Grows, Initial;
    if i == j {
      GrowsSame(states[i]);
    } else {
      RunGrows(states, actions, i, j - 1);
      RunInv(states, actions, j - 1);
      assert Do(states[j - 1], actions[j - 1]) == Some(states[j - 1 + 1]);
      StepGrows(states[j - 1], actions[j - 1]);
      GrowsOn(states[i], states[j - 1], states[j]);
    }
  }

  /**
   In every interleaving each ticket is resolved at most once and in ticket order, delivered if its
   commit succeeded and skipped otherwise; a failed commit belongs to a skipped ticket; and of every
   ticket ever claimed the owner's commit has succeeded, failed, or is still to come.
   */
  lemma ResolvedInOrder(states: seq<Ring>, actions: seq<Action>, n: nat)
    requires Run(states, actions) && n < |states| && Capacity(states[0]) >= 2
    ensures var s := states[n];
            && (forall i :: 0 <= i < |s.resolved| ==>
               s.resolved[i].ticket == i && (s.resolved[i].Delivered? <==> i in s.committed))
            && (forall t :: t in s.poisoned ==> t < |s.resolved| && s.resolved[t] == Skipped(t) && t !in s.committed)
            && (forall t: nat :: t < s.enq ==> Accounted(s, t))
  {
    var s := states[n];
    RunInv(states, actions, n);
    forall i | 0 <= i < |s.resolved|
        ensures s.resolved[i].ticket == i && (s.resolved[i].Delivered? <==> i in s.committed) { assert EventOk(s, i); }
    forall t | t in s.poisoned
        ensures t < |s.resolved| && s.resolved[t] == Skipped(t) && t !in s.committed { assert EventOk(s, t); }
  }

  /** A verdict is final: once a ticket is skipped, no later commit of it succeeds. */
  lemma SkipIsFinal(states: seq<Ring>, actions: seq<Action>, i: nat, j: nat, t: nat)
    requires Run(states, actions) && i <= j < |states| && Capacity(states[0]) >= 2 && t < |states[i].resolved|
    ensures t < |states[j].resolved| && states[j].resolved[t] == states[i].resolved[t]
    ensures states[i].resolved[t].Skipped? ==> t !in states[j].committed
    ensures states[i].resolved[t].Delivered? ==> t !in states[j].poisoned
  {
    RunGrows(states, actions, i, j);
    RunInv(states, actions, j);
    assert EventOk(states[j], t);
  }

  /** Never more than capacity tickets are outstanding, or one more between a release and its cursor store. */
  lemma Bounded(states: seq<Ring>, actions: seq<Action>, n: nat)
    requires Run(states, actions) && n < |states| && Capacity(states[0]) >= 2
    ensures var s := states[n]; s.deq <= s.enq <= s.deq + Capacity(s) + (if s.consumer.Released? then 1 else 0)
  {
    RunInv(states, actions, n);
  }

  /** A producer is told FULL only when capacity tickets are claimed and not yet released. */
  lemma FullWitness(states: seq<Ring>, actions: seq<Action>, n: nat)
    requires Run(states, actions) && n < |actions| && Capacity(states[0]) >= 2
    requires actions[n].LoadSeq? && states[n + 1].producers[actions[n].p] == Idle
    ensures states[n].enq == |states[n].resolved| + Capacity(states[n])
  {
    var s, p := states[n], actions[n].p;
    RunInv(states, actions, n);
    assert Do(states[n], actions[n]) == Some(states[n + 1]);
    assert ProducerOk(s, p);
    var pos := s.producers[p].pos;
    if pos < Rel(s) { PastSeq(s, pos); } else if pos < Rel(s) + Capacity(s) { PendingSeq(s, pos); }
  }
}
