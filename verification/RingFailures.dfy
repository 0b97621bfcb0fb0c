/**
 What the ring does not promise, shown by runs of it: a ring of one slot overwrites a committed
 record; in a ring of any size one write by a producer whose ticket has been skipped is enough to
 deliver a record that nobody sent; and a payload that was not copied changes under its reader.
 */
module RingFailures {
  import opened Common
  import opened MpRing
  import opened RingSafety
  import RingLiveness

  /** `t` is reached from `s` by the actions, `late` of which are late writes. */
  predicate Goes(s: Ring, actions: seq<Action>, late: nat, t: Ring)
    decreases |actions|
  {
    if actions == [] then s == t && late == 0
    else
      var w := if RingLiveness.LateWrite(s, actions[0]) then 1 else 0;
      s.slots != [] && Do(s, actions[0]).Some? && late >= w && Goes(Do(s, actions[0]).value, actions[1..], late - w, t)
  }

  ghost predicate Leads(s: Ring, late: nat, t: Ring) { exists actions :: Goes(s, actions, late, t) }

  lemma {:induction false} GoesOn(s: Ring, xs: seq<Action>, m: nat, t: Ring, ys: seq<Action>, n: nat, u: Ring)
    requires Goes(s, xs, m, t) && Goes(t, ys, n, u)
    ensures Goes(s, xs + ys, m + n, u)
    decreases |xs|
  {
    hide Do, RingLiveness.LateWrite;
    if xs == [] {
      assert xs + ys == ys;
    } else {
      assert (xs + ys)[0] == xs[0] && (xs + ys)[1..] == xs[1..] + ys;
      var w := if RingLiveness.LateWrite(s, xs[0]) then 1 else 0;
      GoesOn(Do(s, xs[0]).value, xs[1..], m - w, t, ys, n, u);
    }
  }

  lemma LeadsOn(s: Ring, m: nat, t: Ring, n: nat, u: Ring)
    requires Leads(s, m, t) && Leads(t, n, u)
    ensures Leads(s, m + n, u)
  {
    hide Goes;
    var xs :| Goes(s, xs, m, t);
    var ys :| Goes(t, ys, n, u);
    GoesOn(s, xs, m, t, ys, n, u);
  }

  lemma One(s: Ring, a: Action, t: Ring)
    requires s.slots != [] && Do(s, a) == Some(t)
    ensures Leads(s, if RingLiveness.LateWrite(s, a) then 1 else 0, t)
  {
    var w := if RingLiveness.LateWrite(s, a) then 1 else 0;
    assert [a][1..] == [];
    assert Goes(s, [a], w, t);
  }

  lemma Stay(s: Ring)
    ensures Leads(s, 0, s)
  {
    assert Goes(s, [], 0, s);
  }

  /** One more action after those so far. */
  lemma Then(s: Ring, m: nat, t: Ring, a: Action, u: Ring)
    requires Leads(s, m, t) && t.slots != [] && Do(t, a) == Some(u) && !RingLiveness.LateWrite(t, a)
    ensures Leads(s, m, u)
  {
    hide Leads, Do, RingLiveness.LateWrite;
    One(t, a, u);
    LeadsOn(s, m, t, 0, u);
  }

  // ------------------------------------------------------- rounds of the ring

  function Wrote(s: Ring, p: nat, d: Payload, pos: nat): seq<Slot>
    requires s.slots != []
  {
    s.slots[At(s, pos) := Slot(s.slots[At(s, pos)].seq_, pos, p, d)]
  }

  function Issued(s: Ring, p: nat, d: Payload): Ring {
    Go(s, p, Claimed(d, s.enq)).(enq := s.enq + 1, sent := s.sent[s.enq := Rec(s.enq, p, d)])
  }

  /** An idle producer claims the next ticket. */
  lemma Claims(s: Ring, p: nat, d: Payload)
    requires s.slots != [] && p in s.producers && s.producers[p] == Idle && s.slots[At(s, s.enq)].seq_ == s.enq
    ensures Leads(s, 0, Issued(s, p, d))
  {
    hide Leads;
    var s1, s2, s3 := Go(s, p, Claiming(d)), Go(s, p, Loaded(d, s.enq)), Go(s, p, Free(d, s.enq));
    var t := Issued(s, p, d);
    Stay(s);
    Then(s, 0, s, Begin(p, d), s1);
    assert Go(s1, p, Loaded(d, s.enq)) == s2;
    Then(s, 0, s1, LoadEnqueue(p), s2);
    assert Go(s2, p, Free(d, s.enq)) == s3;
    Then(s, 0, s2, LoadSeq(p), s3);
    assert Go(s3, p, Claimed(d, s.enq)) == Go(s, p, Claimed(d, s.enq));
    Then(s, 0, s3, Claim(p, false), t);
  }

  /** A producer whose ticket is not resolved writes its record. */
  lemma Writes(s: Ring, p: nat, d: Payload, pos: nat)
    requires s.slots != [] && p in s.producers && s.producers[p] == Claimed(d, pos) && pos >= Rel(s)
    ensures Leads(s, 0, Go(s, p, Filled(d, pos)).(slots := Wrote(s, p, d, pos)))
  {
    hide Leads;
    var i := At(s, pos);
    var s1 := Go(s, p, Titled(d, pos)).(slots := s.slots[i := s.slots[i].(sequence := pos, producer := p)]);
    var t := Go(s, p, Filled(d, pos)).(slots := Wrote(s, p, d, pos));
    Stay(s);
    Then(s, 0, s, Title(p), s1);
    assert Go(s1, p, Filled(d, pos)).producers == t.producers && s1.slots[i := s1.slots[i].(payload := d)] == t.slots;
    Then(s, 0, s1, Fill(p), t);
  }

  function Offered(s: Ring, p: nat, pos: nat): Ring
    requires s.slots != []
  {
    Go(s, p, Idle).(slots := s.slots[At(s, pos) := s.slots[At(s, pos)].(seq_ := pos + 1)], committed := s.committed +
        {pos})
  }

  /** A commit with nobody waiting. */
  lemma Commits(s: Ring, p: nat, d: Payload, pos: nat)
    requires s.slots != [] && p in s.producers && s.producers[p] == Filled(d, pos) && s.slots[At(s, pos)].seq_ == pos &&
                                   s.waiters == 0
    ensures Leads(s, 0, Offered(s, p, pos))
  {
    hide Leads;
    var t := Offered(s, p, pos);
    var s1 := Go(t, p, Committed(pos));
    assert s1.producers == Go(s, p, Committed(pos)).producers;
    Stay(s);
    Then(s, 0, s, Commit(p), s1);
    assert Go(s1, p, Idle).producers == t.producers;
    Then(s, 0, s1, LoadWaiters(p), t);
  }

  function Passed(s: Ring, e: Event): Ring
    requires s.slots != []
  {
    s.(slots := Hand(s, s.deq), deq := s.deq + 1, resolved := s.resolved + [e])
  }

  /** The consumer reads a committed ticket. */
  lemma Reads(s: Ring)
    requires s.slots != [] && s.consumer == Resting && s.slots[At(s, s.deq)].seq_ == s.deq + 1
    ensures Leads(s, 0, s.(consumer := Taking(s.deq, RingLiveness.Content(s, s.deq))))
  {
    hide Leads, Produce;
    var pos, c := s.deq, RingLiveness.Content(s, s.deq);
    Stay(s);
    Then(s, 0, s, LoadDequeue, s.(consumer := Polling(pos)));
    Then(s, 0, s.(consumer := Polling(pos)), SeeSeq, s.(consumer := Ready(pos)));
    Then(s, 0, s.(consumer := Ready(pos)), ReadTitle, s.(consumer := Reading(pos, c.sequence, c.producer)));
    Then(s, 0, s.(consumer := Reading(pos, c.sequence, c.producer)), ReadPayload, s.(consumer := Taking(pos, c)));
  }

  /** The consumer delivers a committed ticket. */
  lemma Delivers(s: Ring)
    requires s.slots != [] && s.consumer == Resting && s.slots[At(s, s.deq)].seq_ == s.deq + 1
    ensures Leads(s, 0, Passed(s, Delivered(s.deq, RingLiveness.Content(s, s.deq))))
  {
    hide Leads, Produce;
    Reads(s);
    var pos, c := s.deq, RingLiveness.Content(s, s.deq);
    var t := Passed(s, Delivered(pos, c));
    Then(s, 0, s.(consumer := Taking(pos, c)), Release, t.(deq := pos, consumer := Released(pos)));
    Then(s, 0, t.(deq := pos, consumer := Released(pos)), Advance, t);
  }

  /** The consumer finds a claimed ticket overdue. */
  lemma Despairs(s: Ring)
    requires s.slots != [] && s.consumer == Resting && s.slots[At(s, s.deq)].seq_ == s.deq < s.enq
    ensures Leads(s, 0, s.(consumer := Skipping(s.deq)))
  {
    hide Leads, Produce;
    var pos := s.deq;
    Stay(s);
    Then(s, 0, s, LoadDequeue, s.(consumer := Polling(pos)));
    Then(s, 0, s.(consumer := Polling(pos)), SeeSeq, s.(consumer := Stalled(pos)));
    Then(s, 0, s.(consumer := Stalled(pos)), SeeEnqueue(true), s.(consumer := Skipping(pos)));
  }

  /** The consumer skips it. */
  lemma Skips(s: Ring)
    requires s.slots != [] && s.consumer == Resting && s.slots[At(s, s.deq)].seq_ == s.deq < s.enq
    ensures Leads(s, 0, Passed(s, Skipped(s.deq)))
  {
    hide Leads, Produce;
    Despairs(s);
    var pos := s.deq;
    var t := Passed(s, Skipped(pos));
    Then(s, 0, s.(consumer := Skipping(pos)), Skip, t.(deq := pos, consumer := Released(pos)));
    Then(s, 0, t.(deq := pos, consumer := Released(pos)), Advance, t);
  }

  // ----------------------------------------------------------- the late write

  /** Tickets before `k` are resolved and none is outstanding, while producer 0 is at `pc`. */
  ghost predicate Quiet(s: Ring, n: nat, k: nat, pc: Producer) {
    && |s.slots| == n && k <= n && s.enq == s.deq == |s.resolved| == k && s.waiters == 0 && s.consumer == Resting
    && 0 in s.producers && 1 in s.producers && s.producers[0] == pc && s.producers[1] == Idle
    && forall i :: 0 <= i < n ==> s.slots[i].seq_ == if i < k then i + n else i
  }

  /** Ticket `k`, on slot `k`, is published by producer 1 and delivered. */
  lemma Round(s: Ring, n: nat, k: nat, pc: Producer, d: Payload) returns (t: Ring)
    requires Quiet(s, n, k, pc) && k < n
    ensures Leads(s, 0, t) && Quiet(t, n, k + 1, pc) && t.resolved == s.resolved + [Delivered(k, Rec(k, 1, d))]
  {
    hide Leads;
    assert At(s, k) == k;
    Claims(s, 1, d);
    var s1 := Issued(s, 1, d);
    Writes(s1, 1, d, k);
    var s2 := Go(s1, 1, Filled(d, k)).(slots := Wrote(s1, 1, d, k));
    LeadsOn(s, 0, s1, 0, s2);
    Commits(s2, 1, d, k);
    var s3 := Offered(s2, 1, k);
    LeadsOn(s, 0, s2, 0, s3);
    Delivers(s3);
    t := Passed(s3, Delivered(k, RingLiveness.Content(s3, k)));
    LeadsOn(s, 0, s3, 0, t);
  }

  lemma {:induction false} Rounds(s: Ring, n: nat, k: nat, pc: Producer) returns (t: Ring)
    requires Quiet(s, n, k, pc)
    ensures Leads(s, 0, t) && Quiet(t, n, n, pc) && s.resolved <= t.resolved
    decreases n - k
  {
    hide Leads, Quiet;
    if k == n {
      t := s;
      Stay(s);
    } else {
      assert k < n by { QuietBound(s, n, k, pc); }
      var u := Round(s, n, k, pc, []);
      t := Rounds(u, n, k + 1, pc);
      LeadsOn(s, 0, u, 0, t);
    }
  }

  lemma QuietBound(s: Ring, n: nat, k: nat, pc: Producer)
    requires Quiet(s, n, k, pc)
    ensures k <= n
  {
  }

  /** Producer 0 claims ticket 0 and stops before its payload; the consumer skips the ticket. */
  lemma Stuck(n: nat, d: Payload) returns (s: Ring, t: Ring)
    requires n > 0
    ensures Initial(s) && Capacity(s) == n && Leads(s, 0, t) && Quiet(t, n, 1, Titled(d, 0))
  {
    s := Ring(NewSlots(n), 0, 0, 0, 0, map[0 := Idle, 1 := Idle], Resting, {}, {}, [], map[]);
    hide Leads;
    assert At(s, 0) == 0;
    Claims(s, 0, d);
    var s1 := Issued(s, 0, d);
    var s2 := Go(s1, 0, Titled(d, 0)).(slots := s1.slots[0 := s1.slots[0].(sequence := 0, producer := 0)]);
    Then(s, 0, s1, Title(0), s2);
    Skips(s2);
    t := Passed(s2, Skipped(0));
    LeadsOn(s, 0, s2, 0, t);
  }

  /** A lap later producer 1 has filled the same slot when producer 0 writes its payload into it. */
  lemma Overwritten(s: Ring, n: nat, d: Payload, e: Payload) returns (t: Ring)
    requires Quiet(s, n, n, Titled(d, 0)) && n > 0
    ensures Leads(s, 1, t) &&
        n in t.sent && t.sent[n] == Rec(n, 1, e) && t.resolved == s.resolved + [Delivered(n, Rec(n, 1, d))]
  {
    hide Leads;
    assert At(s, n) == 0 && At(s, 0) == 0;
    Claims(s, 1, e);
    var s1 := Issued(s, 1, e);
    Writes(s1, 1, e, n);
    var s2 := Go(s1, 1, Filled(e, n)).(slots := Wrote(s1, 1, e, n));
    LeadsOn(s, 0, s1, 0, s2);
    var s3 := Go(s2, 0, Filled(d, 0)).(slots := s2.slots[0 := s2.slots[0].(payload := d)]);
    One(s2, Fill(0), s3);
    LeadsOn(s, 0, s2, 1, s3);
    Commits(s3, 1, e, n);
    var s4 := Offered(s3, 1, n);
    LeadsOn(s, 1, s3, 0, s4);
    Delivers(s4);
    t := Passed(s4, Delivered(n, RingLiveness.Content(s4, n)));
    LeadsOn(s, 1, s4, 0, t);
  }

  /** In a ring of any size a single late write suffices to deliver another payload than the one sent. */
  lemma OneLateWrite(n: nat, d: Payload, e: Payload)
    requires n > 0
    ensures exists s, t ::
              && Initial(s) && Capacity(s) == n && Leads(s, 1, t)
              && |t.resolved| == n + 1 && t.resolved[n] == Delivered(n, Rec(n, 1, d)) &&
                 n in t.sent && t.sent[n] == Rec(n, 1, e)
  {
    hide Leads, Initial;
    var s, a := Stuck(n, d);
    var b := Rounds(a, n, 1, Titled(d, 0));
    LeadsOn(s, 0, a, 0, b);
    var t := Overwritten(b, n, d, e);
    LeadsOn(s, 0, b, 1, t);
  }

  // -------------------------------------------------------- a borrowed payload

  /**
   In a ring of any size, without any late write: the slot handed out for ticket 0 by a poll that does
   not copy shows another payload as soon as the ticket of the next lap has been filled.
   */
  lemma BorrowedChanges(n: nat, d: Payload, e: Payload)
    requires n > 0
    ensures exists s, t ::
              && Initial(s) && Capacity(s) == n && Leads(s, 0, t) && |t.resolved| == n && t.slots != []
              && t.resolved[0] == Delivered(0, Rec(0, 1, d)) && RingLiveness.Content(t, 0) == Rec(n, 1, e)
  {
    var s := Ring(NewSlots(n), 0, 0, 0, 0, map[0 := Idle, 1 := Idle], Resting, {}, {}, [], map[]);
    hide Leads;
    assert Initial(s) && Quiet(s, n, 0, Idle);
    hide Initial, Quiet;
    var a := Round(s, n, 0, Idle, d);
    var b := Rounds(a, n, 1, Idle);
    LeadsOn(s, 0, a, 0, b);
    var t := NextLap(b, n, e);
    LeadsOn(s, 0, b, 0, t);
    assert t.resolved[0] == a.resolved[0];
  }

  /** A lap later producer 1 has filled slot 0 again. */
  lemma NextLap(s: Ring, n: nat, e: Payload) returns (t: Ring)
    requires Quiet(s, n, n, Idle) && n > 0
    ensures Leads(s, 0, t) && t.resolved == s.resolved && |t.resolved| == n && t.slots != []
    ensures RingLiveness.Content(t, 0) == Rec(n, 1, e)
  {
    hide Leads;
    assert At(s, n) == 0 == At(s, 0);
    Claims(s, 1, e);
    var s1 := Issued(s, 1, e);
    Writes(s1, 1, e, n);
    t := Go(s1, 1, Filled(e, n)).(slots := Wrote(s1, 1, e, n));
    LeadsOn(s, 0, s1, 0, t);
  }

  // ------------------------------------------------------- a ring of one slot

  /**
   With a single slot "committed" and "free for the next ticket" are the same seq value: without any
   late write a second ticket is claimed before the first is delivered, and the record delivered for
   ticket 0 is the one sent under ticket 1.
   */
  lemma OneSlotFails(d: Payload, e: Payload)
    ensures exists s, t ::
              && Initial(s) && Capacity(s) == 1 && Leads(s, 0, t) && t.enq == t.deq + 1 &&
                 0 in t.committed && 1 !in t.committed
              && t.resolved == [Delivered(0, Rec(1, 1, e))] && 0 in t.sent && t.sent[0] == Rec(0, 0, d)
  {
    hide Leads;
    var s := Ring(NewSlots(1), 0, 0, 0, 0, map[0 := Idle, 1 := Idle], Resting, {}, {}, [], map[]);
    Claims(s, 0, d);
    var s1 := Issued(s, 0, d);
    Writes(s1, 0, d, 0);
    var s2 := Go(s1, 0, Filled(d, 0)).(slots := Wrote(s1, 0, d, 0));
    LeadsOn(s, 0, s1, 0, s2);
    Commits(s2, 0, d, 0);
    var s3 := Offered(s2, 0, 0);
    LeadsOn(s, 0, s2, 0, s3);
    SecondTaken(s3, e);
    var t := Overtaken(s3, e);
    LeadsOn(s, 0, s3, 0, t);
  }

  function Overtaken(s: Ring, e: Payload): Ring
    requires |s.slots| == 1
  {
    var s1 := Issued(s, 1, e);
    Passed(Go(s1, 1, Filled(e, 1)).(slots := Wrote(s1, 1, e, 1)), Delivered(0, Rec(1, 1, e)))
  }

  /** The second producer takes "committed" for "free" and overwrites the record before it is read. */
  lemma SecondTaken(s: Ring, e: Payload)
    requires |s.slots| == 1 && s.slots[0].seq_ == s.enq == 1 && s.deq == 0 && s.resolved == [] && s.consumer == Resting
    requires 1 in s.producers && s.producers[1] == Idle
    ensures Leads(s, 0, Overtaken(s, e))
  {
    hide Leads;
    Claims(s, 1, e);
    var s1 := Issued(s, 1, e);
    Writes(s1, 1, e, 1);
    var s2 := Go(s1, 1, Filled(e, 1)).(slots := Wrote(s1, 1, e, 1));
    LeadsOn(s, 0, s1, 0, s2);
    Delivers(s2);
    LeadsOn(s, 0, s2, 0, Overtaken(s, e));
  }
}
