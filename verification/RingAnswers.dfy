/**
 What producers and consumer of the multi-producer ring are told, exactly, in every reachable state,
 and what a publication, a poll and a wait come to when nobody else moves.
 */
module RingAnswers {
  import opened Common
  import opened MpRing
  import opened RingSafety

  // -------------------------------------------------------------- one answer

  /** What a producer learns from the seq of the ticket it has loaded. */
  lemma SeqTells(s: Ring, pos: nat)
    requires Inv(s) && pos <= s.enq
    ensures var q := s.slots[At(s, pos)].seq_;
            && (q == pos <==> Rel(s) <= pos < Rel(s) + Capacity(s) && pos !in s.committed)
            && (q < pos <==> pos == Rel(s) + Capacity(s))
  {
    var n := Capacity(s);
    if pos < Rel(s) {
      PastSeq(s, pos);
    } else if pos < Rel(s) + n {
      PendingSeq(s, pos);
    } else {
      PendingSeq(s, Rel(s));
      SlotNext(s, Rel(s));
    }
  }

  /**
   A producer is told FULL if and only if capacity tickets lie between the one it loaded and the first
   that is not released; it may claim if and only if its ticket is in the window and not committed; and
   otherwise it loads the cursor again.
   */
  lemma ProducerTold(states: seq<Ring>, actions: seq<Action>, n: nat, p: nat)
    requires Run(states, actions) && n < |states| && Capacity(states[0]) >= 2
    requires p in states[n].producers && states[n].producers[p].Loaded?
    ensures var s, pc := states[n], states[n].producers[p];
            Do(s, LoadSeq(p)) ==
              Some(Go(s, p, if pc.pos == |s.resolved| + Capacity(s) then Idle
                            else if |s.resolved| <= pc.pos && pc.pos !in s.committed then Free(pc.payload, pc.pos)
                            else Claiming(pc.payload)))
  {
    var s := states[n];
    RunInv(states, actions, n);
    assert ProducerOk(s, p) && Cursors(s);
    SeqTells(s, s.producers[p].pos);
  }

  /** The consumer goes on to read if and only if its ticket is committed. */
  lemma ConsumerTold(states: seq<Ring>, actions: seq<Action>, n: nat)
    requires Run(states, actions) && n < |states| && Capacity(states[0]) >= 2 && states[n].consumer.Polling?
    ensures var s, pos := states[n], states[n].deq;
            Do(s, SeeSeq) == Some(s.(consumer := if pos in s.committed then Ready(pos) else Stalled(pos)))
  {
    var s := states[n];
    RunInv(states, actions, n);
    PendingSeq(s, s.deq);
  }

  /** The slot of a pending ticket tells whether it is committed; one not claimed yet is not. */
  lemma SlotsTell(s: Ring, pos: nat)
    requires Inv(s) && (pos == s.enq < Rel(s) + Capacity(s) || (s.consumer == Resting && pos == s.deq))
    ensures s.slots != [] && s.slots[At(s, pos)].seq_ == (if pos in s.committed then pos + 1 else pos)
    ensures pos >= s.enq ==> pos !in s.committed
  {
    assert History(s) && Cursors(s);
    PendingSeq(s, pos);
  }

  // ------------------------------------------------------------ nobody else moves

  function After(s: Ring, actions: seq<Action>): Option<Ring>
    decreases |actions|
  {
    if actions == [] then Some(s)
    else if s.slots == [] || Do(s, actions[0]).None? then None
    else After(Do(s, actions[0]).value, actions[1..])
  }

  lemma One(s: Ring, a: Action, t: Ring)
    requires s.slots != [] && Do(s, a) == Some(t)
    ensures After(s, [a]) == Some(t)
  {
    hide Do;
    assert [a][1..] == [];
  }

  lemma {:induction false} Both(s: Ring, a: seq<Action>, t: Ring, b: seq<Action>, u: Ring)
    requires After(s, a) == Some(t) && After(t, b) == Some(u)
    ensures After(s, a + b) == Some(u)
    decreases |a|
  {
    hide Do;
    if a == [] {
      assert a + b == b;
    } else {
      assert (a + b)[0] == a[0] && (a + b)[1..] == a[1..] + b;
      Both(Do(s, a[0]).value, a[1..], t, b, u);
    }
  }

  lemma Two(s: Ring, a: Action, t: Ring, b: Action, u: Ring)
    requires s.slots != [] && Do(s, a) == Some(t) && t.slots != [] && Do(t, b) == Some(u)
    ensures After(s, [a, b]) == Some(u)
  {
    hide Do;
    One(s, a, t);
    One(t, b, u);
    Both(s, [a], t, [b], u);
    assert [a] + [b] == [a, b];
  }

  lemma Three(s: Ring, a: Action, t: Ring, b: Action, u: Ring, c: Action, v: Ring)
    requires s.slots != [] && Do(s, a) == Some(t) && t.slots != [] && Do(t, b) == Some(u)
    requires u.slots != [] && Do(u, c) == Some(v)
    ensures After(s, [a, b, c]) == Some(v)
  {
    hide Do;
    Two(s, a, t, b, u);
    One(u, c, v);
    Both(s, [a, b], u, [c], v);
    assert [a, b] + [c] == [a, b, c];
  }

  // ------------------------------------------------------------- publishing

  /** A producer on the way to its ticket. */
  lemma Seeks(s: Ring, p: nat, d: Payload)
    requires s.slots != [] && p in s.producers && s.producers[p] == Idle && s.slots[At(s, s.enq)].seq_ == s.enq
    ensures After(s, [Begin(p, d), LoadEnqueue(p), LoadSeq(p)]) == Some(Go(s, p, Free(d, s.enq)))
  {
    var t, u, v := Go(s, p, Claiming(d)), Go(s, p, Loaded(d, s.enq)), Go(s, p, Free(d, s.enq));
    GoAgain(s, p, Claiming(d), Loaded(d, s.enq));
    GoAgain(s, p, Loaded(d, s.enq), Free(d, s.enq));
    hide Go;
    Begins(s, p, d);
    Three(s, Begin(p, d), t, LoadEnqueue(p), u, LoadSeq(p), v);
  }

  lemma GoAgain(s: Ring, p: nat, a: Producer, b: Producer)
    ensures Go(Go(s, p, a), p, b) == Go(s, p, b) && Go(s, p, a).slots == s.slots && Go(s, p, a).enq == s.enq
    ensures p in Go(s, p, a).producers && Go(s, p, a).producers[p] == a
  {
    assert s.producers[p := a][p := b] == s.producers[p := b];
  }

  lemma Begins(s: Ring, p: nat, d: Payload)
    requires s.slots != [] && p in s.producers && s.producers[p] == Idle && s.slots[At(s, s.enq)].seq_ == s.enq
    ensures Do(s, Begin(p, d)) == Some(Go(s, p, Claiming(d)))
    ensures Do(Go(s, p, Claiming(d)), LoadEnqueue(p)) == Some(Go(s, p, Loaded(d, s.enq)))
    ensures Do(Go(s, p, Loaded(d, s.enq)), LoadSeq(p)) == Some(Go(s, p, Free(d, s.enq)))
  {
    GoAgain(s, p, Claiming(d), Loaded(d, s.enq));
    GoAgain(s, p, Loaded(d, s.enq), Free(d, s.enq));
  }

  function Owning(s: Ring, p: nat, d: Payload): Ring {
    Go(s, p, Claimed(d, s.enq)).(enq := s.enq + 1, sent := s.sent[s.enq := Rec(s.enq, p, d)])
  }

  lemma Claims(s: Ring, p: nat, d: Payload)
    requires s.slots != [] && p in s.producers
    ensures After(Go(s, p, Free(d, s.enq)), [Claim(p, false)]) == Some(Owning(s, p, d))
  {
    hide After;
    GoAgain(s, p, Free(d, s.enq), Claimed(d, s.enq));
    assert Do(Go(s, p, Free(d, s.enq)), Claim(p, false)) == Some(Owning(s, p, d));
    hide Do;
    One(Go(s, p, Free(d, s.enq)), Claim(p, false), Owning(s, p, d));
  }

  /** The owner of a ticket writes its slot and commits it. */
  lemma Writes(s: Ring, p: nat, d: Payload, pos: nat)
    requires s.slots != [] && p in s.producers && s.producers[p] == Claimed(d, pos) && s.slots[At(s, pos)].seq_ == pos
    ensures After(s, [Title(p), Fill(p), Commit(p)]) ==
            Some(Go(s, p, Committed(pos)).(slots := s.slots[At(s, pos) := Slot(pos + 1, pos, p, d)],
                committed := s.committed + {pos}))
  {
    hide After;
    var i := At(s, pos);
    var t := Go(s, p, Titled(d, pos)).(slots := s.slots[i := s.slots[i].(sequence := pos, producer := p)]);
    var u := Go(t, p, Filled(d, pos)).(slots := t.slots[i := t.slots[i].(payload := d)]);
    var v := Go(u, p, Committed(pos)).(slots := u.slots[i := u.slots[i].(seq_ := pos + 1)],
        committed := s.committed + {pos});
    assert Do(s, Title(p)) == Some(t);
    assert Do(t, Fill(p)) == Some(u);
    assert Do(u, Commit(p)) == Some(v);
    hide Do;
    Three(s, Title(p), t, Fill(p), u, Commit(p), v);
    assert v.slots == s.slots[i := Slot(pos + 1, pos, p, d)];
    assert v.producers == s.producers[p := Committed(pos)];
  }

  function Publishing(p: nat, d: Payload): seq<Action> {
    [Begin(p, d), LoadEnqueue(p), LoadSeq(p)] + [Claim(p, false)] + [Title(p), Fill(p), Commit(p)]
  }

  /** An idle producer in a ring that is not full publishes under the next ticket. */
  lemma PublishGoes(s: Ring, p: nat, d: Payload)
    requires Inv(s) && p in s.producers && s.producers[p] == Idle && s.enq < Rel(s) + Capacity(s)
    ensures After(s, Publishing(p, d)) ==
            Some(Go(s, p, Committed(s.enq)).(slots := s.slots[At(s, s.enq) := Slot(s.enq + 1, s.enq, p, d)],
                enq := s.enq + 1, committed := s.committed + {s.enq}, sent := s.sent[s.enq := Rec(s.enq, p, d)]))
  {
    hide Inv, After, Do;
    SlotsTell(s, s.enq);
    Seeks(s, p, d);
    Claims(s, p, d);
    var t := Owning(s, p, d);
    GoAgain(s, p, Claimed(d, s.enq), Committed(s.enq));
    Writes(t, p, d, s.enq);
    var u := Go(t, p, Committed(s.enq)).(slots := s.slots[At(s, s.enq) := Slot(s.enq + 1, s.enq, p, d)],
        committed := s.committed + {s.enq});
    Both(s, [Begin(p, d), LoadEnqueue(p), LoadSeq(p)], Go(s, p, Free(d, s.enq)), [Claim(p, false)], t);
    Both(s, [Begin(p, d), LoadEnqueue(p), LoadSeq(p)] + [Claim(p, false)], t, [Title(p), Fill(p), Commit(p)], u);
    assert u.producers == s.producers[p := Committed(s.enq)];
  }

  // ---------------------------------------------------------------- consuming

  /** What the slot of a ticket holds. */
  function Found(s: Ring, pos: nat): Rec
    requires s.slots != []
  {
    var slot := s.slots[At(s, pos)];
    Rec(slot.sequence, slot.producer, slot.payload)
  }

  lemma Looks(s: Ring)
    requires s.slots != [] && s.consumer == Resting && s.slots[At(s, s.deq)].seq_ in {s.deq, s.deq + 1}
    ensures After(s, [LoadDequeue, SeeSeq]) ==
        Some(s.(consumer := if s.slots[At(s, s.deq)].seq_ == s.deq then Stalled(s.deq) else Ready(s.deq)))
  {
    hide After;
    var t := s.(consumer := Polling(s.deq));
    var u := s.(consumer := if s.slots[At(s, s.deq)].seq_ == s.deq then Stalled(s.deq) else Ready(s.deq));
    assert Do(s, LoadDequeue) == Some(t);
    assert Do(t, SeeSeq) == Some(u);
    hide Do;
    Two(s, LoadDequeue, t, SeeSeq, u);
  }

  lemma Copies(s: Ring, pos: nat)
    requires s.slots != [] && s.consumer == Ready(pos)
    ensures After(s, [ReadTitle, ReadPayload]) == Some(s.(consumer := Taking(pos, Found(s, pos))))
  {
    hide After;
    var slot := s.slots[At(s, pos)];
    var t, u := s.(consumer := Reading(pos, slot.sequence, slot.producer)), s.(consumer := Taking(pos, Found(s, pos)));
    assert Do(s, ReadTitle) == Some(t);
    assert Do(t, ReadPayload) == Some(u);
    hide Do;
    Two(s, ReadTitle, t, ReadPayload, u);
  }

  lemma Releases(s: Ring, pos: nat, rec: Rec)
    requires s.slots != [] && s.consumer == Taking(pos, rec)
    ensures After(s, [Release, Advance]) ==
        Some(s.(slots := Hand(s, pos), deq := pos + 1, consumer := Resting, resolved := s.resolved +
            [Delivered(pos, rec)]))
  {
    hide After;
    var t := s.(slots := Hand(s, pos), consumer := Released(pos), resolved := s.resolved + [Delivered(pos, rec)]);
    var u := t.(deq := pos + 1, consumer := Resting);
    assert Do(s, Release) == Some(t);
    assert Do(t, Advance) == Some(u);
    hide Do;
    Two(s, Release, t, Advance, u);
  }

  /** A resting consumer whose ticket is committed delivers it and hands the slot to the next lap. */
  lemma PollDelivers(s: Ring)
    requires Inv(s) && s.consumer == Resting && s.deq in s.committed
    ensures After(s, [LoadDequeue, SeeSeq] + [ReadTitle, ReadPayload] + [Release, Advance]) ==
            Some(s.(slots := Hand(s, s.deq), deq := s.deq + 1,
                resolved := s.resolved + [Delivered(s.deq, Found(s, s.deq))]))
  {
    var pos := s.deq;
    hide Inv, After, Do;
    SlotsTell(s, pos);
    var t, u := s.(consumer := Ready(pos)), s.(consumer := Taking(pos, Found(s, pos)));
    Looks(s);
    Copies(t, pos);
    Releases(u, pos, Found(s, pos));
    Both(s, [LoadDequeue, SeeSeq], t, [ReadTitle, ReadPayload], u);
    Both(s, [LoadDequeue, SeeSeq] + [ReadTitle, ReadPayload], u, [Release, Advance], s.(slots := Hand(s, pos),
        deq := pos + 1, resolved := s.resolved + [Delivered(pos, Found(s, pos))]));
  }

  lemma GivesUp(s: Ring, pos: nat)
    requires s.slots != [] && s.consumer == Stalled(pos) && pos < s.enq && s.slots[At(s, pos)].seq_ == pos
    ensures After(s, [SeeEnqueue(true), Skip, Advance]) ==
        Some(s.(slots := Hand(s, pos), deq := pos + 1, consumer := Resting, resolved := s.resolved + [Skipped(pos)]))
  {
    hide After;
    var t := s.(consumer := Skipping(pos));
    var u := s.(slots := Hand(s, pos), consumer := Released(pos), resolved := s.resolved + [Skipped(pos)]);
    var v := u.(deq := pos + 1, consumer := Resting);
    assert Do(s, SeeEnqueue(true)) == Some(t);
    assert Do(t, Skip) == Some(u);
    assert Do(u, Advance) == Some(v);
    hide Do;
    Three(s, SeeEnqueue(true), t, Skip, u, Advance, v);
  }

  lemma Retires(s: Ring, pos: nat, overdue: bool)
    requires s.slots != [] && s.consumer == Stalled(pos) && (s.enq <= pos || !overdue)
    ensures After(s, [SeeEnqueue(overdue)]) == Some(s.(consumer := Resting))
  {
    hide After;
    assert Do(s, SeeEnqueue(overdue)) == Some(s.(consumer := Resting));
    hide Do;
    One(s, SeeEnqueue(overdue), s.(consumer := Resting));
  }

  /** A ticket claimed and not committed is skipped once it is overdue, and not before. */
  lemma PollSkips(s: Ring)
    requires Inv(s) && s.consumer == Resting && s.deq < s.enq && s.deq !in s.committed
    ensures After(s, [LoadDequeue, SeeSeq] + [SeeEnqueue(true), Skip, Advance]) ==
            Some(s.(slots := Hand(s, s.deq), deq := s.deq + 1, resolved := s.resolved + [Skipped(s.deq)]))
    ensures After(s, [LoadDequeue, SeeSeq] + [SeeEnqueue(false)]) == Some(s)
  {
    var pos := s.deq;
    hide Inv, After, Do;
    SlotsTell(s, pos);
    var t := s.(consumer := Stalled(pos));
    Looks(s);
    GivesUp(t, pos);
    Retires(t, pos, false);
    Both(s, [LoadDequeue, SeeSeq], t, [SeeEnqueue(true), Skip, Advance],
        s.(slots := Hand(s, pos), deq := pos + 1, resolved := s.resolved + [Skipped(pos)]));
    Both(s, [LoadDequeue, SeeSeq], t, [SeeEnqueue(false)], s);
  }

  lemma Enlists(s: Ring)
    requires s.slots != [] && s.consumer == Resting && s.deq == s.enq
    ensures After(s, [BeginWait, LoadNotify, Enlist]) ==
        Some(s.(waiters := s.waiters + 1, consumer := Rechecking(s.notify)))
  {
    hide After, Do;
    var t, u := s.(consumer := Expecting), s.(consumer := Enlisting(s.notify));
    var v := s.(waiters := s.waiters + 1, consumer := Rechecking(s.notify));
    Waits(s);
    Three(s, BeginWait, t, LoadNotify, u, Enlist, v);
  }

  lemma Waits(s: Ring)
    requires s.slots != [] && s.consumer == Resting && s.deq == s.enq
    ensures Do(s, BeginWait) == Some(s.(consumer := Expecting))
    ensures Do(s.(consumer := Expecting), LoadNotify) == Some(s.(consumer := Enlisting(s.notify)))
    ensures Do(s.(consumer := Enlisting(s.notify)), Enlist) ==
        Some(s.(waiters := s.waiters + 1, consumer := Rechecking(s.notify)))
  {
  }

  lemma Dozes(s: Ring)
    requires s.slots != [] && s.consumer == Rechecking(s.notify) && s.deq == s.enq
    ensures After(s, [Recheck(true), Doze]) == Some(s.(consumer := Asleep(s.notify)))
  {
    hide After;
    var t, u := s.(consumer := Dozing(s.notify)), s.(consumer := Asleep(s.notify));
    assert Do(s, Recheck(true)) == Some(t);
    assert Do(t, Doze) == Some(u);
    hide Do;
    Two(s, Recheck(true), t, Doze, u);
  }

  /** With nothing claimed a poll changes nothing, and a wait ends asleep. */
  lemma WaitSleeps(s: Ring, overdue: bool)
    requires Inv(s) && s.consumer == Resting && s.deq == s.enq
    ensures After(s, [LoadDequeue, SeeSeq] + [SeeEnqueue(overdue)]) == Some(s)
    ensures After(s, [BeginWait, LoadNotify, Enlist] + [Recheck(true), Doze]) ==
            Some(s.(waiters := s.waiters + 1, consumer := Asleep(s.notify)))
  {
    var pos := s.deq;
    hide Inv, After, Do;
    SlotsTell(s, pos);
    Looks(s);
    Retires(s.(consumer := Stalled(pos)), pos, overdue);
    Both(s, [LoadDequeue, SeeSeq], s.(consumer := Stalled(pos)), [SeeEnqueue(overdue)], s);
    Enlists(s);
    var t := s.(waiters := s.waiters + 1, consumer := Rechecking(s.notify));
    Dozes(t);
    Both(s, [BeginWait, LoadNotify, Enlist], t, [Recheck(true), Doze], t.(consumer := Asleep(s.notify)));
  }
}
