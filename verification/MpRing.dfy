/**
 The multi-producer single-consumer ring: producers claim tickets with a compare-and-swap, fill the
 ticket's slot and commit it with a second one; the consumer delivers committed tickets in order and
 may skip one whose producer is stuck. One action per atomic operation, interleaved arbitrarily.
 */
module MpRing {
  import opened Common

  type Payload = seq<nat>

  datatype Slot = Slot(seq_: nat, sequence: nat, producer: nat, payload: Payload)

  datatype Rec = Rec(sequence: nat, producer: nat, payload: Payload)

  /** Where a producer is in claim, fill, commit and notify. */
  datatype Producer =
    | Idle
    | Claiming(payload: Payload)                  // about to load the enqueue cursor
    | Loaded(payload: Payload, pos: nat)          // about to load the slot's seq
    | Free(payload: Payload, pos: nat)            // saw seq == pos, about to move the enqueue cursor
    | Claimed(payload: Payload, pos: nat)         // owns the ticket, about to write the slot's header
    | Titled(payload: Payload, pos: nat)          // about to write the payload
    | Filled(payload: Payload, pos: nat)          // about to commit
    | Committed(pos: nat)                         // about to load the waiter count
    | Bumping(pos: nat)                           // saw a waiter, about to bump the notify word
    | Waking(pos: nat)                            // about to wake a sleeper

  datatype Consumer =
    | Resting
    | Polling(pos: nat)                           // loaded the dequeue cursor, about to load the slot's seq
    | Ready(pos: nat)                             // saw seq == pos + 1, about to read the header
    | Reading(pos: nat, sequence: nat, producer: nat)
    | Taking(pos: nat, rec: Rec)                  // read everything, about to release the slot
    | Released(pos: nat)                          // about to advance the dequeue cursor
    | Stalled(pos: nat)                           // saw seq == pos, about to load the enqueue cursor
    | Skipping(pos: nat)                          // ticket overdue, about to skip it
    | Expecting                                   // nothing pending, about to load the notify word
    | Enlisting(expected: nat)                    // about to count itself as a waiter
    | Rechecking(expected: nat)                   // about to look for pending tickets again
    | Dozing(expected: nat)                       // about to sleep if the notify word is unchanged
    | Asleep(expected: nat)
    | Leaving                                     // about to stop counting as a waiter

  datatype Event = Delivered(ticket: nat, rec: Rec) | Skipped(ticket: nat)

  /**
   `committed` and `poisoned` are the tickets whose commit has succeeded and failed, `resolved` what
   the consumer has done with tickets, `sent` what each ticket's owner set out to publish.
   */
  datatype Ring = Ring(slots: seq<Slot>, enq: nat, deq: nat, notify: nat, waiters: nat,
                       producers: map<nat, Producer>, consumer: Consumer,
                       committed: set<nat>, poisoned: set<nat>, resolved: seq<Event>, sent: map<nat, Rec>)

  function At(s: Ring, t: nat): nat
    requires s.slots != []
  {
    t % |s.slots|
  }

  function Capacity(s: Ring): nat { |s.slots| }

  // ------------------------------------------------------------- actions

  datatype Action =
    | Begin(p: nat, payload: Payload)
    | LoadEnqueue(p: nat)
    | LoadSeq(p: nat)
    | Claim(p: nat, spurious: bool)
    | Title(p: nat)
    | Fill(p: nat)
    | Commit(p: nat)
    | LoadWaiters(p: nat)
    | Bump(p: nat)
    | Wake(p: nat)
    | LoadDequeue
    | SeeSeq
    | ReadTitle
    | ReadPayload
    | Release
    | Advance
    | SeeEnqueue(overdue: bool)
    | Skip
    | BeginWait
    | LoadNotify
    | Enlist
    | Recheck(patient: bool)
    | Doze
    | Rouse
    | Leave

  function Go(s: Ring, p: nat, pc: Producer): Ring { s.(producers := s.producers[p := pc]) }

  /** The producer's side: None when the action is not the producer's next. */
  function Produce(s: Ring, a: Action, p: nat, pc: Producer): Option<Ring>
    requires s.slots != []
  {
    match (a, pc)
    case (Begin(_, payload), Idle) => Some(Go(s, p, Claiming(payload)))
    case (LoadEnqueue(_), Claiming(d)) => Some(Go(s, p, Loaded(d, s.enq)))
    case (LoadSeq(_), Loaded(d, pos)) =>
      var q := s.slots[At(s, pos)].seq_;
      Some(Go(s, p, if q == pos then Free(d, pos) else if q < pos then Idle else Claiming(d)))
    case (Claim(_, spurious), Free(d, pos)) =>
      if s.enq != pos || spurious then Some(Go(s, p, Claiming(d)))
      else Some(Go(s, p, Claimed(d, pos)).(enq := pos + 1, sent := s.sent[pos := Rec(pos, p, d)]))
    case (Title(_), Claimed(d, pos)) =>
      var i := At(s, pos);
      Some(Go(s, p, Titled(d, pos)).(slots := s.slots[i := s.slots[i].(sequence := pos, producer := p)]))
    case (Fill(_), Titled(d, pos)) =>
      var i := At(s, pos);
      Some(Go(s, p, Filled(d, pos)).(slots := s.slots[i := s.slots[i].(payload := d)]))
    case (Commit(_), Filled(_, pos)) =>
      var i := At(s, pos);
      if s.slots[i].seq_ != pos then Some(Go(s, p, Idle).(poisoned := s.poisoned + {pos}))
      else Some(Go(s, p, Committed(pos)).(slots := s.slots[i := s.slots[i].(seq_ := pos + 1)], committed :=
          s.committed + {pos}))
    case (LoadWaiters(_), Committed(pos)) => Some(Go(s, p, if s.waiters == 0 then Idle else Bumping(pos)))
    case (Bump(_), Bumping(pos)) => Some(Go(s, p, Waking(pos)).(notify := s.notify + 1))
    case (Wake(_), Waking(pos)) =>
      Some(Go(s, p, Idle).(consumer := if s.consumer.Asleep? then Leaving else s.consumer))
    case _ => None
  }

  /** Storing pos + capacity in a slot's seq hands it to the producers of the next lap. */
  function Hand(s: Ring, pos: nat): seq<Slot>
    requires s.slots != []
  {
    var i := At(s, pos);
    s.slots[i := s.slots[i].(seq_ := pos + Capacity(s))]
  }

  function Consume(s: Ring, a: Action): Option<Ring>
    requires s.slots != []
  {
    match (a, s.consumer)
    case (LoadDequeue, Resting) => Some(s.(consumer := Polling(s.deq)))
    case (SeeSeq, Polling(pos)) =>
      var q := s.slots[At(s, pos)].seq_;
      Some(s.(consumer := if q == pos + 1 then Ready(pos) else if q == pos then Stalled(pos) else Resting))
    case (ReadTitle, Ready(pos)) =>
      var slot := s.slots[At(s, pos)];
      Some(s.(consumer := Reading(pos, slot.sequence, slot.producer)))
    case (ReadPayload, Reading(pos, sequence, producer)) =>
      Some(s.(consumer := Taking(pos, Rec(sequence, producer, s.slots[At(s, pos)].payload))))
    case (Release, Taking(pos, rec)) =>
      Some(s.(slots := Hand(s, pos), consumer := Released(pos), resolved := s.resolved + [Delivered(pos, rec)]))
    case (Advance, Released(pos)) => Some(s.(deq := pos + 1, consumer := Resting))
    case (SeeEnqueue(overdue), Stalled(pos)) =>
      Some(s.(consumer := if s.enq <= pos || !overdue then Resting else Skipping(pos)))
    case (Skip, Skipping(pos)) =>
      if s.slots[At(s, pos)].seq_ != pos then Some(s.(consumer := Resting))
      else Some(s.(slots := Hand(s, pos), consumer := Released(pos), resolved := s.resolved + [Skipped(pos)]))
    case (BeginWait, Resting) => Some(s.(consumer := if s.enq > s.deq then Resting else Expecting))
    case (LoadNotify, Expecting) => Some(s.(consumer := Enlisting(s.notify)))
    case (Enlist, Enlisting(expected)) => Some(s.(waiters := s.waiters + 1, consumer := Rechecking(expected)))
    case (Recheck(patient), Rechecking(expected)) =>
      Some(s.(consumer := if s.enq > s.deq || !patient then Leaving else Dozing(expected)))
    case (Doze, Dozing(expected)) => Some(s.(consumer := if s.notify != expected then Leaving else Asleep(expected)))
    case (Rouse, Asleep(_)) => Some(s.(consumer := Leaving))   // timeout or signal
    case (Leave, Leaving) => if s.waiters == 0 then None else Some(s.(waiters := s.waiters - 1, consumer := Resting))
    case _ => None
  }

  function Actor(a: Action): Option<nat> {
    match a
    case Begin(p, _) => Some(p)
    case LoadEnqueue(p) => Some(p)
    case LoadSeq(p) => Some(p)
    case Claim(p, _) => Some(p)
    case Title(p) => Some(p)
    case Fill(p) => Some(p)
    case Commit(p) => Some(p)
    case LoadWaiters(p) => Some(p)
    case Bump(p) => Some(p)
    case Wake(p) => Some(p)
    case _ => None
  }

  function Do(s: Ring, a: Action): Option<Ring>
    requires s.slots != []
  {
    if Actor(a).Some? then
      var p := Actor(a).value;
      if p in s.producers then Produce(s, a, p, s.producers[p]) else None
    else Consume(s, a)
  }

  function NewSlots(n: nat): (r: seq<Slot>)
    ensures |r| == n && forall i :: 0 <= i < n ==> r[i].seq_ == i
  {
    seq(n, i requires 0 <= i < n => Slot(i, 0, 0, []))
  }

  predicate Initial(s: Ring) {
    && s.slots == NewSlots(|s.slots|) && |s.slots| > 0
    && s.enq == 0 && s.deq == 0 && s.notify == 0 && s.waiters == 0
    && (forall p :: p in s.producers ==> s.producers[p] == Idle) && s.consumer == Resting
    && s.committed == {} && s.poisoned == {} && s.resolved == [] && s.sent == map[]
  }

  /** A run: each state follows from the one before by an action. */
  ghost predicate Run(states: seq<Ring>, actions: seq<Action>) {
    && |states| == |actions| + 1 && Initial(states[0])
    && (forall i :: 0 <= i < |states| ==> states[i].slots != [])
    && (forall i :: 0 <= i < |actions| ==> Do(states[i], actions[i]) == Some(states[i + 1]))
  }
}
