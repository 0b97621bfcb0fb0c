/**
 Recovery of a log that need not be one the engine wrote: every record that is applied was applicable,
 the book stays well formed, and recovery fails exactly at the first record that is not.
 */
module AnyLog {
  import opened Common
  import opened Book
  import opened R = Replay
  import opened Logs

  /** An insertion or a trade that recovery can apply to the book. */
  predicate Applies(c: Config, b: Book, r: Record) {
    match r
    case RInsert(product, o) =>
      && product < c.products && o.org < c.orgs && o.id != 0 && o.id !in b.entries   // known, named and new
      && |b.entries| < c.slots                                                       // with a slot left for it
    case RMatch(maker, taker, _, volume, _) =>
      && taker != 0 && maker in b.entries && 0 < volume <= b.entries[maker].order.remain
    case _ => true
  }

  ghost predicate Sound(c: Config, b: Book) { Wf(b) && |b.ladder| == 2 * c.products }

  lemma CancelKeeps(c: Config, b: Book, id: nat)
    requires Sound(c, b) && CancelEffect(b, id).Some?
    ensures Sound(c, CancelEffect(b, id).value)
  {
    if id in b.entries {
      if Linked(b, id) { RemoveWf(b, id); } else { ParkedGone(b, id); }
    }
  }

  /** One record: it fails exactly if it does not apply, and otherwise keeps the book well formed. */
  lemma StepSound(c: Config, s: Recovered, r: Record)
    requires Sound(c, s.book) && (r.RInsert? ==> !Parked(r.order.flags))
    ensures Step(c, s, r) == Failed <==> !Applies(c, s.book, r)
    ensures Step(c, s, r).Ok? ==> Sound(c, Step(c, s, r).state.book)
  {
    var b := s.book;
    KeysKnown(c, b);
    match r
    case RInsert(product, o) =>
      if Applies(c, b, r) { InsertWf(b, product, o); }
    case RCancel(id) =>
      if CancelEffect(b, id).Some? { CancelKeeps(c, b, id); }
    case RMatch(maker, taker, _, volume, _) =>
      if Applies(c, b, r) { MatchKeeps(c, s, r); }
    case RDeactivate(id) =>
      if id in b.entries && Linked(b, id) { RemoveWf(b, id); }
    case RActivate(id) =>
      if id in b.entries && Parked(b.entries[id].order.flags) { ParkedGone(b, id); }
  }

  function Reduced(b: Book, r: Record): Book
    requires r.RMatch? && r.maker in b.entries && r.volume <= b.entries[r.maker].order.remain
  {
    b.(entries := SetRemain(b.entries, r.maker, b.entries[r.maker].order.remain - r.volume))
  }

  lemma MatchStep(c: Config, s: Recovered, r: Record)
    requires KeysOk(s.book) && r.RMatch? && r.maker != 0 && Applies(c, s.book, r) && KeysOk(Reduced(s.book, r))
    ensures var b := Reduced(s.book, r);
            Step(c, s, r) == if r.volume == s.book.entries[r.maker].order.remain
                             then Lift(CancelEffect(b, r.maker), NextAfter(s.nextId, [r]))
                             else Ok(Recovered(b, NextAfter(s.nextId, [r])))
  {
    hide CancelEffect;
    assert [r][1..] == [];
  }

  lemma MatchKeeps(c: Config, s: Recovered, r: Record)
    requires Sound(c, s.book) && r.RMatch? && Applies(c, s.book, r)
    ensures Step(c, s, r) != Failed && (Step(c, s, r).Ok? ==> Sound(c, Step(c, s, r).state.book))
  {
    hide Wf, CancelEffect, Step, KeysOk, SetRemain;
    var b := Reduced(s.book, r);
    SetRemainWf(s.book, r.maker, s.book.entries[r.maker].order.remain - r.volume);
    KeysKnown(c, s.book);
    KeysKnown(c, b);
    MatchStep(c, s, r);
    if r.volume == s.book.entries[r.maker].order.remain &&
        CancelEffect(b, r.maker).Some? { CancelKeeps(c, b, r.maker); }
  }

  lemma KeysKnown(c: Config, b: Book)
    requires Sound(c, b)
    ensures KeysOk(b) && 0 !in b.entries && forall id :: id in b.entries ==> KeyOf(b.entries[id]) < |b.ladder|
  {
  }

  /** Recovery has come to record `n` and cannot apply it. */
  ghost predicate StopsAt(c: Config, s: Recovered, log: seq<Record>, n: nat) {
    n < |log| && var r := R.Replay(c, s, log[..n]); r.Ok? && !Applies(c, r.state.book, log[n])
  }

  /** Any log: it fails if and only if it comes to a record that does not apply, and what it rebuilds is well formed. */
  lemma {:induction false} ReplaySound(c: Config, s: Recovered, log: seq<Record>)
    requires Sound(c, s.book) && Insertable(log)
    ensures R.Replay(c, s, log).Ok? ==> Sound(c, R.Replay(c, s, log).state.book)
    ensures R.Replay(c, s, log) == Failed <==> exists n: nat :: StopsAt(c, s, log, n)
    decreases |log|
  {
    if log != [] {
      var r, rest := log[0], log[1..];
      StepSound(c, s, r);
      hide Sound, Step;
      assert log[..0] == [];
      if Step(c, s, r).Ok? {
        var t := Step(c, s, r).state;
        assert forall i :: 0 <= i < |rest| ==> rest[i] == log[i + 1];
        ReplaySound(c, t, rest);
        StopsLater(c, s, log, t);
      } else if Step(c, s, r) == Failed {
        assert StopsAt(c, s, log, 0);
      } else {
        NeverStops(c, s, log);
      }
    }
  }

  lemma StopsLater(c: Config, s: Recovered, log: seq<Record>, t: Recovered)
    requires log != [] && Step(c, s, log[0]) == Ok(t) && Applies(c, s.book, log[0])
    ensures (exists n: nat :: StopsAt(c, s, log, n)) <==> exists n: nat :: StopsAt(c, t, log[1..], n)
  {
    hide Step;
    assert log[..0] == [];
    forall n: nat | 0 < n <= |log| ensures R.Replay(c, s, log[..n]) == R.Replay(c, t, log[1..][..n - 1]) {
      assert log[..n][0] == log[0] && log[..n][1..] == log[1..][..n - 1];
    }
    forall n: nat | StopsAt(c, s, log, n) ensures exists m: nat :: StopsAt(c, t, log[1..], m) {
      if n > 0 { assert StopsAt(c, t, log[1..], n - 1); }
    }
    forall m: nat | StopsAt(c, t, log[1..], m) ensures exists n: nat :: StopsAt(c, s, log, n) {
      assert StopsAt(c, s, log, m + 1);
    }
  }

  lemma NeverStops(c: Config, s: Recovered, log: seq<Record>)
    requires log != [] && Step(c, s, log[0]) == Corrupts && Applies(c, s.book, log[0])
    ensures !exists n: nat :: StopsAt(c, s, log, n)
  {
    hide Step;
    forall n: nat ensures !StopsAt(c, s, log, n) {
      if 0 < n < |log| { assert log[..n][0] == log[0]; } else if n == 0 { assert log[..0] == []; }
    }
  }
}
