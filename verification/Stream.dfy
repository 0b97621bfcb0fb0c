/**
 Slots of the shared-memory stream and what they hold: one publisher, any number of endpoints, each
 slot a row of cells that are written and read one at a time.
 */
module Stream {
  import opened Common

  /** A published record; its payload is at most `width` cells long. */
  datatype Rec = Rec(wal: nat, kind: nat, body: seq<nat>)

  /** Cells 0 to 2 hold the log sequence number, the type and the length, the others the payload. */
  datatype Slot = Slot(seq_: nat, cells: seq<nat>)

  function Size(r: Rec): nat { 3 + |r.body| }

  function Cell(r: Rec, i: nat): nat
    requires i < Size(r)
  {
    if i == 0 then r.wal else if i == 1 then r.kind else if i == 2 then |r.body| else r.body[i - 3]
  }

  predicate Holds(cells: seq<nat>, r: Rec) {
    Size(r) <= |cells| && forall i :: 0 <= i < Size(r) ==> cells[i] == Cell(r, i)
  }

  /** The publisher writes the payload first, then the header. */
  function Target(r: Rec, n: nat): (i: nat)
    requires n < Size(r)
    ensures i < Size(r)
  {
    if n < |r.body| then 3 + n else n - |r.body|
  }

  /** The first `n` writes of a record have been made. */
  predicate Written(cells: seq<nat>, r: Rec, n: nat) {
    && Size(r) <= |cells| && n <= Size(r)
    && forall k :: 0 <= k < n ==> cells[Target(r, k)] == Cell(r, Target(r, k))
  }

  lemma TargetsApart(r: Rec, n: nat, k: nat)
    requires n < Size(r) && k < Size(r)
    ensures Target(r, n) == Target(r, k) <==> n == k
  {
  }

  lemma WriteNext(cells: seq<nat>, r: Rec, n: nat)
    requires Written(cells, r, n) && n < Size(r)
    ensures Written(cells[Target(r, n) := Cell(r, Target(r, n))], r, n + 1)
  {
    var after := cells[Target(r, n) := Cell(r, Target(r, n))];
    forall k | 0 <= k < n + 1 ensures after[Target(r, k)] == Cell(r, Target(r, k)) { TargetsApart(r, n, k); }
  }

  /** All writes made is the whole record in place. */
  lemma WrittenHolds(cells: seq<nat>, r: Rec)
    requires Written(cells, r, Size(r))
    ensures Holds(cells, r)
  {
    forall i | 0 <= i < Size(r) ensures cells[i] == Cell(r, i) {
      var n := if i >= 3 then i - 3 else |r.body| + i;
      assert Target(r, n) == i;
    }
  }

  /** What an endpoint has read is the beginning of the record's cells. */
  predicate Reads(got: seq<nat>, r: Rec) {
    |got| <= Size(r) && forall i :: 0 <= i < |got| ==> got[i] == Cell(r, i)
  }

  /** The header has been read, and all the payload cells it announces. */
  predicate Complete(got: seq<nat>) { |got| >= 3 && |got| == 3 + got[2] }

  function Assemble(got: seq<nat>): Rec
    requires |got| >= 3
  {
    Rec(got[0], got[1], got[3..])
  }

  lemma AssembleIs(got: seq<nat>, r: Rec)
    requires Reads(got, r) && Complete(got)
    ensures Assemble(got) == r
  {
    assert got[0] == Cell(r, 0) && got[1] == Cell(r, 1) && got[2] == Cell(r, 2);
    assert |got[3..]| == |r.body|;
    forall k | 0 <= k < |r.body| ensures got[3..][k] == r.body[k] { assert got[3 + k] == Cell(r, 3 + k); }
  }

  lemma CompleteWhen(got: seq<nat>, r: Rec)
    requires Reads(got, r)
    ensures Complete(got) <==> |got| == Size(r)
  {
    if |got| >= 3 { assert got[2] == Cell(r, 2); }
  }

  lemma ReadNext(got: seq<nat>, cells: seq<nat>, r: Rec)
    requires Reads(got, r) && Holds(cells, r) && !Complete(got)
    ensures |got| < |cells| && Reads(got + [cells[|got|]], r)
  {
    if |got| >= 3 { assert got[2] == Cell(r, 2); }
  }
}
