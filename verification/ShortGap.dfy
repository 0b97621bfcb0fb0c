/** An ordinary log that cannot be read back: the records of one block leave four bytes to its end. */
module ShortGap {
  import opened Common
  import opened WalFormat
  import opened WalParse
  import opened WalWriter
  import opened WalCodec
  import B = Book

  const META: Meta := Meta(0, 0, 0, [], [])
  const TRADE: B.Record := B.RMatch(1, 2, 100, 1, 0)
  const ORDER: B.Record := B.RInsert(0, B.Order(3, 100, 5, 5, 0, B.Flags(true, 0, 0, 0)))

  /** The writer has only this much in its buffer and nothing on disk. */
  ghost predicate Holding(w: Writer, format: Format, used: nat)
    reads w, w.buffer
  {
    && w.Valid() && !w.failed && w.format == format && !w.pattern && w.disk == [[]] && w.fileOffset == 0 &&
       w.used == used
    && w.buffer.Length == 0x10_0000 && |w.pending| == w.sequence - 1
  }

  /** Appends `n` copies of a record to the buffer. */
  method AppendMany(w: Writer, r: B.Record, n: nat, ghost format: Format, ghost used: nat)
    requires Holding(w, format, used) && Storable(r, META) && |Encode(r, META)| < 0x1_0000 && w.sequence + n < SEQ_LIMIT
    requires used + n * FrameSize(format, |Encode(r, META)|) <= 0x10_0000
    modifies w, w.buffer
    ensures Holding(w, format, used + n * FrameSize(format, |Encode(r, META)|)) && w.sequence == old(w.sequence) + n
  {
    hide Encode, TagOf, Decode, Storable, PayloadOk, Frames, Images, DiskOk, RecsOk, Everything;
    CodecBack(r, META);
    ghost var size := FrameSize(format, |Encode(r, META)|);
    var i := 0;
    while i < n
      invariant 0 <= i <= n && Holding(w, format, used + i * size) && w.sequence == old(w.sequence) + i
    {
      Room(used, i, n, size);
      var no := w.Append(TagOf(r), Encode(r, META));
      i := i + 1;
    }
  }

  lemma Room(used: nat, i: nat, n: nat, size: nat)
    requires i < n && used + n * size <= 0x10_0000
    ensures used + i * size + size <= 0x10_0000 && (i + 1) * size == i * size + size
  {
    MulNext(i, size);
    MulSplit(n, i + 1, size);
  }

  lemma MulNext(i: nat, size: nat)
    ensures (i + 1) * size == i * size + size
  {
  }

  lemma {:induction false} MulSplit(n: nat, i: nat, size: nat)
    requires i <= n
    ensures i * size <= n * size
    decreases n - i
  {
    if i < n {
      MulNext(i, size);
      MulSplit(n, i + 1, size);
    }
  }

  /**
   With checksums on and no user data, 58 trades and 9 insertions fill 4092 bytes of a block. Once that
   block and one more record have been flushed to the same file, the file cannot be read past the block
   and the log cannot be opened again.
   */
  method Unreadable(format: Format) returns (w: Writer, ok: bool)
    requires format.crc && format.buffer >= 0x1_0010
    ensures fresh(w) && !ok && w.format == format && |Everything(w.disk)| == 68
    ensures ParseFiles(format, w.files, 0).error == Some(ReadError) && |ParseFiles(format, w.files, 0).recs| == 67
  {
    hide Encode, TagOf, Decode, PayloadOk, Frames, Images, DiskOk, RecsOk, Everything, ParseFiles, Gap, AllFine,
         Deviates;
    w := new Writer(format, false, 0, 0x10_0000);
    Sizes();
    AppendMany(w, TRADE, 58, format, 0);
    AppendMany(w, ORDER, 9, format, 3480);
    ghost var rs := w.pending;
    EmptyDisk();
    FollowsPart(Everything(w.disk), w.pending, 0);
    w.Flush();
    CodecBack(TRADE, META);
    var no := w.Append(TagOf(TRADE), Encode(TRADE, META));
    ghost var more := w.pending;
    ok := w.Reopen();
    OneFile(format, rs, more);
    assert w.disk == [[rs, more]];
    StopsThere(format, rs, more);
  }

  lemma Sizes()
    ensures Storable(TRADE, META) && Storable(ORDER, META) && |Encode(TRADE, META)| == 48 && |Encode(ORDER, META)| == 56
  {
  }

  lemma EmptyDisk()
    ensures Everything([[]]) == []
  {
    var disk: seq<seq<seq<Rec>>> := [[]];
    assert disk[1..] == [];
  }

  lemma OneFile(f: Format, rs: seq<Rec>, more: seq<Rec>)
    ensures Flushed([[]], rs, false) == [[rs]] && Flushed([[rs]], more, false) == [[rs, more]]
    ensures Everything([[rs, more]]) == rs + more && Images(f, [[rs, more]]) == [File(f, [rs, more])]
  {
    hide Flat, File;
    Extends([], rs);
    Extends([rs], more);
    assert [rs] + [more] == [rs, more] && [] + [rs] == [rs];
    NewFile(f, rs);
    FileAppend(f, [rs], more);
    assert [[rs, more]][1..] == [];
    assert Flat([rs, more]) + [] == Flat([rs, more]);
  }

  lemma Extends(bs: seq<seq<Rec>>, rs: seq<Rec>)
    ensures Flushed([bs], rs, false) == [bs + [rs]]
  {
    assert [bs][..0] == [];
  }

  lemma StopsThere(f: Format, rs: seq<Rec>, more: seq<Rec>)
    requires RecsOk(f, rs) && RecsOk(f, more) && more != [] && Follows(rs, 0) && |Frames(f, rs)| == 4092
    ensures ParseFiles(f, [File(f, [rs, more])], 0) == Parsed(rs, Some(ReadError), |rs|)
  {
    hide ParseFrom, File, Frames, RecsOk;
    assert Gap(4092) == 4;
    ShortGapStops(f, rs, more, 0);
  }
}
