/**
 The streaming reader of the log: it sees the files through a buffer that it refills with reads of
 any size, and returns exactly what a parse of the whole files returns.
 */
module WalReader {
  import opened Common
  import opened WalFormat
  import opened WalParse

  datatype Outcome = Finished | Failed(error: Error) | Record(rec: Rec)

  /** The rest of a file and the files behind it. */
  function Remaining(f: Format, files: seq<seq<Byte>>, i: nat, off: nat, last: nat): Parsed
    requires i < |files| && off <= |files[i]|
  {
    var p := ParseFrom(f, files[i], off, last);
    if p.error.Some? then p
    else
      var q := ParseFiles(f, files[i + 1..], p.last);
      q.(recs := p.recs + q.recs)
  }

  function Prepend(r: Rec, p: Parsed): Parsed { p.(recs := [r] + p.recs) }

  lemma RemainingSkip(f: Format, files: seq<seq<Byte>>, i: nat, off: nat, last: nat)
    requires i < |files| && off <= |files[i]| && ParseAt(f, files[i], off, last).Skip?
    ensures Remaining(f, files, i, off, last) == Remaining(f, files, i, ParseAt(f, files[i], off, last).next, last)
  {
  }

  lemma RemainingGot(f: Format, files: seq<seq<Byte>>, i: nat, off: nat, last: nat)
    requires i < |files| && off <= |files[i]| && ParseAt(f, files[i], off, last).Got?
    ensures var g := ParseAt(f, files[i], off, last);
            Remaining(f, files, i, off, last) == Prepend(g.rec, Remaining(f, files, i, g.next, g.rec.no))
  {
    var g := ParseAt(f, files[i], off, last);
    var p := ParseFrom(f, files[i], g.next, g.rec.no);
    if p.error.None? {
      var q := ParseFiles(f, files[i + 1..], p.last);
      assert [g.rec] + p.recs + q.recs == [g.rec] + (p.recs + q.recs);
    }
  }

  lemma RemainingEnd(f: Format, files: seq<seq<Byte>>, i: nat, off: nat, last: nat)
    requires i < |files| && off == |files[i]|
    ensures Remaining(f, files, i, off, last) == if i + 1 < |files| then Remaining(f, files, i + 1, 0, last)
        else Parsed([], None, last)
  {
    EndParses(f, files[i], off, last);
    var q := ParseFiles(f, files[i + 1..], last);
    assert [] + q.recs == q.recs;
    if i + 1 < |files| { assert files[i + 1..][0] == files[i + 1] && files[i + 1..][1..] == files[i + 1 + 1..]; }
  }

  lemma RemainingBad(f: Format, files: seq<seq<Byte>>, i: nat, off: nat, last: nat)
    requires i < |files| && off <= |files[i]| && ParseAt(f, files[i], off, last).Bad?
    ensures Remaining(f, files, i, off, last) == Parsed([], Some(ParseAt(f, files[i], off, last).error), last)
  {
  }

  lemma SliceSlice(s: seq<Byte>, lo: nat, hi: nat, a: nat, b: nat)
    requires lo <= hi <= |s| && a <= b <= hi - lo
    ensures s[lo..hi][a..b] == s[lo + a..lo + b]
  {
    var x, y := s[lo..hi][a..b], s[lo + a..lo + b];
    forall i | 0 <= i < b - a ensures x[i] == y[i] {
      assert x[i] == s[lo..hi][a + i];
    }
    assert x == y;
  }

  lemma ReadBehind(before: seq<Byte>, now: seq<Byte>, at: nat, n: nat, file: seq<Byte>, off: nat, from: nat)
    requires |now| == |before| && at + n <= |now| && off <= from && from + n <= |file| &&
        before[..at] == file[off..from]
    requires (forall i :: 0 <= i < at ==> now[i] == before[i]) &&
        (forall i :: at <= i < at + n ==> now[i] == file[from + (i - at)])
    ensures now[..at + n] == file[off..from + n]
  {
    assert at == from - off;
    forall i | 0 <= i < at + n ensures now[i] == file[off + i] {
      if i < at { assert before[..at][i] == file[off..from][i]; }
    }
  }

  /** A header the reader does not accept. */
  predicate HeadBad(packed: nat, last: nat) {
    !TagOk(HeaderTag(packed)) || HeaderSeq(packed) == 0 || (last != 0 && HeaderSeq(packed) != last + 1)
  }

  lemma BodyRefused(f: Format, file: seq<Byte>, off: nat, last: nat)
    requires off + HEADER <= |file|
    ensures var packed := Num(file[off..off + HEADER]);
            var total := FrameSize(f, HeaderLen(packed));
            && (HeadBad(packed, last) ==> BodyAt(f, file, off, last) == Bad(ReadError))
            && (!HeadBad(packed, last) && (total > f.buffer || |file| - off < total) ==>
               BodyAt(f, file, off, last) == Bad(Truncated))
  {
  }

  lemma BodyJudged(f: Format, file: seq<Byte>, off: nat, last: nat, len: nat, data: seq<Byte>, body: seq<Byte>,
                   trailer: seq<Byte>)
    requires off + HEADER <= |file| && len == HeaderLen(Num(file[off..off + HEADER])) &&
        !HeadBad(Num(file[off..off + HEADER]), last)
    requires var total := FrameSize(f, len);
             && total <= f.buffer && total <= |file| - off && body == file[off..off + HEADER + len]
             && data == file[off + HEADER..off + HEADER + len] && trailer == file[off + HEADER + len..off + total]
    ensures var packed := Num(file[off..off + HEADER]);
            BodyAt(f, file, off, last) == if !PayloadOk(HeaderTag(packed), data) then Bad(ReadError)
                                          else if f.crc && trailer != Le(f.sum(body), 4) then Bad(CrcMismatch)
                                          else Got(Rec(HeaderSeq(packed), HeaderTag(packed), data), off +
                                              FrameSize(f, len))
  {
  }

  class Reader {
    const format: Format
    const files: seq<seq<Byte>>
    const buffer: array<Byte>
    var index: nat
    var valid: nat
    var pos: nat
    var fileOffset: nat
    var last: nat

    ghost predicate Valid()
      reads this, buffer
    {
      && buffer.Length == format.buffer >= ALIGN && index < |files|
      && pos <= valid <= buffer.Length && valid - pos <= fileOffset <= |files[index]|
      && buffer[pos..valid] == files[index][Offset()..fileOffset]
    }

    /** Where in the file the reader stands. */
    ghost function Offset(): (off: int)
      reads this
    {
      fileOffset - (valid - pos)
    }

    /** What is still to be returned. */
    ghost function Rest(): Parsed
      requires Valid()
      reads this, buffer
    {
      Remaining(format, files, index, Offset(), last)
    }

    constructor (format: Format, files: seq<seq<Byte>>)
      requires format.buffer >= ALIGN && files != []
      ensures Valid() && this.format == format && this.files == files && fresh(buffer) && last == 0
      ensures Rest() == ParseFiles(format, files, 0)
    {
      this.format, this.files := format, files;
      buffer := new Byte[format.buffer](_ => 0);
      index, valid, pos, fileOffset, last := 0, 0, 0, 0, 0;
      new;
      assert files[0 + 1..] == files[1..];
    }

    /** What is left moves to the front of the buffer. */
    method Compact()
      requires Valid()
      modifies this`valid, this`pos, buffer
      ensures Valid() && Offset() == old(Offset()) && pos == 0
    {
      ghost var held := buffer[pos..valid];
      var remaining, start := valid - pos, pos;
      forall i | 0 <= i < remaining { buffer[i] := buffer[start + i]; }
      assert buffer[..remaining] == held;
      valid, pos := remaining, 0;
    }

    /** One read of at least one byte behind what is left. */
    method FillOnce()
      requires Valid() && fileOffset < |files[index]| && valid - pos < buffer.Length
      modifies this`valid, this`pos, this`fileOffset, buffer
      ensures Valid() && Offset() == old(Offset()) && fileOffset > old(fileOffset)
    {
      Compact();
      ghost var before, off := buffer[..], Offset();
      assert before[..valid] == buffer[0..valid];
      var room, left := buffer.Length - valid, |files[index]| - fileOffset;
      var n: nat :| 1 <= n <= if room > left then left else room;
      var at, from := valid, fileOffset;
      forall i | 0 <= i < n { buffer[at + i] := files[index][from + i]; }
      ReadBehind(before, buffer[..], at, n, files[index], off, from);
      valid, fileOffset := at + n, from + n;
      assert buffer[0..valid] == buffer[..][..valid];
    }

    /** Reads until `need` bytes are buffered or the file has no more. */
    method Fill(need: nat)
      requires Valid() && need <= buffer.Length
      modifies this`valid, this`pos, this`fileOffset, buffer
      ensures Valid() && Offset() == old(Offset()) && (valid - pos >= need <==> |files[index]| - Offset() >= need)
      ensures valid - pos < need ==> valid - pos == |files[index]| - Offset()
    {
      while valid - pos < need && fileOffset < |files[index]|
        invariant Valid() && Offset() == old(Offset())
        decreases |files[index]| - fileOffset
      {
        FillOnce();
      }
    }

    /** The buffered bytes are the file's. */
    lemma Buffered(a: nat, b: nat)
      requires Valid() && a <= b <= valid - pos
      ensures 0 <= Offset() && Offset() + b <= |files[index]| &&
          buffer[pos + a..pos + b] == files[index][Offset() + a..Offset() + b]
    {
      SliceSlice(buffer[..], pos, valid, a, b);
      SliceSlice(files[index], Offset(), fileOffset, a, b);
      assert buffer[pos + a..pos + b] == buffer[..][pos + a..pos + b] && buffer[pos..valid] == buffer[..][pos..valid];
    }

    /** The buffered bytes from `a` to `b` behind the current position. */
    function Copy(a: nat, b: nat): (r: seq<Byte>)
      requires Valid() && a <= b <= valid - pos
      reads this, buffer
      ensures 0 <= Offset() && Offset() + b <= |files[index]| && r == files[index][Offset() + a..Offset() + b]
    {
      Buffered(a, b);
      buffer[pos + a..pos + b]
    }

    method Advance(n: nat)
      requires Valid() && n <= valid - pos
      modifies this`pos
      ensures Valid() && Offset() == old(Offset()) + n
    {
      ghost var b := valid - pos;
      Buffered(n, b);
      pos := pos + n;
    }

    /** Padding at the current position. */
    method SkipPadding() returns (e: Option<Error>)
      requires Valid() && Offset() < |files[index]|
      modifies this`valid, this`pos, this`fileOffset, buffer
      ensures Valid() && var item := PadAt(files[index], old(Offset()));
              if e.None? then item == Skip(Offset()) else item == Bad(e.value)
    {
      ghost var off := Offset();
      var pad := ALIGN - (fileOffset - (valid - pos)) % ALIGN;
      Fill(pad);
      if valid - pos < pad { return Some(Truncated); }
      var b := Copy(0, pad);
      var i := 0;
      while i < pad
        invariant 0 <= i <= pad && forall j :: 0 <= j < i ==> b[j] == 0
      {
        if b[i] != 0 { return Some(ReadError); }
        i := i + 1;
      }
      Advance(pad);
      return None;
    }

    /** A record at the current position, its header being in the buffer and not zero. */
    method ReadRecord() returns (r: Outcome)
      requires Valid() && Offset() + HEADER <= |files[index]| && valid - pos >= HEADER
      modifies this`valid, this`pos, this`fileOffset, this`last, buffer
      ensures Valid() && !r.Finished?
      ensures var item := BodyAt(format, files[index], old(Offset()), old(last));
              if r.Record? then item == Got(r.rec, Offset()) && last == r.rec.no
                  else item == Bad(r.error) && last == old(last)
    {
      hide PayloadOk, Num, HeadBad, BodyAt;
      ghost var off, file := Offset(), files[index];
      Buffered(0, HEADER);
      var packed := Num(buffer[pos..pos + HEADER]);
      BodyRefused(format, file, off, last);
      if HeadBad(packed, last) { return Failed(ReadError); }
      var len := HeaderLen(packed);
      var total := FrameSize(format, len);
      if total > buffer.Length { return Failed(Truncated); }
      Fill(total);
      if valid - pos < total { return Failed(Truncated); }
      r := TakeRecord(packed, len);
    }

    /** A record that is in the buffer as a whole: its length and its checksum are checked. */
    method TakeRecord(packed: nat, len: nat) returns (r: Outcome)
      requires Valid() && Offset() + HEADER <= |files[index]| &&
          packed == Num(files[index][Offset()..Offset() + HEADER])
      requires len == HeaderLen(packed) && !HeadBad(packed, last) && FrameSize(format, len) <= valid - pos
      modifies this`pos, this`last
      ensures Valid() && !r.Finished?
      ensures var item := BodyAt(format, files[index], old(Offset()), old(last));
              if r.Record? then item == Got(r.rec, Offset()) && last == r.rec.no
                  else item == Bad(r.error) && last == old(last)
    {
      hide PayloadOk, Num, HeadBad, BodyAt;
      var total := FrameSize(format, len);
      var body, data, trailer := Copy(0, HEADER + len), Copy(HEADER, HEADER + len), Copy(HEADER + len, total);
      BodyJudged(format, files[index], Offset(), last, len, data, body, trailer);
      if !PayloadOk(HeaderTag(packed), data) { return Failed(ReadError); }
      if format.crc && trailer != Le(format.sum(body), 4) { return Failed(CrcMismatch); }
      Advance(total);
      last := HeaderSeq(packed);
      return Record(Rec(last, HeaderTag(packed), data));
    }

    /** What stands at the current position: a record, an error, or padding to be skipped (None). */
    method ReadItem() returns (r: Option<Outcome>)
      requires Valid() && Offset() < |files[index]|
      modifies this`valid, this`pos, this`fileOffset, this`last, buffer
      ensures Valid()
      ensures var item := ParseAt(format, files[index], old(Offset()), old(last));
              match r
              case None => item == Skip(Offset()) && last == old(last)
              case Some(Record(rec)) => item == Got(rec, Offset()) && last == rec.no
              case Some(Failed(e)) => item == Bad(e) && last == old(last)
              case Some(Finished) => false
    {
      hide BodyAt, PadAt, Num;
      Fill(HEADER);
      var packed := 0;
      if valid - pos >= HEADER {
        Buffered(0, HEADER);
        packed := Num(buffer[pos..pos + HEADER]);
      }
      if packed == 0 {
        var e := SkipPadding();
        return if e.Some? then Some(Failed(e.value)) else None;
      }
      var got := ReadRecord();
      return Some(got);
    }

    /** The next record, whatever sizes the reads return: the first of what a whole parse still gives. */
    method Next() returns (r: Outcome)
      requires Valid()
      modifies this`index, this`valid, this`pos, this`fileOffset, this`last, buffer
      ensures Valid()
      ensures r.Record? ==> old(Rest()) == Prepend(r.rec, Rest())
      ensures r.Failed? ==> old(Rest()) == Parsed([], Some(r.error), old(last))
      ensures r.Finished? ==> old(Rest()) == Parsed([], None, old(last))
      ensures r.Record? ==> index > old(index) || (index == old(index) && Offset() > old(Offset()))
    {
      hide Remaining, ParseAt;
      while true
        invariant Valid() && Rest() == old(Rest()) && last == old(last)
        invariant index > old(index) || (index == old(index) && Offset() >= old(Offset()))
        decreases |files| - index, |files[index]| - Offset()
      {
        if valid == pos && fileOffset >= |files[index]| {
          RemainingEnd(format, files, index, Offset(), last);
          if index + 1 == |files| { return Finished; }
          index, valid, pos, fileOffset := index + 1, 0, 0, 0;
          assert buffer[0..0] == files[index][0..0];
          continue;
        }
        ghost var off := Offset();
        var item := ReadItem();
        match item
        case None => RemainingSkip(format, files, index, off, last);
        case Some(Record(rec)) =>
          RemainingGot(format, files, index, off, old(last));
          return Record(rec);
        case Some(Failed(e)) =>
          RemainingBad(format, files, index, off, last);
          return Failed(e);
      }
    }
  }

  function Joined(recs: seq<Rec>, rest: Parsed): Parsed { rest.(recs := recs + rest.recs) }

  lemma JoinNext(recs: seq<Rec>, rec: Rec, rest: Parsed, rest': Parsed)
    requires rest == Prepend(rec, rest')
    ensures Joined(recs, rest) == Joined(recs + [rec], rest')
  {
    assert recs + ([rec] + rest'.recs) == recs + [rec] + rest'.recs;
  }

  /** Reads to the end or to the first error: the whole parse of the files. */
  method ReadAll(format: Format, files: seq<seq<Byte>>) returns (p: Parsed)
    requires format.buffer >= ALIGN && files != []
    ensures p == ParseFiles(format, files, 0)
  {
    hide Remaining, ParseFrom, ParseFiles;
    var reader := new Reader(format, files);
    var recs: seq<Rec> := [];
    ghost var rest := reader.Rest();
    assert recs + rest.recs == rest.recs;
    while true
      invariant reader.Valid() && fresh(reader) && fresh(reader.buffer) && reader.files == files &&
          reader.format == format
      invariant rest == reader.Rest() && ParseFiles(format, files, 0) == Joined(recs, rest)
      decreases |files| - reader.index, |files[reader.index]| - reader.Offset()
    {
      var at := reader.last;
      var r := reader.Next();
      match r
      case Finished => return Parsed(recs, None, at);
      case Failed(e) => return Parsed(recs, Some(e), at);
      case Record(rec) =>
        JoinNext(recs, rec, rest, reader.Rest());
        recs, rest := recs + [rec], reader.Rest();
    }
  }
}
