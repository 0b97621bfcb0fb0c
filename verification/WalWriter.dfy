/**
 The log writer: records are framed into a buffer, the buffer is flushed in zero-padded blocks, and
 files are rotated when they grow too large. Whatever is appended, flushed and reopened, reading the
 files back gives the flushed records in order.
 */
module WalWriter {
  import opened Common
  import opened WalFormat
  import opened WalParse
  import opened WalReader

  // ------------------------------------------------------- growing the disk

  lemma {:induction false} FramesAppend(f: Format, a: seq<Rec>, b: seq<Rec>)
    ensures Frames(f, a + b) == Frames(f, a) + Frames(f, b)
    decreases |a|
  {
    if a == [] {
      assert a + b == b;
    } else {
      assert (a + b)[0] == a[0] && (a + b)[1..] == a[1..] + b;
      FramesAppend(f, a[1..], b);
    }
  }

  lemma FramesOne(f: Format, r: Rec)
    ensures Frames(f, [r]) == Frame(f, r)
  {
    assert [r][1..] == [];
  }

  lemma {:induction false} FileAppend(f: Format, bs: seq<seq<Rec>>, rs: seq<Rec>)
    ensures File(f, bs + [rs]) == File(f, bs) + Block(f, rs) && Flat(bs + [rs]) == Flat(bs) + rs
    decreases |bs|
  {
    if bs == [] {
      assert [rs][1..] == [];
      assert File(f, [rs]) == Block(f, rs) + File(f, []);
    } else {
      assert (bs + [rs])[0] == bs[0] && (bs + [rs])[1..] == bs[1..] + [rs];
      FileAppend(f, bs[1..], rs);
    }
  }

  lemma {:induction false} DiskAppend(f: Format, disk: seq<seq<seq<Rec>>>, file: seq<seq<Rec>>)
    ensures Images(f, disk + [file]) == Images(f, disk) + [File(f, file)] &&
        Everything(disk + [file]) == Everything(disk) + Flat(file)
    decreases |disk|
  {
    if disk == [] {
      assert [file][1..] == [];
      assert Flat(file) + Everything([]) == Flat(file) && Everything([]) + Flat(file) == Flat(file);
    } else {
      assert (disk + [file])[0] == disk[0] && (disk + [file])[1..] == disk[1..] + [file];
      DiskAppend(f, disk[1..], file);
    }
  }

  /** The disk after a flush of `rs`, into a new file or behind the blocks of the last one. */
  function Flushed(disk: seq<seq<seq<Rec>>>, rs: seq<Rec>, rotate: bool): seq<seq<seq<Rec>>>
    requires disk != []
  {
    if rotate then disk + [[rs]] else disk[..|disk| - 1] + [disk[|disk| - 1] + [rs]]
  }

  lemma NewFile(f: Format, rs: seq<Rec>)
    ensures File(f, [rs]) == Block(f, rs) && Flat([rs]) == rs
  {
    FileAppend(f, [], rs);
    assert [] + [rs] == [rs] && File(f, []) + Block(f, rs) == Block(f, rs) && Flat<Rec>([]) + rs == rs;
  }

  lemma FlushedOk(f: Format, disk: seq<seq<seq<Rec>>>, rs: seq<Rec>, rotate: bool)
    requires disk != [] && DiskOk(f, disk) && RecsOk(f, rs) && rs != []
    ensures DiskOk(f, Flushed(disk, rs, rotate))
  {
    hide RecsOk;
    var t, last := Flushed(disk, rs, rotate), disk[|disk| - 1];
    assert FileOk(f, last);
    assert FileOk(f, [rs]) && FileOk(f, last + [rs]);
    hide FileOk;
    forall i | 0 <= i < |t| ensures FileOk(f, t[i]) {
      if i < |disk| - 1 { assert t[i] == disk[i]; }
    }
  }

  /** Bytes written to the open file, or to a new one. */
  function Written(files: seq<seq<Byte>>, b: seq<Byte>, rotate: bool): (r: seq<seq<Byte>>)
    requires files != []
    ensures r != [] && r[|r| - 1] == if rotate then b else files[|files| - 1] + b
  {
    if rotate then files + [b] else files[..|files| - 1] + [files[|files| - 1] + b]
  }

  /** The last file has grown by the block, or a new one holds it; the others are as they were. */
  lemma FlushedSizes(f: Format, files: seq<seq<Byte>>, disk: seq<seq<seq<Rec>>>, rs: seq<Rec>, b: seq<Byte>,
                     rotate: bool)
    requires disk != [] && files == Images(f, disk)
    ensures var t, d := Written(files, b, rotate), Flushed(disk, rs, rotate);
            && |files| == |disk| && |t| == |d| == |disk| + (if rotate then 1 else 0) && t[|t| - 1] ==
                 (if rotate then b else files[|files| - 1] + b)
            && (rotate ==> d[|d| - 1] == [rs])
            && forall i :: 0 <= i < |t| - 1 ==> t[i] == files[i] && d[i] == disk[i]
  {
  }

  lemma SplitLast<T>(s: seq<T>, front: seq<T>, last: T)
    requires s == front + [last]
    ensures s[..|s| - 1] == front && s[|s| - 1] == last
  {
  }

  lemma ExtendedIs(f: Format, front: seq<seq<seq<Rec>>>, last: seq<seq<Rec>>, rs: seq<Rec>)
    ensures Everything(front + [last + [rs]]) == Everything(front + [last]) + rs
    ensures Images(f, front + [last + [rs]]) == Images(f, front) + [File(f, last) + Block(f, rs)] &&
        Images(f, front + [last]) == Images(f, front) + [File(f, last)]
  {
    hide File, Flat, Everything, Images, Block;
    DiskAppend(f, front, last);
    DiskAppend(f, front, last + [rs]);
    FileAppend(f, last, rs);
    assert Everything(front) + (Flat(last) + rs) == Everything(front) + Flat(last) + rs;
  }

  lemma FlushedIs(f: Format, disk: seq<seq<seq<Rec>>>, rs: seq<Rec>, rotate: bool)
    requires disk != []
    ensures Everything(Flushed(disk, rs, rotate)) == Everything(disk) + rs
    ensures Images(f, Flushed(disk, rs, rotate)) == Written(Images(f, disk), Block(f, rs), rotate)
  {
    hide File, Flat, Everything, Images, Block;
    if rotate {
      DiskAppend(f, disk, [rs]);
      NewFile(f, rs);
    } else {
      var front, last := disk[..|disk| - 1], disk[|disk| - 1];
      assert disk == front + [last];
      ExtendedIs(f, front, last, rs);
      SplitLast(Images(f, disk), Images(f, front), File(f, last));
    }
  }

  lemma BlockIs(f: Format, rs: seq<Rec>, b: seq<Byte>, used: nat)
    requires used <= |b| && b[..used] == Frames(f, rs) && |b| == used + Gap(used) && AllZero(b[used..])
    ensures b == Block(f, rs)
  {
    assert b == b[..used] + b[used..];
    assert b[used..] == Zeros(Gap(used));
  }

  lemma RoundUpIs(used: nat)
    ensures (used + ALIGN - 1) / ALIGN * ALIGN == used + Gap(used)
  {
  }

  // --------------------------------------------------------------- the writer

  class Writer {
    const format: Format
    const pattern: bool              // several files, by a name pattern
    const maxFile: nat               // 0 is unlimited
    const buffer: array<Byte>
    var used: nat
    var sequence: nat
    var failed: bool                 // sticky
    var files: seq<seq<Byte>>        // on disk; the last one is open for appending
    var fileOffset: nat
    ghost var disk: seq<seq<seq<Rec>>>
    ghost var pending: seq<Rec>

    ghost predicate BufferOk()
      reads this`used, this`pending, buffer
    {
      && buffer.Length > 0 && buffer.Length % ALIGN == 0 && format.buffer >= 0x1_0010
      && used <= buffer.Length && buffer[..used] == Frames(format, pending) && RecsOk(format, pending) &&
         (used == 0 <==> pending == [])
    }

    ghost predicate OnDisk()
      reads this`files, this`fileOffset, this`disk
    {
      disk != [] && files == Images(format, disk) && DiskOk(format, disk) && fileOffset == |files[|files| - 1]|
    }

    ghost predicate Valid()
      reads this, buffer
    {
      BufferOk() && OnDisk() && sequence == 1 + |Logged()| && Follows(Logged(), 0)
    }

    /** Where files are limited, one that is longer than the limit holds a single flush. */
    ghost predicate Bounded()
      reads this`files, this`disk
    {
      pattern && maxFile > 0 ==>
        |files| == |disk| && forall i :: 0 <= i < |files| ==> |files[i]| <= maxFile || |disk[i]| == 1
    }

    /** Everything appended so far, flushed or not. */
    ghost function Logged(): seq<Rec>
      reads this`disk, this`pending
    {
      Everything(disk) + pending
    }

    constructor (format: Format, pattern: bool, maxFile: nat, size: nat)
      requires size > 0 && size % ALIGN == 0 && format.buffer >= 0x1_0010
      ensures Valid() && Logged() == [] && !failed && this.format == format && fresh(buffer) && disk == [[]]
      ensures this.pattern == pattern && this.maxFile == maxFile && buffer.Length == size && used == 0 &&
          fileOffset == 0 && sequence == 1 && pending == [] && Bounded()
    {
      this.format, this.pattern, this.maxFile := format, pattern, maxFile;
      buffer := new Byte[size](_ => 0);
      used, sequence, failed, files, fileOffset := 0, 1, false, [[]], 0;
      disk, pending := [[]], [];
      new;
      assert Images(format, disk) == [File(format, [])] + Images(format, []);
    }

    /** Copies bytes behind what the buffer holds. */
    method Store(b: seq<Byte>)
      requires used + |b| <= buffer.Length
      modifies this`used, buffer
      ensures used == old(used) + |b| && buffer[..used] == old(buffer[..used]) + b
    {
      var at := used;
      forall i | 0 <= i < |b| { buffer[at + i] := b[i]; }
      used := used + |b|;
    }

    /** Writes the buffer, zero-padded to the block size, starting a new file when this one would grow too large. */
    method Flush()
      requires Valid()
      modifies this`used, this`files, this`fileOffset, this`disk, this`pending, buffer
      ensures Valid() && Logged() == old(Logged())
      ensures if failed then used == old(used) && disk == old(disk) else used == 0 && (old(pending) == [] ==>
          disk == old(disk))
      ensures !failed && old(pending) != [] ==>
          disk == Flushed(old(disk), old(pending), Rotates(old(fileOffset), old(used)))
      ensures old(Bounded()) ==> Bounded()
      ensures !pattern || maxFile == 0 ==> |disk| == |old(disk)|
      ensures |disk| > |old(disk)| ==> files != [] && old(fileOffset) + |files[|files| - 1]| > maxFile
    {
      hide Images, Everything, DiskOk, RecsOk, Follows, Flushed, Block, Written, Frames, Gap;
      if failed || used == 0 { return; }
      var b := Padded();
      var rotate := pattern && maxFile > 0 && fileOffset + |b| > maxFile;
      ghost var log := Logged();
      FlushedIs(format, disk, pending, rotate);
      FlushedOk(format, disk, pending, rotate);
      FlushedSizes(format, files, disk, pending, b, rotate);
      FramesNone(format);
      disk := Flushed(disk, pending, rotate);
      files, fileOffset := Written(files, b, rotate), if rotate then |b| else fileOffset + |b|;
      used, pending := 0, [];
      assert Logged() == log;
    }

    /** The buffered frames with zeros behind them up to the block boundary. */
    method Padded() returns (b: seq<Byte>)
      requires BufferOk()
      modifies buffer
      ensures b == Block(format, pending) && |b| == used + Gap(used) && BufferOk()
    {
      hide Frames, RecsOk;
      var size := (used + ALIGN - 1) / ALIGN * ALIGN;
      RoundUpIs(used);
      FitsBlock(used, buffer.Length);
      var at := used;
      ghost var held := buffer[..used];
      forall i | at <= i < size { buffer[i] := 0; }
      assert buffer[..used] == held;
      b := buffer[..size];
      assert b[..at] == held;
      BlockIs(format, pending, b, at);
    }

    ghost predicate Rotates(offset: nat, n: nat)
    {
      pattern && maxFile > 0 && offset + n + Gap(n) > maxFile
    }

    /** Appends a record; 0 means that the log has failed for good. */
    method Append(tag: nat, data: seq<Byte>) returns (no: nat)
      requires Valid() && TagOk(tag) && PayloadOk(tag, data)
      modifies this`used, this`sequence, this`failed, this`files, this`fileOffset, this`disk, this`pending, buffer
      ensures Valid()
      ensures (no == 0 ==> failed && Logged() == old(Logged())) && (old(Bounded()) ==> Bounded())
      ensures no != 0 ==> !failed && no == old(sequence) && Logged() == old(Logged()) + [Rec(no, tag, data)]
      ensures no != 0 && old(used) + FrameSize(format, |data|) <= buffer.Length ==>
                disk == old(disk) && fileOffset == old(fileOffset) && pending == old(pending) + [Rec(no, tag, data)]
                && used == old(used) + FrameSize(format, |data|)
      ensures no == 0 <==> old(failed) || |data| >= 0x1_0000 || FrameSize(format, |data|) > buffer.Length ||
                           old(sequence) >= SEQ_LIMIT
    {
      hide PayloadOk, OnDisk, BufferOk, Everything, Follows;
      if failed { return 0; }
      var total := FrameSize(format, |data|);
      if |data| >= 0x1_0000 || total > buffer.Length || sequence >= SEQ_LIMIT {
        failed := true;
        return 0;
      }
      if used + total > buffer.Length { Flush(); }
      no := Put(tag, data);
    }

    /** The next record goes into the buffer, where there is room for it. */
    method Put(tag: nat, data: seq<Byte>) returns (no: nat)
      requires Valid() && TagOk(tag) && PayloadOk(tag, data) && |data| < 0x1_0000 && sequence < SEQ_LIMIT
      requires used + FrameSize(format, |data|) <= buffer.Length
      modifies this`used, this`sequence, this`pending, buffer
      ensures Valid() && no == old(sequence) && pending == old(pending) + [Rec(no, tag, data)]
      ensures used == old(used) + FrameSize(format, |data|)
    {
      hide PayloadOk, Num, Le, Pack, OnDisk, Everything, Frames, Frame, RecOk;
      no := sequence;
      ghost var r, log := Rec(no, tag, data), Logged();
      var head := Le(Pack(no, tag, |data|), HEADER);
      sequence := sequence + 1;
      StoreFrame(head, data);
      RecFits(format, r);
      FrameIs(format, r, head);
      FramesAppend(format, pending, [r]);
      FramesOne(format, r);
      pending := pending + [r];
      assert Logged() == log + [r];
    }

    method StoreFrame(head: seq<Byte>, data: seq<Byte>)
      requires |head| == HEADER && used + FrameSize(format, |data|) <= buffer.Length
      modifies this`used, buffer
      ensures used == old(used) + FrameSize(format, |data|) &&
          buffer[..used] == old(buffer[..used]) + (head + data + Trailer(format, head + data))
    {
      var at := used;
      ghost var held := buffer[..used];
      Store(head);
      Store(data);
      if format.crc {
        var body := buffer[at..used];
        assert body == buffer[..used][at..];
        assert body == head + data;
        Store(Le(format.sum(body), 4));
      }
    }

    /** Closing and opening again: the sequence goes on from what a scan of the files finds. */
    method Reopen() returns (ok: bool)
      requires Valid() && !failed
      modifies this`used, this`sequence, this`files, this`fileOffset, this`disk, this`pending, buffer
      ensures OnDisk() && Everything(disk) == old(Logged()) && (ok <==> ParseFiles(format, files, 0).error.None?)
      ensures AllFine(format, disk) ==> ok && Valid() && Logged() == old(Logged()) && pending == []
      ensures !AllFine(format, disk) ==> Deviates(ParseFiles(format, files, 0), Everything(disk))
      ensures old(pending) == [] ==> disk == old(disk)
      ensures old(pending) != [] ==> disk == Flushed(old(disk), old(pending), Rotates(old(fileOffset), old(used)))
    {
      hide Images, Everything, DiskOk, RecsOk, Follows, Flushed, Frames, AllFine, ParseFiles;
      Flush();
      assert pending == [] && Logged() == Everything(disk);
      var p := ReadAll(format, files);
      DiskParses(format, disk, 0);
      if p.error.Some? { return false; }
      sequence := p.last + 1;
      return true;
    }
  }

  lemma FramesNone(f: Format)
    ensures Frames(f, []) == [] && RecsOk(f, [])
  {
  }

  lemma FrameIs(f: Format, r: Rec, head: seq<Byte>)
    requires head == Le(Pack(r.no, r.tag, |r.data|), HEADER)
    ensures Frame(f, r) == head + r.data + Trailer(f, head + r.data)
  {
  }

  lemma RecFits(f: Format, r: Rec)
    requires 0 < r.no < SEQ_LIMIT && TagOk(r.tag) && |r.data| < 0x1_0000 && PayloadOk(r.tag, r.data) &&
        f.buffer >= 0x1_0010
    ensures RecOk(f, r)
  {
  }

  lemma FitsBlock(used: nat, size: nat)
    requires used <= size && size % ALIGN == 0
    ensures used + Gap(used) <= size
  {
  }

  /** Reading back what a writer has put on disk: the appended records but for those still in its buffer. */
  method ReadBack(w: Writer) returns (p: Parsed)
    requires w.Valid()
    ensures AllFine(w.format, w.disk) ==>
              p.error.None? && p.recs + w.pending == w.Logged() && p.last + |w.pending| + 1 == w.sequence &&
                  Follows(p.recs, 0)
    ensures !AllFine(w.format, w.disk) ==> Deviates(p, Everything(w.disk))
  {
    hide AllFine, Deviates, Images, Everything, DiskOk, Frames, RecsOk, ParseFiles;
    p := ReadAll(w.format, w.files);
    FollowsPart(Everything(w.disk), w.pending, 0);
    DiskParses(w.format, w.disk, 0);
  }

  // -------------------------------------------------- when gaps are always fine

  lemma {:induction false} FramesAligned(f: Format, rs: seq<Rec>)
    requires !f.crc && forall i :: 0 <= i < |rs| ==> |rs[i].data| % 8 == 0
    ensures |Frames(f, rs)| % 8 == 0
    decreases |rs|
  {
    hide Frame;
    if rs != [] {
      FramesAligned(f, rs[1..]);
      assert |Frames(f, rs)| == 8 + |rs[0].data| + |Frames(f, rs[1..])|;
    }
  }

  /** Without checksums and with payloads of whole words no gap is ever in doubt. */
  lemma AlignedFine(f: Format, rs: seq<Rec>, next: Rec)
    requires !f.crc && forall i :: 0 <= i < |rs| ==> |rs[i].data| % 8 == 0
    ensures GapFine(f, rs, next)
  {
    hide Frames;
    FramesAligned(f, rs);
  }

  lemma AlignedFile(f: Format, bs: seq<seq<Rec>>)
    requires !f.crc && forall i, j :: 0 <= i < |bs| && 0 <= j < |bs[i]| ==> |bs[i][j].data| % 8 == 0
    ensures GapsFine(f, bs)
  {
    hide GapFine;
    forall i | 0 <= i < |bs| - 1 && bs[i + 1] != []
        ensures GapFine(f, bs[i], bs[i + 1][0]) { AlignedFine(f, bs[i], bs[i + 1][0]); }
  }

  ghost predicate WholeWords(disk: seq<seq<seq<Rec>>>) {
    forall k, i, j :: 0 <= k < |disk| && 0 <= i < |disk[k]| && 0 <= j < |disk[k][i]| ==> |disk[k][i][j].data| % 8 == 0
  }

  lemma AlignedDisk(f: Format, disk: seq<seq<seq<Rec>>>)
    requires !f.crc && WholeWords(disk)
    ensures AllFine(f, disk)
  {
    hide GapsFine;
    forall k | 0 <= k < |disk| ensures GapsFine(f, disk[k]) { AlignedFile(f, disk[k]); }
  }
}
