/**
 What a parse says about any bytes at all. The records returned stand in the files as frames, one
 behind the other but for padding, with contiguous numbers across files, and a parse that ends with
 an error ends where neither a frame that goes on nor padding stands.
 */
module WalSound {
  import opened Common
  import opened WalFormat
  import opened WalParse

  // ------------------------------------------------------------ from bytes back

  lemma UnpackPack(packed: nat)
    requires packed < 0x1_0000_0000_0000_0000
    ensures Pack(HeaderSeq(packed), HeaderTag(packed), HeaderLen(packed)) == packed
    ensures HeaderSeq(packed) < SEQ_LIMIT && HeaderTag(packed) < 0x100 && HeaderLen(packed) < 0x1_0000
  {
    var upper := packed / 0x1_0000;
    assert packed == upper * 0x1_0000 + packed % 0x1_0000 && upper == upper / 0x100 * 0x100 + upper % 0x100;
    assert packed / 0x100_0000 == upper / 0x100 by {
      assert packed == (upper / 0x100) * 0x100_0000 + (upper % 0x100 * 0x1_0000 + packed % 0x1_0000);
      Split24(upper / 0x100, upper % 0x100 * 0x1_0000 + packed % 0x1_0000);
    }
  }

  /** A record that is returned stands there as its frame, checksum included. */
  lemma GotStands(f: Format, file: seq<Byte>, off: nat, last: nat)
    requires off <= |file| && ParseAt(f, file, off, last).Got?
    ensures var g := ParseAt(f, file, off, last);
            && RecOk(f, g.rec) && Shaped(g.rec) && Holds(file, off, Frame(f, g.rec)) &&
               g.next == off + |Frame(f, g.rec)|
            && g.rec.no > 0 && (last == 0 || g.rec.no == last + 1)
  {
    hide Num, Le, Pack, Pow, HeaderSeq, HeaderTag, HeaderLen;
    var g, w := ParseAt(f, file, off, last), file[off..off + HEADER];
    var packed := Num(w);
    NumLe(w);
    PowEight();
    UnpackPack(packed);
    var len := HeaderLen(packed);
    var data, body := file[off + HEADER..off + HEADER + len], file[off..off + HEADER + len];
    assert Head(g.rec) == w;
    assert body == w + data;
    assert file[off..off + FrameSize(f, len)] == body + file[off + HEADER + len..off + FrameSize(f, len)];
  }

  // --------------------------------------------------------------- how files are laid out

  datatype Piece = Record(rec: Rec) | Padding(n: nat)

  function Piecewise(f: Format, p: Piece): seq<Byte> {
    match p case Record(r) => Frame(f, r) case Padding(n) => Zeros(n)
  }

  function Image(f: Format, ps: seq<Piece>): seq<Byte> {
    if ps == [] then [] else Piecewise(f, ps[0]) + Image(f, ps[1..])
  }

  /** Known types only, and payloads of the sizes these have. */
  predicate Shaped(r: Rec) {
    && 0 < r.no < 0x100_0000_0000 && |r.data| < 0x1_0000 && (1 <= r.tag <= 6 || 0x80 <= r.tag < 0x100)
    && (r.tag == 1 ==> |r.data| >= 56 && |r.data| == 56 + Num(r.data[40..44]) + Num(r.data[44..48]))
    && (r.tag == 2 || r.tag == 5 || r.tag == 6 ==> |r.data| == 24) && (r.tag == 3 ==> |r.data| == 48)
  }

  /** Records have their shapes, and padding reaches through the next block boundary. */
  predicate Laid(f: Format, ps: seq<Piece>, off: nat)
    decreases |ps|
  {
    ps == []
    || (&& (match ps[0] case Record(r) => Shaped(r) case Padding(n) => 0 < n <= ALIGN && (off + n) % ALIGN == 0)
        && Laid(f, ps[1..], off + |Piecewise(f, ps[0])|))
  }

  function RecsOf(ps: seq<Piece>): seq<Rec> {
    if ps == [] then [] else (if ps[0].Record? then [ps[0].rec] else []) + RecsOf(ps[1..])
  }

  /** Numbers are contiguous, and the first goes on from `last` if there was one. */
  ghost predicate Numbered(rs: seq<Rec>, last: nat) {
    rs != [] ==>
      && 0 < rs[0].no && (last == 0 || rs[0].no == last + 1) && forall i :: 0 <= i < |rs| ==> rs[i].no == rs[0].no + i
  }

  function LastOf(rs: seq<Rec>, last: nat): nat { if rs == [] then last else rs[|rs| - 1].no }

  /** Zeros through the next block boundary, and nothing in the next eight bytes that could be a header. */
  ghost predicate Padded(file: seq<Byte>, off: nat) {
    && off < |file| && (exists n :: 0 < n <= ALIGN && (off + n) % ALIGN == 0 && Holds(file, off, Zeros(n)))
    && (|file| - off >= HEADER ==> Holds(file, off, Zeros(HEADER)))
  }

  ghost predicate Framed(f: Format, file: seq<Byte>, off: nat, last: nat) {
    exists r :: RecOk(f, r) && (last == 0 || r.no == last + 1) && Holds(file, off, Frame(f, r))
  }

  /** Neither a frame that goes on from `last` nor padding stands here, though the file does not end. */
  ghost predicate Nothing(f: Format, file: seq<Byte>, off: nat, last: nat) {
    off < |file| && !Framed(f, file, off, last) && !Padded(file, off)
  }

  lemma PadReach(off: nat, n: nat)
    requires 0 < n <= ALIGN && (off + n) % ALIGN == 0
    ensures n == ALIGN - off % ALIGN
  {
    if n == ALIGN {
      assert (off + ALIGN) % ALIGN == off % ALIGN;
    } else {
      PadIs(off, n);
    }
  }

  lemma PadBoundary(off: nat)
    ensures var n := ALIGN - off % ALIGN; 0 < n <= ALIGN && (off + n) % ALIGN == 0
  {
    var k := off / ALIGN + 1;
    assert off + (ALIGN - off % ALIGN) == k * ALIGN;
    assert (k * ALIGN) % ALIGN == 0;
  }

  lemma ZeroHead(file: seq<Byte>, off: nat)
    requires off + HEADER <= |file|
    ensures Num(file[off..off + HEADER]) == 0 <==> Holds(file, off, Zeros(HEADER))
  {
    NumZero(file[off..off + HEADER]);
  }

  lemma BadMeans(f: Format, file: seq<Byte>, off: nat, last: nat)
    requires off <= |file| && ParseAt(f, file, off, last).Bad?
    ensures Nothing(f, file, off, last)
  {
    hide BodyAt, RecOk, Frame, Num;
    forall r | RecOk(f, r) && (last == 0 || r.no == last + 1) ensures !Holds(file, off, Frame(f, r)) {
      if Holds(file, off, Frame(f, r)) { FrameParses(f, file, off, r, last); }
    }
    if Padded(file, off) {
      var n :| 0 < n <= ALIGN && (off + n) % ALIGN == 0 && Holds(file, off, Zeros(n));
      PadReach(off, n);
      if |file| - off >= HEADER { ZeroHead(file, off); }
      assert false;
    }
  }

  lemma SkipMeans(f: Format, file: seq<Byte>, off: nat, last: nat)
    requires off <= |file| && ParseAt(f, file, off, last).Skip?
    ensures var n := ParseAt(f, file, off, last).next - off;
            0 < n <= ALIGN && (off + n) % ALIGN == 0 && Holds(file, off, Zeros(n)) && Padded(file, off)
  {
    hide BodyAt, Num;
    BodyNeverSkips(f, file, off, last);
    var n := ALIGN - off % ALIGN;
    PadBoundary(off);
    assert file[off..off + n] == Zeros(n);
    if |file| - off >= HEADER { ZeroHead(file, off); }
  }

  lemma BodyNeverSkips(f: Format, file: seq<Byte>, off: nat, last: nat)
    requires off <= |file|
    ensures off + HEADER <= |file| ==> !BodyAt(f, file, off, last).Skip?
  {
  }

  /** The layout of what a parse reads, and what is wrong where it stops. */
  ghost predicate Reads(f: Format, file: seq<Byte>, off: nat, last: nat, p: Parsed, ps: seq<Piece>) {
    && Laid(f, ps, off) && Holds(file, off, Image(f, ps)) && RecsOf(ps) == p.recs && Numbered(p.recs, last)
    && p.last == LastOf(p.recs, last)
    && if p.error.None? then off + |Image(f, ps)| == |file| else Nothing(f, file, off + |Image(f, ps)|, p.last)
  }

  /** A file, whatever its bytes. */
  lemma {:induction false} FileSound(f: Format, file: seq<Byte>, off: nat, last: nat) returns (ps: seq<Piece>)
    requires off <= |file|
    ensures Reads(f, file, off, last, ParseFrom(f, file, off, last), ps)
    decreases |file| - off
  {
    hide Reads, ParseAt, Frame, RecOk, Shaped, Numbered, Holds;
    match ParseAt(f, file, off, last)
    case End =>
      ps := [];
      ReadsNothing(f, file, off, last, None);
    case Bad(e) =>
      ps := [];
      BadMeans(f, file, off, last);
      ReadsNothing(f, file, off, last, Some(e));
    case Skip(n) =>
      SkipMeans(f, file, off, last);
      var rest := FileSound(f, file, n, last);
      ps := [Padding(n - off)] + rest;
      ReadsPad(f, file, off, last, n - off, ParseFrom(f, file, n, last), rest);
    case Got(r, n) =>
      GotStands(f, file, off, last);
      var rest := FileSound(f, file, n, r.no);
      ps := [Record(r)] + rest;
      ReadsRecord(f, file, off, last, r, ParseFrom(f, file, n, r.no), rest);
  }

  lemma ReadsNothing(f: Format, file: seq<Byte>, off: nat, last: nat, e: Option<Error>)
    requires off <= |file| && if e.None? then off == |file| else Nothing(f, file, off, last)
    ensures Reads(f, file, off, last, Parsed([], e, last), [])
  {
    hide Nothing;
    assert file[off..off] == [];
  }

  lemma ReadsPad(f: Format, file: seq<Byte>, off: nat, last: nat, n: nat, p: Parsed, rest: seq<Piece>)
    requires 0 < n <= ALIGN && (off + n) % ALIGN == 0 && Holds(file, off, Zeros(n)) &&
        Reads(f, file, off + n, last, p, rest)
    ensures Reads(f, file, off, last, p, [Padding(n)] + rest)
  {
    hide Nothing, Holds, Numbered, Laid, Image, RecsOf;
    LayOne(f, file, off, Padding(n), rest);
    assert [] + RecsOf(rest) == RecsOf(rest);
  }

  lemma ReadsRecord(f: Format, file: seq<Byte>, off: nat, last: nat, r: Rec, p: Parsed, rest: seq<Piece>)
    requires Shaped(r) && Holds(file, off, Frame(f, r)) && r.no > 0 && (last == 0 || r.no == last + 1)
    requires Reads(f, file, off + |Frame(f, r)|, r.no, p, rest)
    ensures Reads(f, file, off, last, p.(recs := [r] + p.recs), [Record(r)] + rest)
  {
    hide Nothing, Holds, Numbered, Laid, Image, RecsOf, Shaped, Frame;
    LayOne(f, file, off, Record(r), rest);
    NumberOne(r, p.recs, last);
  }

  lemma LayOne(f: Format, file: seq<Byte>, off: nat, p: Piece, rest: seq<Piece>)
    requires Holds(file, off, Piecewise(f, p)) && Holds(file, off + |Piecewise(f, p)|, Image(f, rest))
    requires Laid(f, rest, off + |Piecewise(f, p)|)
    requires match p case Record(r) => Shaped(r) case Padding(n) => 0 < n <= ALIGN && (off + n) % ALIGN == 0
    ensures Laid(f, [p] + rest, off) && Holds(file, off, Image(f, [p] + rest))
    ensures |Image(f, [p] + rest)| == |Piecewise(f, p)| + |Image(f, rest)|
    ensures RecsOf([p] + rest) == (if p.Record? then [p.rec] else []) + RecsOf(rest)
  {
    hide Shaped, Piecewise, Holds;
    var ps := [p] + rest;
    assert ps[0] == p && ps[1..] == rest;
    HoldsBoth(file, off, Piecewise(f, p), Image(f, rest));
  }

  lemma HoldsBoth(file: seq<Byte>, off: nat, a: seq<Byte>, b: seq<Byte>)
    requires Holds(file, off, a) && Holds(file, off + |a|, b)
    ensures Holds(file, off, a + b)
  {
    assert file[off..off + |a| + |b|] == file[off..off + |a|] + file[off + |a|..off + |a| + |b|];
  }

  lemma NumberOne(r: Rec, rs: seq<Rec>, last: nat)
    requires Numbered(rs, r.no) && r.no > 0 && (last == 0 || r.no == last + 1)
    ensures Numbered([r] + rs, last) && LastOf([r] + rs, last) == LastOf(rs, r.no)
  {
    var all := [r] + rs;
    forall i | 0 <= i < |all| ensures all[i].no == all[0].no + i { if i > 0 { assert all[i] == rs[i - 1]; } }
  }

  lemma NumberedAppend(a: seq<Rec>, b: seq<Rec>, last: nat)
    requires Numbered(a, last) && Numbered(b, LastOf(a, last))
    ensures Numbered(a + b, last) && LastOf(a + b, last) == LastOf(b, LastOf(a, last))
  {
    var all := a + b;
    forall i | 0 <= i < |all| ensures all[i].no == all[0].no + i { if i >= |a| { assert all[i] == b[i - |a|]; } }
  }

  // ------------------------------------------------------------------ all files

  function Listed(layout: seq<seq<Piece>>): seq<Rec> {
    if layout == [] then [] else RecsOf(layout[0]) + Listed(layout[1..])
  }

  /** What is read of the files one after the other: all of each, but for the one with the error. */
  ghost predicate ReadsFiles(f: Format, files: seq<seq<Byte>>, last: nat, p: Parsed, layout: seq<seq<Piece>>) {
    && |layout| <= |files| && Listed(layout) == p.recs && Numbered(p.recs, last) && p.last == LastOf(p.recs, last)
    && (forall i :: 0 <= i < |layout| ==> Laid(f, layout[i], 0) && Holds(files[i], 0, Image(f, layout[i])))
    && (forall i :: 0 <= i < |layout| && (p.error.None? || i < |layout| - 1) ==> Image(f, layout[i]) == files[i])
    && if p.error.None? then |layout| == |files|
       else layout != [] && Nothing(f, files[|layout| - 1], |Image(f, layout[|layout| - 1])|, p.last)
  }

  /**
   Any files: the records returned are those of a layout of what was read, numbered without a gap from
   file to file. Either that layout is all of the files, or there is an error and nothing that could be
   read stands where it ends.
   */
  lemma {:induction false} FilesSound(f: Format, files: seq<seq<Byte>>, last: nat) returns (layout: seq<seq<Piece>>)
    ensures ReadsFiles(f, files, last, ParseFiles(f, files, last), layout)
    decreases |files|
  {
    hide ReadsFiles, Reads, ParseFrom;
    if files == [] {
      layout := [];
      NoFiles(f, last);
    } else {
      var first := FileSound(f, files[0], 0, last);
      var p := ParseFrom(f, files[0], 0, last);
      if p.error.Some? {
        layout := [first];
        BrokenFile(f, files, last, p, first);
      } else {
        var rest := FilesSound(f, files[1..], p.last);
        layout := [first] + rest;
        WholeFile(f, files, last, p, first, ParseFiles(f, files[1..], p.last), rest);
      }
    }
  }

  lemma NoFiles(f: Format, last: nat)
    ensures ReadsFiles(f, [], last, Parsed([], None, last), [])
  {
  }

  lemma BrokenFile(f: Format, files: seq<seq<Byte>>, last: nat, p: Parsed, first: seq<Piece>)
    requires files != [] && p.error.Some? && Reads(f, files[0], 0, last, p, first)
    ensures ReadsFiles(f, files, last, p, [first])
  {
    hide Nothing, Laid, Image, RecsOf, Numbered;
    assert [first][1..] == [] && Listed([]) == [];
    assert Listed([first]) == RecsOf(first) + [] == RecsOf(first);
  }

  lemma WholeFile(f: Format, files: seq<seq<Byte>>, last: nat, p: Parsed, first: seq<Piece>, q: Parsed,
                  rest: seq<seq<Piece>>)
    requires files != [] && p.error.None? && Reads(f, files[0], 0, last, p, first) &&
        ReadsFiles(f, files[1..], p.last, q, rest)
    ensures ReadsFiles(f, files, last, q.(recs := p.recs + q.recs), [first] + rest)
  {
    hide Nothing, Laid, Image, RecsOf, Numbered;
    var layout := [first] + rest;
    assert layout[1..] == rest && layout[0] == first;
    NumberedAppend(p.recs, q.recs, last);
    assert files[0][0..|files[0]|] == files[0];
    forall i | 0 < i < |layout| ensures layout[i] == rest[i - 1] && files[i] == files[1..][i - 1] { }
  }

  // ------------------------------------------------------- which error where

  /** A header with an unknown type, without a number, or with one that does not go on, is a read error. */
  lemma HeadRefused(f: Format, file: seq<Byte>, off: nat, r: Rec, last: nat)
    requires r.no < SEQ_LIMIT && r.tag < 0x100 && |r.data| < 0x1_0000 && Holds(file, off, Head(r))
    requires r.no != 0 || r.tag != 0 || r.data != []
    requires r.no == 0 || r.tag == 0 || 6 < r.tag < 0x80 || (last != 0 && r.no != last + 1)
    ensures ParseAt(f, file, off, last) == Bad(ReadError)
  {
    hide PayloadOk, Num, Le;
    HeadNum(r);
  }

  /** A frame cut off by the end of the file behind its header, or too long for the buffer, is truncated. */
  lemma FrameCut(f: Format, file: seq<Byte>, off: nat, r: Rec, last: nat)
    requires 0 < r.no < SEQ_LIMIT && TagOk(r.tag) && |r.data| < 0x1_0000 && (last == 0 || r.no == last + 1)
    requires Holds(file, off, Head(r))
    requires FrameSize(f, |r.data|) > f.buffer || off + FrameSize(f, |r.data|) > |file|
    ensures ParseAt(f, file, off, last) == Bad(Truncated)
  {
    hide PayloadOk, Num, Le;
    HeadNum(r);
  }

  /** A frame with another trailer than its checksum is a mismatch. */
  lemma SumWrong(f: Format, file: seq<Byte>, off: nat, r: Rec, trailer: seq<Byte>, last: nat)
    requires f.crc && RecOk(f, r) && (last == 0 || r.no == last + 1)
    requires |trailer| == 4 && trailer != Le(f.sum(Head(r) + r.data), 4) && Holds(file, off, Head(r) + r.data + trailer)
    ensures ParseAt(f, file, off, last) == Bad(CrcMismatch)
  {
    hide PayloadOk, Num, Le;
    var body := Head(r) + r.data;
    HoldsPart(file, off, body, trailer);
    HoldsPart(file, off, Head(r), r.data);
    HeadNum(r);
  }

  /** Eight zeros, or fewer bytes than a header, begin padding: damaged if not all zero, truncated if too short. */
  lemma PadWrong(f: Format, file: seq<Byte>, off: nat, n: nat, last: nat)
    requires off < |file| && (off + HEADER <= |file| ==> Holds(file, off, Zeros(HEADER)))
    requires 0 < n <= ALIGN && (off + n) % ALIGN == 0
    ensures ParseAt(f, file, off, last) ==
            if off + n > |file| then Bad(Truncated) else if Holds(file, off, Zeros(n)) then Skip(off + n)
                else Bad(ReadError)
  {
    hide BodyAt, Num;
    PadReach(off, n);
    if off + HEADER <= |file| { ZeroHead(file, off); }
    if off + n <= |file| && AllZero(file[off..off + n]) { assert file[off..off + n] == Zeros(n); }
  }
}
