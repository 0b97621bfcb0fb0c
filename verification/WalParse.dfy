/**
 What is on disk and what a parse of it returns. A writer's flush leaves a block: frames and zeros
 up to the block boundary. Parsing the files gives back exactly the records that were flushed, if
 and only if no block that is followed by another one in its file ends with a gap the reader takes
 for the beginning of a header.
 */
module WalParse {
  import opened Common
  import opened WalFormat

  // ------------------------------------------------------------ what is on disk

  function Frames(f: Format, rs: seq<Rec>): seq<Byte> {
    if rs == [] then [] else Frame(f, rs[0]) + Frames(f, rs[1..])
  }

  function Gap(used: nat): (g: nat)
    ensures g < ALIGN && (used + g) % ALIGN == 0
  {
    (ALIGN - used % ALIGN) % ALIGN
  }

  function Zeros(n: nat): (b: seq<Byte>)
    ensures |b| == n && AllZero(b)
  {
    seq(n, _ => 0)
  }

  /** What one flush writes. */
  function Block(f: Format, rs: seq<Rec>): (b: seq<Byte>)
    ensures |b| % ALIGN == 0
  {
    Frames(f, rs) + Zeros(Gap(|Frames(f, rs)|))
  }

  function File(f: Format, bs: seq<seq<Rec>>): seq<Byte> {
    if bs == [] then [] else Block(f, bs[0]) + File(f, bs[1..])
  }

  function Flat<T>(bs: seq<seq<T>>): seq<T> { if bs == [] then [] else bs[0] + Flat(bs[1..]) }

  /** Sequence numbers are contiguous and go on from `last`. */
  ghost predicate Follows(rs: seq<Rec>, last: nat) { forall i :: 0 <= i < |rs| ==> rs[i].no == last + 1 + i }

  ghost predicate RecsOk(f: Format, rs: seq<Rec>) { forall i :: 0 <= i < |rs| ==> RecOk(f, rs[i]) }

  ghost predicate FileOk(f: Format, bs: seq<seq<Rec>>) { forall i :: 0 <= i < |bs| ==> bs[i] != [] && RecsOk(f, bs[i]) }

  /** The gap after a block is not mistaken for the start of a header when `next` comes behind it. */
  predicate GapFine(f: Format, rs: seq<Rec>, next: Rec) {
    var g := Gap(|Frames(f, rs)|);
    || g == 0 || g >= HEADER
    || (g == 7 && |next.data| % 256 == 0)
    || (g == 6 && next.data == [])
  }

  ghost predicate GapsFine(f: Format, bs: seq<seq<Rec>>) {
    forall i :: 0 <= i < |bs| - 1 && bs[i + 1] != [] ==> GapFine(f, bs[i], bs[i + 1][0])
  }

  // ------------------------------------------------------- parsing a whole file

  datatype Parsed = Parsed(recs: seq<Rec>, error: Option<Error>, last: nat)

  function ParseFrom(f: Format, file: seq<Byte>, off: nat, last: nat): Parsed
    requires off <= |file|
    decreases |file| - off
  {
    match ParseAt(f, file, off, last)
    case End => Parsed([], None, last)
    case Bad(e) => Parsed([], Some(e), last)
    case Skip(n) => ParseFrom(f, file, n, last)
    case Got(r, n) => var p := ParseFrom(f, file, n, r.no); p.(recs := [r] + p.recs)
  }

  /** The files in order, each going on from the sequence number of the one before. */
  function ParseFiles(f: Format, files: seq<seq<Byte>>, last: nat): Parsed
    decreases |files|
  {
    if files == [] then Parsed([], None, last)
    else
      var p := ParseFrom(f, files[0], 0, last);
      if p.error.Some? then p
      else
        var q := ParseFiles(f, files[1..], p.last);
        q.(recs := p.recs + q.recs)
  }

  /** An error, or a record that is not the one written there. */
  ghost predicate Deviates(p: Parsed, rs: seq<Rec>) {
    p.error.Some? || exists i :: 0 <= i < |p.recs| && i < |rs| && p.recs[i] != rs[i]
  }

  lemma {:induction false} ParseFrames(f: Format, file: seq<Byte>, off: nat, rs: seq<Rec>, last: nat)
    requires RecsOk(f, rs) && Follows(rs, last) && Holds(file, off, Frames(f, rs))
    ensures var p := ParseFrom(f, file, off + |Frames(f, rs)|, last + |rs|);
            ParseFrom(f, file, off, last) == p.(recs := rs + p.recs)
    decreases |rs|
  {
    hide RecOk, Frame, ParseAt, ParseFrom, FrameSize, Holds;
    HoldsIn(file, off, Frames(f, rs));
    if rs == [] {
      assert rs + ParseFrom(f, file, off, last).recs == ParseFrom(f, file, off, last).recs;
    } else {
      var size := |Frame(f, rs[0])|;
      HoldsPart(file, off, Frame(f, rs[0]), Frames(f, rs[1..]));
      ParseOne(f, file, off, rs[0], last);
      ParseFrames(f, file, off + size, rs[1..], last + 1);
      var p := ParseFrom(f, file, off + |Frames(f, rs)|, last + |rs|);
      assert [rs[0]] + (rs[1..] + p.recs) == rs + p.recs;
    }
  }

  lemma HoldsIn(file: seq<Byte>, off: nat, b: seq<Byte>)
    requires Holds(file, off, b)
    ensures off + |b| <= |file|
  {
  }

  lemma ParseOne(f: Format, file: seq<Byte>, off: nat, r: Rec, last: nat)
    requires RecOk(f, r) && Holds(file, off, Frame(f, r)) && r.no == last + 1
    ensures var n := off + |Frame(f, r)|;
            n <= |file| && var p := ParseFrom(f, file, n, last + 1);
                ParseFrom(f, file, off, last) == p.(recs := [r] + p.recs)
  {
    hide RecOk, Frame, ParseAt;
    FrameParses(f, file, off, r, last);
  }

  // ------------------------------------------------------------------ the gaps

  lemma PadIs(off: nat, g: nat)
    requires 0 < g < ALIGN && (off + g) % ALIGN == 0
    ensures ALIGN - off % ALIGN == g
  {
  }

  /** Zeros up to the boundary are skipped once they have been recognised as padding. */
  lemma PadSkips(file: seq<Byte>, off: nat, g: nat)
    requires 0 < g < ALIGN && (off + g) % ALIGN == 0 && Holds(file, off, Zeros(g))
    ensures PadAt(file, off) == Skip(off + g)
  {
    PadIs(off, g);
  }

  /** The first bytes of a header: the length, low byte first, then the type. */
  lemma HeadBytes(r: Rec)
    requires r.no < SEQ_LIMIT && r.tag < 0x100 && |r.data| < 0x1_0000
    ensures Head(r)[0] == |r.data| % 256 && Head(r)[1] == |r.data| / 256 && Head(r)[2] == r.tag
  {
    var n, len := Pack(r.no, r.tag, |r.data|), |r.data|;
    PackUnpack(r.no, r.tag, len);
    assert Head(r) == [n % 256] + Le(n / 256, 7);
    assert Le(n / 256, 7) == [n / 256 % 256] + Le(n / 256 / 256, 6);
    assert Le(n / 256 / 256, 6) == [n / 256 / 256 % 256] + Le(n / 256 / 256 / 256, 5);
    Bytes(n);
    Bytes(len);
  }

  lemma Bytes(n: nat)
    ensures n / 256 / 256 == n / 0x1_0000 && n % 256 == n % 0x1_0000 % 256 && n / 256 % 256 == n % 0x1_0000 / 256
  {
    var a, b, c := n % 256, n / 256 % 256, n / 256 / 256;
    assert n == c * 0x1_0000 + (b * 256 + a);
    Split16(c, b * 256 + a);
    Split8(b, a);
  }

  /** The eight bytes at a short gap: its zeros, then the beginning of the next header. */
  lemma GapBytes(f: Format, file: seq<Byte>, off: nat, g: nat, next: Rec)
    requires 0 < g < HEADER && Holds(file, off, Zeros(g)) && Holds(file, off + g, Frame(f, next))
    ensures off + HEADER <= |file| && file[off..off + HEADER] == Zeros(g) + Head(next)[..HEADER - g]
  {
    hide Le;
    var w, z, b := file[off..off + HEADER], file[off..off + g], file[off + g..off + g + |Frame(f, next)|];
    assert z == Zeros(g) && b == Frame(f, next);
    forall i | 0 <= i < HEADER ensures w[i] == (Zeros(g) + Head(next)[..HEADER - g])[i] {
      if i < g {
        assert w[i] == z[i];
      } else {
        assert w[i] == b[i - g];
        assert Frame(f, next)[i - g] == Head(next)[i - g];
      }
    }
  }

  /** When a short gap before another frame reads as zero. */
  lemma GapZero(f: Format, file: seq<Byte>, off: nat, g: nat, next: Rec)
    requires 0 < g < HEADER && Holds(file, off, Zeros(g)) && Holds(file, off + g, Frame(f, next)) && RecOk(f, next)
    ensures off + HEADER <= |file|
    ensures Num(file[off..off + HEADER]) == 0 <==> (g == 7 && |next.data| % 256 == 0) || (g == 6 && next.data == [])
  {
    GapBytes(f, file, off, g, next);
    HeadBytes(next);
    var w := file[off..off + HEADER];
    NumZero(w);
    assert forall i :: 0 <= i < g ==> w[i] == 0;
    assert w[g] == Head(next)[0];
    if g < 7 { assert w[g + 1] == Head(next)[1]; }
    if g < 6 { assert w[g + 2] == Head(next)[2]; }
  }

  lemma NumLow(w: seq<Byte>)
    requires |w| == HEADER
    ensures HeaderLen(Num(w)) == w[0] + 256 * (w[1] as nat) && HeaderTag(Num(w)) == w[2]
  {
    var high := Num(w[3..]);
    assert w[1..][1..] == w[2..] && w[2..][1..] == w[3..];
    assert Num(w[2..]) == w[2] + 256 * high;
    assert Num(w[1..]) == w[1] + 256 * Num(w[2..]);
    var low, upper := w[0] + 256 * (w[1] as nat), Num(w[2..]);
    assert Num(w) == upper * 0x1_0000 + low;
    Split16(upper, low);
    Split8(high, w[2]);
  }

  /** A short gap that does not read as zero is never followed by the record that was written there. */
  lemma GapMisread(f: Format, file: seq<Byte>, off: nat, g: nat, next: Rec, last: nat)
    requires 0 < g < HEADER && Holds(file, off, Zeros(g)) && Holds(file, off + g, Frame(f, next)) && RecOk(f, next)
    requires off + HEADER <= |file| && Num(file[off..off + HEADER]) != 0
    ensures var i := ParseAt(f, file, off, last); i.Bad? || (i.Got? && i.rec != next)
  {
    hide PayloadOk, Num, Le;
    GapBytes(f, file, off, g, next);
    HeadBytes(next);
    var w := file[off..off + HEADER];
    NumLow(w);
    assert forall i :: 0 <= i < g ==> w[i] == 0;
    assert forall i :: g <= i < HEADER ==> w[i] == Head(next)[i - g];
    var item := BodyAt(f, file, off, last);
    if item.Got? {
      assert HeaderTag(Num(w)) == w[2] && TagOk(w[2]);
      assert g < 3;
      assert |item.rec.data| == w[0] + 256 * (w[1] as nat);
      if g == 1 {
        assert w[1] == Head(next)[0] && w[2] == Head(next)[1];
        LengthApart(|next.data|, w[1], w[2]);
      }
    }
  }

  /** A gap of three to five bytes before another frame is never read past: its type byte is zero. */
  lemma GapStops(f: Format, file: seq<Byte>, off: nat, g: nat, next: Rec, last: nat)
    requires 3 <= g <= 5 && Holds(file, off, Zeros(g)) && Holds(file, off + g, Frame(f, next)) && RecOk(f, next)
    ensures off <= |file| && ParseAt(f, file, off, last) == Bad(ReadError)
  {
    hide PayloadOk, Num, Le;
    GapZero(f, file, off, g, next);
    GapBytes(f, file, off, g, next);
    var w := file[off..off + HEADER];
    NumLow(w);
    assert w[2] == Zeros(g)[2];
  }

  lemma LengthApart(len: nat, low: nat, high: nat)
    requires len < 0x1_0000 && low == len % 256 && high == len / 256 && high > 0
    ensures 256 * low != len
  {
  }

  // ------------------------------------------------------------------- a file

  /** At the end of the frames of a block. */
  lemma AtGap(f: Format, file: seq<Byte>, off: nat, rs: seq<Rec>, rest: seq<seq<Rec>>, last: nat)
    requires FileOk(f, rest) && (off + Gap(|Frames(f, rs)|)) % ALIGN == 0
    requires Holds(file, off, Zeros(Gap(|Frames(f, rs)|))) && off + Gap(|Frames(f, rs)|) + |File(f, rest)| == |file|
    requires Holds(file, off + Gap(|Frames(f, rs)|), File(f, rest))
    ensures var g := Gap(|Frames(f, rs)|);
            if rest == [] || GapFine(f, rs, rest[0][0])
                then ParseFrom(f, file, off, last) == ParseFrom(f, file, off + g, last)
            else Deviates(ParseFrom(f, file, off, last), Flat(rest))
  {
    hide RecOk, Frame, File, Frames, BodyAt, PadAt;
    var g := Gap(|Frames(f, rs)|);
    if g > 0 {
      PadSkips(file, off, g);
      if rest == [] {
        FileEmpty(f);
        if g >= HEADER { NumZeros(file, off, g); }
      } else {
        FirstFrame(f, file, off + g, rest);
        FlatFirst(rest);
        if g >= HEADER { NumZeros(file, off, g); }
        else {
          GapZero(f, file, off, g, rest[0][0]);
          if !GapFine(f, rs, rest[0][0]) { GapMisread(f, file, off, g, rest[0][0], last); }
        }
      }
    }
  }

  lemma FileEmpty(f: Format)
    ensures File(f, []) == []
  {
  }

  lemma FlatFirst(rest: seq<seq<Rec>>)
    requires rest != [] && rest[0] != []
    ensures |Flat(rest)| > 0 && Flat(rest)[0] == rest[0][0]
  {
  }

  lemma NumZeros(file: seq<Byte>, off: nat, g: nat)
    requires g >= HEADER && Holds(file, off, Zeros(g))
    ensures Num(file[off..off + HEADER]) == 0
  {
    var w, z := file[off..off + HEADER], file[off..off + g];
    NumZero(w);
    assert z == Zeros(g);
    forall i | 0 <= i < HEADER ensures w[i] == 0 { assert w[i] == z[i]; }
  }

  lemma FirstFrame(f: Format, file: seq<Byte>, off: nat, rest: seq<seq<Rec>>)
    requires rest != [] && rest[0] != [] && RecsOk(f, rest[0]) && Holds(file, off, File(f, rest))
    ensures Holds(file, off, Frame(f, rest[0][0])) && RecOk(f, rest[0][0])
  {
    hide Frame;
    HoldsPart(file, off, Block(f, rest[0]), File(f, rest[1..]));
    HoldsPart(file, off, Frames(f, rest[0]), Zeros(Gap(|Frames(f, rest[0])|)));
    HoldsPart(file, off, Frame(f, rest[0][0]), Frames(f, rest[0][1..]));
  }

  lemma DeviatesLater(p: Parsed, q: Parsed, rs: seq<Rec>, rest: seq<Rec>)
    requires Deviates(q, rest) && p == q.(recs := rs + q.recs)
    ensures Deviates(p, rs + rest)
  {
    if q.error.None? {
      var i :| 0 <= i < |q.recs| && i < |rest| && q.recs[i] != rest[i];
      assert p.recs[|rs| + i] != (rs + rest)[|rs| + i];
    }
  }

  /** A file is read back exactly when its gaps are fine. */
  lemma {:induction false} FileParses(f: Format, file: seq<Byte>, off: nat, bs: seq<seq<Rec>>, last: nat)
    requires FileOk(f, bs) && Follows(Flat(bs), last) && off % ALIGN == 0 && off + |File(f, bs)| == |file| &&
        Holds(file, off, File(f, bs))
    ensures GapsFine(f, bs) ==> ParseFrom(f, file, off, last) == Parsed(Flat(bs), None, last + |Flat(bs)|)
    ensures !GapsFine(f, bs) ==> Deviates(ParseFrom(f, file, off, last), Flat(bs))
    decreases |bs|
  {
    hide ParseAt, Frames, Frame, GapFine, GapsFine, RecsOk, Deviates, Gap, AllZero;
    if bs == [] {
      GapsNone(f);
      EndParses(f, file, off, last);
    } else {
      var rs, rest := bs[0], bs[1..];
      var used, g := |Frames(f, rs)|, Gap(|Frames(f, rs)|);
      HoldsPart(file, off, Block(f, rs), File(f, rest));
      HoldsPart(file, off, Frames(f, rs), Zeros(g));
      FollowsPart(rs, Flat(rest), last);
      ParseFrames(f, file, off, rs, last);
      assert (off + used + g) % ALIGN == 0 by { assert (used + g) % ALIGN == 0; }
      AtGap(f, file, off + used, rs, rest, last + |rs|);
      var q := ParseFrom(f, file, off + used, last + |rs|);
      GapsSplit(f, bs);
      if rest == [] || GapFine(f, rs, rest[0][0]) {
        FileParses(f, file, off + used + g, rest, last + |rs|);
      }
      if !GapsFine(f, bs) { DeviatesLater(ParseFrom(f, file, off, last), q, rs, Flat(rest)); }
    }
  }

  lemma GapsNone(f: Format)
    ensures GapsFine(f, [])
  {
  }

  lemma EndParses(f: Format, file: seq<Byte>, off: nat, last: nat)
    requires off == |file|
    ensures ParseFrom(f, file, off, last) == Parsed([], None, last)
  {
  }

  lemma FollowsPart(a: seq<Rec>, b: seq<Rec>, last: nat)
    requires Follows(a + b, last)
    ensures Follows(a, last) && Follows(b, last + |a|)
  {
    assert forall i :: 0 <= i < |a| ==> a[i] == (a + b)[i];
    assert forall i :: 0 <= i < |b| ==> b[i] == (a + b)[|a| + i];
  }

  lemma GapsSplit(f: Format, bs: seq<seq<Rec>>)
    requires FileOk(f, bs) && bs != []
    ensures GapsFine(f, bs) <==> (|bs| == 1 || GapFine(f, bs[0], bs[1][0])) && GapsFine(f, bs[1..])
  {
    hide GapFine;
    assert forall i :: 0 <= i < |bs| - 1 ==> bs[1..][i] == bs[i + 1];
    if GapsFine(f, bs[1..]) && (|bs| == 1 || GapFine(f, bs[0], bs[1][0])) {
      forall i | 0 <= i < |bs| - 1 && bs[i + 1] != [] ensures GapFine(f, bs[i], bs[i + 1][0]) {
        if i > 0 { assert bs[1..][i - 1] == bs[i] && bs[1..][i] == bs[i + 1]; }
      }
    }
    if GapsFine(f, bs) {
      forall i | 0 <= i < |bs[1..]| - 1 && bs[1..][i + 1] != [] ensures GapFine(f, bs[1..][i], bs[1..][i + 1][0]) {
        assert bs[1..][i] == bs[i + 1] && bs[1..][i + 1] == bs[i + 1 + 1];
      }
    }
  }

  /** Two blocks in one file with such a gap between them: everything before the gap is read, then an error. */
  lemma ShortGapStops(f: Format, rs: seq<Rec>, more: seq<Rec>, last: nat)
    requires RecsOk(f, rs) && RecsOk(f, more) && more != [] && Follows(rs, last) && 3 <= Gap(|Frames(f, rs)|) <= 5
    ensures ParseFrom(f, File(f, [rs, more]), 0, last) == Parsed(rs, Some(ReadError), last + |rs|)
  {
    hide ParseAt, Frame, RecOk, ParseFrom, Gap, AllZero, Holds;
    var file, used, g := File(f, [rs, more]), |Frames(f, rs)|, Gap(|Frames(f, rs)|);
    assert [rs, more][1..] == [more] && [more][1..] == [];
    HoldsSelf(file);
    HoldsPart(file, 0, Block(f, rs), File(f, [more]));
    HoldsPart(file, 0, Frames(f, rs), Zeros(g));
    FirstFrame(f, file, used + g, [more]);
    GapStops(f, file, used, g, more[0], last + |rs|);
    ParseFrames(f, file, 0, rs, last);
    BadParses(f, file, used, last + |rs|);
    assert rs + [] == rs;
  }

  lemma HoldsSelf(file: seq<Byte>)
    ensures Holds(file, 0, file)
  {
  }

  lemma BadParses(f: Format, file: seq<Byte>, off: nat, last: nat)
    requires off <= |file| && ParseAt(f, file, off, last).Bad?
    ensures ParseFrom(f, file, off, last) == Parsed([], Some(ParseAt(f, file, off, last).error), last)
  {
  }

  // ------------------------------------------------------------------- all files

  function Images(f: Format, disk: seq<seq<seq<Rec>>>): (r: seq<seq<Byte>>)
    ensures |r| == |disk|
  {
    if disk == [] then [] else [File(f, disk[0])] + Images(f, disk[1..])
  }

  function Everything(disk: seq<seq<seq<Rec>>>): seq<Rec> { if disk == [] then []
                      else Flat(disk[0]) + Everything(disk[1..]) }

  ghost predicate DiskOk(f: Format, disk: seq<seq<seq<Rec>>>) { forall i :: 0 <= i < |disk| ==> FileOk(f, disk[i]) }

  ghost predicate AllFine(f: Format, disk: seq<seq<seq<Rec>>>) { forall i :: 0 <= i < |disk| ==> GapsFine(f, disk[i]) }

  /** Parsing all files returns exactly the records flushed, in order, if and only if every gap is fine. */
  lemma {:induction false} DiskParses(f: Format, disk: seq<seq<seq<Rec>>>, last: nat)
    requires DiskOk(f, disk) && Follows(Everything(disk), last)
    ensures AllFine(f, disk) ==>
        ParseFiles(f, Images(f, disk), last) == Parsed(Everything(disk), None, last + |Everything(disk)|)
    ensures !AllFine(f, disk) ==> Deviates(ParseFiles(f, Images(f, disk), last), Everything(disk))
    decreases |disk|
  {
    hide GapsFine, FileOk, File, ParseFrom, Flat;
    if disk != [] {
      var rest, file := disk[1..], File(f, disk[0]);
      assert Images(f, disk)[1..] == Images(f, rest);
      FollowsPart(Flat(disk[0]), Everything(rest), last);
      assert Holds(file, 0, file);
      FileParses(f, file, 0, disk[0], last);
      var p := ParseFrom(f, file, 0, last);
      assert AllFine(f, disk) <==> GapsFine(f, disk[0]) && AllFine(f, rest) by { FineSplit(f, disk); }
      if GapsFine(f, disk[0]) {
        DiskParses(f, rest, last + |Flat(disk[0])|);
        var q := ParseFiles(f, Images(f, rest), p.last);
        if !AllFine(f, rest) { DeviatesLater(ParseFiles(f, Images(f, disk), last), q, Flat(disk[0]), Everything(rest));
            }
      } else {
        DeviatesFirst(p, ParseFiles(f, Images(f, disk), last), Flat(disk[0]), Everything(rest));
      }
    }
  }

  lemma FineSplit(f: Format, disk: seq<seq<seq<Rec>>>)
    requires disk != []
    ensures AllFine(f, disk) <==> GapsFine(f, disk[0]) && AllFine(f, disk[1..])
  {
    hide GapsFine;
    assert forall i :: 1 <= i < |disk| ==> disk[i] == disk[1..][i - 1];
  }

  lemma DeviatesFirst(p: Parsed, t: Parsed, rs: seq<Rec>, rest: seq<Rec>)
    requires Deviates(p, rs) && (t == p || (p.error.None? && p.recs <= t.recs))
    ensures Deviates(t, rs + rest)
  {
    if t.error.None? {
      var i :| 0 <= i < |p.recs| && i < |rs| && p.recs[i] != rs[i];
      assert t.recs[i] != (rs + rest)[i];
    }
  }
}
