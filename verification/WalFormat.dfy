/**
 The byte format of the write-ahead log: packed headers, frames with an optional checksum, zero
 padding up to the writer's block boundary, and what one step of a parse of a whole file is.
 */
module WalFormat {
  import opened Common

  type Byte = x: nat | x < 256

  const ALIGN: nat := 4096
  const HEADER: nat := 8
  const SEQ_LIMIT: nat := 0x100_0000_0000

  // -------------------------------------------------- little-endian numbers

  function Le(n: nat, k: nat): (b: seq<Byte>)
    ensures |b| == k
  {
    if k == 0 then [] else [n % 256] + Le(n / 256, k - 1)
  }

  function Num(b: seq<Byte>): nat {
    if b == [] then 0 else b[0] + 256 * Num(b[1..])
  }

  function Pow(k: nat): (p: nat)
    ensures p > 0
  {
    if k == 0 then 1 else 256 * Pow(k - 1)
  }

  lemma {:induction false} LeNum(n: nat, k: nat)
    requires n < Pow(k)
    ensures Num(Le(n, k)) == n
  {
    if k > 0 { LeNum(n / 256, k - 1); }
  }

  lemma {:induction false} NumLe(b: seq<Byte>)
    ensures Num(b) < Pow(|b|) && Le(Num(b), |b|) == b
  {
    if b != [] {
      NumLe(b[1..]);
      var n := Num(b);
      assert n % 256 == b[0] && n / 256 == Num(b[1..]);
      assert b == [b[0]] + b[1..];
    }
  }

  lemma {:induction false} NumZero(b: seq<Byte>)
    ensures Num(b) == 0 <==> forall i :: 0 <= i < |b| ==> b[i] == 0
  {
    if b != [] {
      NumZero(b[1..]);
      assert forall i :: 1 <= i < |b| ==> b[i] == b[1..][i - 1];
    }
  }

  // ----------------------------------------------------------------- headers

  /** A log record: its sequence number, its type and its payload. */
  datatype Rec = Rec(no: nat, tag: nat, data: seq<Byte>)

  function Pack(no: nat, tag: nat, len: nat): nat { no * 0x100_0000 + tag * 0x1_0000 + len }

  function HeaderSeq(packed: nat): nat { packed / 0x100_0000 }

  function HeaderTag(packed: nat): nat { packed / 0x1_0000 % 0x100 }

  function HeaderLen(packed: nat): nat { packed % 0x1_0000 }

  lemma Split24(q: nat, r: nat)
    requires r < 0x100_0000
    ensures (q * 0x100_0000 + r) / 0x100_0000 == q
  {
  }

  lemma Split16(q: nat, r: nat)
    requires r < 0x1_0000
    ensures (q * 0x1_0000 + r) / 0x1_0000 == q && (q * 0x1_0000 + r) % 0x1_0000 == r
  {
  }

  lemma Split8(q: nat, r: nat)
    requires r < 0x100
    ensures (q * 0x100 + r) / 0x100 == q && (q * 0x100 + r) % 0x100 == r
  {
  }

  lemma PackUnpack(no: nat, tag: nat, len: nat)
    requires no < SEQ_LIMIT && tag < 0x100 && len < 0x1_0000
    ensures var packed := Pack(no, tag, len);
            && HeaderSeq(packed) == no && HeaderTag(packed) == tag && HeaderLen(packed) == len
            && packed < 0x1_0000_0000_0000_0000
  {
    Split24(no, tag * 0x1_0000 + len);
    var upper := no * 0x100 + tag;
    assert Pack(no, tag, len) == upper * 0x1_0000 + len;
    Split16(upper, len);
    Split8(no, tag);
  }

  lemma PackZero(no: nat, tag: nat, len: nat)
    ensures Pack(no, tag, len) == 0 <==> no == 0 && tag == 0 && len == 0
  {
  }

  function Head(r: Rec): seq<Byte> { Le(Pack(r.no, r.tag, |r.data|), HEADER) }

  lemma PowEight()
    ensures Pow(8) == 0x1_0000_0000_0000_0000 && Pow(4) == 0x1_0000_0000 && Pow(2) == 0x1_0000
  {
    assert Pow(1) == 256 && Pow(2) == 0x1_0000;
    assert Pow(3) == 0x100_0000 && Pow(4) == 0x1_0000_0000;
    assert Pow(5) == 0x100_0000_0000 && Pow(6) == 0x1_0000_0000_0000;
    assert Pow(7) == 0x100_0000_0000_0000;
  }

  lemma HeadNum(r: Rec)
    requires r.no < SEQ_LIMIT && r.tag < 0x100 && |r.data| < 0x1_0000
    ensures var packed := Num(Head(r));
            HeaderSeq(packed) == r.no && HeaderTag(packed) == r.tag && HeaderLen(packed) == |r.data| &&
                (packed == 0 <==> r.no == 0 && r.tag == 0 && r.data == [])
  {
    hide Num, Le, Pow, Pack, HeaderSeq, HeaderTag, HeaderLen;
    PackUnpack(r.no, r.tag, |r.data|);
    PackZero(r.no, r.tag, |r.data|);
    PowEight();
    LeNum(Pack(r.no, r.tag, |r.data|), HEADER);
  }

  // ------------------------------------------------------------------- frames

  /** Whether records carry a checksum, the checksum, and the size of the reader's buffer. */
  datatype Format = Format(crc: bool, sum: seq<Byte> -> nat, buffer: nat)

  function Trailer(f: Format, body: seq<Byte>): seq<Byte> { if f.crc then Le(f.sum(body), 4) else [] }

  function FrameSize(f: Format, len: nat): nat { HEADER + len + if f.crc then 4 else 0 }

  function Frame(f: Format, r: Rec): (b: seq<Byte>)
    ensures |b| == FrameSize(f, |r.data|)
  {
    Head(r) + r.data + Trailer(f, Head(r) + r.data)
  }

  predicate TagOk(tag: nat) { 1 <= tag < 0x100 && (tag <= 6 || tag >= 0x80) }

  /** The lengths the reader insists on: fixed records, and insertions that say how much follows them. */
  predicate PayloadOk(tag: nat, data: seq<Byte>) {
    match tag
    case 1 => |data| >= 56 && 56 + Num(data[40..44]) + Num(data[44..48]) == |data|
    case 2 => |data| == 24
    case 3 => |data| == 48
    case 5 => |data| == 24
    case 6 => |data| == 24
    case _ => true
  }

  predicate RecOk(f: Format, r: Rec) {
    && 0 < r.no < SEQ_LIMIT && TagOk(r.tag) && |r.data| < 0x1_0000 && PayloadOk(r.tag, r.data)
    && FrameSize(f, |r.data|) <= f.buffer
  }

  // ------------------------------------------------------------------ parsing

  datatype Error = Truncated | ReadError | CrcMismatch

  datatype Item = End | Skip(next: nat) | Got(rec: Rec, next: nat) | Bad(error: Error)

  predicate AllZero(b: seq<Byte>) { forall i :: 0 <= i < |b| ==> b[i] == 0 }

  /** Padding: zeros through the next block boundary. */
  function PadAt(file: seq<Byte>, off: nat): Item
    requires off <= |file|
  {
    var pad := ALIGN - off % ALIGN;
    if |file| - off < pad then Bad(Truncated)
    else if AllZero(file[off..off + pad]) then Skip(off + pad) else Bad(ReadError)
  }

  /** A record whose header has been read. */
  function BodyAt(f: Format, file: seq<Byte>, off: nat, last: nat): Item
    requires off + HEADER <= |file|
  {
    var packed := Num(file[off..off + HEADER]);
    var no, tag, len := HeaderSeq(packed), HeaderTag(packed), HeaderLen(packed);
    var total := FrameSize(f, len);
    if !TagOk(tag) || no == 0 || (last != 0 && no != last + 1) then Bad(ReadError)
    else if total > f.buffer || |file| - off < total then Bad(Truncated)
    else
      var data := file[off + HEADER..off + HEADER + len];
      if !PayloadOk(tag, data) then Bad(ReadError)
      else if f.crc && file[off + HEADER + len..off + total] != Le(f.sum(file[off..off + HEADER + len]), 4)
          then Bad(CrcMismatch)
      else Got(Rec(no, tag, data), off + total)
  }

  /** What stands at an offset of a file, `last` being the sequence number before it. */
  function ParseAt(f: Format, file: seq<Byte>, off: nat, last: nat): (r: Item)
    requires off <= |file|
    ensures r.Skip? ==> off < r.next <= |file|
    ensures r.Got? ==> off < r.next <= |file|
    ensures r == End <==> off == |file|
  {
    if off == |file| then End
    else if |file| - off < HEADER || Num(file[off..off + HEADER]) == 0 then PadAt(file, off)
    else BodyAt(f, file, off, last)
  }

  /** The bytes of `b` stand in `file` at `off`. */
  predicate Holds(file: seq<Byte>, off: nat, b: seq<Byte>) { off + |b| <= |file| && file[off..off + |b|] == b }

  lemma HoldsPart(file: seq<Byte>, off: nat, a: seq<Byte>, b: seq<Byte>)
    requires Holds(file, off, a + b)
    ensures Holds(file, off, a) && Holds(file, off + |a|, b)
  {
    assert file[off..off + |a|] == file[off..off + |a + b|][..|a|];
    assert file[off + |a|..off + |a| + |b|] == file[off..off + |a + b|][|a|..];
  }

  /** A frame is read back as the record it was made from. */
  lemma FrameParses(f: Format, file: seq<Byte>, off: nat, r: Rec, last: nat)
    requires RecOk(f, r) && Holds(file, off, Frame(f, r)) && (last == 0 || r.no == last + 1)
    ensures ParseAt(f, file, off, last) == Got(r, off + FrameSize(f, |r.data|))
  {
    hide PayloadOk, Num, Le;
    var body := Head(r) + r.data;
    HoldsPart(file, off, body, Trailer(f, body));
    HoldsPart(file, off, Head(r), r.data);
    HeadNum(r);
  }
}
