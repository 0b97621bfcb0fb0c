/**
 The payloads of the log records that carry book state, and the whole way of a record: encoded,
 framed, flushed, read back and decoded it is the record it was.
 */
module WalCodec {
  import opened Common
  import opened WalFormat
  import opened WalParse
  import opened WalReader
  import opened WalWriter
  import B = Book

  // -------------------------------------------------------------------- flags

  predicate FlagsFit(f: B.Flags) { f.kind < 16 && f.status < 8 && f.spare < 256 }

  /** Side in bit 0, type in bits 1 to 4, status in bits 5 to 7. */
  function PackFlags(f: B.Flags): nat { (if f.bid then 0 else 1) + 2 * f.kind + 32 * f.status + 256 * f.spare }

  function UnpackFlags(w: nat): B.Flags { B.Flags(w % 2 == 0, w / 2 % 16, w / 32 % 8, w / 256) }

  lemma FlagsBack(f: B.Flags)
    requires FlagsFit(f)
    ensures UnpackFlags(PackFlags(f)) == f && PackFlags(f) < 0x1_0000
  {
    var w, side := PackFlags(f), if f.bid then 0 else 1;
    assert w / 2 == f.kind + 16 * f.status + 128 * f.spare;
    assert w / 32 == f.status + 8 * f.spare;
    assert w / 256 == f.spare;
  }

  // ----------------------------------------------------------------- payloads

  /** What a payload holds besides the record: time, slot, product, and an order's own data. */
  datatype Meta = Meta(time: nat, slot: nat, product: nat, user: seq<Byte>, aux: seq<Byte>)

  function InsertData(product: nat, o: B.Order, m: Meta): (d: seq<Byte>)
    ensures |d| == 56 + |m.user| + |m.aux|
  {
    Le(o.id, 8) + Le(o.price, 8) + Le(o.volume, 8) + Le(o.remain, 8)
    + (Le(o.org, 2) + Le(PackFlags(o.flags), 2) + Le(product, 2) + Le(0, 2) + Le(|m.user|, 4) + Le(|m.aux|, 4) +
        Le(m.time, 8))
    + m.user + m.aux
  }

  function ShortData(id: nat, m: Meta): (d: seq<Byte>)
    ensures |d| == 24
  {
    Le(id, 8) + Le(m.time, 8) + Le(m.slot, 4) + Le(m.product, 2) + Le(0, 2)
  }

  function MatchData(maker: nat, taker: nat, price: nat, volume: nat, product: nat, m: Meta): (d: seq<Byte>)
    ensures |d| == 48
  {
    Le(maker, 8) + Le(taker, 8) + Le(price, 8) + Le(volume, 8) + Le(m.time, 8) + Le(product, 2) + Le(0, 6)
  }

  function TagOf(r: B.Record): nat {
    match r
    case RInsert(_, _) => 1
    case RCancel(_) => 2
    case RMatch(_, _, _, _, _) => 3
    case RDeactivate(_) => 5
    case RActivate(_) => 6
  }

  function Encode(r: B.Record, m: Meta): seq<Byte> {
    match r
    case RInsert(product, o) => InsertData(product, o, m)
    case RCancel(id) => ShortData(id, m)
    case RMatch(maker, taker, price, volume, product) => MatchData(maker, taker, price, volume, product, m)
    case RDeactivate(id) => ShortData(id, m)
    case RActivate(id) => ShortData(id, m)
  }

  function Field(d: seq<Byte>, at: nat, k: nat): nat { if at + k <= |d| then Num(d[at..at + k]) else 0 }

  /** What recovery takes from a payload; None for records that do not touch the book. */
  function Decode(tag: nat, d: seq<Byte>): Option<B.Record> {
    match tag
    case 1 => Some(B.RInsert(Field(d, 36, 2), B.Order(Field(d, 0, 8), Field(d, 8, 8), Field(d, 16, 8), Field(d, 24, 8),
        Field(d, 32, 2), UnpackFlags(Field(d, 34, 2)))))
    case 2 => Some(B.RCancel(Field(d, 0, 8)))
    case 3 => Some(B.RMatch(Field(d, 0, 8), Field(d, 8, 8), Field(d, 16, 8), Field(d, 24, 8), Field(d, 40, 2)))
    case 5 => Some(B.RDeactivate(Field(d, 0, 8)))
    case 6 => Some(B.RActivate(Field(d, 0, 8)))
    case _ => None
  }

  predicate U64(n: nat) { n < 0x1_0000_0000_0000_0000 }

  /** Every field is in the range of its width. */
  predicate Storable(r: B.Record, m: Meta) {
    match r
    case RInsert(product, o) =>
      && U64(o.id) && U64(o.price) && U64(o.volume) && U64(o.remain) && o.org < 0x1_0000 && FlagsFit(o.flags) &&
         product < 0x1_0000
      && |m.user| < 0x1_0000_0000 && |m.aux| < 0x1_0000_0000
    case RCancel(id) => U64(id)
    case RMatch(maker, taker, price, volume, product) => U64(maker) && U64(taker) && U64(price) && U64(volume) &&
        product < 0x1_0000
    case RDeactivate(id) => U64(id)
    case RActivate(id) => U64(id)
  }

  lemma FieldIs(d: seq<Byte>, at: nat, n: nat, k: nat)
    requires Holds(d, at, Le(n, k)) && n < Pow(k)
    ensures Field(d, at, k) == n
  {
    LeNum(n, k);
  }

  lemma InsertParts(product: nat, o: B.Order, m: Meta)
    ensures var d := InsertData(product, o, m);
            && Holds(d, 0, Le(o.id, 8)) && Holds(d, 8, Le(o.price, 8)) && Holds(d, 16, Le(o.volume, 8)) &&
               Holds(d, 24, Le(o.remain, 8))
            && Holds(d, 32, Le(o.org, 2)) && Holds(d, 34, Le(PackFlags(o.flags), 2)) && Holds(d, 36, Le(product, 2))
            && Holds(d, 40, Le(|m.user|, 4)) && Holds(d, 44, Le(|m.aux|, 4)) && Holds(d, 48, Le(m.time, 8))
            && Holds(d, 56, m.user) && Holds(d, 56 + |m.user|, m.aux)
  {
    hide Le, PackFlags, Holds;
    var d := InsertData(product, o, m);
    var ids := Le(o.id, 8) + Le(o.price, 8) + Le(o.volume, 8) + Le(o.remain, 8);
    var rest := Le(o.org, 2) + Le(PackFlags(o.flags), 2) + Le(product, 2) + Le(0, 2) + Le(|m.user|, 4) +
        Le(|m.aux|, 4) +
        Le(m.time, 8);
    HoldsSelf(d);
    HoldsPart(d, 0, ids + rest + m.user, m.aux);
    HoldsPart(d, 0, ids + rest, m.user);
    HoldsPart(d, 0, ids, rest);
    InsertFront(d, o);
    InsertBehind(d, product, o, m);
  }

  lemma InsertFront(d: seq<Byte>, o: B.Order)
    requires Holds(d, 0, Le(o.id, 8) + Le(o.price, 8) + Le(o.volume, 8) + Le(o.remain, 8))
    ensures Holds(d, 0, Le(o.id, 8)) && Holds(d, 8, Le(o.price, 8)) && Holds(d, 16, Le(o.volume, 8))
    ensures Holds(d, 24, Le(o.remain, 8))
  {
    hide Le, Holds;
    var two := Le(o.id, 8) + Le(o.price, 8);
    HoldsPart(d, 0, two + Le(o.volume, 8), Le(o.remain, 8));
    HoldsPart(d, 0, two, Le(o.volume, 8));
    HoldsPart(d, 0, Le(o.id, 8), Le(o.price, 8));
  }

  lemma InsertBehind(d: seq<Byte>, product: nat, o: B.Order, m: Meta)
    requires Holds(d, 32, Le(o.org, 2) + Le(PackFlags(o.flags), 2) + Le(product, 2) + Le(0, 2) + Le(|m.user|, 4) +
                          Le(|m.aux|, 4) + Le(m.time, 8))
    ensures Holds(d, 32, Le(o.org, 2)) && Holds(d, 34, Le(PackFlags(o.flags), 2)) && Holds(d, 36, Le(product, 2))
    ensures Holds(d, 40, Le(|m.user|, 4)) && Holds(d, 44, Le(|m.aux|, 4)) && Holds(d, 48, Le(m.time, 8))
  {
    hide Le, PackFlags, Holds;
    var two := Le(o.org, 2) + Le(PackFlags(o.flags), 2);
    var three := two + Le(product, 2);
    var four := three + Le(0, 2);
    var five := four + Le(|m.user|, 4);
    HoldsPart(d, 32, five + Le(|m.aux|, 4), Le(m.time, 8));
    HoldsPart(d, 32, five, Le(|m.aux|, 4));
    HoldsPart(d, 32, four, Le(|m.user|, 4));
    HoldsPart(d, 32, three, Le(0, 2));
    HoldsPart(d, 32, two, Le(product, 2));
    HoldsPart(d, 32, Le(o.org, 2), Le(PackFlags(o.flags), 2));
  }

  lemma InsertBack(product: nat, o: B.Order, m: Meta)
    requires Storable(B.RInsert(product, o), m)
    ensures Decode(1, InsertData(product, o, m)) == Some(B.RInsert(product, o)) &&
        PayloadOk(1, InsertData(product, o, m))
  {
    hide Le, PackFlags, UnpackFlags, Num, InsertData;
    var d := InsertData(product, o, m);
    PowEight();
    InsertParts(product, o, m);
    FlagsBack(o.flags);
    FieldIs(d, 0, o.id, 8);
    FieldIs(d, 8, o.price, 8);
    FieldIs(d, 16, o.volume, 8);
    FieldIs(d, 24, o.remain, 8);
    FieldIs(d, 32, o.org, 2);
    FieldIs(d, 34, PackFlags(o.flags), 2);
    FieldIs(d, 36, product, 2);
    FieldIs(d, 40, |m.user|, 4);
    FieldIs(d, 44, |m.aux|, 4);
  }

  lemma ShortParts(id: nat, m: Meta)
    ensures var d := ShortData(id, m);
            && Holds(d, 0, Le(id, 8)) && Holds(d, 8, Le(m.time, 8)) && Holds(d, 16, Le(m.slot, 4))
            && Holds(d, 20, Le(m.product, 2)) && Holds(d, 22, Le(0, 2))
  {
    hide Le, Holds;
    var d := ShortData(id, m);
    var two := Le(id, 8) + Le(m.time, 8);
    var three := two + Le(m.slot, 4);
    HoldsSelf(d);
    HoldsPart(d, 0, three + Le(m.product, 2), Le(0, 2));
    HoldsPart(d, 0, three, Le(m.product, 2));
    HoldsPart(d, 0, two, Le(m.slot, 4));
    HoldsPart(d, 0, Le(id, 8), Le(m.time, 8));
  }

  lemma MatchParts(maker: nat, taker: nat, price: nat, volume: nat, product: nat, m: Meta)
    ensures var d := MatchData(maker, taker, price, volume, product, m);
            && Holds(d, 0, Le(maker, 8)) && Holds(d, 8, Le(taker, 8)) && Holds(d, 16, Le(price, 8)) &&
               Holds(d, 24, Le(volume, 8))
            && Holds(d, 32, Le(m.time, 8)) && Holds(d, 40, Le(product, 2)) && Holds(d, 42, Le(0, 6))
  {
    hide Le, Holds;
    var d := MatchData(maker, taker, price, volume, product, m);
    var two := Le(maker, 8) + Le(taker, 8);
    var three := two + Le(price, 8);
    var four := three + Le(volume, 8);
    var five := four + Le(m.time, 8);
    HoldsSelf(d);
    HoldsPart(d, 0, five + Le(product, 2), Le(0, 6));
    HoldsPart(d, 0, five, Le(product, 2));
    HoldsPart(d, 0, four, Le(m.time, 8));
    HoldsPart(d, 0, three, Le(volume, 8));
    HoldsPart(d, 0, two, Le(price, 8));
    HoldsPart(d, 0, Le(maker, 8), Le(taker, 8));
  }

  /** Bit 0 is the side, bits 1 to 4 the type and bits 5 to 7 the status, 5 being deactivated. */
  lemma FlagBits(f: B.Flags)
    requires FlagsFit(f)
    ensures var w := PackFlags(f);
            && (w % 2 == 1 <==> !B.IsBid(f)) && w % 32 / 2 == f.kind && w % 256 / 32 == f.status && w / 256 == f.spare
            && (w % 256 / 32 == 5 <==> B.Parked(f))
  {
    FlagsBack(f);
    var w := PackFlags(f);
    assert w == (2 * f.kind + if f.bid then 0 else 1) + 32 * (f.status + 8 * f.spare);
    assert w % 32 == 2 * f.kind + if f.bid then 0 else 1;
    assert w % 256 == (2 * f.kind + if f.bid then 0 else 1) + 32 * f.status;
  }

  /** The first eight bytes of a record: two for the length, one for the type and five for the number. */
  lemma HeadParts(no: nat, r: B.Record, m: Meta)
    requires no < SEQ_LIMIT && |Encode(r, m)| < 0x1_0000
    ensures var tag: Byte := match r case RInsert(_, _) => 1 case RCancel(_) => 2 case RMatch(_, _, _, _, _) => 3
                                     case RDeactivate(_) => 5 case RActivate(_) => 6;
            Head(Rec(no, TagOf(r), Encode(r, m))) == Le(|Encode(r, m)|, 2) + [tag] + Le(no, 5)
  {
    hide Encode;
    LePacked(no, TagOf(r), |Encode(r, m)|);
  }

  lemma LePacked(no: nat, tag: Byte, len: nat)
    requires len < 0x1_0000
    ensures Le(Pack(no, tag, len), 8) == Le(len, 2) + [tag] + Le(no, 5)
  {
    var n, upper := Pack(no, tag, len), no * 0x100 + tag;
    assert n == upper * 0x1_0000 + len;
    Split16(upper, len);
    Split8(no, tag);
    Bytes(n);
    assert Le(n, 8) == [n % 256] + Le(n / 256, 7);
    assert Le(n / 256, 7) == [n / 256 % 256] + Le(n / 256 / 256, 6);
    assert Le(upper, 6) == [upper % 256] + Le(upper / 256, 5);
    assert Le(len, 2) == [len % 256] + Le(len / 256, 1);
    assert Le(len / 256, 1) == [len / 256 % 256] + Le(len / 256 / 256, 0);
    assert len / 256 % 256 == len / 256;
  }

  lemma ShortBack(id: nat, m: Meta)
    requires U64(id)
    ensures Field(ShortData(id, m), 0, 8) == id
  {
    hide Le;
    PowEight();
    ShortParts(id, m);
    FieldIs(ShortData(id, m), 0, id, 8);
  }

  lemma MatchBack(maker: nat, taker: nat, price: nat, volume: nat, product: nat, m: Meta)
    requires Storable(B.RMatch(maker, taker, price, volume, product), m)
    ensures Decode(3, MatchData(maker, taker, price, volume, product, m)) ==
        Some(B.RMatch(maker, taker, price, volume, product))
  {
    hide Le, Num;
    var d := MatchData(maker, taker, price, volume, product, m);
    PowEight();
    MatchParts(maker, taker, price, volume, product, m);
    FieldIs(d, 0, maker, 8);
    FieldIs(d, 8, taker, 8);
    FieldIs(d, 16, price, 8);
    FieldIs(d, 24, volume, 8);
    FieldIs(d, 40, product, 2);
  }

  /** Every record is decoded from its payload, and the reader accepts the payload. */
  lemma CodecBack(r: B.Record, m: Meta)
    requires Storable(r, m)
    ensures Decode(TagOf(r), Encode(r, m)) == Some(r) && PayloadOk(TagOf(r), Encode(r, m)) && TagOk(TagOf(r))
  {
    hide Field, InsertData, ShortData, MatchData, Storable;
    match r {
      case RInsert(product, o) => InsertBack(product, o, m);
      case RCancel(id) => StorableId(r, m); ShortBack(id, m);
      case RMatch(maker, taker, price, volume, product) => MatchBack(maker, taker, price, volume, product, m);
      case RDeactivate(id) => StorableId(r, m); ShortBack(id, m);
      case RActivate(id) => StorableId(r, m); ShortBack(id, m);
    }
  }

  lemma StorableId(r: B.Record, m: Meta)
    requires Storable(r, m)
    ensures (r.RCancel? ==> U64(r.id)) && (r.RDeactivate? ==> U64(r.id)) && (r.RActivate? ==> U64(r.id))
  {
  }

  // ---------------------------------------------------------------- whole logs

  function DecodeAll(recs: seq<Rec>): seq<Option<B.Record>> {
    seq(|recs|, i requires 0 <= i < |recs| => Decode(recs[i].tag, recs[i].data))
  }

  function Somes(log: seq<B.Record>): seq<Option<B.Record>> {
    seq(|log|, i requires 0 <= i < |log| => Some(log[i]))
  }

  /** From `n` on, the records hold the encodings of the first `m` of the log. */
  ghost predicate Carries(recs: seq<Rec>, n: nat, log: seq<B.Record>, metas: seq<Meta>, m: nat) {
    m <= |log| && |metas| == |log| && |recs| == n + m && forall i :: 0 <= i < m ==>
        recs[n + i].data == Encode(log[i], metas[i])
  }

  /** A record that is not too long for its header, nor its frame for a buffer of this size. */
  predicate Fits(f: Format, size: nat, r: B.Record, m: Meta) {
    |Encode(r, m)| < 0x1_0000 && FrameSize(f, |Encode(r, m)|) <= size
  }

  /** A log that a writer takes: it has not failed, there are numbers for all records, and each one fits. */
  ghost predicate Takes(w: Writer, log: seq<B.Record>, metas: seq<Meta>)
    requires |metas| == |log|
    reads w, w.buffer
  {
    log == [] ||
    (&& !w.failed && |w.Logged()| + |log| < SEQ_LIMIT
     && forall i :: 0 <= i < |log| ==> Fits(w.format, w.buffer.Length, log[i], metas[i]))
  }

  /** Appends the records of a log one by one. */
  method Persist(w: Writer, log: seq<B.Record>, metas: seq<Meta>) returns (ok: bool)
    requires w.Valid() && |metas| == |log| && forall i :: 0 <= i < |log| ==> Storable(log[i], metas[i])
    modifies w, w.buffer
    ensures w.Valid() && (ok ==> DecodeAll(w.Logged()) == DecodeAll(old(w.Logged())) + Somes(log))
    ensures ok ==> Carries(w.Logged(), |old(w.Logged())|, log, metas, |log|)
    ensures w.failed && !old(w.failed) ==> !ok
    ensures ok <==> old(Takes(w, log, metas))
  {
    hide Storable, Decode, PayloadOk, Encode, TagOf, DecodeAll, Somes, Frames, Images, Everything, DiskOk, RecsOk,
         Follows;
    NoSomes();
    ghost var before := w.Logged();
    var i := 0;
    while i < |log|
      invariant 0 <= i <= |log| && w.Valid() && (w.failed ==> old(w.failed))
      invariant DecodeAll(w.Logged()) == DecodeAll(before) + Somes(log[..i]) &&
          Carries(w.Logged(), |before|, log, metas, i)
      invariant if i == 0 then w.failed == old(w.failed) else !old(w.failed) && |before| + i < SEQ_LIMIT
      invariant forall k :: 0 <= k < i ==> Fits(w.format, w.buffer.Length, log[k], metas[k])
    {
      CodecBack(log[i], metas[i]);
      ghost var was := w.Logged();
      var no := w.Append(TagOf(log[i]), Encode(log[i], metas[i]));
      if no == 0 { return false; }
      DecodeNext(was, w.Logged(), log[i], log[..i + 1], log[..i]);
      assert DecodeAll(before) + Somes(log[..i]) + [Some(log[i])] == DecodeAll(before) +
          (Somes(log[..i]) + [Some(log[i])]);
      i := i + 1;
    }
    assert log[..i] == log;
    return true;
  }

  lemma NoSomes()
    ensures Somes([]) == [] && DecodeAll([]) == []
  {
  }

  lemma DecodeNext(was: seq<Rec>, now: seq<Rec>, r: B.Record, log': seq<B.Record>, log: seq<B.Record>)
    requires |now| == |was| + 1 && now[..|was|] == was && Decode(now[|was|].tag, now[|was|].data) == Some(r) &&
        log' == log + [r]
    ensures DecodeAll(now) == DecodeAll(was) + [Some(r)] && Somes(log') == Somes(log) + [Some(r)]
  {
    assert forall i :: 0 <= i < |was| ==> now[i] == now[..|was|][i];
  }

  /**
   The whole way: a log persisted to a new writer and flushed, read back through buffered reads of any
   size, and decoded, is the log, provided the gaps on disk are fine; if they are not, what is read is
   not what was written.
   */
  method WriteAndRead(w: Writer, log: seq<B.Record>, metas: seq<Meta>) returns (ok: bool, p: Parsed)
    requires w.Valid() && !w.failed && w.Logged() == []
    requires |metas| == |log| && forall i :: 0 <= i < |log| ==> Storable(log[i], metas[i])
    modifies w, w.buffer
    ensures w.Valid()
    ensures ok ==> w.pending == [] && DecodeAll(w.Logged()) == Somes(log) && Carries(w.Logged(), 0, log, metas, |log|)
    ensures ok && AllFine(w.format, w.disk) ==> p.error.None? && DecodeAll(p.recs) == Somes(log) && Follows(p.recs, 0)
    ensures ok && !AllFine(w.format, w.disk) ==> Deviates(p, w.Logged())
    ensures ok <==> old(Takes(w, log, metas))
  {
    hide Takes, Storable, Decode, ParseFiles, Images, AllFine, Deviates, Everything, DecodeAll, Somes, Frames, DiskOk,
         RecsOk;
    NoSomes();
    assert DecodeAll(w.Logged()) + Somes(log) == Somes(log);
    ok := Persist(w, log, metas);
    p := Parsed([], None, 0);
    if !ok { return; }
    w.Flush();
    p := ReadAll(w.format, w.files);
    FollowsPart(Everything(w.disk), w.pending, 0);
    DiskParses(w.format, w.disk, 0);
    Unbuffered(w);
  }

  lemma Unbuffered(w: Writer)
    requires w.Valid() && w.used == 0
    ensures w.Logged() == Everything(w.disk)
  {
    assert Everything(w.disk) + [] == Everything(w.disk);
  }
}
