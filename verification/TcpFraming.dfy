/**
 Records over TCP: the server's send buffer, the bytes in flight and the client's receive buffer.
 However sends and receives are split, a client is given a prefix of the records broadcast since it
 was accepted, each unchanged.
 */
module TcpFraming {
  import opened Common
  import opened WalFormat

  const MAGIC: nat := 0x4F4D_5446
  const HEAD: nat := 16
  const WARNING: Byte := 0xFE

  datatype Message = Message(no: nat, tag: Byte, payload: seq<Byte>)

  predicate MessageOk(m: Message) { m.no < 0x1_0000_0000_0000_0000 && |m.payload| < 0x1_0000 }

  /** A frame: magic, type, flags, payload length, sequence number, payload. */
  function Wire(m: Message): (b: seq<Byte>)
    ensures |b| == HEAD + |m.payload|
  {
    Le(MAGIC, 4) + [m.tag, 0] + Le(|m.payload|, 2) + Le(m.no, 8) + m.payload
  }

  function Wires(ms: seq<Message>): seq<Byte> { if ms == [] then [] else Wire(ms[0]) + Wires(ms[1..]) }

  lemma {:induction false} WiresAppend(a: seq<Message>, b: seq<Message>)
    ensures Wires(a + b) == Wires(a) + Wires(b)
    decreases |a|
  {
    if a == [] {
      assert a + b == b;
    } else {
      assert (a + b)[0] == a[0] && (a + b)[1..] == a[1..] + b;
      WiresAppend(a[1..], b);
    }
  }

  // ------------------------------------------------------------------ parsing

  datatype Parse = Incomplete | Broken | Frame(m: Message)

  function SizeOf(b: seq<Byte>): nat
    requires |b| >= HEAD
  {
    HEAD + Num(b[6..8])
  }

  /** One frame from the front of the received bytes. */
  function ParseFrame(b: seq<Byte>): Parse {
    if |b| < HEAD then Incomplete
    else if Num(b[0..4]) != MAGIC then Broken
    else if |b| < SizeOf(b) then Incomplete
    else Frame(Message(Num(b[8..16]), b[4], b[HEAD..SizeOf(b)]))
  }

  /** "OMTF", least significant byte first. */
  const OMTF: seq<Byte> := [0x46, 0x54, 0x4D, 0x4F]

  lemma MagicBytes()
    ensures Le(MAGIC, 4) == OMTF && Num(OMTF) == MAGIC
  {
    NumLe(OMTF);
    assert OMTF[1..] == [0x54, 0x4D, 0x4F] && OMTF[1..][1..] == [0x4D, 0x4F] && OMTF[1..][1..][1..] == [0x4F];
    assert [0x4F][1..] == [];
    assert Num([0x4F]) == 0x4F;
    assert Num([0x4D, 0x4F]) == 0x4D + 256 * Num([0x4F]);
    assert Num([0x54, 0x4D, 0x4F]) == 0x54 + 256 * Num([0x4D, 0x4F]);
    hide Le, Pow;
    assert Num(OMTF) == 0x46 + 256 * Num([0x54, 0x4D, 0x4F]);
  }

  /** The bytes of a frame. */
  lemma WireBytes(m: Message)
    ensures Wire(m) == OMTF + [m.tag, 0] + Le(|m.payload|, 2) + Le(m.no, 8) + m.payload
  {
    MagicBytes();
  }

  /**
   Any bytes: nothing is made of fewer than a header; other than the magic ends the stream; and a frame
   comes out if and only if all of it is there, being the bytes of that frame but for the unused flags.
   */
  lemma ParseMeans(b: seq<Byte>)
    ensures |b| < 16 ==> ParseFrame(b) == Incomplete
    ensures |b| >= 16 ==> (ParseFrame(b) == Broken <==> b[0..4] != OMTF)
    ensures |b| >= 16 && b[0..4] == OMTF ==> (ParseFrame(b) == Incomplete <==> |b| < 16 + Num(b[6..8]))
    ensures ParseFrame(b).Frame? ==>
              var m := ParseFrame(b).m;
              && |b| >= 16 + |m.payload| && m.no < 0x1_0000_0000_0000_0000 && |m.payload| == Num(b[6..8])
              && b[..16 + |m.payload|] == OMTF + [m.tag, b[5]] + Le(|m.payload|, 2) + Le(m.no, 8) + m.payload
  {
    hide Num, Le, Pow;
    MagicBytes();
    if |b| >= 16 {
      PowEight();
      NumLe(b[0..4]);
      NumLe(b[6..8]);
      NumLe(b[8..16]);
      if b[0..4] == OMTF && |b| >= SizeOf(b) {
        var data := b[16..SizeOf(b)];
        assert b[..SizeOf(b)] == b[0..4] + [b[4], b[5]] + b[6..8] + b[8..16] + data;
      }
    }
  }

  lemma WireFields(m: Message, b: seq<Byte>)
    requires MessageOk(m) && |b| >= HEAD && b[..HEAD] == Wire(m)[..HEAD]
    ensures Num(b[0..4]) == MAGIC && b[4] == m.tag && SizeOf(b) == |Wire(m)| && Num(b[8..16]) == m.no
  {
    hide Num, Le;
    PowEight();
    LeNum(MAGIC, 4);
    LeNum(|m.payload|, 2);
    LeNum(m.no, 8);
    var w := Wire(m);
    assert w[0..4] == Le(MAGIC, 4) && w[4] == m.tag && w[6..8] == Le(|m.payload|, 2) && w[8..16] == Le(m.no, 8);
    assert forall i :: 0 <= i < HEAD ==> b[i] == b[..HEAD][i] && w[i] == w[..HEAD][i];
    assert b[0..4] == w[0..4] && b[6..8] == w[6..8] && b[8..16] == w[8..16];
  }

  /** Whatever part of a stream of frames has arrived, its first frame comes out, or nothing yet. */
  lemma ParsePrefix(b: seq<Byte>, ms: seq<Message>)
    requires b <= Wires(ms) && forall i :: 0 <= i < |ms| ==> MessageOk(ms[i])
    ensures ParseFrame(b) == if ms != [] && |Wire(ms[0])| <= |b| then Frame(ms[0]) else Incomplete
  {
    hide Num, Le;
    if ms != [] && |b| >= HEAD {
      var m, w := ms[0], Wire(ms[0]);
      assert Wires(ms) == w + Wires(ms[1..]);
      assert forall i :: 0 <= i < |b| ==> b[i] == Wires(ms)[i];
      assert b[..HEAD] == w[..HEAD];
      WireFields(m, b);
      if |w| <= |b| {
        assert b[HEAD..|w|] == w[HEAD..|w|];
        assert w[HEAD..|w|] == m.payload;
      }
    }
  }

  // ----------------------------------------------------------------- the link

  /** One connection: bytes queued at the server, in flight, received but unread, or dropped at a close. */
  datatype Link = Link(queued: seq<Byte>, wire: seq<Byte>, unread: seq<Byte>, lost: seq<Byte>, closing: bool,
      broken: bool,
                       offered: seq<Message>, sent: seq<Message>, heard: seq<Message>)

  const NEW_LINK: Link := Link([], [], [], [], false, false, [], [], [])

  datatype Act = Broadcast(m: Message) | Send(n: nat) | Poll(n: nat) | Close

  function Least(a: nat, b: nat): nat { if a < b then a else b }

  function Warn(queued: nat, cap: nat): Message { Message(0, WARNING, Le(queued, 4) + Le(cap, 4)) }

  /** What a broadcast puts into a send buffer of size `cap`: the record, or a last warning if that still fits. */
  function Put(cap: nat, queued: seq<Byte>, m: Message): (seq<Message>, bool) {
    if |queued| + |Wire(m)| <= cap then ([m], false)
    else if |queued| + HEAD + 8 <= cap then ([Warn(|queued|, cap)], true)
    else ([], true)
  }

  function Receive(k: Link, n: nat): Link {
    var m := Least(n, |k.wire|);
    k.(unread := k.unread + k.wire[..m], wire := k.wire[m..])
  }

  /** Takes one frame off the received bytes, if there is a whole one. */
  function Take(k: Link): Link {
    match ParseFrame(k.unread)
    case Incomplete => k
    case Broken => k.(broken := true)
    case Frame(msg) => k.(unread := k.unread[Least(|k.unread|, |Wire(msg)|)..], heard := k.heard + [msg])
  }

  function Do(cap: nat, k: Link, a: Act): Link {
    match a
    case Broadcast(m) =>
      if k.closing then k.(offered := k.offered + [m])
      else
        var (ms, closing) := Put(cap, k.queued, m);
        k.(queued := k.queued + Wires(ms), closing := closing, offered := k.offered + [m], sent := k.sent + ms)
    case Send(n) =>
      var m := Least(n, |k.queued|);
      k.(wire := k.wire + k.queued[..m], queued := k.queued[m..])
    case Poll(n) => Take(Receive(k, n))
    case Close => k.(queued := [], lost := k.queued + k.lost, closing := true)
  }

  function DoAll(cap: nat, k: Link, acts: seq<Act>): Link
    decreases |acts|
  {
    if acts == [] then k else DoAll(cap, Do(cap, k, acts[0]), acts[1..])
  }

  ghost predicate ActOk(a: Act) { a.Broadcast? ==> MessageOk(a.m) && a.m.tag != WARNING }

  /** What was sent is what was offered up to the first record that did not fit, then perhaps a warning. */
  ghost predicate SentOk(k: Link) {
    && (!k.closing ==> k.sent == k.offered)
    && (k.sent <= k.offered ||
       (k.sent != [] && k.sent[..|k.sent| - 1] <= k.offered && k.sent[|k.sent| - 1].tag == WARNING))
    && (forall i :: 0 <= i < |k.sent| ==> MessageOk(k.sent[i])) && (forall i :: 0 <= i < |k.offered| ==>
       k.offered[i].tag != WARNING)
  }

  /** No byte is lost or reordered: what is not heard yet is still on its way. */
  ghost predicate LinkOk(k: Link) {
    && SentOk(k) && !k.broken && k.heard <= k.sent && (k.lost != [] ==> k.closing)
    && k.unread + k.wire + k.queued + k.lost == Wires(k.sent[|k.heard|..])
  }

  lemma BroadcastKeeps(cap: nat, k: Link, m: Message)
    requires LinkOk(k) && MessageOk(m) && m.tag != WARNING && !k.closing
    ensures LinkOk(Do(cap, k, Broadcast(m)))
  {
    hide Wires, Le, Wire;
    var k' := Do(cap, k, Broadcast(m));
    var (ms, closing) := Put(cap, k.queued, m);
    assert k'.sent[|k.heard|..] == k.sent[|k.heard|..] + ms;
    WiresAppend(k.sent[|k.heard|..], ms);
    assert k.lost == [];
    assert k.unread + k.wire + (k.queued + Wires(ms)) + [] == k.unread + k.wire + k.queued + k.lost + Wires(ms);
  }

  lemma SendKeeps(cap: nat, k: Link, n: nat)
    requires LinkOk(k)
    ensures LinkOk(Do(cap, k, Send(n)))
  {
    hide Wires, SentOk;
    var m := Least(n, |k.queued|);
    SentSame(k, Do(cap, k, Send(n)));
    assert k.unread + (k.wire + k.queued[..m]) + k.queued[m..] + k.lost == k.unread + k.wire + k.queued + k.lost;
  }

  lemma SentSame(k: Link, k': Link)
    requires SentOk(k) && k'.closing == k.closing && k'.sent == k.sent && k'.offered == k.offered
    ensures SentOk(k') && forall i :: 0 <= i < |k.sent| ==> MessageOk(k.sent[i])
  {
  }

  lemma ReceiveKeeps(k: Link, n: nat)
    requires LinkOk(k)
    ensures LinkOk(Receive(k, n))
  {
    hide Wires;
    var m := Least(n, |k.wire|);
    SentSame(k, Receive(k, n));
    assert k.unread + k.wire[..m] + k.wire[m..] + k.queued + k.lost == k.unread + k.wire + k.queued + k.lost;
  }

  lemma TakeKeeps(k: Link)
    requires LinkOk(k)
    ensures LinkOk(Take(k)) && k.heard <= Take(k).heard
  {
    hide Wire, Wires, ParseFrame, SentOk;
    var rest, behind, k' := k.sent[|k.heard|..], k.wire + k.queued + k.lost, Take(k);
    assert k.unread + k.wire + k.queued + k.lost == k.unread + behind;
    SentSame(k, k');
    ParsePrefix(k.unread, rest);
    if rest != [] && |Wire(rest[0])| <= |k.unread| {
      FrameTaken(k.unread, behind, rest);
      assert k'.sent[|k'.heard|..] == rest[1..];
      assert k'.unread + k.wire + k.queued + k.lost == k'.unread + behind;
    }
  }

  lemma PollKeeps(cap: nat, k: Link, n: nat)
    requires LinkOk(k)
    ensures LinkOk(Do(cap, k, Poll(n)))
  {
    hide LinkOk, Take, Receive;
    ReceiveKeeps(k, n);
    TakeKeeps(Receive(k, n));
  }

  lemma FrameTaken(b: seq<Byte>, behind: seq<Byte>, rest: seq<Message>)
    requires rest != [] && |Wire(rest[0])| <= |b| && b + behind == Wires(rest)
    ensures b[|Wire(rest[0])|..] + behind == Wires(rest[1..])
  {
    var w := Wire(rest[0]);
    assert b[|w|..] + behind == Wires(rest)[|w|..];
    assert Wires(rest) == w + Wires(rest[1..]);
  }

  lemma CloseKeeps(cap: nat, k: Link)
    requires LinkOk(k)
    ensures LinkOk(Do(cap, k, Close))
  {
    assert k.unread + k.wire + [] + (k.queued + k.lost) == k.unread + k.wire + k.queued + k.lost;
  }

  lemma LateKeeps(cap: nat, k: Link, m: Message)
    requires LinkOk(k) && k.closing && m.tag != WARNING
    ensures LinkOk(Do(cap, k, Broadcast(m)))
  {
  }

  lemma DoKeeps(cap: nat, k: Link, a: Act)
    requires LinkOk(k) && ActOk(a)
    ensures LinkOk(Do(cap, k, a))
  {
    hide Do, LinkOk;
    match a {
      case Broadcast(m) => if k.closing { LateKeeps(cap, k, m); } else { BroadcastKeeps(cap, k, m); }
      case Send(n) => SendKeeps(cap, k, n);
      case Poll(n) => PollKeeps(cap, k, n);
      case Close => CloseKeeps(cap, k);
    }
  }

  // ------------------------------------------------------------- what gets through

  /**
   A record is queued, whole and with the connection left open, if and only if its frame fits behind what
   is pending. Otherwise the connection ends, with a warning if there is room for one.
   */
  lemma BroadcastFits(cap: nat, k: Link, m: Message)
    requires !k.closing
    ensures var k' := Do(cap, k, Broadcast(m));
            if |k.queued| + 16 + |m.payload| <= cap then !k'.closing && k'.queued == k.queued + Wire(m)
            else k'.closing && if |k.queued| + 24 <= cap
                 then k'.queued == k.queued + Wire(Message(0, WARNING, Le(|k.queued|, 4) + Le(cap, 4)))
                 else k'.queued == k.queued
  {
    hide Wire, Le;
    assert Wires([m]) == Wire(m) + [] == Wire(m);
    var w := Warn(|k.queued|, cap);
    assert Wires([w]) == Wire(w) + [] == Wire(w);
  }

  /** An action that leaves an open connection open. */
  predicate Fits(cap: nat, k: Link, a: Act) {
    !a.Close? && (a.Broadcast? ==> |k.queued| + 16 + |a.m.payload| <= cap)
  }

  lemma StaysOpen(cap: nat, k: Link, a: Act)
    ensures !Do(cap, k, a).closing <==> !k.closing && Fits(cap, k, a)
  {
    hide Wires, Wire, ParseFrame;
    if a.Broadcast? && !k.closing { BroadcastFits(cap, k, a.m); }
  }

  /** A connection is open if and only if it was never closed and every record so far has fitted. */
  lemma {:induction false} OpenWhile(cap: nat, k: Link, acts: seq<Act>)
    ensures !DoAll(cap, k, acts).closing <==>
              !k.closing && forall i :: 0 <= i < |acts| ==> Fits(cap, DoAll(cap, k, acts[..i]), acts[i])
    decreases |acts|
  {
    hide Do, Fits;
    if acts != [] {
      var k', rest := Do(cap, k, acts[0]), acts[1..];
      StaysOpen(cap, k, acts[0]);
      OpenWhile(cap, k', rest);
      assert acts[..0] == [];
      forall i | 0 <= i < |rest| ensures DoAll(cap, k', rest[..i]) == DoAll(cap, k, acts[..i + 1]) {
        assert acts[..i + 1][0] == acts[0] && acts[..i + 1][1..] == rest[..i];
      }
      if forall i :: 0 <= i < |acts| ==> Fits(cap, DoAll(cap, k, acts[..i]), acts[i]) {
        forall i | 0 <= i < |rest| ensures Fits(cap, DoAll(cap, k', rest[..i]), rest[i]) {
          assert Fits(cap, DoAll(cap, k, acts[..i + 1]), acts[i + 1]);
        }
      }
      if Fits(cap, k, acts[0]) && forall i :: 0 <= i < |rest| ==> Fits(cap, DoAll(cap, k', rest[..i]), rest[i]) {
        forall i | 0 <= i < |acts| ensures Fits(cap, DoAll(cap, k, acts[..i]), acts[i]) {
          if i > 0 { assert Fits(cap, DoAll(cap, k', rest[..i - 1]), rest[i - 1]); }
        }
      }
    }
  }

  /** A poll delivers the next record sent if and only if all of its bytes have arrived by then. */
  lemma PollHears(cap: nat, k: Link, n: nat)
    requires LinkOk(k)
    ensures var k', rest := Do(cap, k, Poll(n)), k.sent[|k.heard|..];
            k'.heard == k.heard + if rest != [] && 16 + |rest[0].payload| <= |k.unread| + Least(n, |k.wire|)
                                  then [rest[0]] else []
  {
    hide Wires, ParseFrame, SentOk;
    var r, rest := Receive(k, n), k.sent[|k.heard|..];
    ReceiveKeeps(k, n);
    assert r.unread + r.wire + r.queued + r.lost == r.unread + (r.wire + r.queued + r.lost);
    SentSame(k, r);
    ParsePrefix(r.unread, rest);
  }

  /** The records among what a client heard: all of it but a final warning. */
  function Records(ms: seq<Message>): seq<Message> {
    if ms != [] && ms[|ms| - 1].tag == WARNING then ms[..|ms| - 1] else ms
  }

  /**
   In every run of broadcasts, partial sends, partial receives and closes, the records delivered are a
   prefix of the records broadcast since the accept, and the stream never breaks.
   */
  lemma {:induction false} DeliversPrefix(cap: nat, k: Link, acts: seq<Act>)
    requires LinkOk(k) && forall i :: 0 <= i < |acts| ==> ActOk(acts[i])
    ensures LinkOk(DoAll(cap, k, acts)) && Records(DoAll(cap, k, acts).heard) <= DoAll(cap, k, acts).offered &&
        !DoAll(cap, k, acts).broken
    decreases |acts|
  {
    hide Do;
    if acts == [] {
      HeardOffered(k);
    } else {
      DoKeeps(cap, k, acts[0]);
      DeliversPrefix(cap, Do(cap, k, acts[0]), acts[1..]);
    }
  }

  /** From the accept on: what a client has delivered is a prefix of everything broadcast since. */
  lemma SinceAccept(cap: nat, acts: seq<Act>)
    requires forall i :: 0 <= i < |acts| ==> ActOk(acts[i])
    ensures var k := DoAll(cap, NEW_LINK, acts); Records(k.heard) <= k.offered && !k.broken
  {
    assert LinkOk(NEW_LINK);
    DeliversPrefix(cap, NEW_LINK, acts);
  }

  lemma HeardOffered(k: Link)
    requires LinkOk(k)
    ensures Records(k.heard) <= k.offered
  {
    hide Wires;
    if k.heard != [] {
      var n := |k.heard|;
      assert forall i :: 0 <= i < n ==> k.heard[i] == k.sent[i];
      if k.sent <= k.offered {
        assert k.heard[n - 1] == k.offered[n - 1];
      } else if n < |k.sent| {
        assert k.heard[n - 1] == k.sent[..|k.sent| - 1][n - 1];
      }
    }
  }

  lemma NothingWired(ms: seq<Message>)
    ensures Wires(ms) == [] <==> ms == []
  {
  }

  /** Once nothing is on its way any more and the connection was never closing, everything broadcast has been heard. */
  lemma Drained(k: Link)
    requires LinkOk(k) && !k.closing && k.queued == [] && k.wire == [] && k.unread == []
    ensures k.heard == k.offered
  {
    NothingWired(k.sent[|k.heard|..]);
  }
}
