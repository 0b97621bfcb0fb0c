/** The two ends of a connection: the buffers in which frames are queued and received, compacted in place. */
module TcpBuffers {
  import opened Common
  import opened WalFormat
  import opened TcpFraming

  /** Moves `buf[from..to]` to the front. */
  method Compact(buf: array<Byte>, from: nat, to: nat)
    requires from <= to <= buf.Length
    modifies buf
    ensures buf[..to - from] == old(buf[from..to])
  {
    forall i | 0 <= i < to - from { buf[i] := buf[from + i]; }
  }

  /** Copies `b` to `buf[at..]`. */
  method Store(buf: array<Byte>, at: nat, b: seq<Byte>)
    requires at + |b| <= buf.Length
    modifies buf
    ensures buf[..at + |b|] == old(buf[..at]) + b
  {
    forall i | 0 <= i < |b| { buf[at + i] := b[i]; }
  }

  class Outbox {
    const buf: array<Byte>
    var used: nat
    var offset: nat
    var closing: bool

    ghost predicate Valid()
      reads this
    {
      offset <= used <= buf.Length
    }

    ghost function Pending(): seq<Byte>
      requires Valid()
      reads this, buf
    {
      buf[offset..used]
    }

    constructor (size: nat)
      ensures Valid() && Pending() == [] && !closing && fresh(buf) && buf.Length == size
    {
      buf := new Byte[size](_ => 0);
      used, offset, closing := 0, 0, false;
    }

    method Push(b: seq<Byte>)
      requires Valid() && used + |b| <= buf.Length
      modifies this`used, buf
      ensures Valid() && Pending() == old(Pending()) + b && offset == old(offset)
    {
      ghost var was := buf[..used];
      Store(buf, used, b);
      used := used + |b|;
      assert buf[offset..used] == buf[..used][offset..];
      assert (was + b)[offset..] == was[offset..] + b;
    }

    /** Queues a record; a record that does not fit ends the connection, with a warning if that still fits. */
    method Append(m: Message)
      requires Valid() && !closing && MessageOk(m)
      modifies this, buf
      ensures Valid()
      ensures var (ms, c) := Put(buf.Length, old(Pending()), m);
              Pending() == old(Pending()) + Wires(ms) && closing == c
      ensures !closing <==> |old(Pending())| + 16 + |m.payload| <= buf.Length
    {
      ghost var was := Pending();
      var size := HEAD + |m.payload|;
      if used + size > buf.Length {
        var pending := used - offset;
        if offset > 0 { Compact(buf, offset, used); }
        used, offset := pending, 0;
        assert buf[0..pending] == was;
      }
      WiresOne(m);
      if used + size > buf.Length {
        var w := Warn(used - offset, buf.Length);
        WiresOne(w);
        if used + HEAD + 8 <= buf.Length { Push(Wire(w)); }
        closing := true;
        assert was + Wires([]) == was;
        return;
      }
      Push(Wire(m));
    }

    /** The socket has taken `n` bytes. */
    method Send(n: nat) returns (b: seq<Byte>)
      requires Valid() && 1 <= n <= |Pending()|
      modifies this`used, this`offset
      ensures Valid() && b == old(Pending())[..n] && Pending() == old(Pending())[n..]
    {
      b := buf[offset..offset + n];
      offset := offset + n;
      if offset == used { offset, used := 0, 0; }
    }
  }

  lemma WiresOne(m: Message)
    ensures Wires([m]) == Wire(m)
  {
    assert [m][1..] == [];
  }

  // ------------------------------------------------------------------ client

  datatype Status = InOrder | GapDetected | ReorderDetected

  datatype Result = Nothing | Disconnected | Protocol | Slow | Delivered(m: Message, status: Status)

  function StatusOf(expected: nat, reject: bool, no: nat): Status {
    if expected > 0 && no > expected then GapDetected
    else if expected > 0 && no < expected && reject then ReorderDetected else InOrder
  }

  /** A prefix that holds the whole first frame gives the same frame. */
  lemma ParseStable(b: seq<Byte>, whole: seq<Byte>)
    requires b <= whole && ParseFrame(whole).Frame?
    ensures ParseFrame(b) == if |b| < |Wire(ParseFrame(whole).m)| then Incomplete else ParseFrame(whole)
  {
    hide Num, Wire;
    if |b| >= HEAD {
      assert b[0..4] == whole[0..4] && b[6..8] == whole[6..8] && b[8..16] == whole[8..16] && b[4] == whole[4];
      var size := SizeOf(whole);
      if |b| >= size { assert b[HEAD..size] == whole[HEAD..size]; }
    }
  }

  lemma FrameFits(b: seq<Byte>)
    requires ParseFrame(b).Frame?
    ensures |Wire(ParseFrame(b).m)| == SizeOf(b) <= |b|
  {
  }

  class Inbox {
    const buf: array<Byte>
    const reject: bool
    var used: nat
    var offset: nat
    var expected: nat
    var last: nat

    ghost predicate Valid()
      reads this
    {
      offset <= used <= buf.Length
    }

    ghost function Unread(): seq<Byte>
      requires Valid()
      reads this, buf
    {
      buf[offset..used]
    }

    constructor (size: nat, reject: bool)
      ensures Valid() && Unread() == [] && fresh(buf) && expected == 0
    {
      buf := new Byte[size](_ => 0);
      this.reject := reject;
      used, offset, expected, last := 0, 0, 0, 0;
    }

    /** Makes room when the read part is large or the buffer is full. */
    method MakeRoom()
      requires Valid()
      modifies this`used, this`offset, buf
      ensures Valid() && Unread() == old(Unread())
      ensures old(offset) > 0 && (old(offset) > buf.Length / 2 || old(used) == buf.Length) ==> offset == 0
      ensures old(offset) == 0 ==> offset == 0
    {
      if offset > 0 && (offset > buf.Length / 2 || used == buf.Length) {
        ghost var was := Unread();
        Compact(buf, offset, used);
        used, offset := used - offset, 0;
        assert buf[0..used] == was;
      }
    }

    /** The socket gives up to `room` bytes of what has arrived; `eager` if it gives all it can. */
    method Receive(wire: seq<Byte>, eager: bool) returns (n: nat)
      requires Valid()
      modifies this`used, buf
      ensures Valid() && n <= |wire| && Unread() == old(Unread()) + wire[..n] && used == old(used) + n
      ensures eager ==> n == |wire| || used == buf.Length
    {
      var most := Least(buf.Length - used, |wire|);
      n :| 0 <= n <= most && (eager ==> n == most);
      ghost var was := buf[..used];
      Store(buf, used, wire[..n]);
      used := used + n;
      assert buf[offset..used] == buf[..used][offset..];
      assert (was + wire[..n])[offset..] == was[offset..] + wire[..n];
    }

    /** Takes one frame off the received bytes and checks its sequence number. */
    method TakeFrame(closed: bool) returns (r: Result)
      requires Valid()
      modifies this`offset, this`expected, this`last
      ensures Valid()
      ensures match ParseFrame(old(Unread()))
              case Incomplete => r == (if closed then Disconnected else Nothing) && Unread() == old(Unread()) &&
                  expected == old(expected)
              case Broken => r == Protocol && Unread() == old(Unread()) && expected == old(expected)
              case Frame(m) =>
                && |Wire(m)| <= |old(Unread())| && Unread() == old(Unread())[|Wire(m)|..]
                && r == (if m.tag == WARNING then Slow else Delivered(m, StatusOf(old(expected), reject, m.no)))
                && expected == if m.tag == WARNING then old(expected) else m.no + 1
    {
      hide Num, Wire;
      var b := buf[offset..used];
      if |b| < HEAD { return if closed then Disconnected else Nothing; }
      if Num(b[0..4]) != MAGIC { return Protocol; }
      var size := SizeOf(b);
      if |b| < size { return if closed then Disconnected else Nothing; }
      FrameFits(b);
      var m := Message(Num(b[8..16]), b[4], b[HEAD..size]);
      offset := offset + size;
      assert buf[offset..used] == b[size..];
      if m.tag == WARNING { return Slow; }
      r := Delivered(m, StatusOf(expected, reject, m.no));
      expected, last := m.no + 1, m.no;
    }

    /**
     One poll. A frame that has arrived whole and fits the buffer is delivered by this poll or, when
     the unread part had to be moved first, by the next.
     */
    method Poll(wire: seq<Byte>, eager: bool, closed: bool) returns (r: Result, n: nat)
      requires Valid()
      modifies this, buf
      ensures Valid() && n <= |wire|
      ensures var b := old(Unread()) + wire[..n];
              match ParseFrame(b)
              case Incomplete => r in {Nothing, Disconnected} && Unread() == b
              case Broken => r == Protocol && Unread() == b
              case Frame(m) => |Wire(m)| <= |b| && Unread() == b[|Wire(m)|..] && r == if m.tag == WARNING then Slow
                  else Delivered(m, StatusOf(old(expected), reject, m.no))
      ensures var whole := ParseFrame(old(Unread()) + wire);
              eager && whole.Frame? && |Wire(whole.m)| <= buf.Length ==>
                && (!(r.Delivered? || r.Slow?) ==> offset > 0 && used == buf.Length)
                && (old(offset) == 0 || old(offset) > buf.Length / 2 || old(used) == buf.Length ==>
                   r.Delivered? || r.Slow?)
    {
      hide ParseFrame, Wire;
      ghost var was := Unread();
      MakeRoom();
      ghost var start := offset;
      n := Receive(wire, eager);
      ghost var b, full := Unread(), used == buf.Length;
      if ParseFrame(was + wire).Frame? { ParseStable(b, was + wire); WholeSize(was + wire); }
      r := TakeFrame(closed && n == 0);
    }
  }

  lemma WholeSize(b: seq<Byte>)
    requires ParseFrame(b).Frame?
    ensures |Wire(ParseFrame(b).m)| <= |b|
  {
    FrameFits(b);
  }

  /** The sequence checks of a client over the records it is given. */
  function Statuses(expected: nat, reject: bool, ms: seq<Message>): seq<Status>
    decreases |ms|
  {
    if ms == [] then [] else [StatusOf(expected, reject, ms[0].no)] + Statuses(ms[0].no + 1, reject, ms[1..])
  }

  /** A check reports nothing exactly when each number follows the one before, or is lower and that is tolerated. */
  lemma {:induction false} NoFalseAlarm(expected: nat, reject: bool, ms: seq<Message>, i: nat)
    requires i < |ms|
    ensures |Statuses(expected, reject, ms)| == |ms|
    ensures var before := if i == 0 then expected else ms[i - 1].no + 1;
            Statuses(expected, reject, ms)[i] == InOrder <==>
                before == 0 || ms[i].no == before || (ms[i].no < before && !reject)
    decreases |ms|
  {
    if |ms| > 1 { NoFalseAlarm(ms[0].no + 1, reject, ms[1..], if i == 0 then 0 else i - 1); }
  }
}
