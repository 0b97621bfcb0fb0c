/**
 The checksums: the table-driven computation is long division of the message, as a string of bits,
 by the generator polynomial. A 32-bit word is its bits with the least significant first, which for
 these bit-reversed checksums is the highest power first.
 */
module Crc {
  import opened WalFormat

  type Bits = seq<bool>

  // ------------------------------------------------------------ bits and words

  function BitsOf(n: nat, k: nat): (w: Bits)
    ensures |w| == k
  {
    if k == 0 then [] else [n % 2 == 1] + BitsOf(n / 2, k - 1)
  }

  function Value(w: Bits): nat { if w == [] then 0 else (if w[0] then 1 else 0) + 2 * Value(w[1..]) }

  lemma {:induction false} ValueBits(w: Bits)
    ensures BitsOf(Value(w), |w|) == w
  {
    if w != [] { ValueBits(w[1..]); }
  }

  function Power(k: nat): (p: nat)
    ensures p > 0
  {
    if k == 0 then 1 else 2 * Power(k - 1)
  }

  lemma {:induction false} ValueBound(w: Bits)
    ensures Value(w) < Power(|w|)
  {
    if w != [] { ValueBound(w[1..]); }
  }

  function Zeros(n: nat): (w: Bits)
    ensures |w| == n && forall i :: 0 <= i < n ==> !w[i]
  {
    seq(n, _ => false)
  }

  function Ones(n: nat): (w: Bits)
    ensures |w| == n && forall i :: 0 <= i < n ==> w[i]
  {
    seq(n, _ => true)
  }

  function Xor(a: Bits, b: Bits): (w: Bits)
    requires |a| == |b|
    ensures |w| == |a| && forall i :: 0 <= i < |w| ==> w[i] == (a[i] != b[i])
  {
    seq(|a|, i requires 0 <= i < |a| => a[i] != b[i])
  }

  predicate Word(w: Bits) { |w| == 32 }

  /** CRC-32 of IEEE 802.3 and CRC32C of RFC 3720, the coefficients from x^31 down to 1. */
  const IEEE: Bits := BitsOf(0xEDB8_8320, 32)
  const CASTAGNOLI: Bits := BitsOf(0x82F6_3B78, 32)

  /** The polynomial has exactly these powers of x below 32. */
  predicate Powers(p: Bits, powers: set<nat>) {
    Word(p) && forall k: nat :: k < 32 ==> (p[31 - k] <==> k in powers)
  }

  function Bit(b: bool): nat { if b then 1 else 0 }

  lemma ByteValue(w: Bits)
    requires |w| == 8
    ensures Value(w) == Bit(w[0]) + 2 * Bit(w[1]) + 4 * Bit(w[2]) + 8 * Bit(w[3]) + 16 * Bit(w[4]) + 32 * Bit(w[5]) +
                        64 * Bit(w[6]) + 128 * Bit(w[7])
  {
    var a, b := w[..4], w[4..];
    NibbleValue(a);
    NibbleValue(b);
    ValueAppend(a, b);
    assert w == a + b;
    assert Power(4) == 2 * Power(3) && Power(3) == 2 * Power(2) && Power(2) == 2 * Power(1) && Power(1) == 2;
  }

  lemma NibbleValue(w: Bits)
    requires |w| == 4
    ensures Value(w) == Bit(w[0]) + 2 * Bit(w[1]) + 4 * Bit(w[2]) + 8 * Bit(w[3])
  {
    assert w[1..][1..] == w[2..] && w[2..][1..] == w[3..] && w[3..][1..] == [];
    assert Value(w[3..]) == Bit(w[3]) && Value(w[2..]) == Bit(w[2]) + 2 * Value(w[3..]);
    assert Value(w[1..]) == Bit(w[1]) + 2 * Value(w[2..]);
  }

  lemma Twice(x: nat, y: nat)
    ensures 2 * x * y == 2 * (x * y)
  {
  }

  lemma {:induction false} ValueAppend(a: Bits, b: Bits)
    ensures Value(a + b) == Value(a) + Power(|a|) * Value(b)
  {
    if a == [] {
      assert a + b == b;
    } else {
      assert (a + b)[1..] == a[1..] + b;
      ValueAppend(a[1..], b);
      Twice(Power(|a| - 1), Value(b));
    }
  }

  /** Four bytes, the least significant first, make a word. */
  lemma WordIs(a: Bits, b: Bits, c: Bits, d: Bits, n: nat)
    requires |a| == |b| == |c| == |d| == 8
    requires n == Value(a) + 0x100 * Value(b) + 0x1_0000 * Value(c) + 0x100_0000 * Value(d)
    ensures BitsOf(n, 32) == a + b + c + d
  {
    assert Power(8) == 0x100 by {
      assert Power(8) == 2 * Power(7) && Power(7) == 2 * Power(6) && Power(6) == 2 * Power(5) &&
          Power(5) == 2 * Power(4);
      assert Power(4) == 2 * Power(3) && Power(3) == 2 * Power(2) && Power(2) == 2 * Power(1) && Power(1) == 2;
    }
    ValueAppend(a, b + (c + d));
    ValueAppend(b, c + d);
    ValueAppend(c, d);
    var w := a + (b + (c + d));
    assert Value(w) == n;
    ValueBits(w);
    assert w == a + b + c + d;
  }

  lemma IeeeBits()
    ensures IEEE == [false, false, false, false, false, true, false, false] +
            [true, true, false, false, false, false, false, true] +
            [false, false, false, true, true, true, false, true] +
            [true, false, true, true, false, true, true, true]
  {
    hide Value, BitsOf;
    var a, b := [false, false, false, false, false, true, false, false],
        [true, true, false, false, false, false, false, true];
    var c, d := [false, false, false, true, true, true, false, true],
        [true, false, true, true, false, true, true, true];
    ByteValue(a);
    ByteValue(b);
    ByteValue(c);
    ByteValue(d);
    WordIs(a, b, c, d, 0xEDB88320);
    assert IEEE == BitsOf(0xEDB88320, 32);
  }

  lemma CastagnoliBits()
    ensures CASTAGNOLI == [false, false, false, true, true, true, true, false] +
            [true, true, false, true, true, true, false, false] +
            [false, true, true, false, true, true, true, true] +
            [false, true, false, false, false, false, false, true]
  {
    hide Value, BitsOf;
    var a, b := [false, false, false, true, true, true, true, false],
        [true, true, false, true, true, true, false, false];
    var c, d := [false, true, true, false, true, true, true, true],
        [false, true, false, false, false, false, false, true];
    ByteValue(a);
    ByteValue(b);
    ByteValue(c);
    ByteValue(d);
    WordIs(a, b, c, d, 0x82F63B78);
    assert CASTAGNOLI == BitsOf(0x82F63B78, 32);
  }

  /** The generators of IEEE 802.3 and of RFC 3720, below their x^32. */
  lemma Generators()
    ensures Powers(IEEE, {26, 23, 22, 16, 12, 11, 10, 8, 7, 5, 4, 2, 1, 0})
    ensures Powers(CASTAGNOLI, {28, 27, 26, 25, 23, 22, 20, 19, 18, 14, 13, 11, 10, 9, 8, 6, 0})
  {
    IeeeBits();
    CastagnoliBits();
    hide BitsOf;
  }

  // ------------------------------------------------------------- long division

  /** The remainder of a bit string, highest power first, by x^32 plus the polynomial `p`. */
  function Divide(p: Bits, d: Bits): (r: Bits)
    requires Word(p) && |d| >= 32
    ensures Word(r)
    decreases |d|
  {
    if |d| == 32 then d
    else if d[0] then Divide(p, Xor(d[1..33], p) + d[33..])
    else Divide(p, d[1..])
  }

  /** Division is linear. */
  lemma {:induction false} DivideLinear(p: Bits, a: Bits, b: Bits)
    requires Word(p) && |a| == |b| >= 32
    ensures Divide(p, Xor(a, b)) == Xor(Divide(p, a), Divide(p, b))
    decreases |a|
  {
    if |a| > 32 {
      var c, a', b' := Xor(a, b), Next(p, a), Next(p, b);
      DivideLinear(p, a', b');
      assert Next(p, c) == Xor(a', b');
    }
  }

  /** The first bit of a dividend taken off, the polynomial being added where it was set. */
  function Next(p: Bits, d: Bits): (r: Bits)
    requires Word(p) && |d| > 32
    ensures |r| == |d| - 1 && Divide(p, d) == Divide(p, r)
  {
    if d[0] then Xor(d[1..33], p) + d[33..] else d[1..]
  }

  /** A remainder is its own remainder, and x^32 plus the polynomial, times any power of x, leaves none. */
  lemma {:induction false} DivideUnits(p: Bits, r: Bits, n: nat)
    requires Word(p) && Word(r)
    ensures Divide(p, Zeros(n) + r) == r
    ensures Divide(p, [true] + p + Zeros(n)) == Zeros(32)
    decreases n
  {
    if n == 0 { assert Zeros(0) + r == r; } else {
      assert (Zeros(n) + r)[1..] == Zeros(n - 1) + r;
      DivideUnits(p, r, n - 1);
    }
    var d := [true] + p + Zeros(n);
    assert d[1..33] == p && d[33..] == Zeros(n);
    assert Xor(p, p) == Zeros(32);
    var rest := Zeros(32) + Zeros(n);
    assert rest == Zeros(n) + Zeros(32);
    ZerosLeave(p, n);
  }

  lemma {:induction false} ZerosLeave(p: Bits, n: nat)
    requires Word(p)
    ensures Divide(p, Zeros(n) + Zeros(32)) == Zeros(32)
  {
    if n == 0 { assert Zeros(0) + Zeros(32) == Zeros(32); } else {
      assert (Zeros(n) + Zeros(32))[1..] == Zeros(n - 1) + Zeros(32);
      ZerosLeave(p, n - 1);
    }
  }

  function MessageBits(data: seq<Byte>): Bits { if data == [] then [] else BitsOf(data[0], 8) + MessageBits(data[1..]) }

  /** The message followed by 32 zeros, its first 32 bits inverted by `w`. */
  function Dividend(w: Bits, bits: Bits): Bits
    requires Word(w)
  {
    var d := bits + Zeros(32);
    Xor(w, d[..32]) + d[32..]
  }

  // ------------------------------------------------------------- the register

  function Half(w: Bits): Bits
    requires Word(w)
  {
    w[1..] + [false]
  }

  /** One shift of the register, `fed` being the bit that decides whether the polynomial is added. */
  function Step(p: Bits, w: Bits, fed: bool): (r: Bits)
    requires Word(p) && Word(w)
    ensures Word(r)
  {
    if fed then Xor(Half(w), p) else Half(w)
  }

  function Shifts(p: Bits, w: Bits, n: nat): (r: Bits)
    requires Word(p) && Word(w)
    ensures Word(r)
    decreases n
  {
    if n == 0 then w else Shifts(p, Step(p, w, w[0]), n - 1)
  }

  /** The register fed with message bits one by one. */
  function Feed(p: Bits, w: Bits, bits: Bits): (r: Bits)
    requires Word(p) && Word(w)
    ensures Word(r)
    decreases |bits|
  {
    if bits == [] then w else Feed(p, Step(p, w, w[0] != bits[0]), bits[1..])
  }

  lemma {:induction false} FeedAppend(p: Bits, w: Bits, a: Bits, b: Bits)
    requires Word(p) && Word(w)
    ensures Feed(p, w, a + b) == Feed(p, Feed(p, w, a), b)
    decreases |a|
  {
    if a == [] {
      assert a + b == b;
    } else {
      assert (a + b)[0] == a[0] && (a + b)[1..] == a[1..] + b;
      FeedAppend(p, Step(p, w, w[0] != a[0]), a[1..], b);
    }
  }

  /** Working through the dividend, the register is what has been added to the bits ahead. */
  lemma {:induction false} FeedDivides(p: Bits, w: Bits, bits: Bits)
    requires Word(p) && Word(w)
    ensures Divide(p, Dividend(w, bits)) == Feed(p, w, bits)
    decreases |bits|
  {
    if bits == [] {
      assert Dividend(w, bits) == w;
    } else {
      var w' := Step(p, w, w[0] != bits[0]);
      DividendNext(p, w, bits);
      FeedDivides(p, w', bits[1..]);
    }
  }

  lemma DividendNext(p: Bits, w: Bits, bits: Bits)
    requires Word(p) && Word(w) && bits != []
    ensures var d := Dividend(w, bits);
            && |d| == 32 + |bits| && d[0] == (w[0] != bits[0])
            && (if d[0] then Xor(d[1..33], p) + d[33..] else d[1..]) == Dividend(Step(p, w, w[0] != bits[0]), bits[1..])
  {
    var d, w' := Dividend(w, bits), Step(p, w, w[0] != bits[0]);
    var e := Dividend(w', bits[1..]);
    assert bits[1..] + Zeros(32) == (bits + Zeros(32))[1..];
    var next := if d[0] then Xor(d[1..33], p) + d[33..] else d[1..];
    assert |next| == |e|;
    forall i | 0 <= i < |e| ensures next[i] == e[i] {
      assert d[i + 1] == (if i < 31 then w[i + 1] != (bits + Zeros(32))[i + 1] else (bits + Zeros(32))[i + 1]);
      assert e[i] == (if i < 32 then w'[i] != (bits + Zeros(32))[i + 1] else (bits + Zeros(32))[i + 1]);
    }
  }

  // ----------------------------------------------------------- a byte at a time

  lemma MixedStep(p: Bits, w: Bits, bits: Bits)
    requires Word(p) && Word(w) && 0 < |bits| <= 32
    ensures var mixed := Xor(w, bits + Zeros(32 - |bits|));
            Step(p, mixed, mixed[0]) == Xor(Step(p, w, w[0] != bits[0]), bits[1..] + Zeros(33 - |bits|))
  {
    var mixed, pad := Xor(w, bits + Zeros(32 - |bits|)), bits[1..] + Zeros(33 - |bits|);
    var a, b := Step(p, mixed, mixed[0]), Xor(Step(p, w, w[0] != bits[0]), pad);
    forall i | 0 <= i < 32 ensures a[i] == b[i] {
      if i < 31 { assert pad[i] == (bits + Zeros(32 - |bits|))[i + 1]; }
    }
  }

  /** Feeding up to 32 bits is mixing them in first and shifting then. */
  lemma {:induction false} FeedIsShifts(p: Bits, w: Bits, bits: Bits)
    requires Word(p) && Word(w) && |bits| <= 32
    ensures Feed(p, w, bits) == Shifts(p, Xor(w, bits + Zeros(32 - |bits|)), |bits|)
    decreases |bits|
  {
    var mixed := Xor(w, bits + Zeros(32 - |bits|));
    if bits == [] {
      assert mixed == w;
    } else {
      var w' := Step(p, w, w[0] != bits[0]);
      FeedIsShifts(p, w', bits[1..]);
      MixedStep(p, w, bits);
    }
  }

  lemma StepLinear(p: Bits, x: Bits, y: Bits)
    requires Word(p) && Word(x) && Word(y)
    ensures Step(p, Xor(x, y), Xor(x, y)[0]) == Xor(Step(p, x, x[0]), Step(p, y, y[0]))
  {
  }

  lemma {:induction false} ShiftsLinear(p: Bits, x: Bits, y: Bits, n: nat)
    requires Word(p) && Word(x) && Word(y)
    ensures Shifts(p, Xor(x, y), n) == Xor(Shifts(p, x, n), Shifts(p, y, n))
    decreases n
  {
    if n > 0 {
      StepLinear(p, x, y);
      ShiftsLinear(p, Step(p, x, x[0]), Step(p, y, y[0]), n - 1);
    }
  }

  /** Shifting out zeros never adds the polynomial. */
  lemma {:induction false} ShiftsZeros(p: Bits, w: Bits, n: nat)
    requires Word(p) && Word(w) && n <= 32 && forall i :: 0 <= i < n ==> !w[i]
    ensures Shifts(p, w, n) == w[n..] + Zeros(n)
    decreases n
  {
    if n == 0 {
      assert w[0..] + Zeros(0) == w;
    } else {
      ShiftsZeros(p, Half(w), n - 1);
      assert Half(w)[n - 1..] + Zeros(n - 1) == w[n..] + Zeros(n);
    }
  }

  /** The word of a table entry: the byte alone, shifted eight times. */
  function Entry(p: Bits, i: nat): (r: Bits)
    requires Word(p)
    ensures Word(r)
  {
    Shifts(p, BitsOf(i, 32), 8)
  }

  lemma {:induction false} BitsPad(n: nat, k: nat, m: nat)
    requires n < Power(k)
    ensures BitsOf(n, k + m) == BitsOf(n, k) + Zeros(m)
    decreases k + m
  {
    if k > 0 { BitsPad(n / 2, k - 1, m); }
    else if m > 0 {
      BitsPad(0, 0, m - 1);
      assert [false] + Zeros(m - 1) == Zeros(m);
    }
  }

  lemma PowerEight()
    ensures Power(8) == 256
  {
    assert Power(4) == 16;
  }

  /** One table step is eight shifts with the byte mixed in, that is, the byte's bits fed one by one. */
  lemma TableStep(p: Bits, crc: Bits, b: Byte)
    requires Word(p) && Word(crc)
    ensures var i := Value(Xor(crc[..8], BitsOf(b, 8)));
            i < 256 && Xor(Entry(p, i), crc[8..] + Zeros(8)) == Feed(p, crc, BitsOf(b, 8))
  {
    var low8 := Xor(crc[..8], BitsOf(b, 8));
    var i := Value(low8);
    PowerEight();
    ValueBound(low8);
    ValueBits(low8);
    BitsPad(i, 8, 24);
    var low, high := low8 + Zeros(24), Zeros(8) + crc[8..];
    var mixed := Xor(crc, BitsOf(b, 8) + Zeros(24));
    assert mixed == Xor(low, high);
    FeedIsShifts(p, crc, BitsOf(b, 8));
    ShiftsLinear(p, low, high, 8);
    ShiftsZeros(p, high, 8);
    assert high[8..] == crc[8..];
  }

  // --------------------------------------------------------------- the programs

  /** Eight shifts for each of the 256 bytes. */
  method BuildTable(p: Bits) returns (table: array<Bits>)
    requires Word(p)
    ensures table.Length == 256 && fresh(table) && forall i :: 0 <= i < 256 ==> table[i] == Entry(p, i)
  {
    hide BitsOf, Shifts;
    table := new Bits[256](_ => []);
    var i := 0;
    while i < 256
      invariant 0 <= i <= 256 && forall j :: 0 <= j < i ==> table[j] == Entry(p, j)
    {
      var crc := EightShifts(p, BitsOf(i, 32));
      table[i] := crc;
      i := i + 1;
    }
  }

  method EightShifts(p: Bits, w: Bits) returns (crc: Bits)
    requires Word(p) && Word(w)
    ensures crc == Shifts(p, w, 8)
  {
    hide Step;
    crc := w;
    var j := 0;
    while j < 8
      invariant 0 <= j <= 8 && Word(crc) && Shifts(p, crc, 8 - j) == Shifts(p, w, 8)
    {
      crc := Step(p, crc, crc[0]);
      j := j + 1;
    }
  }

  /** The table-driven checksum is the inverted remainder of the message, inverted in its first 32 bits. */
  method Compute(p: Bits, table: array<Bits>, data: seq<Byte>) returns (sum: Bits)
    requires Word(p) && table.Length == 256 && forall i :: 0 <= i < 256 ==> table[i] == Entry(p, i)
    ensures sum == Xor(Divide(p, Dividend(Ones(32), MessageBits(data))), Ones(32))
  {
    var crc, i := Ones(32), 0;
    while i < |data|
      invariant 0 <= i <= |data| && Word(crc) &&
          Feed(p, crc, MessageBits(data[i..])) == Feed(p, Ones(32), MessageBits(data))
    {
      TableStep(p, crc, data[i]);
      assert data[i..][1..] == data[i + 1..];
      FeedAppend(p, crc, BitsOf(data[i], 8), MessageBits(data[i + 1..]));
      crc := Xor(table[Value(Xor(crc[..8], BitsOf(data[i], 8)))], crc[8..] + Zeros(8));
      i := i + 1;
    }
    FeedDivides(p, Ones(32), MessageBits(data));
    return Xor(crc, Ones(32));
  }

  /** The two checksums in use, from their own tables. */
  method Checksums(data: seq<Byte>) returns (ieee: Bits, castagnoli: Bits)
    ensures Word(IEEE) && ieee == Xor(Divide(IEEE, Dividend(Ones(32), MessageBits(data))), Ones(32))
    ensures Word(CASTAGNOLI) &&
            castagnoli == Xor(Divide(CASTAGNOLI, Dividend(Ones(32), MessageBits(data))), Ones(32))
  {
    hide Divide, Dividend, MessageBits, Entry;
    var table := BuildTable(IEEE);
    ieee := Compute(IEEE, table, data);
    table := BuildTable(CASTAGNOLI);
    castagnoli := Compute(CASTAGNOLI, table, data);
  }
}
