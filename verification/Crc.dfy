/** The 16-bit link-layer check sequence, table driven: cpp/lib/src/link/CRC.cpp.

    The reference is the bit-serial shift register; the table form is proved equal to it, and the
    errors the code detects are proved of the register. */
module Crc {

  type Octet = bv8

  // ---------------------------------------------------------------- words

  // The word operations are named so that a proof can hide their bit patterns.
  function Xor(x: bv16, y: bv16): bv16 { x ^ y }

  function Half(x: bv16): bv16 { x >> 1 }

  predicate Low(x: bv16) { x & 1 == 1 }

  lemma XorParts(x: bv16, y: bv16)
    ensures Half(Xor(x, y)) == Xor(Half(x), Half(y))
    ensures Low(Xor(x, y)) == (Low(x) != Low(y))
  {
  }

  lemma XorCommutes(x: bv16, y: bv16)
    ensures Xor(x, y) == Xor(y, x)
  {
  }

  lemma XorGroups(x: bv16, y: bv16, z: bv16)
    ensures Xor(Xor(x, y), z) == Xor(x, Xor(y, z))
  {
  }

  lemma XorZero(x: bv16)
    ensures Xor(x, 0) == x && Xor(0, x) == x && Xor(x, x) == 0
  {
  }

  lemma XorSwaps(w: bv16, x: bv16, y: bv16, z: bv16)
    ensures Xor(Xor(w, x), Xor(y, z)) == Xor(Xor(w, y), Xor(x, z))
  {
    hide Xor;
    XorGroups(w, x, Xor(y, z));
    XorGroups(x, y, z);
    XorCommutes(x, y);
    XorGroups(y, x, z);
    XorGroups(w, y, Xor(x, z));
  }

  // ---------------------------------------------------------------- the bit-serial register

  /** The DNP3 generator polynomial, reflected. */
  const POLY: bv16 := 0xA6BC

  /** One clock of the register. */
  function Shift(c: bv16): bv16 { if c & 1 == 1 then (c >> 1) ^ 0xA6BC else c >> 1 }

  function Shift8(c: bv16): bv16 { Shift(Shift(Shift(Shift(Shift(Shift(Shift(Shift(c)))))))) }

  function BitValue(b: bool): bv16 { if b then 1 else 0 }

  function Feed(c: bv16, b: bool): bv16 { Shift(Xor(c, BitValue(b))) }

  /** The definition of the code: the register once the bits have been clocked in. */
  function Serial(c: bv16, bits: seq<bool>): bv16
    decreases |bits|
  {
    if bits == [] then c else Serial(Feed(c, bits[0]), bits[1..])
  }

  /** The low n bits of a word, in the order they enter the register. */
  function WordBits(w: bv16, n: nat): (bits: seq<bool>)
    ensures |bits| == n
    decreases n
  {
    if n == 0 then [] else [Low(w)] + WordBits(Half(w), n - 1)
  }

  function OctetBits(b: Octet): (bits: seq<bool>)
    ensures |bits| == 8
  {
    WordBits(b as bv16, 8)
  }

  function BitsOf(s: seq<Octet>): (bits: seq<bool>)
    ensures |bits| == 8 * |s|
  {
    if s == [] then [] else OctetBits(s[0]) + BitsOf(s[1..])
  }

  lemma ShiftIs(c: bv16)
    ensures Shift(c) == if Low(c) then Xor(Half(c), POLY) else Half(c)
  {
  }

  lemma ShiftXor(x: bv16, y: bv16)
    ensures Shift(Xor(x, y)) == Xor(Shift(x), Shift(y))
  {
    hide *;
    ShiftIs(x);
    ShiftIs(y);
    ShiftIs(Xor(x, y));
    XorParts(x, y);
    var hx, hy := Half(x), Half(y);
    XorSwaps(hx, POLY, hy, POLY);
    XorZero(POLY);
    XorZero(Xor(hx, hy));
    XorGroups(hx, POLY, hy);
    XorCommutes(POLY, hy);
    XorGroups(hx, hy, POLY);
  }

  lemma Shift8Xor(x: bv16, y: bv16)
    ensures Shift8(Xor(x, y)) == Xor(Shift8(x), Shift8(y))
  {
    hide Xor, Shift;
    var x1, y1 := Shift(x), Shift(y);
    var x2, y2 := Shift(x1), Shift(y1);
    var x3, y3 := Shift(x2), Shift(y2);
    var x4, y4 := Shift(x3), Shift(y3);
    var x5, y5 := Shift(x4), Shift(y4);
    var x6, y6 := Shift(x5), Shift(y5);
    ShiftXor(x, y);
    ShiftXor(x1, y1);
    ShiftXor(x2, y2);
    ShiftXor(x3, y3);
    ShiftXor(x4, y4);
    ShiftXor(x5, y5);
    ShiftXor(x6, y6);
    ShiftXor(Shift(x6), Shift(y6));
  }

  // ---------------------------------------------------------------- the table

  /** crcTable, sixteen entries to a row. */
  const TABLE: seq<seq<bv16>> := [
    [0x0000, 0x365E, 0x6CBC, 0x5AE2, 0xD978, 0xEF26, 0xB5C4, 0x839A, 0xFF89, 0xC9D7, 0x9335, 0xA56B, 0x26F1, 0x10AF, 0x4A4D, 0x7C13],
    [0xB26B, 0x8435, 0xDED7, 0xE889, 0x6B13, 0x5D4D, 0x07AF, 0x31F1, 0x4DE2, 0x7BBC, 0x215E, 0x1700, 0x949A, 0xA2C4, 0xF826, 0xCE78],
    [0x29AF, 0x1FF1, 0x4513, 0x734D, 0xF0D7, 0xC689, 0x9C6B, 0xAA35, 0xD626, 0xE078, 0xBA9A, 0x8CC4, 0x0F5E, 0x3900, 0x63E2, 0x55BC],
    [0x9BC4, 0xAD9A, 0xF778, 0xC126, 0x42BC, 0x74E2, 0x2E00, 0x185E, 0x644D, 0x5213, 0x08F1, 0x3EAF, 0xBD35, 0x8B6B, 0xD189, 0xE7D7],
    [0x535E, 0x6500, 0x3FE2, 0x09BC, 0x8A26, 0xBC78, 0xE69A, 0xD0C4, 0xACD7, 0x9A89, 0xC06B, 0xF635, 0x75AF, 0x43F1, 0x1913, 0x2F4D],
    [0xE135, 0xD76B, 0x8D89, 0xBBD7, 0x384D, 0x0E13, 0x54F1, 0x62AF, 0x1EBC, 0x28E2, 0x7200, 0x445E, 0xC7C4, 0xF19A, 0xAB78, 0x9D26],
    [0x7AF1, 0x4CAF, 0x164D, 0x2013, 0xA389, 0x95D7, 0xCF35, 0xF96B, 0x8578, 0xB326, 0xE9C4, 0xDF9A, 0x5C00, 0x6A5E, 0x30BC, 0x06E2],
    [0xC89A, 0xFEC4, 0xA426, 0x9278, 0x11E2, 0x27BC, 0x7D5E, 0x4B00, 0x3713, 0x014D, 0x5BAF, 0x6DF1, 0xEE6B, 0xD835, 0x82D7, 0xB489],
    [0xA6BC, 0x90E2, 0xCA00, 0xFC5E, 0x7FC4, 0x499A, 0x1378, 0x2526, 0x5935, 0x6F6B, 0x3589, 0x03D7, 0x804D, 0xB613, 0xECF1, 0xDAAF],
    [0x14D7, 0x2289, 0x786B, 0x4E35, 0xCDAF, 0xFBF1, 0xA113, 0x974D, 0xEB5E, 0xDD00, 0x87E2, 0xB1BC, 0x3226, 0x0478, 0x5E9A, 0x68C4],
    [0x8F13, 0xB94D, 0xE3AF, 0xD5F1, 0x566B, 0x6035, 0x3AD7, 0x0C89, 0x709A, 0x46C4, 0x1C26, 0x2A78, 0xA9E2, 0x9FBC, 0xC55E, 0xF300],
    [0x3D78, 0x0B26, 0x51C4, 0x679A, 0xE400, 0xD25E, 0x88BC, 0xBEE2, 0xC2F1, 0xF4AF, 0xAE4D, 0x9813, 0x1B89, 0x2DD7, 0x7735, 0x416B],
    [0xF5E2, 0xC3BC, 0x995E, 0xAF00, 0x2C9A, 0x1AC4, 0x4026, 0x7678, 0x0A6B, 0x3C35, 0x66D7, 0x5089, 0xD313, 0xE54D, 0xBFAF, 0x89F1],
    [0x4789, 0x71D7, 0x2B35, 0x1D6B, 0x9EF1, 0xA8AF, 0xF24D, 0xC413, 0xB800, 0x8E5E, 0xD4BC, 0xE2E2, 0x6178, 0x5726, 0x0DC4, 0x3B9A],
    [0xDC4D, 0xEA13, 0xB0F1, 0x86AF, 0x0535, 0x336B, 0x6989, 0x5FD7, 0x23C4, 0x159A, 0x4F78, 0x7926, 0xFABC, 0xCCE2, 0x9600, 0xA05E],
    [0x6E26, 0x5878, 0x029A, 0x34C4, 0xB75E, 0x8100, 0xDBE2, 0xEDBC, 0x91AF, 0xA7F1, 0xFD13, 0xCB4D, 0x48D7, 0x7E89, 0x246B, 0x1235]]

  function Entry(index: Octet): bv16 { TABLE[(index >> 4) as int][(index & 0x0F) as int] }

  predicate Right(index: Octet) { Entry(index) == Shift8(index as bv16) }

  lemma Rows0To3(i: Octet) requires i < 0x40 ensures Right(i) {}
  lemma Rows4To7(i: Octet) requires 0x40 <= i < 0x80 ensures Right(i) {}
  lemma Rows8ToB(i: Octet) requires 0x80 <= i < 0xC0 ensures Right(i) {}
  lemma RowsCToF(i: Octet) requires 0xC0 <= i ensures Right(i) {}

  /** Every one of the 256 entries is eight clocks of the register. */
  lemma EntryIs(index: Octet)
    ensures Entry(index) == Shift8(index as bv16)
  {
    hide Entry, Shift8;
    if index < 0x40 {
      Rows0To3(index);
    } else if index < 0x80 {
      Rows4To7(index);
    } else if index < 0xC0 {
      Rows8ToB(index);
    } else {
      RowsCToF(index);
    }
  }

  // ---------------------------------------------------------------- octet by octet

  function LowOctet(x: bv16): Octet { (x & 0xFF) as Octet }

  function HighHalf(x: bv16): bv16 { x & 0xFF00 }

  function Down8(x: bv16): bv16 { x >> 8 }

  function Clock(c: bv16, b: Octet): bv16 { Shift8(Xor(c, b as bv16)) }

  function Register(c: bv16, s: seq<Octet>): bv16
    decreases |s|
  {
    if s == [] then c else Register(Clock(c, s[0]), s[1..])
  }

  lemma ShiftHigh(x: bv16)
    ensures Shift8(HighHalf(x)) == Down8(x)
  {
  }

  lemma SplitWord(c: bv16, b: Octet)
    ensures var x := Xor(c, b as bv16);
      x == Xor(LowOctet(x) as bv16, HighHalf(x)) && Down8(x) == Down8(c)
  {
  }

  /** The loop body of CalcCrc is eight clocks of the register. */
  lemma TableStep(c: bv16, b: Octet)
    ensures Xor(Entry(LowOctet(Xor(c, b as bv16))), Down8(c)) == Clock(c, b)
  {
    hide Shift8, Xor, Entry, HighHalf, Down8, LowOctet;
    var x := Xor(c, b as bv16);
    var index := LowOctet(x);
    SplitWord(c, b);
    EntryIs(index);
    ShiftHigh(x);
    Shift8Xor(index as bv16, HighHalf(x));
  }

  lemma {:induction false} RegisterConcat(c: bv16, s: seq<Octet>, t: seq<Octet>)
    ensures Register(c, s + t) == Register(Register(c, s), t)
    decreases |s|
  {
    hide Clock;
    if s == [] {
      assert s + t == t;
    } else {
      assert (s + t)[0] == s[0] && (s + t)[1..] == s[1..] + t;
      RegisterConcat(Clock(c, s[0]), s[1..], t);
    }
  }

  /** CalcCrc: the complement of the register after the message. */
  function Check(s: seq<Octet>): bv16 { !Register(0, s) }

  method CalcCrc(input: seq<Octet>) returns (crc: bv16)
    ensures crc == Check(input)
  {
    hide Xor, Entry, LowOctet, Down8, Clock;
    crc := 0;
    for i := 0 to |input|
      invariant crc == Register(0, input[..i])
    {
      var index := LowOctet(Xor(crc, input[i] as bv16));
      TableStep(crc, input[i]);
      assert input[..i + 1] == input[..i] + [input[i]];
      RegisterConcat(0, input[..i], [input[i]]);
      crc := Xor(Entry(index), Down8(crc));
    }
    assert input[..|input|] == input;
    crc := !crc;
  }

  // ---------------------------------------------------------------- octets and bits

  /** Clocking a word in is clocking its low bit in and keeping the rest for later. */
  lemma FeedLow(c: bv16, w: bv16)
    ensures Shift(Xor(c, w)) == Xor(Feed(c, Low(w)), Half(w))
  {
    hide Xor, Half, Low, Shift;
    var l := BitValue(Low(w));
    BitParts(w);
    XorSwaps(c, l, w, l);
    XorZero(l);
    XorZero(Xor(c, w));
    ShiftXor(Xor(c, l), Xor(w, l));
    ShiftIs(Xor(w, l));
  }

  lemma BitParts(w: bv16)
    ensures var l := BitValue(Low(w)); Half(Xor(w, l)) == Half(w) && !Low(Xor(w, l))
  {
  }

  function ShiftMany(c: bv16, n: nat): bv16
    decreases n
  {
    if n == 0 then c else ShiftMany(Shift(c), n - 1)
  }

  function HalfMany(w: bv16, n: nat): bv16
    decreases n
  {
    if n == 0 then w else HalfMany(Half(w), n - 1)
  }

  lemma {:induction false} FeedWord(c: bv16, w: bv16, n: nat)
    ensures ShiftMany(Xor(c, w), n) == Xor(Serial(c, WordBits(w, n)), HalfMany(w, n))
    decreases n
  {
    hide Xor, Half, Low, Shift, Feed;
    if n == 0 {
    } else {
      var bits := WordBits(w, n);
      assert bits[0] == Low(w) && bits[1..] == WordBits(Half(w), n - 1);
      FeedLow(c, w);
      FeedWord(Feed(c, Low(w)), Half(w), n - 1);
    }
  }

  lemma EightClocks(c: bv16)
    ensures ShiftMany(c, 8) == Shift8(c)
  {
    hide Shift;
    var c4 := Shift(Shift(Shift(Shift(c))));
    assert ShiftMany(c, 8) == ShiftMany(Shift(Shift(c)), 6) == ShiftMany(c4, 4);
    assert ShiftMany(c4, 4) == ShiftMany(Shift(Shift(c4)), 2);
  }

  lemma OctetUsedUp(b: Octet)
    ensures HalfMany(b as bv16, 8) == 0
  {
    var w := b as bv16;
    assert HalfMany(w, 8) == HalfMany(Half(Half(w)), 6) == HalfMany(Half(Half(Half(Half(w)))), 4);
    assert HalfMany(w >> 4, 4) == HalfMany(w >> 6, 2) == w >> 8;
  }

  lemma OctetClocks(c: bv16, b: Octet)
    ensures Clock(c, b) == Serial(c, OctetBits(b))
  {
    hide Xor, Shift8, HalfMany, ShiftMany, Serial, WordBits;
    FeedWord(c, b as bv16, 8);
    EightClocks(Xor(c, b as bv16));
    OctetUsedUp(b);
    XorZero(Serial(c, OctetBits(b)));
  }

  lemma {:induction false} SerialConcat(c: bv16, x: seq<bool>, y: seq<bool>)
    ensures Serial(c, x + y) == Serial(Serial(c, x), y)
    decreases |x|
  {
    hide Feed;
    if x == [] {
      assert x + y == y;
    } else {
      assert (x + y)[0] == x[0] && (x + y)[1..] == x[1..] + y;
      SerialConcat(Feed(c, x[0]), x[1..], y);
    }
  }

  /** The table-driven register and the bit-serial one agree on every message. */
  lemma {:induction false} RegisterIsSerial(c: bv16, s: seq<Octet>)
    ensures Register(c, s) == Serial(c, BitsOf(s))
    decreases |s|
  {
    hide Clock, OctetBits, Serial;
    if s == [] {
      SerialEmpty(c);
    } else {
      OctetClocks(c, s[0]);
      SerialConcat(c, OctetBits(s[0]), BitsOf(s[1..]));
      RegisterIsSerial(Clock(c, s[0]), s[1..]);
    }
  }

  lemma SerialEmpty(c: bv16)
    ensures Serial(c, []) == c
  {
  }

  // ---------------------------------------------------------------- what the code detects

  function Difference(x: seq<bool>, y: seq<bool>): (d: seq<bool>)
    requires |x| == |y|
    ensures |d| == |x|
  {
    seq(|x|, i requires 0 <= i < |x| => x[i] != y[i])
  }

  lemma FeedXor(c: bv16, d: bv16, a: bool, b: bool)
    ensures Xor(Feed(c, a), Feed(d, b)) == Feed(Xor(c, d), a != b)
  {
    hide Xor, Shift;
    ShiftXor(Xor(c, BitValue(a)), Xor(d, BitValue(b)));
    XorSwaps(c, BitValue(a), d, BitValue(b));
    XorZero(0);
    XorZero(1);
  }

  /** The register is linear: what two messages differ by decides what their registers differ by. */
  lemma {:induction false} SerialXor(c: bv16, d: bv16, x: seq<bool>, y: seq<bool>)
    requires |x| == |y|
    ensures Xor(Serial(c, x), Serial(d, y)) == Serial(Xor(c, d), Difference(x, y))
    decreases |x|
  {
    hide Xor, Feed;
    if x == [] {
    } else {
      FeedXor(c, d, x[0], y[0]);
      SerialXor(Feed(c, x[0]), Feed(d, y[0]), x[1..], y[1..]);
      assert Difference(x, y)[1..] == Difference(x[1..], y[1..]);
    }
  }

  lemma FeedZero(c: bv16)
    ensures Feed(c, false) == 0 <==> c == 0
  {
  }

  lemma {:induction false} SerialZeros(c: bv16, e: seq<bool>)
    requires forall i | 0 <= i < |e| :: !e[i]
    ensures Serial(c, e) == 0 <==> c == 0
    decreases |e|
  {
    hide Feed;
    if e != [] {
      FeedZero(c);
      SerialZeros(Feed(c, false), e[1..]);
    }
  }

  /** The word has a bit set at position n or above. */
  predicate Reaches(c: bv16, n: nat)
    decreases n
  {
    if n == 0 then c != 0 else Reaches(Half(c), n - 1)
  }

  lemma {:induction false} ReachesMonotone(c: bv16, d: bv16, n: nat)
    requires Reaches(c, n) && c <= d
    ensures Reaches(d, n)
    decreases n
  {
    if n != 0 {
      ReachesMonotone(Half(c), Half(d), n - 1);
    }
  }

  lemma FeedFloor(c: bv16, b: bool)
    ensures Half(c) <= Feed(c, b)
  {
  }

  lemma TopBitReaches(c: bv16)
    requires c >= 0x8000
    ensures Reaches(c, 15)
  {
    assert Reaches(0x8, 3) by { assert Reaches(0x2, 1); }
    assert Reaches(0x80, 7) by { assert Reaches(0x20, 5); }
    assert Reaches(0x800, 11) by { assert Reaches(0x200, 9); }
    assert Reaches(0x8000, 15) by { assert Reaches(0x2000, 13); }
    ReachesMonotone(0x8000, c, 15);
  }

  lemma {:induction false} ReachesLess(c: bv16, m: nat, n: nat)
    requires Reaches(c, n) && m <= n
    ensures Reaches(c, m)
    decreases n
  {
    if n != 0 {
      ReachesLess(Half(c), if m == 0 then 0 else m - 1, n - 1);
    }
  }

  lemma {:induction false} Survives(c: bv16, bits: seq<bool>)
    requires Reaches(c, |bits|)
    ensures Serial(c, bits) != 0
    decreases |bits|
  {
    hide Feed, Half;
    if bits != [] {
      FeedFloor(c, bits[0]);
      ReachesMonotone(Half(c), Feed(c, bits[0]), |bits| - 1);
      Survives(Feed(c, bits[0]), bits[1..]);
    }
  }

  /** All the set bits lie within sixteen consecutive positions, the first of them at lo. */
  ghost predicate Burst(e: seq<bool>, lo: nat) {
    lo < |e| && e[lo] && forall i | 0 <= i < |e| && e[i] :: lo <= i < lo + 16
  }

  lemma FirstError()
    ensures Feed(0, true) >= 0x8000
  {
  }

  lemma BurstSeen(e: seq<bool>, lo: nat)
    requires Burst(e, lo)
    ensures Serial(0, e) != 0
  {
    hide Serial, Feed, Reaches;
    var hi := if lo + 16 <= |e| then lo + 16 else |e|;
    var before, middle, after := e[..lo], e[lo + 1..hi], e[hi..];
    assert e == before + [true] + middle + after;
    SerialConcat(0, before + [true] + middle, after);
    SerialConcat(0, before + [true], middle);
    SerialConcat(0, before, [true]);
    SerialZeros(0, before);
    var c := Feed(0, true);
    SerialOne(0, true);
    FirstError();
    TopBitReaches(c);
    ReachesLess(c, |middle|, 15);
    Survives(c, middle);
    SerialZeros(Serial(c, middle), after);
  }

  lemma SerialOne(c: bv16, b: bool)
    ensures Serial(c, [b]) == Feed(c, b)
  {
    assert Serial(Feed(c, b), []) == Feed(c, b);
  }

  predicate OddBits(e: seq<bool>) { e != [] && (e[0] != OddBits(e[1..])) }

  predicate Odd(c: bv16)
    decreases c
  {
    c != 0 && (Low(c) != Odd(Half(c)))
  }

  lemma OddStep(c: bv16)
    ensures Odd(c) == (Low(c) != Odd(Half(c)))
    ensures c != 0 ==> Half(c) < c
    ensures !Odd(0)
  {
  }

  lemma {:induction false} OddXor(x: bv16, y: bv16)
    ensures Odd(Xor(x, y)) == (Odd(x) != Odd(y))
    decreases x
  {
    hide *;
    OddStep(x);
    if x == 0 {
      XorZero(y);
    } else {
      XorParts(x, y);
      OddXor(Half(x), Half(y));
      OddStep(Xor(x, y));
      OddStep(y);
    }
  }

  lemma OddConstants()
    ensures Odd(POLY) && Odd(1)
  {
    assert Odd(1) && Odd(2) == Odd(1) && Odd(5) == !Odd(2);
    assert Odd(0xA) == Odd(5) && Odd(0x14) == Odd(0xA) && Odd(0x29) == !Odd(0x14);
    assert Odd(0x53) == !Odd(0x29) && Odd(0xA6) == Odd(0x53) && Odd(0x14D) == !Odd(0xA6);
    assert Odd(0x29A) == Odd(0x14D) && Odd(0x535) == !Odd(0x29A) && Odd(0xA6B) == !Odd(0x535);
    assert Odd(0x14D7) == !Odd(0xA6B) && Odd(0x29AF) == !Odd(0x14D7) && Odd(0x535E) == Odd(0x29AF);
  }

  lemma OddFeed(c: bv16, b: bool)
    ensures Odd(Feed(c, b)) == (Odd(c) != b)
  {
    hide Xor, Half, Low, POLY, Shift, Odd;
    var w := Xor(c, BitValue(b));
    OddConstants();
    OddXor(c, BitValue(b));
    OddStep(0);
    ShiftIs(w);
    OddStep(w);
    OddXor(Half(w), POLY);
  }

  lemma {:induction false} OddSerial(c: bv16, e: seq<bool>)
    ensures Odd(Serial(c, e)) == (Odd(c) != OddBits(e))
    decreases |e|
  {
    hide Feed, Odd;
    if e != [] {
      OddFeed(c, e[0]);
      OddSerial(Feed(c, e[0]), e[1..]);
    }
  }

  // ---------------------------------------------------------------- two flipped bits

  lemma ShiftKeeps(x: bv16, y: bv16)
    requires Shift(x) == Shift(y)
    ensures x == y
  {
  }

  lemma {:induction false} ShiftManyKeeps(x: bv16, y: bv16, n: nat)
    requires ShiftMany(x, n) == ShiftMany(y, n)
    ensures x == y
    decreases n
  {
    hide Shift;
    if n != 0 {
      ShiftManyKeeps(Shift(x), Shift(y), n - 1);
      ShiftKeeps(x, y);
    }
  }

  lemma {:induction false} ShiftManySum(c: bv16, m: nat, n: nat)
    ensures ShiftMany(c, m + n) == ShiftMany(ShiftMany(c, m), n)
    decreases m
  {
    hide Shift;
    if m != 0 {
      ShiftManySum(Shift(c), m - 1, n);
    }
  }

  /** Where the register is 0, 8, 16 ... 136 clocks after a single bit. */
  const ORBIT: seq<bv16> := [0xA6BC, 0x1B2F, 0x55A7, 0x0CDC, 0x6174, 0x1183, 0xFC4F, 0x2FB1, 0x0B09, 0xC9DC, 0x61B1, 0x0B47, 0xD0CF, 0x8921, 0x1F78, 0x370C, 0x26C6, 0x4000]

  predicate OrbitStep(q: nat)
    requires q < 17
  {
    Shift8(ORBIT[q]) == ORBIT[q + 1]
  }

  lemma OrbitFront(q: nat) requires q < 9 ensures OrbitStep(q) {}
  lemma OrbitBack(q: nat) requires 9 <= q < 17 ensures OrbitStep(q) {}

  lemma {:induction false} OrbitIs(q: nat)
    requires q < 18
    ensures ShiftMany(POLY, 8 * q) == ORBIT[q]
  {
    hide Shift8, ShiftMany, Shift;
    if q == 0 {
      ShiftNone(POLY);
    } else {
      OrbitIs(q - 1);
      ShiftManySum(POLY, 8 * (q - 1), 8);
      EightClocks(ORBIT[q - 1]);
      if q - 1 < 9 {
        OrbitFront(q - 1);
      } else {
        OrbitBack(q - 1);
      }
    }
  }

  lemma ShiftNone(c: bv16)
    ensures ShiftMany(c, 0) == c
  {
  }

  const POWERS: seq<bv16> := [1, 2, 4, 8, 16, 32, 64, 128]

  lemma PowersFall(r: nat)
    requires 1 <= r < 8
    ensures Shift(POWERS[r]) == POWERS[r - 1]
  {
  }

  lemma {:induction false} PowerReachesOne(r: nat)
    requires r < 8
    ensures ShiftMany(POWERS[r], r) == 1
  {
    hide Shift;
    if r != 0 {
      PowersFall(r);
      PowerReachesOne(r - 1);
    }
  }

  lemma OrbitAvoidsPowers(q: nat, r: nat)
    requires q < 18 && r < 8
    ensures ORBIT[q] != POWERS[r]
  {
  }

  /** Within a block of eighteen octets the register never comes back to a single low bit. */
  lemma OrbitAvoidsOne(n: nat)
    requires n < 144
    ensures ShiftMany(POLY, n) != 1
  {
    hide ShiftMany, Shift, ORBIT, POWERS;
    var q, r := n / 8, n % 8;
    OrbitShape();
    ShiftManySum(POLY, 8 * q, r);
    OrbitIs(q);
    PowerReachesOne(r);
    OrbitAvoidsPowers(q, r);
    if ShiftMany(ORBIT[q], r) == 1 {
      ShiftManyKeeps(ORBIT[q], POWERS[r], r);
    }
  }

  lemma OrbitShape()
    ensures |ORBIT| == 18 && |POWERS| == 8
  {
  }

  lemma {:induction false} SerialOfZeros(c: bv16, e: seq<bool>)
    requires forall i | 0 <= i < |e| :: !e[i]
    ensures Serial(c, e) == ShiftMany(c, |e|)
    decreases |e|
  {
    hide Shift;
    if e != [] {
      FeedNothing(c);
      SerialOfZeros(Shift(c), e[1..]);
    }
  }

  lemma FeedNothing(c: bv16)
    ensures Feed(c, false) == Shift(c)
  {
    hide Shift, Xor;
    XorZero(c);
  }

  lemma FeedsTrue(c: bv16)
    ensures Feed(0, true) == POLY && (Feed(c, true) == 0 <==> c == 1)
  {
  }

  /** Exactly two bits are set. */
  ghost predicate TwoBits(e: seq<bool>, i: nat, j: nat) {
    i < j < |e| && e[i] && e[j] && forall k | 0 <= k < |e| && e[k] :: k == i || k == j
  }

  lemma TwoSeen(e: seq<bool>, i: nat, j: nat)
    requires TwoBits(e, i, j) && |e| <= 144
    ensures Serial(0, e) != 0
  {
    hide Serial, Feed, ShiftMany, Shift;
    var before, middle, after := e[..i], e[i + 1..j], e[j + 1..];
    assert e == before + [true] + middle + [true] + after;
    SerialConcat(0, before + [true] + middle + [true], after);
    SerialConcat(0, before + [true] + middle, [true]);
    SerialConcat(0, before + [true], middle);
    SerialConcat(0, before, [true]);
    SerialZeros(0, before);
    SerialOne(0, true);
    FeedsTrue(0);
    SerialOfZeros(POLY, middle);
    OrbitAvoidsOne(|middle|);
    var c := ShiftMany(POLY, |middle|);
    SerialOne(c, true);
    FeedsTrue(c);
    SerialZeros(Feed(c, true), after);
  }

  function Ones(e: seq<bool>): nat { if e == [] then 0 else (if e[0] then 1 else 0) + Ones(e[1..]) }

  lemma {:induction false} OddIsOdd(e: seq<bool>)
    ensures OddBits(e) <==> Ones(e) % 2 == 1
  {
    if e != [] {
      OddIsOdd(e[1..]);
    }
  }

  lemma {:induction false} NoOnes(e: seq<bool>)
    requires Ones(e) == 0
    ensures forall i | 0 <= i < |e| :: !e[i]
  {
    if e != [] {
      NoOnes(e[1..]);
      assert forall i | 1 <= i < |e| :: e[i] == e[1..][i - 1];
    }
  }

  lemma {:induction false} OneOne(e: seq<bool>) returns (i: nat)
    requires Ones(e) == 1
    ensures i < |e| && e[i] && forall k | 0 <= k < |e| && e[k] :: k == i
  {
    if e[0] {
      NoOnes(e[1..]);
      i := 0;
      assert forall k | 1 <= k < |e| :: e[k] == e[1..][k - 1];
    } else {
      var j := OneOne(e[1..]);
      i := j + 1;
      assert forall k | 1 <= k < |e| :: e[k] == e[1..][k - 1];
    }
  }

  lemma {:induction false} TwoOnes(e: seq<bool>) returns (i: nat, j: nat)
    requires Ones(e) == 2
    ensures TwoBits(e, i, j)
  {
    var x, y;
    if e[0] {
      y := OneOne(e[1..]);
      i, j := 0, y + 1;
    } else {
      x, y := TwoOnes(e[1..]);
      i, j := x + 1, y + 1;
    }
    assert forall k | 1 <= k < |e| :: e[k] == e[1..][k - 1];
  }

  // ---------------------------------------------------------------- blocks

  function HighOctet(x: bv16): Octet { (x >> 8) as Octet }

  /** AddCrc: the data and the check, low octet first. */
  function WithCrc(s: seq<Octet>): seq<Octet> { s + [LowOctet(Check(s)), HighOctet(Check(s))] }

  /** IsCorrectCRC. */
  predicate IsCorrectCrc(block: seq<Octet>) {
    |block| >= 2 && block == WithCrc(block[..|block| - 2])
  }

  const RESIDUE: bv16 := Clock(Shift8(0xFF), 0xFF)

  lemma FieldSplits(r: bv16)
    ensures Xor(r, LowOctet(!r) as bv16) == Xor(0xFF, HighHalf(r))
    ensures Xor(Xor(Shift8(0xFF), Down8(r)), HighOctet(!r) as bv16) == Xor(Shift8(0xFF), 0xFF)
  {
    hide Shift8;
  }

  /** A correct block always leaves the register at the same value. */
  lemma CorrectLeavesResidue(block: seq<Octet>)
    requires IsCorrectCrc(block)
    ensures Register(0, block) == RESIDUE
  {
    hide Xor, Shift8, LowOctet, HighOctet, HighHalf, Down8;
    var s := block[..|block| - 2];
    var r := Register(0, s);
    var lo, hi := LowOctet(!r), HighOctet(!r);
    RegisterConcat(0, s, [lo, hi]);
    assert Register(r, [lo, hi]) == Register(Clock(r, lo), [hi]) == Clock(Clock(r, lo), hi);
    FieldSplits(r);
    Shift8Xor(0xFF, HighHalf(r));
    ShiftHigh(r);
  }

  /** Any burst of at most sixteen bits anywhere in a block, data or check, is rejected. */
  lemma BurstIsRejected(sent: seq<Octet>, got: seq<Octet>, lo: nat)
    requires IsCorrectCrc(sent) && |got| == |sent|
    requires Burst(Difference(BitsOf(sent), BitsOf(got)), lo)
    ensures !IsCorrectCrc(got)
  {
    hide IsCorrectCrc, Burst, Serial, Register, Xor, RESIDUE;
    Corrupted(sent, got);
    BurstSeen(Difference(BitsOf(sent), BitsOf(got)), lo);
  }

  /** So is any odd number of flipped bits. */
  lemma OddErrorIsRejected(sent: seq<Octet>, got: seq<Octet>)
    requires IsCorrectCrc(sent) && |got| == |sent|
    requires OddBits(Difference(BitsOf(sent), BitsOf(got)))
    ensures !IsCorrectCrc(got)
  {
    hide IsCorrectCrc, OddBits, Serial, Register, Xor, RESIDUE, Odd;
    Corrupted(sent, got);
    OddSerial(0, Difference(BitsOf(sent), BitsOf(got)));
    OddStep(0);
  }

  /** In a block of at most eighteen octets any one, two or three flipped bits are rejected, and any odd number. */
  lemma FewErrorsAreRejected(sent: seq<Octet>, got: seq<Octet>)
    requires IsCorrectCrc(sent) && |got| == |sent| <= 18
    requires var n := Ones(Difference(BitsOf(sent), BitsOf(got))); 1 <= n <= 3 || n % 2 == 1
    ensures !IsCorrectCrc(got)
  {
    hide IsCorrectCrc, OddBits, Serial, Register, Xor, RESIDUE, Ones, BitsOf, Difference, TwoBits;
    var e := Difference(BitsOf(sent), BitsOf(got));
    OddIsOdd(e);
    if Ones(e) == 2 {
      Corrupted(sent, got);
      var i, j := TwoOnes(e);
      TwoSeen(e, i, j);
    } else {
      OddErrorIsRejected(sent, got);
    }
  }

  lemma Corrupted(sent: seq<Octet>, got: seq<Octet>)
    requires IsCorrectCrc(sent) && |got| == |sent|
    ensures IsCorrectCrc(got) ==> Serial(0, Difference(BitsOf(sent), BitsOf(got))) == 0
  {
    hide IsCorrectCrc, Serial, Register, Xor, RESIDUE;
    CorrectLeavesResidue(sent);
    RegisterIsSerial(0, sent);
    RegisterIsSerial(0, got);
    SerialXor(0, 0, BitsOf(sent), BitsOf(got));
    XorZero(0);
    XorZero(RESIDUE);
    if IsCorrectCrc(got) {
      CorrectLeavesResidue(got);
    }
  }
}
