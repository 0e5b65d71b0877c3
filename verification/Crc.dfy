/** The two CRC routines of the wire protocols, which are one function. */
module Crc {
  // `crc16_kermit` (v2) shifts one bit at a time. `calc_crc` (v1, and its copy in
  // the live reader) folds a whole byte with a nibble trick and never masks.
  // They turn out to be the same function, and one that separates any two
  // byte strings differing in a single burst of at most sixteen bits.

  type byte = bv8

  const CRC_INIT: bv16 := 0xFFFF

  function Xor(a: bv16, b: bv16): bv16 {
    a ^ b
  }

  /** One inner iteration of `crc16_kermit`. */
  function ShiftBit(crc: bv16): bv16 {
    if crc & 1 == 1 then (crc >> 1) ^ 0x8408 else crc >> 1
  }

  function ShiftBits(crc: bv16, n: nat): bv16
    decreases n
  {
    if n == 0 then crc else ShiftBits(ShiftBit(crc), n - 1)
  }

  function KermitStep(crc: bv16, b: byte): bv16 {
    ShiftBits(Xor(crc, b as bv16), 8)
  }

  function KermitFrom(crc: bv16, data: seq<byte>): bv16
    decreases data
  {
    if data == [] then crc else KermitFrom(KermitStep(crc, data[0]), data[1..])
  }

  function Kermit(data: seq<byte>): bv16 {
    KermitFrom(CRC_INIT, data)
  }

  /** One iteration of `calc_crc`. The source works on unbounded integers; 32 bits
      lose nothing here, because every shift is by at most eight places. */
  function NibbleStep(crc: bv32, b: byte): bv32 {
    NibbleFold((b as bv32) ^ (crc & 0xFF), crc >> 8)
  }

  function NibbleFold(data: bv32, hi: bv32): bv32 {
    var d := data ^ ((data & 0x0F) << 4);
    (((d << 8) | hi) ^ (d >> 4)) ^ (d << 3)
  }

  method Crc16Kermit(data: seq<byte>) returns (crc: bv16)
    ensures crc == Kermit(data)
  {
    crc := CRC_INIT;
    for i := 0 to |data|
      invariant KermitFrom(crc, data[i..]) == Kermit(data)
    {
      ghost var c := crc;
      crc := crc ^ (data[i] as bv16);
      for k := 0 to 8
        invariant ShiftBits(crc, 8 - k) == KermitStep(c, data[i])
      {
        crc := if crc & 1 == 1 then (crc >> 1) ^ 0x8408 else crc >> 1;
      }
      assert data[i..][1..] == data[i + 1..];
    }
  }

  /** The unmasked v1 checksum equals the bitwise v2 one on every byte string. It is
      stated in 32 bits, so it also says that the result always fits in sixteen. */
  method CalcCrc(buffer: seq<byte>) returns (crc: bv32)
    ensures crc == Kermit(buffer) as bv32
  {
    hide KermitStep, NibbleStep;
    crc := 0xFFFF;
    ghost var c := CRC_INIT;
    for i := 0 to |buffer|
      invariant crc == c as bv32
      invariant KermitFrom(c, buffer[i..]) == Kermit(buffer)
    {
      NibbleIsKermit(c, buffer[i]);
      assert buffer[i..][1..] == buffer[i + 1..];
      c := KermitStep(c, buffer[i]);
      crc := NibbleStep(crc, buffer[i]);
    }
  }

  // ---- one step -------------------------------------------------------------

  /** The value the nibble trick adds for a low byte `x`. */
  function NibbleTable(x: bv16): bv16 {
    var d := x ^ ((x & 0x0F) << 4);
    ((d << 8) ^ (d >> 4)) ^ (d << 3)
  }

  function Shift4(c: bv16): bv16 {
    ShiftBit(ShiftBit(ShiftBit(ShiftBit(c))))
  }

  lemma Unroll4(c: bv16, n: nat)
    ensures ShiftBits(c, n + 4) == ShiftBits(Shift4(c), n)
  {
    hide ShiftBit;
    var c1 := ShiftBit(c);
    var c2 := ShiftBit(c1);
    assert ShiftBits(c, n + 4) == ShiftBits(c1, n + 3) == ShiftBits(c2, n + 2);
    assert ShiftBits(c2, n + 2) == ShiftBits(ShiftBit(c2), n + 1) == ShiftBits(Shift4(c), n);
  }

  lemma ShiftBitsUnrolled(c: bv16)
    ensures ShiftBits(c, 8) == Shift4(Shift4(c))
  {
    hide Shift4, ShiftBit;
    Unroll4(c, 4);
    Unroll4(Shift4(c), 0);
  }

  lemma ShiftLowByte(x: bv16)
    requires x <= 0xFF
    ensures Shift4(Shift4(x)) == NibbleTable(x)
  {
  }

  /** `low` is `high` moved down one place, and `high` has nothing below. */
  predicate Moved1(high: bv16, low: bv16) {
    high & 1 == 0 && low == high >> 1
  }

  predicate Moved4(high: bv16, low: bv16) {
    high & 0xF == 0 && low == high >> 4
  }

  /** Shifting moves bits above the one shifted out down, and mixes nothing into them. */
  lemma ShiftBitAboveRaw(x: bv16, high: bv16)
    requires high & 1 == 0
    ensures ShiftBit(x ^ high) == ShiftBit(x) ^ (high >> 1)
  {
  }

  lemma ShiftBitAbove(x: bv16, high: bv16, low: bv16)
    requires Moved1(high, low)
    ensures ShiftBit(Xor(x, high)) == Xor(ShiftBit(x), low)
  {
    hide ShiftBit;
    ShiftBitAboveRaw(x, high);
  }

  lemma Shift4Above(x: bv16, high: bv16, low: bv16)
    requires Moved4(high, low)
    ensures Shift4(Xor(x, high)) == Xor(Shift4(x), low)
  {
    hide Shift4, ShiftBit, Xor;
    var h1, h2, h3 := high >> 1, high >> 2, high >> 3;
    assert Moved1(high, h1) && Moved1(h1, h2) && Moved1(h2, h3) && Moved1(h3, low);
    Chain4(x, high, h1, h2, h3, low);
  }

  lemma Chain4(x: bv16, h: bv16, h1: bv16, h2: bv16, h3: bv16, h4: bv16)
    requires Moved1(h, h1) && Moved1(h1, h2) && Moved1(h2, h3) && Moved1(h3, h4)
    ensures Shift4(Xor(x, h)) == Xor(Shift4(x), h4)
  {
    hide ShiftBit, Xor, Moved1;
    ShiftBitAbove(x, h, h1);
    ShiftBitAbove(ShiftBit(x), h1, h2);
    ShiftBitAbove(ShiftBit(ShiftBit(x)), h2, h3);
    ShiftBitAbove(ShiftBit(ShiftBit(ShiftBit(x))), h3, h4);
  }

  /** A high byte passes through eight shifts unchanged, landing in the low byte. */
  lemma ShiftBitsAbove(x: bv16, high: bv16, mid: bv16, low: bv16)
    requires Moved4(high, mid) && Moved4(mid, low)
    ensures ShiftBits(Xor(x, high), 8) == Xor(ShiftBits(x, 8), low)
  {
    hide *;
    ShiftBitsUnrolled(Xor(x, high));
    ShiftBitsUnrolled(x);
    Shift4Above(x, high, mid);
    Shift4Above(Shift4(x), mid, low);
  }

  /** A step on a state whose low byte is `lo` and whose high byte is `hi`. */
  lemma StepInBytes(lo: bv16, high: bv16, mid: bv16, hi: bv16)
    requires lo <= 0xFF && Moved4(high, mid) && Moved4(mid, hi)
    ensures ShiftBits(Xor(lo, high), 8) == Xor(NibbleTable(lo), hi)
  {
    hide *;
    ShiftBitsAbove(lo, high, mid, hi);
    ShiftBitsUnrolled(lo);
    ShiftLowByte(lo);
  }

  function Lo(x: bv16): bv16 { x & 0xFF }

  function Hi(x: bv16): bv16 { x >> 8 }

  lemma NibbleIsKermit(crc: bv16, b: byte)
    ensures NibbleStep(crc as bv32, b) == KermitStep(crc, b) as bv32
  {
    hide ShiftBits, ShiftBit, NibbleStep, NibbleFold, NibbleTable, Xor, Moved4, Lo, Hi;
    var x := Xor(crc, b as bv16);
    StepInTable(x);
    NibbleStepOperands(crc, b);
    NibbleFoldNarrow(x);
  }

  lemma StepInTable(x: bv16)
    ensures ShiftBits(x, 8) == Xor(NibbleTable(Lo(x)), Hi(x))
  {
    hide ShiftBits, ShiftBit, NibbleTable, Xor, Moved4;
    BytesOf(x);
    StepInBytes(Lo(x), x & 0xFF00, (x & 0xFF00) >> 4, Hi(x));
  }

  lemma BytesOf(x: bv16)
    ensures Xor(Lo(x), x & 0xFF00) == x && Lo(x) <= 0xFF && Hi(x) <= 0xFF
    ensures Moved4(x & 0xFF00, (x & 0xFF00) >> 4) && Moved4((x & 0xFF00) >> 4, Hi(x))
  {
  }

  lemma NibbleStepOperands(crc: bv16, b: byte)
    ensures var x := Xor(crc, b as bv16);
            NibbleStep(crc as bv32, b) == NibbleFold(Lo(x) as bv32, Hi(x) as bv32)
  {
    hide NibbleFold;
    assert (crc as bv32) >> 8 == ((crc ^ (b as bv16)) >> 8) as bv32;
    assert (b as bv32) ^ ((crc as bv32) & 0xFF) == ((crc ^ (b as bv16)) & 0xFF) as bv32;
  }

  lemma NibbleFoldNarrow(x: bv16)
    ensures NibbleFold(Lo(x) as bv32, Hi(x) as bv32) == Xor(NibbleTable(Lo(x)), Hi(x)) as bv32
  {
    hide Xor, NibbleFold, NibbleTable;
    XorIs(NibbleTable(Lo(x)), Hi(x));
    NibbleFoldRaw(Lo(x), Hi(x));
  }

  lemma XorIs(a: bv16, b: bv16)
    ensures Xor(a, b) == a ^ b
  {
  }

  lemma NibbleFoldRaw(x: bv16, hi: bv16)
    requires x <= 0xFF && hi <= 0xFF
    ensures NibbleFold(x as bv32, hi as bv32) == (NibbleTable(x) ^ hi) as bv32
  {
    var d := x ^ ((x & 0x0F) << 4);
    Widen(x);
    FoldNarrow(d, hi);
  }

  /** Spreading the low nibble needs no more than a byte. */
  lemma Widen(x: bv16)
    requires x <= 0xFF
    ensures (x as bv32) ^ (((x as bv32) & 0x0F) << 4) == (x ^ ((x & 0x0F) << 4)) as bv32
    ensures x ^ ((x & 0x0F) << 4) <= 0xFF
  {
  }

  /** The spread byte is folded within 16 bits, and the high byte comes in by xor. */
  lemma FoldNarrow(d: bv16, hi: bv16)
    requires d <= 0xFF && hi <= 0xFF
    ensures ((((d as bv32) << 8) | (hi as bv32)) ^ ((d as bv32) >> 4)) ^ ((d as bv32) << 3)
         == ((((d << 8) ^ (d >> 4)) ^ (d << 3)) ^ hi) as bv32
  {
  }

  // ---- separation -------------------------------------------------------------

  lemma ShiftBitInjective(u: bv16, v: bv16)
    requires ShiftBit(u) == ShiftBit(v)
    ensures u == v
  {
  }

  lemma {:induction false} ShiftBitsInjective(u: bv16, v: bv16, n: nat)
    requires ShiftBits(u, n) == ShiftBits(v, n)
    ensures u == v
    decreases n
  {
    hide ShiftBit;
    if n > 0 {
      ShiftBitsInjective(ShiftBit(u), ShiftBit(v), n - 1);
      ShiftBitInjective(u, v);
    }
  }

  /** A step loses nothing: it is injective in the state and in the byte. */
  lemma KermitStepInjective(c: bv16, d: bv16, b: byte, e: byte)
    requires KermitStep(c, b) == KermitStep(d, e)
    ensures c == d <==> b == e
  {
    hide ShiftBits, ShiftBit;
    ShiftBitsInjective(Xor(c, b as bv16), Xor(d, e as bv16), 8);
    XorCancels(c, d, b, e);
  }

  lemma XorCancels(c: bv16, d: bv16, b: byte, e: byte)
    requires c ^ (b as bv16) == d ^ (e as bv16)
    ensures c == d <==> b == e
  {
  }

  /** Two bytes as the sixteen bits the state takes in over two steps. */
  function Word(b0: byte, b1: byte): bv16 {
    (b0 as bv16) ^ ((b1 as bv16) << 8)
  }

  lemma TwoStepsAsOne(c: bv16, b0: byte, b1: byte)
    ensures KermitStep(KermitStep(c, b0), b1) == ShiftBits(ShiftBits(Xor(c, Word(b0, b1)), 8), 8)
  {
    hide ShiftBits, ShiftBit, Xor, Moved4, Word;
    var mid, high := (b1 as bv16) << 4, (b1 as bv16) << 8;
    WordParts(c, b0, b1);
    ShiftBitsAbove(Xor(c, b0 as bv16), high, mid, b1 as bv16);
  }

  lemma WordParts(c: bv16, b0: byte, b1: byte)
    ensures Moved4((b1 as bv16) << 8, (b1 as bv16) << 4) && Moved4((b1 as bv16) << 4, b1 as bv16)
    ensures Xor(Xor(c, b0 as bv16), (b1 as bv16) << 8) == Xor(c, Word(b0, b1))
  {
  }

  /** Two steps are injective in both bytes together. */
  lemma TwoStepsInjective(c: bv16, b0: byte, b1: byte, e0: byte, e1: byte)
    requires KermitStep(KermitStep(c, b0), b1) == KermitStep(KermitStep(c, e0), e1)
    ensures b0 == e0 && b1 == e1
  {
    hide *;
    var x, y := Xor(c, Word(b0, b1)), Xor(c, Word(e0, e1));
    TwoStepsAsOne(c, b0, b1);
    TwoStepsAsOne(c, e0, e1);
    ShiftBitsInjective(ShiftBits(x, 8), ShiftBits(y, 8), 8);
    ShiftBitsInjective(x, y, 8);
    WordDistinct(c, b0, b1, e0, e1);
  }

  lemma WordDistinct(c: bv16, b0: byte, b1: byte, e0: byte, e1: byte)
    requires Xor(c, Word(b0, b1)) == Xor(c, Word(e0, e1))
    ensures b0 == e0 && b1 == e1
  {
  }

  lemma {:induction false} KermitFromInjective(c: bv16, d: bv16, data: seq<byte>)
    requires KermitFrom(c, data) == KermitFrom(d, data)
    ensures c == d
    decreases data
  {
    if data != [] {
      KermitFromInjective(KermitStep(c, data[0]), KermitStep(d, data[0]), data[1..]);
      KermitStepInjective(c, d, data[0], data[0]);
    }
  }

  lemma {:induction false} KermitFromConcat(c: bv16, a: seq<byte>, b: seq<byte>)
    ensures KermitFrom(c, a + b) == KermitFrom(KermitFrom(c, a), b)
    decreases a
  {
    if a == [] {
      assert a + b == b;
    } else {
      assert (a + b)[1..] == a[1..] + b;
      KermitFromConcat(KermitStep(c, a[0]), a[1..], b);
    }
  }

  lemma ShortInputInjective(c: bv16, x: seq<byte>, y: seq<byte>)
    requires |x| == |y| <= 2
    requires KermitFrom(c, x) == KermitFrom(c, y)
    ensures x == y
  {
    hide KermitStep;
    if |x| == 1 {
      assert KermitFrom(c, x) == KermitStep(c, x[0]) && KermitFrom(c, y) == KermitStep(c, y[0]);
      KermitStepInjective(c, c, x[0], y[0]);
    } else if |x| == 2 {
      assert KermitFrom(c, x) == KermitFrom(KermitStep(c, x[0]), x[1..]) == KermitStep(KermitStep(c, x[0]), x[1]);
      assert KermitFrom(c, y) == KermitFrom(KermitStep(c, y[0]), y[1..]) == KermitStep(KermitStep(c, y[0]), y[1]);
      TwoStepsInjective(c, x[0], x[1], y[0], y[1]);
    }
  }

  /** Any change confined to at most two adjacent bytes changes the checksum. */
  lemma BurstDetected(pre: seq<byte>, x: seq<byte>, y: seq<byte>, post: seq<byte>)
    requires |x| == |y| <= 2 && x != y
    ensures Kermit(pre + x + post) != Kermit(pre + y + post)
  {
    var c := Kermit(pre);
    KermitFromConcat(CRC_INIT, pre + x, post);
    KermitFromConcat(CRC_INIT, pre, x);
    KermitFromConcat(CRC_INIT, pre + y, post);
    KermitFromConcat(CRC_INIT, pre, y);
    if Kermit(pre + x + post) == Kermit(pre + y + post) {
      KermitFromInjective(KermitFrom(c, x), KermitFrom(c, y), post);
      ShortInputInjective(c, x, y);
    }
  }

  // ---- a known value ------------------------------------------------------------

  lemma StepValue(c: bv16, b: byte, d: bv16)
    requires NibbleStep(c as bv32, b) == d as bv32
    ensures KermitStep(c, b) == d
  {
    hide KermitStep, NibbleStep;
    NibbleIsKermit(c, b);
  }

  lemma OneMore(data: seq<byte>, c: bv16, b: byte, d: bv16)
    requires Kermit(data) == c && NibbleStep(c as bv32, b) == d as bv32
    ensures Kermit(data + [b]) == d
  {
    hide KermitStep, NibbleStep;
    KermitFromConcat(CRC_INIT, data, [b]);
    StepValue(c, b, d);
    assert [b][1..] == [];
    assert KermitFrom(c, [b]) == KermitFrom(KermitStep(c, b), []);
  }

  const DIGITS: seq<byte> := [0x31, 0x32, 0x33, 0x34, 0x35, 0x36, 0x37, 0x38, 0x39]

  /** The check value in catalogues of CRCs, for the digits from 1 to 9. */
  lemma CheckValue()
    ensures Kermit(DIGITS) == 0x6F91
  {
    hide KermitFrom;
    Start(DIGITS);
    OneMore(DIGITS[..0], 0xFFFF, 0x31, 0x2F8D);
    assert DIGITS[..1] == DIGITS[..0] + [0x31];
    OneMore(DIGITS[..1], 0x2F8D, 0x32, 0x4D53);
    assert DIGITS[..2] == DIGITS[..1] + [0x32];
    OneMore(DIGITS[..2], 0x4D53, 0x33, 0x634B);
    assert DIGITS[..3] == DIGITS[..2] + [0x33];
    OneMore(DIGITS[..3], 0x634B, 0x34, 0x8B13);
    assert DIGITS[..4] == DIGITS[..3] + [0x34];
    OneMore(DIGITS[..4], 0x8B13, 0x35, 0x44BF);
    assert DIGITS[..5] == DIGITS[..4] + [0x35];
    OneMore(DIGITS[..5], 0x44BF, 0x36, 0x198D);
    assert DIGITS[..6] == DIGITS[..5] + [0x36];
    OneMore(DIGITS[..6], 0x198D, 0x37, 0x1AC8);
    assert DIGITS[..7] == DIGITS[..6] + [0x37];
    OneMore(DIGITS[..7], 0x1AC8, 0x38, 0xF795);
    assert DIGITS[..8] == DIGITS[..7] + [0x38];
    OneMore(DIGITS[..8], 0xF795, 0x39, 0x6F91);
    assert DIGITS[..9] == DIGITS[..8] + [0x39];
    assert DIGITS[..9] == DIGITS;
  }

  lemma Start(data: seq<byte>)
    ensures Kermit(data[..0]) == 0xFFFF
  {
  }
}
