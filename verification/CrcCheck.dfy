/** The check value of the CRC, computed on numbers.

    `FastFeed` is one turn of the outer loop of `crc16Ccitt` (packages/shared/src/promptpay.ts) in plain
    arithmetic; its value can be worked out for given numbers.
  */
module CrcCheck {
  import opened Bits
  import opened Crc16
  import opened Numerals

  /** The change that flipping the last bit makes. */
  function Flip(x: nat): int {
    if x % 2 == 1 then -1 else 1
  }

  function Poly(a: nat): int {
    a + Flip(a) + 0x20 * Flip(a / 0x20) + 0x1000 * Flip(a / 0x1000)
  }

  /** A turn of the inner loop without `Xor`: it flips bits 0, 5 and 12. */
  function FastShift(x: nat): (y: nat)
    requires x < 0x1_0000
    ensures y < 0x1_0000
  {
    if x < 0x8000 then x * 2 else Poly(x * 2) % 0x1_0000
  }

  lemma XorOne(a: nat)
    ensures Xor(a, 1) == a + Flip(a)
  {
    XorZero(a / 2);
  }

  lemma Half(a: nat, b: nat)
    ensures Xor(a, 2 * b) == 2 * Xor(a / 2, b) + a % 2
  {
    assert 2 * b / 2 == b;
  }

  lemma LowBitsOf(a: nat)
    ensures a / 2 / 2 == a / 4 && a / 4 / 2 == a / 8 && a / 8 / 2 == a / 16
    ensures a % 8 == a % 2 + 2 * (a / 2 % 2) + 4 * (a / 4 % 2)
    ensures a % 16 == a % 8 + 8 * (a / 8 % 2)
  {
  }

  lemma Eighth(a: nat, b: nat)
    ensures Xor(a, 8 * b) == 8 * Xor(a / 8, b) + a % 8
  {
    LowBitsOf(a);
    Half(a, 4 * b);
    Half(a / 2, 2 * b);
    Half(a / 4, b);
    assert 2 * (4 * b) == 8 * b && 2 * (2 * b) == 4 * b;
  }

  lemma XorOdd(a: nat, b: nat)
    ensures Xor(a, 2 * b + 1) == 2 * Xor(a / 2, b) + (if a % 2 == 1 then 0 else 1)
  {
    assert (2 * b + 1) / 2 == b;
  }

  lemma Sixteenth(a: nat, b: nat)
    ensures Xor(a, 16 * b) == 16 * Xor(a / 16, b) + a % 16
  {
    LowBitsOf(a);
    Eighth(a, 2 * b);
    Half(a / 8, b);
    assert 8 * (2 * b) == 16 * b;
  }

  /** 0x81 is 2^7 + 1. */
  lemma XorLow(c: nat)
    ensures Xor(c, 0x81) == c + Flip(c) + 0x80 * Flip(c / 0x80)
  {
    XorOdd(c, 0x40);
    Eighth(c / 2, 8);
    Eighth(c / 2 / 8, 1);
    XorOne(c / 2 / 8 / 8);
    assert c / 2 / 8 / 8 == c / 0x80;
  }

  /** 0x1021 is 2^5 times 0x81, plus 1. */
  lemma XorPoly(a: nat)
    ensures Xor(a, 0x1021) == Poly(a)
  {
    XorOdd(a, 0x810);
    Sixteenth(a / 2, 0x81);
    XorLow(a / 2 / 16);
    ThirtySecond(a);
  }

  lemma ThirtySecond(a: nat)
    ensures a / 2 / 16 == a / 0x20 && a / 2 / 16 / 0x80 == a / 0x1000
    ensures 0x20 * (a / 2 / 16) + 2 * (a / 2 % 16) + a % 2 == a
  {
  }

  lemma ShiftIsFast(x: nat)
    requires x < 0x1_0000
    ensures ShiftCrc(x) == FastShift(x)
  {
    TopBitSet(x);
    if x < 0x8000 {
      assert x * 2 % 0x1_0000 == x * 2;
    } else {
      XorPoly(x * 2);
    }
  }

  lemma TopBitSet(x: nat)
    requires x < 0x1_0000
    ensures x / 0x8000 % 2 == 1 <==> x >= 0x8000
  {
  }

  lemma XorByte(a: nat, b: nat)
    requires a < 0x100 && b < 0x100
    ensures Xor(a, b) == 16 * Nibble(a / 16, b / 16) + Nibble(a, b)
  {
    FourBits(a, b);
    FourBits(a / 16, b / 16);
    assert a / 16 / 16 == 0 && b / 16 / 16 == 0;
  }

  lemma XorHighByte(a: nat, b: nat)
    ensures Xor(a, b * 0x100) == 0x100 * Xor(a / 0x100, b) + a % 0x100
  {
    Sixteenth(a, 16 * b);
    Sixteenth(a / 16, b);
    Quotients(a);
    assert 16 * (16 * b) == b * 0x100;
  }

  lemma Quotients(a: nat)
    ensures a / 16 / 16 == a / 0x100 && a / 16 % 16 * 16 + a % 16 == a % 0x100
  {
  }

  function FastXor(crc: nat, code: nat): (x: nat)
    requires crc < 0x1_0000 && code < 0x100
    ensures x < 0x1_0000
  {
    0x100 * (16 * Nibble(crc / 0x1000, code / 16) + Nibble(crc / 0x100, code)) + crc % 0x100
  }

  lemma XorIsFast(crc: nat, code: nat)
    requires crc < 0x1_0000 && code < 0x100
    ensures Xor(crc, code * 0x100) == FastXor(crc, code)
  {
    XorHighByte(crc, code);
    XorByte(crc / 0x100, code);
    assert crc / 0x100 / 16 == crc / 0x1000;
  }

  /** `n` turns of the inner loop. */
  function FastShifts(n: nat, x: nat): (y: nat)
    requires x < 0x1_0000
    ensures y < 0x1_0000
  {
    if n == 0 then x else FastShifts(n - 1, FastShift(x))
  }

  lemma {:induction false} ShiftsAreFast(n: nat, x: nat)
    requires x < 0x1_0000
    ensures ShiftN(n, ToBits(x, 16)) == ToBits(FastShifts(n, x), 16)
  {
    if n > 0 {
      NextShift(n - 1, x);
      ShiftIsFast(x);
      ShiftsAreFast(n - 1, FastShift(x));
    }
  }

  /** One turn of the outer loop. */
  function FastFeed(crc: nat, code: nat): (next: nat)
    requires crc < 0x1_0000 && code < 0x100
    ensures next < 0x1_0000
  {
    FastShifts(8, FastXor(crc, code))
  }

  lemma FeedIsFast(crc: nat, c: char)
    requires crc < 0x1_0000 && c as int < 0x100
    ensures Feed(ToBits(crc, 16), c) == ToBits(FastFeed(crc, c as int), 16)
  {
    XorIsFast(crc, c as int);
    IntegerFeed(crc, c as int);
    ShiftsAreFast(8, FastXor(crc, c as int));
  }

  /** The register, from its initial value, after a text. */
  function FastRegister(crc: nat, input: string): (next: nat)
    requires crc < 0x1_0000 && Bytes(input)
    ensures next < 0x1_0000
    decreases |input|
  {
    if input == "" then crc else FastRegister(FastFeed(crc, input[0] as int), input[1..])
  }

  lemma {:induction false} RegisterIsFast(crc: nat, input: string)
    requires crc < 0x1_0000 && Bytes(input)
    ensures Register(ToBits(crc, 16), input) == ToBits(FastRegister(crc, input), 16)
    decreases |input|
  {
    if input != "" {
      FeedIsFast(crc, input[0]);
      RegisterIsFast(FastFeed(crc, input[0] as int), input[1..]);
    }
  }

  /** Turn by turn: `crc` is split into two digits and a byte, and the `x` are the values of the inner loop. */
  lemma Turn(crc: nat, code: nat, h: nat, m: nat, low: nat,
             x0: nat, x1: nat, x2: nat, x3: nat, x4: nat, x5: nat, x6: nat, x7: nat, x8: nat)
    requires h < 16 && m < 16 && low < 0x100 && crc == 0x1000 * h + 0x100 * m + low && code < 0x100
    requires x0 == 0x1000 * Nibble(h, code / 16) + 0x100 * Nibble(m, code) + low && x0 < 0x1_0000
    requires FastShift(x0) == x1
    requires FastShift(x1) == x2
    requires FastShift(x2) == x3
    requires FastShift(x3) == x4
    requires FastShift(x4) == x5
    requires FastShift(x5) == x6
    requires FastShift(x6) == x7
    requires FastShift(x7) == x8
    ensures FastFeed(crc, code) == x8
  {
    SplitCrc(crc, code, h, m, low);
    assert FastShifts(8, x0) == FastShifts(7, x1) == FastShifts(6, x2) == FastShifts(5, x3) == FastShifts(4, x4);
    assert FastShifts(4, x4) == FastShifts(3, x5) == FastShifts(2, x6) == FastShifts(1, x7) == FastShifts(0, x8);
  }

  lemma SplitCrc(crc: nat, code: nat, h: nat, m: nat, low: nat)
    requires h < 16 && m < 16 && low < 0x100 && crc == 0x1000 * h + 0x100 * m + low && code < 0x100
    ensures FastXor(crc, code) == 0x1000 * Nibble(h, code / 16) + 0x100 * Nibble(m, code) + low
  {
    assert crc / 0x1000 == h && crc % 0x100 == low && crc / 0x100 == 16 * h + m;
    LowNibble(h, m, code);
  }

  lemma LowNibble(h: nat, m: nat, code: nat)
    ensures Nibble(16 * h + m, code) == Nibble(m, code)
  {
    LowBits(h, m);
  }

  lemma LowBits(h: nat, m: nat)
    ensures (16 * h + m) % 2 == m % 2 && (16 * h + m) / 2 % 2 == m / 2 % 2
    ensures (16 * h + m) / 4 % 2 == m / 4 % 2 && (16 * h + m) / 8 % 2 == m / 8 % 2
  {
    Halves(h, m);
    SameParity(8 * h, m);
    SameParity(4 * h, m / 2);
    SameParity(2 * h, m / 4);
    SameParity(h, m / 8);
  }

  lemma Halves(h: nat, m: nat)
    ensures (16 * h + m) / 2 == 8 * h + m / 2
    ensures (16 * h + m) / 4 == 4 * h + m / 4
    ensures (16 * h + m) / 8 == 2 * h + m / 8
  {
  }

  lemma SameParity(a: nat, b: nat)
    ensures (2 * a + b) % 2 == b % 2
  {
  }

  lemma ReadOne(crc: nat, c: char, rest: string)
    requires crc < 0x1_0000 && c as int < 0x100 && Bytes(rest)
    ensures Bytes([c] + rest)
    ensures FastRegister(crc, [c] + rest) == FastRegister(FastFeed(crc, c as int), rest)
  {
    assert ([c] + rest)[1..] == rest;
  }

  lemma Rest9(crc: nat, text: string)
    requires crc == 0xA12B && text == "9"
    ensures Bytes(text) && FastRegister(crc, text) == 0x29B1
  {
    Turn(crc, 0x39, 0xA, 0x1, 0x2B,
         0x982B, 0x2077, 0x40EE, 0x81DC, 0x1399, 0x2732, 0x4E64, 0x9CC8, 0x29B1);
    var rest := text[1..];
    assert rest == "";
    ReadOne(crc, '9', rest);
    assert text == ['9'] + rest;
  }

  lemma Rest8(crc: nat, text: string)
    requires crc == 0x7718 && text == "89"
    ensures Bytes(text) && FastRegister(crc, text) == 0x29B1
  {
    Turn(crc, 0x38, 0x7, 0x7, 0x18,
         0x4F18, 0x9E30, 0x2C41, 0x5882, 0xB104, 0x7229, 0xE452, 0xD885, 0xA12B);
    var rest := text[1..];
    Rest9(0xA12B, rest);
    ReadOne(crc, '8', rest);
    assert text == ['8'] + rest;
  }

  lemma Rest7(crc: nat, text: string)
    requires crc == 0x2EF4 && text == "789"
    ensures Bytes(text) && FastRegister(crc, text) == 0x29B1
  {
    Turn(crc, 0x37, 0x2, 0xE, 0xF4,
         0x19F4, 0x33E8, 0x67D0, 0xCFA0, 0x8F61, 0x0EE3, 0x1DC6, 0x3B8C, 0x7718);
    var rest := text[1..];
    Rest8(0x7718, rest);
    ReadOne(crc, '7', rest);
    assert text == ['7'] + rest;
  }

  lemma Rest6(crc: nat, text: string)
    requires crc == 0x4560 && text == "6789"
    ensures Bytes(text) && FastRegister(crc, text) == 0x29B1
  {
    Turn(crc, 0x36, 0x4, 0x5, 0x60,
         0x7360, 0xE6C0, 0xDDA1, 0xAB63, 0x46E7, 0x8DCE, 0x0BBD, 0x177A, 0x2EF4);
    var rest := text[1..];
    Rest7(0x2EF4, rest);
    ReadOne(crc, '6', rest);
    assert text == ['6'] + rest;
  }

  lemma Rest5(crc: nat, text: string)
    requires crc == 0x5349 && text == "56789"
    ensures Bytes(text) && FastRegister(crc, text) == 0x29B1
  {
    Turn(crc, 0x35, 0x5, 0x3, 0x49,
         0x6649, 0xCC92, 0x8905, 0x022B, 0x0456, 0x08AC, 0x1158, 0x22B0, 0x4560);
    var rest := text[1..];
    Rest6(0x4560, rest);
    ReadOne(crc, '5', rest);
    assert text == ['5'] + rest;
  }

  lemma Rest4(crc: nat, text: string)
    requires crc == 0x5BCE && text == "456789"
    ensures Bytes(text) && FastRegister(crc, text) == 0x29B1
  {
    Turn(crc, 0x34, 0x5, 0xB, 0xCE,
         0x6FCE, 0xDF9C, 0xAF19, 0x4E13, 0x9C26, 0x286D, 0x50DA, 0xA1B4, 0x5349);
    var rest := text[1..];
    Rest5(0x5349, rest);
    ReadOne(crc, '4', rest);
    assert text == ['4'] + rest;
  }

  lemma Rest3(crc: nat, text: string)
    requires crc == 0x3DBA && text == "3456789"
    ensures Bytes(text) && FastRegister(crc, text) == 0x29B1
  {
    Turn(crc, 0x33, 0x3, 0xD, 0xBA,
         0x0EBA, 0x1D74, 0x3AE8, 0x75D0, 0xEBA0, 0xC761, 0x9EE3, 0x2DE7, 0x5BCE);
    var rest := text[1..];
    Rest4(0x5BCE, rest);
    ReadOne(crc, '3', rest);
    assert text == ['3'] + rest;
  }

  lemma Rest2(crc: nat, text: string)
    requires crc == 0xC782 && text == "23456789"
    ensures Bytes(text) && FastRegister(crc, text) == 0x29B1
  {
    Turn(crc, 0x32, 0xC, 0x7, 0x82,
         0xF582, 0xFB25, 0xE66B, 0xDCF7, 0xA9CF, 0x43BF, 0x877E, 0x1EDD, 0x3DBA);
    var rest := text[1..];
    Rest3(0x3DBA, rest);
    ReadOne(crc, '2', rest);
    assert text == ['2'] + rest;
  }

  lemma Rest1(crc: nat, text: string)
    requires crc == 0xFFFF && text == "123456789"
    ensures Bytes(text) && FastRegister(crc, text) == 0x29B1
  {
    Turn(crc, 0x31, 0xF, 0xF, 0xFF,
         0xCEFF, 0x8DDF, 0x0B9F, 0x173E, 0x2E7C, 0x5CF8, 0xB9F0, 0x63C1, 0xC782);
    var rest := text[1..];
    Rest2(0xC782, rest);
    ReadOne(crc, '1', rest);
    assert text == ['1'] + rest;
  }

  /** The check value that the repository documents for its CRC. */
  lemma CheckValue(text: string)
    requires text == "123456789"
    ensures Crc(text) == "29B1"
  {
    Rest1(0xFFFF, text);
    RegisterIsFast(0xFFFF, text);
    SixteenBits();
    AllOnes(16);
    RegisterIsRemainder(Ones(16), text);
    CheckRendered(0x29B1);
  }

  lemma CheckRendered(crc: nat)
    requires crc == 0x29B1
    ensures Render(FromBits(ToBits(crc, 16))) == "29B1"
  {
    SixteenBits();
    FromToBits(crc, 16);
    CheckNumeral(crc);
  }

  lemma OneDigitMore(n: nat, q: nat, r: nat)
    requires n == 16 * q + r && r < 16 && q > 0
    ensures Numeral(n, 16) == Numeral(q, 16) + [Digit(r)]
  {
    assert n / 16 == q && n % 16 == r;
  }

  lemma CheckNumeral(n: nat)
    requires n == 0x29B1
    ensures Numeral(n, 16) == "29B1"
  {
    var a, b, c := 0x2, 0x29, 0x29B;
    OneDigitMore(n, c, 0x1);
    OneDigitMore(c, b, 0xB);
    OneDigitMore(b, a, 0x9);
    assert Numeral(a, 16) == [Digit(2)];
  }
}
