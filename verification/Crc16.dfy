/** CRC-16/CCITT-FALSE as packages/shared/src/promptpay.ts computes it, and the GF(2) polynomial
    arithmetic it stands for (EMV QRCPS Merchant-Presented Mode, section 4.7.3).

    A bit string is a polynomial with coefficients in GF(2), highest power first.
  */
module Crc16 {
  import opened Bits
  import opened Numerals

  // ----- polynomial division --------------------------------------------------------

  /** x^16 + x^12 + x^5 + 1 without its leading term. */
  const POLY: Bits := ToBits(0x1021, 16)

  /** x^16 + x^12 + x^5 + 1. */
  const GENERATOR: Bits := [true] + POLY

  /** The remainder of long division by the generator. */
  function Divide(p: Bits): (r: Bits)
    ensures |p| >= 16 ==> |r| == 16
    decreases |p|
  {
    if |p| <= 16 then p
    else if p[0] then Divide(AddFront(p, GENERATOR)[1..])
    else Divide(p[1..])
  }

  /** The product of `q` and the generator. */
  function Times(q: Bits): (product: Bits)
    ensures |product| == |q| + 16
    ensures q != [] ==> product[0] == q[0]
  {
    if q == [] then Zeros(16)
    else
      var rest := [false] + Times(q[1..]);
      if q[0] then AddFront(rest, GENERATOR) else rest
  }

  /** `p == q * generator + r` with `r` of degree below 16. */
  ghost predicate IsRemainder(p: Bits, q: Bits, r: Bits)
    requires |p| >= 16
  {
    && |q| == |p| - 16 && |r| == 16
    && p == AddFront(Zeros(|q|) + r, Times(q))
  }

  ghost function Quotient(p: Bits): (q: Bits)
    requires |p| >= 16
    ensures |q| == |p| - 16
    decreases |p|
  {
    if |p| == 16 then []
    else if p[0] then [true] + Quotient(AddFront(p, GENERATOR)[1..])
    else [false] + Quotient(p[1..])
  }

  /** Putting back the leading term that one step of the division removed. */
  lemma Undivide(p: Bits, next: Bits, q: Bits, r: Bits)
    requires |p| >= 17
    requires next == if p[0] then AddFront(p, GENERATOR)[1..] else p[1..]
    requires IsRemainder(next, q, r)
    ensures IsRemainder(p, [p[0]] + q, r)
  {
    var shifted, padded := [false] + Times(q), Zeros(|q| + 1) + r;
    assert ([p[0]] + q)[1..] == q;
    UndivideTail(next, q, r);
    if p[0] {
      LeadingTermCancels(p);
      AddTwice(p, GENERATOR);
      AddAdd(padded, shifted, GENERATOR);
    } else {
      assert p == [false] + next;
    }
  }

  lemma UndivideTail(next: Bits, q: Bits, r: Bits)
    requires |next| >= 16 && IsRemainder(next, q, r)
    ensures [false] + next == AddFront(Zeros(|q| + 1) + r, [false] + Times(q))
  {
    OneZeroMore(|q|, r);
    AddShifted(Zeros(|q|) + r, Times(q));
  }

  lemma OneZeroMore(n: nat, r: Bits)
    ensures Zeros(n + 1) + r == [false] + (Zeros(n) + r)
  {
    assert Zeros(n + 1) == [false] + Zeros(n);
  }

  lemma AddShifted(p: Bits, q: Bits)
    requires |q| <= |p|
    ensures AddFront([false] + p, [false] + q) == [false] + AddFront(p, q)
  {
  }

  lemma LeadingTermCancels(p: Bits)
    requires |p| >= 17 && p[0]
    ensures AddFront(p, GENERATOR) == [false] + AddFront(p, GENERATOR)[1..]
  {
  }

  lemma AddTwice(p: Bits, q: Bits)
    requires |q| <= |p|
    ensures AddFront(AddFront(p, q), q) == p
  {
  }

  lemma AddAdd(p: Bits, q: Bits, r: Bits)
    requires |r| <= |q| <= |p|
    ensures AddFront(AddFront(p, q), r) == AddFront(p, AddFront(q, r))
  {
  }

  lemma {:induction false} DivisionExists(p: Bits)
    requires |p| >= 16
    ensures IsRemainder(p, Quotient(p), Divide(p))
    decreases |p|
  {
    if |p| == 16 {
      assert Zeros(0) + p == p;
    } else {
      var next := if p[0] then AddFront(p, GENERATOR)[1..] else p[1..];
      DivisionExists(next);
      Undivide(p, next, Quotient(next), Divide(next));
    }
  }

  lemma {:induction false} DivisionUnique(p: Bits, q: Bits, r: Bits)
    requires |p| >= 16 && IsRemainder(p, q, r)
    ensures r == Divide(p)
    decreases |p|
  {
    if q == [] {
      assert Zeros(0) + r == r;
      assert p == r;
    } else {
      var shifted := [false] + Times(q[1..]);
      var padded := Zeros(|q|) + r;
      var next := AddFront(Zeros(|q| - 1) + r, Times(q[1..]));
      OneZeroMore(|q| - 1, r);
      AddShifted(Zeros(|q| - 1) + r, Times(q[1..]));
      if q[0] {
        AddAdd(padded, shifted, GENERATOR);
        AddTwice([false] + next, GENERATOR);
        assert p[0];
      }
      assert next == if p[0] then AddFront(p, GENERATOR)[1..] else p[1..];
      DivisionUnique(next, q[1..], r);
    }
  }

  /** Long division computes the remainder: the one polynomial of degree below 16 that differs from `p`
      by a multiple of the generator. */
  lemma DivideIsTheRemainder(p: Bits, r: Bits)
    requires |p| >= 16
    ensures Divide(p) == r <==> exists q :: IsRemainder(p, q, r)
  {
    DivisionExists(p);
    forall q | IsRemainder(p, q, r)
      ensures r == Divide(p)
    {
      DivisionUnique(p, q, r);
    }
  }

  // ----- the message as a polynomial --------------------------------------------------

  /** The low eight bits of a code unit; the loop shifts the others out of the register. */
  function CharBits(c: char): Bits {
    ToBits(c as int, 8)
  }

  function MessageBits(input: string): Bits {
    if input == "" then [] else CharBits(input[0]) + MessageBits(input[1..])
  }

  /** The message times x^16, with the initial register 0xFFFF added to its leading bits. */
  function Dividend(input: string): Bits {
    AddFront(MessageBits(input) + Zeros(16), Ones(16))
  }

  // ----- the shift register ----------------------------------------------------------

  /** One turn of the inner loop. */
  function Shift(r: Bits): (r': Bits)
    requires |r| == 16
    ensures |r'| == 16
  {
    var shifted := r[1..] + [false];
    if r[0] then AddFront(shifted, POLY) else shifted
  }

  function ShiftN(n: nat, r: Bits): (r': Bits)
    requires |r| == 16
    ensures |r'| == 16
  {
    if n == 0 then r else ShiftN(n - 1, Shift(r))
  }

  /** Bits that have not reached the top of the register can be added before or after a shift. */
  lemma ShiftAdd(r: Bits, b: Bits)
    requires |r| == 16 && 1 <= |b| <= 16
    ensures Shift(AddFront(r, b)) == AddFront(Shift(AddFront(r, b[..1])), b[1..])
  {
    var x, y := AddFront(r, b), AddFront(r, b[..1]);
    assert x[0] == y[0];
    assert x[1..] + [false] == AddFront(y[1..] + [false], b[1..]);
  }

  lemma AddFrontTail(p: Bits, q: Bits)
    requires |q| < |p|
    ensures AddFront(p, [true] + q)[1..] == AddFront(p[1..], q)
  {
    var sum := AddFront(p, [true] + q);
    forall i | 0 <= i < |p| - 1
      ensures sum[1..][i] == AddFront(p[1..], q)[i]
    {
      assert sum[1..][i] == sum[i + 1] && p[1..][i] == p[i + 1];
    }
  }

  lemma AddFrontTwice(p: Bits, q: Bits, r: Bits)
    requires |r| <= |q| <= |p|
    ensures AddFront(AddFront(p, q), r) == AddFront(p, AddFront(q, r))
  {
    assert |AddFront(p, q)| == |p| && |AddFront(q, r)| == |q|;
  }

  lemma DropFront(q: Bits, r: Bits)
    requires |q| > |r| > 0
    ensures AddFront(q, r)[0] == AddFront(r, q[..1])[0]
    ensures AddFront(q, r)[1..] == AddFront(q[1..], AddFront(r, q[..1])[1..] + [false])
  {
    var s := AddFront(r, q[..1])[1..] + [false];
    forall i | 0 <= i < |q| - 1
      ensures AddFront(q, r)[1..][i] == AddFront(q[1..], s)[i]
    {
      assert i + 1 < |r| ==> s[i] == r[i + 1];
      assert AddFront(q, r)[1..][i] == AddFront(q, r)[i + 1];
    }
  }

  /** Dividing off one bit of the dividend is one shift of the register. */
  lemma DivideShift(q: Bits, r: Bits)
    requires |q| >= 17 && |r| == 16
    ensures Divide(AddFront(q, r)) == Divide(AddFront(q[1..], Shift(AddFront(r, q[..1]))))
  {
    var p := AddFront(q, r);
    DropFront(q, r);
    if p[0] {
      AddFrontTail(p, POLY);
      AddFrontTwice(q[1..], AddFront(r, q[..1])[1..] + [false], POLY);
    }
  }

  /** Adding up to 16 bits on top of the register and shifting as often divides them off. */
  lemma {:induction false} DivideShiftN(b: Bits, q: Bits, r: Bits)
    requires |b| <= 16 <= |q| && |r| == 16
    ensures Divide(AddFront(b + q, r)) == Divide(AddFront(q, ShiftN(|b|, AddFront(r, b))))
    decreases |b|
  {
    if b == [] {
      assert b + q == q && AddFront(r, b) == r;
    } else {
      DivideShift(b + q, r);
      assert (b + q)[..1] == b[..1] && (b + q)[1..] == b[1..] + q;
      ShiftAdd(r, b);
      DivideShiftN(b[1..], q, Shift(AddFront(r, b[..1])));
    }
  }

  /** One turn of the outer loop. */
  function Feed(r: Bits, c: char): (r': Bits)
    requires |r| == 16
    ensures |r'| == 16
  {
    ShiftN(8, AddFront(r, CharBits(c)))
  }

  function Register(r: Bits, input: string): (r': Bits)
    requires |r| == 16
    ensures |r'| == 16
    decreases |input|
  {
    if input == "" then r else Register(Feed(r, input[0]), input[1..])
  }

  lemma {:induction false} RegisterIsRemainder(r: Bits, input: string)
    requires |r| == 16
    ensures Register(r, input) == Divide(AddFront(MessageBits(input) + Zeros(16), r))
    decreases |input|
  {
    if input == "" {
      assert [] + Zeros(16) == Zeros(16);
      assert AddFront(Zeros(16), r) == r;
    } else {
      var rest := MessageBits(input[1..]) + Zeros(16);
      assert MessageBits(input) + Zeros(16) == CharBits(input[0]) + rest;
      DivideShiftN(CharBits(input[0]), rest, r);
      RegisterIsRemainder(Feed(r, input[0]), input[1..]);
    }
  }

  // ----- the loop on integers -----------------------------------------------------------

  /** One shift of the 16-bit register, on integers. */
  function ShiftCrc(crc: nat): (crc': nat)
    ensures crc' < 0x1_0000
  {
    if crc / 0x8000 % 2 == 1 then Xor(crc * 2, 0x1021) % 0x1_0000 else crc * 2 % 0x1_0000
  }

  lemma IntegerShift(crc: nat)
    ensures ToBits(ShiftCrc(crc), 16) == Shift(ToBits(crc, 16))
  {
    TopBit(crc);
    ToBitsHead(crc, 15);
    Doubled(crc);
    XorBits(crc * 2, 0x1021, 16);
    Mask(Xor(crc * 2, 0x1021));
    Mask(crc * 2);
  }

  lemma TopBit(n: nat)
    ensures Bit(n, 15) == (n / 0x8000 % 2 == 1)
  {
    FiveBitsDown(n, 10);
    FiveBitsDown(n / 0x20, 5);
    FiveBitsDown(n / 0x400, 0);
    assert n / 0x20 / 0x20 == n / 0x400 && n / 0x400 / 0x20 == n / 0x8000;
  }

  lemma Doubled(n: nat)
    ensures ToBits(n * 2, 16) == ToBits(n, 15) + [false]
  {
    assert n * 2 / 2 == n;
  }

  lemma FiveBitsDown(n: nat, k: nat)
    ensures Bit(n, k + 5) == Bit(n / 0x20, k)
  {
    assert Bit(n, k + 5) == Bit(n / 2, k + 4);
    assert Bit(n / 2, k + 4) == Bit(n / 2 / 2, k + 3);
    assert Bit(n / 4, k + 3) == Bit(n / 4 / 2, k + 2);
    assert Bit(n / 8, k + 2) == Bit(n / 8 / 2, k + 1);
    assert Bit(n / 16, k + 1) == Bit(n / 16 / 2, k);
  }

  lemma Mask(n: nat)
    ensures ToBits(n % 0x1_0000, 16) == ToBits(n, 16)
  {
    SixteenBits();
    HighBitsFallOff(n % 0x1_0000, n / 0x1_0000, 16);
  }

  lemma IntegerFeed(crc: nat, code: nat)
    ensures ToBits(Xor(crc, code * 0x100), 16) == AddFront(ToBits(crc, 16), ToBits(code, 8))
  {
    assert Pow2(8) == 0x100;
    XorBits(crc, code * 0x100, 16);
    ToBitsShifted(code, 8, 8);
    assert AddFront(ToBits(crc, 16), ToBits(code, 8) + Zeros(8)) == AddFront(ToBits(crc, 16), ToBits(code, 8));
  }

  // ----- rendering ----------------------------------------------------------------------

  /** `crc.toString(16).toUpperCase().padStart(4, '0')` */
  function Render(crc: nat): string {
    PadStart(Numeral(crc, 16), 4)
  }

  lemma RenderFourDigits(crc: nat)
    requires crc < 0x1_0000
    ensures |Render(crc)| == 4 && Value(Render(crc), 16) == crc
  {
    PaddedNumeral(crc, 16, 4);
    assert Power(16, 2) == 256;
    assert Power(16, 4) == 0x1_0000;
  }

  // ----- the function of the repository --------------------------------------------------

  /** The remainder of the message polynomial, in four hexadecimal digits. */
  function Crc(input: string): string {
    Render(FromBits(Divide(Dividend(input))))
  }

  lemma NextShift(n: nat, crc: nat)
    ensures ShiftCrc(crc) < 0x1_0000
    ensures ShiftN(n, ToBits(ShiftCrc(crc), 16)) == ShiftN(n + 1, ToBits(crc, 16))
  {
    IntegerShift(crc);
  }

  /** The inner loop. */
  method ShiftEightTimes(crc0: nat) returns (crc: nat)
    ensures crc < 0x1_0000 && ToBits(crc, 16) == ShiftN(8, ToBits(crc0, 16))
  {
    ghost var all := ShiftN(8, ToBits(crc0, 16));
    crc := crc0;
    var b := 0;
    while b < 8
      invariant 0 <= b <= 8
      invariant b > 0 ==> crc < 0x1_0000
      invariant ShiftN(8 - b, ToBits(crc, 16)) == all
    {
      NextShift(7 - b, crc);
      crc := ShiftCrc(crc);
      b := b + 1;
    }
  }

  method Crc16Ccitt(input: string) returns (r: string)
    ensures r == Crc(input)
  {
    SixteenBits();
    AllOnes(16);
    assert input[0..] == input;
    var crc := 0xffff;
    var i := 0;
    while i < |input|
      invariant 0 <= i <= |input|
      invariant 0 <= crc < 0x1_0000
      invariant Register(ToBits(crc, 16), input[i..]) == Register(Ones(16), input)
    {
      assert input[i..][1..] == input[i + 1..];
      IntegerFeed(crc, input[i] as nat);
      crc := Xor(crc, input[i] as nat * 0x100);
      crc := ShiftEightTimes(crc);
      i := i + 1;
    }
    RegisterIsRemainder(Ones(16), input);
    FromToBits(crc, 16);
    r := Render(crc);
  }

  lemma OddBits(n: nat, w: nat)
    ensures ToBits(2 * n + 1, w + 1) == ToBits(n, w) + [true]
  {
    assert (2 * n + 1) / 2 == n;
  }

  lemma {:induction false} AllOnes(w: nat)
    ensures Pow2(w) >= 1 && ToBits(Pow2(w) - 1, w) == Ones(w)
  {
    if w > 0 {
      AllOnes(w - 1);
      OddBits(Pow2(w - 1) - 1, w - 1);
      assert Ones(w) == Ones(w - 1) + [true];
    }
  }

  lemma SixteenBits()
    ensures Pow2(8) == 0x100 && Pow2(16) == 0x1_0000
  {
    assert Pow2(8) == 0x100;
  }

  /** The canonical form of the result: the four digits are exactly the sixteen bits of the remainder. */
  lemma CrcFaithful(a: string, b: string)
    ensures |Crc(a)| == 4
    ensures Crc(a) == Crc(b) <==> Register(Ones(16), a) == Register(Ones(16), b)
  {
    forall s | s == a || s == b
      ensures |Crc(s)| == 4
      ensures ToBits(Value(Crc(s), 16), 16) == Register(Ones(16), s)
    {
      RegisterIsRemainder(Ones(16), s);
      var r := Divide(Dividend(s));
      ToFromBits(r);
      SixteenBits();
      RenderFourDigits(FromBits(r));
    }
    RegisterIsRemainder(Ones(16), a);
    RegisterIsRemainder(Ones(16), b);
  }

  // ----- error detection ------------------------------------------------------------------

  function Unshift(r: Bits): (r': Bits)
    requires |r| == 16
    ensures |r'| == 16
  {
    if r[15] then [true] + AddFront(r, POLY)[..15] else [false] + r[..15]
  }

  lemma PolyOdd()
    ensures POLY[15]
  {
    assert 0x1021 % 2 == 1;
    assert POLY == ToBits(0x1021 / 2, 15) + [true];
  }

  lemma UnshiftShift(r: Bits)
    requires |r| == 16
    ensures Unshift(Shift(r)) == r
  {
    PolyOdd();
    var moved := r[1..] + [false];
    AddTwice(moved, POLY);
    assert moved[..15] == r[1..] && [r[0]] + r[1..] == r;
  }

  lemma ShiftUnshift(r: Bits)
    requires |r| == 16
    ensures Shift(Unshift(r)) == r
  {
    PolyOdd();
    AddTwice(r, POLY);
    var before := if r[15] then AddFront(r, POLY) else r;
    assert Unshift(r) == [r[15]] + before[..15];
    assert Unshift(r)[1..] + [false] == before;
  }

  /** The shift is a bijection on registers. */
  lemma ShiftBijective(r: Bits)
    requires |r| == 16
    ensures Unshift(Shift(r)) == r && Shift(Unshift(r)) == r
  {
    UnshiftShift(r);
    ShiftUnshift(r);
  }

  lemma {:induction false} ShiftNInjective(n: nat, r: Bits, s: Bits)
    requires |r| == |s| == 16 && ShiftN(n, r) == ShiftN(n, s)
    ensures r == s
  {
    if n > 0 {
      ShiftNInjective(n - 1, Shift(r), Shift(s));
      ShiftBijective(r);
      ShiftBijective(s);
    }
  }

  lemma {:induction false} RegisterAppend(r: Bits, a: string, b: string)
    requires |r| == 16
    ensures Register(r, a + b) == Register(Register(r, a), b)
    decreases |a|
  {
    if a == "" {
      assert a + b == b;
    } else {
      assert (a + b)[1..] == a[1..] + b;
      RegisterAppend(Feed(r, a[0]), a[1..], b);
    }
  }

  lemma {:induction false} ShiftNAdd(n: nat, r: Bits, b: Bits)
    requires |r| == 16 && n + |b| <= 16
    ensures AddFront(ShiftN(n, r), b) == ShiftN(n, AddFront(r, Zeros(n) + b))
  {
    if n == 0 {
      assert Zeros(0) + b == b;
    } else {
      var wide := Zeros(n) + b;
      assert wide[1..] == Zeros(n - 1) + b;
      assert AddFront(r, wide[..1]) == r;
      ShiftAdd(r, wide);
      ShiftNAdd(n - 1, Shift(r), b);
    }
  }

  lemma {:induction false} ShiftNTwice(m: nat, n: nat, r: Bits)
    requires |r| == 16
    ensures ShiftN(n, ShiftN(m, r)) == ShiftN(m + n, r)
    decreases m
  {
    if m > 0 {
      ShiftNTwice(m - 1, n, Shift(r));
    }
  }

  /** Two bytes go through the register like one 16-bit word. */
  lemma FeedTwo(r: Bits, c: char, d: char)
    requires |r| == 16
    ensures Feed(Feed(r, c), d) == ShiftN(16, AddFront(r, CharBits(c) + CharBits(d)))
  {
    var x := AddFront(r, CharBits(c));
    ShiftNAdd(8, x, CharBits(d));
    assert AddFront(x, Zeros(8) + CharBits(d)) == AddFront(r, CharBits(c) + CharBits(d));
    ShiftNTwice(8, 8, AddFront(r, CharBits(c) + CharBits(d)));
  }

  predicate Bytes(s: string) {
    forall i :: 0 <= i < |s| ==> s[i] as int < 0x100
  }

  lemma CharBitsInjective(c: char, d: char)
    requires c as int < 0x100 && d as int < 0x100 && CharBits(c) == CharBits(d)
    ensures c == d
  {
    assert Pow2(8) == 0x100;
    FromToBits(c as int, 8);
    FromToBits(d as int, 8);
  }

  lemma RegisterOne(r: Bits, c: char)
    requires |r| == 16
    ensures Register(r, [c]) == Feed(r, c)
  {
    assert [c][1..] == "";
    assert Register(r, [c]) == Register(Feed(r, c), "");
  }

  lemma RegisterTwo(r: Bits, c: char, d: char)
    requires |r| == 16
    ensures Register(r, [c, d]) == Feed(Feed(r, c), d)
  {
    assert [c, d][1..] == [d];
    RegisterOne(Feed(r, c), d);
  }

  lemma {:induction false} ShiftNZero(n: nat)
    ensures ShiftN(n, Zeros(16)) == Zeros(16)
  {
    if n > 0 {
      assert Shift(Zeros(16)) == Zeros(16);
      ShiftNZero(n - 1);
    }
  }

  // ----- bursts -----------------------------------------------------------------------------

  /** One step of the division. */
  function Reduce(p: Bits): (next: Bits)
    requires |p| >= 17
    ensures |next| == |p| - 1
  {
    if p[0] then AddFront(p, GENERATOR)[1..] else p[1..]
  }

  lemma ReduceLinear(p: Bits, q: Bits)
    requires |p| == |q| >= 17
    ensures Reduce(AddFront(p, q)) == AddFront(Reduce(p), Reduce(q))
  {
    var n := |p|;
    forall i | 0 <= i < n - 1
      ensures Reduce(AddFront(p, q))[i] == (Reduce(p)[i] != Reduce(q)[i])
    {
      assert i + 1 < 17 ==> Reduce(p)[i] == (p[i + 1] != (p[0] && GENERATOR[i + 1]));
      assert i + 1 < 17 ==> Reduce(q)[i] == (q[i + 1] != (q[0] && GENERATOR[i + 1]));
    }
  }

  /** Division is linear. */
  lemma {:induction false} DivideLinear(p: Bits, q: Bits)
    requires |p| == |q| >= 16
    ensures Divide(AddFront(p, q)) == AddFront(Divide(p), Divide(q))
    decreases |p|
  {
    if |p| > 16 {
      ReduceLinear(p, q);
      DivideLinear(Reduce(p), Reduce(q));
      assert Divide(AddFront(p, q)) == Divide(Reduce(AddFront(p, q)));
    }
  }

  lemma {:induction false} DivideLeadingZeros(k: nat, p: Bits)
    requires |p| >= 16
    ensures Divide(Zeros(k) + p) == Divide(p)
  {
    if k == 0 {
      assert Zeros(0) + p == p;
    } else {
      OneZeroMore(k - 1, p);
      assert (Zeros(k) + p)[1..] == Zeros(k - 1) + p;
      DivideLeadingZeros(k - 1, p);
    }
  }

  lemma {:induction false} DivideShifted(m: nat, w: Bits)
    requires |w| == 16
    ensures Divide(w + Zeros(m)) == ShiftN(m, w)
  {
    if m == 0 {
      assert w + Zeros(0) == w;
    } else {
      ReduceShifts(m, w);
      DivideShifted(m - 1, Shift(w));
    }
  }

  lemma ReduceShifts(m: nat, w: Bits)
    requires |w| == 16 && m > 0
    ensures Reduce(w + Zeros(m)) == Shift(w) + Zeros(m - 1)
    ensures Divide(w + Zeros(m)) == Divide(Shift(w) + Zeros(m - 1))
  {
    var p := w + Zeros(m);
    var shifted := w[1..] + [false];
    assert p[1..] == shifted + Zeros(m - 1);
    AddFrontTail(p, POLY);
    AddBeforeZeros(shifted, POLY, m - 1);
  }

  lemma AddBeforeZeros(p: Bits, q: Bits, m: nat)
    requires |q| <= |p|
    ensures AddFront(p + Zeros(m), q) == AddFront(p, q) + Zeros(m)
  {
    assert |AddFront(p + Zeros(m), q)| == |p| + m;
  }

  /** Two dividends that differ only within sixteen consecutive bits have different remainders. */
  lemma BurstChangesRemainder(p: Bits, q: Bits, k: nat)
    requires |p| == |q| && k + 16 <= |p|
    requires forall i :: 0 <= i < |p| && !(k <= i < k + 16) ==> p[i] == q[i]
    ensures Divide(p) == Divide(q) <==> p == q
  {
    if Divide(p) == Divide(q) {
      var m := |p| - k - 16;
      var e := AddFront(p, q);
      var w := e[k..k + 16];
      assert e == Zeros(k) + (w + Zeros(m));
      DivideLinear(p, q);
      assert AddFront(Divide(p), Divide(q)) == Zeros(16);
      DivideLeadingZeros(k, w + Zeros(m));
      DivideShifted(m, w);
      ShiftNZero(m);
      ShiftNInjective(m, w, Zeros(16));
      forall i | 0 <= i < |p|
        ensures p[i] == q[i]
      {
        assert k <= i < k + 16 ==> e[i] == w[i - k];
      }
    }
  }

  lemma {:induction false} MessageBitAt(s: string, i: nat)
    ensures |MessageBits(s)| == 8 * |s|
    ensures i < 8 * |s| ==> MessageBits(s)[i] == CharBits(s[i / 8])[i % 8]
    decreases |s|
  {
    if s != "" {
      var rest := s[1..];
      MessageBitAt(rest, if i >= 8 then i - 8 else i);
      if 8 <= i < 8 * |s| {
        assert (i - 8) / 8 == i / 8 - 1 && (i - 8) % 8 == i % 8;
        assert rest[i / 8 - 1] == s[i / 8];
      }
    }
  }

  lemma {:induction false} MessageBitsInjective(a: string, b: string)
    requires |a| == |b| && Bytes(a) && Bytes(b) && MessageBits(a) == MessageBits(b)
    ensures a == b
    decreases |a|
  {
    if a != "" {
      var x, y := MessageBits(a), MessageBits(b);
      assert x[..8] == CharBits(a[0]) && y[..8] == CharBits(b[0]);
      assert x[8..] == MessageBits(a[1..]) && y[8..] == MessageBits(b[1..]);
      CharBitsInjective(a[0], b[0]);
      MessageBitsInjective(a[1..], b[1..]);
      assert a == [a[0]] + a[1..] && b == [b[0]] + b[1..];
    }
  }

  /** The CRC detects every error burst of up to sixteen bits, wherever it starts: strings of 8-bit characters
      whose bits differ only within sixteen consecutive positions have the same CRC only if they are equal. */
  lemma BurstErrorsDetected(a: string, b: string, k: nat)
    requires |a| == |b| && Bytes(a) && Bytes(b) && k <= 8 * |a|
    requires |MessageBits(a)| == |MessageBits(b)| == 8 * |a|
    requires forall i :: 0 <= i < 8 * |a| && !(k <= i < k + 16) ==> MessageBits(a)[i] == MessageBits(b)[i]
    ensures Crc(a) == Crc(b) <==> a == b
  {
    CrcFaithful(a, b);
    RegisterIsRemainder(Ones(16), a);
    RegisterIsRemainder(Ones(16), b);
    var p, q := Dividend(a), Dividend(b);
    BurstChangesRemainder(p, q, k);
    if p == q {
      AddTwice(MessageBits(a) + Zeros(16), Ones(16));
      AddTwice(MessageBits(b) + Zeros(16), Ones(16));
      assert MessageBits(a) == (MessageBits(a) + Zeros(16))[..8 * |a|];
      assert MessageBits(b) == (MessageBits(b) + Zeros(16))[..8 * |a|];
      MessageBitsInjective(a, b);
    }
  }

  /** In particular, any damage within two consecutive characters. */
  lemma AdjacentErrorsDetected(a: string, b: string, k: nat)
    requires |a| == |b| && k < |a| && Bytes(a) && Bytes(b)
    requires forall i :: 0 <= i < |a| && i != k && i != k + 1 ==> a[i] == b[i]
    ensures Crc(a) == Crc(b) <==> a == b
  {
    MessageBitAt(a, 0);
    MessageBitAt(b, 0);
    forall i | 0 <= i < 8 * |a| && !(8 * k <= i < 8 * k + 16)
      ensures MessageBits(a)[i] == MessageBits(b)[i]
    {
      MessageBitAt(a, i);
      MessageBitAt(b, i);
      assert i / 8 != k && i / 8 != k + 1;
    }
    BurstErrorsDetected(a, b, 8 * k);
  }

  /** Feeding the remainder back as two bytes drives the register to zero. */
  lemma RemainderFedBackGivesZero(input: string, high: char, low: char)
    requires CharBits(high) + CharBits(low) == Divide(Dividend(input))
    ensures Divide(Dividend(input + [high, low])) == Zeros(16)
  {
    var r := Divide(Dividend(input));
    RegisterIsRemainder(Ones(16), input);
    RegisterIsRemainder(Ones(16), input + [high, low]);
    RegisterAppend(Ones(16), input, [high, low]);
    RegisterTwo(r, high, low);
    FeedTwo(r, high, low);
    assert AddFront(r, r) == Zeros(16);
    ShiftNZero(16);
  }
}
