/** Positional numerals: `Number.prototype.toString`, `padStart`, and reading a numeral back; and text that is
    split at a separator. */
module Numerals {

  function Power(base: nat, e: nat): (p: nat)
    ensures base > 0 ==> p > 0
  {
    if e == 0 then 1 else base * Power(base, e - 1)
  }

  function Digit(d: nat): char
    requires d < 16
  {
    "0123456789ABCDEF"[d]
  }

  function DigitValue(c: char): nat {
    if '0' <= c <= '9' then c as nat - '0' as nat
    else if 'A' <= c <= 'F' then c as nat - 'A' as nat + 10
    else 0
  }

  /** `n.toString(base)`, upper case. */
  function Numeral(n: nat, base: nat): (s: string)
    requires 2 <= base <= 16
    ensures |s| >= 1
  {
    if n < base then [Digit(n)] else Numeral(n / base, base) + [Digit(n % base)]
  }

  /** `s.padStart(width, '0')` */
  function PadStart(s: string, width: nat): (t: string)
    ensures |t| == if |s| < width then width else |s|
    decreases width - |s|
  {
    if |s| < width then PadStart("0" + s, width) else s
  }

  function Value(s: string, base: nat): nat {
    if s == "" then 0 else base * Value(s[..|s| - 1], base) + DigitValue(s[|s| - 1])
  }

  lemma DigitValueDigit(d: nat)
    requires d < 16
    ensures DigitValue(Digit(d)) == d
  {
  }

  lemma ValueSnoc(s: string, c: char, base: nat)
    ensures Value(s + [c], base) == base * Value(s, base) + DigitValue(c)
  {
    assert (s + [c])[..|s|] == s;
  }

  lemma AppendDigit(s: string, n: nat, d: nat, base: nat)
    requires Value(s, base) == n && d < 16
    ensures Value(s + [Digit(d)], base) == base * n + d
  {
    DigitValueDigit(d);
    ValueSnoc(s, Digit(d), base);
  }

  lemma LastDigit(n: nat, base: nat) returns (q: nat, r: nat)
    requires 2 <= base <= 16 && n >= base
    ensures n == base * q + r && r < base && q < n && q == n / base
    ensures Numeral(n, base) == Numeral(q, base) + [Digit(r)]
  {
    q, r := n / base, n % base;
    QuotientBelow(base, q, r);
  }

  lemma QuotientBelow(base: nat, q: nat, r: nat)
    requires 2 <= base && (q > 0 || r > 0)
    ensures q < base * q + r
  {
    assert base * q >= 2 * q;
  }

  lemma {:induction false} ValueNumeral(n: nat, base: nat)
    requires 2 <= base <= 16
    ensures Value(Numeral(n, base), base) == n
  {
    if n < base {
      AppendDigit("", 0, n, base);
      assert "" + [Digit(n)] == [Digit(n)];
    } else {
      var q, r := LastDigit(n, base);
      ValueNumeral(q, base);
      AppendDigit(Numeral(q, base), q, r, base);
    }
  }

  lemma {:induction false} ValueLeadingZero(s: string, base: nat)
    ensures Value("0" + s, base) == Value(s, base)
    decreases |s|
  {
    if s == "" {
      assert ("0" + s)[..0] == "";
    } else {
      var t := "0" + s;
      assert t[..|t| - 1] == "0" + s[..|s| - 1];
      ValueLeadingZero(s[..|s| - 1], base);
    }
  }

  lemma {:induction false} ValuePadStart(s: string, width: nat, base: nat)
    ensures Value(PadStart(s, width), base) == Value(s, base)
    decreases width - |s|
  {
    if |s| < width {
      ValueLeadingZero(s, base);
      ValuePadStart("0" + s, width, base);
    }
  }

  lemma {:induction false} NumeralLength(n: nat, base: nat, width: nat)
    requires 2 <= base <= 16 && width >= 1
    ensures |Numeral(n, base)| <= width <==> n < Power(base, width)
    decreases width
  {
    if n < base {
      PowerAtLeast(base, width);
    } else if width == 1 {
      PowerOne(base);
      var _, _ := LastDigit(n, base);
    } else {
      var q, r := LastDigit(n, base);
      NumeralLength(q, base, width - 1);
      DivBelow(n, base, Power(base, width - 1));
    }
  }

  lemma PowerOne(base: nat)
    ensures Power(base, 1) == base
  {
    assert Power(base, 1) == base * Power(base, 0);
  }

  lemma {:induction false} PowerAtLeast(base: nat, width: nat)
    requires base >= 1 && width >= 1
    ensures Power(base, width) >= base
  {
    if width > 1 {
      PowerAtLeast(base, width - 1);
      assert base * Power(base, width - 1) >= 1 * Power(base, width - 1);
    }
  }

  lemma DivBelow(n: nat, d: nat, m: nat)
    requires d > 0
    ensures n / d < m <==> n < d * m
  {
    var q, r := n / d, n % d;
    assert n == d * q + r;
    if q < m {
      assert d * (q + 1) <= d * m;
    } else {
      assert d * q >= d * m;
    }
  }

  /** A padded numeral has the width asked for exactly when the number fits, and can be read back. */
  lemma PaddedNumeral(n: nat, base: nat, width: nat)
    requires 2 <= base <= 16 && width >= 1
    ensures |PadStart(Numeral(n, base), width)| == width <==> n < Power(base, width)
    ensures Value(PadStart(Numeral(n, base), width), base) == n
  {
    NumeralLength(n, base, width);
    ValueNumeral(n, base);
    ValuePadStart(Numeral(n, base), width, base);
  }

  predicate AllDigits(s: string) {
    forall i :: 0 <= i < |s| ==> '0' <= s[i] <= '9'
  }

  lemma {:induction false} NumeralDigits(n: nat)
    ensures AllDigits(Numeral(n, 10))
  {
    if n >= 10 {
      NumeralDigits(n / 10);
    }
  }

  lemma {:induction false} PadStartDigits(s: string, width: nat)
    requires AllDigits(s)
    ensures AllDigits(PadStart(s, width))
    decreases width - |s|
  {
    if |s| < width {
      PadStartDigits("0" + s, width);
    }
  }

  // ----- quotients ------------------------------------------------------------------------------

  lemma QuotientUnique(a: int, m: int, q: int, r: int)
    requires m >= 1 && 0 <= r < m && a == q * m + r
    ensures a / m == q && a % m == r
  {
    var x := a / m;
    assert a == m * x + a % m;
    if x < q {
      Multiples(m, x, q);
    } else if q < x {
      Multiples(m, q, x);
    }
  }

  lemma Multiples(m: int, x: int, y: int)
    requires m >= 1 && x < y
    ensures m * x + m <= m * y
  {
    assert m * (x + 1) <= m * y;
  }

  // ----- text before and after a dash ---------------------------------------------------------

  /** The first `-`, or the end. */
  function DashAt(s: string): (i: nat)
    ensures i <= |s|
    ensures forall k :: 0 <= k < i ==> s[k] != '-'
    ensures i < |s| ==> s[i] == '-'
  {
    if s == "" || s[0] == '-' then 0 else 1 + DashAt(s[1..])
  }

  lemma {:induction false} DashAfter(a: string, rest: string)
    requires '-' !in a
    ensures DashAt(a + "-" + rest) == |a|
    decreases |a|
  {
    var s := a + "-" + rest;
    if a == "" {
      assert s[0] == '-';
    } else {
      assert s[0] == a[0] && s[1..] == a[1..] + "-" + rest;
      DashAfter(a[1..], rest);
    }
  }

  /** The text before the first dash, and what follows it, are determined by the whole. */
  /** A text is split in one way at the first separator. */
  lemma {:induction false} SameAround(separator: char, a: string, x: string, b: string, y: string)
    requires a + [separator] + x == b + [separator] + y && separator !in a && separator !in b
    ensures a == b && x == y
    decreases |a|
  {
    var s, t := a + [separator] + x, b + [separator] + y;
    if a == "" || b == "" {
      assert s[0] == t[0];
      assert a == b == "" && s[1..] == x && t[1..] == y;
    } else {
      assert s[0] == a[0] && t[0] == b[0];
      assert s[1..] == a[1..] + [separator] + x && t[1..] == b[1..] + [separator] + y;
      SameAround(separator, a[1..], x, b[1..], y);
      assert a == [a[0]] + a[1..] && b == [b[0]] + b[1..];
    }
  }
}
