/** pkg/ds/size.go: byte counts printed with decimal units (1 KB = 1000 B),
    an integer part, and up to `decimal` digits of fraction. The fraction is
    modelled as written (FormatAsWritten) and as intended (Format). */
module Size {
  import opened Uint64

  const BYTE: nat := 1
  const KILOBYTE: nat := 1000
  const MEGABYTE: nat := 1000000
  const GIGABYTE: nat := 1000000000
  const TERABYTE: nat := 1000000000000

  const UNITS: set<nat> := {BYTE, KILOBYTE, MEGABYTE, GIGABYTE, TERABYTE}

  function Pow10(k: nat): (r: nat)
    ensures r >= 1
  {
    if k == 0 then 1 else 10 * Pow10(k - 1)
  }

  // ---------------------------------------------------------------------
  // Decimal digit strings

  predicate IsDigits(s: string)
  {
    forall i :: 0 <= i < |s| ==> '0' <= s[i] <= '9'
  }

  function DigitChar(d: nat): char
    requires d < 10
  {
    "0123456789"[d]
  }

  /** The value of a decimal digit (0 for any other character). */
  function DigitValue(c: char): (d: nat)
    ensures d < 10
  {
    if '0' <= c <= '9' then c as int - '0' as int else 0
  }

  /** strconv.FormatUint(n, 10): the decimal digits of n. */
  function FormatUint(n: nat): string
  {
    if n < 10 then [DigitChar(n)] else FormatUint(n / 10) + [DigitChar(n % 10)]
  }

  /** FormatUint writes only digits, at least one, and no leading zero. */
  lemma {:induction false} FormatUintDigits(n: nat)
    ensures 1 <= |FormatUint(n)| && IsDigits(FormatUint(n))
    ensures n > 0 ==> FormatUint(n)[0] != '0'
  {
    if n >= 10 {
      FormatUintDigits(n / 10);
    }
  }

  /** The number that a string of decimal digits denotes. */
  function Value(s: string): nat
  {
    if s == [] then 0 else Value(s[..|s| - 1]) * 10 + DigitValue(s[|s| - 1])
  }

  /** Reading back what FormatUint wrote gives the number. */
  lemma {:induction false} FormatUintRoundTrip(n: nat)
    ensures Value(FormatUint(n)) == n
  {
    if n >= 10 {
      assert DigitValue(DigitChar(n % 10)) == n % 10;
      var s := FormatUint(n);
      assert s[..|s| - 1] == FormatUint(n / 10);
      FormatUintRoundTrip(n / 10);
    }
  }

  /** A number has at most `w` digits exactly when it is below 10^w. */
  lemma {:induction false} FormatUintLength(n: nat, w: nat)
    requires w >= 1
    ensures |FormatUint(n)| <= w <==> n < Pow10(w)
  {
    if n >= 10 {
      if w == 1 {
        assert Pow10(1) == 10;
      } else {
        FormatUintLength(n / 10, w - 1);
      }
    } else {
      PowMonotone(1, w);
      assert Pow10(1) == 10;
    }
  }

  lemma {:induction false} PowMonotone(a: nat, b: nat)
    requires a <= b
    ensures Pow10(a) <= Pow10(b)
  {
    if a < b {
      PowMonotone(a, b - 1);
    }
  }

  function Zeros(k: nat): (s: string)
    ensures |s| == k
  {
    if k == 0 then "" else Zeros(k - 1) + "0"
  }

  /** fmt's "%0*d" with a width: the digits of n, left-padded with zeros to `width`. */
  function ZeroPad(n: nat, width: int): (s: string)
    ensures |s| == if |FormatUint(n)| < width then width else |FormatUint(n)|
  {
    var d := FormatUint(n);
    if |d| < width then Zeros(width - |d|) + d else d
  }

  lemma ShiftDigit(x: int, y: int, v: int, d: int)
    ensures (x * y + v) * 10 + d == x * (10 * y) + (v * 10 + d)
  {
  }

  lemma {:induction false} ValueAppend(a: string, b: string)
    ensures Value(a + b) == Value(a) * Pow10(|b|) + Value(b)
    decreases |b|
  {
    if b == [] {
      assert a + b == a;
    } else {
      var b' := b[..|b| - 1];
      var d := DigitValue(b[|b| - 1]);
      ValueAppend(a, b');
      var x, y, v := Value(a), Pow10(|b'|), Value(b');
      assert Value(a + b) == (x * y + v) * 10 + d by {
        var ab := a + b;
        assert ab[..|ab| - 1] == a + b';
        assert ab[|ab| - 1] == b[|b| - 1];
      }
      assert Value(b) == v * 10 + d;
      assert Pow10(|b|) == 10 * y;
      ShiftDigit(x, y, v, d);
    }
  }

  lemma {:induction false} ValueZeros(k: nat)
    ensures Value(Zeros(k)) == 0
  {
    if k > 0 {
      assert Zeros(k)[..k - 1] == Zeros(k - 1);
      ValueZeros(k - 1);
    }
  }

  /** Zero padding writes only digits. */
  lemma ZeroPadDigits(n: nat, width: int)
    ensures IsDigits(ZeroPad(n, width))
  {
    var d := FormatUint(n);
    FormatUintDigits(n);
    if |d| < width {
      var z := Zeros(width - |d|);
      ZerosAreZeros(width - |d|);
      assert ZeroPad(n, width) == z + d;
    }
  }

  lemma {:induction false} ZerosAreZeros(k: nat)
    ensures forall i :: 0 <= i < k ==> Zeros(k)[i] == '0'
  {
    if k > 0 {
      ZerosAreZeros(k - 1);
      assert Zeros(k) == Zeros(k - 1) + "0";
    }
  }

  /** Zero padding does not change the number denoted. */
  lemma ZeroPadValue(n: nat, width: int)
    ensures Value(ZeroPad(n, width)) == n
  {
    var d := FormatUint(n);
    FormatUintRoundTrip(n);
    if |d| < width {
      var z := Zeros(width - |d|);
      assert ZeroPad(n, width) == z + d;
      ValueAppend(z, d);
      ValueZeros(width - |d|);
      assert Value(z + d) == 0 * Pow10(|d|) + Value(d);
    } else {
      assert ZeroPad(n, width) == d;
    }
  }

  // ---------------------------------------------------------------------
  // Arithmetic facts used for the truncated fraction

  lemma DivUnique(a: int, d: int, q: int, r: int)
    requires d > 0 && 0 <= r < d && a == d * q + r
    ensures a / d == q && a % d == r
  {
    var q', r' := a / d, a % d;
    assert d * (q - q') == r' - r;
    MulAwayFromZero(d, q - q');
  }

  lemma MulAwayFromZero(d: int, k: int)
    requires d >= 0
    ensures k >= 1 ==> d * k >= d
    ensures k <= -1 ==> d * k <= -d
  {
    if k >= 1 {
      MulMonotone(d, 1, k);
    } else if k <= -1 {
      MulMonotone(d, 1, -k);
    }
  }

  lemma DivDiv(a: nat, b: nat, c: nat)
    requires b > 0 && c > 0
    ensures a / (b * c) == (a / b) / c
  {
    var q, r := a / b, a % b;
    var q2, r2 := q / c, q % c;
    assert a == b * q + r;
    assert q == c * q2 + r2;
    assert b * q == (b * c) * q2 + b * r2;
    MulMonotone(b, r2, c - 1);
    assert b * (c - 1) == b * c - b;
    DivUnique(a, b * c, q2, b * r2 + r);
  }

  /** The number denoted by the first k digits of s is Value(s) with the last
      |s| - k digits dropped. */
  lemma {:induction false} ValuePrefix(s: string, k: nat)
    requires k <= |s|
    ensures Value(s[..k]) == Value(s) / Pow10(|s| - k)
    decreases |s| - k
  {
    if k < |s| {
      var t := s[..|s| - 1];
      assert t[..k] == s[..k];
      var p := Pow10(|t| - k);
      ValuePrefix(t, k);
      assert Value(s) == Value(t) * 10 + DigitValue(s[|s| - 1]);
      DivUnique(Value(s), 10, Value(t), DigitValue(s[|s| - 1]));
      assert Pow10(|s| - k) == 10 * p;
      DivDiv(Value(s), 10, p);
      calc {
        Value(s) / Pow10(|s| - k);
        Value(s) / (10 * p);
        (Value(s) / 10) / p;
        Value(t) / p;
        Value(s[..k]);
      }
    } else {
      assert s[..k] == s;
    }
  }

  // ---------------------------------------------------------------------
  // Units

  /** `interval`: the largest unit strictly below u, or bytes when u <= 1 KB. */
  function Interval(u: U64): (r: (nat, string))
    ensures r in {(BYTE, "B"), (KILOBYTE, "KB"), (MEGABYTE, "MB"), (GIGABYTE, "GB"), (TERABYTE, "TB")}
    ensures r.0 == BYTE <==> u <= KILOBYTE
    ensures r.0 > BYTE ==> r.0 < u
    ensures forall w :: w in UNITS && w < u ==> w <= r.0
  {
    if u > TERABYTE then (TERABYTE, "TB")
    else if u > GIGABYTE then (GIGABYTE, "GB")
    else if u > MEGABYTE then (MEGABYTE, "MB")
    else if u > KILOBYTE then (KILOBYTE, "KB")
    else (BYTE, "B")
  }

  /** Number of decimal digits of a fraction of a unit: 10^UnitWidth(unit) == unit. */
  function UnitWidth(unit: nat): (w: nat)
    requires unit in UNITS
    ensures Pow10(w) == unit
  {
    if unit == TERABYTE then 12
    else if unit == GIGABYTE then 9
    else if unit == MEGABYTE then 6
    else if unit == KILOBYTE then 3
    else 0
  }

  /** `min` of pkg/ds/size.go: the smaller argument. */
  function Min(a: int, b: int): (r: int)
    ensures r <= a && r <= b
    ensures r == a || r == b
  {
    if a < b then a else b
  }

  // ---------------------------------------------------------------------
  // The fraction digits, as written and as intended

  /** Zero-padding width `fractional` picks from the remainder's own magnitude. */
  function PadWidthAsWritten(u: U64): nat
  {
    if u > GIGABYTE then 12
    else if u > MEGABYTE then 9
    else if u > KILOBYTE then 6
    else 3
  }

  /** `fractional` as written: the remainder zero-padded to 3, 6, 9 or 12
      digits according to its own size, then cut to n characters. */
  function FractionalAsWritten(u: U64, n: int): (r: string)
    requires n >= 0
    ensures |r| == Min(n, |ZeroPad(u, PadWidthAsWritten(u))|)
    ensures r <= ZeroPad(u, PadWidthAsWritten(u))
  {
    var s := ZeroPad(u, PadWidthAsWritten(u));
    s[..Min(n, |s|)]
  }

  /** The fraction digits as intended: the remainder written with exactly as
      many digits as the unit has (so it reads as a fraction of the unit),
      then cut to n characters. The digits are the truncated first decimals
      of rem / 10^width. */
  function Fraction(rem: nat, width: nat, n: nat): (r: string)
    requires width >= 1 && rem < Pow10(width)
    ensures |r| == Min(n, width)
    ensures IsDigits(r)
    ensures Value(r) == rem / Pow10(width - |r|)
  {
    var s := ZeroPad(rem, width);
    assert |s| == width by { FormatUintLength(rem, width); }
    ZeroPadDigits(rem, width);
    ZeroPadValue(rem, width);
    ValuePrefix(s, Min(n, width));
    s[..Min(n, width)]
  }

  /** Unit.Format as written in the source (see FormatAsWritten's finding). */
  function FormatAsWritten(u: U64, decimal: U8): string
  {
    var (r, p) := Interval(u);
    if r < KILOBYTE then
      if decimal == 0 then FormatUint(u) + " " + p
      else FormatUint(u) + "." + ZeroPad(0, decimal) + " " + p
    else
      // u - i*r of the source, with i = u / r, is u % r
      var i := u / r;
      if decimal == 0 then FormatUint(i) + " " + p
      else FormatUint(i) + "." + FractionalAsWritten(u % r, decimal) + " " + p
  }

  /** Unit.Format with the fraction padded to the unit's width. */
  function Format(u: U64, decimal: U8): string
  {
    var (r, p) := Interval(u);
    if r < KILOBYTE then
      if decimal == 0 then FormatUint(u) + " " + p
      else FormatUint(u) + "." + ZeroPad(0, decimal) + " " + p
    else
      var i := u / r;
      if decimal == 0 then FormatUint(i) + " " + p
      else FormatUint(i) + "." + Fraction(u % r, UnitWidth(r), decimal) + " " + p
  }

  /** HumanSize: the byte count `size` printed with `decimal` decimals. */
  function HumanSize(size: U64, decimal: U8): string
  {
    Format(size, decimal)
  }

  // ---------------------------------------------------------------------
  // Properties

  /** With no decimals the output is the whole number of units and the unit. */
  lemma FormatWholeUnits(u: U64)
    ensures Format(u, 0) == FormatUint(u / Interval(u).0) + " " + Interval(u).1
  {
    var (r, p) := Interval(u);
    if r < KILOBYTE {
      assert r == BYTE && u / r == u;
      assert Format(u, 0) == FormatUint(u) + " " + p;
    } else {
      assert Format(u, 0) == FormatUint(u / r) + " " + p;
    }
  }

  /** Bytes keep their value and print `decimal` zeros after the dot. */
  lemma FormatBytes(u: U64, decimal: U8)
    requires u <= KILOBYTE && decimal > 0
    ensures Format(u, decimal) == FormatUint(u) + "." + Zeros(decimal) + " B"
  {
    assert FormatUint(0) == "0";
  }

  lemma FormatAboveKilobyte(u: U64, decimal: U8)
    requires u > KILOBYTE && decimal > 0
    ensures Interval(u).0 >= KILOBYTE
    ensures Format(u, decimal) == FormatUint(u / Interval(u).0) + "." + Fraction(u % Interval(u).0, UnitWidth(Interval(u).0), decimal) + " " + Interval(u).1
  {
  }

  lemma TruncationBounds(rem: nat, d: nat, q: nat)
    requires d >= 1 && q == rem / d
    ensures q * d <= rem < (q + 1) * d
  {
    assert rem == d * q + rem % d;
  }

  /** Above 1 KB the output is the integer number of units, a dot, and the
      first min(decimal, width) decimals of the remaining fraction of a unit,
      truncated rather than rounded. */
  lemma FormatTruncates(u: U64, decimal: U8) returns (f: string)
    requires u > KILOBYTE && decimal > 0
    ensures Format(u, decimal) == FormatUint(u / Interval(u).0) + "." + f + " " + Interval(u).1
    ensures |f| == Min(decimal, UnitWidth(Interval(u).0)) && IsDigits(f)
    ensures Value(f) * Pow10(UnitWidth(Interval(u).0) - |f|) <= u % Interval(u).0
    ensures u % Interval(u).0 < (Value(f) + 1) * Pow10(UnitWidth(Interval(u).0) - |f|)
  {
    FormatAboveKilobyte(u, decimal);
    var r := Interval(u).0;
    var w := UnitWidth(r);
    f := Fraction(u % r, w, decimal);
    TruncationBounds(u % r, Pow10(w - |f|), Value(f));
  }

  /** The as-written and the corrected formatter print the same text
      whenever no fraction is printed, or the remainder's own padding width
      happens to be the unit's width. */
  lemma FormatAsWrittenAgrees(u: U64, decimal: U8)
    requires u <= KILOBYTE || decimal == 0 || PadWidthAsWritten(u % Interval(u).0) == UnitWidth(Interval(u).0)
    ensures FormatAsWritten(u, decimal) == Format(u, decimal)
  {
    var r := Interval(u).0;
    if u > KILOBYTE && decimal > 0 {
      FormatUintLength(u % r, UnitWidth(r));
      assert FractionalAsWritten(u % r, decimal) == Fraction(u % r, UnitWidth(r), decimal);
    }
  }

  /** A two-character digit string is the two digits of the number it denotes. */
  lemma TwoDigits(f: string)
    requires |f| == 2 && IsDigits(f)
    ensures Value(f) < 100
    ensures f == [DigitChar(Value(f) / 10), DigitChar(Value(f) % 10)]
  {
    var a, b := DigitValue(f[0]), DigitValue(f[1]);
    TwoDigitValue(f);
    DivUnique(Value(f), 10, a, b);
    assert '0' <= f[0] <= '9' && '0' <= f[1] <= '9';
    DigitRoundTrip(f[0]);
    DigitRoundTrip(f[1]);
    PairOf(f, DigitChar(a), DigitChar(b));
  }

  lemma PairOf(f: string, x: char, y: char)
    requires |f| == 2 && f[0] == x && f[1] == y
    ensures f == [x, y]
  {
  }

  lemma TwoDigitValue(f: string)
    requires |f| == 2
    ensures Value(f) == DigitValue(f[0]) * 10 + DigitValue(f[1])
  {
    var g := f[..1];
    assert g[..0] == [] && g[0] == f[0];
    assert Value(g) == DigitValue(f[0]);
  }

  lemma DigitRoundTrip(c: char)
    requires '0' <= c <= '9'
    ensures DigitChar(DigitValue(c)) == c
  {
  }

  /** Above 1 KB with two decimals, the two digits are those of the remainder
      with all but its first two decimals (of the unit's width) dropped. */
  lemma FormatTwoDecimals(u: U64, unit: nat, suffix: string, whole: string, q: nat)
    requires u > KILOBYTE && Interval(u) == (unit, suffix)
    requires FormatUint(u / unit) == whole
    requires q == (u % unit) / Pow10(UnitWidth(unit) - 2) && q < 100
    ensures Format(u, 2) == whole + "." + [DigitChar(q / 10), DigitChar(q % 10)] + " " + suffix
  {
    var f := Fraction(u % unit, UnitWidth(unit), 2);
    TwoDigits(f);
    FormatOf(u, 2, unit, suffix, whole, f);
  }

  lemma Pow10Values()
    ensures Pow10(1) == 10 && Pow10(4) == 10000 && Pow10(7) == 10000000
  {
    assert Pow10(2) == 100;
    assert Pow10(3) == 1000;
    assert Pow10(5) == 100000;
    assert Pow10(6) == 1000000;
  }

  /** Examples that the source's tests pin down. */
  lemma HumanSizeWholeExamples()
    ensures HumanSize(0, 0) == "0 B"
    ensures HumanSize(65535, 0) == "65 KB"
    ensures HumanSize(4294967295, 0) == "4 GB"
    ensures FormatAsWritten(0, 0) == "0 B" && FormatAsWritten(65535, 0) == "65 KB"
    ensures FormatAsWritten(4294967295, 0) == "4 GB"
  {
    FormatAsWrittenAgrees(0, 0);
    FormatAsWrittenAgrees(65535, 0);
    FormatAsWrittenAgrees(4294967295, 0);
    FormatWholeUnits(0);
    FormatWholeUnits(65535);
    FormatWholeUnits(4294967295);
    assert FormatUint(65) == "65";
  }

  lemma HumanSizeBytesExample()
    ensures HumanSize(557, 2) == "557.00 B"
    ensures FormatAsWritten(557, 2) == "557.00 B"
  {
    FormatAsWrittenAgrees(557, 2);
    FormatBytes(557, 2);
    assert FormatUint(557) == "557";
    assert Zeros(2) == "00";
  }

  /** One more digit: how FormatUint extends the digits of n / 10. */
  lemma DigitStep(n: nat, q: nat, d: nat, s: string)
    requires n == 10 * q + d && d < 10 && q > 0
    requires FormatUint(q) == s
    ensures FormatUint(n) == s + [DigitChar(d)]
  {
  }

  /** Format above 1 KB, assembled from its parts. */
  lemma FormatOf(u: U64, decimal: U8, unit: nat, suffix: string, whole: string, frac: string)
    requires u > KILOBYTE && decimal > 0 && Interval(u) == (unit, suffix)
    requires FormatUint(u / unit) == whole
    requires Fraction(u % unit, UnitWidth(unit), decimal) == frac
    ensures Format(u, decimal) == whole + "." + frac + " " + suffix
  {
    FormatAboveKilobyte(u, decimal);
  }

  lemma Digits741208()
    ensures FormatUint(741208) == "741208"
  {
    DigitStep(74, 7, 4, "7");
    DigitStep(741, 74, 1, "74");
    DigitStep(7412, 741, 2, "741");
    DigitStep(74120, 7412, 0, "7412");
    DigitStep(741208, 74120, 8, "74120");
  }

  lemma HumanSizeMegabyteExample()
    ensures HumanSize(8741208, 2) == "8.74 MB"
    ensures FormatAsWritten(8741208, 2) == "8.74 MB"
  {
    FormatAsWrittenAgrees(8741208, 2);
    assert 8741208 / MEGABYTE == 8 && 8741208 % MEGABYTE == 741208;
    Digits741208();
    assert Fraction(741208, 6, 2) == "74" by {
      assert ZeroPad(741208, 6) == "741208";
    }
    FormatOf(8741208, 2, MEGABYTE, "MB", "8", "74");
  }

  lemma HumanSizeKilobyteExample()
    ensures HumanSize(425005, 2) == "425.00 KB"
    ensures FormatAsWritten(425005, 2) == "425.00 KB"
  {
    Pow10Values();
    DigitStep(42, 4, 2, "4");
    DigitStep(425, 42, 5, "42");
    TwoDecimalExample(425005, KILOBYTE, "KB", "425", 0);
  }

  lemma Digits18446744()
    ensures FormatUint(18446744) == "18446744"
  {
    DigitStep(18, 1, 8, "1");
    DigitStep(184, 18, 4, "18");
    DigitStep(1844, 184, 4, "184");
    DigitStep(18446, 1844, 6, "1844");
    DigitStep(184467, 18446, 7, "18446");
    DigitStep(1844674, 184467, 4, "184467");
    DigitStep(18446744, 1844674, 4, "1844674");
  }

  lemma Digits73709551615()
    ensures FormatUint(73709551615) == "73709551615"
  {
    DigitStep(73, 7, 3, "7");
    DigitStep(737, 73, 7, "73");
    DigitStep(7370, 737, 0, "737");
    DigitStep(73709, 7370, 9, "7370");
    DigitStep(737095, 73709, 5, "73709");
    DigitStep(7370955, 737095, 5, "737095");
    DigitStep(73709551, 7370955, 1, "7370955");
    DigitStep(737095516, 73709551, 6, "73709551");
    DigitStep(7370955161, 737095516, 1, "737095516");
    DigitStep(73709551615, 7370955161, 5, "7370955161");
  }

  /** The fraction digits are a prefix of the zero-padded remainder. */
  lemma FractionOfPadded(rem: nat, width: nat, n: nat, padded: string)
    requires width >= 1 && rem < Pow10(width)
    requires ZeroPad(rem, width) == padded
    ensures Fraction(rem, width, n) == padded[..Min(n, width)]
  {
  }

  lemma Fraction73709551615()
    ensures Fraction(73709551615, 12, 3) == "073"
  {
    Digits73709551615();
    LeadingZeroFraction(73709551615, 12, 3, "73709551615");
    assert "73709551615"[..2] == "73";
  }

  /** A remainder one digit shorter than the width gets one leading zero. */
  lemma LeadingZeroFraction(rem: nat, width: nat, n: nat, d: string)
    requires 1 <= n <= width && rem < Pow10(width)
    requires FormatUint(rem) == d && |d| + 1 == width
    ensures Fraction(rem, width, n) == "0" + d[..n - 1]
  {
    assert Zeros(1) == "0";
    var s := ZeroPad(rem, width);
    assert s == "0" + d;
    assert s[..n] == "0" + d[..n - 1];
  }

  lemma HumanSizeLargestExample()
    ensures HumanSize(MAX_U64, 3) == "18446744.073 TB"
    ensures FormatAsWritten(MAX_U64, 3) == "18446744.073 TB"
  {
    FormatAsWrittenAgrees(MAX_U64, 3);
    DivUnique(MAX_U64, TERABYTE, 18446744, 73709551615);
    Digits18446744();
    Fraction73709551615();
    FormatOf(MAX_U64, 3, TERABYTE, "TB", "18446744", "073");
  }

  /** A two-decimal case above 1 KB where both formatters agree. */
  lemma TwoDecimalExample(u: U64, unit: nat, suffix: string, whole: string, q: nat)
    requires u > KILOBYTE && Interval(u) == (unit, suffix)
    requires FormatUint(u / unit) == whole
    requires q == (u % unit) / Pow10(UnitWidth(unit) - 2) && q < 100
    requires PadWidthAsWritten(u % unit) == UnitWidth(unit)
    ensures HumanSize(u, 2) == whole + "." + [DigitChar(q / 10), DigitChar(q % 10)] + " " + suffix
    ensures FormatAsWritten(u, 2) == HumanSize(u, 2)
  {
    FormatTwoDecimals(u, unit, suffix, whole, q);
    FormatAsWrittenAgrees(u, 2);
  }

  /** size_test.go: 557891 with two decimals. */
  lemma HumanSizeExample557891()
    ensures HumanSize(557891, 2) == "557.89 KB" && FormatAsWritten(557891, 2) == "557.89 KB"
  {
    Pow10Values();
    assert FormatUint(557) == "557";
    TwoDecimalExample(557891, KILOBYTE, "KB", "557", 89);
  }

  /** size_test.go: 114710 with two decimals. */
  lemma HumanSizeExample114710()
    ensures HumanSize(114710, 2) == "114.71 KB" && FormatAsWritten(114710, 2) == "114.71 KB"
  {
    Pow10Values();
    assert FormatUint(114) == "114";
    TwoDecimalExample(114710, KILOBYTE, "KB", "114", 71);
  }

  /** size_test.go: 742289 with two decimals. */
  lemma HumanSizeExample742289()
    ensures HumanSize(742289, 2) == "742.28 KB" && FormatAsWritten(742289, 2) == "742.28 KB"
  {
    Pow10Values();
    assert FormatUint(742) == "742";
    TwoDecimalExample(742289, KILOBYTE, "KB", "742", 28);
  }

  /** size_test.go: 114448910 with two decimals. */
  lemma HumanSizeExample114448910()
    ensures HumanSize(114448910, 2) == "114.44 MB" && FormatAsWritten(114448910, 2) == "114.44 MB"
  {
    Pow10Values();
    assert FormatUint(114) == "114";
    TwoDecimalExample(114448910, MEGABYTE, "MB", "114", 44);
  }

  /** size_test.go: 8933578 with two decimals. */
  lemma HumanSizeExample8933578()
    ensures HumanSize(8933578, 2) == "8.93 MB" && FormatAsWritten(8933578, 2) == "8.93 MB"
  {
    Pow10Values();
    assert FormatUint(8) == "8";
    TwoDecimalExample(8933578, MEGABYTE, "MB", "8", 93);
  }

  /** size_test.go: 12033687 with two decimals. */
  lemma HumanSizeExample12033687()
    ensures HumanSize(12033687, 2) == "12.03 MB" && FormatAsWritten(12033687, 2) == "12.03 MB"
  {
    Pow10Values();
    assert FormatUint(12) == "12";
    TwoDecimalExample(12033687, MEGABYTE, "MB", "12", 3);
  }

  /** size_test.go: 678007439 with two decimals. */
  lemma HumanSizeExample678007439()
    ensures HumanSize(678007439, 2) == "678.00 MB" && FormatAsWritten(678007439, 2) == "678.00 MB"
  {
    Pow10Values();
    assert FormatUint(678) == "678";
    TwoDecimalExample(678007439, MEGABYTE, "MB", "678", 0);
  }

  /** size_test.go: 5849684981 with two decimals. */
  lemma HumanSizeExample5849684981()
    ensures HumanSize(5849684981, 2) == "5.84 GB" && FormatAsWritten(5849684981, 2) == "5.84 GB"
  {
    Pow10Values();
    assert FormatUint(5) == "5";
    TwoDecimalExample(5849684981, GIGABYTE, "GB", "5", 84);
  }

  /** The finding: a remainder much smaller than its unit is padded to its own
      width, so 1000500 bytes read as 1.5 MB instead of 1.0005 MB. */
  lemma SmallRemainderMisread()
    ensures FormatAsWritten(1000500, 2) == "1.50 MB"
    ensures Format(1000500, 2) == "1.00 MB"
  {
    assert 1000500 / MEGABYTE == 1 && 1000500 % MEGABYTE == 500;
    DigitStep(50, 5, 0, "5");
    DigitStep(500, 50, 0, "50");
    assert FractionalAsWritten(500, 2) == "50" by {
      assert ZeroPad(500, 3) == "500";
    }
    assert Fraction(500, 6, 2) == "00" by {
      assert ZeroPad(500, 6) == "000500";
    }
    FormatOf(1000500, 2, MEGABYTE, "MB", "1", "00");
  }

  /** The second face of the finding: a zero remainder is padded to 3 digits
      whatever the unit, so more than 3 decimals are cut short. */
  lemma ZeroRemainderShortened()
    ensures FormatAsWritten(2000000, 4) == "2.000 MB"
    ensures Format(2000000, 4) == "2.0000 MB"
  {
    assert 2000000 / MEGABYTE == 2 && 2000000 % MEGABYTE == 0;
    assert FormatUint(0) == "0" && FormatUint(2) == "2";
    assert FractionalAsWritten(0, 4) == "000" by {
      assert Zeros(2) == "00";
      assert ZeroPad(0, 3) == "000";
    }
    assert Fraction(0, 6, 4) == "0000" by {
      assert Zeros(5) == "00000";
      assert ZeroPad(0, 6) == "000000";
    }
    FormatOf(2000000, 4, MEGABYTE, "MB", "2", "0000");
  }
}
