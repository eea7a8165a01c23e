/** Decimal text as Go's `fmt` and `strconv` write and read it. */
module Digits {
  import opened Order

  const UINT64_LIMIT: nat := 0x1_0000_0000_0000_0000
  const UINT32_LIMIT: nat := 0x1_0000_0000

  datatype Option<+T> = None | Some(value: T) {
    predicate IsFailure() { None? }

    function PropagateFailure<U>(): Option<U>
      requires None?
    {
      None
    }

    function Extract(): T
      requires Some?
    {
      value
    }
  }

  function Digit(n: nat): (c: char)
    requires n < 10
    ensures IsDigit(c) && DigitValue(c) == n
  {
    '0' + n as char
  }

  predicate IsDigit(c: char) { '0' <= c <= '9' }

  function DigitValue(c: char): (n: nat)
    requires IsDigit(c)
    ensures n < 10
  {
    c as int - '0' as int
  }

  /** `%d` of a non-negative integer. */
  function Decimal(n: nat): string {
    if n < 10 then [Digit(n)] else Decimal(n / 10) + [Digit(n % 10)]
  }

  function Zeros(count: nat): string { seq(count, _ => '0') }

  /** `%0<width>d` of a non-negative integer. */
  function ZeroPadded(n: nat, width: nat): string {
    var d := Decimal(n);
    if |d| < width then Zeros(width - |d|) + d else d
  }

  predicate AllDigits(s: string) { forall i :: 0 <= i < |s| ==> IsDigit(s[i]) }

  function Value(s: string): nat
    requires AllDigits(s)
  {
    if s == "" then 0 else 10 * Value(s[..|s| - 1]) + DigitValue(s[|s| - 1])
  }

  /** `strconv.ParseUint(s, 10, 64)`: digits only, at least one, in range. */
  function ParseUint(s: string): Option<nat> {
    if s != "" && AllDigits(s) && Value(s) < UINT64_LIMIT then Some(Value(s)) else None
  }

  lemma {:induction false} DecimalReads(n: nat)
    ensures Decimal(n) != "" && AllDigits(Decimal(n)) && Value(Decimal(n)) == n
  {
    if n >= 10 {
      DecimalReads(n / 10);
      var d := Decimal(n);
      assert d[..|d| - 1] == Decimal(n / 10);
    } else {
      assert Decimal(n)[..0] == "";
    }
  }

  lemma {:induction false} DecimalInjective(a: nat, b: nat)
    requires Decimal(a) == Decimal(b)
    ensures a == b
  {
    DecimalReads(a);
    DecimalReads(b);
  }

  lemma {:induction false} ZerosRead(k: nat, d: string)
    requires AllDigits(d)
    ensures AllDigits(Zeros(k) + d) && Value(Zeros(k) + d) == Value(d)
  {
    var s := Zeros(k) + d;
    if d != "" {
      ZerosRead(k, d[..|d| - 1]);
      assert s[..|s| - 1] == Zeros(k) + d[..|d| - 1];
    } else if k > 0 {
      ZerosRead(k - 1, "");
      assert s[..|s| - 1] == Zeros(k - 1) + "";
    }
  }

  lemma {:induction false} AddDigit(k: nat, v: nat, d: nat) returns (m: nat)
    requires d < 10
    ensures Zeros(k) + Decimal(v) + [Digit(d)] == Zeros(m) + Decimal(10 * v + d)
  {
    if v == 0 {
      m := k + 1;
      assert Decimal(0) == ['0'] && Zeros(k) + ['0'] == Zeros(k + 1);
    } else {
      m := k;
      assert (10 * v + d) / 10 == v && (10 * v + d) % 10 == d;
    }
  }

  /** Digits are zeros and then the decimal of their value. */
  lemma {:induction false} DigitsAre(s: string) returns (k: nat)
    requires s != "" && AllDigits(s)
    ensures s == Zeros(k) + Decimal(Value(s))
  {
    var head, last := s[..|s| - 1], s[|s| - 1];
    assert s == head + [last];
    if head == "" {
      k := 0;
      assert Value(s) == DigitValue(last) && Zeros(0) + [last] == [last];
    } else {
      k := DigitsAre(head);
      k := AddDigit(k, Value(head), DigitValue(last));
    }
  }

  /** A number is read from its decimal, with any zeros in front, if it has 64 bits, and from no
      other text. */
  lemma {:induction false} ParseIff(s: string, n: nat)
    ensures ParseUint(s) == Some(n) <==> n < 0x1_0000_0000_0000_0000 && exists k: nat :: s == Zeros(k) + Decimal(n)
  {
    DecimalReads(n);
    if k: nat :| s == Zeros(k) + Decimal(n) { ZerosRead(k, Decimal(n)); }
    if ParseUint(s) == Some(n) { var k := DigitsAre(s); }
  }

  // ------------------------------------------------- fixed-width comparison

  function Pow10(w: nat): nat { if w == 0 then 1 else 10 * Pow10(w - 1) }

  function Fixed(n: nat, width: nat): (s: string)
    ensures |s| == width
  {
    if width == 0 then "" else Fixed(n / 10, width - 1) + [Digit(n % 10)]
  }

  lemma {:induction false} FixedZero(width: nat)
    ensures Fixed(0, width) == Zeros(width)
  {
    if width > 0 {
      FixedZero(width - 1);
      assert Digit(0) == '0';
    }
  }

  lemma {:induction false} ZeroPaddedIsFixed(n: nat, width: nat)
    requires width > 0 && n < Pow10(width)
    ensures |Decimal(n)| <= width && ZeroPadded(n, width) == Fixed(n, width)
  {
    if n < 10 {
      FixedZero(width - 1);
      assert Zeros(width - 1) + [Digit(n)] == Fixed(n, width);
      assert width == 1 ==> Zeros(0) == "";
    } else {
      assert width > 1;
      ZeroPaddedIsFixed(n / 10, width - 1);
      var d := Decimal(n / 10);
      assert Decimal(n) == d + [Digit(n % 10)];
      if |d| < width - 1 {
        assert Zeros(width - 1 - |d|) + d + [Digit(n % 10)] == Zeros(width - |Decimal(n)|) + Decimal(n);
      }
    }
  }

  lemma {:induction false} HeadDecides(c: char, x: string, d: char, y: string)
    ensures StrLess([c] + x, [d] + y) <==> c < d || (c == d && StrLess(x, y))
  {
    assert ([c] + x)[1..] == x && ([d] + y)[1..] == y;
  }

  /** Equal-width numerals compare as numbers, whatever text follows them. */
  lemma {:induction false} FixedOrder(a: nat, x: string, b: nat, y: string, width: nat)
    requires a < Pow10(width) && b < Pow10(width)
    ensures StrLess(Fixed(a, width) + x, Fixed(b, width) + y) <==> a < b || (a == b && StrLess(x, y))
    decreases width
  {
    if width == 0 {
      assert Fixed(a, 0) + x == x && Fixed(b, 0) + y == y;
    } else {
      var c, d := Digit(a % 10), Digit(b % 10);
      FixedOrder(a / 10, [c] + x, b / 10, [d] + y, width - 1);
      assert Fixed(a, width) + x == Fixed(a / 10, width - 1) + ([c] + x);
      assert Fixed(b, width) + y == Fixed(b / 10, width - 1) + ([d] + y);
      HeadDecides(c, x, d, y);
      assert c < d <==> a % 10 < b % 10;
    }
  }
}
