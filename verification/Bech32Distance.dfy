/** Three wrong symbols, however far apart in an address, are noticed. A symbol is an element of the
    field of 32 elements, and the checksum round respects multiplication in it: what a wrong symbol
    makes of the register is, up to a factor, fixed by its place, and the factor leaves the ratios
    of the register's symbols alone. */
module Bech32Distance {
  import opened Digits
  import opened LinearRegister
  import opened Bech32Checksum
  import opened Bech32

  const ADDRESS_SYMBOLS: nat := 38

  // ------------------------------------------------- the field of 32 elements

  /** The symbols of a word moved up a place without their top bits, and those top bits. */
  function Doubled(w: bv32): bv32 { (w & 0x1ef7bdef) << 1 }

  function Carry(w: bv32): bv32 { (w >> 4) & 0x2108421 }

  function HighCarry(w: bv32): bv32 { Carry(w) << 3 }

  function Half(w: bv32): bv32 { Doubled(w) ^ Carry(w) }

  /** Doubles each of the six symbols of a word, in the field modulo x^5 + x^3 + 1. */
  function Times(w: bv32): bv32 { Half(w) ^ HighCarry(w) }

  lemma {:induction false} DoubledLinear()
    ensures Linear(Doubled)
  {
  }

  lemma {:induction false} CarryLinear()
    ensures Linear(Carry)
  {
  }

  lemma {:induction false} HighCarryLinear()
    ensures Linear(HighCarry)
  {
  }

  lemma {:induction false} TimesAdditive()
    ensures Additive(Xor, Times)
  {
    DoubledLinear();
    LinearIsAdditive(Doubled);
    CarryLinear();
    LinearIsAdditive(Carry);
    TapAdditive(Doubled, Carry, Half);
    HighCarryLinear();
    LinearIsAdditive(HighCarry);
    TapAdditive(Half, HighCarry, Times);
  }

  lemma {:induction false} PartsShift(c: bv32)
    requires c < 0x2000000
    ensures Doubled(c << 5) == Doubled(c) << 5
    ensures Carry(c << 5) == Carry(c) << 5
    ensures HighCarry(c << 5) == HighCarry(c) << 5
  {
  }

  lemma {:induction false} ShiftXor(a: bv32, b: bv32)
    ensures (a ^ b) << 5 == (a << 5) ^ (b << 5)
  {
  }

  lemma {:induction false} TimesBelow(c: bv32)
    requires c < 0x2000000
    ensures Times(c) < 0x2000000
  {
  }

  lemma {:induction false} FeedBelow(c: bv32)
    requires c < 0x2000000
    ensures Feed(c) == c << 5
  {
  }

  lemma {:induction false} TimesShift(c: bv32)
    requires c < 0x2000000
    ensures Times(c << 5) == Times(c) << 5
  {
    PartsShift(c);
    ShiftXor(Doubled(c), Carry(c));
    ShiftXor(Half(c), HighCarry(c));
  }

  /** Below the top symbol both are plain, and commute. */
  lemma {:induction false} LowCommutes(feed: bv32 -> bv32, times: bv32 -> bv32, c: bv32)
    requires c < 0x2000000 && (forall x :: x < 0x2000000 ==> feed(x) == x << 5)
    requires forall x :: x < 0x2000000 ==> times(x) < 0x2000000 && times(x << 5) == times(x) << 5
    ensures feed(times(c)) == times(feed(c))
  {
  }

  lemma {:induction false} FeedPlain()
    ensures forall x :: x < 0x2000000 ==> Feed(x) == x << 5
  {
    forall x: bv32 | x < 0x2000000 ensures Feed(x) == x << 5 { FeedBelow(x); }
  }

  lemma {:induction false} TimesPlain()
    ensures forall x :: x < 0x2000000 ==> Times(x) < 0x2000000 && Times(x << 5) == Times(x) << 5
  {
    forall x: bv32 | x < 0x2000000 ensures Times(x) < 0x2000000 && Times(x << 5) == Times(x) << 5 {
      TimesBelow(x);
      TimesShift(x);
    }
  }

  lemma {:induction false} TimesFeedsLow(c: bv32)
    requires c < 0x2000000
    ensures Feed(Times(c)) == Times(Feed(c))
  {
    FeedPlain();
    TimesPlain();
    LowCommutes(Feed, Times, c);
  }

  lemma {:induction false} BothLinear(feed: bv32 -> bv32, times: bv32 -> bv32, a: bv32, b: bv32)
    requires (forall x, y :: AdditiveAt(Xor, feed, x, y)) && forall x, y :: AdditiveAt(Xor, times, x, y)
    requires feed(times(a)) == times(feed(a)) && feed(times(b)) == times(feed(b))
    ensures feed(times(Xor(a, b))) == times(feed(Xor(a, b)))
  {
    assert AdditiveAt(Xor, times, a, b) && AdditiveAt(Xor, feed, times(a), times(b));
    assert AdditiveAt(Xor, feed, a, b) && AdditiveAt(Xor, times, feed(a), feed(b));
  }

  lemma {:induction false} TopLow(t: bv32)
    requires t < 8
    ensures Feed(Times(t << 25)) == Times(Feed(t << 25))
  {
  }

  lemma {:induction false} TopHigh(t: bv32)
    requires t < 32 && t & 7 == 0
    ensures Feed(Times(t << 25)) == Times(Feed(t << 25))
  {
  }

  lemma {:induction false} TopParts(t: bv32, low: bv32, high: bv32)
    requires t < 32 && low == t & 7 && high == t & 24
    ensures low < 8 && high < 32 && high & 7 == 0 && t << 25 == Xor(low << 25, high << 25)
  {
  }

  lemma {:induction false} TimesFeedsTop(t: bv32)
    requires t < 32
    ensures Feed(Times(t << 25)) == Times(Feed(t << 25))
  {
    var low, high := t & 7, t & 24;
    TopParts(t, low, high);
    TopLow(low);
    TopHigh(high);
    FeedAdditive();
    TimesAdditive();
    BothLinear(Feed, Times, low << 25, high << 25);
  }

  lemma {:induction false} LowAndTop(c: bv32, low: bv32, t: bv32)
    requires Live(c) && low == c & 0x1ffffff && t == c >> 25
    ensures low < 0x2000000 && t < 32 && c == low ^ (t << 25)
  {
  }

  /** The round is linear over the field. */
  lemma {:induction false} TimesFeeds(c: bv32)
    requires Live(c)
    ensures Feed(Times(c)) == Times(Feed(c))
  {
    var low, t := c & 0x1ffffff, c >> 25;
    LowAndTop(c, low, t);
    TimesFeedsLow(low);
    TimesFeedsTop(t);
    FeedAdditive();
    TimesAdditive();
    BothLinear(Feed, Times, low, t << 25);
  }

  lemma {:induction false} TimesSmall(e: bv32)
    requires e < 32
    ensures Times(e) < 32
  {
  }

  /** Doubling runs through all symbols but 0. */
  ghost predicate Doubles(times: bv32 -> bv32) {
    times(1) == 2 && times(2) == 4 && times(4) == 8 && times(8) == 16 && times(16) == 9 && times(9) == 18 &&
    times(18) == 13 && times(13) == 26 && times(26) == 29 && times(29) == 19 && times(19) == 15 && times(15) == 30 &&
    times(30) == 21 && times(21) == 3 && times(3) == 6 && times(6) == 12 && times(12) == 24 && times(24) == 25 &&
    times(25) == 27 && times(27) == 31 && times(31) == 23 && times(23) == 7 && times(7) == 14 && times(14) == 28 &&
    times(28) == 17 && times(17) == 11 && times(11) == 22 && times(22) == 5 && times(5) == 10 && times(10) == 20 &&
    times(20) == 1
  }

  lemma {:induction false} DoublesBy(times: bv32 -> bv32)
    requires forall x :: times(x) == ((x & 0x1ef7bdef) << 1) ^ ((x >> 4) & 0x2108421) ^ (((x >> 4) & 0x2108421) << 3)
    ensures Doubles(times)
  {
  }

  lemma {:induction false} TimesDoubles()
    ensures Doubles(Times)
  {
    DoublesBy(Times);
  }

  ghost predicate StepsOn(bad: bv32 -> bool, times: bv32 -> bv32, e: bv32) { bad(e) ==> bad(times(e)) }

  lemma {:induction false} Symbols31(e: bv32)
    requires 0 < e < 32
    ensures e in {1, 2, 3, 4, 5, 6, 7, 8, 9, 10, 11, 12, 13, 14, 15, 16, 17, 18, 19, 20, 21, 22, 23, 24, 25, 26, 27, 28,
      29, 30, 31}
  {
  }

  predicate Leads(bad: bv32 -> bool, a: bv32, b: bv32) { bad(a) ==> bad(b) }

  lemma {:induction false} FirstSteps(bad: bv32 -> bool, times: bv32 -> bv32)
    requires Doubles(times) && forall x :: x < 32 ==> StepsOn(bad, times, x)
    ensures Leads(bad, 6, 12) && Leads(bad, 3, 6) && Leads(bad, 21, 3) && Leads(bad, 30, 21) && Leads(bad, 15, 30)
    ensures Leads(bad, 19, 15) && Leads(bad, 29, 19) && Leads(bad, 26, 29) && Leads(bad, 13, 26) && Leads(bad, 18, 13)
    ensures Leads(bad, 9, 18) && Leads(bad, 16, 9) && Leads(bad, 8, 16) && Leads(bad, 4, 8) && Leads(bad, 2, 4)
  {
    assert StepsOn(bad, times, 6) && StepsOn(bad, times, 3) && StepsOn(bad, times, 21) && StepsOn(bad, times, 30);
    assert StepsOn(bad, times, 15) && StepsOn(bad, times, 19) && StepsOn(bad, times, 29) && StepsOn(bad, times, 26);
    assert StepsOn(bad, times, 13) && StepsOn(bad, times, 18) && StepsOn(bad, times, 9) && StepsOn(bad, times, 16);
    assert StepsOn(bad, times, 8) && StepsOn(bad, times, 4) && StepsOn(bad, times, 2);
  }

  lemma {:induction false} LastSteps(bad: bv32 -> bool, times: bv32 -> bv32)
    requires Doubles(times) && forall x :: x < 32 ==> StepsOn(bad, times, x)
    ensures Leads(bad, 20, 1) && Leads(bad, 10, 20) && Leads(bad, 5, 10) && Leads(bad, 22, 5) && Leads(bad, 11, 22)
    ensures Leads(bad, 17, 11) && Leads(bad, 28, 17) && Leads(bad, 14, 28) && Leads(bad, 7, 14) && Leads(bad, 23, 7)
    ensures Leads(bad, 31, 23) && Leads(bad, 27, 31) && Leads(bad, 25, 27) && Leads(bad, 24, 25) && Leads(bad, 12, 24)
  {
    assert StepsOn(bad, times, 20) && StepsOn(bad, times, 10) && StepsOn(bad, times, 5) && StepsOn(bad, times, 22);
    assert StepsOn(bad, times, 11) && StepsOn(bad, times, 17) && StepsOn(bad, times, 28) && StepsOn(bad, times, 14);
    assert StepsOn(bad, times, 7) && StepsOn(bad, times, 23) && StepsOn(bad, times, 31) && StepsOn(bad, times, 27);
    assert StepsOn(bad, times, 25) && StepsOn(bad, times, 24) && StepsOn(bad, times, 12);
  }

  /** So it leads from every symbol but 0 to 1. */
  lemma {:induction false} DownToOne(bad: bv32 -> bool, times: bv32 -> bv32, e: bv32)
    requires Doubles(times) && (forall x :: x < 32 ==> StepsOn(bad, times, x)) && 0 < e < 32 && bad(e)
    ensures bad(1)
  {
    Symbols31(e);
    FirstSteps(bad, times);
    LastSteps(bad, times);
  }

  // ------------------------------------------- what a factor leaves alone

  /** How often 1 is doubled to give the symbol. */
  function Log(s: bv32): int {
    if s < 8 then
      if s == 1 then 0 else if s == 2 then 1 else if s == 3 then 14 else if s == 4 then 2 else if s == 5 then 28 else
      if s == 6 then 15 else if s == 7 then 22 else 31
    else if s < 16 then
      if s == 8 then 3 else if s == 9 then 5 else if s == 10 then 29 else if s == 11 then 26 else
      if s == 12 then 16 else if s == 13 then 7 else if s == 14 then 23 else 11
    else if s < 24 then
      if s == 16 then 4 else if s == 17 then 25 else if s == 18 then 6 else if s == 19 then 10 else
      if s == 20 then 30 else if s == 21 then 13 else if s == 22 then 27 else 21
    else
      if s == 24 then 17 else if s == 25 then 18 else if s == 26 then 8 else if s == 27 then 19 else
      if s == 28 then 24 else if s == 29 then 9 else if s == 30 then 12 else if s == 31 then 20 else 31
  }

  ghost predicate IsLog(log: bv32 -> int) {
    log(1) == 0 && log(2) == 1 && log(4) == 2 && log(8) == 3 && log(16) == 4 && log(9) == 5 && log(18) == 6 &&
    log(13) == 7 && log(26) == 8 && log(29) == 9 && log(19) == 10 && log(15) == 11 && log(30) == 12 &&
    log(21) == 13 && log(3) == 14 && log(6) == 15 && log(12) == 16 && log(24) == 17 && log(25) == 18 &&
    log(27) == 19 && log(31) == 20 && log(23) == 21 && log(7) == 22 && log(14) == 23 && log(28) == 24 &&
    log(17) == 25 && log(11) == 26 && log(22) == 27 && log(5) == 28 && log(10) == 29 && log(20) == 30
  }

  lemma {:induction false} LogIs()
    ensures IsLog(Log)
  {
  }

  ghost predicate LogStep(log: bv32 -> int, times: bv32 -> bv32, s: bv32) {
    if s == 0 then times(s) == 0 else times(s) != 0 && 0 <= log(s) < 31 && log(times(s)) == (log(s) + 1) % 31
  }

  lemma {:induction false} LogTimes(log: bv32 -> int, times: bv32 -> bv32, s: bv32)
    requires IsLog(log) && Doubles(times) && times(0) == 0 && s < 32
    ensures LogStep(log, times, s)
  {
    if s != 0 { Symbols31(s); }
  }

  /** The quotient of two symbols, as a logarithm; the last three values are for zeros. */
  function Ratio(log: bv32 -> int, a: bv32, b: bv32): int {
    if a == 0 then (if b == 0 then 33 else 31) else if b == 0 then 32 else (log(a) - log(b)) % 31
  }

  lemma {:induction false} RatioTimes(log: bv32 -> int, times: bv32 -> bv32, a: bv32, b: bv32)
    requires LogStep(log, times, a) && LogStep(log, times, b)
    ensures Ratio(log, times(a), times(b)) == Ratio(log, a, b)
  {
    if a != 0 && b != 0 { QuotientStep(log(a), log(b)); }
  }

  lemma {:induction false} QuotientStep(x: int, y: int)
    requires 0 <= x < 31 && 0 <= y < 31
    ensures ((x + 1) % 31 - (y + 1) % 31) % 31 == (x - y) % 31
  {
    assert (x + 1) % 31 == (if x == 30 then 0 else x + 1) && (y + 1) % 31 == (if y == 30 then 0 else y + 1);
  }

  /** Sums of two symbols of a word, none of them the lowest. */
  function PartA(w: bv32): (r: bv32)
    ensures r < 32
  {
    ((w >> 5) ^ (w >> 15)) & 31
  }

  function PartB(w: bv32): (r: bv32)
    ensures r < 32
  {
    ((w >> 5) ^ (w >> 25)) & 31
  }

  function PartC(w: bv32): (r: bv32)
    ensures r < 32
  {
    ((w >> 10) ^ (w >> 15)) & 31
  }

  function PartD(w: bv32): (r: bv32)
    ensures r < 32
  {
    ((w >> 20) ^ (w >> 25)) & 31
  }

  /** Two quotients of such sums. */
  function Mark(log: bv32 -> int, w: bv32): int {
    Ratio(log, ((w >> 5) ^ (w >> 15)) & 31, ((w >> 5) ^ (w >> 25)) & 31) * 34 +
    Ratio(log, ((w >> 10) ^ (w >> 15)) & 31, ((w >> 20) ^ (w >> 25)) & 31)
  }

  lemma {:induction false} PartATimes(w: bv32)
    ensures PartA(Times(w)) == Times(PartA(w))
  {
  }

  lemma {:induction false} PartBTimes(w: bv32)
    ensures PartB(Times(w)) == Times(PartB(w))
  {
  }

  lemma {:induction false} PartCTimes(w: bv32)
    ensures PartC(Times(w)) == Times(PartC(w))
  {
  }

  lemma {:induction false} PartDTimes(w: bv32)
    ensures PartD(Times(w)) == Times(PartD(w))
  {
  }

  lemma {:induction false} MarkStep(log: bv32 -> int, times: bv32 -> bv32, v: bv32, w: bv32)
    requires LogStep(log, times, PartA(w)) && LogStep(log, times, PartB(w))
    requires LogStep(log, times, PartC(w)) && LogStep(log, times, PartD(w))
    requires PartA(v) == times(PartA(w)) && PartB(v) == times(PartB(w))
    requires PartC(v) == times(PartC(w)) && PartD(v) == times(PartD(w))
    ensures Mark(log, v) == Mark(log, w)
  {
    RatioTimes(log, times, PartA(w), PartB(w));
    RatioTimes(log, times, PartC(w), PartD(w));
    MarkByParts(log, v);
    MarkByParts(log, w);
  }

  lemma {:induction false} MarkByParts(log: bv32 -> int, w: bv32)
    ensures Mark(log, w) == Ratio(log, PartA(w), PartB(w)) * 34 + Ratio(log, PartC(w), PartD(w))
  {
  }

  /** Doubling a word does not change its mark. */
  lemma {:induction false} MarkTimes(log: bv32 -> int, w: bv32)
    requires IsLog(log)
    ensures Mark(log, Times(w)) == Mark(log, w)
  {
    TimesDoubles();
    PartATimes(w);
    PartBTimes(w);
    PartCTimes(w);
    PartDTimes(w);
    LogTimes(log, Times, PartA(w));
    LogTimes(log, Times, PartB(w));
    LogTimes(log, Times, PartC(w));
    LogTimes(log, Times, PartD(w));
    MarkStep(log, Times, Times(w), w);
  }

  lemma {:induction false} PartAHigh(v: bv32, w: bv32)
    requires v ^ w < 32
    ensures PartA(v) == PartA(w)
  {
  }

  lemma {:induction false} PartBHigh(v: bv32, w: bv32)
    requires v ^ w < 32
    ensures PartB(v) == PartB(w)
  {
  }

  lemma {:induction false} PartCHigh(v: bv32, w: bv32)
    requires v ^ w < 32
    ensures PartC(v) == PartC(w)
  {
  }

  lemma {:induction false} PartDHigh(v: bv32, w: bv32)
    requires v ^ w < 32
    ensures PartD(v) == PartD(w)
  {
  }

  /** Nor does a change of its lowest symbol. */
  lemma {:induction false} MarkHigh(log: bv32 -> int, v: bv32, w: bv32)
    requires v ^ w < 32
    ensures Mark(log, v) == Mark(log, w)
  {
    PartAHigh(v, w);
    PartBHigh(v, w);
    PartCHigh(v, w);
    PartDHigh(v, w);
    MarkByParts(log, v);
    MarkByParts(log, w);
  }

  // ------------------------------------------------- a symbol on its own

  /** What `n` empty rounds make of a register. */
  function Fed(c: bv32, n: nat): bv32 { if n == 0 then c else Feed(Fed(c, n - 1)) }

  lemma {:induction false} FedIsShift(g: Register<bv32>, c: bv32, n: nat)
    requires g == Polymod()
    ensures Shift(g, c, Blank(g, n)) == Fed(c, n)
  {
    if n > 0 {
      FedIsShift(g, c, n - 1);
      assert Blank(g, n)[..n - 1] == Blank(g, n - 1);
      assert Xor(Fed(c, n), 0) == Fed(c, n);
    }
  }

  lemma {:induction false} FedTimes(c: bv32, n: nat)
    requires Live(c)
    ensures Fed(Times(c), n) == Times(Fed(c, n)) && Live(Fed(c, n))
  {
    if n > 0 {
      FedTimes(c, n - 1);
      TimesFeeds(Fed(c, n - 1));
      FeedLive(Fed(c, n - 1));
    }
  }

  lemma {:induction false} FedZero(n: nat)
    ensures Fed(0, n) == 0
  {
    if n > 0 {
      FedZero(n - 1);
      assert Feed(0) == 0;
    }
  }

  // ------------------------------------------------- marks tell places

  ghost predicate FollowsAt(word: nat -> bv32, n: nat) { word(n + 1) == Feed(word(n)) }

  lemma {:induction false} FedNext(word: nat -> bv32, n: nat, c: bv32, d: bv32)
    requires FollowsAt(word, n) && word(n) == c && Feed(c) == d
    ensures word(n + 1) == d
  {
  }

  /** What the symbol 1 becomes, place by place. */
  ghost predicate WordsFrom0(word: nat -> bv32) {
    word(0) == 0x1 && word(1) == 0x20 && word(2) == 0x400 && word(3) == 0x8000 && word(4) == 0x100000 &&
    word(5) == 0x2000000 && word(6) == 0x3b6a57b2 && word(7) == 0x1fd7e966 && word(8) == 0x424df38 &&
    word(9) == 0x22cb696d && word(10) == 0x81318a1
  }

  ghost predicate WordsFrom10(word: nat -> bv32) {
    word(10) == 0x81318a1 && word(11) == 0x1cc20dda && word(12) == 0x1df21f0a && word(13) == 0x3bf0450a &&
    word(14) == 0xc95be66 && word(15) == 0x2a465b57 && word(16) == 0x714461b && word(17) == 0x3fb21abf &&
    word(18) == 0x228ec6ab && word(19) == 0xa6e061
  }

  ghost predicate WordsFrom19(word: nat -> bv32) {
    word(19) == 0xa6e061 && word(20) == 0x14dc0c20 && word(21) == 0x9339b0 && word(22) == 0x12673600 &&
    word(23) == 0xacea46f && word(24) == 0x3c1fc3a8 && word(25) == 0x2c5fb3f9 && word(26) == 0x19138a04 &&
    word(27) == 0x1926aa7 && word(28) == 0x324d54e0
  }

  ghost predicate WordsFrom28(word: nat -> bv32) {
    word(28) == 0x324d54e0 && word(29) == 0x25969adc && word(30) == 0x3e97b75e && word(31) == 0x63b7a8b &&
    word(32) == 0x1a5588bf && word(33) == 0x12386a75 && word(34) == 0x1252acf && word(35) == 0x24a559e0 &&
    word(36) == 0x18efd0de && word(37) == 0x3e1931e7
  }

  lemma {:induction false} WordsTo10(word: nat -> bv32)
    requires word(0) == 0x1 && forall n: nat :: FollowsAt(word, n)
    ensures WordsFrom0(word)
  {
    FedNext(word, 0, 0x1, 0x20); FedNext(word, 1, 0x20, 0x400); FedNext(word, 2, 0x400, 0x8000);
    FedNext(word, 3, 0x8000, 0x100000); FedNext(word, 4, 0x100000, 0x2000000);
    FedNext(word, 5, 0x2000000, 0x3b6a57b2); FedNext(word, 6, 0x3b6a57b2, 0x1fd7e966);
    FedNext(word, 7, 0x1fd7e966, 0x424df38); FedNext(word, 8, 0x424df38, 0x22cb696d);
    FedNext(word, 9, 0x22cb696d, 0x81318a1);
  }

  lemma {:induction false} WordsTo19(word: nat -> bv32)
    requires word(10) == 0x81318a1 && forall n: nat :: FollowsAt(word, n)
    ensures WordsFrom10(word)
  {
    FedNext(word, 10, 0x81318a1, 0x1cc20dda); FedNext(word, 11, 0x1cc20dda, 0x1df21f0a);
    FedNext(word, 12, 0x1df21f0a, 0x3bf0450a); FedNext(word, 13, 0x3bf0450a, 0xc95be66);
    FedNext(word, 14, 0xc95be66, 0x2a465b57); FedNext(word, 15, 0x2a465b57, 0x714461b);
    FedNext(word, 16, 0x714461b, 0x3fb21abf); FedNext(word, 17, 0x3fb21abf, 0x228ec6ab);
    FedNext(word, 18, 0x228ec6ab, 0xa6e061);
  }

  lemma {:induction false} WordsTo28(word: nat -> bv32)
    requires word(19) == 0xa6e061 && forall n: nat :: FollowsAt(word, n)
    ensures WordsFrom19(word)
  {
    FedNext(word, 19, 0xa6e061, 0x14dc0c20); FedNext(word, 20, 0x14dc0c20, 0x9339b0);
    FedNext(word, 21, 0x9339b0, 0x12673600); FedNext(word, 22, 0x12673600, 0xacea46f);
    FedNext(word, 23, 0xacea46f, 0x3c1fc3a8); FedNext(word, 24, 0x3c1fc3a8, 0x2c5fb3f9);
    FedNext(word, 25, 0x2c5fb3f9, 0x19138a04); FedNext(word, 26, 0x19138a04, 0x1926aa7);
    FedNext(word, 27, 0x1926aa7, 0x324d54e0);
  }

  lemma {:induction false} WordsTo37(word: nat -> bv32)
    requires word(28) == 0x324d54e0 && forall n: nat :: FollowsAt(word, n)
    ensures WordsFrom28(word)
  {
    FedNext(word, 28, 0x324d54e0, 0x25969adc); FedNext(word, 29, 0x25969adc, 0x3e97b75e);
    FedNext(word, 30, 0x3e97b75e, 0x63b7a8b); FedNext(word, 31, 0x63b7a8b, 0x1a5588bf);
    FedNext(word, 32, 0x1a5588bf, 0x12386a75); FedNext(word, 33, 0x12386a75, 0x1252acf);
    FedNext(word, 34, 0x1252acf, 0x24a559e0); FedNext(word, 35, 0x24a559e0, 0x18efd0de);
    FedNext(word, 36, 0x18efd0de, 0x3e1931e7);
  }

  /** The marks of these words. */
  ghost predicate Marked(at: nat -> int) {
    at(0) == 1155 && at(1) == 33 && at(2) == 1154 && at(3) == 1120 && at(4) == 1153 && at(5) == 1085 &&
    at(6) == 1093 && at(7) == 7 && at(8) == 576 && at(9) == 41 && at(10) == 507 && at(11) == 1109 && at(12) == 972 &&
    at(13) == 738 && at(14) == 158 && at(15) == 558 && at(16) == 250 && at(17) == 948 && at(18) == 63 &&
    at(19) == 321 && at(20) == 810 && at(21) == 675 && at(22) == 853 && at(23) == 977 && at(24) == 634 &&
    at(25) == 1054 && at(26) == 971 && at(27) == 433 && at(28) == 954 && at(29) == 578 && at(30) == 549 &&
    at(31) == 406 && at(32) == 682 && at(33) == 204 && at(34) == 983 && at(35) == 653 && at(36) == 705 &&
    at(37) == 170
  }

  lemma {:induction false} MarksFrom0(log: bv32 -> int)
    requires IsLog(log)
    ensures Mark(log, 0x1) == 1155 && Mark(log, 0x20) == 33 && Mark(log, 0x400) == 1154
    ensures Mark(log, 0x8000) == 1120 && Mark(log, 0x100000) == 1153 && Mark(log, 0x2000000) == 1085
    ensures Mark(log, 0x3b6a57b2) == 1093 && Mark(log, 0x1fd7e966) == 7 && Mark(log, 0x424df38) == 576
    ensures Mark(log, 0x22cb696d) == 41 && Mark(log, 0x81318a1) == 507 && Mark(log, 0x1cc20dda) == 1109
    ensures Mark(log, 0x1df21f0a) == 972
  {
  }

  lemma {:induction false} MarksFrom13(log: bv32 -> int)
    requires IsLog(log)
    ensures Mark(log, 0x3bf0450a) == 738 && Mark(log, 0xc95be66) == 158 && Mark(log, 0x2a465b57) == 558
    ensures Mark(log, 0x714461b) == 250 && Mark(log, 0x3fb21abf) == 948 && Mark(log, 0x228ec6ab) == 63
    ensures Mark(log, 0xa6e061) == 321 && Mark(log, 0x14dc0c20) == 810 && Mark(log, 0x9339b0) == 675
    ensures Mark(log, 0x12673600) == 853 && Mark(log, 0xacea46f) == 977 && Mark(log, 0x3c1fc3a8) == 634
    ensures Mark(log, 0x2c5fb3f9) == 1054
  {
  }

  lemma {:induction false} MarksFrom26(log: bv32 -> int)
    requires IsLog(log)
    ensures Mark(log, 0x19138a04) == 971 && Mark(log, 0x1926aa7) == 433 && Mark(log, 0x324d54e0) == 954
    ensures Mark(log, 0x25969adc) == 578 && Mark(log, 0x3e97b75e) == 549 && Mark(log, 0x63b7a8b) == 406
    ensures Mark(log, 0x1a5588bf) == 682 && Mark(log, 0x12386a75) == 204 && Mark(log, 0x1252acf) == 983
    ensures Mark(log, 0x24a559e0) == 653 && Mark(log, 0x18efd0de) == 705 && Mark(log, 0x3e1931e7) == 170
  {
  }

  lemma {:induction false} AllMarked(word: nat -> bv32, log: bv32 -> int, at: nat -> int)
    requires WordsFrom0(word) && WordsFrom10(word) && WordsFrom19(word) && WordsFrom28(word)
    requires IsLog(log) && forall n: nat :: at(n) == Mark(log, word(n))
    ensures Marked(at)
  {
    MarksFrom0(log);
    MarksFrom13(log);
    MarksFrom26(log);
  }

  lemma {:induction false} MarksApart(at: nat -> int, m: nat, n: nat)
    requires Marked(at) && m < n < ADDRESS_SYMBOLS
    ensures at(m) != at(n)
  {
  }

  /** Within the length of an address no two places have the same mark. */
  lemma {:induction false} PlacesApart(m: nat, n: nat)
    requires m < n < ADDRESS_SYMBOLS
    ensures Mark(Log, Fed(1, m)) != Mark(Log, Fed(1, n))
  {
    var word, at := (k: nat) => Fed(1, k), (k: nat) => Mark(Log, Fed(1, k));
    forall k: nat ensures FollowsAt(word, k) {}
    WordsTo10(word);
    WordsTo19(word);
    WordsTo28(word);
    WordsTo37(word);
    LogIs();
    AllMarked(word, Log, at);
    MarksApart(at, m, n);
  }

  /** What a symbol but 0 makes of the register has the mark of its place, and 0 that of place 0. */
  lemma {:induction false} MarkTells(e: bv32, n: nat)
    requires e < 32
    ensures Mark(Log, Fed(e, n)) == Mark(Log, Fed(1, if e == 0 then 0 else n))
  {
    if e == 0 {
      FedZero(n);
      MarkHigh(Log, 0, 1);
    } else {
      var bad := (x: bv32) => x < 32 && Mark(Log, Fed(x, n)) == Mark(Log, Fed(e, n));
      forall x: bv32 | x < 32 ensures StepsOn(bad, Times, x) {
        FedTimes(x, n);
        TimesSmall(x);
        LogIs();
        MarkTimes(Log, Fed(x, n));
      }
      TimesDoubles();
      DownToOne(bad, Times, e);
    }
  }

  /** No three symbols at different places of an address cancel. */
  lemma {:induction false} NoThreeCancel(a: bv32, n: nat, b: bv32, m: nat, c: bv32)
    requires a < 32 && b < 32 && c < 32 && 0 < m < n < ADDRESS_SYMBOLS && Fed(a, n) ^ Fed(b, m) == c
    ensures a == b == c == 0
  {
    MarkHigh(Log, Fed(a, n), Fed(b, m));
    MarkTells(a, n);
    MarkTells(b, m);
    PlacesApart(m, n);
    PlacesApart(0, n);
    PlacesApart(0, m);
    FedZero(n);
    FedZero(m);
  }

  // ------------------------------------------------------ three symbols

  lemma {:induction false} FeedXor(a: bv32, b: bv32)
    ensures Feed(Xor(a, b)) == Xor(Feed(a), Feed(b))
  {
    FeedAdditive();
    assert AdditiveAt(Xor, Feed, a, b);
  }

  lemma {:induction false} FedXor(a: bv32, b: bv32, n: nat)
    ensures Fed(Xor(a, b), n) == Xor(Fed(a, n), Fed(b, n))
  {
    if n > 0 {
      FedXor(a, b, n - 1);
      FeedXor(Fed(a, n - 1), Fed(b, n - 1));
    }
  }

  lemma {:induction false} FedFed(a: bv32, m: nat, n: nat)
    ensures Fed(Fed(a, m), n) == Fed(a, m + n)
  {
    if n > 0 { FedFed(a, m, n - 1); }
  }

  /** A stretch of rounds and one more symbol. */
  function After(c: bv32, n: nat, e: bv32): bv32 { Xor(Fed(c, n), e) }

  lemma {:induction false} AfterAfter(a: bv32, k: nat, b: bv32, m: nat, c: bv32)
    ensures After(After(a, k, b), m, c) == Xor(Xor(Fed(a, k + m), Fed(b, m)), c)
  {
    FedXor(Fed(a, k), b, m);
    FedFed(a, k, m);
  }

  lemma {:induction false} GapStep(g: Register<bv32>, c: bv32, n: nat, e: bv32)
    requires g == Polymod()
    ensures Shift(g, c, Blank(g, n) + [e]) == After(c, n + 1, e)
  {
    FedIsShift(g, c, n);
    ShiftNext(g, c, Blank(g, n), e);
  }

  lemma {:induction false} ShiftThree<T>(g: Register<T>, r: T, x: seq<T>, y: seq<T>, z: seq<T>)
    ensures Shift(g, r, x + y + z) == Shift(g, Shift(g, Shift(g, r, x), y), z)
  {
    ShiftSplit(g, r, x + y, z);
    ShiftSplit(g, r, x, y);
  }

  /** What three symbols among zeros make of the register. */
  lemma {:induction false} ThreeShift(g: Register<bv32>, a: bv32, k: nat, b: bv32, m: nat, c: bv32)
    requires g == Polymod() && Sound(g)
    ensures Shift(g, g.zero, Between(a, Blank(g, k), b, Blank(g, m), c)) == After(After(a, k + 1, b), m + 1, c)
  {
    FirstIn(g, a);
    ShiftThree(g, g.zero, [a], Blank(g, k) + [b], Blank(g, m) + [c]);
    GapStep(g, a, k, b);
    GapStep(g, After(a, k + 1, b), m, c);
  }

  lemma {:induction false} FirstIn<T(!new)>(g: Register<T>, c: T)
    requires Sound(g)
    ensures Shift(g, g.zero, [c]) == c
  {
    assert AdditiveAt(g.add, g.feed, g.zero, g.zero);
    assert [c][..0] == [];
  }

  lemma {:induction false} XorSmall(a: bv32, b: bv32)
    requires a < 32 && b < 32
    ensures Xor(a, b) < 32 && (Xor(a, b) == 0 <==> a == b)
  {
  }

  /** Two strings that agree but for three symbols, side by side. */
  function Between<T>(a: T, left: seq<T>, b: T, right: seq<T>, c: T): seq<T> {
    [a] + (left + [b]) + (right + [c])
  }

  lemma {:induction false} SumAppend<T>(g: Register<T>, a: seq<T>, b: seq<T>, c: seq<T>, d: seq<T>)
    requires |a| == |c| && |b| == |d|
    ensures Sum(g, a + b, c + d) == Sum(g, a, c) + Sum(g, b, d)
  {
  }

  lemma {:induction false} SumSame<T(!new)>(g: Register<T>, s: seq<T>)
    requires Sound(g)
    ensures Sum(g, s, s) == Blank(g, |s|)
  {
    forall i | 0 <= i < |s| ensures g.add(s[i], s[i]) == g.zero { Cancel(g, s[i], s[i], g.zero); }
  }

  lemma {:induction false} StretchSum<T(!new)>(g: Register<T>, s: seq<T>, a: T, b: T)
    requires Sound(g)
    ensures Sum(g, s + [a], s + [b]) == Blank(g, |s|) + [g.add(a, b)]
  {
    SumAppend(g, s, [a], s, [b]);
    SumSame(g, s);
  }

  lemma {:induction false} BetweenSum<T(!new)>(g: Register<T>, a: T, a': T, left: seq<T>, b: T, b': T, right: seq<T>,
      c: T, c': T)
    requires Sound(g)
    ensures Sum(g, Between(a, left, b, right, c), Between(a', left, b', right, c')) ==
      Between(g.add(a, a'), Blank(g, |left|), g.add(b, b'), Blank(g, |right|), g.add(c, c'))
  {
    SumAppend(g, [a] + (left + [b]), right + [c], [a'] + (left + [b']), right + [c']);
    SumAppend(g, [a], left + [b], [a'], left + [b']);
    StretchSum(g, left, b, b');
    StretchSum(g, right, c, c');
  }

  /** Strings that leave the same pattern differ by one that leaves none. */
  lemma {:induction false} DifferenceVanishes<T(!new)>(g: Register<T>, x: seq<T>, y: seq<T>)
    requires Sound(g) && |x| == |y| && Shift(g, g.zero, x) == Shift(g, g.zero, y)
    ensures Shift(g, g.zero, Sum(g, x, y)) == g.zero
  {
    ShiftSum(g, g.zero, g.zero, x, y);
    Cancel(g, Shift(g, g.zero, x), Shift(g, g.zero, y), g.zero);
    Cancel(g, g.zero, g.zero, g.zero);
  }

  lemma {:induction false} ThreeVanish(g: Register<bv32>, a: bv32, a': bv32, left: seq<bv32>, b: bv32, b': bv32,
      right: seq<bv32>, c: bv32, c': bv32)
    requires g == Polymod() && Sound(g)
    requires Shift(g, g.zero, Between(a, left, b, right, c)) == Shift(g, g.zero, Between(a', left, b', right, c'))
    ensures After(After(Xor(a, a'), |left| + 1, Xor(b, b')), |right| + 1, Xor(c, c')) == 0
  {
    DifferenceVanishes(g, Between(a, left, b, right, c), Between(a', left, b', right, c'));
    BetweenSum(g, a, a', left, b, b', right, c, c');
    ThreeShift(g, Xor(a, a'), |left|, Xor(b, b'), |right|, Xor(c, c'));
  }

  lemma {:induction false} XorZero(a: bv32, b: bv32)
    requires Xor(a, b) == 0
    ensures a == b
  {
  }

  lemma {:induction false} DifferencesZero(a: bv32, k: nat, b: bv32, m: nat, c: bv32)
    requires a < 32 && b < 32 && c < 32 && 0 < k && 0 < m && k + m < ADDRESS_SYMBOLS
    requires After(After(a, k, b), m, c) == 0
    ensures a == b == c == 0
  {
    AfterAfter(a, k, b, m, c);
    XorZero(Xor(Fed(a, k + m), Fed(b, m)), c);
    NoThreeCancel(a, k + m, b, m, c);
  }

  lemma {:induction false} ThreeSame(a: bv32, a': bv32, left: seq<bv32>, b: bv32, b': bv32, right: seq<bv32>, c: bv32,
      c': bv32)
    requires a < 32 && a' < 32 && b < 32 && b' < 32 && c < 32 && c' < 32 && |left| + |right| + 2 < ADDRESS_SYMBOLS
    requires Shift(Polymod(), 0, Between(a, left, b, right, c)) == Shift(Polymod(), 0, Between(a', left, b', right, c'))
    ensures a == a' && b == b' && c == c'
  {
    PolymodSound();
    ThreeVanish(Polymod(), a, a', left, b, b', right, c, c');
    XorSmall(a, a');
    XorSmall(b, b');
    XorSmall(c, c');
    DifferencesZero(Xor(a, a'), |left| + 1, Xor(b, b'), |right| + 1, Xor(c, c'));
  }

  lemma {:induction false} WindowPattern(before: seq<nat>, x: seq<nat>, y: seq<nat>, after: seq<nat>)
    requires Octets(before) && Octets(x) && Octets(y) && Octets(after) && |x| == |y|
    requires Remainder(before + x + after) == Remainder(before + y + after)
    ensures Shift(Polymod(), 0, Words(x)) == Shift(Polymod(), 0, Words(y))
  {
    forall s | s == x || s == y ensures Words(before + s + after) == Words(before) + Words(s) + Words(after) {
      WordsAppend(before + s, after);
      WordsAppend(before, s);
    }
    WordsLive(before);
    WordsLive(x);
    WordsLive(y);
    WordsLive(after);
    PolymodSound();
    PolymodFaithful();
    WindowDecides(Polymod(), Live, 1, Words(before), Words(x), Words(y), Words(after));
  }

  lemma {:induction false} WordsBetween(a: nat, left: seq<nat>, b: nat, right: seq<nat>, c: nat)
    requires a < 32 && Octets(left) && b < 32 && Octets(right) && c < 32
    ensures Octets(Between(a, left, b, right, c))
    ensures Words(Between(a, left, b, right, c)) == Between(Word(a), Words(left), Word(b), Words(right), Word(c))
  {
  }

  lemma {:induction false} WordSame(a: nat, b: nat)
    requires a < 32 && b < 32 && Word(a) == Word(b)
    ensures a == b
  {
    SymbolOfWord(a);
    SymbolOfWord(b);
  }

  lemma {:induction false} WindowThree(before: seq<nat>, a: nat, a': nat, left: seq<nat>, b: nat, b': nat,
      right: seq<nat>, c: nat, c': nat, after: seq<nat>)
    requires Octets(before) && Octets(left) && Octets(right) && Octets(after)
    requires a < 32 && a' < 32 && b < 32 && b' < 32 && c < 32 && c' < 32 && |left| + |right| + 2 < ADDRESS_SYMBOLS
    requires Octets(Between(a, left, b, right, c)) && Octets(Between(a', left, b', right, c'))
    requires Remainder(before + Between(a, left, b, right, c) + after) ==
      Remainder(before + Between(a', left, b', right, c') + after)
    ensures a == a' && b == b' && c == c'
  {
    WindowPattern(before, Between(a, left, b, right, c), Between(a', left, b', right, c'), after);
    WordsBetween(a, left, b, right, c);
    WordsBetween(a', left, b', right, c');
    forall e | e in {a, a', b, b', c, c'} ensures Word(e) < 32 { SymbolOfWord(e); }
    ThreeSame(Word(a), Word(a'), Words(left), Word(b), Word(b'), Words(right), Word(c), Word(c'));
    WordSame(a, a');
    WordSame(b, b');
    WordSame(c, c');
  }

  predicate AgreeBut<T(==)>(x: seq<T>, y: seq<T>, p: int, q: int, r: int) {
    |x| == |y| && forall i :: 0 <= i < |x| && i != p && i != q && i != r ==> x[i] == y[i]
  }

  lemma {:induction false} CutAt(h: seq<nat>, x: seq<nat>, p: nat, q: nat, r: nat)
    requires p < q < r < |x|
    ensures h + x == (h + x[..p]) + Between(x[p], x[p + 1..q], x[q], x[q + 1..r], x[r]) + x[r + 1..]
  {
    assert x == x[..p] + Between(x[p], x[p + 1..q], x[q], x[q + 1..r], x[r]) + x[r + 1..];
  }

  lemma {:induction false} SlicesAgree(x: seq<nat>, y: seq<nat>, p: nat, q: nat, r: nat)
    requires AgreeBut(x, y, p, q, r) && p < q < r < |x|
    ensures y[..p] == x[..p] && y[p + 1..q] == x[p + 1..q] && y[q + 1..r] == x[q + 1..r] && y[r + 1..] == x[r + 1..]
  {
  }

  /** Two symbol strings that verify and agree but for three places, nearer to each other than the
      length of an address, are equal. */
  lemma {:induction false} ThreeDetected(prefix: string, x: seq<nat>, y: seq<nat>, p: nat, q: nat, r: nat)
    requires FiveBit(x) && FiveBit(y) && AgreeBut(x, y, p, q, r) && p < q < r < |x| && r - p < ADDRESS_SYMBOLS
    requires Verify(prefix, x) && Verify(prefix, y)
    ensures x == y
  {
    var h := HrpExpand(prefix);
    CutAt(h, x, p, q, r);
    CutAt(h, y, p, q, r);
    SlicesAgree(x, y, p, q, r);
    WindowThree(h + x[..p], x[p], y[p], x[p + 1..q], x[q], y[q], x[q + 1..r], x[r], y[r], x[r + 1..]);
  }
}
