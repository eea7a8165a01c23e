/** The bech32 checksum register. */
module Bech32Checksum {
  import opened LinearRegister

  function Xor(a: bv32, b: bv32): bv32 { a ^ b }

  // ------------------------------------------------------------ the feedback

  function Shifted(c: bv32): bv32 { (c & 0x1ffffff) << 5 }

  function Tap0(c: bv32): bv32 { if (c >> 25) & 1 != 0 then 0x3b6a57b2 else 0 }

  function Tap1(c: bv32): bv32 { if (c >> 26) & 1 != 0 then 0x26508e6d else 0 }

  function Tap2(c: bv32): bv32 { if (c >> 27) & 1 != 0 then 0x1ea119fa else 0 }

  function Tap3(c: bv32): bv32 { if (c >> 28) & 1 != 0 then 0x3d4233dd else 0 }

  function Tap4(c: bv32): bv32 { if (c >> 29) & 1 != 0 then 0x2a1462b3 else 0 }

  function Feed1(c: bv32): bv32 { Shifted(c) ^ Tap0(c) }
  function Feed2(c: bv32): bv32 { Feed1(c) ^ Tap1(c) }
  function Feed3(c: bv32): bv32 { Feed2(c) ^ Tap2(c) }
  function Feed4(c: bv32): bv32 { Feed3(c) ^ Tap3(c) }

  /** One round of `bech32Polymod` on the input 0. */
  function Feed(c: bv32): bv32 { Feed4(c) ^ Tap4(c) }

  function Polymod(): Register<bv32> { Register(Feed, Xor, 0) }

  lemma {:induction false} XorAssociates(a: bv32, b: bv32, c: bv32)
    ensures Xor(Xor(a, b), c) == Xor(a, Xor(b, c))
  {
  }

  lemma {:induction false} XorCommutes(a: bv32, b: bv32)
    ensures Xor(a, b) == Xor(b, a)
  {
  }

  lemma {:induction false} XorAssociative()
    ensures forall a, b, c :: Xor(Xor(a, b), c) == Xor(a, Xor(b, c))
  {
    forall a, b, c ensures Xor(Xor(a, b), c) == Xor(a, Xor(b, c)) { XorAssociates(a, b, c); }
  }

  lemma {:induction false} XorCommutative()
    ensures forall a, b :: Xor(a, b) == Xor(b, a)
  {
    forall a, b ensures Xor(a, b) == Xor(b, a) { XorCommutes(a, b); }
  }

  lemma {:induction false} XorExchanges()
    ensures Exchanges(Xor)
  {
    XorAssociative();
    XorCommutative();
    ExchangesBy(Xor);
  }

  ghost predicate Linear(f: bv32 -> bv32) { forall x, y :: f(x ^ y) == f(x) ^ f(y) }

  lemma {:induction false} LinearIsAdditive(f: bv32 -> bv32)
    requires Linear(f)
    ensures Additive(Xor, f)
  {
    forall a, b ensures AdditiveAt(Xor, f, a, b) { assert f(a ^ b) == f(a) ^ f(b); }
  }

  lemma {:induction false} SumIsXor(f: bv32 -> bv32, g: bv32 -> bv32, sum: bv32 -> bv32)
    requires forall x :: sum(x) == f(x) ^ g(x)
    ensures forall x :: sum(x) == Xor(f(x), g(x))
  {
  }

  lemma {:induction false} TapAdditive(f: bv32 -> bv32, tap: bv32 -> bv32, sum: bv32 -> bv32)
    requires Additive(Xor, f) && Additive(Xor, tap) && forall x :: sum(x) == f(x) ^ tap(x)
    ensures Additive(Xor, sum)
  {
    XorExchanges();
    SumIsXor(f, tap, sum);
    SumAdditive(Xor, f, tap, sum);
  }

  lemma {:induction false} ShiftedLinear()
    ensures Linear(Shifted)
  {
  }

  lemma {:induction false} Tap0Linear()
    ensures Linear(Tap0)
  {
  }

  lemma {:induction false} Tap1Linear()
    ensures Linear(Tap1)
  {
  }

  lemma {:induction false} Tap2Linear()
    ensures Linear(Tap2)
  {
  }

  lemma {:induction false} Tap3Linear()
    ensures Linear(Tap3)
  {
  }

  lemma {:induction false} Tap4Linear()
    ensures Linear(Tap4)
  {
  }

  lemma {:induction false} Feed2Additive()
    ensures Additive(Xor, Feed2)
  {
    ShiftedLinear();
    LinearIsAdditive(Shifted);
    Tap0Linear();
    LinearIsAdditive(Tap0);
    TapAdditive(Shifted, Tap0, Feed1);
    Tap1Linear();
    LinearIsAdditive(Tap1);
    TapAdditive(Feed1, Tap1, Feed2);
  }

  lemma {:induction false} FeedAdditive()
    ensures Additive(Xor, Feed)
  {
    Feed2Additive();
    Tap2Linear();
    LinearIsAdditive(Tap2);
    TapAdditive(Feed2, Tap2, Feed3);
    Tap3Linear();
    LinearIsAdditive(Tap3);
    TapAdditive(Feed3, Tap3, Feed4);
    Tap4Linear();
    LinearIsAdditive(Tap4);
    TapAdditive(Feed4, Tap4, Feed);
  }

  lemma {:induction false} RegisterSound(f: bv32 -> bv32)
    requires Additive(Xor, f)
    ensures Sound(Register(f, Xor, 0))
  {
    XorExchanges();
  }

  lemma {:induction false} PolymodSound()
    ensures Sound(Polymod())
  {
    FeedAdditive();
    RegisterSound(Feed);
  }

  /** Registers hold 30 bits. */
  predicate Live(c: bv32) { c < 0x40000000 }

  lemma {:induction false} XorLive(a: bv32, b: bv32)
    ensures Live(a) && Live(b) ==> Live(Xor(a, b))
  {
  }

  lemma {:induction false} FeedLive(c: bv32)
    ensures Live(Feed(c))
  {
  }

  /** The zero-input round forgets nothing: the only register it sends to 0 is 0. */
  lemma {:induction false} FeedKernel(c: bv32)
    requires Live(c) && Feed(c) == 0
    ensures c == 0
  {
  }

  lemma {:induction false} RegisterFaithful(f: bv32 -> bv32)
    requires (forall c :: Live(f(c))) && (forall c :: Live(c) && f(c) == 0 ==> c == 0)
    ensures Faithful(Register(f, Xor, 0), Live)
  {
    var g := Register(f, Xor, 0);
    forall a, b ensures AddsLive(g, Live, a, b) { XorLive(a, b); }
    forall a ensures FeedsLive(g, Live, a) {}
  }

  lemma {:induction false} PolymodFaithful()
    ensures Faithful(Polymod(), Live)
  {
    forall c ensures Live(Feed(c)) { FeedLive(c); }
    forall c | Live(c) && Feed(c) == 0 ensures c == 0 { FeedKernel(c); }
    RegisterFaithful(Feed);
  }

  // ------------------------------------------------------ six symbols

  /** Six 5-bit symbols, side by side. */
  function Pack(a: bv32, b: bv32, c: bv32, d: bv32, e: bv32, f: bv32): bv32 {
    (a << 25) ^ (b << 20) ^ (c << 15) ^ (d << 10) ^ (e << 5) ^ f
  }

  lemma {:induction false} PushSmall(c: bv32, x: bv32)
    requires c < 0x2000000
    ensures Polymod().add(Polymod().feed(c), x) == (c << 5) ^ x
  {
    assert Feed(c) == c << 5;
  }

  lemma {:induction false} PackGrows(a: bv32, b: bv32, c: bv32, d: bv32, e: bv32, f: bv32)
    requires a < 32 && b < 32 && c < 32 && d < 32 && e < 32 && f < 32
    ensures (a << 5) ^ b < 0x400 && (((a << 5) ^ b) << 5) ^ c < 0x8000
    ensures (((((a << 5) ^ b) << 5) ^ c) << 5) ^ d < 0x100000
    ensures (((((((a << 5) ^ b) << 5) ^ c) << 5) ^ d) << 5) ^ e < 0x2000000
    ensures (((((((((a << 5) ^ b) << 5) ^ c) << 5) ^ d) << 5) ^ e) << 5) ^ f == Pack(a, b, c, d, e, f)
  {
  }

  lemma {:induction false} SixFrom(a: bv32, b: bv32, c: bv32, d: bv32, e: bv32, f: bv32, r2: bv32, r3: bv32, r4: bv32,
      r5: bv32, r6: bv32)
    requires a < 0x2000000 && r2 < 0x2000000 && r3 < 0x2000000 && r4 < 0x2000000 && r5 < 0x2000000
    requires r2 == (a << 5) ^ b && r3 == (r2 << 5) ^ c && r4 == (r3 << 5) ^ d && r5 == (r4 << 5) ^ e
    requires r6 == (r5 << 5) ^ f
    ensures Shift(Polymod(), 0, [a, b, c, d, e, f]) == r6
  {
    PushSmall(0, a);
    PushSmall(a, b);
    PushSmall(r2, c);
    PushSmall(r3, d);
    PushSmall(r4, e);
    PushSmall(r5, f);
    ShiftSixTo(Polymod(), 0, a, b, c, d, e, f, a, r2, r3, r4, r5, r6);
  }

  /** Six symbols shifted into an empty register just stand there side by side. */
  lemma {:induction false} SixSymbols(a: bv32, b: bv32, c: bv32, d: bv32, e: bv32, f: bv32)
    requires a < 32 && b < 32 && c < 32 && d < 32 && e < 32 && f < 32
    ensures Shift(Polymod(), 0, [a, b, c, d, e, f]) == Pack(a, b, c, d, e, f)
  {
    PackGrows(a, b, c, d, e, f);
    var r2 := (a << 5) ^ b;
    var r3 := (r2 << 5) ^ c;
    var r4 := (r3 << 5) ^ d;
    var r5 := (r4 << 5) ^ e;
    SixFrom(a, b, c, d, e, f, r2, r3, r4, r5, (r5 << 5) ^ f);
  }

  /** The symbols of a 30-bit word, most significant first. */
  function Unpack(m: bv32): seq<bv32> {
    [(m >> 25) & 31, (m >> 20) & 31, (m >> 15) & 31, (m >> 10) & 31, (m >> 5) & 31, m & 31]
  }

  lemma {:induction false} UnpackPack(a: bv32, b: bv32, c: bv32, d: bv32, e: bv32, f: bv32, m: bv32)
    requires a < 32 && b < 32 && c < 32 && d < 32 && e < 32 && f < 32 && m == Pack(a, b, c, d, e, f)
    ensures (m >> 25) & 31 == a && (m >> 20) & 31 == b && (m >> 15) & 31 == c
    ensures (m >> 10) & 31 == d && (m >> 5) & 31 == e && m & 31 == f
  {
  }

  lemma {:induction false} PackUnpack(m: bv32)
    requires Live(m)
    ensures Pack((m >> 25) & 31, (m >> 20) & 31, (m >> 15) & 31, (m >> 10) & 31, (m >> 5) & 31, m & 31) == m
  {
  }

  predicate Symbols(s: seq<bv32>) { forall i :: 0 <= i < |s| ==> s[i] < 32 }

  lemma {:induction false} Unpacks(m: bv32, s: seq<bv32>)
    requires Live(m) && Symbols(s) && |s| == 6
    ensures Shift(Polymod(), 0, s) == m <==> s == Unpack(m)
  {
    assert s == [s[0], s[1], s[2], s[3], s[4], s[5]];
    SixSymbols(s[0], s[1], s[2], s[3], s[4], s[5]);
    PackUnpack(m);
    UnpackPack(s[0], s[1], s[2], s[3], s[4], s[5], Pack(s[0], s[1], s[2], s[3], s[4], s[5]));
  }

  /** Exactly one six-symbol suffix verifies, whatever came before it. */
  lemma {:induction false} ClosingDecides(g: Register<bv32>, c: bv32, s: seq<bv32>)
    requires g == Polymod() && Live(c) && Symbols(s) && |s| == 6
    ensures Shift(g, c, s) == 1 <==> s == Unpack(Due(g, c, 6, 1))
  {
    PolymodSound();
    DueDecides(g, c, s, 1);
    PolymodFaithful();
    DueLive(g, Live, c, 6, 1);
    Unpacks(Due(g, c, 6, 1), s);
  }

  lemma {:induction false} UnpackIsSymbols(m: bv32)
    ensures Symbols(Unpack(m)) && |Unpack(m)| == 6
  {
  }
}
