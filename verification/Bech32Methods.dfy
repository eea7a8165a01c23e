/** The loops of the bech32 codec. */
module Bech32Methods {
  import opened Digits
  import opened BitGroups
  import opened LinearRegister
  import opened Bech32Checksum
  import opened Bech32
  import opened Bech32Address

  // ------------------------------------------------------------ polymod

  function Generators(): (r: seq<bv32>)
    ensures |r| == 5
  {
    [0x3b6a57b2, 0x26508e6d, 0x1ea119fa, 0x3d4233dd, 0x2a1462b3]
  }

  predicate BitSet(top: bv32, i: nat)
    requires i < 5
  {
    (top >> i) & 1 != 0
  }

  /** The first `n` generators whose bit is set, added to `start`. */
  function TapSum<T>(add: (T, T) -> T, zero: T, start: T, bits: seq<bool>, generators: seq<T>, n: nat): T
    requires n <= |generators| && n <= |bits|
  {
    if n == 0 then start
    else add(TapSum(add, zero, start, bits, generators, n - 1), if bits[n - 1] then generators[n - 1] else zero)
  }

  lemma {:induction false} TapSumStart<T(!new)>(g: Register<T>, a: T, x: T, bits: seq<bool>, generators: seq<T>, n: nat)
    requires Sound(g) && n <= |generators| && n <= |bits|
    ensures TapSum(g.add, g.zero, g.add(a, x), bits, generators, n) ==
      g.add(TapSum(g.add, g.zero, a, bits, generators, n), x)
  {
    if n > 0 {
      TapSumStart(g, a, x, bits, generators, n - 1);
      var before, tap := TapSum(g.add, g.zero, a, bits, generators, n - 1),
        if bits[n - 1] then generators[n - 1] else g.zero;
      assert Exchange(g.add, before, x, tap, g.zero);
    }
  }

  /** The five bits above the 25 that stay. */
  function TopBits(c: bv32): seq<bool> {
    [(c >> 25) & 1 != 0, (c >> 26) & 1 != 0, (c >> 27) & 1 != 0, (c >> 28) & 1 != 0, (c >> 29) & 1 != 0]
  }

  lemma {:induction false} TopBit(c: bv32, i: nat)
    requires i < 5
    ensures BitSet(c >> 25, i) <==> TopBits(c)[i]
  {
    if i == 0 { assert (c >> 25) >> 0 == c >> 25; }
    if i == 1 { assert (c >> 25) >> 1 == c >> 26; }
    if i == 2 { assert (c >> 25) >> 2 == c >> 27; }
    if i == 3 { assert (c >> 25) >> 3 == c >> 28; }
    if i == 4 { assert (c >> 25) >> 4 == c >> 29; }
  }

  lemma {:induction false} TapSumFive<T>(add: (T, T) -> T, zero: T, start: T, bits: seq<bool>, generators: seq<T>,
      t0: T, t1: T, t2: T, t3: T, t4: T, s1: T, s2: T, s3: T, s4: T, s5: T)
    requires |bits| == 5 && |generators| == 5
    requires t0 == (if bits[0] then generators[0] else zero) && t1 == (if bits[1] then generators[1] else zero)
    requires t2 == (if bits[2] then generators[2] else zero) && t3 == (if bits[3] then generators[3] else zero)
    requires t4 == (if bits[4] then generators[4] else zero)
    requires s1 == add(start, t0) && s2 == add(s1, t1) && s3 == add(s2, t2) && s4 == add(s3, t3) && s5 == add(s4, t4)
    ensures TapSum(add, zero, start, bits, generators, 5) == s5
  {
    assert TapSum(add, zero, start, bits, generators, 1) == s1;
    assert TapSum(add, zero, start, bits, generators, 2) == s2;
    assert TapSum(add, zero, start, bits, generators, 3) == s3;
    assert TapSum(add, zero, start, bits, generators, 4) == s4;
  }

  lemma {:induction false} TapsAreSet(c: bv32)
    ensures Tap0(c) == (if TopBits(c)[0] then Generators()[0] else 0)
    ensures Tap1(c) == (if TopBits(c)[1] then Generators()[1] else 0)
    ensures Tap2(c) == (if TopBits(c)[2] then Generators()[2] else 0)
    ensures Tap3(c) == (if TopBits(c)[3] then Generators()[3] else 0)
    ensures Tap4(c) == if TopBits(c)[4] then Generators()[4] else 0
  {
  }

  lemma {:induction false} FeedsAreSums(c: bv32)
    ensures Feed1(c) == Xor(Shifted(c), Tap0(c)) && Feed2(c) == Xor(Feed1(c), Tap1(c))
    ensures Feed3(c) == Xor(Feed2(c), Tap2(c))
    ensures Feed4(c) == Xor(Feed3(c), Tap3(c)) && Feed(c) == Xor(Feed4(c), Tap4(c))
  {
    SumIsXor(Shifted, Tap0, Feed1);
    SumIsXor(Feed1, Tap1, Feed2);
    SumIsXor(Feed2, Tap2, Feed3);
    SumIsXor(Feed3, Tap3, Feed4);
    SumIsXor(Feed4, Tap4, Feed);
  }

  lemma {:induction false} TapsSum(c: bv32)
    ensures TapSum(Xor, 0, Shifted(c), TopBits(c), Generators(), 5) == Feed(c)
  {
    TapsAreSet(c);
    FeedsAreSums(c);
    TapSumFive(Xor, 0, Shifted(c), TopBits(c), Generators(), Tap0(c), Tap1(c), Tap2(c), Tap3(c), Tap4(c),
               Feed1(c), Feed2(c), Feed3(c), Feed4(c), Feed(c));
  }

  /** The inner loop of `bech32Polymod`. */
  method AddTaps(start: bv32, c: bv32) returns (r: bv32)
    ensures r == TapSum(Xor, 0, start, TopBits(c), Generators(), 5)
  {
    var top := c >> 25;
    r := start;
    for i := 0 to 5
      invariant r == TapSum(Xor, 0, start, TopBits(c), Generators(), i)
    {
      TopBit(c, i);
      XorUnit(r);
      if BitSet(top, i) { r := Xor(r, Generators()[i]); }
    }
  }

  lemma {:induction false} XorUnit(a: bv32)
    ensures Xor(a, 0) == a
  {
  }

  /** One round of `bech32Polymod`. */
  method Round(c: bv32, x: bv32) returns (r: bv32)
    ensures r == Polymod().add(Polymod().feed(c), x)
  {
    r := AddTaps(Xor(Shifted(c), x), c);
    PolymodSound();
    TapSumStart(Polymod(), Shifted(c), x, TopBits(c), Generators(), 5);
    TapsSum(c);
  }

  lemma {:induction false} RemainderNext(g: Register<bv32>, values: seq<nat>, i: nat)
    requires Octets(values) && i < |values|
    ensures Shift(g, 1, Words(values[..i + 1])) == g.add(g.feed(Shift(g, 1, Words(values[..i]))), Word(values[i]))
  {
    ShiftNext(g, 1, Words(values[..i]), Word(values[i]));
    assert Words(values[..i + 1]) == Words(values[..i]) + [Word(values[i])];
  }

  /** `bech32Polymod`. */
  method PolymodLoop(values: seq<nat>) returns (checksum: bv32)
    requires Octets(values)
    ensures checksum == Remainder(values)
  {
    checksum := 1;
    for i := 0 to |values|
      invariant checksum == Remainder(values[..i])
    {
      RemainderNext(Polymod(), values, i);
      checksum := Round(checksum, Word(values[i]));
    }
    assert values[..|values|] == values;
  }

  /** The five bits above bit `n`. */
  function PlaceAt(m: bv32, n: nat): bv32
    requires n <= 25
  {
    (m >> n) & 31
  }

  ghost predicate Splits(m: bv32, all: seq<bv32>) {
    && |all| == 6 && PlaceAt(m, 25) == all[0] && PlaceAt(m, 20) == all[1] && PlaceAt(m, 15) == all[2]
    && PlaceAt(m, 10) == all[3] && PlaceAt(m, 5) == all[4] && PlaceAt(m, 0) == all[5]
  }

  lemma {:induction false} UnpackSplits(m: bv32)
    ensures Splits(m, Unpack(m))
  {
    assert m >> 0 == m;
  }

  lemma {:induction false} PicksAt<T>(p25: T, p20: T, p15: T, p10: T, p5: T, p0: T, all: seq<T>, i: nat, x: T)
    requires |all| == 6 && p25 == all[0] && p20 == all[1] && p15 == all[2] && p10 == all[3] && p5 == all[4]
    requires p0 == all[5] && i < 6
    requires i == 0 ==> x == p25
    requires i == 1 ==> x == p20
    requires i == 2 ==> x == p15
    requires i == 3 ==> x == p10
    requires i == 4 ==> x == p5
    requires i == 5 ==> x == p0
    ensures x == all[i]
  {
  }

  lemma {:induction false} SplitsAt(m: bv32, all: seq<bv32>, i: nat, n: nat)
    requires Splits(m, all) && i < 6 && n == 5 * (5 - i)
    ensures PlaceAt(m, n) == all[i]
  {
    PicksAt(PlaceAt(m, 25), PlaceAt(m, 20), PlaceAt(m, 15), PlaceAt(m, 10), PlaceAt(m, 5), PlaceAt(m, 0), all, i,
        PlaceAt(m, n));
  }

  /** The loop of `bech32Checksum`. */
  method SplitWord(m: bv32, ghost all: seq<bv32>) returns (places: seq<bv32>)
    requires Splits(m, all)
    ensures places == all
  {
    places := [];
    for i := 0 to 6
      invariant places == all[..i]
    {
      SplitsAt(m, all, i, 5 * (5 - i));
      places := places + [PlaceAt(m, 5 * (5 - i))];
    }
  }

  /** `bech32Checksum`. */
  method ChecksumLoop(prefix: string, values: seq<nat>) returns (checksum: seq<nat>)
    requires Octets(values)
    ensures checksum == Checksum(prefix, values)
  {
    var mod := PolymodLoop(HrpExpand(prefix) + values + Zeroes(6));
    var m := Xor(mod, 1);
    UnpackSplits(m);
    var places := SplitWord(m, Unpack(m));
    checksum := SymbolsOf(places);
  }

  /** The printing loop of `encodeBech32Address`. */
  method WriteLetters(start: string, letter: FiveBits -> char, values: seq<nat>) returns (r: string)
    requires FiveBit(values)
    ensures r == start + Letters(letter, values)
  {
    r := start;
    for i := 0 to |values|
      invariant r == start + Letters(letter, values[..i])
    {
      r := r + [letter(values[i])];
    }
    assert values[..|values|] == values;
  }

  /** `encodeBech32Address`. */
  method EncodeAddress(prefix: string, payload: seq<nat>, word: nat) returns (r: string)
    requires word >= 32
    ensures r == Encode(prefix, payload)
  {
    var converted := ConvertBits(payload, 8, 5, true, word);
    if converted.None? { return ""; }
    PaddedInRange(payload);
    var checksum := ChecksumLoop(prefix, converted.value);
    r := WriteLetters(prefix + "1", CharOf, converted.value + checksum);
  }

  /** The array holds `prefix` and is zero after it. */
  ghost predicate Filled(a: seq<nat>, prefix: seq<nat>) {
    |prefix| <= |a| && a == prefix + Zeroes(|a| - |prefix|)
  }

  lemma {:induction false} ByteLengthGrows(s: string, k: nat)
    requires k <= |s|
    ensures ByteLength(s[..k]) <= ByteLength(s)
  {
    if k < |s| {
      assert s[..|s| - 1][..k] == s[..k];
      ByteLengthGrows(s[..|s| - 1], k);
    } else {
      assert s[..k] == s;
    }
  }

  lemma {:induction false} FilledNext(a: seq<nat>, prefix: seq<nat>, x: nat, w: nat)
    requires Filled(a, prefix) && 1 <= w && |prefix| + w <= |a|
    ensures Filled(a[|prefix| := x], prefix + [x] + Zeroes(w - 1))
  {
  }

  lemma {:induction false} SpelledStep(index: char -> Option<FiveBits>, s: string, k: nat)
    requires k < |s| && Spelled(index, s[..k]).Some? && index(LowByte(s[k])).Some?
    ensures var before, x := Spelled(index, s[..k]).value, index(LowByte(s[k])).value;
      Spelled(index, s[..k + 1]) == Some(before + [x] + Zeroes(Width(s[k]) - 1)) &&
      |before| + Width(s[k]) <= ByteLength(s)
  {
    SpelledNext(index, s[..k], s[k]);
    assert s[..k] + [s[k]] == s[..k + 1];
    ByteLengthGrows(s, k + 1);
  }

  lemma {:induction false} SpelledFails(index: char -> Option<FiveBits>, s: string, k: nat)
    requires k < |s| && index(LowByte(s[k])).None?
    ensures Spelled(index, s).None?
  {
    if k < |s| - 1 { SpelledFails(index, s[..|s| - 1], k); }
  }

  /** The character loop of `decodeBech32Address`, filling an array by byte offset. */
  method ReadValues(index: char -> Option<FiveBits>, encoded: string) returns (r: Option<seq<nat>>)
    ensures r == Spelled(index, encoded)
  {
    var values := new nat[ByteLength(encoded)](_ => 0);
    var offset: nat := 0;
    ghost var prefix: seq<nat> := [];
    assert encoded[..0] == "";
    for k := 0 to |encoded|
      invariant Spelled(index, encoded[..k]) == Some(prefix) && Filled(values[..], prefix) && offset == |prefix|
    {
      var first := index(LowByte(encoded[k]));
      if first.None? {
        SpelledFails(index, encoded, k);
        return None;
      }
      SpelledStep(index, encoded, k);
      FilledNext(values[..], prefix, first.value, Width(encoded[k]));
      ghost var before := values[..];
      values[offset] := first.value;
      assert values[..] == before[offset := first.value];
      prefix := prefix + [first.value] + Zeroes(Width(encoded[k]) - 1);
      offset := offset + Width(encoded[k]);
    }
    assert encoded[..|encoded|] == encoded;
    assert prefix + Zeroes(0) == prefix;
    return Some(values[..]);
  }

  /** The end of `decodeBech32Address`. */
  method DecodeSymbols(values: seq<nat>, word: nat) returns (r: Option<seq<nat>>)
    requires word >= 32 && FiveBit(values) && |values| >= 6
    ensures r == DecodeValues(values)
  {
    var remainder := PolymodLoop(HrpExpand(PREFIX) + values);
    if remainder != 1 { return None; }
    var converted := ConvertBits(values[..|values| - 6], 5, 8, false, word);
    if converted.None? || |converted.value| != 20 { return None; }
    return converted;
  }

  /** `decodeBech32Address`. */
  method DecodeAddress(lower: string -> string, value: string, word: nat) returns (r: Option<seq<nat>>)
    requires word >= 32
    ensures r == Decode(lower, value)
  {
    if value == "" || lower(value) != value { return None; }
    var separator := LastIndex(value, '1');
    if separator <= 0 || ByteLength(value[separator..]) < 7 { return None; }
    if value[..separator] != PREFIX { return None; }
    var values := ReadValues(IndexOf, value[separator + 1..]);
    if values.None? { return None; }
    assert value[separator..] == [value[separator]] + value[separator + 1..];
    LengthOfTail(value[separator], value[separator + 1..]);
    r := DecodeSymbols(values.value, word);
  }
}
