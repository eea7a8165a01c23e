/** A known address, worked out: the two texts that the web client lists for one wallet. */
module Bech32Known {
  import opened Digits
  import opened BitGroups
  import opened LinearRegister
  import opened Bech32Checksum
  import opened Bech32
  import opened Bech32Address

  const BYTES1: seq<nat> := [0x85, 0xea, 0xc7, 0xbc, 0x08]
  const BYTES2: seq<nat> := [0x14, 0x88, 0xaa, 0x77, 0xd1]
  const BYTES3: seq<nat> := [0xd8, 0x2f, 0x9c, 0xb8, 0xe0]
  const BYTES4: seq<nat> := [0x53, 0xde, 0x1e, 0x4f, 0xa8]

  const ACCOUNT: seq<nat> := BYTES1 + BYTES2 + BYTES3 + BYTES4

  const ADDRESS: string := "inj1" + "sh4v00qg" + "zjy25a73" + "mqheew8q" + "200punag" + "lrzec5"

  // ------------------------------------------------------------ the symbols

  /** Groups read as one number, most significant first. */
  function Number(data: seq<nat>, w: nat): nat {
    if data == [] then 0 else Shl(Number(data[..|data| - 1], w), w) + data[|data| - 1]
  }

  lemma {:induction false} StreamIsNumber(data: seq<nat>, w: nat)
    requires InRange(data, w)
    ensures Stream(data, w) == Bits(Number(data, w), |Stream(data, w)|)
  {
    if data != [] {
      var n := |data| - 1;
      assert data == data[..n] + [data[n]];
      StreamIsNumber(data[..n], w);
      StreamAppend(data[..n], data[n], w);
      BitsPush(Number(data[..n], w), data[n], |Stream(data[..n], w)|, w);
    }
  }

  lemma {:induction false} StreamJoin(a: seq<nat>, b: seq<nat>, w: nat)
    ensures Stream(a + b, w) == Stream(a, w) + Stream(b, w)
  {
    if a == [] {
      assert a + b == b;
    } else {
      StreamJoin(a[1..], b, w);
      assert (a + b)[1..] == a[1..] + b;
      Associates(Bits(a[0], w), Stream(a[1..], w), Stream(b, w));
    }
  }

  lemma {:induction false} ShiftBy(x: nat)
    ensures Shl(x, 8) == 256 * x && Shl(x, 5) == 32 * x
  {
    assert Shl(x, 2) == 4 * x && Shl(x, 4) == 4 * Shl(x, 2);
    assert Shl(x, 5) == 2 * Shl(x, 4) && Shl(x, 6) == 4 * Shl(x, 4) && Shl(x, 8) == 4 * Shl(x, 6);
  }

  lemma {:induction false} NumberNext(data: seq<nat>, n: nat)
    requires n < |data|
    ensures Number(data[..n + 1], 8) == 256 * Number(data[..n], 8) + data[n]
    ensures Number(data[..n + 1], 5) == 32 * Number(data[..n], 5) + data[n]
  {
    assert data[..n + 1][..n] == data[..n];
    ShiftBy(Number(data[..n], 8));
    ShiftBy(Number(data[..n], 5));
  }

  lemma {:induction false} FiveBytes(s: seq<nat>)
    requires |s| == 5
    ensures Number(s, 8) == 256 * (256 * (256 * (256 * s[0] + s[1]) + s[2]) + s[3]) + s[4]
  {
    NumberNext(s, 0);
    NumberNext(s, 1);
    NumberNext(s, 2);
    NumberNext(s, 3);
    NumberNext(s, 4);
    assert s[..5] == s;
  }

  lemma {:induction false} EightSymbols(s: seq<nat>)
    requires |s| == 8
    ensures Number(s, 5) == 32 * (32 * (32 * (32 * Number(s[..4], 5) + s[4]) + s[5]) + s[6]) + s[7]
    ensures Number(s[..4], 5) == 32 * (32 * (32 * s[0] + s[1]) + s[2]) + s[3]
  {
    forall i | 0 <= i < 8 ensures Number(s[..i + 1], 5) == 32 * Number(s[..i], 5) + s[i] { NumberNext(s, i); }
    assert Number(s[..0], 5) == 0 && s[..8] == s;
    assert Number(s[..2], 5) == 32 * Number(s[..1], 5) + s[1];
    assert Number(s[..3], 5) == 32 * Number(s[..2], 5) + s[2];
    assert Number(s[..5], 5) == 32 * Number(s[..4], 5) + s[4];
    assert Number(s[..6], 5) == 32 * Number(s[..5], 5) + s[5];
    assert Number(s[..7], 5) == 32 * Number(s[..6], 5) + s[6];
  }

  /** Five bytes and eight symbols with the same number are the same forty bits. */
  lemma {:induction false} SameBits(bytes: seq<nat>, symbols: seq<nat>)
    requires |bytes| == 5 && |symbols| == 8 && Octets(bytes) && FiveBit(symbols)
    requires Number(bytes, 8) == Number(symbols, 5)
    ensures Stream(bytes, 8) == Stream(symbols, 5)
  {
    OctetRange(bytes);
    FiveBitRange(symbols);
    StreamIsNumber(bytes, 8);
    StreamIsNumber(symbols, 5);
    StreamLength(bytes, 8);
    StreamLength(symbols, 5);
  }

  lemma {:induction false} RegroupIs(bytes: seq<nat>, symbols: seq<nat>)
    requires Octets(bytes) && FiveBit(symbols) && Stream(bytes, 8) == Stream(symbols, 5)
    ensures Regroup(bytes, 8, 5, true) == Some(symbols)
  {
    OctetRange(bytes);
    FiveBitRange(symbols);
    CutOfStream(symbols, 5, []);
    assert Stream(symbols, 5) + [] == Stream(symbols, 5);
    assert symbols + [] == symbols;
  }

  lemma {:induction false} JoinBits(a: seq<nat>, b: seq<nat>, s: seq<nat>, t: seq<nat>)
    requires Stream(a, 8) == Stream(s, 5) && Octets(a) && FiveBit(s)
    requires Stream(b, 8) == Stream(t, 5) && Octets(b) && FiveBit(t)
    ensures Stream(a + b, 8) == Stream(s + t, 5) && Octets(a + b) && FiveBit(s + t)
  {
    StreamJoin(a, b, 8);
    StreamJoin(s, t, 5);
  }

  const FIRST: seq<nat> := [16, 23, 21, 12, 15, 15, 0, 8]
  const SECOND: seq<nat> := [2, 18, 4, 10, 20, 29, 30, 17]
  const THIRD: seq<nat> := [27, 0, 23, 25, 25, 14, 7, 0]
  const FOURTH: seq<nat> := [10, 15, 15, 1, 28, 19, 29, 8]
  const SUM: seq<nat> := [31, 3, 2, 25, 24, 20]

  const DATA: seq<nat> := FIRST + SECOND + THIRD + FOURTH

  lemma {:induction false} FirstBits()
    ensures Stream(BYTES1, 8) == Stream(FIRST, 5) && Octets(BYTES1) && FiveBit(FIRST)
  {
    FiveBytes(BYTES1);
    EightSymbols(FIRST);
    assert Number(FIRST[..4], 5) == 548524;
    SameBits(BYTES1, FIRST);
  }

  lemma {:induction false} SecondBits()
    ensures Stream(BYTES2, 8) == Stream(SECOND, 5) && Octets(BYTES2) && FiveBit(SECOND)
  {
    FiveBytes(BYTES2);
    EightSymbols(SECOND);
    assert Number(SECOND[..4], 5) == 84106;
    SameBits(BYTES2, SECOND);
  }

  lemma {:induction false} ThirdBits()
    ensures Stream(BYTES3, 8) == Stream(THIRD, 5) && Octets(BYTES3) && FiveBit(THIRD)
  {
    FiveBytes(BYTES3);
    EightSymbols(THIRD);
    assert Number(THIRD[..4], 5) == 885497;
    SameBits(BYTES3, THIRD);
  }

  lemma {:induction false} FourthBits()
    ensures Stream(BYTES4, 8) == Stream(FOURTH, 5) && Octets(BYTES4) && FiveBit(FOURTH)
  {
    FiveBytes(BYTES4);
    EightSymbols(FOURTH);
    assert Number(FOURTH[..4], 5) == 343521;
    SameBits(BYTES4, FOURTH);
  }

  lemma {:induction false} AccountBits()
    ensures Stream(ACCOUNT, 8) == Stream(DATA, 5) && Octets(ACCOUNT) && FiveBit(DATA)
  {
    FirstBits();
    SecondBits();
    ThirdBits();
    FourthBits();
    JoinBits(BYTES1, BYTES2, FIRST, SECOND);
    JoinBits(BYTES1 + BYTES2, BYTES3, FIRST + SECOND, THIRD);
    JoinBits(BYTES1 + BYTES2 + BYTES3, BYTES4, FIRST + SECOND + THIRD, FOURTH);
  }

  // ------------------------------------------------------------ the checksum

  /** One round of the register. */
  function Next(c: bv32, x: bv32): bv32 { Xor(Feed(c), x) }

  lemma {:induction false} ShiftNext(c: bv32, s: seq<bv32>, n: nat)
    requires n < |s|
    ensures Shift(Polymod(), c, s[..n + 1]) == Next(Shift(Polymod(), c, s[..n]), s[n])
  {
    assert s[..n + 1][..n] == s[..n];
  }

  /** The registers that a list of words leads through. */
  lemma {:induction false} Rolls(c: bv32, s: seq<bv32>, r: seq<bv32>, n: nat)
    requires |r| == |s| + 1 && r[0] == c && n <= |s|
    requires forall i :: 0 <= i < |s| ==> r[i + 1] == Next(r[i], s[i])
    ensures Shift(Polymod(), c, s[..n]) == r[n]
  {
    if n > 0 {
      Rolls(c, s, r, n - 1);
      ShiftNext(c, s, n - 1);
    }
  }

  lemma {:induction false} PrefixRounds()
    ensures Next(0x00000001, 3) == 0x00000023 && Next(0x00000023, 3) == 0x00000463
    ensures Next(0x00000463, 3) == 0x00008c63 && Next(0x00008c63, 0) == 0x00118c60
    ensures Next(0x00118c60, 9) == 0x02318c09 && Next(0x02318c09, 14) == 0x3d5bd69c
    ensures Next(0x3d5bd69c, 10) == 0x04dd1573
  {
  }

  lemma {:induction false} PrefixRolls()
    ensures Shift(Polymod(), 0x00000001, [3, 3, 3, 0, 9, 14, 10]) == 0x04dd1573
  {
    var s: seq<bv32> := [3, 3, 3, 0, 9, 14, 10];
    var r: seq<bv32> := [0x00000001, 0x00000023, 0x00000463, 0x00008c63, 0x00118c60,
      0x02318c09, 0x3d5bd69c, 0x04dd1573];
    PrefixRounds();
    Rolls(0x00000001, s, r, 7);
    assert s[..7] == s;
  }

  lemma {:induction false} FirstRounds()
    ensures Next(0x04dd1573, 16) == 0x3df2201d && Next(0x3df2201d, 23) == 0x11e3c54e
    ensures Next(0x11e3c54e, 21) == 0x013a9a08 && Next(0x013a9a08, 12) == 0x2753410c
    ensures Next(0x2753410c, 15) == 0x1d469ae3 && Next(0x1d469ae3, 15) == 0x2d60f825
    ensures Next(0x2d60f825, 0) == 0x3efaf184 && Next(0x3efaf184, 8) == 0x0b93a1c3
  {
  }

  lemma {:induction false} FirstRolls()
    ensures Shift(Polymod(), 0x04dd1573, [16, 23, 21, 12, 15, 15, 0, 8]) == 0x0b93a1c3
  {
    var s: seq<bv32> := [16, 23, 21, 12, 15, 15, 0, 8];
    var r: seq<bv32> := [0x04dd1573, 0x3df2201d, 0x11e3c54e, 0x013a9a08, 0x2753410c,
      0x1d469ae3, 0x2d60f825, 0x3efaf184, 0x0b93a1c3];
    FirstRounds();
    Rolls(0x04dd1573, s, r, 8);
    assert s[..8] == s;
  }

  lemma {:induction false} SecondRounds()
    ensures Next(0x0b93a1c3, 2) == 0x17bf762a && Next(0x17bf762a, 18) == 0x17962f50
    ensures Next(0x17962f50, 4) == 0x12bd0006 && Next(0x12bd0006, 10) == 0x118864a5
    ensures Next(0x118864a5, 20) == 0x0c4ea769 && Next(0x0c4ea769, 29) == 0x31257aaa
    ensures Next(0x31257aaa, 30) == 0x33f90430 && Next(0x33f90430, 17) == 0x131c80cd
  {
  }

  lemma {:induction false} SecondRolls()
    ensures Shift(Polymod(), 0x0b93a1c3, [2, 18, 4, 10, 20, 29, 30, 17]) == 0x131c80cd
  {
    var s: seq<bv32> := [2, 18, 4, 10, 20, 29, 30, 17];
    var r: seq<bv32> := [0x0b93a1c3, 0x17bf762a, 0x17962f50, 0x12bd0006, 0x118864a5,
      0x0c4ea769, 0x31257aaa, 0x33f90430, 0x131c80cd];
    SecondRounds();
    Rolls(0x0b93a1c3, s, r, 8);
    assert s[..8] == s;
  }

  lemma {:induction false} ThirdRounds()
    ensures Next(0x131c80cd, 27) == 0x25b87dd4 && Next(0x25b87dd4, 0) == 0x3b4b565e
    ensures Next(0x3b4b565e, 23) == 0x1bf7d4f1 && Next(0x1bf7d4f1, 25) == 0x2673e3ac
    ensures Next(0x2673e3ac, 25) == 0x3952cef5 && Next(0x3952cef5, 14) == 0x23ae963a
    ensures Next(0x23ae963a, 7) == 0x24acf246 && Next(0x24acf246, 0) == 0x19daa41e
  {
  }

  lemma {:induction false} ThirdRolls()
    ensures Shift(Polymod(), 0x131c80cd, [27, 0, 23, 25, 25, 14, 7, 0]) == 0x19daa41e
  {
    var s: seq<bv32> := [27, 0, 23, 25, 25, 14, 7, 0];
    var r: seq<bv32> := [0x131c80cd, 0x25b87dd4, 0x3b4b565e, 0x1bf7d4f1, 0x2673e3ac,
      0x3952cef5, 0x23ae963a, 0x24acf246, 0x19daa41e];
    ThirdRounds();
    Rolls(0x131c80cd, s, r, 8);
    assert s[..8] == s;
  }

  lemma {:induction false} FourthRounds()
    ensures Next(0x19daa41e, 10) == 0x18b7a9ed && Next(0x18b7a9ed, 15) == 0x35161788
    ensures Next(0x35161788, 15) == 0x13c42e0c && Next(0x13c42e0c, 1) == 0x3eada5ee
    ensures Next(0x3eada5ee, 28) == 0x01792c97 && Next(0x01792c97, 19) == 0x2f2592f3
    ensures Next(0x2f2592f3, 29) == 0x0d3dfceb && Next(0x0d3dfceb, 8) == 0x1f4e0aff
  {
  }

  lemma {:induction false} FourthRolls()
    ensures Shift(Polymod(), 0x19daa41e, [10, 15, 15, 1, 28, 19, 29, 8]) == 0x1f4e0aff
  {
    var s: seq<bv32> := [10, 15, 15, 1, 28, 19, 29, 8];
    var r: seq<bv32> := [0x19daa41e, 0x18b7a9ed, 0x35161788, 0x13c42e0c, 0x3eada5ee,
      0x01792c97, 0x2f2592f3, 0x0d3dfceb, 0x1f4e0aff];
    FourthRounds();
    Rolls(0x19daa41e, s, r, 8);
    assert s[..8] == s;
  }

  lemma {:induction false} SumRounds()
    ensures Next(0x1f4e0aff, 31) == 0x1718ac07 && Next(0x1718ac07, 3) == 0x036d6ae1
    ensures Next(0x036d6ae1, 2) == 0x16c70b90 && Next(0x16c70b90, 25) == 0x3899981b
    ensures Next(0x3899981b, 24) == 0x1ac44bec && Next(0x1ac44bec, 20) == 0x00000001
  {
  }

  lemma {:induction false} SumRolls()
    ensures Shift(Polymod(), 0x1f4e0aff, [31, 3, 2, 25, 24, 20]) == 0x00000001
  {
    var s: seq<bv32> := [31, 3, 2, 25, 24, 20];
    var r: seq<bv32> := [0x1f4e0aff, 0x1718ac07, 0x036d6ae1, 0x16c70b90, 0x3899981b,
      0x1ac44bec, 0x00000001];
    SumRounds();
    Rolls(0x1f4e0aff, s, r, 6);
    assert s[..6] == s;
  }

  /** The symbols take the register from one value to the other. */
  predicate Leads(c: bv32, s: seq<nat>, d: bv32) { Octets(s) && Shift(Polymod(), c, Words(s)) == d }

  lemma {:induction false} PrefixPasses()
    ensures Leads(1, HrpExpand("inj"), 0x04dd1573)
  {
    assert Words(HrpExpand("inj")) == [3, 3, 3, 0, 9, 14, 10];
    PrefixRolls();
  }

  lemma {:induction false} FirstWords()
    ensures Words(FIRST) == [16, 23, 21, 12, 15, 15, 0, 8]
  {
    var w: seq<bv32> := [16, 23, 21, 12, 15, 15, 0, 8];
    assert SymbolsOf(w) == FIRST;
    WordsOfSymbols(w);
  }

  lemma {:induction false} FirstPasses()
    ensures Leads(0x04dd1573, FIRST, 0x0b93a1c3)
  {
    FirstWords();
    FirstRolls();
  }

  lemma {:induction false} SecondWords()
    ensures Words(SECOND) == [2, 18, 4, 10, 20, 29, 30, 17]
  {
    var w: seq<bv32> := [2, 18, 4, 10, 20, 29, 30, 17];
    assert SymbolsOf(w) == SECOND;
    WordsOfSymbols(w);
  }

  lemma {:induction false} SecondPasses()
    ensures Leads(0x0b93a1c3, SECOND, 0x131c80cd)
  {
    SecondWords();
    SecondRolls();
  }

  lemma {:induction false} ThirdWords()
    ensures Words(THIRD) == [27, 0, 23, 25, 25, 14, 7, 0]
  {
    var w: seq<bv32> := [27, 0, 23, 25, 25, 14, 7, 0];
    assert SymbolsOf(w) == THIRD;
    WordsOfSymbols(w);
  }

  lemma {:induction false} ThirdPasses()
    ensures Leads(0x131c80cd, THIRD, 0x19daa41e)
  {
    ThirdWords();
    ThirdRolls();
  }

  lemma {:induction false} FourthWords()
    ensures Words(FOURTH) == [10, 15, 15, 1, 28, 19, 29, 8]
  {
    var w: seq<bv32> := [10, 15, 15, 1, 28, 19, 29, 8];
    assert SymbolsOf(w) == FOURTH;
    WordsOfSymbols(w);
  }

  lemma {:induction false} FourthPasses()
    ensures Leads(0x19daa41e, FOURTH, 0x1f4e0aff)
  {
    FourthWords();
    FourthRolls();
  }

  lemma {:induction false} SumWords()
    ensures Words(SUM) == [31, 3, 2, 25, 24, 20]
  {
    var w: seq<bv32> := [31, 3, 2, 25, 24, 20];
    assert SymbolsOf(w) == SUM;
    WordsOfSymbols(w);
  }

  lemma {:induction false} SumPasses()
    ensures Leads(0x1f4e0aff, SUM, 0x00000001)
  {
    SumWords();
    SumRolls();
  }

  lemma {:induction false} LeadsOn(c: bv32, s: seq<nat>, d: bv32, t: seq<nat>, e: bv32)
    requires Leads(c, s, d) && Leads(d, t, e)
    ensures Leads(c, s + t, e)
  {
    WordsAppend(s, t);
    ShiftSplit(Polymod(), c, Words(s), Words(t));
  }

  lemma {:induction false} DataLeads()
    ensures Leads(0x04dd1573, DATA, 0x1f4e0aff)
  {
    FirstPasses();
    SecondPasses();
    ThirdPasses();
    FourthPasses();
    LeadsOn(0x04dd1573, FIRST, 0x0b93a1c3, SECOND, 0x131c80cd);
    LeadsOn(0x04dd1573, FIRST + SECOND, 0x131c80cd, THIRD, 0x19daa41e);
    LeadsOn(0x04dd1573, FIRST + SECOND + THIRD, 0x19daa41e, FOURTH, 0x1f4e0aff);
  }

  lemma {:induction false} AddressVerifies()
    ensures Octets(DATA + SUM) && Verify("inj", DATA + SUM)
  {
    PrefixPasses();
    DataLeads();
    SumPasses();
    LeadsOn(0x04dd1573, DATA, 0x1f4e0aff, SUM, 1);
    LeadsOn(1, HrpExpand("inj"), 0x04dd1573, DATA + SUM, 1);
  }

  // ------------------------------------------------------------ the characters

  lemma {:induction false} CharsJoin(a: seq<nat>, b: seq<nat>)
    requires FiveBit(a) && FiveBit(b)
    ensures FiveBit(a + b) && Chars(a + b) == Chars(a) + Chars(b)
  {
  }

  lemma {:induction false} FirstChars()
    ensures FiveBit(FIRST) && Chars(FIRST) == "sh4v00qg"
  {
    assert CharOf(16) == 's' && CharOf(23) == 'h' && CharOf(21) == '4' && CharOf(12) == 'v';
    assert CharOf(15) == '0' && CharOf(15) == '0' && CharOf(0) == 'q' && CharOf(8) == 'g';
    CharsAre(FIRST, "sh4v00qg");
  }

  lemma {:induction false} SecondChars()
    ensures FiveBit(SECOND) && Chars(SECOND) == "zjy25a73"
  {
    assert CharOf(2) == 'z' && CharOf(18) == 'j' && CharOf(4) == 'y' && CharOf(10) == '2';
    assert CharOf(20) == '5' && CharOf(29) == 'a' && CharOf(30) == '7' && CharOf(17) == '3';
    CharsAre(SECOND, "zjy25a73");
  }

  lemma {:induction false} ThirdChars()
    ensures FiveBit(THIRD) && Chars(THIRD) == "mqheew8q"
  {
    assert CharOf(27) == 'm' && CharOf(0) == 'q' && CharOf(23) == 'h' && CharOf(25) == 'e';
    assert CharOf(25) == 'e' && CharOf(14) == 'w' && CharOf(7) == '8' && CharOf(0) == 'q';
    CharsAre(THIRD, "mqheew8q");
  }

  lemma {:induction false} FourthChars()
    ensures FiveBit(FOURTH) && Chars(FOURTH) == "200punag"
  {
    assert CharOf(10) == '2' && CharOf(15) == '0' && CharOf(15) == '0' && CharOf(1) == 'p';
    assert CharOf(28) == 'u' && CharOf(19) == 'n' && CharOf(29) == 'a' && CharOf(8) == 'g';
    CharsAre(FOURTH, "200punag");
  }

  lemma {:induction false} SumChars()
    ensures FiveBit(SUM) && Chars(SUM) == "lrzec5"
  {
    assert CharOf(31) == 'l' && CharOf(3) == 'r' && CharOf(2) == 'z' && CharOf(25) == 'e';
    assert CharOf(24) == 'c' && CharOf(20) == '5';
    CharsAre(SUM, "lrzec5");
  }

  lemma {:induction false} CharsAre(s: seq<nat>, text: string)
    requires FiveBit(s) && |s| == |text| && forall i :: 0 <= i < |s| ==> CharOf(s[i]) == text[i]
    ensures Chars(s) == text
  {
  }

  lemma {:induction false} AddressChars()
    ensures FiveBit(SUM) && FiveBit(DATA + SUM) && "inj1" + Chars(DATA + SUM) == ADDRESS
  {
    FirstChars();
    SecondChars();
    ThirdChars();
    FourthChars();
    SumChars();
    CharsJoin(FIRST, SECOND);
    CharsJoin(FIRST + SECOND, THIRD);
    CharsJoin(FIRST + SECOND + THIRD, FOURTH);
    CharsJoin(DATA, SUM);
  }

  /** Printing the account gives the address. */
  lemma {:induction false} KnownAddress()
    ensures Encode("inj", ACCOUNT) == ADDRESS
  {
    AccountBits();
    RegroupIs(ACCOUNT, DATA);
    AddressVerifies();
    AddressChars();
    SuffixVerifies("inj", DATA, SUM);
  }
}
