/** The bech32 address codec for the `inj` prefix. */
module Bech32 {
  import opened Digits
  import opened BitGroups
  import opened LinearRegister
  import opened Bech32Checksum

  const CHARSET: string := "qpzry9x8gf2tvdw0s3jn54khce6mua7l"
  const PREFIX: string := "inj"

  // ---------------------------------------------------- symbols and words

  predicate Octets(s: seq<nat>) { forall i :: 0 <= i < |s| ==> s[i] < 256 }

  predicate FiveBit(s: seq<nat>) { forall i :: 0 <= i < |s| ==> s[i] < 32 }

  function Word(x: nat): bv32
    requires x < 256
  {
    x as bv32
  }

  function Symbol(w: bv32): (r: nat)
    ensures r < 32
  {
    (w & 31) as nat
  }

  lemma {:induction false} WordOfSymbol(w: bv32)
    requires w < 32
    ensures Word(Symbol(w)) == w
  {
    assert w & 31 == w;
  }

  lemma {:induction false} SymbolOfWord(x: nat)
    requires x < 32
    ensures Symbol(Word(x)) == x && Word(x) < 32
  {
  }

  lemma {:induction false} WordLive(x: nat)
    requires x < 256
    ensures Live(Word(x))
  {
  }

  function Words(s: seq<nat>): (r: seq<bv32>)
    requires Octets(s)
    ensures |r| == |s|
  {
    seq(|s|, i requires 0 <= i < |s| => Word(s[i]))
  }

  function SymbolsOf(s: seq<bv32>): (r: seq<nat>)
    ensures |r| == |s| && FiveBit(r)
  {
    seq(|s|, i requires 0 <= i < |s| => Symbol(s[i]))
  }

  // ------------------------------------------------------------ checksum

  function HrpExpand(prefix: string): (r: seq<nat>)
    ensures Octets(r)
  {
    seq(|prefix|, i requires 0 <= i < |prefix| => (prefix[i] as nat / 32) % 256) + [0] +
    seq(|prefix|, i requires 0 <= i < |prefix| => prefix[i] as nat % 32)
  }

  function Zeroes(n: nat): (r: seq<nat>)
    ensures |r| == n && FiveBit(r)
  {
    seq(n, _ => 0)
  }

  /** `bech32Polymod`. */
  function Remainder(values: seq<nat>): bv32
    requires Octets(values)
  {
    Shift(Polymod(), 1, Words(values))
  }

  function Checksum(prefix: string, values: seq<nat>): (r: seq<nat>)
    requires Octets(values)
    ensures |r| == 6 && FiveBit(r)
  {
    SymbolsOf(Unpack(Xor(Remainder(HrpExpand(prefix) + values + Zeroes(6)), 1)))
  }

  predicate Verify(prefix: string, values: seq<nat>)
    requires Octets(values)
  {
    Remainder(HrpExpand(prefix) + values) == 1
  }

  lemma {:induction false} WordsAppend(a: seq<nat>, b: seq<nat>)
    requires Octets(a) && Octets(b)
    ensures Words(a + b) == Words(a) + Words(b)
  {
  }

  lemma {:induction false} WordsOfZeroes(n: nat)
    ensures Words(Zeroes(n)) == Blank(Polymod(), n)
  {
  }

  lemma {:induction false} WordsLive(s: seq<nat>)
    requires Octets(s)
    ensures AllLive(Live, Words(s))
  {
    forall i | 0 <= i < |s| ensures Live(Words(s)[i]) { WordLive(s[i]); }
  }

  lemma {:induction false} SymbolsOfWords(s: seq<nat>)
    requires FiveBit(s)
    ensures Symbols(Words(s)) && SymbolsOf(Words(s)) == s
  {
    forall i | 0 <= i < |s| ensures Words(s)[i] < 32 && SymbolsOf(Words(s))[i] == s[i] { SymbolOfWord(s[i]); }
  }

  lemma {:induction false} WordsOfSymbols(s: seq<bv32>)
    requires Symbols(s)
    ensures Words(SymbolsOf(s)) == s
  {
    forall i | 0 <= i < |s| ensures Words(SymbolsOf(s))[i] == s[i] { WordOfSymbol(s[i]); }
  }

  lemma {:induction false} RemainderLive(values: seq<nat>)
    requires Octets(values)
    ensures Live(Remainder(values))
  {
    WordsLive(values);
    PolymodFaithful();
    ShiftLive(Polymod(), Live, 1, Words(values));
  }

  lemma {:induction false} RemainderOfSum(data: seq<nat>, sum: seq<nat>)
    requires Octets(data) && Octets(sum)
    ensures Octets(data + sum) && Remainder(data + sum) == Shift(Polymod(), Remainder(data), Words(sum))
  {
    WordsAppend(data, sum);
    ShiftSplit(Polymod(), 1, Words(data), Words(sum));
  }

  lemma {:induction false} ChecksumIsDue(prefix: string, data: seq<nat>)
    requires Octets(data)
    ensures Checksum(prefix, data) == SymbolsOf(Unpack(Due(Polymod(), Remainder(HrpExpand(prefix) + data), 6, 1)))
  {
    RemainderOfSum(HrpExpand(prefix) + data, Zeroes(6));
    WordsOfZeroes(6);
  }

  lemma {:induction false} SumDecides(c: bv32, sum: seq<nat>, due: seq<bv32>)
    requires Live(c) && FiveBit(sum) && |sum| == 6 && due == Unpack(Due(Polymod(), c, 6, 1))
    ensures Shift(Polymod(), c, Words(sum)) == 1 <==> sum == SymbolsOf(due)
  {
    SymbolsOfWords(sum);
    ClosingDecides(Polymod(), c, Words(sum));
    UnpackIsSymbols(Due(Polymod(), c, 6, 1));
    WordsOfSymbols(due);
  }

  /** A six-symbol suffix verifies exactly when it is the computed checksum, for any length. */
  lemma {:induction false} SuffixVerifies(prefix: string, data: seq<nat>, sum: seq<nat>)
    requires Octets(data) && FiveBit(sum) && |sum| == 6
    ensures Verify(prefix, data + sum) <==> sum == Checksum(prefix, data)
  {
    var all := HrpExpand(prefix) + data;
    assert HrpExpand(prefix) + (data + sum) == all + sum;
    RemainderOfSum(all, sum);
    RemainderLive(all);
    ChecksumIsDue(prefix, data);
    SumDecides(Remainder(all), sum, Unpack(Due(Polymod(), Remainder(all), 6, 1)));
  }

  // ----------------------------------------------------- errors are detected

  lemma {:induction false} SamePatternSameSymbols(x: seq<bv32>, y: seq<bv32>, m: bv32)
    requires Symbols(x) && Symbols(y) && |x| == |y| == 6 && Live(m)
    requires Shift(Polymod(), 0, x) == m && Shift(Polymod(), 0, y) == m
    ensures x == y
  {
    Unpacks(m, x);
    Unpacks(m, y);
  }

  lemma {:induction false} WindowSame(before: seq<nat>, x: seq<nat>, y: seq<nat>, after: seq<nat>)
    requires Octets(before) && FiveBit(x) && FiveBit(y) && Octets(after) && |x| == |y| == 6
    requires Remainder(before + x + after) == Remainder(before + y + after)
    ensures x == y
  {
    forall s | s == x || s == y ensures Words(before + s + after) == Words(before) + Words(s) + Words(after) {
      WordsAppend(before + s, after);
      WordsAppend(before, s);
    }
    WordsLive(before);
    WordsLive(x);
    WordsLive(y);
    WordsLive(after);
    PolymodSound();
    PolymodFaithful();
    WindowDecides(Polymod(), Live, 1, Words(before), Words(x), Words(y), Words(after));
    ShiftLive(Polymod(), Live, 0, Words(x));
    SymbolsOfWords(x);
    SymbolsOfWords(y);
    SamePatternSameSymbols(Words(x), Words(y), Shift(Polymod(), 0, Words(x)));
  }

  predicate AgreeOutside<T(==)>(x: seq<T>, y: seq<T>, from: int, to: int) {
    |x| == |y| && forall i :: 0 <= i < |x| && !(from <= i < to) ==> x[i] == y[i]
  }

  /** Two symbol strings that verify and agree outside six consecutive places are equal. */
  lemma {:induction false} SpanDetected(prefix: string, x: seq<nat>, y: seq<nat>, q: nat)
    requires FiveBit(x) && FiveBit(y) && AgreeOutside(x, y, q, q + 6) && q + 6 <= |x|
    requires Verify(prefix, x) && Verify(prefix, y)
    ensures x == y
  {
    var h := HrpExpand(prefix);
    var before, after := h + x[..q], x[q + 6..];
    assert y[..q] == x[..q] && y[q + 6..] == after;
    assert h + x == before + x[q..q + 6] + after;
    assert h + y == before + y[q..q + 6] + after;
    WindowSame(before, x[q..q + 6], y[q..q + 6], after);
    assert x == x[..q] + x[q..q + 6] + after && y == y[..q] + y[q..q + 6] + after;
  }

  // ------------------------------------------------------------ characters

  function CharOf(x: FiveBits): char {
    CHARSET[x]
  }

  type FiveBits = x: nat | x < 32

  function Letters(letter: FiveBits -> char, s: seq<nat>): (r: string)
    requires FiveBit(s)
    ensures |r| == |s|
  {
    seq(|s|, i requires 0 <= i < |s| => letter(s[i]))
  }

  function Chars(s: seq<nat>): (r: string)
    requires FiveBit(s)
    ensures |r| == |s|
  {
    Letters(CharOf, s)
  }

  /** `strings.IndexByte`. */
  function Find(s: string, c: char, from: nat): (r: Option<nat>)
    requires from <= |s|
    ensures r.Some? ==> from <= r.value < |s| && s[r.value] == c
    ensures r.None? ==> forall i :: from <= i < |s| ==> s[i] != c
    decreases |s| - from
  {
    if from == |s| then None else if s[from] == c then Some(from) else Find(s, c, from + 1)
  }

  function IndexOf(c: char): (r: Option<FiveBits>)
    ensures r.Some? ==> CharOf(r.value) == c
  {
    var r := Find(CHARSET, c, 0);
    if r.None? then None else Some(r.value)
  }

  /** Position in the character set, by a table. */
  function Rank(c: char): nat {
    match c
    case 'q' => 0 case 'p' => 1 case 'z' => 2 case 'r' => 3 case 'y' => 4 case '9' => 5 case 'x' => 6 case '8' => 7
    case 'g' => 8 case 'f' => 9 case '2' => 10 case 't' => 11 case 'v' => 12 case 'd' => 13 case 'w' => 14
    case '0' => 15
    case 's' => 16 case '3' => 17 case 'j' => 18 case 'n' => 19 case '5' => 20 case '4' => 21 case 'k' => 22
    case 'h' => 23
    case 'c' => 24 case 'e' => 25 case '6' => 26 case 'm' => 27 case 'u' => 28 case 'a' => 29 case '7' => 30
    case 'l' => 31
    case _ => 32
  }

  lemma {:induction false} RankOfChar(x: nat)
    requires x < 32
    ensures Rank(CharOf(x)) == x
  {
  }

  lemma {:induction false} IndexOfChar(x: nat)
    requires x < 32
    ensures IndexOf(CharOf(x)) == Some(x as FiveBits)
  {
    RankOfChar(x);
    var r := IndexOf(CharOf(x));
    assert r.Some?;
    RankOfChar(r.value);
  }
}
