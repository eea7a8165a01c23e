/** Printing and parsing 20-byte addresses: each undoes the other, and damage is noticed. */
module Bech32Address {
  import opened Digits
  import opened BitGroups
  import opened Bech32
  import opened Bech32Distance

  // ------------------------------------------------------------ printing

  function Encode(prefix: string, payload: seq<nat>): string {
    var converted := Regroup(payload, 8, 5, true);
    if converted.None? then "" else
    PaddedInRange(payload);
    prefix + "1" + Chars(converted.value + Checksum(prefix, converted.value))
  }

  // ------------------------------------------------------------ parsing

  /** Bytes a character takes in a string. */
  function Width(c: char): (r: nat)
    ensures 1 <= r <= 4
  {
    if c as nat < 0x80 then 1 else if c as nat < 0x800 then 2 else if c as nat < 0x10000 then 3 else 4
  }

  function ByteLength(s: string): nat {
    if s == "" then 0 else ByteLength(s[..|s| - 1]) + Width(s[|s| - 1])
  }

  function LastIndex(s: string, c: char): (r: int)
    ensures -1 <= r < |s| && (r >= 0 ==> s[r] == c) && forall i :: r < i < |s| ==> s[i] != c
  {
    if s == "" then -1 else if s[|s| - 1] == c then |s| - 1 else LastIndex(s[..|s| - 1], c)
  }

  /** A character cut down to its low byte. */
  function LowByte(c: char): char { (c as nat % 256) as char }

  /** The decoding loop: one symbol per byte, each character giving the first of its bytes the
      symbol of its low byte and leaving the others zero. */
  function Spelled(index: char -> Option<FiveBits>, s: string): (r: Option<seq<nat>>)
    ensures r.Some? ==> FiveBit(r.value) && |r.value| == ByteLength(s)
  {
    if s == "" then Some([]) else
    var before :- Spelled(index, s[..|s| - 1]);
    var first :- index(LowByte(s[|s| - 1]));
    Some(before + [first] + Zeroes(Width(s[|s| - 1]) - 1))
  }

  function Values(s: string): (r: Option<seq<nat>>)
    ensures r.Some? ==> FiveBit(r.value) && |r.value| == ByteLength(s)
  {
    Spelled(IndexOf, s)
  }

  /** `decodeBech32Address`; `lower` is the library's lower-casing. */
  function Decode(lower: string -> string, value: string): Option<seq<nat>> {
    if value == "" || lower(value) != value then None else
    var separator := LastIndex(value, '1');
    if separator <= 0 || ByteLength(value[separator..]) < 7 then None
    else if value[..separator] != PREFIX then None
    else DecodeData(value[separator + 1..])
  }

  function DecodeData(encoded: string): Option<seq<nat>> {
    var values :- Values(encoded);
    DecodeValues(values)
  }

  function DecodeValues(values: seq<nat>): Option<seq<nat>>
    requires FiveBit(values)
  {
    if |values| < 6 || !Verify(PREFIX, values) then None else
    var converted :- Regroup(values[..|values| - 6], 5, 8, false);
    if |converted| != 20 then None else Some(converted)
  }

  // ---------------------------------------------------------- ranges

  lemma {:induction false} ShrFive(x: nat)
    ensures Shr(x, 5) == 0 <==> x < 32
  {
  }

  lemma {:induction false} ShrEight(x: nat)
    ensures Shr(x, 8) == 0 <==> x < 256
  {
  }

  lemma {:induction false} FiveBitRange(s: seq<nat>)
    ensures InRange(s, 5) <==> FiveBit(s)
  {
    forall i | 0 <= i < |s| ensures Shr(s[i], 5) == 0 <==> s[i] < 32 { ShrFive(s[i]); }
  }

  lemma {:induction false} OctetRange(s: seq<nat>)
    ensures InRange(s, 8) <==> Octets(s)
  {
    forall i | 0 <= i < |s| ensures Shr(s[i], 8) == 0 <==> s[i] < 256 { ShrEight(s[i]); }
  }

  lemma {:induction false} PaddedInRange(payload: seq<nat>)
    ensures var r := Regroup(payload, 8, 5, true); r.Some? ==> FiveBit(r.value)
  {
    if InRange(payload, 8) {
      ThereAndBack(payload, 8, 5);
      FiveBitRange(Regroup(payload, 8, 5, true).value);
    }
  }

  // ---------------------------------------------------- plain characters

  predicate Ascii(s: string) { forall i :: 0 <= i < |s| ==> s[i] as nat < 0x80 }

  lemma {:induction false} CharIsPlain(x: nat)
    requires x < 32
    ensures CharOf(x) as nat < 0x80 && CharOf(x) != '1' && !('A' <= CharOf(x) <= 'Z')
  {
  }

  /** Reading and writing symbols are inverse to each other, on plain characters. */
  ghost predicate Spells(index: char -> Option<FiveBits>, letter: FiveBits -> char) {
    && (forall x: FiveBits :: letter(x) as nat < 0x80 && index(letter(x)) == Some(x))
    && (forall c :: index(c).Some? ==> letter(index(c).value) == c)
  }

  lemma {:induction false} LowByteOfPlain(c: char)
    requires c as nat < 0x80
    ensures LowByte(c) == c && Width(c) == 1
  {
  }

  lemma {:induction false} SpelledLetters(index: char -> Option<FiveBits>, letter: FiveBits -> char, s: seq<nat>)
    requires FiveBit(s) && Spells(index, letter)
    ensures Spelled(index, Letters(letter, s)) == Some(s)
  {
    if s != [] {
      var n := |s| - 1;
      SpelledLetters(index, letter, s[..n]);
      assert Letters(letter, s)[..n] == Letters(letter, s[..n]);
      LowByteOfPlain(letter(s[n]));
      assert s == s[..n] + [s[n]] + Zeroes(0);
    }
  }

  lemma {:induction false} LettersSpelled(index: char -> Option<FiveBits>, letter: FiveBits -> char, s: string)
    requires Ascii(s) && Spells(index, letter) && Spelled(index, s).Some?
    ensures Letters(letter, Spelled(index, s).value) == s
  {
    if s != "" {
      var n := |s| - 1;
      LettersSpelled(index, letter, s[..n]);
      LowByteOfPlain(s[n]);
      var before := Spelled(index, s[..n]).value;
      assert Spelled(index, s).value == before + [index(s[n]).value] + [];
      assert s == s[..n] + [s[n]];
    }
  }

  lemma {:induction false} CharsetSpells()
    ensures Spells(IndexOf, CharOf)
  {
    forall x: FiveBits ensures CharOf(x) as nat < 0x80 && IndexOf(CharOf(x)) == Some(x) {
      CharIsPlain(x);
      IndexOfChar(x);
    }
  }

  lemma {:induction false} ValuesOfChars(s: seq<nat>)
    requires FiveBit(s)
    ensures Values(Chars(s)) == Some(s)
  {
    CharsetSpells();
    SpelledLetters(IndexOf, CharOf, s);
  }

  lemma {:induction false} CharsOfValues(s: string)
    requires Ascii(s) && Values(s).Some?
    ensures Chars(Values(s).value) == s
  {
    CharsetSpells();
    LettersSpelled(IndexOf, CharOf, s);
  }

  lemma {:induction false} AsciiLength(s: string)
    requires Ascii(s)
    ensures ByteLength(s) == |s|
  {
    if s != "" { AsciiLength(s[..|s| - 1]); }
  }

  // ------------------------------------------------------------ data parts

  /** Accepted symbols are the printed form of what they decode to. */
  lemma {:induction false} DataIsCanonical(values: seq<nat>, payload: seq<nat>)
    requires FiveBit(values) && |values| >= 6 && Verify(PREFIX, values)
    requires Regroup(values[..|values| - 6], 5, 8, false) == Some(payload)
    ensures Octets(payload) && Encode(PREFIX, payload) == PREFIX + "1" + Chars(values)
  {
    var n := |values| - 6;
    var data, sum := values[..n], values[n..];
    assert values == data + sum;
    SuffixVerifies(PREFIX, data, sum);
    BackAndThere(data, 8, 5);
    OctetRange(payload);
  }

  lemma {:induction false} DataDecodes(payload: seq<nat>, data: seq<nat>)
    requires Octets(payload) && |payload| == 20 && Regroup(payload, 8, 5, true) == Some(data) && FiveBit(data)
    ensures DecodeData(Chars(data + Checksum(PREFIX, data))) == Some(payload)
  {
    var values := data + Checksum(PREFIX, data);
    ValuesOfChars(values);
    SuffixVerifies(PREFIX, data, Checksum(PREFIX, data));
    OctetRange(payload);
    ThereAndBack(payload, 8, 5);
    assert values[..|values| - 6] == data;
  }

  // ------------------------------------------------------------ addresses

  /** Plain lower-case text, as far as letters go. */
  predicate Plain(s: string) { Ascii(s) && forall i :: 0 <= i < |s| ==> !('A' <= s[i] <= 'Z') }

  /** Lower-casing leaves plain lower-case text alone. */
  ghost predicate Lowers(lower: string -> string) { forall s :: Plain(s) ==> lower(s) == s }

  lemma {:induction false} PrintedIsPlain(values: seq<nat>, e: string)
    requires FiveBit(values) && e == PREFIX + "1" + Chars(values)
    ensures Plain(e) && LastIndex(e, '1') == 3 && e[..3] == PREFIX && e[4..] == Chars(values)
    ensures ByteLength(e[3..]) == 1 + |values|
  {
    PrintedChars(values, e);
    assert e[3] == '1';
    AsciiLength(e[3..]);
  }

  lemma {:induction false} PrintedChars(values: seq<nat>, e: string)
    requires FiveBit(values) && e == PREFIX + "1" + Chars(values)
    ensures forall i :: 0 <= i < |e| ==> e[i] as nat < 0x80 && !('A' <= e[i] <= 'Z') && (i > 3 ==> e[i] != '1')
  {
    forall i | 0 <= i < |e| ensures e[i] as nat < 0x80 && !('A' <= e[i] <= 'Z') && (i > 3 ==> e[i] != '1') {
      if i > 3 { CharIsPlain(values[i - 4]); }
    }
  }

  lemma {:induction false} EncodedShape(payload: seq<nat>) returns (values: seq<nat>)
    requires Octets(payload)
    ensures FiveBit(values) && |values| >= 6 && Encode(PREFIX, payload) == PREFIX + "1" + Chars(values)
    ensures |payload| == 20 ==> DecodeData(Chars(values)) == Some(payload)
  {
    OctetRange(payload);
    ThereAndBack(payload, 8, 5);
    PaddedInRange(payload);
    var data := Regroup(payload, 8, 5, true).value;
    values := data + Checksum(PREFIX, data);
    if |payload| == 20 { DataDecodes(payload, data); }
  }

  /** Printing and parsing gives the payload back. */
  lemma {:induction false} DecodeEncode(lower: string -> string, payload: seq<nat>)
    requires Lowers(lower) && Octets(payload) && |payload| == 20
    ensures Decode(lower, Encode(PREFIX, payload)) == Some(payload)
  {
    var values := EncodedShape(payload);
    PrintedIsPlain(values, Encode(PREFIX, payload));
  }

  lemma {:induction false} DecodedShape(lower: string -> string, value: string) returns (values: seq<nat>)
    requires Decode(lower, value).Some?
    ensures |value| >= 4 && value[..4] == PREFIX + "1" && Values(value[4..]) == Some(values)
    ensures FiveBit(values) && |values| >= 6 && Verify(PREFIX, values) && DecodeValues(values).Some?
    ensures Octets(Decode(lower, value).value)
    ensures Encode(PREFIX, Decode(lower, value).value) == PREFIX + "1" + Chars(values)
  {
    var separator := LastIndex(value, '1');
    assert |value[..separator]| == 3;
    assert value[..4] == value[..3] + [value[3]];
    values := Values(value[4..]).value;
    DataIsCanonical(values, Decode(lower, value).value);
  }

  /** An accepted string is the printed form of its payload exactly when it is plain ASCII. */
  lemma {:induction false} CanonicalIffAscii(lower: string -> string, value: string)
    requires Decode(lower, value).Some?
    ensures Encode(PREFIX, Decode(lower, value).value) == value <==> Ascii(value)
  {
    var values := DecodedShape(lower, value);
    PrintedIsPlain(values, PREFIX + "1" + Chars(values));
    if Ascii(value) {
      CharsOfValues(value[4..]);
      assert value == value[..4] + value[4..];
    }
  }

  // ------------------------------------------------------- damage is noticed

  lemma {:induction false} SameSpan(x: seq<nat>, y: seq<nat>, v: string, w: string, at: nat)
    requires FiveBit(x) && FiveBit(y) && AgreeOutside(v, w, at, at + 6)
    requires v == PREFIX + "1" + Chars(x) && w == PREFIX + "1" + Chars(y)
    ensures |x| == |y| && AgreeOutside(x, y, at - 4, at + 2)
  {
    assert |v| == 4 + |x| && |w| == 4 + |y|;
    forall i | 0 <= i < |x| && !(at - 4 <= i < at + 2) ensures x[i] == y[i] {
      assert v[4 + i] == w[4 + i];
      assert CharOf(x[i]) == CharOf(y[i]);
      RankOfChar(x[i]);
      RankOfChar(y[i]);
    }
  }

  /** Two accepted addresses that differ differ in more than any six consecutive characters:
      a burst of up to six wrong characters, a single wrong one included, is always noticed. */
  lemma {:induction false} DamageNoticed(lower: string -> string, v: string, w: string, at: nat)
    requires Ascii(v) && Ascii(w) && AgreeOutside(v, w, at, at + 6)
    requires Decode(lower, v).Some? && Decode(lower, w).Some?
    ensures v == w
  {
    var x := DecodedShape(lower, v);
    var y := DecodedShape(lower, w);
    CanonicalIffAscii(lower, v);
    CanonicalIffAscii(lower, w);
    SameSpan(x, y, v, w, at);
    var q := if at < 4 then 0 else if at + 2 > |x| then |x| - 6 else at - 4;
    SpanDetected(PREFIX, x, y, q);
  }

  /** An address has 32 data symbols and 6 of checksum. */
  lemma {:induction false} AddressLength(values: seq<nat>)
    requires FiveBit(values) && DecodeValues(values).Some?
    ensures |values| == ADDRESS_SYMBOLS
  {
    UnpaddedLength(values[..|values| - 6], 5, 8);
  }

  lemma {:induction false} SameBut(x: seq<nat>, y: seq<nat>, v: string, w: string, a: nat, b: nat, c: nat)
    requires FiveBit(x) && FiveBit(y) && AgreeBut(v, w, a, b, c)
    requires v == PREFIX + "1" + Chars(x) && w == PREFIX + "1" + Chars(y)
    ensures |x| == |y| && AgreeBut(x, y, a - 4, b - 4, c - 4)
  {
    assert |v| == 4 + |x| && |w| == 4 + |y|;
    forall i | 0 <= i < |x| && i != a - 4 && i != b - 4 && i != c - 4 ensures x[i] == y[i] {
      assert v[4 + i] == w[4 + i];
      assert CharOf(x[i]) == CharOf(y[i]);
      RankOfChar(x[i]);
      RankOfChar(y[i]);
    }
  }

  /** Any three places are among three different places of an address, in order. */
  lemma {:induction false} Spread(a: int, b: int, c: int) returns (p: nat, q: nat, r: nat)
    ensures p < q < r < ADDRESS_SYMBOLS
    ensures 0 <= a < ADDRESS_SYMBOLS ==> a == p || a == q || a == r
    ensures 0 <= b < ADDRESS_SYMBOLS ==> b == p || b == q || b == r
    ensures 0 <= c < ADDRESS_SYMBOLS ==> c == p || c == q || c == r
  {
    var x := if 0 <= a < ADDRESS_SYMBOLS then a else 0;
    var y := if 0 <= b < ADDRESS_SYMBOLS && b != x then b else if x != 0 then 0 else 1;
    var z := if 0 <= c < ADDRESS_SYMBOLS && c != x && c != y then c
      else if x != 0 && y != 0 then 0 else if x != 1 && y != 1 then 1 else 2;
    if y < x { x, y := y, x; }
    if z < y { y, z := z, y; }
    if y < x { x, y := y, x; }
    p, q, r := x, y, z;
  }

  lemma {:induction false} ThreePlaces(x: seq<nat>, y: seq<nat>, a: int, b: int, c: int)
    requires FiveBit(x) && FiveBit(y) && AgreeBut(x, y, a, b, c) && |x| == ADDRESS_SYMBOLS && Verify(PREFIX, x)
    requires Verify(PREFIX, y)
    ensures x == y
  {
    var p, q, r := Spread(a, b, c);
    ThreeDetected(PREFIX, x, y, p, q, r);
  }

  /** Two accepted addresses that differ differ in at least four characters, wherever they are. */
  lemma {:induction false} ThreeWrongNoticed(lower: string -> string, v: string, w: string, a: nat, b: nat, c: nat)
    requires Ascii(v) && Ascii(w) && AgreeBut(v, w, a, b, c)
    requires Decode(lower, v).Some? && Decode(lower, w).Some?
    ensures v == w
  {
    var x := DecodedShape(lower, v);
    var y := DecodedShape(lower, w);
    AddressLength(x);
    CanonicalIffAscii(lower, v);
    CanonicalIffAscii(lower, w);
    SameBut(x, y, v, w, a, b, c);
    ThreePlaces(x, y, a - 4, b - 4, c - 4);
  }

  // --------------------------------------------------- other accepted spellings

  /** A two-byte character whose low byte is that of `q`. */
  const TWIN: char := '\U{0171}'

  lemma {:induction false} SameTail(index: char -> Option<FiveBits>, a: string, b: string, tail: string)
    requires Spelled(index, a) == Spelled(index, b)
    ensures Spelled(index, a + tail) == Spelled(index, b + tail)
    decreases |tail|
  {
    if tail == "" {
      assert a + tail == a && b + tail == b;
    } else {
      var n := |tail| - 1;
      SameTail(index, a, b, tail[..n]);
      assert (a + tail)[..|a + tail| - 1] == a + tail[..n] && (b + tail)[..|b + tail| - 1] == b + tail[..n];
    }
  }

  lemma {:induction false} SpelledNext(index: char -> Option<FiveBits>, s: string, c: char)
    requires Spelled(index, s).Some? && index(LowByte(c)).Some?
    ensures Spelled(index, s + [c]) == Some(Spelled(index, s).value + [index(LowByte(c)).value] + Zeroes(Width(c) - 1))
  {
    assert (s + [c])[..|s|] == s;
  }

  lemma {:induction false} TwinSpelled(index: char -> Option<FiveBits>, a: string, tail: string)
    requires Spelled(index, a).Some? && index('q') == Some(0)
    ensures Spelled(index, a + [TWIN] + tail) == Spelled(index, a + ['q', 'q'] + tail)
  {
    var before := Spelled(index, a).value;
    assert LowByte(TWIN) == 'q' && Width(TWIN) == 2 && LowByte('q') == 'q' && Width('q') == 1;
    SpelledNext(index, a, TWIN);
    SpelledNext(index, a, 'q');
    SpelledNext(index, a + ['q'], 'q');
    assert a + ['q'] + ['q'] == a + ['q', 'q'];
    assert before + [0] + Zeroes(1) == before + [0] + Zeroes(0) + [0] + Zeroes(0);
    SameTail(index, a + [TWIN], a + ['q', 'q'], tail);
  }

  lemma {:induction false} LengthOfTail(c: char, s: string)
    ensures ByteLength([c] + s) == Width(c) + ByteLength(s)
  {
    if s == "" {
      assert ([c] + s)[..0] == "";
    } else {
      LengthOfTail(c, s[..|s| - 1]);
      assert ([c] + s)[..|s|] == [c] + s[..|s| - 1];
    }
  }

  lemma {:induction false} DecodeParts(lower: string -> string, v: string)
    requires |v| >= 4 && v[..4] == PREFIX + "1" && lower(v) == v && (forall i :: 4 <= i < |v| ==> v[i] != '1')
    requires ByteLength(v[4..]) >= 6
    ensures Decode(lower, v) == DecodeData(v[4..])
  {
    assert v[3] == (PREFIX + "1")[3] == '1';
    assert v[..3] == v[..4][..3] == PREFIX;
    assert v[3..] == [v[3]] + v[4..];
    LengthOfTail(v[3], v[4..]);
  }

  lemma {:induction false} TwinHasNoOne(values: seq<nat>, middle: string, tail: string)
    requires FiveBit(values) && Chars(values) == middle + ['q', 'q'] + tail
    ensures forall i :: 0 <= i < |middle + [TWIN] + tail| ==> (middle + [TWIN] + tail)[i] != '1'
  {
    var encoded, twin := middle + ['q', 'q'] + tail, middle + [TWIN] + tail;
    forall i | 0 <= i < |twin| ensures twin[i] != '1' {
      if i < |middle| {
        assert twin[i] == encoded[i];
        CharIsPlain(values[i]);
      } else if i > |middle| {
        assert twin[i] == encoded[i + 1];
        CharIsPlain(values[i + 1]);
      }
    }
  }

  lemma {:induction false} TwinData(values: seq<nat>, middle: string, tail: string)
    requires FiveBit(values) && |values| >= 6 && Chars(values) == middle + ['q', 'q'] + tail
    requires Spelled(IndexOf, middle).Some?
    ensures DecodeData(middle + [TWIN] + tail) == DecodeData(Chars(values)) && ByteLength(middle + [TWIN] + tail) >= 6
  {
    IndexOfChar(0);
    TwinSpelled(IndexOf, middle, tail);
    ValuesOfChars(values);
  }

  /** Outside ASCII the decoder accepts a second spelling of the same payload: `qq` may be
      written as one two-byte character. */
  lemma {:induction false} TwinAccepted(lower: string -> string, payload: seq<nat>, middle: string, tail: string,
      w: string)
    requires Octets(payload) && |payload| == 20 && Spelled(IndexOf, middle).Some?
    requires Encode(PREFIX, payload) == PREFIX + "1" + (middle + ['q', 'q'] + tail)
    requires w == PREFIX + "1" + (middle + [TWIN] + tail) && lower(w) == w
    ensures Decode(lower, w) == Some(payload) && w != Encode(PREFIX, payload)
  {
    var values := EncodedShape(payload);
    assert (PREFIX + "1" + Chars(values))[4..] == (PREFIX + "1" + (middle + ['q', 'q'] + tail))[4..];
    TwinData(values, middle, tail);
    TwinHasNoOne(values, middle, tail);
    assert w[4..] == middle + [TWIN] + tail && w[..4] == PREFIX + "1";
    DecodeParts(lower, w);
    assert |w| != |Encode(PREFIX, payload)|;
  }

  lemma {:induction false} StreamOfZeroes(n: nat, w: nat)
    ensures Stream(Zeroes(n), w) == BitGroups.Zeros(|Stream(Zeroes(n), w)|) && (w >= 1 ==> |Stream(Zeroes(n), w)| >= n)
  {
    if n > 0 {
      assert Zeroes(n)[1..] == Zeroes(n - 1);
      StreamOfZeroes(n - 1, w);
      BitsOfZero(w);
    }
  }

  lemma {:induction false} ZeroSymbols(bits: seq<bool>)
    requires |bits| >= 10 && bits == BitGroups.Zeros(|bits|)
    ensures |Groups(bits, 5)| >= 2 && Groups(bits, 5)[0] == 0 && Groups(bits, 5)[1] == 0
  {
    assert bits[..5] == BitGroups.Zeros(5) && bits[5..][..5] == BitGroups.Zeros(5);
    ReadZero(BitGroups.Zeros(5));
    assert Groups(bits, 5) == [0] + Groups(bits[5..], 5);
    assert Groups(bits[5..], 5) == [0] + Groups(bits[5..][5..], 5);
  }

  lemma {:induction false} ZeroData(n: nat)
    requires n >= 10
    ensures var r := Regroup(Zeroes(n), 8, 5, true);
      r.Some? && FiveBit(r.value) && |r.value| >= 2 && r.value[0] == 0 && r.value[1] == 0
  {
    StreamOfZeroes(n, 8);
    ZeroSymbols(Stream(Zeroes(n), 8));
    OctetRange(Zeroes(n));
    PaddedInRange(Zeroes(n));
  }

  lemma {:induction false} ZeroEncoded(n: nat, e: string)
    requires n >= 10 && e == Encode(PREFIX, Zeroes(n))
    ensures |e| >= 6 && e == PREFIX + "1" + ("" + ['q', 'q'] + e[6..])
  {
    ZeroData(n);
    var data := Regroup(Zeroes(n), 8, 5, true).value;
    var encoded := Chars(data + Checksum(PREFIX, data));
    assert e[6..] == encoded[2..];
    assert CharOf(0) == 'q';
    assert encoded == "" + ['q', 'q'] + encoded[2..];
  }

  /** Such a second spelling exists: the zero address begins with `qq`. */
  lemma {:induction false} ZeroAddressHasTwin(lower: string -> string, zero: seq<nat>, e: string, w: string)
    requires zero == Zeroes(20) && e == Encode(PREFIX, zero) && |e| >= 6
    requires w == PREFIX + "1" + ("" + [TWIN] + e[6..]) && lower(w) == w
    ensures Decode(lower, w) == Some(zero) && w != Encode(PREFIX, zero)
  {
    ZeroEncoded(20, e);
    TwinAccepted(lower, zero, "", e[6..], w);
  }
}
