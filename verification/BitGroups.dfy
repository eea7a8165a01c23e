/** Regrouping a big-endian bit string from `f`-bit to `t`-bit groups. */
module BitGroups {
  import opened Digits

  // ------------------------------------------------------- machine operations

  /** `x << n` and `x >> n`, unbounded, and the low `n` bits of `x`. */
  function Shl(x: nat, n: nat): nat
    decreases n
  {
    if n == 0 then x else 2 * Shl(x, n - 1)
  }

  function Shr(x: nat, n: nat): nat
    decreases n
  {
    if n == 0 then x else Shr(x / 2, n - 1)
  }

  function Low(x: nat, n: nat): nat
    decreases n
  {
    if n == 0 then 0 else 2 * Low(x / 2, n - 1) + x % 2
  }

  // ------------------------------------------------------------- bit strings

  /** The low `n` bits of `x`, most significant first. */
  function Bits(x: nat, n: nat): (r: seq<bool>)
    ensures |r| == n
    decreases n
  {
    if n == 0 then [] else Bits(x / 2, n - 1) + [x % 2 == 1]
  }

  function Read(bits: seq<bool>): nat {
    if bits == [] then 0 else 2 * Read(bits[..|bits| - 1]) + (if bits[|bits| - 1] then 1 else 0)
  }

  function Zeros(n: nat): (r: seq<bool>)
    ensures |r| == n
  {
    seq(n, _ => false)
  }

  /** All groups, written out at `w` bits each. */
  function Stream(data: seq<nat>, w: nat): seq<bool> {
    if data == [] then [] else Bits(data[0], w) + Stream(data[1..], w)
  }

  /** The complete groups of `w` bits, and the bits left over. */
  function Groups(bits: seq<bool>, w: nat): seq<nat>
    requires w > 0
  {
    if |bits| < w then [] else [Read(bits[..w])] + Groups(bits[w..], w)
  }

  function Rest(bits: seq<bool>, w: nat): (r: seq<bool>)
    requires w > 0
    ensures |r| < w
  {
    if |bits| < w then bits else Rest(bits[w..], w)
  }

  /** A last group, completed by zeros. */
  function Completed(groups: seq<nat>, rest: seq<bool>, w: nat): seq<nat>
    requires |rest| < w
  {
    if rest == [] then groups else groups + [Read(rest + Zeros(w - |rest|))]
  }

  predicate InRange(s: seq<nat>, w: nat) { forall i :: 0 <= i < |s| ==> Shr(s[i], w) == 0 }

  predicate Widths(f: nat, t: nat) { 1 <= f <= 8 && 1 <= t <= 8 }

  /** What becomes of an incomplete last group: with padding it is completed by zeros, without
      padding it must be shorter than an input group and zero. */
  function Finish(groups: seq<nat>, rest: seq<bool>, f: nat, t: nat, pad: bool): Option<seq<nat>>
    requires |rest| < t
  {
    if pad then Some(Completed(groups, rest, t))
    else if |rest| >= f || rest != Zeros(|rest|) then None
    else Some(groups)
  }

  /** `bech32ConvertBits`, on the bit string. */
  function Regroup(data: seq<nat>, f: nat, t: nat, pad: bool): Option<seq<nat>> {
    if !Widths(f, t) || !InRange(data, f) then None else
    Finish(Groups(Stream(data, f), t), Rest(Stream(data, f), t), f, t, pad)
  }

  // ------------------------------------------------------ bits and numbers

  lemma {:induction false} ReadBits(x: nat, n: nat)
    ensures Read(Bits(x, n)) == Low(x, n)
    decreases n
  {
    if n > 0 {
      ReadBits(x / 2, n - 1);
      assert Bits(x, n)[..n - 1] == Bits(x / 2, n - 1);
    }
  }

  lemma {:induction false} LowInRange(x: nat, n: nat)
    requires Shr(x, n) == 0
    ensures Low(x, n) == x
    decreases n
  {
    if n > 0 { LowInRange(x / 2, n - 1); }
  }

  lemma {:induction false} BitsRead(bits: seq<bool>)
    ensures Bits(Read(bits), |bits|) == bits && Shr(Read(bits), |bits|) == 0
  {
    if bits != [] {
      var n := |bits| - 1;
      BitsRead(bits[..n]);
      assert bits == bits[..n] + [bits[n]];
    }
  }

  lemma {:induction false} ReadBack(x: nat, w: nat)
    requires Shr(x, w) == 0
    ensures Read(Bits(x, w)) == x
  {
    ReadBits(x, w);
    LowInRange(x, w);
  }

  // ------------------------------------------------------------ round trips

  lemma {:induction false} CutHead(head: seq<bool>, tail: seq<bool>, w: nat)
    requires w > 0 && |head| == w
    ensures Groups(head + tail, w) == [Read(head)] + Groups(tail, w) && Rest(head + tail, w) == Rest(tail, w)
  {
    assert (head + tail)[..w] == head && (head + tail)[w..] == tail;
  }

  lemma {:induction false} StreamHead(x: nat, s: seq<nat>, w: nat)
    ensures Stream([x] + s, w) == Bits(x, w) + Stream(s, w)
  {
    assert ([x] + s)[1..] == s;
  }

  lemma {:induction false} Associates(a: seq<bool>, b: seq<bool>, c: seq<bool>)
    ensures (a + b) + c == a + (b + c)
  {
  }

  lemma {:induction false} GroupsInRange(bits: seq<bool>, w: nat)
    requires w > 0
    ensures InRange(Groups(bits, w), w)
  {
    if |bits| >= w {
      GroupsInRange(bits[w..], w);
      BitsRead(bits[..w]);
    }
  }

  /** Cutting up loses nothing. */
  lemma {:induction false} CutLosesNothing(bits: seq<bool>, w: nat)
    requires w > 0
    ensures Stream(Groups(bits, w), w) + Rest(bits, w) == bits
  {
    if |bits| < w {
      assert [] + bits == bits;
    } else {
      var head, tail := bits[..w], bits[w..];
      CutLosesNothing(tail, w);
      BitsRead(head);
      StreamHead(Read(head), Groups(tail, w), w);
      Associates(head, Stream(Groups(tail, w), w), Rest(tail, w));
      assert head + tail == bits;
    }
  }

  /** Written groups are cut up again as they were. */
  lemma {:induction false} CutOfStream(s: seq<nat>, w: nat, more: seq<bool>)
    requires w > 0 && InRange(s, w) && |more| < w
    ensures Groups(Stream(s, w) + more, w) == s && Rest(Stream(s, w) + more, w) == more
  {
    if s == [] {
      assert [] + more == more;
    } else {
      var x, tail := s[0], s[1..];
      CutOfStream(tail, w, more);
      Associates(Bits(x, w), Stream(tail, w), more);
      CutHead(Bits(x, w), Stream(tail, w) + more, w);
      ReadBack(x, w);
      assert s == [x] + tail;
    }
  }

  lemma {:induction false} StreamLength(s: seq<nat>, w: nat)
    ensures |Stream(s, w)| == |s| * w
  {
    if s != [] {
      StreamLength(s[1..], w);
      OneMore(|s| - 1, w);
    }
  }

  lemma {:induction false} CutLength(bits: seq<bool>, w: nat)
    requires w > 0
    ensures |bits| == |Groups(bits, w)| * w + |Rest(bits, w)|
  {
    if |bits| >= w {
      CutLength(bits[w..], w);
      OneMore(|Groups(bits[w..], w)|, w);
    }
  }

  lemma {:induction false} OneMore(n: nat, w: nat)
    ensures (1 + n) * w == w + n * w
  {
  }

  /** Without padding nothing is added and less than one input group is dropped. */
  lemma {:induction false} UnpaddedLength(data: seq<nat>, f: nat, t: nat)
    requires Regroup(data, f, t, false).Some?
    ensures var n := |Regroup(data, f, t, false).value|; n * t <= |data| * f < n * t + f
  {
    StreamLength(data, f);
    CutLength(Stream(data, f), t);
  }

  lemma {:induction false} StreamAppend(s: seq<nat>, x: nat, w: nat)
    ensures Stream(s + [x], w) == Stream(s, w) + Bits(x, w)
  {
    if s == [] {
      StreamHead(x, [], w);
      assert s + [x] == [x] + [] && Bits(x, w) + [] == [] + Bits(x, w);
    } else {
      StreamAppend(s[1..], x, w);
      assert (s + [x])[1..] == s[1..] + [x];
      Associates(Bits(s[0], w), Stream(s[1..], w), Bits(x, w));
    }
  }

  /** Completion writes the bit string and then fewer zeros than a group. */
  lemma {:induction false} CompletedStream(bits: seq<bool>, groups: seq<nat>, rest: seq<bool>, w: nat)
    returns (extra: nat)
    requires |rest| < w && Stream(groups, w) + rest == bits && InRange(groups, w)
    ensures extra < w && Stream(Completed(groups, rest, w), w) == bits + Zeros(extra)
    ensures InRange(Completed(groups, rest, w), w)
  {
    if rest == [] {
      extra := 0;
      assert Stream(groups, w) + [] == bits + Zeros(0);
    } else {
      extra := w - |rest|;
      CompletedBy(groups, rest + Zeros(extra), w);
      Associates(Stream(groups, w), rest, Zeros(extra));
    }
  }

  lemma {:induction false} CompletedBy(groups: seq<nat>, last: seq<bool>, w: nat)
    requires |last| == w && InRange(groups, w)
    ensures Stream(groups + [Read(last)], w) == Stream(groups, w) + last && InRange(groups + [Read(last)], w)
  {
    BitsRead(last);
    StreamAppend(groups, Read(last), w);
  }

  /** Bytes survive: wide to narrow groups with padding, and back without. */
  lemma {:induction false} ThereAndBack(data: seq<nat>, f: nat, t: nat)
    requires Widths(f, t) && t <= f && InRange(data, f)
    ensures var there := Regroup(data, f, t, true);
      there.Some? && InRange(there.value, t) && Regroup(there.value, t, f, false) == Some(data)
  {
    var bits := Stream(data, f);
    CutLosesNothing(bits, t);
    GroupsInRange(bits, t);
    var extra := CompletedStream(bits, Groups(bits, t), Rest(bits, t), t);
    CutOfStream(data, f, Zeros(extra));
  }

  lemma {:induction false} ShortStream(s: seq<nat>, w: nat)
    ensures |Stream(s, w)| < w ==> s == []
  {
    if s != [] { assert |Bits(s[0], w)| == w; }
  }

  lemma {:induction false} CompletedHead(x: nat, groups: seq<nat>, rest: seq<bool>, w: nat)
    requires |rest| < w
    ensures Completed([x] + groups, rest, w) == [x] + Completed(groups, rest, w)
  {
  }

  /** A single group that lost its last zeros. */
  lemma {:induction false} LastShort(x: nat, tail: seq<nat>, w: nat, bits: seq<bool>, zeros: nat)
    requires |bits| < w && zeros < w && Shr(x, w) == 0 && bits + Zeros(zeros) == Bits(x, w) + Stream(tail, w)
    ensures tail == [] && Completed([], bits, w) == [x]
  {
    var all := bits + Zeros(zeros);
    assert |all| == |bits| + zeros == w + |Stream(tail, w)|;
    ShortStream(tail, w);
    assert zeros == w - |bits| && bits != [];
    assert all == Bits(x, w) + [] == Bits(x, w);
    ReadBack(x, w);
  }

  /** Fewer zeros than a group, cut off the end of written groups, come back by completion. */
  lemma {:induction false} CutShort(s: seq<nat>, w: nat, bits: seq<bool>, zeros: nat)
    requires w > 0 && InRange(s, w) && zeros < w && bits + Zeros(zeros) == Stream(s, w)
    ensures Completed(Groups(bits, w), Rest(bits, w), w) == s
  {
    if s == [] {
      assert |bits| + zeros == 0;
    } else {
      var x, tail := s[0], s[1..];
      assert s == [x] + tail;
      if |bits| >= w {
        var head, more := bits[..w], bits[w..];
        Associates(head, more, Zeros(zeros));
        assert head + more == bits;
        assert (head + (more + Zeros(zeros)))[..w] == head;
        assert (head + (more + Zeros(zeros)))[w..] == more + Zeros(zeros);
        assert (Bits(x, w) + Stream(tail, w))[..w] == Bits(x, w);
        assert (Bits(x, w) + Stream(tail, w))[w..] == Stream(tail, w);
        ReadBack(x, w);
        CutShort(tail, w, more, zeros);
        CutHead(head, more, w);
        CompletedHead(x, Groups(more, w), Rest(more, w), w);
      } else {
        LastShort(x, tail, w, bits, zeros);
      }
    }
  }

  /** Symbols survive: what is accepted without padding comes back with it. */
  lemma {:induction false} BackAndThere(symbols: seq<nat>, f: nat, t: nat)
    requires Widths(f, t) && t <= f && Regroup(symbols, t, f, false).Some?
    ensures var back := Regroup(symbols, t, f, false).value;
      InRange(back, f) && Regroup(back, f, t, true) == Some(symbols)
  {
    var bits := Stream(symbols, t);
    var back, rest := Groups(bits, f), Rest(bits, f);
    CutLosesNothing(bits, f);
    GroupsInRange(bits, f);
    CutShort(symbols, t, Stream(back, f), |rest|);
  }

  // ------------------------------------------------------------ the loop

  lemma {:induction false} BitsPush(x: nat, v: nat, w: nat, f: nat)
    requires Shr(v, f) == 0
    ensures Bits(Shl(x, f) + v, w + f) == Bits(x, w) + Bits(v, f)
    decreases f
  {
    if f == 0 {
      assert Bits(x, w) + [] == Bits(x, w);
    } else {
      BitsPush(x, v / 2, w, f - 1);
      assert (Shl(x, f) + v) / 2 == Shl(x, f - 1) + v / 2 && (Shl(x, f) + v) % 2 == v % 2;
      assert w + f - 1 == w + (f - 1);
      Associates(Bits(x, w), Bits(v / 2, f - 1), [v % 2 == 1]);
    }
  }

  lemma {:induction false} BitsOfLow(x: nat, w: nat, n: nat)
    requires w <= n
    ensures Bits(Low(x, n), w) == Bits(x, w)
    decreases w
  {
    if w > 0 {
      BitsOfLow(x / 2, w - 1, n - 1);
      assert Low(x, n) / 2 == Low(x / 2, n - 1) && Low(x, n) % 2 == x % 2;
    }
  }

  lemma {:induction false} BitsSplit(x: nat, t: nat, b: nat)
    ensures Bits(x, t + b) == Bits(Shr(x, b), t) + Bits(x, b)
    decreases b
  {
    if b == 0 {
      assert Bits(x, t) + [] == Bits(x, t);
    } else {
      BitsSplit(x / 2, t, b - 1);
      assert t + b - 1 == t + (b - 1);
      Associates(Bits(Shr(x, b), t), Bits(x / 2, b - 1), [x % 2 == 1]);
    }
  }

  lemma {:induction false} LowFits(x: nat, n: nat)
    ensures Shr(Low(x, n), n) == 0
    decreases n
  {
    if n > 0 { LowFits(x / 2, n - 1); }
  }

  lemma {:induction false} BitsOfZero(n: nat)
    ensures Bits(0, n) == Zeros(n) && Shr(0, n) == 0
  {
    if n > 0 { BitsOfZero(n - 1); }
  }

  lemma {:induction false} ReadZero(bits: seq<bool>)
    ensures Read(bits) == 0 <==> bits == Zeros(|bits|)
  {
    if bits != [] {
      var n := |bits| - 1;
      ReadZero(bits[..n]);
      assert bits == bits[..n] + [bits[n]];
      assert Zeros(|bits|) == Zeros(n) + [false];
    }
  }

  lemma {:induction false} Accept(groups: seq<nat>, acc: nat, bits: nat, f: nat, t: nat, v: nat, word: nat,
      before: seq<bool>)
    requires Shr(v, f) == 0 && bits + f <= word && Stream(groups, t) + Bits(acc, bits) == before
    ensures Stream(groups, t) + Bits(Low(Shl(acc, f) + v, word), bits + f) == before + Bits(v, f)
  {
    BitsOfLow(Shl(acc, f) + v, bits + f, word);
    BitsPush(acc, v, bits, f);
    Associates(Stream(groups, t), Bits(acc, bits), Bits(v, f));
  }

  lemma {:induction false} Emit(groups: seq<nat>, acc: nat, bits: nat, t: nat, before: seq<bool>)
    requires Stream(groups, t) + Bits(acc, t + bits) == before && InRange(groups, t)
    ensures var g := groups + [Low(Shr(acc, bits), t)]; Stream(g, t) + Bits(acc, bits) == before && InRange(g, t)
  {
    var x := Shr(acc, bits);
    BitsSplit(acc, t, bits);
    BitsOfLow(x, t, t);
    LowFits(x, t);
    StreamAppend(groups, Low(x, t), t);
    Associates(Stream(groups, t), Bits(x, t), Bits(acc, bits));
  }

  lemma {:induction false} LowOfLow(x: nat, n: nat, word: nat)
    requires n <= word
    ensures Low(Low(x, word), n) == Low(x, n)
    decreases n
  {
    if n > 0 {
      LowOfLow(x / 2, n - 1, word - 1);
      assert Low(x, word) / 2 == Low(x / 2, word - 1) && Low(x, word) % 2 == x % 2;
    }
  }

  lemma {:induction false} PaddingBits(x: nat, bits: nat, n: nat)
    ensures Bits(Shl(x, n), bits + n) == Bits(x, bits) + Zeros(n)
  {
    BitsOfZero(n);
    BitsPush(x, 0, bits, n);
    assert Shl(x, n) + 0 == Shl(x, n);
  }

  lemma {:induction false} LowReads(x: nat, t: nat, word: nat, b: seq<bool>)
    requires t <= word && Bits(x, t) == b
    ensures Low(Low(x, word), t) == Read(b)
  {
    LowOfLow(x, t, word);
    ReadBits(x, t);
  }

  lemma {:induction false} ReadsZero(bits: seq<bool>, n: nat)
    ensures Read(bits + Zeros(n)) == 0 <==> bits == Zeros(|bits|)
  {
    var all := bits + Zeros(n);
    ReadZero(all);
    assert all[..|bits|] == bits;
    assert Zeros(|all|)[..|bits|] == Zeros(|bits|) && Zeros(|bits|) + Zeros(n) == Zeros(|all|);
  }

  /** Everything written so far is in `result` and the low `bits` bits of `acc`. */
  ghost predicate Holds(result: seq<nat>, acc: nat, bits: nat, t: nat, written: seq<bool>) {
    InRange(result, t) && Stream(result, t) + Bits(acc, bits) == written
  }

  /** The inner loop of `bech32ConvertBits`. */
  method EmitGroups(start: seq<nat>, acc: nat, size: nat, t: nat, ghost written: seq<bool>)
    returns (result: seq<nat>, bits: nat)
    requires t > 0 && Holds(start, acc, size, t, written)
    ensures bits < t && Holds(result, acc, bits, t, written)
  {
    result, bits := start, size;
    while bits >= t
      invariant Holds(result, acc, bits, t, written)
    {
      bits := bits - t;
      Emit(result, acc, bits, t, written);
      result := result + [Low(Shr(acc, bits), t)];
    }
  }

  /** The end of `bech32ConvertBits`. */
  method FinishGroups(groups: seq<nat>, acc: nat, bits: nat, f: nat, t: nat, pad: bool, word: nat)
    returns (r: Option<seq<nat>>)
    requires bits < t <= word
    ensures r == Finish(groups, Bits(acc, bits), f, t, pad)
  {
    var padding := Low(Low(Shl(acc, t - bits), word), t);
    PaddingBits(acc, bits, t - bits);
    LowReads(Shl(acc, t - bits), t, word, Bits(acc, bits) + Zeros(t - bits));
    ReadsZero(Bits(acc, bits), t - bits);
    if pad { return Some(if bits > 0 then groups + [padding] else groups); }
    if bits >= f { return None; }
    if padding != 0 { return None; }
    return Some(groups);
  }

  lemma {:induction false} AcceptNext(data: seq<nat>, i: nat, groups: seq<nat>, acc: nat, bits: nat, f: nat, t: nat,
      word: nat)
    requires i < |data| && Shr(data[i], f) == 0 && bits + f <= word && InRange(data[..i], f)
    requires Holds(groups, acc, bits, t, Stream(data[..i], f))
    ensures Holds(groups, Low(Shl(acc, f) + data[i], word), bits + f, t, Stream(data[..i + 1], f))
    ensures InRange(data[..i + 1], f)
  {
    StreamAppend(data[..i], data[i], f);
    assert data[..i + 1] == data[..i] + [data[i]];
    Accept(groups, acc, bits, f, t, data[i], word, Stream(data[..i], f));
  }

  /** The outer loop of `bech32ConvertBits`, whose accumulator is a machine word. */
  method Accumulate(data: seq<nat>, f: nat, t: nat, word: nat) returns (ok: bool, groups: seq<nat>, acc: nat, bits: nat)
    requires Widths(f, t) && word >= 32
    ensures ok <==> InRange(data, f)
    ensures ok ==> bits < t && Holds(groups, acc, bits, t, Stream(data, f))
  {
    ok, groups, acc, bits := true, [], 0, 0;
    for i := 0 to |data|
      invariant bits < t && InRange(data[..i], f) && Holds(groups, acc, bits, t, Stream(data[..i], f))
    {
      if Shr(data[i], f) != 0 {
        ok := false;
        return;
      }
      AcceptNext(data, i, groups, acc, bits, f, t, word);
      acc := Low(Shl(acc, f) + data[i], word);
      groups, bits := EmitGroups(groups, acc, bits + f, t, Stream(data[..i + 1], f));
    }
    assert data[..|data|] == data;
  }

  method ConvertBits(data: seq<nat>, f: nat, t: nat, pad: bool, word: nat) returns (r: Option<seq<nat>>)
    requires word >= 32
    ensures r == Regroup(data, f, t, pad)
  {
    if f == 0 || t == 0 || f > 8 || t > 8 { return None; }
    var ok, groups, acc, bits := Accumulate(data, f, t, word);
    if !ok { return None; }
    CutOfStream(groups, t, Bits(acc, bits));
    r := FinishGroups(groups, acc, bits, f, t, pad, word);
  }
}
