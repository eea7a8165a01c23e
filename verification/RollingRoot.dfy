/** The rolling import root: a hash chain over ABI-encoded words, for any hash function. */
module RollingRoot {
  import opened Digits

  newtype Byte = n: int | 0 <= n < 256
  type Bytes = seq<Byte>

  /** A 32-byte word. */
  type Hash = h: Bytes | |h| == 32 witness seq(32, _ => 0)

  /** The hash function is a parameter: nothing is assumed of it, not even freedom from collisions. */
  type HashFunction = Bytes -> Hash

  function Zero(): Hash { seq(32, _ => 0) }

  /** Big-endian text of `n` in `width` bytes, as the ABI writes integers. */
  function BigEndian(n: nat, width: nat): (b: Bytes)
    ensures |b| == width
  {
    if width == 0 then [] else BigEndian(n / 256, width - 1) + [(n % 256) as Byte]
  }

  function Pow256(width: nat): nat { if width == 0 then 1 else 256 * Pow256(width - 1) }

  lemma {:induction false} BigEndianInjective(a: nat, b: nat, width: nat)
    requires a < Pow256(width) && b < Pow256(width) && BigEndian(a, width) == BigEndian(b, width)
    ensures a == b
  {
    if width > 0 {
      var x, y := BigEndian(a, width), BigEndian(b, width);
      assert x[width - 1] as int == a % 256 && y[width - 1] as int == b % 256;
      assert x[..width - 1] == BigEndian(a / 256, width - 1) && y[..width - 1] == BigEndian(b / 256, width - 1);
      BigEndianInjective(a / 256, b / 256, width - 1);
    }
  }

  /** An unsigned integer in a 256-bit ABI word. */
  function Word(n: nat): Hash { BigEndian(n, 32) }

  lemma {:induction false} WordInjective(a: nat, b: nat)
    requires a < UINT64_LIMIT && b < UINT64_LIMIT && Word(a) == Word(b)
    ensures a == b
  {
    assert Pow256(8) == UINT64_LIMIT by { assert Pow256(4) == 0x1_0000_0000; }
    Pow256Grows(8, 32);
    BigEndianInjective(a, b, 32);
  }

  lemma {:induction false} Pow256Grows(m: nat, n: nat)
    requires m <= n
    ensures Pow256(m) <= Pow256(n)
    decreases n
  {
    if m < n { Pow256Grows(m, n - 1); }
  }

  function RollingSeed(h: HashFunction, id: Hash, snapshotRoot: Hash): Hash { h(id + snapshotRoot) }

  function StepInput(previous: Hash, id: Hash, sequence: nat, count: nat, payloadHash: Hash): Bytes {
    previous + id + Word(sequence) + Word(count) + payloadHash
  }

  function RollingStep(h: HashFunction, previous: Hash, id: Hash, sequence: nat, count: nat, payloadHash: Hash): Hash {
    h(StepInput(previous, id, sequence, count, payloadHash))
  }

  /** One imported batch, as far as the root sees it. */
  datatype Import = Import(sequence: nat, count: nat, payload: Bytes)

  function Roll(h: HashFunction, id: Hash, snapshotRoot: Hash, imports: seq<Import>): Hash {
    if imports == [] then RollingSeed(h, id, snapshotRoot) else
    var last := imports[|imports| - 1];
    RollingStep(h, Roll(h, id, snapshotRoot, imports[..|imports| - 1]), id, last.sequence, last.count, h(last.payload))
  }

  /** Sequence numbers and counts are 64-bit in the plan. */
  predicate Fits(imports: seq<Import>) {
    forall i :: 0 <= i < |imports| ==> imports[i].sequence < UINT64_LIMIT && imports[i].count < UINT64_LIMIT
  }

  ghost predicate Collision(h: HashFunction, x: Bytes, y: Bytes) { x != y && h(x) == h(y) }

  lemma {:induction false} StepInputInjective(p: Hash, i: Hash, s: nat, c: nat, d: Hash, q: Hash, j: Hash, t: nat,
      e: nat, f: Hash)
    requires s < UINT64_LIMIT && c < UINT64_LIMIT && t < UINT64_LIMIT && e < UINT64_LIMIT
    requires StepInput(p, i, s, c, d) == StepInput(q, j, t, e, f)
    ensures p == q && i == j && s == t && c == e && d == f
  {
    var x, y := StepInput(p, i, s, c, d), StepInput(q, j, t, e, f);
    assert x[..32] == p && y[..32] == q;
    assert x[32..64] == i && y[32..64] == j;
    assert x[64..96] == Word(s) && y[64..96] == Word(t);
    assert x[96..128] == Word(c) && y[96..128] == Word(e);
    assert x[128..] == d && y[128..] == f;
    WordInjective(s, t);
    WordInjective(c, e);
  }

  ghost predicate Broken(h: HashFunction) { exists x, y :: Collision(h, x, y) }

  lemma {:induction false} SeedCommits(h: HashFunction, id: Hash, root: Hash, id': Hash, root': Hash)
    requires RollingSeed(h, id, root) == RollingSeed(h, id', root')
    ensures Broken(h) || (id == id' && root == root')
  {
    var x, y := id + root, id' + root';
    assert x[..32] == id && y[..32] == id' && x[32..] == root && y[32..] == root';
    assert x == y || Collision(h, x, y);
  }

  lemma {:induction false} StepCommits(h: HashFunction, p: Hash, id: Hash, m: Import, p': Hash, id': Hash, n: Import)
    requires Fits([m]) && Fits([n])
    requires RollingStep(h, p, id, m.sequence, m.count, h(m.payload)) ==
      RollingStep(h, p', id', n.sequence, n.count, h(n.payload))
    ensures Broken(h) || (p == p' && id == id' && m == n)
  {
    assert [m][0] == m && [n][0] == n;
    var x := StepInput(p, id, m.sequence, m.count, h(m.payload));
    var y := StepInput(p', id', n.sequence, n.count, h(n.payload));
    if x == y {
      StepInputInjective(p, id, m.sequence, m.count, h(m.payload), p', id', n.sequence, n.count, h(n.payload));
      assert m.payload == n.payload || Collision(h, m.payload, n.payload);
    } else {
      assert Collision(h, x, y);
    }
  }

  /** A seed is a hash of 64 bytes and a step of 160, so neither passes for the other. */
  lemma {:induction false} SeedIsNoStep(h: HashFunction, id: Hash, root: Hash, p: Hash, id': Hash, m: Import)
    requires RollingSeed(h, id, root) == RollingStep(h, p, id', m.sequence, m.count, h(m.payload))
    ensures Broken(h)
  {
    assert |id + root| == 64 && |StepInput(p, id', m.sequence, m.count, h(m.payload))| == 160;
    assert Collision(h, id + root, StepInput(p, id', m.sequence, m.count, h(m.payload)));
  }

  /** The root commits to the module, the snapshot and the whole ordered import, whatever
      the batch counts: equal roots over different content exhibit a hash collision. */
  lemma {:induction false} RootCommits(h: HashFunction, id: Hash, root: Hash, a: seq<Import>, id': Hash, root': Hash,
      b: seq<Import>)
    requires Fits(a) && Fits(b) && Roll(h, id, root, a) == Roll(h, id', root', b)
    ensures (id == id' && root == root' && a == b) || Broken(h)
    decreases |a|
  {
    if a == [] && b == [] {
      SeedCommits(h, id, root, id', root');
    } else if a == [] {
      SeedIsNoStep(h, id, root, Roll(h, id', root', b[..|b| - 1]), id', b[|b| - 1]);
    } else if b == [] {
      SeedIsNoStep(h, id', root', Roll(h, id, root, a[..|a| - 1]), id, a[|a| - 1]);
    } else {
      var m, n, a', b' := a[|a| - 1], b[|b| - 1], a[..|a| - 1], b[..|b| - 1];
      StepCommits(h, Roll(h, id, root, a'), id, m, Roll(h, id', root', b'), id', n);
      if !Broken(h) {
        RootCommits(h, id, root, a', id', root', b');
        assert a == a' + [m] && b == b' + [n];
      }
    }
  }

  /** Payload digest, seed and step as the plan builder and checker use them. */
  datatype Hasher = Hasher(digest: HashFunction, seed: (Hash, Hash) -> Hash, step: (Hash, Hash, nat, nat, Hash) -> Hash)

  /** The hasher is the rolling one over its own digest. */
  ghost predicate Rolling(k: Hasher) {
    (forall id, root :: k.seed(id, root) == RollingSeed(k.digest, id, root)) &&
    (forall p, id, s, c, d :: k.step(p, id, s, c, d) == RollingStep(k.digest, p, id, s, c, d))
  }

  function RollWith(k: Hasher, id: Hash, snapshotRoot: Hash, imports: seq<Import>): Hash {
    if imports == [] then k.seed(id, snapshotRoot) else
    var last := imports[|imports| - 1];
    k.step(RollWith(k, id, snapshotRoot, imports[..|imports| - 1]), id, last.sequence, last.count,
      k.digest(last.payload))
  }

  lemma {:induction false} RollWithIsRoll(k: Hasher, id: Hash, root: Hash, imports: seq<Import>)
    requires Rolling(k)
    ensures RollWith(k, id, root, imports) == Roll(k.digest, id, root, imports)
  {
    if imports != [] { RollWithIsRoll(k, id, root, imports[..|imports| - 1]); }
  }

  /** `RootCommits` for any rolling hasher. */
  lemma {:induction false} RollCommits(k: Hasher, id: Hash, root: Hash, a: seq<Import>, id': Hash, root': Hash,
      b: seq<Import>)
    requires Rolling(k) && Fits(a) && Fits(b) && RollWith(k, id, root, a) == RollWith(k, id', root', b)
    ensures (id == id' && root == root' && a == b) || Broken(k.digest)
  {
    RollWithIsRoll(k, id, root, a);
    RollWithIsRoll(k, id', root', b);
    RootCommits(k.digest, id, root, a, id', root', b);
  }
}
