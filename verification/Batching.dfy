/** Cutting a group of records into size-limited, hash-chained batches. */
module Batching {
  import opened RollingRoot
  import opened Digits

  const MAXIMUM_PAYLOAD_BYTES: nat := 96_000
  const MAXIMUM_BATCH_ITEMS: nat := 128

  datatype PlanBatch = PlanBatch(
    sequence: nat, kind: string, kindCode: nat, count: nat, itemKeys: seq<string>,
    payload: Bytes, payloadHash: Hash, rollingRoot: Hash)

  /** ABI packing of one kind of record array, and its inverse. */
  datatype Codec<!R> = Codec(encode: seq<R> -> Option<Bytes>, decode: Bytes -> Option<seq<R>>)

  ghost predicate RoundTrips<R(!new)>(codec: Codec<R>) {
    forall records :: codec.encode(records).Some? ==>
      codec.encode(records).value != [] && codec.decode(codec.encode(records).value) == Some(records)
  }

  /** One record group of one module, with everything that is fixed while it is cut up. */
  datatype Job<!R> = Job(h: Hasher, id: Hash, kind: string, kindCode: nat, records: seq<R>, keys: seq<string>,
                         codec: Codec<R>, batchSize: nat) {
    predicate WellFormed() { batchSize > 0 && |records| == |keys| }
  }

  /** The halving loop: the end of the batch that starts at `start`, with its payload. */
  function Cut<R>(codec: Codec<R>, records: seq<R>, start: nat, end: nat): (r: Option<(nat, Bytes)>)
    requires start < end <= |records|
    ensures r.Some? ==>
      start < r.value.0 <= end && |r.value.1| <= MAXIMUM_PAYLOAD_BYTES &&
      codec.encode(records[start..r.value.0]) == Some(r.value.1)
    decreases end - start
  {
    var payload :- codec.encode(records[start..end]);
    if |payload| <= MAXIMUM_PAYLOAD_BYTES then Some((end, payload))
    else if end - start == 1 then None
    else Cut(codec, records, start, start + (end - start) / 2)
  }

  function FirstEnd(start: nat, batchSize: nat, length: nat): nat {
    if start + batchSize > length then length else start + batchSize
  }

  /** Where the batch that starts at `start` ends, and its payload. */
  function NextCut<R>(j: Job<R>, start: nat): (r: Option<(nat, Bytes)>)
    requires j.WellFormed() && start < |j.records|
    ensures r.Some? ==> start < r.value.0 <= |j.records| && r.value.0 - start <= j.batchSize
    ensures r.Some? ==>
      |r.value.1| <= MAXIMUM_PAYLOAD_BYTES && j.codec.encode(j.records[start..r.value.0]) == Some(r.value.1)
  {
    Cut(j.codec, j.records, start, FirstEnd(start, j.batchSize, |j.records|))
  }

  function MakeBatch<R>(j: Job<R>, sequence: nat, root: Hash, start: nat, end: nat, payload: Bytes): PlanBatch
    requires start < end <= |j.keys|
  {
    PlanBatch(sequence, j.kind, j.kindCode, end - start, j.keys[start..end], payload, j.h.digest(payload),
              j.h.step(root, j.id, sequence, end - start, j.h.digest(payload)))
  }

  /** The batches made of the records from `start` on, numbered and rolled on from `sequence` and `root`. */
  function Split<R>(j: Job<R>, start: nat, sequence: nat, root: Hash): Option<seq<PlanBatch>>
    requires j.WellFormed() && start <= |j.records|
    decreases |j.records| - start
  {
    if start == |j.records| then Some([]) else
    var cut :- NextCut(j, start);
    var batch := MakeBatch(j, sequence, root, start, cut.0, cut.1);
    var rest :- Split(j, cut.0, sequence + 1, batch.rollingRoot);
    Some([batch] + rest)
  }

  // ------------------------------------------------ what batching preserves

  function Keys(batches: seq<PlanBatch>): seq<string> {
    if batches == [] then [] else batches[0].itemKeys + Keys(batches[1..])
  }

  /** The records a reader decodes from the payloads, in order. */
  function Decoded<R>(codec: Codec<R>, batches: seq<PlanBatch>): Option<seq<R>> {
    if batches == [] then Some([]) else
    var first :- codec.decode(batches[0].payload);
    var rest :- Decoded(codec, batches[1..]);
    Some(first + rest)
  }

  function Total(batches: seq<PlanBatch>): nat {
    if batches == [] then 0 else batches[0].count + Total(batches[1..])
  }

  /** `decodePayloadCount`: unpacks, insists that repacking gives the same bytes, and counts. */
  function DecodeCount<R>(codec: Codec<R>, payload: Bytes): Option<nat> {
    var records :- codec.decode(payload);
    var repacked :- codec.encode(records);
    if repacked == payload then Some(|records|) else None
  }

  predicate BatchSound<R>(h: Hasher, codec: Codec<R>, batchSize: nat, b: PlanBatch) {
    0 < b.count <= batchSize && |b.itemKeys| == b.count && 0 < |b.payload| <= MAXIMUM_PAYLOAD_BYTES &&
    DecodeCount(codec, b.payload) == Some(b.count) && b.payloadHash == h.digest(b.payload)
  }

  predicate AllSound<R>(j: Job<R>, batches: seq<PlanBatch>) {
    forall i :: 0 <= i < |batches| ==>
      BatchSound(j.h, j.codec, j.batchSize, batches[i]) && batches[i].kind == j.kind &&
      batches[i].kindCode == j.kindCode
  }

  /** Consecutive sequence numbers and the running fold of roots. */
  predicate Chained(h: Hasher, id: Hash, sequence: nat, root: Hash, batches: seq<PlanBatch>)
    decreases |batches|
  {
    batches == [] ||
    (batches[0].sequence == sequence &&
     batches[0].rollingRoot == h.step(root, id, sequence, batches[0].count, batches[0].payloadHash) &&
     Chained(h, id, sequence + 1, batches[0].rollingRoot, batches[1..]))
  }

  function LastRoot(root: Hash, batches: seq<PlanBatch>): Hash {
    if batches == [] then root else batches[|batches| - 1].rollingRoot
  }

  /** What a list of batches says of the records from `start` on. */
  ghost predicate Covers<R>(j: Job<R>, start: nat, batches: seq<PlanBatch>)
    requires start <= |j.records| == |j.keys|
  {
    Keys(batches) == j.keys[start..] && Decoded(j.codec, batches) == Some(j.records[start..]) &&
    Total(batches) == |j.records| - start
  }

  lemma {:induction false} CoversStep<R(!new)>(j: Job<R>, start: nat, end: nat, batch: PlanBatch, rest: seq<PlanBatch>)
    requires start <= end <= |j.records| == |j.keys| && Covers(j, end, rest)
    requires batch.itemKeys == j.keys[start..end] && batch.count == end - start
    requires j.codec.decode(batch.payload) == Some(j.records[start..end])
    ensures Covers(j, start, [batch] + rest)
  {
    assert ([batch] + rest)[1..] == rest;
    assert j.keys[start..end] + j.keys[end..] == j.keys[start..];
    assert j.records[start..end] + j.records[end..] == j.records[start..];
  }

  /** The three promises of `appendRecordBatches` about the batches it makes. */
  ghost predicate Faithful<R>(j: Job<R>, start: nat, sequence: nat, root: Hash, batches: seq<PlanBatch>)
    requires start <= |j.records| == |j.keys|
  {
    Covers(j, start, batches) && Chained(j.h, j.id, sequence, root, batches) &&
    AllSound(j, batches)
  }

  lemma {:induction false} FaithfulStep<R(!new)>(j: Job<R>, start: nat, sequence: nat, root: Hash, end: nat,
      payload: Bytes, rest: seq<PlanBatch>)
    requires start < end <= |j.records| == |j.keys| && end - start <= j.batchSize && RoundTrips(j.codec)
    requires j.codec.encode(j.records[start..end]) == Some(payload) && |payload| <= MAXIMUM_PAYLOAD_BYTES
    requires Faithful(j, end, sequence + 1, MakeBatch(j, sequence, root, start, end, payload).rollingRoot, rest)
    ensures Faithful(j, start, sequence, root, [MakeBatch(j, sequence, root, start, end, payload)] + rest)
  {
    var batch := MakeBatch(j, sequence, root, start, end, payload);
    assert j.codec.decode(payload) == Some(j.records[start..end]);
    CoversStep(j, start, end, batch, rest);
    assert ([batch] + rest)[1..] == rest;
    assert BatchSound(j.h, j.codec, j.batchSize, batch);
  }

  /** Batching loses, repeats and reorders nothing, and every batch keeps the limits. */
  lemma {:induction false} SplitFaithful<R(!new)>(j: Job<R>, start: nat, sequence: nat, root: Hash)
    requires j.WellFormed() && start <= |j.records| && RoundTrips(j.codec) && Split(j, start, sequence, root).Some?
    ensures Faithful(j, start, sequence, root, Split(j, start, sequence, root).value)
    decreases |j.records| - start
  {
    if start < |j.records| {
      var cut := NextCut(j, start).value;
      var batch := MakeBatch(j, sequence, root, start, cut.0, cut.1);
      SplitFaithful(j, cut.0, sequence + 1, batch.rollingRoot);
      FaithfulStep(j, start, sequence, root, cut.0, cut.1, Split(j, cut.0, sequence + 1, batch.rollingRoot).value);
    }
  }

  // ------------------------------------------------------ when batching fails

  /** Packing never fails and a sub-array never packs to more bytes. */
  ghost predicate SizeMonotone<R(!new)>(codec: Codec<R>) {
    (forall records :: codec.encode(records).Some?) &&
    (forall records, a, b | 0 <= a <= b <= |records| ::
      |codec.encode(records[a..b]).value| <= |codec.encode(records).value|)
  }

  ghost predicate Oversized<R>(codec: Codec<R>, record: R) {
    codec.encode([record]).Some? && |codec.encode([record]).value| > MAXIMUM_PAYLOAD_BYTES
  }

  lemma {:induction false} CutFails<R(!new)>(codec: Codec<R>, records: seq<R>, start: nat, end: nat)
    requires SizeMonotone(codec) && start < end <= |records|
    ensures Cut(codec, records, start, end).None? <==> Oversized(codec, records[start])
    decreases end - start
  {
    var slice := records[start..end];
    assert slice[0..1] == [records[start]];
    assert codec.encode(slice).Some?;
    assert |codec.encode(slice[0..1]).value| <= |codec.encode(slice).value|;
    if |codec.encode(slice).value| > MAXIMUM_PAYLOAD_BYTES {
      if end - start == 1 {
        assert slice == [records[start]];
      } else {
        CutFails(codec, records, start, start + (end - start) / 2);
      }
    }
  }

  lemma {:induction false} CutAvoids<R(!new)>(j: Job<R>, start: nat, k: nat)
    requires SizeMonotone(j.codec) && j.WellFormed() && start < |j.records| && NextCut(j, start).Some?
    requires start <= k < NextCut(j, start).value.0
    ensures !Oversized(j.codec, j.records[k])
  {
    var cut := NextCut(j, start).value;
    var slice := j.records[start..cut.0];
    assert slice[k - start..k - start + 1] == [j.records[k]];
    assert |j.codec.encode(slice[k - start..k - start + 1]).value| <= |j.codec.encode(slice).value|;
  }

  /** With size-monotone packing, batching fails exactly when a single record is too large. */
  lemma {:induction false} SplitFailsIff<R(!new)>(j: Job<R>, start: nat, sequence: nat, root: Hash)
    requires j.WellFormed() && start <= |j.records| && SizeMonotone(j.codec)
    ensures Split(j, start, sequence, root).None? <==>
            exists k :: start <= k < |j.records| && Oversized(j.codec, j.records[k])
    decreases |j.records| - start
  {
    if start < |j.records| {
      CutFails(j.codec, j.records, start, FirstEnd(start, j.batchSize, |j.records|));
      var cut := NextCut(j, start);
      if cut.Some? {
        forall k | start <= k < cut.value.0 ensures !Oversized(j.codec, j.records[k]) {
          CutAvoids(j, start, k);
        }
        SplitFailsIff(j, cut.value.0, sequence + 1,
            MakeBatch(j, sequence, root, start, cut.value.0, cut.value.1).rollingRoot);
      }
    }
  }

  // ------------------------------------------------------------- the loops

  /** The inner loop: halves the batch until its payload fits. */
  method FitPayload<R>(j: Job<R>, start: nat) returns (r: Option<(nat, Bytes)>)
    requires j.WellFormed() && start < |j.records|
    ensures r == NextCut(j, start)
  {
    var first := FirstEnd(start, j.batchSize, |j.records|);
    var end := first;
    while true
      invariant start < end <= |j.records|
      invariant Cut(j.codec, j.records, start, end) == Cut(j.codec, j.records, start, first)
      decreases end - start
    {
      var encoded := j.codec.encode(j.records[start..end]);
      if encoded.None? { return None; }
      if |encoded.value| <= MAXIMUM_PAYLOAD_BYTES { return Some((end, encoded.value)); }
      if end - start == 1 { return None; }
      end := start + (end - start) / 2;
    }
  }

  /** `all` is what the batches made so far and the split of the rest come to. */
  ghost predicate Joins(all: Option<seq<PlanBatch>>, made: seq<PlanBatch>, rest: Option<seq<PlanBatch>>) {
    if rest.None? then all.None? else all == Some(made + rest.value)
  }

  /** One turn of the outer loop. */
  method NextBatch<R>(j: Job<R>, ghost all: Option<seq<PlanBatch>>, ghost made: seq<PlanBatch>, start: nat,
      sequence: nat, root: Hash)
    returns (r: Option<(PlanBatch, nat)>)
    requires j.WellFormed() && start < |j.records| && Joins(all, made, Split(j, start, sequence, root))
    ensures r.None? ==> all.None?
    ensures r.Some? ==> start < r.value.1 <= |j.records|
    ensures r.Some? ==> Joins(all, made + [r.value.0], Split(j, r.value.1, sequence + 1, r.value.0.rollingRoot))
  {
    var cut := FitPayload(j, start);
    if cut.None? { return None; }
    var batch := MakeBatch(j, sequence, root, start, cut.value.0, cut.value.1);
    ghost var rest := Split(j, cut.value.0, sequence + 1, batch.rollingRoot);
    assert rest.Some? ==> made + ([batch] + rest.value) == made + [batch] + rest.value;
    return Some((batch, cut.value.0));
  }

  lemma {:induction false} SplitEnd<R>(j: Job<R>, all: Option<seq<PlanBatch>>, made: seq<PlanBatch>, sequence: nat,
      root: Hash)
    requires j.WellFormed() && Joins(all, made, Split(j, |j.records|, sequence, root))
    ensures all == Some(made)
  {
    assert made + [] == made;
  }

  lemma {:induction false} SplitStart(all: Option<seq<PlanBatch>>)
    ensures Joins(all, [], all)
  {
    assert all.Some? ==> [] + all.value == all.value;
  }

  /** The outer loop, towards a known result. */
  method SplitLoop<R>(j: Job<R>, sequence: nat, root: Hash, ghost all: Option<seq<PlanBatch>>)
    returns (r: Option<seq<PlanBatch>>)
    requires j.WellFormed() && Joins(all, [], Split(j, 0, sequence, root))
    ensures r == all
  {
    var made: seq<PlanBatch>, start, next, latest := [], 0, sequence, root;
    while start < |j.records|
      invariant start <= |j.records| && Joins(all, made, Split(j, start, next, latest))
      decreases |j.records| - start
    {
      var batch := NextBatch(j, all, made, start, next, latest);
      if batch.None? { return None; }
      made, start, next, latest := made + [batch.value.0], batch.value.1, next + 1, batch.value.0.rollingRoot;
    }
    SplitEnd(j, all, made, next, latest);
    return Some(made);
  }

  method SplitGroup<R>(j: Job<R>, sequence: nat, root: Hash) returns (r: Option<seq<PlanBatch>>)
    requires j.WellFormed()
    ensures r == Split(j, 0, sequence, root)
  {
    SplitStart(Split(j, 0, sequence, root));
    r := SplitLoop(j, sequence, root, Split(j, 0, sequence, root));
  }

  lemma {:induction false} TotalAppend(a: seq<PlanBatch>, b: seq<PlanBatch>)
    ensures Total(a + b) == Total(a) + Total(b)
  {
    if a == [] {
      assert a + b == b;
    } else {
      TotalAppend(a[1..], b);
      assert (a + b)[1..] == a[1..] + b;
    }
  }

  /** A module plan under construction, with the root accumulated so far. */
  class ModuleBuilder {
    var batches: seq<PlanBatch>
    var expectedCount: nat
    var root: Hash

    constructor (seed: Hash)
      ensures batches == [] && expectedCount == 0 && root == seed
    {
      batches, expectedCount, root := [], 0, seed;
    }

    method Push(batch: PlanBatch)
      modifies this
      ensures batches == old(batches) + [batch] && expectedCount == old(expectedCount) + batch.count
      ensures root == batch.rollingRoot
    {
      root := batch.rollingRoot;
      batches := batches + [batch];
      expectedCount := expectedCount + batch.count;
    }

    /** `appendRecordBatches`. */
    method Append<R>(j: Job<R>) returns (ok: bool)
      requires j.batchSize > 0
      modifies this
      ensures ok <==> j.WellFormed() && Split(j, 0, |old(batches)|, old(root)).Some?
      ensures ok ==> var made := Split(j, 0, |old(batches)|, old(root)).value;
        batches == old(batches) + made && expectedCount == old(expectedCount) + Total(made) &&
        root == LastRoot(old(root), made)
    {
      if |j.records| != |j.keys| { return false; }
      var made := SplitGroup(j, |batches|, root);
      if made.None? { return false; }
      PushAll(made.value);
      return true;
    }

    method PushAll(made: seq<PlanBatch>)
      modifies this
      ensures batches == old(batches) + made && expectedCount == old(expectedCount) + Total(made)
      ensures root == LastRoot(old(root), made)
    {
      for i := 0 to |made|
        invariant batches == old(batches) + made[..i]
        invariant expectedCount == old(expectedCount) + Total(made[..i])
        invariant root == LastRoot(old(root), made[..i])
      {
        assert made[..i + 1] == made[..i] + [made[i]];
        TotalAppend(made[..i], [made[i]]);
        Push(made[i]);
      }
      assert made[..|made|] == made;
    }
  }
}
