/** What is free in a plan the checker accepts: where it cuts, and what it cuts. */
module PlanDetermined {
  import opened Digits
  import opened RollingRoot
  import opened Batching
  import opened Plan

  /** The batches bring the same records, under the same keys and of the same kind. */
  predicate SameContent<R(==)>(suite: Suite<R>, m: nat, b: PlanBatch, d: PlanBatch) {
    b.kindCode == d.kindCode && b.itemKeys == d.itemKeys &&
    suite.codec(m, b.kindCode).decode(b.payload) == suite.codec(m, d.kindCode).decode(d.payload)
  }

  ghost predicate SameContents<R>(suite: Suite<R>, m: nat, a: seq<PlanBatch>, b: seq<PlanBatch>) {
    |a| == |b| && forall i :: 0 <= i < |a| ==> SameContent(suite, m, a[i], b[i])
  }

  /** Apart from its place in the chain, a batch is determined by its content. */
  lemma {:induction false} BatchDetermined<R>(suite: Suite<R>, m: nat, batchSize: int, b: PlanBatch, d: PlanBatch)
    requires suite.Shaped() && m < |suite.names| && SameContent(suite, m, b, d)
    requires BatchValid(suite, m, batchSize, b) && BatchValid(suite, m, batchSize, d)
    ensures d == b.(sequence := d.sequence, rollingRoot := d.rollingRoot)
  {
  }

  lemma {:induction false} ChainDetermined<R>(suite: Suite<R>, m: nat, batchSize: int, id: Hash, sequence: nat,
      root: Hash, a: seq<PlanBatch>, b: seq<PlanBatch>)
    requires suite.Shaped() && m < |suite.names| && SameContents(suite, m, a, b)
    requires forall i :: 0 <= i < |a| ==> BatchValid(suite, m, batchSize, a[i]) && BatchValid(suite, m, batchSize, b[i])
    requires Chained(suite.h, id, sequence, root, a) && Chained(suite.h, id, sequence, root, b)
    ensures a == b
    decreases |a|
  {
    if a != [] {
      assert SameContent(suite, m, a[0], b[0]);
      BatchDetermined(suite, m, batchSize, a[0], b[0]);
      assert forall i :: 0 <= i < |a| - 1 ==> a[1..][i] == a[i + 1] && b[1..][i] == b[i + 1];
      ChainDetermined(suite, m, batchSize, id, sequence + 1, a[0].rollingRoot, a[1..], b[1..]);
      assert a == [a[0]] + a[1..] && b == [b[0]] + b[1..];
    }
  }

  lemma {:induction false} ModuleDetermined<R>(suite: Suite<R>, root: Hash, batchSize: int, m: nat, p: ModulePlan,
      q: ModulePlan)
    requires suite.Shaped() && m < |suite.names| && SameContents(suite, m, p.batches, q.batches)
    requires ModuleValid(suite, root, batchSize, m, p) && ModuleValid(suite, root, batchSize, m, q)
    ensures p == q
  {
    ChainDetermined(suite, m, batchSize, suite.ids[m], 0, Seed(suite, root, m), p.batches, q.batches);
  }

  /** The plans are for the same snapshot, evidence, chain and contracts, with the same batch size. */
  predicate SameTarget(p: Plan, q: Plan) {
    p.snapshotRoot == q.snapshotRoot && p.evidence == q.evidence && p.targetChainId == q.targetChainId &&
    p.directory == q.directory && p.coordinator == q.coordinator && p.batchSize == q.batchSize
  }

  /** Two accepted plans for one target that bring the same records in the same batches are equal:
      names, numbers, counts, payload bytes, hashes, roots and summary are no longer free. */
  lemma {:induction false} AcceptedDetermined<R>(suite: Suite<R>, p: Plan, q: Plan)
    requires suite.Shaped() && PlanValid(suite, p) && PlanValid(suite, q) && SameTarget(p, q)
    requires forall m :: 0 <= m < |suite.names| ==>
      SameContents(suite, m, p.modules[m].batches, q.modules[m].batches)
    ensures p == q
  {
    forall m | 0 <= m < |suite.names|
      ensures p.modules[m] == q.modules[m] && p.summary.counts[m] == q.summary.counts[m]
    {
      ModuleDetermined(suite, p.snapshotRoot, p.batchSize, m, p.modules[m], q.modules[m]);
      assert CountsMatch(|suite.kinds[m]|, p.summary.counts[m], p.modules[m].batches);
      assert CountsMatch(|suite.kinds[m]|, q.summary.counts[m], p.modules[m].batches);
    }
    assert p.modules == q.modules && p.summary.counts == q.summary.counts;
  }
}
