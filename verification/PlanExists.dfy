/** When a snapshot has a plan. */
module PlanExists {
  import opened Digits
  import opened RollingRoot
  import opened Batching
  import opened Plan

  /** The plan has a target: a chain and two different contracts; and a batch size, if one is asked
      for, of at most 128. */
  predicate Targeted(o: Options) {
    o.targetChainId != 0 && o.directory != 0 && o.coordinator != 0 && o.directory != o.coordinator &&
    0 <= o.batchSize <= 128
  }

  lemma {:induction false} TargetedIff(o: Options)
    ensures Targeted(o) <==> OptionsValid(o)
  {
  }

  ghost predicate Packs<R(!new)>(suite: Suite<R>) {
    forall m, k :: SizeMonotone(suite.codec(m, k))
  }

  /** Every record has its key. */
  ghost predicate Keyed<R>(snapshot: Snapshot<R>) {
    forall m, k :: 0 <= m < |snapshot.collections| && 0 <= k < |snapshot.collections[m]| ==>
      |snapshot.collections[m][k].records| == |snapshot.collections[m][k].keys|
  }

  /** Some record of this group fits into no payload. */
  ghost predicate TooLarge<R>(suite: Suite<R>, snapshot: Snapshot<R>, m: nat, k: nat)
    requires m < |snapshot.collections| && k < |snapshot.collections[m]|
  {
    exists i :: 0 <= i < |snapshot.collections[m][k].records| &&
      BytesOf(suite.codec(m, k), snapshot.collections[m][k].records[i]) > 96_000
  }

  function BytesOf<R>(codec: Codec<R>, record: R): nat {
    var payload := codec.encode([record]);
    if payload.Some? then |payload.value| else 0
  }

  lemma {:induction false} GroupExists<R(!new)>(suite: Suite<R>, snapshot: Snapshot<R>, size: nat, m: nat, k: nat,
      sequence: nat, root: Hash)
    requires Fitting(suite, snapshot) && Packs(suite) && Keyed(snapshot) && m < |suite.names| && size > 0
    requires k < |suite.kinds[m]|
    ensures GroupSplit(suite, snapshot, size, m, k, sequence, root).Some? <==> !TooLarge(suite, snapshot, m, k)
  {
    var j := JobOf(suite, snapshot, size, m, k);
    SplitFailsIff(j, 0, sequence, root);
    assert forall i :: 0 <= i < |j.records| ==>
      (Oversized(j.codec, j.records[i]) <==> BytesOf(j.codec, j.records[i]) > 96_000);
  }

  lemma {:induction false} GroupsExist(seed: Hash, split: (nat, nat, Hash) -> Option<seq<PlanBatch>>, good: nat -> bool,
      n: nat)
    requires forall k: nat, sequence: nat, root: Hash :: k < n ==> (split(k, sequence, root).Some? <==> good(k))
    ensures Groups(seed, split, n).Some? <==> forall k: nat :: k < n ==> good(k)
  {
    if n > 0 {
      GroupsExist(seed, split, good, n - 1);
      if Groups(seed, split, n - 1).Some? {
        var before := Groups(seed, split, n - 1).value;
        assert split(n - 1, |before|, LastRoot(seed, before)).Some? <==> good(n - 1);
      }
    }
  }

  ghost predicate ModuleFits<R>(suite: Suite<R>, snapshot: Snapshot<R>, m: nat)
    requires m < |snapshot.collections|
  {
    forall k: nat :: k < |snapshot.collections[m]| ==> !TooLarge(suite, snapshot, m, k)
  }

  lemma {:induction false} ModuleExists<R(!new)>(suite: Suite<R>, snapshot: Snapshot<R>, size: nat, m: nat)
    requires Fitting(suite, snapshot) && Packs(suite) && Keyed(snapshot) && m < |suite.names| && size > 0
    ensures ModuleBatches(suite, snapshot, size, m).Some? <==> ModuleFits(suite, snapshot, m)
  {
    var split := Splitter(suite, snapshot, size, m);
    var good := (k: nat) => k < |snapshot.collections[m]| && !TooLarge(suite, snapshot, m, k);
    forall k: nat, sequence: nat, root: Hash | k < |suite.kinds[m]|
      ensures split(k, sequence, root).Some? <==> good(k)
    {
      GroupExists(suite, snapshot, size, m, k, sequence, root);
    }
    GroupsExist(Seed(suite, snapshot.root, m), split, good, |suite.kinds[m]|);
    if ModuleFits(suite, snapshot, m) {
      forall k: nat | k < |suite.kinds[m]| ensures good(k) { assert !TooLarge(suite, snapshot, m, k); }
    }
    if forall k: nat :: k < |suite.kinds[m]| ==> good(k) {
      forall k: nat | k < |snapshot.collections[m]| ensures !TooLarge(suite, snapshot, m, k) { assert good(k); }
    }
  }

  /** A plan is built if and only if it has a target and every record alone fits into a payload of
      96000 bytes; without a batch size it uses 64. */
  lemma {:induction false} PlanIff<R(!new)>(suite: Suite<R>, snapshot: Snapshot<R>, o: Options)
    requires Fitting(suite, snapshot) && Packs(suite) && Keyed(snapshot)
    ensures BuildPlan(suite, snapshot, o).Some? <==>
      Targeted(o) && forall m: nat :: m < |snapshot.collections| ==> ModuleFits(suite, snapshot, m)
    ensures BuildPlan(suite, snapshot, o).Some? ==>
      var p := BuildPlan(suite, snapshot, o).value;
      && p.batchSize == (if o.batchSize == 0 then 64 else o.batchSize) && p.suiteVersion == 3
      && p.targetChainId == o.targetChainId && p.directory == o.directory && p.coordinator == o.coordinator
      && p.snapshotRoot == snapshot.root && p.evidence == snapshot.evidence
  {
    TargetedIff(o);
    if Targeted(o) {
      var size := EffectiveBatchSize(o.batchSize);
      forall m: nat | m < |suite.names|
        ensures BatchBuilder(suite, snapshot, size)(m).Some? <==> ModuleFits(suite, snapshot, m)
      {
        ModuleExists(suite, snapshot, size, m);
      }
      var all := AllBatches(BatchBuilder(suite, snapshot, size), |suite.names|);
      if all.None? {
        var m :| 0 <= m < |suite.names| && BatchBuilder(suite, snapshot, size)(m).None?;
        assert !ModuleFits(suite, snapshot, m);
      }
    }
  }
}
