/** `BuildPlan` and `ValidatePlan` as loops, proved against the plan specification. */
module PlanMethods {
  import opened Digits
  import opened RollingRoot
  import opened Batching
  import opened Plan
  import opened PlanAccepted

  lemma {:induction false} GroupsFail(seed: Hash, split: (nat, nat, Hash) -> Option<seq<PlanBatch>>, k: nat, last: nat)
    requires k <= last && Groups(seed, split, k).None?
    ensures Groups(seed, split, last).None?
    decreases last
  {
    if k < last { GroupsFail(seed, split, k, last - 1); }
  }

  /** Group `k` appended to the module; `goal` is what the specification makes of it. */
  method AppendGroup<R>(b: ModuleBuilder, suite: Suite<R>, snapshot: Snapshot<R>, batchSize: nat, m: nat, k: nat,
      ghost goal: Option<seq<PlanBatch>>)
    returns (ok: bool)
    requires Fitting(suite, snapshot) && batchSize > 0 && m < |suite.names| && k < |suite.kinds[m]|
    requires goal == GroupSplit(suite, snapshot, batchSize, m, k, |b.batches|, b.root)
    modifies b
    ensures ok <==> goal.Some?
    ensures ok ==> b.batches == old(b.batches) + goal.value && b.root == LastRoot(old(b.root), goal.value)
    ensures ok ==> b.expectedCount == old(b.expectedCount) + Total(goal.value)
  {
    ok := b.Append(JobOf(suite, snapshot, batchSize, m, k));
  }

  /** The builder stands after the first `k` groups. */
  ghost predicate Built(seed: Hash, split: (nat, nat, Hash) -> Option<seq<PlanBatch>>, k: nat, batches: seq<PlanBatch>,
      root: Hash, count: nat) {
    Groups(seed, split, k) == Some(batches) && root == LastRoot(seed, batches) && count == Total(batches)
  }

  lemma {:induction false} BuiltNext(seed: Hash, split: (nat, nat, Hash) -> Option<seq<PlanBatch>>, k: nat,
      batches: seq<PlanBatch>, root: Hash, count: nat, made: Option<seq<PlanBatch>>)
    requires Built(seed, split, k, batches, root, count) && made == split(k, |batches|, root)
    ensures made.None? ==> Groups(seed, split, k + 1).None?
    ensures made.Some? ==>
      Built(seed, split, k + 1, batches + made.value, LastRoot(root, made.value), count + Total(made.value))
  {
    if made.Some? { TotalAppend(batches, made.value); }
  }

  /** The group loop of one module. */
  method BuildGroups<R>(b: ModuleBuilder, suite: Suite<R>, snapshot: Snapshot<R>, batchSize: nat, m: nat,
      ghost seed: Hash, ghost split: (nat, nat, Hash) -> Option<seq<PlanBatch>>)
    returns (ok: bool)
    requires Fitting(suite, snapshot) && batchSize > 0 && m < |suite.names|
    requires b.batches == [] && b.root == seed && b.expectedCount == 0
    requires forall k: nat, n: nat, root | k < |suite.kinds[m]| ::
      split(k, n, root) == GroupSplit(suite, snapshot, batchSize, m, k, n, root)
    modifies b
    ensures ok <==> Groups(seed, split, |suite.kinds[m]|).Some?
    ensures ok ==> Groups(seed, split, |suite.kinds[m]|) == Some(b.batches)
    ensures ok ==> b.root == LastRoot(seed, b.batches) && b.expectedCount == Total(b.batches)
  {
    for k := 0 to |suite.kinds[m]|
      invariant Built(seed, split, k, b.batches, b.root, b.expectedCount)
    {
      ghost var before, made := b.batches, split(k, |b.batches|, b.root);
      ok := AppendGroup(b, suite, snapshot, batchSize, m, k, made);
      BuiltNext(seed, split, k, before, LastRoot(seed, before), Total(before), made);
      if !ok {
        GroupsFail(seed, split, k + 1, |suite.kinds[m]|);
        return;
      }
    }
    ok := true;
  }

  method BuildModule<R>(suite: Suite<R>, snapshot: Snapshot<R>, batchSize: nat, m: nat) returns (r: Option<ModulePlan>)
    requires Fitting(suite, snapshot) && batchSize > 0 && m < |suite.names|
    ensures r.None? <==> ModuleBatches(suite, snapshot, batchSize, m).None?
    ensures r.Some? ==>
      r.value == MakeModule(suite, snapshot.root, m, ModuleBatches(suite, snapshot, batchSize, m).value)
  {
    var b := new ModuleBuilder(Seed(suite, snapshot.root, m));
    var ok := BuildGroups(b, suite, snapshot, batchSize, m, Seed(suite, snapshot.root, m),
        Splitter(suite, snapshot, batchSize, m));
    if !ok { return None; }
    return Some(ModulePlan(m, suite.names[m], suite.ids[m], b.expectedCount, |b.batches|, b.root, b.batches));
  }

  lemma {:induction false} AllBatchesFail(build: nat -> Option<seq<PlanBatch>>, m: nat, n: nat)
    requires m < n && build(m).None?
    ensures AllBatches(build, n).None?
  {
    if m < n - 1 { AllBatchesFail(build, m, n - 1); }
  }

  lemma {:induction false} AllBatchesIs(build: nat -> Option<seq<PlanBatch>>, n: nat)
    requires forall m: nat :: m < n ==> build(m).Some?
    ensures AllBatches(build, n).Some?
  {
  }

  method CountBatches(modules: seq<ModulePlan>) returns (total: nat)
    ensures total == TotalBatches(modules)
  {
    total := 0;
    for i := 0 to |modules|
      invariant total == TotalBatches(modules[..i])
    {
      assert modules[..i + 1][..i] == modules[..i];
      total := total + |modules[i].batches|;
    }
    assert modules[..|modules|] == modules;
  }

  /** The module loop; `build` is what the specification makes of each module. */
  method BuildModules<R>(suite: Suite<R>, snapshot: Snapshot<R>, batchSize: nat,
      ghost build: nat -> Option<seq<PlanBatch>>)
    returns (r: Option<seq<ModulePlan>>)
    requires Fitting(suite, snapshot) && batchSize > 0
    requires forall m: nat :: build(m) == ModuleBatches(suite, snapshot, batchSize, m)
    ensures r.None? <==> AllBatches(build, |suite.names|).None?
    ensures r.Some? ==> r.value == MakeModules(suite, snapshot.root, AllBatches(build, |suite.names|).value)
  {
    var modules: seq<ModulePlan> := [];
    for m := 0 to |suite.names|
      invariant |modules| == m
      invariant forall i: nat ::
        i < m ==> build(i).Some? && modules[i] == MakeModule(suite, snapshot.root, i, build(i).value)
    {
      var plan := BuildModule(suite, snapshot, batchSize, m);
      if plan.None? {
        AllBatchesFail(build, m, |suite.names|);
        return None;
      }
      modules := modules + [plan.value];
    }
    AllBatchesIs(build, |suite.names|);
    assert modules == MakeModules(suite, snapshot.root, AllBatches(build, |suite.names|).value);
    return Some(modules);
  }

  /** `BuildPlan`. */
  method Build<R>(suite: Suite<R>, snapshot: Snapshot<R>, o: Options) returns (r: Option<Plan>)
    requires Fitting(suite, snapshot)
    ensures r == BuildPlan(suite, snapshot, o)
  {
    if !OptionsValid(o) { return None; }
    var size := EffectiveBatchSize(o.batchSize);
    var modules := BuildModules(suite, snapshot, size, BatchBuilder(suite, snapshot, size));
    if modules.None? { return None; }
    var count := CountBatches(modules.value);
    var summary := Summary(CollectionSizes(snapshot.collections), count, 2 * |suite.names| + count + 2);
    return Some(Plan(snapshot.root, snapshot.evidence, o.targetChainId, SUITE_VERSION, o.directory, o.coordinator, size,
                     modules.value, summary));
  }

  // ------------------------------------------------------------ ValidatePlan

  lemma {:induction false} BrokenLink(h: Hasher, id: Hash, root: Hash, batches: seq<PlanBatch>, i: nat)
    requires i < |batches| && (batches[i].sequence != i || !Linked(h, id, root, batches, i))
    ensures !Chained(h, id, 0, root, batches)
  {
    if Chained(h, id, 0, root, batches) { ChainedAt(h, id, 0, root, batches, i); }
  }

  lemma {:induction false} ChainedNext(h: Hasher, id: Hash, root: Hash, batches: seq<PlanBatch>, i: nat)
    requires i < |batches| && Chained(h, id, 0, root, batches[..i]) && batches[i].sequence == i
    requires Linked(h, id, root, batches, i)
    ensures Chained(h, id, 0, root, batches[..i + 1]) && LastRoot(root, batches[..i + 1]) == batches[i].rollingRoot
  {
    ChainedAppend(h, id, 0, root, batches[..i], [batches[i]]);
    assert batches[..i + 1] == batches[..i] + [batches[i]];
  }

  method IsBatchValid<R>(suite: Suite<R>, m: nat, batchSize: int, b: PlanBatch) returns (ok: bool)
    requires suite.Shaped() && m < |suite.names|
    ensures ok <==> BatchValid(suite, m, batchSize, b)
  {
    if b.count == 0 || b.count > MAXIMUM_BATCH_ITEMS || b.count > batchSize || |b.itemKeys| != b.count { return false; }
    for i := 0 to |b.itemKeys|
      invariant forall j :: 0 <= j < i ==> !suite.blank(b.itemKeys[j])
    {
      if suite.blank(b.itemKeys[i]) { return false; }
    }
    if |b.payload| == 0 || |b.payload| > MAXIMUM_PAYLOAD_BYTES || b.kindCode >= |suite.kinds[m]| { return false; }
    if DecodeCount(suite.codec(m, b.kindCode), b.payload) != Some(b.count) { return false; }
    return b.kind == suite.kinds[m][b.kindCode] && b.payloadHash == suite.h.digest(b.payload);
  }

  /** Sequence numbers, running root, running count and kind order of one module's batches. */
  method CheckChain(h: Hasher, id: Hash, seed: Hash, batches: seq<PlanBatch>) returns (ok: bool, root: Hash, count: nat)
    ensures ok <==> KindsOrdered(batches) && Chained(h, id, 0, seed, batches)
    ensures ok ==> root == LastRoot(seed, batches) && count == Total(batches)
  {
    root, count := seed, 0;
    var lastKind := 0;
    for i := 0 to |batches|
      invariant forall j :: 0 <= j < i ==> batches[j].kindCode <= lastKind
      invariant KindsOrdered(batches[..i]) && Chained(h, id, 0, seed, batches[..i])
      invariant root == LastRoot(seed, batches[..i]) && count == Total(batches[..i])
      invariant i > 0 ==> lastKind == batches[i - 1].kindCode
    {
      var b := batches[i];
      ghost var before := batches[..i];
      assert i > 0 ==> root == batches[i - 1].rollingRoot;
      root := h.step(root, id, b.sequence, b.count, b.payloadHash);
      if b.sequence != i || b.rollingRoot != root {
        BrokenLink(h, id, seed, batches, i);
        return false, root, count;
      }
      if i != 0 && b.kindCode < lastKind { return false, root, count; }
      lastKind := b.kindCode;
      ChainedNext(h, id, seed, batches, i);
      TotalAppend(before, [b]);
      assert batches[..i + 1] == before + [b];
      count := count + b.count;
    }
    assert batches[..|batches|] == batches;
    ok := true;
  }

  method CheckBatches<R>(suite: Suite<R>, batchSize: int, m: nat, batches: seq<PlanBatch>) returns (ok: bool)
    requires suite.Shaped() && m < |suite.names|
    ensures ok <==> forall i :: 0 <= i < |batches| ==> BatchValid(suite, m, batchSize, batches[i])
  {
    for i := 0 to |batches|
      invariant forall j :: 0 <= j < i ==> BatchValid(suite, m, batchSize, batches[j])
    {
      ok := IsBatchValid(suite, m, batchSize, batches[i]);
      if !ok { return; }
    }
    ok := true;
  }

  method CheckModule<R>(suite: Suite<R>, root: Hash, batchSize: int, m: nat, p: ModulePlan) returns (ok: bool)
    requires suite.Shaped() && m < |suite.names|
    ensures ok <==> ModuleValid(suite, root, batchSize, m, p)
  {
    if p.order != m || p.name != suite.names[m] || p.id != suite.ids[m] { return false; }
    ok := CheckBatches(suite, batchSize, m, p.batches);
    if !ok { return; }
    var last, count;
    ok, last, count := CheckChain(suite.h, p.id, Seed(suite, root, m), p.batches);
    ok := ok && p.expectedCount == count && p.expectedBatches == |p.batches| && p.expectedRoot == last;
  }

  method CheckModules<R>(suite: Suite<R>, root: Hash, batchSize: int, modules: seq<ModulePlan>) returns (ok: bool)
    requires suite.Shaped() && |modules| == |suite.names|
    ensures ok <==> forall m :: 0 <= m < |modules| ==> ModuleValid(suite, root, batchSize, m, modules[m])
  {
    for m := 0 to |modules|
      invariant forall i :: 0 <= i < m ==> ModuleValid(suite, root, batchSize, i, modules[i])
    {
      ok := CheckModule(suite, root, batchSize, m, modules[m]);
      if !ok { return; }
    }
    ok := true;
  }

  /** The per-kind totals the checker accumulates while it walks the batches. */
  method CountKinds(batches: seq<PlanBatch>, kinds: nat) returns (counts: seq<nat>)
    ensures |counts| == kinds && forall k :: 0 <= k < kinds ==> counts[k] == KindCount(batches, k)
  {
    counts := seq(kinds, _ => 0);
    for i := 0 to |batches|
      invariant |counts| == kinds && forall k :: 0 <= k < kinds ==> counts[k] == KindCount(batches[..i], k)
    {
      var b := batches[i];
      assert batches[..i + 1] == batches[..i] + [b];
      forall k | 0 <= k < kinds
        ensures KindCount(batches[..i + 1], k) == KindCount(batches[..i], k) + if b.kindCode == k then b.count else 0
      {
        KindCountAppend(batches[..i], [b], k);
        KindCountUniform([b], b.kindCode, k);
      }
      if b.kindCode < kinds { counts := counts[b.kindCode := counts[b.kindCode] + b.count]; }
    }
    assert batches[..|batches|] == batches;
  }

  method CheckTotals(modules: seq<ModulePlan>, counts: seq<seq<nat>>) returns (ok: bool)
    requires |modules| == |counts|
    ensures ok <==> TotalItems(modules) == SumAll(counts)
  {
    var items, expected := 0, 0;
    for m := 0 to |modules|
      invariant items == TotalItems(modules[..m]) && expected == SumAll(counts[..m])
    {
      assert modules[..m + 1][..m] == modules[..m] && counts[..m + 1][..m] == counts[..m];
      items, expected := items + Total(modules[m].batches), expected + Sum(counts[m]);
    }
    assert modules[..|modules|] == modules && counts[..|counts|] == counts;
    ok := items == expected;
  }

  method CheckCounts(kinds: seq<seq<string>>, counts: seq<seq<nat>>, modules: seq<ModulePlan>) returns (ok: bool)
    requires |kinds| == |counts| == |modules|
    ensures ok <==> forall m :: 0 <= m < |modules| ==> CountsMatch(|kinds[m]|, counts[m], modules[m].batches)
  {
    for m := 0 to |modules|
      invariant forall i :: 0 <= i < m ==> CountsMatch(|kinds[i]|, counts[i], modules[i].batches)
    {
      var counted := CountKinds(modules[m].batches, |kinds[m]|);
      if counts[m] != counted { return false; }
    }
    return true;
  }

  /** `ValidatePlan` decides exactly `PlanValid`. */
  method Validate<R>(suite: Suite<R>, p: Plan) returns (ok: bool)
    requires suite.Shaped()
    ensures ok <==> PlanValid(suite, p)
  {
    if !HeaderValid(p) || |p.modules| != |suite.names| || |p.summary.counts| != |suite.names| { return false; }
    ok := CheckModules(suite, p.snapshotRoot, p.batchSize, p.modules);
    if !ok { return; }
    var count := CountBatches(p.modules);
    if p.summary.batchCount != count || p.summary.transactionCount != 2 * |suite.names| + count + 2 { return false; }
    ok := CheckTotals(p.modules, p.summary.counts);
    if !ok { return; }
    ok := CheckCounts(suite.kinds, p.summary.counts, p.modules);
  }

  /** `BuildPlan` with its final self-check, which never refuses what was built from an importable snapshot. */
  method BuildChecked<R(!new)>(suite: Suite<R>, snapshot: Snapshot<R>, o: Options) returns (r: Option<Plan>)
    requires Fitting(suite, snapshot)
    ensures r.Some? ==> BuildPlan(suite, snapshot, o) == r && PlanValid(suite, r.value)
    ensures r.None? ==> BuildPlan(suite, snapshot, o).None? || !PlanValid(suite, BuildPlan(suite, snapshot, o).value)
    ensures Importable(suite, snapshot) && snapshot.root != Zero() && snapshot.evidence != Zero() ==>
      r == BuildPlan(suite, snapshot, o)
  {
    r := Build(suite, snapshot, o);
    if r.None? { return; }
    ghost var fine := Importable(suite, snapshot) && snapshot.root != Zero() && snapshot.evidence != Zero();
    if fine { BuiltPlanValid(suite, snapshot, o); }
    var ok := Validate(suite, r.value);
    if !ok { r := None; }
  }
}
