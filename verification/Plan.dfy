/** From a snapshot to an import plan, and the independent plan checker. */
module Plan {
  import opened Digits
  import opened RollingRoot
  import opened Batching

  const DEFAULT_BATCH_SIZE: int := 64
  const SUITE_VERSION: nat := 3

  /** The module table, the codecs and the hash function; `blank` is the all-whitespace test. */
  datatype Suite<!R> = Suite(
    h: Hasher, names: seq<string>, ids: seq<Hash>, kinds: seq<seq<string>>,
    codec: (nat, nat) -> Codec<R>, blank: string -> bool) {

    /** One identifier and one kind list per module. */
    predicate Shaped() { |ids| == |names| && |kinds| == |names| }
  }

  datatype Collection<+R> = Collection(records: seq<R>, keys: seq<string>)

  /** The sorted record collections of a validated snapshot, per module and kind. */
  datatype Snapshot<+R> = Snapshot(root: Hash, evidence: Hash, collections: seq<seq<Collection<R>>>)

  datatype Options = Options(targetChainId: nat, directory: nat, coordinator: nat, batchSize: int)

  datatype ModulePlan = ModulePlan(
    order: nat, name: string, id: Hash, expectedCount: nat, expectedBatches: nat, expectedRoot: Hash,
    batches: seq<PlanBatch>)

  datatype Summary = Summary(counts: seq<seq<nat>>, batchCount: nat, transactionCount: nat)

  /** Addresses are numbers here; zero is the zero address. */
  datatype Plan = Plan(
    snapshotRoot: Hash, evidence: Hash, targetChainId: nat, suiteVersion: nat, directory: nat, coordinator: nat,
    batchSize: int, modules: seq<ModulePlan>, summary: Summary)

  predicate Fitting<R>(suite: Suite<R>, snapshot: Snapshot<R>) {
    suite.Shaped() && |snapshot.collections| == |suite.names| &&
    forall m :: 0 <= m < |suite.names| ==> |snapshot.collections[m]| == |suite.kinds[m]|
  }

  // ------------------------------------------------------------ building

  function Seed<R>(suite: Suite<R>, root: Hash, m: nat): Hash
    requires m < |suite.ids|
  {
    suite.h.seed(suite.ids[m], root)
  }

  function JobOf<R>(suite: Suite<R>, snapshot: Snapshot<R>, batchSize: nat, m: nat, k: nat): Job<R>
    requires Fitting(suite, snapshot) && m < |suite.names| && k < |suite.kinds[m]|
  {
    var c := snapshot.collections[m][k];
    Job(suite.h, suite.ids[m], suite.kinds[m][k], k, c.records, c.keys, suite.codec(m, k), batchSize)
  }

  /** Group `k` of module `m`, cut up from where the module stands. */
  function GroupSplit<R>(suite: Suite<R>, snapshot: Snapshot<R>, batchSize: nat, m: nat, k: nat, sequence: nat,
      root: Hash): Option<seq<PlanBatch>>
    requires Fitting(suite, snapshot) && m < |suite.names|
  {
    if k >= |suite.kinds[m]| then None else
    var job := JobOf(suite, snapshot, batchSize, m, k);
    if !job.WellFormed() then None else Split(job, 0, sequence, root)
  }

  function Splitter<R>(suite: Suite<R>, snapshot: Snapshot<R>, batchSize: nat, m: nat):
      (nat, nat, Hash) -> Option<seq<PlanBatch>>
    requires Fitting(suite, snapshot) && m < |suite.names|
  {
    (k: nat, sequence: nat, root: Hash) => GroupSplit(suite, snapshot, batchSize, m, k, sequence, root)
  }

  /** One group after another, each continuing the sequence and root of the last. */
  function Groups(seed: Hash, split: (nat, nat, Hash) -> Option<seq<PlanBatch>>, k: nat): Option<seq<PlanBatch>> {
    if k == 0 then Some([]) else
    var before :- Groups(seed, split, k - 1);
    var made :- split(k - 1, |before|, LastRoot(seed, before));
    Some(before + made)
  }

  function ModuleBatches<R>(suite: Suite<R>, snapshot: Snapshot<R>, batchSize: nat, m: nat): Option<seq<PlanBatch>>
    requires Fitting(suite, snapshot)
  {
    if m >= |suite.names| then None else
    Groups(Seed(suite, snapshot.root, m), Splitter(suite, snapshot, batchSize, m), |suite.kinds[m]|)
  }

  function BatchBuilder<R>(suite: Suite<R>, snapshot: Snapshot<R>, batchSize: nat): nat -> Option<seq<PlanBatch>>
    requires Fitting(suite, snapshot)
  {
    (m: nat) => ModuleBatches(suite, snapshot, batchSize, m)
  }

  function MakeModule<R>(suite: Suite<R>, root: Hash, m: nat, batches: seq<PlanBatch>): ModulePlan
    requires suite.Shaped() && m < |suite.names|
  {
    ModulePlan(m, suite.names[m], suite.ids[m], Total(batches), |batches|, LastRoot(Seed(suite, root, m), batches),
      batches)
  }

  /** The batch lists of the first `n` modules. */
  function AllBatches(build: nat -> Option<seq<PlanBatch>>, n: nat): (r: Option<seq<seq<PlanBatch>>>)
    ensures r.Some? ==> |r.value| == n && forall m :: 0 <= m < n ==> build(m) == Some(r.value[m])
    ensures r.None? ==> exists m :: 0 <= m < n && build(m).None?
  {
    if n == 0 then Some([]) else
    var before :- AllBatches(build, n - 1);
    var batches :- build(n - 1);
    Some(before + [batches])
  }

  function MakeModules<R>(suite: Suite<R>, root: Hash, batches: seq<seq<PlanBatch>>): seq<ModulePlan>
    requires suite.Shaped() && |batches| == |suite.names|
  {
    seq(|batches|, m requires 0 <= m < |batches| => MakeModule(suite, root, m, batches[m]))
  }

  function TotalBatches(modules: seq<ModulePlan>): nat {
    if modules == [] then 0 else TotalBatches(modules[..|modules| - 1]) + |modules[|modules| - 1].batches|
  }

  function CollectionSizes<R>(collections: seq<seq<Collection<R>>>): seq<seq<nat>> {
    seq(|collections|, m requires 0 <= m < |collections| =>
      seq(|collections[m]|, k requires 0 <= k < |collections[m]| => |collections[m][k].records|))
  }

  function EffectiveBatchSize(batchSize: int): int { if batchSize == 0 then DEFAULT_BATCH_SIZE else batchSize }

  predicate OptionsValid(o: Options) {
    o.targetChainId != 0 && o.directory != 0 && o.coordinator != 0 && o.directory != o.coordinator &&
    1 <= EffectiveBatchSize(o.batchSize) <= MAXIMUM_BATCH_ITEMS
  }

  /** `BuildPlan`, up to its final self-check. */
  function BuildPlan<R>(suite: Suite<R>, snapshot: Snapshot<R>, o: Options): Option<Plan>
    requires Fitting(suite, snapshot)
  {
    if !OptionsValid(o) then None else
    var size := EffectiveBatchSize(o.batchSize);
    var batches :- AllBatches(BatchBuilder(suite, snapshot, size), |suite.names|);
    var modules := MakeModules(suite, snapshot.root, batches);
    var count := TotalBatches(modules);
    var summary := Summary(CollectionSizes(snapshot.collections), count, 2 * |suite.names| + count + 2);
    Some(Plan(snapshot.root, snapshot.evidence, o.targetChainId, SUITE_VERSION, o.directory, o.coordinator, size,
              modules, summary))
  }

  // ------------------------------------------------------------ checking

  predicate BatchValid<R>(suite: Suite<R>, m: nat, batchSize: int, b: PlanBatch)
    requires suite.Shaped() && m < |suite.names|
  {
    0 < b.count <= MAXIMUM_BATCH_ITEMS && b.count <= batchSize && |b.itemKeys| == b.count &&
    (forall i :: 0 <= i < |b.itemKeys| ==> !suite.blank(b.itemKeys[i])) &&
    0 < |b.payload| <= MAXIMUM_PAYLOAD_BYTES &&
    b.kindCode < |suite.kinds[m]| && DecodeCount(suite.codec(m, b.kindCode), b.payload) == Some(b.count) &&
    b.kind == suite.kinds[m][b.kindCode] && b.payloadHash == suite.h.digest(b.payload)
  }

  predicate KindsOrdered(batches: seq<PlanBatch>) {
    forall i, j :: 0 <= i < j < |batches| ==> batches[i].kindCode <= batches[j].kindCode
  }

  predicate ModuleValid<R>(suite: Suite<R>, root: Hash, batchSize: int, m: nat, p: ModulePlan)
    requires suite.Shaped() && m < |suite.names|
  {
    p.order == m && p.name == suite.names[m] && p.id == suite.ids[m] &&
    (forall i :: 0 <= i < |p.batches| ==> BatchValid(suite, m, batchSize, p.batches[i])) &&
    KindsOrdered(p.batches) && Chained(suite.h, p.id, 0, Seed(suite, root, m), p.batches) &&
    p.expectedCount == Total(p.batches) && p.expectedBatches == |p.batches| &&
    p.expectedRoot == LastRoot(Seed(suite, root, m), p.batches)
  }

  /** Items of one kind. */
  function KindCount(batches: seq<PlanBatch>, kindCode: nat): nat {
    if batches == [] then 0 else
    (if batches[0].kindCode == kindCode then batches[0].count else 0) + KindCount(batches[1..], kindCode)
  }

  predicate CountsMatch(kinds: nat, counts: seq<nat>, batches: seq<PlanBatch>) {
    |counts| == kinds && forall k :: 0 <= k < kinds ==> counts[k] == KindCount(batches, k)
  }

  function Sum(counts: seq<nat>): nat {
    if counts == [] then 0 else Sum(counts[..|counts| - 1]) + counts[|counts| - 1]
  }

  function SumAll(counts: seq<seq<nat>>): nat {
    if counts == [] then 0 else SumAll(counts[..|counts| - 1]) + Sum(counts[|counts| - 1])
  }

  function TotalItems(modules: seq<ModulePlan>): nat {
    if modules == [] then 0 else TotalItems(modules[..|modules| - 1]) + Total(modules[|modules| - 1].batches)
  }

  predicate HeaderValid(p: Plan) {
    p.snapshotRoot != Zero() && p.evidence != Zero() && p.targetChainId != 0 && p.suiteVersion == SUITE_VERSION &&
    p.directory != 0 && p.coordinator != 0 && p.directory != p.coordinator && 1 <= p.batchSize <= MAXIMUM_BATCH_ITEMS
  }

  /** `ValidatePlan`. */
  predicate PlanValid<R>(suite: Suite<R>, p: Plan)
    requires suite.Shaped()
  {
    HeaderValid(p) && |p.modules| == |suite.names| && |p.summary.counts| == |suite.names| &&
    (forall m :: 0 <= m < |p.modules| ==> ModuleValid(suite, p.snapshotRoot, p.batchSize, m, p.modules[m])) &&
    p.summary.batchCount == TotalBatches(p.modules) &&
    p.summary.transactionCount == 2 * |suite.names| + p.summary.batchCount + 2 &&
    TotalItems(p.modules) == SumAll(p.summary.counts) &&
    (forall m :: 0 <= m < |p.modules| ==> CountsMatch(|suite.kinds[m]|, p.summary.counts[m], p.modules[m].batches))
  }
}
