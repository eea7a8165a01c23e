/** Plan generation is complete for its own checker, and accepted roots commit to the import. */
module PlanAccepted {
  import opened Digits
  import opened RollingRoot
  import opened Batching
  import opened Plan

  /** What snapshot validation and the ABI library provide. */
  ghost predicate Importable<R(!new)>(suite: Suite<R>, snapshot: Snapshot<R>) {
    Fitting(suite, snapshot) && (forall m, k :: RoundTrips(suite.codec(m, k))) &&
    (forall m, k, i ::
      0 <= m < |suite.names| && 0 <= k < |suite.kinds[m]| && 0 <= i < |snapshot.collections[m][k].keys| ==>
      !suite.blank(snapshot.collections[m][k].keys[i]))
  }

  // ------------------------------------------------------ lists of batches

  lemma {:induction false} ChainedAppend(h: Hasher, id: Hash, sequence: nat, root: Hash, a: seq<PlanBatch>,
      b: seq<PlanBatch>)
    requires Chained(h, id, sequence, root, a) && Chained(h, id, sequence + |a|, LastRoot(root, a), b)
    ensures Chained(h, id, sequence, root, a + b) && LastRoot(root, a + b) == LastRoot(LastRoot(root, a), b)
    decreases |a|
  {
    if a == [] {
      assert a + b == b;
    } else {
      assert (a + b)[1..] == a[1..] + b;
      assert LastRoot(a[0].rollingRoot, a[1..]) == LastRoot(root, a);
      ChainedAppend(h, id, sequence + 1, a[0].rollingRoot, a[1..], b);
    }
  }

  lemma {:induction false} KindCountAppend(a: seq<PlanBatch>, b: seq<PlanBatch>, kind: nat)
    ensures KindCount(a + b, kind) == KindCount(a, kind) + KindCount(b, kind)
  {
    if a == [] {
      assert a + b == b;
    } else {
      assert (a + b)[1..] == a[1..] + b;
      KindCountAppend(a[1..], b, kind);
    }
  }

  lemma {:induction false} KindCountUniform(batches: seq<PlanBatch>, own: nat, kind: nat)
    requires forall i :: 0 <= i < |batches| ==> batches[i].kindCode == own
    ensures KindCount(batches, kind) == if kind == own then Total(batches) else 0
  {
    if batches != [] { KindCountUniform(batches[1..], own, kind); }
  }

  lemma {:induction false} KeyOccurs(batches: seq<PlanBatch>, i: nat, k: nat)
    requires i < |batches| && k < |batches[i].itemKeys|
    ensures batches[i].itemKeys[k] in Keys(batches)
  {
    if i > 0 { KeyOccurs(batches[1..], i - 1, k); }
  }

  // --------------------------------------------------------- one record group

  ghost predicate BatchesValid<R>(suite: Suite<R>, size: int, m: nat, k: nat, batches: seq<PlanBatch>)
    requires suite.Shaped() && m < |suite.names|
  {
    KindsOrdered(batches) &&
    forall i :: 0 <= i < |batches| ==> BatchValid(suite, m, size, batches[i]) && batches[i].kindCode < k
  }

  /** Kind `c` has as many items as its collection for the kinds below `k`, and none beyond. */
  ghost predicate Counted<R>(collections: seq<Collection<R>>, k: nat, batches: seq<PlanBatch>)
    requires k <= |collections|
  {
    forall c: nat :: KindCount(batches, c) == if c < k then |collections[c].records| else 0
  }

  ghost predicate Good<R>(suite: Suite<R>, snapshot: Snapshot<R>, size: nat, m: nat, k: nat, batches: seq<PlanBatch>)
    requires Fitting(suite, snapshot) && m < |suite.names| && k <= |suite.kinds[m]|
  {
    BatchesValid(suite, size, m, k, batches) && Counted(snapshot.collections[m], k, batches) &&
    Chained(suite.h, suite.ids[m], 0, Seed(suite, snapshot.root, m), batches)
  }

  lemma {:induction false} GroupValid<R(!new)>(suite: Suite<R>, snapshot: Snapshot<R>, size: nat, m: nat, k: nat,
      sequence: nat, root: Hash)
    requires Importable(suite, snapshot) && 0 < size <= MAXIMUM_BATCH_ITEMS && m < |suite.names| && k < |suite.kinds[m]|
    requires var job := JobOf(suite, snapshot, size, m, k); job.WellFormed() && Split(job, 0, sequence, root).Some?
    ensures var made := Split(JobOf(suite, snapshot, size, m, k), 0, sequence, root).value;
            Chained(suite.h, suite.ids[m], sequence, root, made) &&
            Total(made) == |snapshot.collections[m][k].records| &&
            forall i :: 0 <= i < |made| ==> BatchValid(suite, m, size, made[i]) && made[i].kindCode == k
  {
    var job := JobOf(suite, snapshot, size, m, k);
    assert RoundTrips(job.codec);
    SplitFaithful(job, 0, sequence, root);
    var made := Split(job, 0, sequence, root).value;
    assert job.keys[0..] == job.keys && job.records[0..] == job.records;
    forall i | 0 <= i < |made| ensures BatchValid(suite, m, size, made[i]) {
      forall n | 0 <= n < |made[i].itemKeys| ensures !suite.blank(made[i].itemKeys[n]) {
        KeyOccurs(made, i, n);
        assert made[i].itemKeys[n] in snapshot.collections[m][k].keys;
      }
    }
  }

  lemma {:induction false} CountedAppend<R>(collections: seq<Collection<R>>, k: nat, before: seq<PlanBatch>,
      made: seq<PlanBatch>)
    requires k < |collections| && Counted(collections, k, before) && Total(made) == |collections[k].records|
    requires forall i :: 0 <= i < |made| ==> made[i].kindCode == k
    ensures Counted(collections, k + 1, before + made)
  {
    forall c: nat ensures KindCount(before + made, c) == if c < k + 1 then |collections[c].records| else 0 {
      KindCountAppend(before, made, c);
      KindCountUniform(made, k, c);
    }
  }

  lemma {:induction false} ValidAppend<R>(suite: Suite<R>, size: int, m: nat, k: nat, before: seq<PlanBatch>,
      made: seq<PlanBatch>)
    requires suite.Shaped() && m < |suite.names| && BatchesValid(suite, size, m, k, before)
    requires forall i :: 0 <= i < |made| ==> BatchValid(suite, m, size, made[i]) && made[i].kindCode == k
    ensures BatchesValid(suite, size, m, k + 1, before + made)
  {
  }

  lemma {:induction false} GoodStep<R(!new)>(suite: Suite<R>, snapshot: Snapshot<R>, size: nat, m: nat, k: nat,
      before: seq<PlanBatch>, made: seq<PlanBatch>)
    requires Fitting(suite, snapshot) && m < |suite.names| && k < |suite.kinds[m]|
    requires Good(suite, snapshot, size, m, k, before)
    requires Chained(suite.h, suite.ids[m], |before|, LastRoot(Seed(suite, snapshot.root, m), before), made)
    requires Total(made) == |snapshot.collections[m][k].records|
    requires forall i :: 0 <= i < |made| ==> BatchValid(suite, m, size, made[i]) && made[i].kindCode == k
    ensures Good(suite, snapshot, size, m, k + 1, before + made)
  {
    ChainedAppend(suite.h, suite.ids[m], 0, Seed(suite, snapshot.root, m), before, made);
    CountedAppend(snapshot.collections[m], k, before, made);
    ValidAppend(suite, size, m, k, before, made);
  }

  /** Group `k` added to good batches leaves them good. */
  lemma {:induction false} GroupGood<R(!new)>(suite: Suite<R>, snapshot: Snapshot<R>, size: nat, m: nat, k: nat,
      before: seq<PlanBatch>)
    requires Importable(suite, snapshot) && 0 < size <= MAXIMUM_BATCH_ITEMS && m < |suite.names| && k < |suite.kinds[m]|
    requires Good(suite, snapshot, size, m, k, before)
    requires GroupSplit(suite, snapshot, size, m, k, |before|, LastRoot(Seed(suite, snapshot.root, m), before)).Some?
    ensures Good(suite, snapshot, size, m, k + 1, before +
              GroupSplit(suite, snapshot, size, m, k, |before|, LastRoot(Seed(suite, snapshot.root, m), before)).value)
  {
    var root := LastRoot(Seed(suite, snapshot.root, m), before);
    GroupValid(suite, snapshot, size, m, k, |before|, root);
    GoodStep(suite, snapshot, size, m, k, before, Split(JobOf(suite, snapshot, size, m, k), 0, |before|, root).value);
  }

  /** What holds of no batches and survives each group holds of them all. */
  lemma {:induction false} GroupsKeep(seed: Hash, split: (nat, nat, Hash) -> Option<seq<PlanBatch>>,
      good: (nat, seq<PlanBatch>) -> bool, k: nat, last: nat)
    requires good(0, []) && k <= last && Groups(seed, split, k).Some?
    requires forall c: nat, before | c < last && good(c, before) && split(c, |before|, LastRoot(seed, before)).Some? ::
               good(c + 1, before + split(c, |before|, LastRoot(seed, before)).value)
    ensures good(k, Groups(seed, split, k).value)
  {
    if k > 0 { GroupsKeep(seed, split, good, k - 1, last); }
  }

  lemma {:induction false} EachGroupGood<R(!new)>(suite: Suite<R>, snapshot: Snapshot<R>, size: nat, m: nat, seed: Hash,
      split: (nat, nat, Hash) -> Option<seq<PlanBatch>>, good: (nat, seq<PlanBatch>) -> bool, last: nat)
    requires Importable(suite, snapshot) && 0 < size <= MAXIMUM_BATCH_ITEMS && m < |suite.names|
    requires seed == Seed(suite, snapshot.root, m) && last == |suite.kinds[m]|
    requires split == Splitter(suite, snapshot, size, m)
    requires forall k: nat, batches ::
      good(k, batches) <==> k <= last && Good(suite, snapshot, size, m, k, batches)
    ensures forall c: nat, before | c < last && good(c, before) && split(c, |before|, LastRoot(seed, before)).Some? ::
               good(c + 1, before + split(c, |before|, LastRoot(seed, before)).value)
  {
    forall c: nat, before | c < last && good(c, before) && split(c, |before|, LastRoot(seed, before)).Some?
      ensures good(c + 1, before + split(c, |before|, LastRoot(seed, before)).value)
    {
      GroupGood(suite, snapshot, size, m, c, before);
    }
  }

  lemma {:induction false} GroupsGood<R(!new)>(suite: Suite<R>, snapshot: Snapshot<R>, size: nat, m: nat)
    requires Importable(suite, snapshot) && 0 < size <= MAXIMUM_BATCH_ITEMS && m < |suite.names|
    requires ModuleBatches(suite, snapshot, size, m).Some?
    ensures Good(suite, snapshot, size, m, |suite.kinds[m]|, ModuleBatches(suite, snapshot, size, m).value)
  {
    var seed, last := Seed(suite, snapshot.root, m), |suite.kinds[m]|;
    var split := Splitter(suite, snapshot, size, m);
    var good := (k: nat, batches: seq<PlanBatch>) => k <= last && Good(suite, snapshot, size, m, k, batches);
    EachGroupGood(suite, snapshot, size, m, seed, split, good, last);
    GroupsKeep(seed, split, good, last, last);
  }

  // ------------------------------------------------------------ whole plans

  lemma {:induction false} KindsAdd(batches: seq<PlanBatch>, counts: seq<nat>)
    requires forall k :: 0 <= k < |counts| ==> counts[k] == KindCount(batches, k)
    requires forall i :: 0 <= i < |batches| ==> batches[i].kindCode < |counts|
    ensures Sum(counts) == Total(batches)
    decreases |batches|, |counts|
  {
    if batches == [] {
      if counts != [] { KindsAdd(batches, counts[..|counts| - 1]); }
    } else {
      var b, rest := batches[0], batches[1..];
      var less := seq(|counts|, k requires 0 <= k < |counts| => KindCount(rest, k));
      KindsAdd(rest, less);
      assert forall k :: 0 <= k < |counts| ==> counts[k] == less[k] + if k == b.kindCode then b.count else 0;
      SumBump(less, counts, b.kindCode, b.count);
    }
  }

  lemma {:induction false} SumBump(a: seq<nat>, b: seq<nat>, at: nat, more: nat)
    requires |a| == |b| && at < |a|
    requires forall k :: 0 <= k < |a| ==> b[k] == a[k] + if k == at then more else 0
    ensures Sum(b) == Sum(a) + more
  {
    var last := |a| - 1;
    if at == last {
      assert a[..last] == b[..last];
    } else {
      SumBump(a[..last], b[..last], at, more);
    }
  }

  function Sizes<R>(collections: seq<Collection<R>>): seq<nat> {
    seq(|collections|, k requires 0 <= k < |collections| => |collections[k].records|)
  }

  ghost predicate ModuleGood<R>(suite: Suite<R>, snapshot: Snapshot<R>, size: nat, m: nat, p: ModulePlan)
    requires Fitting(suite, snapshot) && m < |suite.names|
  {
    ModuleValid(suite, snapshot.root, size, m, p) &&
    CountsMatch(|suite.kinds[m]|, Sizes(snapshot.collections[m]), p.batches) &&
    Total(p.batches) == Sum(Sizes(snapshot.collections[m]))
  }

  lemma {:induction false} BuiltModuleGood<R(!new)>(suite: Suite<R>, snapshot: Snapshot<R>, size: nat, m: nat,
      batches: seq<PlanBatch>)
    requires Importable(suite, snapshot) && 0 < size <= MAXIMUM_BATCH_ITEMS && m < |suite.names|
    requires Good(suite, snapshot, size, m, |suite.kinds[m]|, batches)
    ensures ModuleGood(suite, snapshot, size, m, MakeModule(suite, snapshot.root, m, batches))
  {
    var counts := Sizes(snapshot.collections[m]);
    assert forall c: nat :: c < |counts| ==> counts[c] == KindCount(batches, c);
    KindsAdd(batches, counts);
  }

  lemma {:induction false} ItemsAdd(modules: seq<ModulePlan>, counts: seq<seq<nat>>)
    requires |modules| == |counts| && forall m :: 0 <= m < |modules| ==> Total(modules[m].batches) == Sum(counts[m])
    ensures TotalItems(modules) == SumAll(counts)
  {
    if modules != [] { ItemsAdd(modules[..|modules| - 1], counts[..|counts| - 1]); }
  }

  lemma {:induction false} BuiltModulesGood<R(!new)>(suite: Suite<R>, snapshot: Snapshot<R>, size: nat,
      batches: seq<seq<PlanBatch>>, m: nat)
    requires Importable(suite, snapshot) && 1 <= size <= MAXIMUM_BATCH_ITEMS && m < |batches| == |suite.names|
    requires AllBatches(BatchBuilder(suite, snapshot, size), |suite.names|) == Some(batches)
    ensures ModuleGood(suite, snapshot, size, m, MakeModules(suite, snapshot.root, batches)[m])
  {
    assert BatchBuilder(suite, snapshot, size)(m) == Some(batches[m]);
    GroupsGood(suite, snapshot, size, m);
    BuiltModuleGood(suite, snapshot, size, m, batches[m]);
  }

  /** Good modules under a valid header make a valid plan. */
  lemma {:induction false} GoodModulesValid<R>(suite: Suite<R>, snapshot: Snapshot<R>, p: Plan)
    requires Fitting(suite, snapshot) && HeaderValid(p) && |p.modules| == |suite.names|
    requires p.snapshotRoot == snapshot.root
    requires p.summary == Summary(CollectionSizes(snapshot.collections), TotalBatches(p.modules),
      2 * |suite.names| + TotalBatches(p.modules) + 2)
    requires forall m :: 0 <= m < |p.modules| ==> ModuleGood(suite, snapshot, p.batchSize, m, p.modules[m])
    ensures PlanValid(suite, p)
  {
    var counts := CollectionSizes(snapshot.collections);
    forall m | 0 <= m < |p.modules| ensures counts[m] == Sizes(snapshot.collections[m]) {}
    ItemsAdd(p.modules, counts);
  }

  /** Whatever `BuildPlan` produces, `ValidatePlan` accepts. */
  lemma {:induction false} BuiltPlanValid<R(!new)>(suite: Suite<R>, snapshot: Snapshot<R>, o: Options)
    requires Importable(suite, snapshot) && snapshot.root != Zero() && snapshot.evidence != Zero()
    requires BuildPlan(suite, snapshot, o).Some?
    ensures PlanValid(suite, BuildPlan(suite, snapshot, o).value)
  {
    var p, size := BuildPlan(suite, snapshot, o).value, EffectiveBatchSize(o.batchSize);
    var batches := AllBatches(BatchBuilder(suite, snapshot, size), |suite.names|).value;
    forall m | 0 <= m < |p.modules| ensures ModuleGood(suite, snapshot, size, m, p.modules[m]) {
      BuiltModulesGood(suite, snapshot, size, batches, m);
    }
    GoodModulesValid(suite, snapshot, p);
  }

  // ------------------------------------------------------- roots commit

  function Imports(batches: seq<PlanBatch>): (r: seq<Import>)
    ensures |r| == |batches|
  {
    seq(|batches|, i requires 0 <= i < |batches| => Import(batches[i].sequence, batches[i].count, batches[i].payload))
  }

  /** Link `i` of a chain, on its own. */
  predicate Linked(h: Hasher, id: Hash, root: Hash, batches: seq<PlanBatch>, i: nat)
    requires i < |batches|
  {
    batches[i].rollingRoot ==
      h.step(if i == 0 then root else batches[i - 1].rollingRoot, id, batches[i].sequence, batches[i].count,
        batches[i].payloadHash)
  }

  lemma {:induction false} ChainedAt(h: Hasher, id: Hash, sequence: nat, root: Hash, batches: seq<PlanBatch>, i: nat)
    requires i < |batches| && Chained(h, id, sequence, root, batches)
    ensures batches[i].sequence == sequence + i && Linked(h, id, root, batches, i)
    decreases i
  {
    if i > 0 {
      ChainedAt(h, id, sequence + 1, batches[0].rollingRoot, batches[1..], i - 1);
      assert batches[1..][i - 1] == batches[i];
      assert i > 1 ==> batches[1..][i - 2] == batches[i - 1];
    }
  }

  lemma {:induction false} PrefixRoll(h: Hasher, id: Hash, root: Hash, batches: seq<PlanBatch>, imports: seq<Import>,
      n: nat)
    requires n <= |batches| == |imports|
    requires forall i :: 0 <= i < |batches| ==> Linked(h, id, h.seed(id, root), batches, i)
    requires forall i ::
      0 <= i < |batches| ==> imports[i].sequence == batches[i].sequence && imports[i].count == batches[i].count
    requires forall i :: 0 <= i < |batches| ==> h.digest(imports[i].payload) == batches[i].payloadHash
    ensures RollWith(h, id, root, imports[..n]) == if n == 0 then h.seed(id, root) else batches[n - 1].rollingRoot
  {
    if n > 0 {
      PrefixRoll(h, id, root, batches, imports, n - 1);
      assert imports[..n][..n - 1] == imports[..n - 1];
      assert Linked(h, id, h.seed(id, root), batches, n - 1);
    }
  }

  lemma {:induction false} RollOf(h: Hasher, id: Hash, root: Hash, batches: seq<PlanBatch>, imports: seq<Import>)
    requires |batches| == |imports|
    requires forall i :: 0 <= i < |batches| ==> Linked(h, id, h.seed(id, root), batches, i)
    requires forall i ::
      0 <= i < |batches| ==> imports[i].sequence == batches[i].sequence && imports[i].count == batches[i].count
    requires forall i :: 0 <= i < |batches| ==> h.digest(imports[i].payload) == batches[i].payloadHash
    ensures RollWith(h, id, root, imports) == LastRoot(h.seed(id, root), batches)
  {
    PrefixRoll(h, id, root, batches, imports, |batches|);
    assert imports[..|batches|] == imports;
  }

  lemma {:induction false} ChainLinks(h: Hasher, id: Hash, root: Hash, batches: seq<PlanBatch>)
    requires Chained(h, id, 0, root, batches)
    ensures forall i :: 0 <= i < |batches| ==> batches[i].sequence == i && Linked(h, id, root, batches, i)
  {
    forall i | 0 <= i < |batches| ensures batches[i].sequence == i && Linked(h, id, root, batches, i) {
      ChainedAt(h, id, 0, root, batches, i);
    }
  }

  lemma {:induction false} ChainIsRoll(h: Hasher, id: Hash, root: Hash, batches: seq<PlanBatch>)
    requires Chained(h, id, 0, h.seed(id, root), batches)
    requires forall i :: 0 <= i < |batches| ==> batches[i].payloadHash == h.digest(batches[i].payload)
    ensures LastRoot(h.seed(id, root), batches) == RollWith(h, id, root, Imports(batches))
    ensures forall i :: 0 <= i < |batches| ==> batches[i].sequence == i
  {
    ChainLinks(h, id, h.seed(id, root), batches);
    RollOf(h, id, root, batches, Imports(batches));
  }

  lemma {:induction false} ModuleChain<R>(suite: Suite<R>, root: Hash, size: int, m: nat, p: ModulePlan)
    requires suite.Shaped() && m < |suite.names| && ModuleValid(suite, root, size, m, p)
    ensures Chained(suite.h, p.id, 0, suite.h.seed(p.id, root), p.batches)
    ensures p.expectedRoot == LastRoot(suite.h.seed(p.id, root), p.batches)
    ensures forall i :: 0 <= i < |p.batches| ==> p.batches[i].payloadHash == suite.h.digest(p.batches[i].payload)
    ensures forall i :: 0 <= i < |p.batches| ==> p.batches[i].count <= MAXIMUM_BATCH_ITEMS
  {
    forall i | 0 <= i < |p.batches|
      ensures p.batches[i].payloadHash == suite.h.digest(p.batches[i].payload)
      ensures p.batches[i].count <= MAXIMUM_BATCH_ITEMS
    {
      assert BatchValid(suite, m, size, p.batches[i]);
    }
  }

  lemma {:induction false} ModuleRoot<R>(suite: Suite<R>, root: Hash, size: int, m: nat, p: ModulePlan)
    requires suite.Shaped() && m < |suite.names| && ModuleValid(suite, root, size, m, p)
    requires |p.batches| < UINT64_LIMIT
    ensures p.expectedRoot == RollWith(suite.h, p.id, root, Imports(p.batches)) && Fits(Imports(p.batches))
  {
    ModuleChain(suite, root, size, m, p);
    ChainIsRoll(suite.h, p.id, root, p.batches);
  }

  /** Two accepted module plans with one expected root import the same things into the same
      module of the same snapshot, unless the hash function is broken. */
  lemma {:induction false} AcceptedRootsCommit<R>(suite: Suite<R>, root: Hash, size: int, m: nat, p: ModulePlan,
      root': Hash, size': int, n: nat, q: ModulePlan)
    requires suite.Shaped() && Rolling(suite.h) && m < |suite.names| && n < |suite.names|
    requires ModuleValid(suite, root, size, m, p) && ModuleValid(suite, root', size', n, q)
    requires |p.batches| < UINT64_LIMIT && |q.batches| < UINT64_LIMIT && p.expectedRoot == q.expectedRoot
    ensures Broken(suite.h.digest) || (p.id == q.id && root == root' && Imports(p.batches) == Imports(q.batches))
  {
    ModuleRoot(suite, root, size, m, p);
    ModuleRoot(suite, root', size', n, q);
    RollCommits(suite.h, p.id, root, Imports(p.batches), q.id, root', Imports(q.batches));
  }
}
