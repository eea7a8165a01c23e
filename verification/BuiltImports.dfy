/** The batches of a built plan at the modules: cut up, hashed and sent one by one, they are the
    snapshot's records in import order, so the modules take every one of them unless a repository
    has the zero id. */
module BuiltImports {
  import opened Digits
  import opened RollingRoot
  import opened Batching
  import opened Plan
  import opened Manifest
  import opened Coordinator
  import opened ManifestRun
  import PlanAccepted
  import SI = SuiteImport
  import ForkLineage

  type Records = seq<SI.SuiteRecord>

  /** How each module decodes its payloads. */
  type Reader = (Hash, Bytes) -> Option<Records>

  // ------------------------------------------------------ what the modules do

  /** The records of everything that has landed, one payload after the other. */
  function ReadAll(read: Reader, landed: seq<Landing>): Option<Records> {
    if landed == [] then Some([]) else
    var before :- ReadAll(read, landed[..|landed| - 1]);
    var last :- read(landed[|landed| - 1].id, landed[|landed| - 1].payload);
    Some(before + last)
  }

  /** How many records a module takes from a payload after what has landed. */
  function SuiteAccepts(read: Reader, landed: seq<Landing>, id: Hash, payload: Bytes): Option<nat> {
    var before :- ReadAll(read, landed);
    var storage :- SI.StoreAll(SI.Empty(), before);
    var records :- read(id, payload);
    if SI.StoreAll(storage, records).None? then None else Some(|records|)
  }

  /** The modules of the chain are those of the suite. */
  ghost predicate IsSuite(w: World, read: Reader) {
    forall landed, id, payload :: id in w.ids ==>
      w.accepts(landed, id, payload) == SuiteAccepts(read, landed, id, payload)
  }

  function Sent(id: Hash, batches: seq<PlanBatch>): (s: seq<Landing>)
    ensures |s| == |batches|
  {
    seq(|batches|, i requires 0 <= i < |batches| => Landing(id, batches[i].payload))
  }

  lemma {:induction false} LandingsAre(p: ModulePlan, i: nat)
    requires i <= |p.batches|
    ensures Landings(p, i) == Sent(p.id, p.batches)[..i]
  {
    if i > 0 {
      LandingsAre(p, i - 1);
      assert Sent(p.id, p.batches)[i - 1] == Landing(p.id, p.batches[i - 1].payload);
    }
  }

  // --------------------------------------------- one payload after the other

  lemma {:induction false} ReadAppend(read: Reader, a: seq<Landing>, b: seq<Landing>)
    ensures ReadAll(read, a + b) ==
      if ReadAll(read, a).None? || ReadAll(read, b).None? then None
      else Some(ReadAll(read, a).value + ReadAll(read, b).value)
    decreases |b|
  {
    if b == [] {
      assert a + b == a;
      if ReadAll(read, a).Some? { assert ReadAll(read, a).value + [] == ReadAll(read, a).value; }
    } else {
      ReadAppend(read, a, b[..|b| - 1]);
      assert (a + b)[..|a + b| - 1] == a + b[..|b| - 1];
      var x, y, z := ReadAll(read, a), ReadAll(read, b[..|b| - 1]), read(b[|b| - 1].id, b[|b| - 1].payload);
      if x.Some? && y.Some? && z.Some? { assert x.value + (y.value + z.value) == x.value + y.value + z.value; }
    }
  }

  lemma {:induction false} ReadOne(read: Reader, landing: Landing)
    ensures ReadAll(read, [landing]) == read(landing.id, landing.payload)
  {
    assert [landing][..0] == [];
    var records := read(landing.id, landing.payload);
    if records.Some? { assert [] + records.value == records.value; }
  }

  /** Everything that has landed was stored. */
  ghost predicate StoredAll(read: Reader, landed: seq<Landing>) {
    ReadAll(read, landed).Some? && SI.StoreAll(SI.Empty(), ReadAll(read, landed).value).Some?
  }

  /** A payload is taken after others if and only if the others were and all are stored together. */
  lemma {:induction false} TakenNext(read: Reader, landed: seq<Landing>, next: Landing)
    requires ReadAll(read, landed).Some? && read(next.id, next.payload).Some?
    ensures StoredAll(read, landed + [next]) <==>
      SuiteAccepts(read, landed, next.id, next.payload) == Some(|read(next.id, next.payload).value|)
    ensures StoredAll(read, landed + [next]) ==> StoredAll(read, landed)
  {
    ReadAppend(read, landed, [next]);
    ReadOne(read, next);
    SI.StoreAppend(SI.Empty(), ReadAll(read, landed).value, read(next.id, next.payload).value);
  }

  lemma {:induction false} ReadPart(read: Reader, a: seq<Landing>, b: seq<Landing>)
    requires ReadAll(read, a + b).Some?
    ensures ReadAll(read, a).Some? && ReadAll(read, b).Some?
  {
    ReadAppend(read, a, b);
  }

  lemma {:induction false} StoredPart(read: Reader, a: seq<Landing>, b: seq<Landing>)
    requires StoredAll(read, a + b)
    ensures StoredAll(read, a)
  {
    ReadAppend(read, a, b);
    SI.StoreAppend(SI.Empty(), ReadAll(read, a).value, ReadAll(read, b).value);
  }

  // ------------------------------------------------------ the plan's history

  lemma {:induction false} LandingsCut(p: ModulePlan, i: nat) returns (rest: seq<Landing>)
    requires i < |p.batches|
    ensures Landings(p, |p.batches|) == Landings(p, i) + [Landing(p.id, p.batches[i].payload)] + rest
  {
    var sent := Sent(p.id, p.batches);
    LandingsAre(p, i);
    LandingsAre(p, |p.batches|);
    rest := sent[i + 1..];
    assert sent[i] == Landing(p.id, p.batches[i].payload) && sent == sent[..i] + [sent[i]] + rest;
  }

  /** Everything before batch `i` of module `m`, that batch, and the rest. */
  lemma {:induction false} HistoryCut(modules: seq<ModulePlan>, m: nat, i: nat, n: nat) returns (rest: seq<Landing>)
    requires m < n <= |modules| && i < |modules[m].batches|
    ensures Stored(modules, n) ==
      History(modules, m, i) + [Landing(modules[m].id, modules[m].batches[i].payload)] + rest
  {
    var next := [Landing(modules[m].id, modules[m].batches[i].payload)];
    if n == m + 1 {
      rest := LandingsCut(modules[m], i);
      Regroup(Stored(modules, m), Landings(modules[m], i), next, rest);
    } else {
      var before := HistoryCut(modules, m, i, n - 1);
      var last := Landings(modules[n - 1], |modules[n - 1].batches|);
      rest := before + last;
      Regroup(History(modules, m, i), next, before, last);
    }
  }

  lemma {:induction false} Regroup(a: seq<Landing>, b: seq<Landing>, c: seq<Landing>, d: seq<Landing>)
    ensures a + (b + c + d) == a + b + c + d == a + b + (c + d)
  {
  }

  /** Every batch counts the records its module reads from it. */
  ghost predicate Counts(read: Reader, p: ModulePlan, i: nat)
    requires i < |p.batches|
  {
    read(p.id, p.batches[i].payload).Some? && |read(p.id, p.batches[i].payload).value| == p.batches[i].count
  }

  ghost predicate AllCount(read: Reader, modules: seq<ModulePlan>) {
    forall m, i :: 0 <= m < |modules| && 0 <= i < |modules[m].batches| ==> Counts(read, modules[m], i)
  }

  /** A batch is taken if and only if it is stored together with everything before it. */
  lemma {:induction false} TakesIff(w: World, read: Reader, modules: seq<ModulePlan>, m: nat, i: nat)
    requires IsSuite(w, read) && m < |modules| && i < |modules[m].batches| && modules[m].id in w.ids
    requires Counts(read, modules[m], i) && ReadAll(read, History(modules, m, i)).Some?
    ensures Takes(w, modules, m, i) <==>
      StoredAll(read, History(modules, m, i) + [Landing(modules[m].id, modules[m].batches[i].payload)])
  {
    TakenNext(read, History(modules, m, i), Landing(modules[m].id, modules[m].batches[i].payload));
  }

  lemma {:induction false} BatchTaken(w: World, read: Reader, modules: seq<ModulePlan>, m: nat, i: nat)
    requires IsSuite(w, read) && AllCount(read, modules) && m < |modules| && i < |modules[m].batches|
    requires modules[m].id in w.ids && StoredAll(read, Stored(modules, |modules|))
    ensures Takes(w, modules, m, i)
  {
    var next := Landing(modules[m].id, modules[m].batches[i].payload);
    var rest := HistoryCut(modules, m, i, |modules|);
    StoredPart(read, History(modules, m, i) + [next], rest);
    ReadPart(read, History(modules, m, i), [next]);
    assert Counts(read, modules[m], i);
    TakesIff(w, read, modules, m, i);
  }

  lemma {:induction false} HistoryNext(modules: seq<ModulePlan>, m: nat, i: nat)
    requires m < |modules| && i < |modules[m].batches|
    ensures History(modules, m, i + 1) ==
      History(modules, m, i) + [Landing(modules[m].id, modules[m].batches[i].payload)]
  {
  }

  lemma {:induction false} TakenStep(w: World, read: Reader, modules: seq<ModulePlan>, m: nat, i: nat)
    requires IsSuite(w, read) && m < |modules| && i < |modules[m].batches| && modules[m].id in w.ids
    requires Counts(read, modules[m], i) && Takes(w, modules, m, i) && StoredAll(read, History(modules, m, i))
    ensures StoredAll(read, History(modules, m, i + 1))
  {
    TakesIff(w, read, modules, m, i);
    HistoryNext(modules, m, i);
  }

  lemma {:induction false} Climbs(stored: nat -> bool, taken: nat -> bool, n: nat)
    requires stored(0) && forall i: nat :: i < n ==> taken(i) && (taken(i) && stored(i) ==> stored(i + 1))
    ensures stored(n)
  {
    if n > 0 { Climbs(stored, taken, n - 1); }
  }

  ghost predicate StoredTo(read: Reader, modules: seq<ModulePlan>, m: nat, i: nat) {
    m < |modules| && i <= |modules[m].batches| && StoredAll(read, History(modules, m, i))
  }

  ghost predicate TakenAt(w: World, read: Reader, modules: seq<ModulePlan>, m: nat, i: nat) {
    m < |modules| && i < |modules[m].batches| && Counts(read, modules[m], i) && Takes(w, modules, m, i)
  }

  lemma {:induction false} TakenSteps(w: World, read: Reader, modules: seq<ModulePlan>, m: nat, stored: nat -> bool,
      taken: nat -> bool)
    requires IsSuite(w, read) && m < |modules| && modules[m].id in w.ids
    requires forall i: nat :: stored(i) <==> StoredTo(read, modules, m, i)
    requires forall i: nat :: taken(i) <==> TakenAt(w, read, modules, m, i)
    ensures forall i: nat :: taken(i) && stored(i) ==> stored(i + 1)
  {
    forall i: nat | taken(i) && stored(i) ensures stored(i + 1) { TakenStep(w, read, modules, m, i); }
  }

  /** What module `m` takes is stored, batch after batch. */
  lemma {:induction false} TakenStored(w: World, read: Reader, modules: seq<ModulePlan>, m: nat, taken: nat -> bool)
    requires IsSuite(w, read) && m < |modules| && modules[m].id in w.ids
    requires forall i: nat :: taken(i) <==> TakenAt(w, read, modules, m, i)
    requires forall i: nat :: i < |modules[m].batches| ==> taken(i)
    requires StoredAll(read, Stored(modules, m))
    ensures StoredAll(read, Stored(modules, m + 1))
  {
    var n := |modules[m].batches|;
    var stored := (i: nat) => StoredTo(read, modules, m, i);
    assert History(modules, m, 0) == Stored(modules, m);
    TakenSteps(w, read, modules, m, stored, taken);
    Climbs(stored, taken, n);
  }

  ghost predicate AllTaken(w: World, read: Reader, modules: seq<ModulePlan>, m: nat) {
    m < |modules| && forall i: nat :: i < |modules[m].batches| ==> TakenAt(w, read, modules, m, i)
  }

  lemma {:induction false} ModuleStored(w: World, read: Reader, modules: seq<ModulePlan>, m: nat)
    requires IsSuite(w, read) && AllTaken(w, read, modules, m) && modules[m].id in w.ids
    requires StoredAll(read, Stored(modules, m))
    ensures StoredAll(read, Stored(modules, m + 1))
  {
    TakenStored(w, read, modules, m, (i: nat) => TakenAt(w, read, modules, m, i));
  }

  lemma {:induction false} AllTakenStored(w: World, read: Reader, modules: seq<ModulePlan>)
    requires IsSuite(w, read) && forall m :: 0 <= m < |modules| ==> modules[m].id in w.ids
    requires forall m :: 0 <= m < |modules| ==> AllTaken(w, read, modules, m)
    ensures StoredAll(read, Stored(modules, |modules|))
  {
    var stored := (m: nat) => m <= |modules| && StoredAll(read, Stored(modules, m));
    var taken := (m: nat) => m < |modules|;
    forall m: nat | m < |modules| && stored(m) ensures stored(m + 1) { ModuleStored(w, read, modules, m); }
    Climbs(stored, taken, |modules|);
  }

  /** The modules take all batches in turn if and only if they take all records in one go. */
  lemma {:induction false} EachTakenIff(w: World, read: Reader, modules: seq<ModulePlan>)
    requires IsSuite(w, read) && AllCount(read, modules)
    requires forall m :: 0 <= m < |modules| ==> modules[m].id in w.ids
    requires ReadAll(read, Stored(modules, |modules|)).Some?
    ensures (forall m, i :: 0 <= m < |modules| && 0 <= i < |modules[m].batches| ==> Takes(w, modules, m, i)) <==>
      StoredAll(read, Stored(modules, |modules|))
  {
    if StoredAll(read, Stored(modules, |modules|)) {
      forall m, i | 0 <= m < |modules| && 0 <= i < |modules[m].batches| ensures Takes(w, modules, m, i) {
        BatchTaken(w, read, modules, m, i);
      }
    }
    if forall m, i :: 0 <= m < |modules| && 0 <= i < |modules[m].batches| ==> Takes(w, modules, m, i) {
      forall m | 0 <= m < |modules| ensures AllTaken(w, read, modules, m) {
        assert forall i: nat :: i < |modules[m].batches| ==> Counts(read, modules[m], i) && Takes(w, modules, m, i);
      }
      AllTakenStored(w, read, modules);
    }
  }

  // ------------------------------------------------- what the batches hold

  function View<R>(view: R -> SI.SuiteRecord, rs: seq<R>): (s: Records)
    ensures |s| == |rs|
  {
    seq(|rs|, i requires 0 <= i < |rs| => view(rs[i]))
  }

  ghost predicate Decodes<R(!new)>(codec: Codec<R>, id: Hash, read: Reader, view: R -> SI.SuiteRecord) {
    forall payload :: codec.decode(payload).Some? ==>
      read(id, payload) == Some(View(view, codec.decode(payload).value))
  }

  /** The modules decode what the planner's codecs encode, kind by kind. */
  ghost predicate ReadsAs<R(!new)>(suite: Suite<R>, read: Reader, view: R -> SI.SuiteRecord)
    requires suite.Shaped()
  {
    forall m, k :: 0 <= m < |suite.names| && 0 <= k < |suite.kinds[m]| ==>
      Decodes(suite.codec(m, k), suite.ids[m], read, view)
  }

  /** All records of a module, kind after kind. */
  function RecordsOf<R>(view: R -> SI.SuiteRecord, collections: seq<Collection<R>>, k: nat): Records
    requires k <= |collections|
  {
    if k == 0 then [] else RecordsOf(view, collections, k - 1) + View(view, collections[k - 1].records)
  }

  /** All records, module after module. */
  function AllRecords<R>(view: R -> SI.SuiteRecord, collections: seq<seq<Collection<R>>>, m: nat): Records
    requires m <= |collections|
  {
    if m == 0 then [] else
    AllRecords(view, collections, m - 1) + RecordsOf(view, collections[m - 1], |collections[m - 1]|)
  }

  lemma {:induction false} ViewAppend<R>(view: R -> SI.SuiteRecord, a: seq<R>, b: seq<R>)
    ensures View(view, a + b) == View(view, a) + View(view, b)
  {
  }

  lemma {:induction false} DecodedRead<R(!new)>(codec: Codec<R>, id: Hash, read: Reader, view: R -> SI.SuiteRecord,
      batches: seq<PlanBatch>)
    requires Decoded(codec, batches).Some? && Decodes(codec, id, read, view)
    ensures ReadAll(read, Sent(id, batches)) == Some(View(view, Decoded(codec, batches).value))
  {
    if batches != [] {
      var rest, landing := batches[1..], Landing(id, batches[0].payload);
      DecodedRead(codec, id, read, view, rest);
      assert Sent(id, batches) == [landing] + Sent(id, rest);
      ReadAppend(read, [landing], Sent(id, rest));
      ReadOne(read, landing);
      ViewAppend(view, codec.decode(batches[0].payload).value, Decoded(codec, rest).value);
    }
  }

  ghost predicate HoldsRecords<R>(read: Reader, id: Hash, view: R -> SI.SuiteRecord, collections: seq<Collection<R>>,
      k: nat, batches: seq<PlanBatch>) {
    k <= |collections| && ReadAll(read, Sent(id, batches)) == Some(RecordsOf(view, collections, k))
  }

  lemma {:induction false} HoldsNext<R>(read: Reader, id: Hash, view: R -> SI.SuiteRecord,
      collections: seq<Collection<R>>, k: nat, before: seq<PlanBatch>, made: seq<PlanBatch>)
    requires k < |collections| && HoldsRecords(read, id, view, collections, k, before)
    requires ReadAll(read, Sent(id, made)) == Some(View(view, collections[k].records))
    ensures HoldsRecords(read, id, view, collections, k + 1, before + made)
  {
    assert Sent(id, before + made) == Sent(id, before) + Sent(id, made);
    ReadAppend(read, Sent(id, before), Sent(id, made));
  }

  lemma {:induction false} GroupReads<R(!new)>(job: Job<R>, id: Hash, read: Reader, view: R -> SI.SuiteRecord,
      sequence: nat, root: Hash)
    requires job.WellFormed() && RoundTrips(job.codec) && Split(job, 0, sequence, root).Some?
    requires Decodes(job.codec, id, read, view)
    ensures ReadAll(read, Sent(id, Split(job, 0, sequence, root).value)) == Some(View(view, job.records))
  {
    SplitFaithful(job, 0, sequence, root);
    assert job.records[0..] == job.records;
    DecodedRead(job.codec, id, read, view, Split(job, 0, sequence, root).value);
  }

  lemma {:induction false} GroupHolds<R(!new)>(suite: Suite<R>, snapshot: Snapshot<R>, size: nat, m: nat, k: nat,
      before: seq<PlanBatch>, read: Reader, view: R -> SI.SuiteRecord, sequence: nat, root: Hash)
    requires PlanAccepted.Importable(suite, snapshot) && m < |suite.names| && k < |suite.kinds[m]|
    requires Decodes(suite.codec(m, k), suite.ids[m], read, view)
    requires HoldsRecords(read, suite.ids[m], view, snapshot.collections[m], k, before)
    requires GroupSplit(suite, snapshot, size, m, k, sequence, root).Some?
    ensures HoldsRecords(read, suite.ids[m], view, snapshot.collections[m], k + 1,
      before + GroupSplit(suite, snapshot, size, m, k, sequence, root).value)
  {
    var job := JobOf(suite, snapshot, size, m, k);
    assert RoundTrips(suite.codec(m, k));
    GroupReads(job, suite.ids[m], read, view, sequence, root);
    HoldsNext(read, suite.ids[m], view, snapshot.collections[m], k, before, Split(job, 0, sequence, root).value);
  }

  lemma {:induction false} GroupsHold<R(!new)>(suite: Suite<R>, snapshot: Snapshot<R>, size: nat, m: nat,
      read: Reader, view: R -> SI.SuiteRecord, seed: Hash,
      split: (nat, nat, Hash) -> Option<seq<PlanBatch>>, good: (nat, seq<PlanBatch>) -> bool, last: nat)
    requires PlanAccepted.Importable(suite, snapshot) && m < |suite.names| && last == |suite.kinds[m]|
    requires ReadsAs(suite, read, view)
    requires split == Splitter(suite, snapshot, size, m)
    requires forall k: nat, batches ::
      good(k, batches) <==> HoldsRecords(read, suite.ids[m], view, snapshot.collections[m], k, batches)
    ensures forall c: nat, before | c < last && good(c, before) && split(c, |before|, LastRoot(seed, before)).Some? ::
               good(c + 1, before + split(c, |before|, LastRoot(seed, before)).value)
  {
    forall c: nat, before | c < last && good(c, before) && split(c, |before|, LastRoot(seed, before)).Some?
      ensures good(c + 1, before + split(c, |before|, LastRoot(seed, before)).value)
    {
      GroupHolds(suite, snapshot, size, m, c, before, read, view, |before|, LastRoot(seed, before));
    }
  }

  /** The batches of a built module hold exactly its records, in order. */
  lemma {:induction false} ModuleHolds<R(!new)>(suite: Suite<R>, snapshot: Snapshot<R>, size: nat, m: nat,
      read: Reader, view: R -> SI.SuiteRecord)
    requires PlanAccepted.Importable(suite, snapshot) && m < |suite.names| && ReadsAs(suite, read, view)
    requires ModuleBatches(suite, snapshot, size, m).Some?
    ensures HoldsRecords(read, suite.ids[m], view, snapshot.collections[m], |suite.kinds[m]|,
      ModuleBatches(suite, snapshot, size, m).value)
  {
    var seed, last, split := Seed(suite, snapshot.root, m), |suite.kinds[m]|, Splitter(suite, snapshot, size, m);
    var good := (k: nat, batches: seq<PlanBatch>) =>
      HoldsRecords(read, suite.ids[m], view, snapshot.collections[m], k, batches);
    GroupsHold(suite, snapshot, size, m, read, view, seed, split, good, last);
    assert Sent(suite.ids[m], []) == [];
    PlanAccepted.GroupsKeep(seed, split, good, last, last);
  }

  // ------------------------------------------------------------ built plans

  lemma {:induction false} BuiltModule<R(!new)>(suite: Suite<R>, snapshot: Snapshot<R>, o: Options, m: nat)
    requires PlanAccepted.Importable(suite, snapshot) && BuildPlan(suite, snapshot, o).Some? && m < |suite.names|
    ensures var p, size := BuildPlan(suite, snapshot, o).value, EffectiveBatchSize(o.batchSize);
      && size > 0 && |p.modules| == |suite.names| && p.modules[m].id == suite.ids[m]
      && ModuleBatches(suite, snapshot, size, m) == Some(p.modules[m].batches)
  {
    var size := EffectiveBatchSize(o.batchSize);
    var batches := AllBatches(BatchBuilder(suite, snapshot, size), |suite.names|).value;
    assert BatchBuilder(suite, snapshot, size)(m) == Some(batches[m]);
  }

  lemma {:induction false} BatchCounts<R(!new)>(suite: Suite<R>, root: Hash, size: int, m: nat, p: ModulePlan, i: nat,
      read: Reader, view: R -> SI.SuiteRecord)
    requires suite.Shaped() && m < |suite.names| && ModuleValid(suite, root, size, m, p) && i < |p.batches|
    requires ReadsAs(suite, read, view) && p.id == suite.ids[m]
    ensures Counts(read, p, i)
  {
    assert BatchValid(suite, m, size, p.batches[i]);
  }

  /** The modules of a plan hold what the snapshot does. */
  ghost predicate ModulesHold<R>(read: Reader, view: R -> SI.SuiteRecord, collections: seq<seq<Collection<R>>>,
      modules: seq<ModulePlan>) {
    |modules| == |collections| && forall m :: 0 <= m < |modules| ==>
      HoldsRecords(read, modules[m].id, view, collections[m], |collections[m]|, modules[m].batches)
  }

  lemma {:induction false} StoredHolds<R>(read: Reader, view: R -> SI.SuiteRecord,
      collections: seq<seq<Collection<R>>>, modules: seq<ModulePlan>, m: nat)
    requires ModulesHold(read, view, collections, modules) && m <= |modules|
    ensures ReadAll(read, Stored(modules, m)) == Some(AllRecords(view, collections, m))
  {
    if m > 0 {
      var p := modules[m - 1];
      StoredHolds(read, view, collections, modules, m - 1);
      LandingsAre(p, |p.batches|);
      assert Sent(p.id, p.batches)[..|p.batches|] == Sent(p.id, p.batches);
      ReadAppend(read, Stored(modules, m - 1), Landings(p, |p.batches|));
    }
  }

  /** The payloads of a built plan decode to exactly the snapshot's records, module after module
      and kind after kind. */
  lemma {:induction false} PlanHolds<R(!new)>(suite: Suite<R>, snapshot: Snapshot<R>, o: Options, read: Reader,
      view: R -> SI.SuiteRecord)
    requires PlanAccepted.Importable(suite, snapshot) && BuildPlan(suite, snapshot, o).Some?
    requires ReadsAs(suite, read, view)
    ensures var modules := BuildPlan(suite, snapshot, o).value.modules;
      && |modules| == |suite.names| == |snapshot.collections|
      && (forall m :: 0 <= m < |modules| ==> modules[m].id == suite.ids[m])
      && ReadAll(read, Stored(modules, |modules|)) == Some(AllRecords(view, snapshot.collections, |modules|))
  {
    var modules := BuildPlan(suite, snapshot, o).value.modules;
    forall m | 0 <= m < |suite.names|
      ensures |modules| == |suite.names| && modules[m].id == suite.ids[m]
      ensures HoldsRecords(read, modules[m].id, view, snapshot.collections[m], |snapshot.collections[m]|,
        modules[m].batches)
    {
      BuiltModule(suite, snapshot, o, m);
      ModuleHolds(suite, snapshot, EffectiveBatchSize(o.batchSize), m, read, view);
    }
    StoredHolds(read, view, snapshot.collections, modules, |modules|);
  }

  lemma {:induction false} PlanCounts<R(!new)>(suite: Suite<R>, p: Plan, read: Reader, view: R -> SI.SuiteRecord)
    requires suite.Shaped() && PlanValid(suite, p) && ReadsAs(suite, read, view)
    requires |p.modules| == |suite.names| && forall m :: 0 <= m < |p.modules| ==> p.modules[m].id == suite.ids[m]
    ensures AllCount(read, p.modules)
  {
    forall m, i | 0 <= m < |p.modules| && 0 <= i < |p.modules[m].batches| ensures Counts(read, p.modules[m], i) {
      assert ModuleValid(suite, p.snapshotRoot, p.batchSize, m, p.modules[m]);
      BatchCounts(suite, p.snapshotRoot, p.batchSize, m, p.modules[m], i, read, view);
    }
  }

  /** The modules take every batch of a built plan if and only if they take the snapshot's records
      in import order. */
  lemma {:induction false} BuiltTakenIff<R(!new)>(suite: Suite<R>, snapshot: Snapshot<R>, o: Options, w: World,
      read: Reader, view: R -> SI.SuiteRecord)
    requires PlanAccepted.Importable(suite, snapshot) && snapshot.root != Zero() && snapshot.evidence != Zero()
    requires BuildPlan(suite, snapshot, o).Some? && ReadsAs(suite, read, view) && IsSuite(w, read) && w.ids == suite.ids
    ensures var modules := BuildPlan(suite, snapshot, o).value.modules;
      (forall m, i :: 0 <= m < |modules| && 0 <= i < |modules[m].batches| ==> Takes(w, modules, m, i)) <==>
      SI.StoreAll(SI.Empty(), AllRecords(view, snapshot.collections, |snapshot.collections|)).Some?
  {
    var p := BuildPlan(suite, snapshot, o).value;
    PlanHolds(suite, snapshot, o, read, view);
    PlanAccepted.BuiltPlanValid(suite, snapshot, o);
    PlanCounts(suite, p, read, view);
    EachTakenIff(w, read, p.modules);
  }

  // ------------------------------------------------------ a valid snapshot

  /** Every record is filed under the module and the kind it belongs to. */
  ghost predicate Filed<R>(view: R -> SI.SuiteRecord, collections: seq<seq<Collection<R>>>) {
    forall m, k, i :: 0 <= m < |collections| && 0 <= k < |collections[m]| && 0 <= i < |collections[m][k].records| ==>
      SI.Place(view(collections[m][k].records[i])) == (m, k)
  }

  /** All records belong to module `m` and to kinds before `k`. */
  ghost predicate Within(rs: Records, m: nat, k: nat) {
    forall i :: 0 <= i < |rs| ==> SI.Place(rs[i]).0 == m && SI.Place(rs[i]).1 < k
  }

  /** All records belong to modules before `m`. */
  ghost predicate Below(rs: Records, m: nat) { forall i :: 0 <= i < |rs| ==> SI.Place(rs[i]).0 < m }

  lemma {:induction false} OrderAppend(a: Records, b: Records)
    requires SI.InOrder(a) && SI.InOrder(b)
    requires forall i, j :: 0 <= i < |a| && 0 <= j < |b| ==> SI.NotAfter(SI.Place(a[i]), SI.Place(b[j]))
    ensures SI.InOrder(a + b)
  {
  }

  lemma {:induction false} KindAppend(rs: Records, last: Records, m: nat, k: nat)
    requires SI.InOrder(rs) && Within(rs, m, k) && forall i :: 0 <= i < |last| ==> SI.Place(last[i]) == (m, k)
    ensures SI.InOrder(rs + last) && Within(rs + last, m, k + 1)
  {
    OrderAppend(rs, last);
  }

  lemma {:induction false} KindsInOrder<R>(view: R -> SI.SuiteRecord, collections: seq<seq<Collection<R>>>, m: nat,
      k: nat)
    requires Filed(view, collections) && m < |collections| && k <= |collections[m]|
    ensures SI.InOrder(RecordsOf(view, collections[m], k)) && Within(RecordsOf(view, collections[m], k), m, k)
  {
    if k > 0 {
      KindsInOrder(view, collections, m, k - 1);
      KindAppend(RecordsOf(view, collections[m], k - 1), View(view, collections[m][k - 1].records), m, k - 1);
    }
  }

  lemma {:induction false} AllInOrder<R>(view: R -> SI.SuiteRecord, collections: seq<seq<Collection<R>>>, m: nat)
    requires Filed(view, collections) && m <= |collections|
    ensures SI.InOrder(AllRecords(view, collections, m)) && Below(AllRecords(view, collections, m), m)
  {
    if m > 0 {
      AllInOrder(view, collections, m - 1);
      KindsInOrder(view, collections, m - 1, |collections[m - 1]|);
      OrderAppend(AllRecords(view, collections, m - 1),
        RecordsOf(view, collections[m - 1], |collections[m - 1]|));
    }
  }

  /** The records of a valid snapshot, of which the first `n` are the repositories, sorted by fork
      depth. */
  ghost predicate SnapshotRecords(records: Records, p: ForkLineage.Parents, listing: seq<string>, n: nat) {
    && n <= |records| && SI.SnapshotValid(records[..n], records[n..])
    && ForkLineage.Describes(p, SI.Lineage(records[..n])) && ForkLineage.Closed(p) && ForkLineage.Lists(p, listing)
    && (forall id :: id in p ==> ForkLineage.Ends(p, id))
    && SI.Ids(records[..n]) == ForkLineage.Ordered(p, listing)
  }

  lemma {:induction false} OrderTail(records: Records, n: nat)
    requires SI.InOrder(records) && n <= |records|
    ensures SI.InOrder(records[n..])
  {
    forall i, j | 0 <= i < j < |records| - n
      ensures SI.NotAfter(SI.Place(records[n..][i]), SI.Place(records[n..][j]))
    {
      assert records[n..][i] == records[n + i] && records[n..][j] == records[n + j];
    }
  }

  lemma {:induction false} NoZeroIdFront(a: Records, b: Records)
    requires forall j :: 0 <= j < |b| ==> !b[j].Repository?
    ensures SI.NoZeroId(a + b) <==> SI.NoZeroId(a)
  {
    assert forall i :: 0 <= i < |a| ==> (a + b)[i] == a[i];
  }

  lemma {:induction false} RecordsTakenIff(records: Records, parents: ForkLineage.Parents, listing: seq<string>, n: nat)
    requires SnapshotRecords(records, parents, listing, n) && SI.InOrder(records)
    ensures SI.StoreAll(SI.Empty(), records).Some? <==> SI.NoZeroId(records)
  {
    OrderTail(records, n);
    SI.SnapshotTakenIff(records[..n], records[n..], parents, listing);
    NoZeroIdFront(records[..n], records[n..]);
    assert records[..n] + records[n..] == records;
  }

  /** The modules take every batch of a plan built from a valid snapshot if and only if no
      repository id is zero. */
  lemma {:induction false} SnapshotTakenIff<R(!new)>(suite: Suite<R>, snapshot: Snapshot<R>, o: Options, w: World,
      read: Reader, view: R -> SI.SuiteRecord, parents: ForkLineage.Parents, listing: seq<string>, n: nat)
    requires PlanAccepted.Importable(suite, snapshot) && snapshot.root != Zero() && snapshot.evidence != Zero()
    requires BuildPlan(suite, snapshot, o).Some? && ReadsAs(suite, read, view) && IsSuite(w, read) && w.ids == suite.ids
    requires Filed(view, snapshot.collections)
    requires SnapshotRecords(AllRecords(view, snapshot.collections, |snapshot.collections|), parents, listing, n)
    ensures var modules := BuildPlan(suite, snapshot, o).value.modules;
      (forall m, i :: 0 <= m < |modules| && 0 <= i < |modules[m].batches| ==> Takes(w, modules, m, i)) <==>
      SI.NoZeroId(AllRecords(view, snapshot.collections, |snapshot.collections|))
  {
    AllInOrder(view, snapshot.collections, |snapshot.collections|);
    RecordsTakenIff(AllRecords(view, snapshot.collections, |snapshot.collections|), parents, listing, n);
    BuiltTakenIff(suite, snapshot, o, w, read, view);
  }

  /** A plan built from a valid snapshot activates the suite if and only if no expected root and no
      repository id is zero. */
  lemma {:induction false} BuiltPlanActivates<R(!new)>(suite: Suite<R>, snapshot: Snapshot<R>, o: Options, w: World,
      read: Reader, view: R -> SI.SuiteRecord, parents: ForkLineage.Parents, listing: seq<string>, n: nat)
    requires PlanAccepted.Importable(suite, snapshot) && snapshot.root != Zero() && snapshot.evidence != Zero()
    requires BuildPlan(suite, snapshot, o).Some? && ReadsAs(suite, read, view) && IsSuite(w, read)
    requires Filed(view, snapshot.collections)
    requires SnapshotRecords(AllRecords(view, snapshot.collections, |snapshot.collections|), parents, listing, n)
    requires var p := BuildPlan(suite, snapshot, o).value; |p.modules| == |suite.ids| && Targets(suite, p, w)
    ensures var p := BuildPlan(suite, snapshot, o).value;
      && BuildManifest(suite, p).Some?
      && (Finished(Script(w, p.modules, p.evidence),
            LandAll(w, Initial(), Calls(EntriesOf(BuildManifest(suite, p).value)))) <==>
          (forall m :: 0 <= m < |p.modules| ==> p.modules[m].expectedRoot != Zero()) &&
          SI.NoZeroId(AllRecords(view, snapshot.collections, |snapshot.collections|)))
      && p.evidence == snapshot.evidence
  {
    SnapshotTakenIff(suite, snapshot, o, w, read, view, parents, listing, n);
    PlanAccepted.BuiltPlanValid(suite, snapshot, o);
    AcceptedPlanActivates(suite, BuildPlan(suite, snapshot, o).value, w);
  }
}
