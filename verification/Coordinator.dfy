/** The on-chain bootstrap coordinator with its modules and directory, as a state machine. */
module Coordinator {
  import opened Digits
  import opened RollingRoot
  import opened Batching
  import opened Plan
  import opened Manifest
  import PlanAccepted

  datatype Progress = Progress(
    started: bool, finalized: bool, expectedCount: nat, expectedBatches: nat,
    importedCount: nat, nextSequence: nat, expectedRoot: Hash, rollingRoot: Hash)

  function Blank(): Progress { Progress(false, false, 0, 0, 0, 0, Zero(), Zero()) }

  /** A payload that some module has taken. */
  datatype Landing = Landing(id: Hash, payload: Bytes)

  /** The required modules in order, which of them is the username module, the snapshot root
      they are bound to, and how many records a module takes from a payload (nothing: it
      reverts), given all payloads that have landed before, in any module. */
  datatype World = World(
    h: Hasher, ids: seq<Hash>, username: Hash, snapshotRoot: Hash, accepts: (seq<Landing>, Hash, Bytes) -> Option<nat>)

  /** `progress` is the coordinator's own record, `modules` what the module contracts hold;
      their record storage is what `landed` made of it. */
  datatype State = State(
    next: nat, evidence: Hash, activated: bool, directoryActive: bool,
    progress: map<Hash, Progress>, modules: map<Hash, Progress>, landed: seq<Landing>)

  function Initial(): State { State(0, Zero(), false, false, map[], map[], []) }

  function Get(m: map<Hash, Progress>, id: Hash): Progress { if id in m then m[id] else Blank() }

  predicate Current(w: World, s: State, id: Hash) { s.next < |w.ids| && w.ids[s.next] == id }

  // ------------------------------------------------------- module contracts

  function Opened(w: World, id: Hash, count: nat, batches: nat, root: Hash): Progress {
    Progress(true, false, count, batches, 0, 0, root, w.h.seed(id, w.snapshotRoot))
  }

  function ModuleBegin(w: World, id: Hash, p: Progress, count: nat, batches: nat, root: Hash): Option<Progress> {
    if p.started || root == Zero() || w.snapshotRoot == Zero() then None else Some(Opened(w, id, count, batches, root))
  }

  function Advanced(w: World, id: Hash, p: Progress, sequence: nat, count: nat, payloadHash: Hash): Progress {
    p.(importedCount := p.importedCount + count, nextSequence := sequence + 1,
       rollingRoot := w.h.step(p.rollingRoot, id, sequence, count, payloadHash))
  }

  function ModuleImport(w: World, landed: seq<Landing>, id: Hash, p: Progress, sequence: nat, count: nat,
      payloadHash: Hash, payload: Bytes): Option<Progress> {
    if !p.started || p.finalized || sequence != p.nextSequence then None
    else if count == 0 || count > MAXIMUM_BATCH_ITEMS || |payload| == 0 || |payload| > MAXIMUM_PAYLOAD_BYTES then None
    else if w.h.digest(payload) != payloadHash || w.accepts(landed, id, payload) != Some(count) then None
    else if p.importedCount + count > p.expectedCount || sequence + 1 > p.expectedBatches then None
    else Some(Advanced(w, id, p, sequence, count, payloadHash))
  }

  predicate Complete(p: Progress) {
    p.importedCount == p.expectedCount && p.nextSequence == p.expectedBatches && p.rollingRoot == p.expectedRoot
  }

  function ModuleFinalize(p: Progress): Option<Progress> {
    if !p.started || p.finalized || !Complete(p) then None else Some(p.(finalized := true))
  }

  // ------------------------------------------------------------ coordinator

  function Begin(w: World, s: State, id: Hash, count: nat, batches: nat, root: Hash): Option<State> {
    if !Current(w, s, id) || Get(s.progress, id).started then None else
    var inner :- ModuleBegin(w, id, Get(s.modules, id), count, batches, root);
    Some(s.(progress := s.progress[id := Opened(w, id, count, batches, root)], modules := s.modules[id := inner]))
  }

  function ImportInto(w: World, s: State, id: Hash, sequence: nat, count: nat, payloadHash: Hash,
      payload: Bytes): Option<State> {
    var p := Get(s.progress, id);
    if !Current(w, s, id) || !p.started || p.finalized || sequence != p.nextSequence then None
    else if w.h.digest(payload) != payloadHash then None
    else if p.importedCount + count > p.expectedCount || sequence + 1 > p.expectedBatches then None
    else
      var inner :- ModuleImport(w, s.landed, id, Get(s.modules, id), sequence, count, payloadHash, payload);
      Some(s.(progress := s.progress[id := Advanced(w, id, p, sequence, count, payloadHash)],
              modules := s.modules[id := inner], landed := s.landed + [Landing(id, payload)]))
  }

  function Finalize(w: World, s: State, id: Hash): Option<State> {
    var p := Get(s.progress, id);
    if !Current(w, s, id) || !p.started || p.finalized || !Complete(p) then None
    else if id == w.username && s.evidence == Zero() then None
    else
      var inner :- ModuleFinalize(Get(s.modules, id));
      Some(s.(progress := s.progress[id := p.(finalized := true)], modules := s.modules[id := inner],
        next := s.next + 1))
  }

  function Attest(s: State, evidence: Hash): Option<State> {
    if evidence == Zero() || s.evidence != Zero() then None else Some(s.(evidence := evidence))
  }

  function Activate(w: World, s: State): Option<State> {
    if s.next != |w.ids| || s.evidence == Zero() || s.directoryActive then None
    else if exists i :: 0 <= i < |w.ids| && !Get(s.modules, w.ids[i]).finalized then None
    else Some(s.(activated := true, directoryActive := true))
  }

  /** One operator transaction; nothing is a revert, which leaves the state as it was. */
  function Exec(w: World, s: State, call: Call): Option<State> {
    if s.activated then None else
    match call
    case BeginNextModule(id, count, batches, root) => Begin(w, s, id, count, batches, root)
    case ImportBatch(id, sequence, count, payloadHash, payload) =>
      ImportInto(w, s, id, sequence, count, payloadHash, payload)
    case AttestUsernameEscrow(evidence) => Attest(s, evidence)
    case FinalizeCurrentModule(id) => Finalize(w, s, id)
    case ActivateSuite => Activate(w, s)
  }

  /** Transactions as they land: reverted ones change nothing. */
  function Land(w: World, s: State, call: Call): State {
    var r := Exec(w, s, call);
    if r.Some? then r.value else s
  }

  function LandAll(w: World, s: State, calls: seq<Call>): State {
    if calls == [] then s else Land(w, LandAll(w, s, calls[..|calls| - 1]), calls[|calls| - 1])
  }

  // --------------------------------------- what any sequence of calls keeps

  /** What the coordinator has let through for one module. */
  function Landed(w: World, s: State, calls: seq<Call>, id: Hash): seq<Import> {
    if calls == [] then [] else
    var n := |calls| - 1;
    Landed(w, s, calls[..n], id) + AddedBy(w, LandAll(w, s, calls[..n]), calls[n], id)
  }

  function Items(imports: seq<Import>): nat {
    if imports == [] then 0 else Items(imports[..|imports| - 1]) + imports[|imports| - 1].count
  }

  /** The record of one module agrees with what was imported into it. */
  ghost predicate Accounts(w: World, id: Hash, p: Progress, imports: seq<Import>) {
    && (!p.started ==> p == Blank() && imports == [])
    && (p.started ==> p.rollingRoot == RollWith(w.h, id, w.snapshotRoot, imports) && p.expectedRoot != Zero())
    && p.nextSequence == |imports| <= p.expectedBatches && p.importedCount == Items(imports) <= p.expectedCount
    && (forall i :: 0 <= i < |imports| ==> imports[i].sequence == i && 0 < imports[i].count <= MAXIMUM_BATCH_ITEMS)
    && (p.finalized ==> p.started && Complete(p))
  }

  /** Modules are finalized in the required order, and both contracts tell the same story. */
  ghost predicate Coherent(w: World, s: State) {
    && s.modules == s.progress && s.next <= |w.ids| && s.directoryActive == s.activated
    && (forall i :: 0 <= i < |w.ids| ==> (Get(s.progress, w.ids[i]).finalized <==> i < s.next))
    && (forall i :: s.next < i < |w.ids| ==> Get(s.progress, w.ids[i]) == Blank())
    && (s.activated ==> s.next == |w.ids| && s.evidence != Zero())
    && (forall i :: 0 <= i < s.next && w.ids[i] == w.username ==> s.evidence != Zero())
  }

  ghost predicate DistinctIds(w: World) { forall i, j :: 0 <= i < j < |w.ids| ==> w.ids[i] != w.ids[j] }

  lemma {:induction false} LandCoherent(w: World, s: State, call: Call)
    requires DistinctIds(w) && Coherent(w, s)
    ensures Coherent(w, Land(w, s, call))
  {
  }

  lemma {:induction false} AdvanceAccounts(w: World, id: Hash, p: Progress, imports: seq<Import>, m: Import)
    requires Accounts(w, id, p, imports) && p.started && !p.finalized && m.sequence == p.nextSequence
    requires 0 < m.count <= MAXIMUM_BATCH_ITEMS && p.importedCount + m.count <= p.expectedCount
    requires m.sequence + 1 <= p.expectedBatches
    ensures Accounts(w, id, Advanced(w, id, p, m.sequence, m.count, w.h.digest(m.payload)), imports + [m])
  {
    assert (imports + [m])[..|imports|] == imports;
  }

  /** What one more landed call adds to the imports of `id`. */
  function AddedBy(w: World, s: State, call: Call, id: Hash): seq<Import> {
    if !call.ImportBatch? || call.id != id || Exec(w, s, call).None? then []
    else [Import(call.sequence, call.count, call.payload)]
  }

  lemma {:induction false} ImportAccounts(w: World, s: State, call: Call, id: Hash, imports: seq<Import>)
    requires s.modules == s.progress && Accounts(w, id, Get(s.progress, id), imports) && call.ImportBatch?
    ensures Accounts(w, id, Get(Land(w, s, call).progress, id), imports + AddedBy(w, s, call, id))
  {
    if call.id == id && Exec(w, s, call).Some? {
      AdvanceAccounts(w, id, Get(s.progress, id), imports, Import(call.sequence, call.count, call.payload));
    } else {
      assert imports + [] == imports;
    }
  }

  lemma {:induction false} LandAccounts(w: World, s: State, call: Call, id: Hash, imports: seq<Import>)
    requires s.modules == s.progress && Accounts(w, id, Get(s.progress, id), imports)
    ensures Accounts(w, id, Get(Land(w, s, call).progress, id), imports + AddedBy(w, s, call, id))
  {
    if call.ImportBatch? {
      ImportAccounts(w, s, call, id, imports);
    } else {
      assert imports + AddedBy(w, s, call, id) == imports;
    }
  }

  /** Whatever calls land in whatever order, the books balance. */
  lemma {:induction false} RunKeeps(w: World, calls: seq<Call>)
    requires DistinctIds(w)
    ensures var s := LandAll(w, Initial(), calls);
      Coherent(w, s) && forall id :: Accounts(w, id, Get(s.progress, id), Landed(w, Initial(), calls, id))
  {
    if calls == [] {
    } else {
      var before := calls[..|calls| - 1];
      RunKeeps(w, before);
      var s := LandAll(w, Initial(), before);
      LandCoherent(w, s, calls[|calls| - 1]);
      forall id
        ensures Accounts(w, id, Get(LandAll(w, Initial(), calls).progress, id), Landed(w, Initial(), calls, id))
      {
        LandAccounts(w, s, calls[|calls| - 1], id, Landed(w, Initial(), before, id));
      }
    }
  }

  // ------------------------------------------------- either contract alone

  /** A call as the module contract gets it, from whomever. */
  function ModuleStep(w: World, landed: seq<Landing>, p: Progress, call: Call): Option<Progress> {
    match call
    case BeginNextModule(id, count, batches, root) => ModuleBegin(w, id, p, count, batches, root)
    case ImportBatch(id, sequence, count, payloadHash, payload) =>
      ModuleImport(w, landed, id, p, sequence, count, payloadHash, payload)
    case FinalizeCurrentModule(_) => ModuleFinalize(p)
    case _ => None
  }

  function Brings(call: Call): seq<Import> {
    if call.ImportBatch? then [Import(call.sequence, call.count, call.payload)] else []
  }

  predicate Addresses(call: Call, id: Hash) {
    match call
    case BeginNextModule(to, _, _, _) => to == id
    case ImportBatch(to, _, _, _, _) => to == id
    case FinalizeCurrentModule(to) => to == id
    case _ => false
  }

  /** A module keeps its own books, whatever calls reach it: it does not rely on the coordinator. */
  lemma {:induction false} ModuleAlone(w: World, landed: seq<Landing>, id: Hash, p: Progress, call: Call,
      imports: seq<Import>)
    requires Accounts(w, id, p, imports) && Addresses(call, id) && ModuleStep(w, landed, p, call).Some?
    ensures Accounts(w, id, ModuleStep(w, landed, p, call).value, imports + Brings(call))
  {
    if call.ImportBatch? {
      AdvanceAccounts(w, id, p, imports, Import(call.sequence, call.count, call.payload));
    } else {
      assert imports + [] == imports;
    }
  }

  /** The books as the coordinator alone vouches for them; the size of a batch is the module's to
      check. */
  ghost predicate Tallies(w: World, id: Hash, p: Progress, imports: seq<Import>) {
    && (!p.started ==> p == Blank() && imports == [])
    && (p.started ==> p.rollingRoot == RollWith(w.h, id, w.snapshotRoot, imports))
    && p.nextSequence == |imports| <= p.expectedBatches && p.importedCount == Items(imports) <= p.expectedCount
    && (forall i :: 0 <= i < |imports| ==> imports[i].sequence == i)
    && (p.finalized ==> p.started && Complete(p))
  }

  lemma {:induction false} AdvanceTallies(w: World, id: Hash, p: Progress, imports: seq<Import>, m: Import)
    requires Tallies(w, id, p, imports) && p.started && !p.finalized && m.sequence == p.nextSequence
    requires p.importedCount + m.count <= p.expectedCount && m.sequence + 1 <= p.expectedBatches
    ensures Tallies(w, id, Advanced(w, id, p, m.sequence, m.count, w.h.digest(m.payload)), imports + [m])
  {
    assert (imports + [m])[..|imports|] == imports;
  }

  /** The coordinator keeps its own books, whatever the modules hold. */
  lemma {:induction false} CoordinatorAlone(w: World, s: State, call: Call, id: Hash, imports: seq<Import>)
    requires Tallies(w, id, Get(s.progress, id), imports)
    ensures Tallies(w, id, Get(Land(w, s, call).progress, id), imports + AddedBy(w, s, call, id))
  {
    if call.ImportBatch? && call.id == id && Exec(w, s, call).Some? {
      AdvanceTallies(w, id, Get(s.progress, id), imports, Import(call.sequence, call.count, call.payload));
    } else {
      assert imports + AddedBy(w, s, call, id) == imports;
    }
  }

  /** The directory does not rely on the coordinator either: in any state, only a suite whose
      modules are all finalized is activated. */
  lemma {:induction false} DirectoryAlone(w: World, s: State, call: Call, i: nat)
    requires !s.directoryActive && Land(w, s, call).directoryActive && i < |w.ids|
    ensures Get(s.modules, w.ids[i]).finalized && Land(w, s, call).modules == s.modules
  {
  }

  lemma {:induction false} LandedBound(w: World, s: State, calls: seq<Call>, id: Hash)
    ensures |Landed(w, s, calls, id)| <= |calls|
  {
    if calls != [] { LandedBound(w, s, calls[..|calls| - 1], id); }
  }

  /** The coordinator finalizes nothing but the plan: after any calls at all, a finalized module
      that was opened with the root of an accepted module plan holds exactly the planned batches,
      unless the hash function is broken. */
  lemma {:induction false} FinalizedIsPlanned<R>(suite: Suite<R>, w: World, calls: seq<Call>, size: int, m: nat,
      p: ModulePlan)
    requires suite.Shaped() && Rolling(w.h) && suite.h == w.h && DistinctIds(w) && m < |suite.names|
    requires ModuleValid(suite, w.snapshotRoot, size, m, p)
    requires |calls| < UINT64_LIMIT && |p.batches| < UINT64_LIMIT
    requires var q := Get(LandAll(w, Initial(), calls).progress, p.id); q.finalized && q.expectedRoot == p.expectedRoot
    ensures Broken(w.h.digest) || Landed(w, Initial(), calls, p.id) == PlanAccepted.Imports(p.batches)
  {
    var imports := Landed(w, Initial(), calls, p.id);
    RunKeeps(w, calls);
    LandedBound(w, Initial(), calls, p.id);
    assert Accounts(w, p.id, Get(LandAll(w, Initial(), calls).progress, p.id), imports);
    PlanAccepted.ModuleRoot(suite, w.snapshotRoot, size, m, p);
    RollCommits(w.h, p.id, w.snapshotRoot, imports, p.id, w.snapshotRoot, PlanAccepted.Imports(p.batches));
  }
}
