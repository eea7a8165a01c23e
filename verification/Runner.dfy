/** The resumable bootstrap tool: what it concludes from the chain, and every run of any number
    of tool processes that crash, restart and leave transactions in flight. */
module Runner {
  import opened Digits
  import opened RollingRoot
  import opened Plan
  import opened Manifest
  import opened Coordinator
  import opened ManifestRun

  datatype Answer = Applied | Pending | Mismatch

  /** `manifestModule`. */
  function ManifestModule(modules: seq<ModulePlan>, e: Entry): Option<ModulePlan> {
    if e.moduleOrder.None? || e.moduleOrder.value >= |modules| then None
    else if e.moduleId != Some(modules[e.moduleOrder.value].id) then None
    else Some(modules[e.moduleOrder.value])
  }

  /** The module phases of `transactionApplied`; `done` reads the flag of the module record. */
  function ModuleApplied(modules: seq<ModulePlan>, e: Entry, next: nat, done: Hash -> bool): Answer {
    var found := ManifestModule(modules, e);
    if found.None? then Mismatch
    else if next > found.value.order then Applied
    else if next != found.value.order then Mismatch
    else if done(found.value.id) then Applied else Pending
  }

  /** `transactionApplied`: the three coordinator fields are read first, the module record when
      it is needed. */
  function TransactionApplied(modules: seq<ModulePlan>, evidence: Hash, e: Entry, next: nat, attested: Hash,
      activated: bool, record: Hash -> Progress): Answer {
    match e.call
    case BeginNextModule(_, _, _, _) => ModuleApplied(modules, e, next, (id: Hash) => record(id).started)
    case FinalizeCurrentModule(_) => ModuleApplied(modules, e, next, (id: Hash) => record(id).finalized)
    case AttestUsernameEscrow(_) =>
      if attested == Zero() then Pending else if attested != evidence then Mismatch else Applied
    case ActivateSuite => if activated then Applied else Pending
    case ImportBatch(_, _, _, _, _) => Mismatch
  }

  // ------------------------------------------------------ on any chain at all

  /** What the tool concludes when it reads the chain as it is. */
  function Reading(modules: seq<ModulePlan>, evidence: Hash, e: Entry, s: State): Answer {
    TransactionApplied(modules, evidence, e, s.next, s.evidence, s.activated, (id: Hash) => Get(s.progress, id))
  }

  /** The plan lists the modules of the chain in their order. */
  ghost predicate Lists(w: World, modules: seq<ModulePlan>) {
    |modules| == |w.ids| && forall m :: 0 <= m < |modules| ==> modules[m].order == m && modules[m].id == w.ids[m]
  }

  /** One of three: the effect is there, it is the turn of the transaction, or neither. */
  predicate Tells(a: Answer, there: bool, due: bool) {
    a == if there then Applied else if due then Pending else Mismatch
  }

  /** The effect of a transaction as the chain holds it. */
  predicate There(evidence: Hash, e: Entry, s: State) {
    match e.call
    case BeginNextModule(id, _, _, _) => Get(s.progress, id).started
    case FinalizeCurrentModule(id) => Get(s.progress, id).finalized
    case AttestUsernameEscrow(_) => s.evidence == evidence != Zero()
    case ActivateSuite => s.activated
    case ImportBatch(_, _, _, _, _) => false
  }

  predicate Due(w: World, e: Entry, s: State) {
    match e.call
    case BeginNextModule(id, _, _, _) => Current(w, s, id)
    case FinalizeCurrentModule(id) => Current(w, s, id)
    case AttestUsernameEscrow(_) => s.evidence == Zero()
    case ActivateSuite => true
    case ImportBatch(_, _, _, _, _) => false
  }

  lemma {:induction false} ModuleTells(w: World, modules: seq<ModulePlan>, evidence: Hash, e: Entry, s: State)
    requires DistinctIds(w) && Lists(w, modules) && Filed(modules, e) && Coherent(w, s)
    requires e.call.BeginNextModule? || e.call.FinalizeCurrentModule?
    requires forall id :: Get(s.progress, id).finalized ==> Get(s.progress, id).started
    ensures Tells(Reading(modules, evidence, e, s), There(evidence, e, s), Due(w, e, s))
  {
    var m := e.moduleOrder.value;
    assert modules[m].order == m && modules[m].id == w.ids[m];
    assert Get(s.progress, w.ids[m]).finalized <==> m < s.next;
    if s.next < m { assert Get(s.progress, w.ids[m]) == Blank(); }
  }

  /** Whatever calls have landed, by anybody: the tool finds a transaction of its manifest applied
      exactly when its effect is there, pending exactly when it is not there and due, and stops
      otherwise, on foreign evidence or a module out of turn. */
  lemma {:induction false} ReadingTells(w: World, modules: seq<ModulePlan>, evidence: Hash, e: Entry, calls: seq<Call>)
    requires DistinctIds(w) && Lists(w, modules) && Filed(modules, e)
    ensures var s := LandAll(w, Initial(), calls);
      Tells(Reading(modules, evidence, e, s), There(evidence, e, s), Due(w, e, s))
  {
    var s := LandAll(w, Initial(), calls);
    RunKeeps(w, calls);
    if e.call.BeginNextModule? || e.call.FinalizeCurrentModule? {
      forall id ensures Get(s.progress, id).finalized ==> Get(s.progress, id).started {
        assert Accounts(w, id, Get(s.progress, id), Landed(w, Initial(), calls, id));
      }
      ModuleTells(w, modules, evidence, e, s);
    }
  }

  /** A module transaction that is not filed under a module of the plan stops the tool. */
  lemma {:induction false} MisfiledStops(modules: seq<ModulePlan>, evidence: Hash, e: Entry, s: State)
    requires e.call.BeginNextModule? || e.call.FinalizeCurrentModule?
    requires e.moduleId.None? || !Under(modules, e, e.moduleId.value)
    ensures Reading(modules, evidence, e, s) == Mismatch
  {
  }

  // ------------------------------------------------------ what the chain shows

  /** Index of the attestation of module `u`. */
  function AttestIndex(modules: seq<ModulePlan>, u: nat): nat
    requires u < |modules|
  {
    Offset(modules, u) + |modules[u].batches| + 1
  }

  /** The record of module `m` after `k` transactions. */
  ghost predicate ShowsModule(modules: seq<ModulePlan>, p: Progress, m: nat, k: nat)
    requires m < |modules|
  {
    (p.started <==> Offset(modules, m) < k) && (p.finalized <==> Offset(modules, m + 1) <= k)
  }

  ghost predicate ShowsNext(modules: seq<ModulePlan>, next: nat, k: nat) {
    next <= |modules| && Offset(modules, next) <= k && (next < |modules| ==> k < Offset(modules, next + 1))
  }

  ghost predicate ShowsEvidence(modules: seq<ModulePlan>, evidence: Hash, seen: Hash, k: nat) {
    forall u ::
      0 <= u < |modules| && IsUsername(modules[u]) ==> seen == if AttestIndex(modules, u) < k then evidence else Zero()
  }

  ghost predicate ShowsActivated(modules: seq<ModulePlan>, seen: bool, k: nat) {
    seen <==> k > Offset(modules, |modules|)
  }

  lemma {:induction false} RecordShown(sc: Script, m1: nat, r1: nat, m: nat)
    requires Place(sc.modules, m1, r1) && m < |sc.modules|
    ensures ShowsModule(sc.modules, Recorded(sc, PositionIn(sc.modules, m1, r1), m), m, Offset(sc.modules, m1) + r1)
  {
    if m < m1 {
      OffsetGrows(sc.modules, m, m1);
    } else if m1 < m {
      OffsetGrows(sc.modules, m1, m);
    }
  }

  lemma {:induction false} BeforeIf(modules: seq<ModulePlan>, v: nat, u: nat)
    requires v < |modules| && u < |modules| && IsUsername(modules[v])
    ensures v < u ==> UsernameBefore(modules, u)
  {
  }

  lemma {:induction false} AttestShown(modules: seq<ModulePlan>, m1: nat, r1: nat, u: nat)
    requires SoleUsername(modules) && Place(modules, m1, r1) && u < |modules| && IsUsername(modules[u])
    ensures PositionIn(modules, m1, r1).attested <==> AttestIndex(modules, u) < Offset(modules, m1) + r1
  {
    if u < m1 { OffsetGrows(modules, u, m1); }
    if m1 < u { OffsetGrows(modules, m1, u); }
    if UsernameBefore(modules, m1) {
      var v :| 0 <= v < m1 && IsUsername(modules[v]);
      BeforeIf(modules, v, u);
      BeforeIf(modules, u, v);
    }
  }

  /** After `k` transactions the fields the tool reads show exactly the transactions below `k`. */
  ghost predicate Shows(sc: Script, s: State, k: nat) {
    && ShowsNext(sc.modules, s.next, k)
    && ShowsEvidence(sc.modules, sc.evidence, s.evidence, k)
    && ShowsActivated(sc.modules, s.activated, k)
    && forall m :: 0 <= m < |sc.modules| ==> ShowsModule(sc.modules, Get(s.progress, sc.modules[m].id), m, k)
  }

  lemma {:induction false} ReachedShows(sc: Script, s: State, k: nat)
    requires sc.Ready() && Reached(Chain(sc), sc.modules, s, k)
    ensures Shows(sc, s, k)
  {
    var m1: nat, r1: nat :|
      Place(sc.modules, m1, r1) && k == Offset(sc.modules, m1) + r1 && Chain(sc).at(s, PositionIn(sc.modules, m1, r1));
    ReadySole(sc);
    forall m | 0 <= m < |sc.modules| ensures ShowsModule(sc.modules, Get(s.progress, sc.modules[m].id), m, k) {
      RecordShown(sc, m1, r1, m);
      assert Records(sc, s, PositionIn(sc.modules, m1, r1), m);
    }
    forall u | 0 <= u < |sc.modules| && IsUsername(sc.modules[u])
      ensures s.evidence == if AttestIndex(sc.modules, u) < k then sc.evidence else Zero()
    {
      AttestShown(sc.modules, m1, r1, u);
    }
    if m1 < |sc.modules| { OffsetGrows(sc.modules, m1, |sc.modules|); }
  }

  // -------------------------------------------------- what the tool concludes

  lemma {:induction false} OffsetOrder(modules: seq<ModulePlan>, m: nat, n: nat)
    requires m <= |modules| && n <= |modules|
    ensures m <= n <==> Offset(modules, m) <= Offset(modules, n)
  {
    if m < n { OffsetGrows(modules, m, n); }
    if n < m { OffsetGrows(modules, n, m); }
  }

  /** A conclusion about transaction `i`, drawn from coordinator fields as of `low` or later and
      the module record as of `k4`: no error if `i` was due by `low`, applied only if `i` is below
      `k4`, and applied for certain if `i` is below `low`. */
  ghost predicate Right(a: Answer, i: nat, low: nat, k4: nat) {
    (i <= low ==> a != Mismatch) && (a == Applied ==> i < k4) && (i < low ==> a == Applied)
  }

  /** How `next` as of `k` places module `m`. */
  lemma {:induction false} NextPlaces(modules: seq<ModulePlan>, next: nat, k: nat, m: nat)
    requires m < |modules| && ShowsNext(modules, next, k)
    ensures next > m <==> Offset(modules, m + 1) <= k
    ensures next >= m <==> Offset(modules, m) <= k
  {
    OffsetOrder(modules, m, next);
    OffsetOrder(modules, m + 1, next);
    if next < |modules| {
      OffsetOrder(modules, next + 1, m);
      OffsetOrder(modules, next + 1, m + 1);
    }
  }

  /** `next` as of `k1`, the module record as of a later `k4`. */
  lemma {:induction false} OpenConcluded(modules: seq<ModulePlan>, m: nat, next: nat, k1: nat,
      record: Hash -> Progress, k4: nat)
    requires m < |modules| && modules[m].order == m && ShowsNext(modules, next, k1) && k1 <= k4
    requires ShowsModule(modules, record(modules[m].id), m, k4)
    ensures Right(ModuleApplied(modules, BeginEntry(modules[m]), next, (id: Hash) => record(id).started),
      Offset(modules, m), k1, k4)
  {
    NextPlaces(modules, next, k1, m);
  }

  lemma {:induction false} CloseConcluded(modules: seq<ModulePlan>, m: nat, next: nat, k1: nat,
      record: Hash -> Progress, k4: nat)
    requires m < |modules| && modules[m].order == m && ShowsNext(modules, next, k1) && k1 <= k4
    requires ShowsModule(modules, record(modules[m].id), m, k4)
    ensures Right(ModuleApplied(modules, FinalizeEntry(modules[m]), next, (id: Hash) => record(id).finalized),
      Offset(modules, m + 1) - 1, k1, k4)
  {
    NextPlaces(modules, next, k1, m);
  }

  predicate NoImports(modules: seq<ModulePlan>) { forall m :: 0 <= m < |modules| ==> modules[m].batches == [] }

  function RecordsOf(s: State): Hash -> Progress { (id: Hash) => Get(s.progress, id) }

  function Conclusion(sc: Script, i: nat, next: nat, attested: Hash, activated: bool, s: State): Answer
    requires i < |AllEntries(sc.modules, sc.evidence)|
  {
    TransactionApplied(sc.modules, sc.evidence, AllEntries(sc.modules, sc.evidence)[i], next, attested, activated,
      RecordsOf(s))
  }

  lemma {:induction false} EntryShape(modules: seq<ModulePlan>, evidence: Hash, i: nat) returns (m: nat, r: nat)
    requires NoImports(modules) && i < |AllEntries(modules, evidence)|
    ensures Place(modules, m, r) && i == Offset(modules, m) + r && !(m == |modules| && r == 1)
    ensures AllEntries(modules, evidence)[i] ==
      if m == |modules| then ActivateEntry() else ModuleEntries(modules[m], evidence)[r]
    ensures m < |modules| ==>
      |ModuleEntries(modules[m], evidence)| == ModuleLength(modules[m]) == (if IsUsername(modules[m]) then 3 else 2)
  {
    OffsetIsLength(modules, evidence, |modules|);
    m, r := PlaceOf(modules, i);
    if m < |modules| { EntryAt(modules, evidence, |modules|, m, r); }
  }

  lemma {:induction false} ModuleShape(p: ModulePlan, evidence: Hash)
    requires p.batches == []
    ensures ModuleEntries(p, evidence) ==
      if IsUsername(p) then [BeginEntry(p), ModuleEntry(p, None, AttestUsernameEscrow(evidence)), FinalizeEntry(p)]
      else [BeginEntry(p), FinalizeEntry(p)]
  {
  }

  /** The coordinator fields as of `k1`, `k2`, `k3`, none before `low`, and the module records
      as of `k4`. */
  ghost predicate Sees(modules: seq<ModulePlan>, evidence: Hash, low: nat, next: nat, k1: nat, attested: Hash, k2: nat,
      activated: bool, k3: nat, record: Hash -> Progress, k4: nat) {
    && ShowsNext(modules, next, k1)
    && ShowsEvidence(modules, evidence, attested, k2)
    && ShowsActivated(modules, activated, k3)
    && low <= k1 <= k4 && low <= k2 <= k4 && low <= k3 <= k4
    && forall m :: 0 <= m < |modules| ==> ShowsModule(modules, record(modules[m].id), m, k4)
  }

  lemma {:induction false} BeginConcluded(modules: seq<ModulePlan>, evidence: Hash, m: nat, low: nat, next: nat,
      k1: nat, attested: Hash, k2: nat, activated: bool, k3: nat, record: Hash -> Progress, k4: nat)
    requires m < |modules| && modules[m].order == m
    requires Sees(modules, evidence, low, next, k1, attested, k2, activated, k3, record, k4)
    ensures Right(TransactionApplied(modules, evidence, BeginEntry(modules[m]), next, attested, activated, record),
      Offset(modules, m), low, k4)
  {
    OpenConcluded(modules, m, next, k1, record, k4);
  }

  lemma {:induction false} FinalizeConcluded(modules: seq<ModulePlan>, evidence: Hash, m: nat, low: nat, next: nat,
      k1: nat, attested: Hash, k2: nat, activated: bool, k3: nat, record: Hash -> Progress, k4: nat)
    requires m < |modules| && modules[m].order == m
    requires Sees(modules, evidence, low, next, k1, attested, k2, activated, k3, record, k4)
    ensures Right(TransactionApplied(modules, evidence, FinalizeEntry(modules[m]), next, attested, activated, record),
      Offset(modules, m + 1) - 1, low, k4)
  {
    CloseConcluded(modules, m, next, k1, record, k4);
  }

  lemma {:induction false} AttestConcluded(modules: seq<ModulePlan>, evidence: Hash, m: nat, e: Entry, low: nat,
      next: nat, k1: nat, attested: Hash, k2: nat, activated: bool, k3: nat, record: Hash -> Progress, k4: nat)
    requires m < |modules| && IsUsername(modules[m]) && evidence != Zero() && e.call == AttestUsernameEscrow(evidence)
    requires Sees(modules, evidence, low, next, k1, attested, k2, activated, k3, record, k4)
    ensures Right(TransactionApplied(modules, evidence, e, next, attested, activated, record), AttestIndex(modules, m),
      low, k4)
  {
  }

  lemma {:induction false} ModuleConcluded(modules: seq<ModulePlan>, evidence: Hash, m: nat, r: nat, e: Entry,
      low: nat, next: nat, k1: nat, attested: Hash, k2: nat, activated: bool, k3: nat, record: Hash -> Progress,
      k4: nat)
    requires m < |modules| && modules[m].order == m && modules[m].batches == [] && evidence != Zero()
    requires if r == 0 then e == BeginEntry(modules[m])
             else if r == ModuleLength(modules[m]) - 1 then e == FinalizeEntry(modules[m])
             else r == 1 && IsUsername(modules[m]) && e == ModuleEntry(modules[m], None, AttestUsernameEscrow(evidence))
    requires Sees(modules, evidence, low, next, k1, attested, k2, activated, k3, record, k4)
    ensures Right(TransactionApplied(modules, evidence, e, next, attested, activated, record), Offset(modules, m) + r,
      low, k4)
  {
    if r == 0 {
      BeginConcluded(modules, evidence, m, low, next, k1, attested, k2, activated, k3, record, k4);
    } else if r == ModuleLength(modules[m]) - 1 {
      FinalizeConcluded(modules, evidence, m, low, next, k1, attested, k2, activated, k3, record, k4);
      assert Offset(modules, m + 1) - 1 == Offset(modules, m) + r;
    } else {
      AttestConcluded(modules, evidence, m, e, low, next, k1, attested, k2, activated, k3, record, k4);
      assert AttestIndex(modules, m) == Offset(modules, m) + r;
    }
  }

  /** The tool judges every manifest transaction rightly, even when the chain moves on while
      it reads. */
  lemma {:induction false} Concludes(modules: seq<ModulePlan>, evidence: Hash, i: nat, low: nat, next: nat, k1: nat,
      attested: Hash, k2: nat, activated: bool, k3: nat, record: Hash -> Progress, k4: nat)
    requires NoImports(modules) && evidence != Zero() && (forall m :: 0 <= m < |modules| ==> modules[m].order == m)
    requires i < |AllEntries(modules, evidence)|
    requires Sees(modules, evidence, low, next, k1, attested, k2, activated, k3, record, k4)
    ensures Right(TransactionApplied(modules, evidence, AllEntries(modules, evidence)[i], next, attested, activated,
      record), i, low, k4)
  {
    var m, r := EntryShape(modules, evidence, i);
    if m < |modules| {
      ModuleShape(modules[m], evidence);
      ModuleConcluded(modules, evidence, m, r, AllEntries(modules, evidence)[i], low, next, k1, attested, k2,
          activated, k3, record, k4);
    }
  }

  lemma {:induction false} ReadyOrders(sc: Script)
    requires sc.Ready()
    ensures sc.evidence != Zero() && forall m :: 0 <= m < |sc.modules| ==> sc.modules[m].order == m
  {
    forall m | 0 <= m < |sc.modules| ensures sc.modules[m].order == m { assert sc.Fits(m); }
  }

  /** In the state after `k` transactions, exactly those below `k` count as applied, and none up
      to `k` is an error. */
  lemma {:induction false} AppliedExactly(sc: Script, s: State, k: nat, i: nat)
    requires sc.Ready() && NoImports(sc.modules) && i < |AllEntries(sc.modules, sc.evidence)|
    requires Reached(Chain(sc), sc.modules, s, k)
    ensures var a := Conclusion(sc, i, s.next, s.evidence, s.activated, s);
      (a == Applied <==> i < k) && (i <= k ==> a != Mismatch)
  {
    ReachedShows(sc, s, k);
    ReadyOrders(sc);
    Concludes(sc.modules, sc.evidence, i, k, s.next, k, s.evidence, k, s.activated, k, RecordsOf(s), k);
  }
}
