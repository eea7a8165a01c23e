/** From an accepted plan to the numbered coordinator transactions. */
module Manifest {
  import opened Digits
  import opened RollingRoot
  import opened Batching
  import opened Plan

  const USERNAME: string := "username"

  datatype Call =
    | BeginNextModule(id: Hash, count: nat, batches: nat, root: Hash)
    | ImportBatch(id: Hash, sequence: nat, count: nat, payloadHash: Hash, payload: Bytes)
    | AttestUsernameEscrow(evidence: Hash)
    | FinalizeCurrentModule(id: Hash)
    | ActivateSuite

  /** One call with the module and sequence it is filed under. */
  datatype Entry = Entry(moduleOrder: Option<nat>, moduleId: Option<Hash>, sequence: Option<nat>, call: Call)

  datatype Transaction = Transaction(order: nat, entry: Entry)

  predicate IsUsername(p: ModulePlan) { p.name == USERNAME }

  function ModuleEntry(p: ModulePlan, sequence: Option<nat>, call: Call): Entry {
    Entry(Some(p.order), Some(p.id), sequence, call)
  }

  function ImportEntry(p: ModulePlan, b: PlanBatch): Entry {
    ModuleEntry(p, Some(b.sequence), ImportBatch(p.id, b.sequence, b.count, b.payloadHash, b.payload))
  }

  function BeginEntry(p: ModulePlan): Entry {
    ModuleEntry(p, None, BeginNextModule(p.id, p.expectedCount, p.expectedBatches, p.expectedRoot))
  }

  function AttestEntries(p: ModulePlan, evidence: Hash): seq<Entry> {
    if IsUsername(p) then [ModuleEntry(p, None, AttestUsernameEscrow(evidence))] else []
  }

  function FinalizeEntry(p: ModulePlan): Entry { ModuleEntry(p, None, FinalizeCurrentModule(p.id)) }

  function ActivateEntry(): Entry { Entry(None, None, None, ActivateSuite) }

  function ImportEntries(p: ModulePlan, n: nat): (r: seq<Entry>)
    requires n <= |p.batches|
    ensures |r| == n
  {
    seq(n, i requires 0 <= i < n => ImportEntry(p, p.batches[i]))
  }

  function ModuleEntries(p: ModulePlan, evidence: Hash): seq<Entry> {
    [BeginEntry(p)] + ImportEntries(p, |p.batches|) + AttestEntries(p, evidence) + [FinalizeEntry(p)]
  }

  /** The entries of the first `n` modules. */
  function Entries(modules: seq<ModulePlan>, evidence: Hash, n: nat): seq<Entry>
    requires n <= |modules|
  {
    if n == 0 then [] else Entries(modules, evidence, n - 1) + ModuleEntries(modules[n - 1], evidence)
  }

  function AllEntries(modules: seq<ModulePlan>, evidence: Hash): seq<Entry> {
    Entries(modules, evidence, |modules|) + [ActivateEntry()]
  }

  function Numbered(entries: seq<Entry>): (r: seq<Transaction>)
    ensures |r| == |entries|
  {
    seq(|entries|, i requires 0 <= i < |entries| => Transaction(i, entries[i]))
  }

  /** `BuildCalldataManifest`. */
  function BuildManifest<R>(suite: Suite<R>, plan: Plan): Option<seq<Transaction>>
    requires suite.Shaped()
  {
    if !PlanValid(suite, plan) then None else
    var transactions := Numbered(AllEntries(plan.modules, plan.evidence));
    if |transactions| != plan.summary.transactionCount then None else Some(transactions)
  }

  function EntriesOf(t: seq<Transaction>): (r: seq<Entry>)
    ensures |r| == |t|
  {
    seq(|t|, i requires 0 <= i < |t| => t[i].entry)
  }

  // --------------------------------------------------- exactly as many as planned

  function UsernameCount(names: seq<string>): nat {
    if names == [] then 0 else UsernameCount(names[..|names| - 1]) + (if names[|names| - 1] == USERNAME then 1 else 0)
  }

  lemma {:induction false} EntriesLength(modules: seq<ModulePlan>, names: seq<string>, evidence: Hash, n: nat)
    requires n <= |modules| == |names| && forall i :: 0 <= i < |modules| ==> modules[i].name == names[i]
    ensures |Entries(modules, evidence, n)| == 2 * n + TotalBatches(modules[..n]) + UsernameCount(names[..n])
  {
    if n > 0 {
      EntriesLength(modules, names, evidence, n - 1);
      assert modules[..n][..n - 1] == modules[..n - 1] && names[..n][..n - 1] == names[..n - 1];
      assert modules[..n][n - 1] == modules[n - 1] && names[..n][n - 1] == names[n - 1];
    }
  }

  lemma {:induction false} AcceptedNames<R>(suite: Suite<R>, plan: Plan)
    requires suite.Shaped() && PlanValid(suite, plan)
    ensures |plan.modules| == |suite.names|
    ensures forall m :: 0 <= m < |plan.modules| ==> plan.modules[m].name == suite.names[m]
  {
    forall m | 0 <= m < |plan.modules| ensures plan.modules[m].name == suite.names[m] {
      assert ModuleValid(suite, plan.snapshotRoot, plan.batchSize, m, plan.modules[m]);
    }
  }

  lemma {:induction false} ManifestLength(modules: seq<ModulePlan>, names: seq<string>, evidence: Hash)
    requires |modules| == |names| && forall i :: 0 <= i < |modules| ==> modules[i].name == names[i]
    ensures |AllEntries(modules, evidence)| == 2 * |modules| + TotalBatches(modules) + UsernameCount(names) + 1
  {
    var n := |modules|;
    EntriesLength(modules, names, evidence, n);
    assert modules[..n] == modules && names[..n] == names;
  }

  /** There is a manifest exactly for an accepted plan and a table with one username module, and it
      has the announced number of transactions, numbered from zero. */
  lemma {:induction false} ManifestComplete<R>(suite: Suite<R>, plan: Plan)
    requires suite.Shaped()
    ensures BuildManifest(suite, plan).Some? <==> PlanValid(suite, plan) && UsernameCount(suite.names) == 1
    ensures BuildManifest(suite, plan).Some? ==>
      var t := BuildManifest(suite, plan).value;
      |t| == plan.summary.transactionCount && forall i :: 0 <= i < |t| ==> t[i].order == i
  {
    if PlanValid(suite, plan) {
      AcceptedNames(suite, plan);
      ManifestLength(plan.modules, suite.names, plan.evidence);
    }
  }

  /** The entry is filed under the module with this id. */
  predicate Under(modules: seq<ModulePlan>, e: Entry, id: Hash) {
    && e.moduleOrder.Some? && e.moduleOrder.value < |modules|
    && modules[e.moduleOrder.value].id == id && e.moduleId == Some(id)
  }

  /** The entry is filed under the module and the batch number that its call names. */
  predicate Filed(modules: seq<ModulePlan>, e: Entry) {
    match e.call
    case BeginNextModule(id, _, _, _) => Under(modules, e, id) && e.sequence.None?
    case ImportBatch(id, sequence, _, _, _) => Under(modules, e, id) && e.sequence == Some(sequence)
    case AttestUsernameEscrow(_) =>
      && e.moduleId.Some? && Under(modules, e, e.moduleId.value)
      && IsUsername(modules[e.moduleOrder.value]) && e.sequence.None?
    case FinalizeCurrentModule(id) => Under(modules, e, id) && e.sequence.None?
    case ActivateSuite => e.moduleOrder.None? && e.moduleId.None? && e.sequence.None?
  }

  ghost predicate AllFiled(modules: seq<ModulePlan>, entries: seq<Entry>) {
    forall i :: 0 <= i < |entries| ==> Filed(modules, entries[i])
  }

  lemma {:induction false} ModuleFiled(modules: seq<ModulePlan>, evidence: Hash, m: nat)
    requires m < |modules| && modules[m].order == m
    ensures AllFiled(modules, ModuleEntries(modules[m], evidence))
  {
  }

  lemma {:induction false} EntriesFiled(modules: seq<ModulePlan>, evidence: Hash, n: nat)
    requires n <= |modules| && forall m :: 0 <= m < |modules| ==> modules[m].order == m
    ensures AllFiled(modules, Entries(modules, evidence, n))
  {
    if n > 0 {
      EntriesFiled(modules, evidence, n - 1);
      ModuleFiled(modules, evidence, n - 1);
    }
  }

  /** Every transaction of a manifest is filed as its call says. */
  lemma {:induction false} ManifestFiled<R>(suite: Suite<R>, plan: Plan)
    requires suite.Shaped() && BuildManifest(suite, plan).Some?
    ensures AllFiled(plan.modules, EntriesOf(BuildManifest(suite, plan).value))
  {
    forall m | 0 <= m < |plan.modules| ensures plan.modules[m].order == m {
      assert ModuleValid(suite, plan.snapshotRoot, plan.batchSize, m, plan.modules[m]);
    }
    EntriesFiled(plan.modules, plan.evidence, |plan.modules|);
    ManifestEntries(suite, plan);
  }

  lemma {:induction false} ManifestEntries<R>(suite: Suite<R>, plan: Plan)
    requires suite.Shaped() && BuildManifest(suite, plan).Some?
    ensures EntriesOf(BuildManifest(suite, plan).value) == AllEntries(plan.modules, plan.evidence)
  {
  }

  lemma {:induction false} OneUsername(names: seq<string>, u: nat, n: nat)
    requires u < |names| && n <= |names| && forall i :: 0 <= i < |names| ==> (names[i] == USERNAME <==> i == u)
    ensures UsernameCount(names[..n]) == if u < n then 1 else 0
  {
    if n > 0 {
      OneUsername(names, u, n - 1);
      assert names[..n][..n - 1] == names[..n - 1];
    }
  }

  /** The module table of the suite. */
  function SuiteNames(): seq<string> {
    ["repository-core", "recovery", "moderation", "economic", "username", "badge", "release"]
  }

  lemma {:induction false} SuiteHasOneUsername()
    ensures UsernameCount(SuiteNames()) == 1
  {
    var names := SuiteNames();
    assert names[..6][..5] == names[..5] && names[..5][..4] == names[..4] && names[..4][..3] == names[..3];
    assert names[..3][..2] == names[..2] && names[..2][..1] == names[..1] && names[..1][..0] == [];
    assert names[0][0] == 'r' && names[1][0] == 'r' && names[2][0] == 'm' && names[3][0] == 'e';
    assert names[5][0] == 'b' && names[6][0] == 'r' && USERNAME[0] == 'u';
    assert UsernameCount(names[..1]) == 0;
    assert UsernameCount(names[..2]) == 0;
    assert UsernameCount(names[..3]) == 0;
    assert UsernameCount(names[..4]) == 0;
    assert UsernameCount(names[..5]) == 1;
    assert UsernameCount(names[..6]) == 1;
  }

  // --------------------------------------------------------------- addresses

  /** How many transactions a module takes. */
  function ModuleLength(p: ModulePlan): nat { 2 + |p.batches| + if IsUsername(p) then 1 else 0 }

  /** Index of the first transaction of module `m`. */
  function Offset(modules: seq<ModulePlan>, m: nat): nat
    requires m <= |modules|
  {
    if m == 0 then 0 else Offset(modules, m - 1) + ModuleLength(modules[m - 1])
  }

  lemma {:induction false} OffsetIsLength(modules: seq<ModulePlan>, evidence: Hash, n: nat)
    requires n <= |modules|
    ensures |Entries(modules, evidence, n)| == Offset(modules, n)
  {
    if n > 0 {
      OffsetIsLength(modules, evidence, n - 1);
      ModuleEntriesLength(modules[n - 1], evidence);
    }
  }

  lemma {:induction false} ModuleEntriesLength(p: ModulePlan, evidence: Hash)
    ensures |ModuleEntries(p, evidence)| == ModuleLength(p)
  {
  }

  lemma {:induction false} OffsetGrows(modules: seq<ModulePlan>, m: nat, n: nat)
    requires m < n <= |modules|
    ensures Offset(modules, m) + ModuleLength(modules[m]) <= Offset(modules, n)
    decreases n
  {
    if n > m + 1 { OffsetGrows(modules, m, n - 1); }
  }

  /** Entry `r` of module `m` stands at `Offset + r`. */
  lemma {:induction false} EntryAt(modules: seq<ModulePlan>, evidence: Hash, n: nat, m: nat, r: nat)
    requires m < n <= |modules| && r < ModuleLength(modules[m])
    ensures |ModuleEntries(modules[m], evidence)| == ModuleLength(modules[m])
    ensures Offset(modules, m) + r < |Entries(modules, evidence, n)|
    ensures Entries(modules, evidence, n)[Offset(modules, m) + r] == ModuleEntries(modules[m], evidence)[r]
    decreases n
  {
    OffsetIsLength(modules, evidence, n - 1);
    OffsetIsLength(modules, evidence, n);
    if m < n - 1 {
      EntryAt(modules, evidence, n - 1, m, r);
    }
  }

  /** Every index below `Offset(n)` belongs to one module. */
  lemma {:induction false} ModuleOf(modules: seq<ModulePlan>, n: nat, i: nat) returns (m: nat)
    requires n <= |modules| && i < Offset(modules, n)
    ensures m < n && Offset(modules, m) <= i < Offset(modules, m) + ModuleLength(modules[m])
    decreases n
  {
    if i >= Offset(modules, n - 1) { m := n - 1; } else { m := ModuleOf(modules, n - 1, i); }
  }

  // ---------------------------------------------------------------- the loop

  /** The manifest under construction: `appendTransaction` numbers by a counter. */
  class Writer {
    var transactions: seq<Transaction>
    var order: nat

    ghost predicate Holds(entries: seq<Entry>)
      reads this
    {
      order == |entries| && transactions == Numbered(entries)
    }

    constructor ()
      ensures Holds([])
    {
      transactions, order := [], 0;
    }

    method Append(e: Entry, ghost before: seq<Entry>)
      requires Holds(before)
      modifies this
      ensures Holds(before + [e])
    {
      transactions := transactions + [Transaction(order, e)];
      order := order + 1;
    }

    method AppendModule(p: ModulePlan, evidence: Hash, ghost before: seq<Entry>)
      requires Holds(before)
      modifies this
      ensures Holds(before + ModuleEntries(p, evidence))
    {
      Append(BeginEntry(p), before);
      ghost var begun := before + [BeginEntry(p)];
      assert begun + ImportEntries(p, 0) == begun;
      for i := 0 to |p.batches|
        invariant Holds(begun + ImportEntries(p, i))
      {
        Append(ImportEntry(p, p.batches[i]), begun + ImportEntries(p, i));
        assert begun + ImportEntries(p, i) + [ImportEntry(p, p.batches[i])] == begun + ImportEntries(p, i + 1);
      }
      ghost var imported := begun + ImportEntries(p, |p.batches|);
      assert imported + AttestEntries(p, evidence) + [FinalizeEntry(p)] == before + ModuleEntries(p, evidence);
      if p.name == USERNAME {
        Append(ModuleEntry(p, None, AttestUsernameEscrow(evidence)), imported);
      } else {
        assert imported + AttestEntries(p, evidence) == imported;
      }
      Append(FinalizeEntry(p), imported + AttestEntries(p, evidence));
    }
  }

  method WriteTransactions(modules: seq<ModulePlan>, evidence: Hash) returns (t: seq<Transaction>)
    ensures t == Numbered(AllEntries(modules, evidence))
  {
    var writer := new Writer();
    for m := 0 to |modules|
      invariant fresh(writer) && writer.Holds(Entries(modules, evidence, m))
    {
      writer.AppendModule(modules[m], evidence, Entries(modules, evidence, m));
    }
    writer.Append(ActivateEntry(), Entries(modules, evidence, |modules|));
    return writer.transactions;
  }

  /** The loop form of `BuildCalldataManifest`, its final checks included. */
  method WriteManifest<R>(suite: Suite<R>, plan: Plan) returns (r: Option<seq<Transaction>>)
    requires suite.Shaped()
    ensures r == BuildManifest(suite, plan)
  {
    if !PlanValid(suite, plan) { return None; }
    var transactions := WriteTransactions(plan.modules, plan.evidence);
    if |transactions| != plan.summary.transactionCount { return None; }
    for i := 0 to |transactions| {
      if transactions[i].order != i { return None; }
    }
    return Some(transactions);
  }
}
