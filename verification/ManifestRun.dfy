/** An accepted manifest on the coordinator: every transaction lands once, in its turn, and
    the whole manifest ends in activation. */
module ManifestRun {
  import opened Digits
  import opened RollingRoot
  import opened Batching
  import opened Plan
  import opened Manifest
  import opened Coordinator
  import PlanAccepted

  /** Root and item count after the first `i` batches. */
  function RootAt(w: World, p: ModulePlan, i: nat): Hash
    requires i <= |p.batches|
  {
    if i == 0 then w.h.seed(p.id, w.snapshotRoot) else p.batches[i - 1].rollingRoot
  }

  function CountAt(p: ModulePlan, i: nat): nat
    requires i <= |p.batches|
  {
    if i == 0 then 0 else CountAt(p, i - 1) + p.batches[i - 1].count
  }

  predicate BatchReady(w: World, p: ModulePlan, i: nat)
    requires i < |p.batches|
  {
    var b := p.batches[i];
    b.sequence == i && 0 < b.count <= MAXIMUM_BATCH_ITEMS && 0 < |b.payload| <= MAXIMUM_PAYLOAD_BYTES &&
    b.payloadHash == w.h.digest(b.payload) &&
    b.rollingRoot == w.h.step(RootAt(w, p, i), p.id, i, b.count, b.payloadHash)
  }

  predicate ModuleReady(w: World, p: ModulePlan) {
    && (forall i :: 0 <= i < |p.batches| ==> BatchReady(w, p, i))
    && p.expectedCount == CountAt(p, |p.batches|) && p.expectedBatches == |p.batches|
    && p.expectedRoot == RootAt(w, p, |p.batches|)
  }

  /** What has landed once module `m` has taken its first `i` batches. */
  function Landings(p: ModulePlan, i: nat): seq<Landing>
    requires i <= |p.batches|
  {
    if i == 0 then [] else Landings(p, i - 1) + [Landing(p.id, p.batches[i - 1].payload)]
  }

  function Stored(modules: seq<ModulePlan>, m: nat): seq<Landing>
    requires m <= |modules|
  {
    if m == 0 then [] else Stored(modules, m - 1) + Landings(modules[m - 1], |modules[m - 1].batches|)
  }

  function History(modules: seq<ModulePlan>, m: nat, i: nat): seq<Landing>
    requires m <= |modules| && (m < |modules| ==> i <= |modules[m].batches|)
  {
    Stored(modules, m) + if m < |modules| then Landings(modules[m], i) else []
  }

  /** Module `m` takes batch `i` after everything that comes before it in the plan. */
  predicate Takes(w: World, modules: seq<ModulePlan>, m: nat, i: nat) {
    m < |modules| && i < |modules[m].batches| &&
    w.accepts(History(modules, m, i), modules[m].id, modules[m].batches[i].payload) == Some(modules[m].batches[i].count)
  }

  /** A plan's modules against the chain they are meant for. */
  datatype Script = Script(w: World, modules: seq<ModulePlan>, evidence: Hash) {
    ghost predicate Ready() {
      && |modules| == |w.ids| && DistinctIds(w) && w.username in w.ids
      && w.snapshotRoot != Zero() && evidence != Zero()
      && forall i :: 0 <= i < |modules| ==> Fits(i)
    }

    /** Module plan `i` is meant for module `i` of the chain. */
    ghost predicate Fits(i: nat)
      requires i < |modules| == |w.ids|
    {
      modules[i].order == i && modules[i].id == w.ids[i] && ModuleReady(w, modules[i]) &&
      (IsUsername(modules[i]) <==> w.ids[i] == w.username)
    }

    /** What the modules themselves must agree to: a root that is not zero, and each batch. */
    function Gate(): Step -> bool { (step: Step) => Agreed(w, modules, step) }

    ghost predicate Agreeable() { Passes(modules, Gate()) }
  }

  predicate Agreed(w: World, modules: seq<ModulePlan>, step: Step) {
    match step
    case Open(m) => m < |modules| && modules[m].expectedRoot != Zero()
    case Load(m, i) => Takes(w, modules, m, i)
    case _ => true
  }

  ghost predicate Passes(modules: seq<ModulePlan>, gate: Step -> bool) {
    forall step :: StepOf(modules, step) ==> gate(step)
  }

  // ------------------------------------------------------ positions and steps

  /** `m` modules are finalized; `done` is 0 before the next one is opened and one more than
      its imported batches afterwards. */
  datatype Position = Position(m: nat, done: nat, attested: bool, activated: bool)

  datatype Step = Open(m: nat) | Load(m: nat, i: nat) | Witness | Close(m: nat) | Launch

  predicate StepOf(modules: seq<ModulePlan>, step: Step) {
    match step
    case Open(m) => m < |modules|
    case Load(m, i) => m < |modules| && i < |modules[m].batches|
    case Close(m) => m < |modules|
    case _ => true
  }

  function CallOf(modules: seq<ModulePlan>, evidence: Hash, step: Step): Call
    requires StepOf(modules, step)
  {
    match step
    case Open(m) => BeginEntry(modules[m]).call
    case Load(m, i) => ImportEntry(modules[m], modules[m].batches[i]).call
    case Witness => AttestUsernameEscrow(evidence)
    case Close(m) => FinalizeEntry(modules[m]).call
    case Launch => ActivateSuite
  }

  predicate Enabled(modules: seq<ModulePlan>, gate: Step -> bool, pos: Position, step: Step)
    requires StepOf(modules, step)
  {
    !pos.activated && gate(step) &&
    match step
    case Open(m) => m == pos.m && pos.done == 0
    case Load(m, i) => m == pos.m && pos.done == i + 1
    case Witness => !pos.attested
    case Close(m) => m == pos.m && pos.done == |modules[m].batches| + 1 && (IsUsername(modules[m]) ==> pos.attested)
    case Launch => pos.m == |modules| && pos.attested
  }

  function Move(pos: Position, step: Step): Position {
    match step
    case Open(m) => pos.(done := 1)
    case Load(m, i) => pos.(done := pos.done + 1)
    case Witness => pos.(attested := true)
    case Close(m) => pos.(m := pos.m + 1, done := 0)
    case Launch => pos.(activated := true)
  }

  function Underway(w: World, p: ModulePlan, done: nat): Progress
    requires done <= |p.batches| + 1
  {
    if done == 0 then Blank() else
    Progress(true, false, p.expectedCount, p.expectedBatches, CountAt(p, done - 1), done - 1, p.expectedRoot,
      RootAt(w, p, done - 1))
  }

  function Closed(p: ModulePlan): Progress {
    Progress(true, true, p.expectedCount, p.expectedBatches, p.expectedCount, p.expectedBatches, p.expectedRoot,
      p.expectedRoot)
  }

  /** What the chain records of module `i`. */
  function Recorded(sc: Script, pos: Position, i: nat): Progress
    requires i < |sc.modules|
  {
    if i < pos.m then Closed(sc.modules[i])
    else if i > pos.m || pos.done > |sc.modules[i].batches| + 1 then Blank()
    else Underway(sc.w, sc.modules[i], pos.done)
  }

  predicate Records(sc: Script, s: State, pos: Position, i: nat)
    requires i < |sc.modules|
  {
    Get(s.progress, sc.modules[i].id) == Recorded(sc, pos, i)
  }

  ghost predicate At(sc: Script, s: State, pos: Position) {
    && s.next == pos.m <= |sc.modules| && s.modules == s.progress
    && (pos.m < |sc.modules| ==> pos.done <= |sc.modules[pos.m].batches| + 1)
    && (pos.m == |sc.modules| ==> pos.done == 0)
    && (forall i :: 0 <= i < |sc.modules| ==> Records(sc, s, pos, i))
    && s.evidence == (if pos.attested then sc.evidence else Zero())
    && s.activated == pos.activated == s.directoryActive
    && s.landed == History(sc.modules, pos.m, if pos.done == 0 then 0 else pos.done - 1)
    && (pos.activated ==> pos.m == |sc.modules|)
  }

  lemma {:induction false} InitiallyAt(sc: Script)
    ensures At(sc, Initial(), Position(0, 0, false, false))
  {
  }

  lemma {:induction false} CountGrows(p: ModulePlan, i: nat, j: nat)
    requires i <= j <= |p.batches|
    ensures CountAt(p, i) <= CountAt(p, j)
    decreases j
  {
    if i < j { CountGrows(p, i, j - 1); }
  }

  /** Only the module in turn answers to its id. */
  lemma {:induction false} CurrentIs(sc: Script, s: State, pos: Position, m: nat)
    requires sc.Ready() && At(sc, s, pos) && m < |sc.modules|
    ensures Current(sc.w, s, sc.modules[m].id) <==> m == pos.m
  {
    assert sc.Fits(m);
  }

  lemma {:induction false} OnlyChanges(sc: Script, s: State, pos: Position, t: State, pos': Position, p: Progress)
    requires sc.Ready() && At(sc, s, pos) && pos.m < |sc.modules| && !pos.activated
    requires t == s.(progress := s.progress[sc.modules[pos.m].id := p],
      modules := s.progress[sc.modules[pos.m].id := p], next := pos'.m, landed := t.landed)
    requires pos' == pos.(m := pos'.m, done := pos'.done) && pos'.m <= |sc.modules|
    requires
      || (pos'.m == pos.m && pos'.done <= |sc.modules[pos.m].batches| + 1)
      || (pos'.m == pos.m + 1 && pos'.done == 0)
    requires p == Recorded(sc, pos', pos.m)
    requires t.landed == History(sc.modules, pos'.m, if pos'.done == 0 then 0 else pos'.done - 1)
    ensures At(sc, t, pos')
  {
    forall i | 0 <= i < |sc.modules| ensures Records(sc, t, pos', i) {
      assert sc.Fits(i) && sc.Fits(pos.m);
      assert i != pos.m ==> sc.modules[i].id != sc.modules[pos.m].id;
      assert Records(sc, s, pos, i);
    }
  }

  lemma {:induction false} HistoryNext(modules: seq<ModulePlan>, m: nat, i: nat)
    requires m < |modules| && i < |modules[m].batches|
    ensures History(modules, m, i + 1) ==
      History(modules, m, i) + [Landing(modules[m].id, modules[m].batches[i].payload)]
  {
  }

  lemma {:induction false} HistoryCloses(modules: seq<ModulePlan>, m: nat)
    requires m < |modules|
    ensures History(modules, m + 1, 0) == History(modules, m, |modules[m].batches|)
  {
  }

  // --------------------------------------------- the chain follows the steps

  lemma {:induction false} OpenExact(sc: Script, s: State, pos: Position, m: nat)
    requires sc.Ready() && At(sc, s, pos) && m < |sc.modules|
    ensures Follows(sc, s, pos, Open(m))
  {
    CurrentIs(sc, s, pos, m);
    assert sc.Fits(m);
    assert Records(sc, s, pos, m);
    if Enabled(sc.modules, sc.Gate(), pos, Open(m)) {
      var t := Exec(sc.w, s, CallOf(sc.modules, sc.evidence, Open(m))).value;
      OnlyChanges(sc, s, pos, t, pos.(done := 1), Underway(sc.w, sc.modules[m], 1));
    }
  }

  lemma {:induction false} LoadRefused(sc: Script, s: State, pos: Position, m: nat, i: nat)
    requires sc.Ready() && At(sc, s, pos) && m < |sc.modules| && i < |sc.modules[m].batches|
    requires !Enabled(sc.modules, sc.Gate(), pos, Load(m, i))
    ensures Follows(sc, s, pos, Load(m, i))
  {
    CurrentIs(sc, s, pos, m);
    assert sc.Fits(m);
    assert BatchReady(sc.w, sc.modules[m], i);
    assert Records(sc, s, pos, m);
  }

  lemma {:induction false} LoadLands(sc: Script, s: State, pos: Position, m: nat, i: nat)
    requires sc.Ready() && At(sc, s, pos) && m < |sc.modules| && i < |sc.modules[m].batches|
    requires Enabled(sc.modules, sc.Gate(), pos, Load(m, i))
    ensures var p := sc.modules[m];
      var progress := s.progress[p.id := Underway(sc.w, p, i + 2)];
      Exec(sc.w, s, CallOf(sc.modules, sc.evidence, Load(m, i))) ==
        Some(s.(progress := progress, modules := progress, landed := s.landed + [Landing(p.id, p.batches[i].payload)]))
  {
    CurrentIs(sc, s, pos, m);
    var p := sc.modules[m];
    assert sc.Fits(m);
    assert BatchReady(sc.w, p, i);
    assert Records(sc, s, pos, m);
    CountGrows(p, i + 1, |p.batches|);
  }

  lemma {:induction false} LoadMoves(sc: Script, s: State, pos: Position)
    requires sc.Ready() && At(sc, s, pos) && pos.m < |sc.modules| && 1 <= pos.done <= |sc.modules[pos.m].batches|
    requires !pos.activated
    ensures var p := sc.modules[pos.m];
      var progress := s.progress[p.id := Underway(sc.w, p, pos.done + 1)];
      var landed := s.landed + [Landing(p.id, p.batches[pos.done - 1].payload)];
      At(sc, s.(progress := progress, modules := progress, landed := landed), pos.(done := pos.done + 1))
  {
    var p := sc.modules[pos.m];
    var progress := s.progress[p.id := Underway(sc.w, p, pos.done + 1)];
    var landed := s.landed + [Landing(p.id, p.batches[pos.done - 1].payload)];
    HistoryNext(sc.modules, pos.m, pos.done - 1);
    OnlyChanges(sc, s, pos, s.(progress := progress, modules := progress, landed := landed),
      pos.(done := pos.done + 1), Underway(sc.w, p, pos.done + 1));
  }

  lemma {:induction false} LoadTaken(sc: Script, s: State, pos: Position, m: nat, i: nat)
    requires sc.Ready() && At(sc, s, pos) && m < |sc.modules| && i < |sc.modules[m].batches|
    requires Enabled(sc.modules, sc.Gate(), pos, Load(m, i))
    ensures Follows(sc, s, pos, Load(m, i))
  {
    LoadLands(sc, s, pos, m, i);
    LoadMoves(sc, s, pos);
  }

  lemma {:induction false} LoadExact(sc: Script, s: State, pos: Position, m: nat, i: nat)
    requires sc.Ready() && At(sc, s, pos) && m < |sc.modules| && i < |sc.modules[m].batches|
    ensures Follows(sc, s, pos, Load(m, i))
  {
    if Enabled(sc.modules, sc.Gate(), pos, Load(m, i)) {
      LoadTaken(sc, s, pos, m, i);
    } else {
      LoadRefused(sc, s, pos, m, i);
    }
  }

  lemma {:induction false} CloseRefused(sc: Script, s: State, pos: Position, m: nat)
    requires sc.Ready() && At(sc, s, pos) && m < |sc.modules| && !Enabled(sc.modules, sc.Gate(), pos, Close(m))
    ensures Follows(sc, s, pos, Close(m))
  {
    CurrentIs(sc, s, pos, m);
    assert sc.Fits(m);
    assert Records(sc, s, pos, m);
  }

  lemma {:induction false} CloseLands(sc: Script, s: State, pos: Position, m: nat)
    requires sc.Ready() && At(sc, s, pos) && m < |sc.modules| && Enabled(sc.modules, sc.Gate(), pos, Close(m))
    ensures var progress := s.progress[sc.modules[m].id := Closed(sc.modules[m])];
      Exec(sc.w, s, CallOf(sc.modules, sc.evidence, Close(m))) ==
        Some(s.(progress := progress, modules := progress, next := m + 1))
  {
    CurrentIs(sc, s, pos, m);
    assert sc.Fits(m);
    assert Records(sc, s, pos, m);
  }

  lemma {:induction false} CloseMoves(sc: Script, s: State, pos: Position)
    requires sc.Ready() && At(sc, s, pos) && pos.m < |sc.modules| && pos.done == |sc.modules[pos.m].batches| + 1
    requires !pos.activated
    ensures var progress := s.progress[sc.modules[pos.m].id := Closed(sc.modules[pos.m])];
      At(sc, s.(progress := progress, modules := progress, next := pos.m + 1), pos.(m := pos.m + 1, done := 0))
  {
    var progress := s.progress[sc.modules[pos.m].id := Closed(sc.modules[pos.m])];
    HistoryCloses(sc.modules, pos.m);
    OnlyChanges(sc, s, pos, s.(progress := progress, modules := progress, next := pos.m + 1),
        pos.(m := pos.m + 1, done := 0), Closed(sc.modules[pos.m]));
  }

  lemma {:induction false} CloseTaken(sc: Script, s: State, pos: Position, m: nat)
    requires sc.Ready() && At(sc, s, pos) && m < |sc.modules| && Enabled(sc.modules, sc.Gate(), pos, Close(m))
    ensures Follows(sc, s, pos, Close(m))
  {
    CloseLands(sc, s, pos, m);
    CloseMoves(sc, s, pos);
  }

  lemma {:induction false} CloseExact(sc: Script, s: State, pos: Position, m: nat)
    requires sc.Ready() && At(sc, s, pos) && m < |sc.modules|
    ensures Follows(sc, s, pos, Close(m))
  {
    if Enabled(sc.modules, sc.Gate(), pos, Close(m)) {
      CloseTaken(sc, s, pos, m);
    } else {
      CloseRefused(sc, s, pos, m);
    }
  }

  /** Attesting and activating change no module record. */
  lemma {:induction false} SideMoves(sc: Script, s: State, pos: Position, t: State, pos': Position)
    requires At(sc, s, pos)
    requires t == s.(evidence := t.evidence, activated := t.activated, directoryActive := t.directoryActive)
    requires pos' == pos.(attested := pos'.attested, activated := pos'.activated)
    requires t.evidence == (if pos'.attested then sc.evidence else Zero())
    requires t.activated == pos'.activated == t.directoryActive
    requires pos'.activated ==> pos.m == |sc.modules|
    ensures At(sc, t, pos')
  {
    forall i | 0 <= i < |sc.modules| ensures Records(sc, t, pos', i) { assert Records(sc, s, pos, i); }
  }

  lemma {:induction false} LaunchExact(sc: Script, s: State, pos: Position)
    requires sc.Ready() && At(sc, s, pos)
    ensures Follows(sc, s, pos, Launch)
  {
    if pos.m == |sc.modules| {
      forall i | 0 <= i < |sc.w.ids| ensures Get(s.modules, sc.w.ids[i]).finalized {
        assert sc.Fits(i);
        assert Records(sc, s, pos, i);
      }
      if !pos.activated {
        SideMoves(sc, s, pos, s.(activated := true, directoryActive := true), pos.(activated := true));
      }
    }
  }

  /** A manifest call lands on the chain exactly when its step is enabled, and moves it. */
  ghost predicate Follows(sc: Script, s: State, pos: Position, step: Step)
    requires StepOf(sc.modules, step)
  {
    var r := Exec(sc.w, s, CallOf(sc.modules, sc.evidence, step));
    (r.Some? <==> Enabled(sc.modules, sc.Gate(), pos, step)) && (r.Some? ==> At(sc, r.value, Move(pos, step)))
  }

  lemma {:induction false} WitnessExact(sc: Script, s: State, pos: Position)
    requires sc.Ready() && At(sc, s, pos)
    ensures Follows(sc, s, pos, Witness)
  {
    if !pos.attested && !pos.activated { SideMoves(sc, s, pos, s.(evidence := sc.evidence), pos.(attested := true)); }
  }

  lemma {:induction false} StepExact(sc: Script, s: State, pos: Position, step: Step)
    requires sc.Ready() && At(sc, s, pos) && StepOf(sc.modules, step)
    ensures Follows(sc, s, pos, step)
  {
    match step
    case Open(m) => OpenExact(sc, s, pos, m);
    case Load(m, i) => LoadExact(sc, s, pos, m, i);
    case Witness => WitnessExact(sc, s, pos);
    case Close(m) => CloseExact(sc, s, pos, m);
    case Launch => LaunchExact(sc, s, pos);
  }

  /** Apart from the attestation, exactly one manifest transaction can land in any position. */
  function NextStep(modules: seq<ModulePlan>, pos: Position): Step
    requires pos.m <= |modules|
  {
    if pos.m == |modules| then Launch
    else if pos.done == 0 then Open(pos.m)
    else if pos.done <= |modules[pos.m].batches| then Load(pos.m, pos.done - 1)
    else Close(pos.m)
  }

  lemma {:induction false} OnlyNextLands(sc: Script, s: State, pos: Position, step: Step)
    requires sc.Ready() && At(sc, s, pos) && StepOf(sc.modules, step) && step != Witness
    requires Exec(sc.w, s, CallOf(sc.modules, sc.evidence, step)).Some?
    ensures step == NextStep(sc.modules, pos)
  {
    StepExact(sc, s, pos, step);
  }

  /** A chain seen from outside: what a call does to it, what it means to stand in a position,
      and which steps the modules agree to. */
  datatype Machine<!S> = Machine(exec: (S, Call) -> Option<S>, at: (S, Position) -> bool, gate: Step -> bool)

  /** Manifest calls act on the machine as their steps act on positions. */
  ghost predicate Simulates<S(!new)>(mc: Machine<S>, modules: seq<ModulePlan>, evidence: Hash) {
    forall s, pos, step :: StepOf(modules, step) && mc.at(s, pos) ==> Answers(mc, modules, evidence, s, pos, step)
  }

  ghost predicate Answers<S>(mc: Machine<S>, modules: seq<ModulePlan>, evidence: Hash, s: S, pos: Position, step: Step)
    requires StepOf(modules, step)
  {
    var r := mc.exec(s, CallOf(modules, evidence, step));
    (r.Some? <==> Enabled(modules, mc.gate, pos, step)) && (r.Some? ==> mc.at(r.value, Move(pos, step)))
  }

  ghost function Chain(sc: Script): Machine<State> {
    Machine((s: State, call: Call) => Exec(sc.w, s, call), (s: State, pos: Position) => At(sc, s, pos), sc.Gate())
  }

  lemma {:induction false} ChainSimulates(sc: Script)
    requires sc.Ready()
    ensures Simulates(Chain(sc), sc.modules, sc.evidence)
  {
    forall s, pos, step | StepOf(sc.modules, step) && Chain(sc).at(s, pos)
      ensures Answers(Chain(sc), sc.modules, sc.evidence, s, pos, step)
    {
      StepExact(sc, s, pos, step);
    }
  }

  // ------------------------------------------------------- manifest indices

  /** Step `r` of module `m`, and past the last module the activation. */
  function StepIn(modules: seq<ModulePlan>, m: nat, r: nat): Step
    requires m <= |modules|
  {
    if m == |modules| then Launch
    else if r == 0 then Open(m)
    else if r <= |modules[m].batches| then Load(m, r - 1)
    else if r == |modules[m].batches| + 1 && IsUsername(modules[m]) then Witness
    else Close(m)
  }

  predicate UsernameBefore(modules: seq<ModulePlan>, m: nat)
    requires m <= |modules|
  {
    exists i :: 0 <= i < m && IsUsername(modules[i])
  }

  /** Where the chain stands before step `r` of module `m`, everything earlier having landed. */
  function PositionIn(modules: seq<ModulePlan>, m: nat, r: nat): Position
    requires m <= |modules|
  {
    if m == |modules| then Position(m, 0, UsernameBefore(modules, m), r > 0) else
    var b := |modules[m].batches|;
    Position(m, if r <= b + 1 then r else b + 1, UsernameBefore(modules, m) || r > b + 1, false)
  }

  predicate Place(modules: seq<ModulePlan>, m: nat, r: nat) {
    (m < |modules| && r < ModuleLength(modules[m])) || (m == |modules| && r <= 1)
  }

  predicate Later(m: nat, r: nat, m': nat, r': nat) { m < m' || (m == m' && r < r') }

  predicate SoleUsername(modules: seq<ModulePlan>) {
    UsernameBefore(modules, |modules|) &&
    forall m :: 0 <= m < |modules| && IsUsername(modules[m]) ==> !UsernameBefore(modules, m)
  }

  lemma {:induction false} ReadySole(sc: Script)
    requires sc.Ready()
    ensures SoleUsername(sc.modules)
  {
    var u :| 0 <= u < |sc.w.ids| && sc.w.ids[u] == sc.w.username;
    assert sc.Fits(u) && IsUsername(sc.modules[u]);
    forall m | 0 <= m < |sc.modules| && IsUsername(sc.modules[m]) ensures !UsernameBefore(sc.modules, m) {
      forall i | 0 <= i < m ensures !IsUsername(sc.modules[i]) { assert sc.Fits(m) && sc.Fits(i); }
    }
  }

  lemma {:induction false} NextEnabled(modules: seq<ModulePlan>, gate: Step -> bool, m: nat, r: nat)
    requires SoleUsername(modules) && Place(modules, m, r) && !(m == |modules| && r == 1)
    ensures var step, pos := StepIn(modules, m, r), PositionIn(modules, m, r);
      StepOf(modules, step) && (Enabled(modules, gate, pos, step) <==> gate(step)) &&
      Move(pos, step) == if m == |modules| || r + 1 < ModuleLength(modules[m])
                         then PositionIn(modules, m, r + 1) else PositionIn(modules, m + 1, 0)
  {
    assert m < |modules| ==> (UsernameBefore(modules, m + 1) <==> UsernameBefore(modules, m) || IsUsername(modules[m]));
  }

  lemma {:induction false} PastDisabled(modules: seq<ModulePlan>, gate: Step -> bool, m: nat, r: nat, m': nat, r': nat)
    requires SoleUsername(modules) && Place(modules, m, r) && Place(modules, m', r') && Later(m, r, m', r')
    ensures StepOf(modules, StepIn(modules, m, r))
    ensures !Enabled(modules, gate, PositionIn(modules, m', r'), StepIn(modules, m, r))
  {
    if StepIn(modules, m, r) == Witness && m < m' {
      assert IsUsername(modules[m]);
      assert UsernameBefore(modules, m');
    }
  }

  lemma {:induction false} EntryIsStep(modules: seq<ModulePlan>, evidence: Hash, m: nat, r: nat)
    requires Place(modules, m, r) && !(m == |modules| && r == 1)
    ensures Offset(modules, m) + r < |AllEntries(modules, evidence)| == Offset(modules, |modules|) + 1
    ensures StepOf(modules, StepIn(modules, m, r))
    ensures AllEntries(modules, evidence)[Offset(modules, m) + r].call ==
      CallOf(modules, evidence, StepIn(modules, m, r))
  {
    OffsetIsLength(modules, evidence, |modules|);
    if m < |modules| { EntryAt(modules, evidence, |modules|, m, r); }
  }

  /** The machine stands just before manifest transaction `k`. */
  ghost predicate Reached<S>(mc: Machine<S>, modules: seq<ModulePlan>, s: S, k: nat) {
    exists m: nat, r: nat :: Place(modules, m, r) && k == Offset(modules, m) + r && mc.at(s, PositionIn(modules, m, r))
  }

  lemma {:induction false} StartReached(sc: Script)
    requires sc.Ready()
    ensures Reached(Chain(sc), sc.modules, Initial(), 0)
  {
    InitiallyAt(sc);
    assert Place(sc.modules, 0, 0) && Chain(sc).at(Initial(), PositionIn(sc.modules, 0, 0));
  }

  /** Where transaction `Offset + r` leads. */
  lemma {:induction false} NextPlace(modules: seq<ModulePlan>, gate: Step -> bool, evidence: Hash, m: nat, r: nat)
    returns (step: Step, m': nat, r': nat)
    requires SoleUsername(modules) && Place(modules, m, r) && Offset(modules, m) + r < |AllEntries(modules, evidence)|
    ensures StepOf(modules, step)
    ensures AllEntries(modules, evidence)[Offset(modules, m) + r].call == CallOf(modules, evidence, step)
    ensures step == StepIn(modules, m, r) && (Enabled(modules, gate, PositionIn(modules, m, r), step) <==> gate(step))
    ensures Place(modules, m', r') && Offset(modules, m') + r' == Offset(modules, m) + r + 1
    ensures Move(PositionIn(modules, m, r), step) == PositionIn(modules, m', r')
  {
    OffsetIsLength(modules, evidence, |modules|);
    EntryIsStep(modules, evidence, m, r);
    NextEnabled(modules, gate, m, r);
    step := StepIn(modules, m, r);
    if m == |modules| || r + 1 < ModuleLength(modules[m]) { m', r' := m, r + 1; } else { m', r' := m + 1, 0; }
  }

  lemma {:induction false} NextLands<S(!new)>(mc: Machine<S>, modules: seq<ModulePlan>, evidence: Hash,
      entries: seq<Entry>, s: S, k: nat)
    requires SoleUsername(modules) && Simulates(mc, modules, evidence) && entries == AllEntries(modules, evidence)
    requires Passes(modules, mc.gate) && Reached(mc, modules, s, k) && k < |entries|
    ensures var r := mc.exec(s, entries[k].call); r.Some? && Reached(mc, modules, r.value, k + 1)
  {
    var m: nat, r: nat :| Place(modules, m, r) && k == Offset(modules, m) + r && mc.at(s, PositionIn(modules, m, r));
    var step, m', r' := NextPlace(modules, mc.gate, evidence, m, r);
    assert Answers(mc, modules, evidence, s, PositionIn(modules, m, r), step);
    var t := mc.exec(s, CallOf(modules, evidence, step)).value;
    assert mc.at(t, PositionIn(modules, m', r'));
  }

  lemma {:induction false} PlaceOf(modules: seq<ModulePlan>, k: nat) returns (m: nat, r: nat)
    requires k <= Offset(modules, |modules|) + 1
    ensures Place(modules, m, r) && k == Offset(modules, m) + r
  {
    if k < Offset(modules, |modules|) {
      m := ModuleOf(modules, |modules|, k);
    } else {
      m := |modules|;
    }
    r := k - Offset(modules, m);
  }

  lemma {:induction false} LaterPlace(modules: seq<ModulePlan>, m: nat, r: nat, m': nat, r': nat)
    requires Place(modules, m, r) && Place(modules, m', r') && Offset(modules, m) + r < Offset(modules, m') + r'
    ensures Later(m, r, m', r')
  {
    if m' < m { OffsetGrows(modules, m', m); }
  }

  lemma {:induction false} PastReverts<S(!new)>(mc: Machine<S>, modules: seq<ModulePlan>, evidence: Hash,
      entries: seq<Entry>, s: S, k: nat, i: nat)
    requires SoleUsername(modules) && Simulates(mc, modules, evidence) && entries == AllEntries(modules, evidence)
    requires Reached(mc, modules, s, k) && i < k && i < |entries|
    ensures mc.exec(s, entries[i].call).None?
  {
    var m': nat, r': nat :|
      Place(modules, m', r') && k == Offset(modules, m') + r' && mc.at(s, PositionIn(modules, m', r'));
    OffsetIsLength(modules, evidence, |modules|);
    var m, r := PlaceOf(modules, i);
    LaterPlace(modules, m, r, m', r');
    EntryIsStep(modules, evidence, m, r);
    PastDisabled(modules, mc.gate, m, r, m', r');
    assert Answers(mc, modules, evidence, s, PositionIn(modules, m', r'), StepIn(modules, m, r));
  }

  /** After the first `k` transactions, transaction `k` lands and leads to `k + 1`, and none of
      the earlier ones lands again. */
  ghost predicate Ladder<S(!new)>(exec: (S, Call) -> Option<S>, entries: seq<Entry>, reached: (S, nat) -> bool) {
    && (forall s, k: nat :: k < |entries| && reached(s, k) ==>
          exec(s, entries[k].call).Some? && reached(exec(s, entries[k].call).value, k + 1))
    && (forall s, k: nat, i: nat :: i < |entries| && i < k && reached(s, k) ==> exec(s, entries[i].call).None?)
  }

  ghost function ReachedIn(sc: Script): (State, nat) -> bool {
    (s: State, k: nat) => Reached(Chain(sc), sc.modules, s, k)
  }

  /** The coordinator takes a manifest one transaction after the other, each exactly once. */
  lemma {:induction false} ManifestLadder(sc: Script)
    requires sc.Ready() && sc.Agreeable()
    ensures Ladder(Chain(sc).exec, AllEntries(sc.modules, sc.evidence), ReachedIn(sc))
  {
    ReadySole(sc);
    ChainSimulates(sc);
    var mc, entries, reached := Chain(sc), AllEntries(sc.modules, sc.evidence), ReachedIn(sc);
    forall s, k: nat | k < |entries| && reached(s, k)
      ensures mc.exec(s, entries[k].call).Some? && reached(mc.exec(s, entries[k].call).value, k + 1)
    {
      NextLands(mc, sc.modules, sc.evidence, entries, s, k);
    }
    forall s, k: nat, i: nat | i < |entries| && i < k && reached(s, k) ensures mc.exec(s, entries[i].call).None? {
      PastReverts(mc, sc.modules, sc.evidence, entries, s, k, i);
    }
  }

  ghost predicate Finished(sc: Script, s: State) {
    s.activated && s.directoryActive && s.next == |sc.w.ids| && s.evidence == sc.evidence &&
    forall i :: 0 <= i < |sc.modules| ==> Get(s.progress, sc.modules[i].id) == Closed(sc.modules[i])
  }

  lemma {:induction false} EndPlace(sc: Script, m: nat, r: nat)
    requires sc.Ready() && Place(sc.modules, m, r) && Offset(sc.modules, m) + r == Offset(sc.modules, |sc.modules|) + 1
    ensures PositionIn(sc.modules, m, r) == Position(|sc.modules|, 0, true, true)
  {
    if m < |sc.modules| { OffsetGrows(sc.modules, m, |sc.modules|); }
    ReadySole(sc);
  }

  /** Past the last transaction the suite is active and every module finalized with its root. */
  lemma {:induction false} EndIsFinished(sc: Script, s: State)
    requires sc.Ready() && Reached(Chain(sc), sc.modules, s, |AllEntries(sc.modules, sc.evidence)|)
    ensures Finished(sc, s)
  {
    var n := |sc.modules|;
    OffsetIsLength(sc.modules, sc.evidence, n);
    var m: nat, r: nat :| Place(sc.modules, m, r) && Offset(sc.modules, n) + 1 == Offset(sc.modules, m) + r &&
                          Chain(sc).at(s, PositionIn(sc.modules, m, r));
    EndPlace(sc, m, r);
    forall i | 0 <= i < n ensures Get(s.progress, sc.modules[i].id) == Closed(sc.modules[i]) {
      assert Records(sc, s, PositionIn(sc.modules, m, r), i);
    }
  }

  function Calls(entries: seq<Entry>): (r: seq<Call>)
    ensures |r| == |entries|
  {
    seq(|entries|, i requires 0 <= i < |entries| => entries[i].call)
  }

  /** The states of a run in which every call is sent in turn. */
  ghost predicate Executes<S>(exec: (S, Call) -> Option<S>, entries: seq<Entry>, run: nat -> S) {
    forall k ::
      0 <= k < |entries| ==> var r := exec(run(k), entries[k].call); run(k + 1) == if r.Some? then r.value else run(k)
  }

  /** Sent in order, every prefix of the manifest lands completely. */
  lemma {:induction false} PrefixLands<S(!new)>(exec: (S, Call) -> Option<S>, entries: seq<Entry>,
      reached: (S, nat) -> bool, run: nat -> S, k: nat)
    requires Ladder(exec, entries, reached) && reached(run(0), 0) && Executes(exec, entries, run) && k <= |entries|
    ensures reached(run(k), k)
  {
    if k > 0 { PrefixLands(exec, entries, reached, run, k - 1); }
  }

  ghost function RunOf(w: World, calls: seq<Call>): nat -> State {
    (k: nat) => if k <= |calls| then LandAll(w, Initial(), calls[..k]) else Initial()
  }

  lemma {:induction false} RunExecutes(sc: Script, entries: seq<Entry>)
    ensures Executes(Chain(sc).exec, entries, RunOf(sc.w, Calls(entries)))
  {
    var calls, run := Calls(entries), RunOf(sc.w, Calls(entries));
    forall k | 0 <= k < |entries|
      ensures var r := Chain(sc).exec(run(k), entries[k].call); run(k + 1) == if r.Some? then r.value else run(k)
    {
      assert calls[..k + 1][..k] == calls[..k] && calls[..k + 1][k] == entries[k].call;
    }
  }

  /** The whole manifest, sent in order to a fresh coordinator, activates the suite. */
  lemma {:induction false} ManifestActivates(sc: Script)
    requires sc.Ready() && sc.Agreeable()
    ensures Finished(sc, LandAll(sc.w, Initial(), Calls(AllEntries(sc.modules, sc.evidence))))
  {
    var entries := AllEntries(sc.modules, sc.evidence);
    var run := RunOf(sc.w, Calls(entries));
    assert Calls(entries)[..0] == [] && Calls(entries)[..|entries|] == Calls(entries);
    ManifestLadder(sc);
    StartReached(sc);
    RunExecutes(sc, entries);
    PrefixLands(Chain(sc).exec, entries, ReachedIn(sc), run, |entries|);
    EndIsFinished(sc, run(|entries|));
  }

  // ------------------------------------------------------ what a refusal does

  /** Step `r` of module `m` is one that the modules do not agree to. */
  predicate Refused(modules: seq<ModulePlan>, gate: Step -> bool, m: nat, r: nat) {
    m < |modules| && Place(modules, m, r) && StepIn(modules, m, r) != Witness && !gate(StepIn(modules, m, r))
  }

  /** Standing before a refused step, the attestation may still come. */
  predicate StuckAt(modules: seq<ModulePlan>, pos: Position, m: nat, r: nat)
    requires m <= |modules|
  {
    pos == PositionIn(modules, m, r) || pos == PositionIn(modules, m, r).(attested := true)
  }

  lemma {:induction false} StuckDisabled(modules: seq<ModulePlan>, gate: Step -> bool, pos: Position, m: nat, r: nat,
      m': nat, r': nat)
    requires Refused(modules, gate, m, r) && StuckAt(modules, pos, m, r) && gate(Witness)
    requires Place(modules, m', r') && !(m' == |modules| && r' == 1) && !Later(m', r', m, r)
    ensures StepOf(modules, StepIn(modules, m', r'))
    ensures Enabled(modules, gate, pos, StepIn(modules, m', r')) ==> StepIn(modules, m', r') == Witness
  {
  }

  /** The machine is stuck before a refused step that comes before transaction `k`. */
  ghost predicate Stuck<S>(mc: Machine<S>, modules: seq<ModulePlan>, s: S, k: nat) {
    exists m: nat, r: nat, pos ::
      Refused(modules, mc.gate, m, r) && Offset(modules, m) + r < k && StuckAt(modules, pos, m, r) && mc.at(s, pos)
  }

  /** Once stuck, no later manifest transaction helps. */
  lemma {:induction false} StuckStays<S(!new)>(mc: Machine<S>, modules: seq<ModulePlan>, evidence: Hash,
      entries: seq<Entry>, s: S, k: nat)
    requires Simulates(mc, modules, evidence) && entries == AllEntries(modules, evidence) && mc.gate(Witness)
    requires Stuck(mc, modules, s, k) && k < |entries|
    ensures var r := mc.exec(s, entries[k].call); Stuck(mc, modules, if r.Some? then r.value else s, k + 1)
  {
    var m: nat, r: nat, pos :|
      Refused(modules, mc.gate, m, r) && Offset(modules, m) + r < k && StuckAt(modules, pos, m, r) && mc.at(s, pos);
    OffsetIsLength(modules, evidence, |modules|);
    var m', r' := PlaceOf(modules, k);
    LaterPlace(modules, m, r, m', r');
    EntryIsStep(modules, evidence, m', r');
    StuckDisabled(modules, mc.gate, pos, m, r, m', r');
    assert Answers(mc, modules, evidence, s, pos, StepIn(modules, m', r'));
    if mc.exec(s, entries[k].call).Some? {
      assert StuckAt(modules, Move(pos, Witness), m, r);
    }
  }

  /** Transaction `k` lands, or the machine is stuck before it. */
  lemma {:induction false} NextOrStuck<S(!new)>(mc: Machine<S>, modules: seq<ModulePlan>, evidence: Hash,
      entries: seq<Entry>, s: S, k: nat)
    requires SoleUsername(modules) && Simulates(mc, modules, evidence) && entries == AllEntries(modules, evidence)
    requires mc.gate(Witness) && mc.gate(Launch) && Reached(mc, modules, s, k) && k < |entries|
    ensures var r := mc.exec(s, entries[k].call); var t := if r.Some? then r.value else s;
      Reached(mc, modules, t, k + 1) || Stuck(mc, modules, t, k + 1)
    ensures var r := mc.exec(s, entries[k].call); !Stuck(mc, modules, if r.Some? then r.value else s, k + 1) ==> r.Some?
  {
    var m: nat, r: nat :| Place(modules, m, r) && k == Offset(modules, m) + r && mc.at(s, PositionIn(modules, m, r));
    var step, m', r' := NextPlace(modules, mc.gate, evidence, m, r);
    assert Answers(mc, modules, evidence, s, PositionIn(modules, m, r), step);
    if mc.gate(step) {
      var t := mc.exec(s, CallOf(modules, evidence, step)).value;
      assert mc.at(t, PositionIn(modules, m', r'));
    } else {
      assert Refused(modules, mc.gate, m, r) && StuckAt(modules, PositionIn(modules, m, r), m, r);
    }
  }

  /** Every step before transaction `k` is agreed to. */
  ghost predicate PassesUpTo(modules: seq<ModulePlan>, gate: Step -> bool, k: nat) {
    forall m: nat, r: nat ::
      m < |modules| && Place(modules, m, r) && Offset(modules, m) + r < k ==> gate(StepIn(modules, m, r))
  }

  /** The first `k` transactions have landed, or one of them was refused. */
  ghost predicate LandedOrStuck<S>(mc: Machine<S>, modules: seq<ModulePlan>, s: S, k: nat) {
    (Reached(mc, modules, s, k) && PassesUpTo(modules, mc.gate, k)) || Stuck(mc, modules, s, k)
  }

  lemma {:induction false} OneMore<S(!new)>(mc: Machine<S>, modules: seq<ModulePlan>, evidence: Hash,
      entries: seq<Entry>, s: S, k: nat, t: S)
    requires SoleUsername(modules) && Simulates(mc, modules, evidence) && entries == AllEntries(modules, evidence)
    requires mc.gate(Witness) && mc.gate(Launch) && LandedOrStuck(mc, modules, s, k) && k < |entries|
    requires t == var r := mc.exec(s, entries[k].call); if r.Some? then r.value else s
    ensures LandedOrStuck(mc, modules, t, k + 1)
  {
    if Stuck(mc, modules, s, k) {
      StuckStays(mc, modules, evidence, entries, s, k);
    } else {
      NextOrStuck(mc, modules, evidence, entries, s, k);
      if !Stuck(mc, modules, t, k + 1) { PassesNext(mc, modules, evidence, entries, s, k); }
    }
  }

  lemma {:induction false} RunOrStuck<S(!new)>(mc: Machine<S>, modules: seq<ModulePlan>, evidence: Hash,
      entries: seq<Entry>, run: nat -> S, k: nat)
    requires SoleUsername(modules) && Simulates(mc, modules, evidence) && entries == AllEntries(modules, evidence)
    requires mc.gate(Witness) && mc.gate(Launch) && LandedOrStuck(mc, modules, run(0), 0)
    requires Executes(mc.exec, entries, run) && k <= |entries|
    ensures LandedOrStuck(mc, modules, run(k), k)
  {
    if k > 0 {
      RunOrStuck(mc, modules, evidence, entries, run, k - 1);
      OneMore(mc, modules, evidence, entries, run(k - 1), k - 1, run(k));
    }
  }

  lemma {:induction false} PassesNext<S(!new)>(mc: Machine<S>, modules: seq<ModulePlan>, evidence: Hash,
      entries: seq<Entry>, s: S, k: nat)
    requires SoleUsername(modules) && Simulates(mc, modules, evidence) && entries == AllEntries(modules, evidence)
    requires mc.gate(Witness)
    requires Reached(mc, modules, s, k) && k < |entries| && mc.exec(s, entries[k].call).Some?
    requires PassesUpTo(modules, mc.gate, k)
    ensures PassesUpTo(modules, mc.gate, k + 1)
  {
    var m: nat, r: nat :| Place(modules, m, r) && k == Offset(modules, m) + r && mc.at(s, PositionIn(modules, m, r));
    var step, m', r' := NextPlace(modules, mc.gate, evidence, m, r);
    assert Answers(mc, modules, evidence, s, PositionIn(modules, m, r), step);
    forall m2: nat, r2: nat | m2 < |modules| && Place(modules, m2, r2) && Offset(modules, m2) + r2 == k
      ensures mc.gate(StepIn(modules, m2, r2))
    {
      SamePlace(modules, m, r, m2, r2);
    }
  }

  lemma {:induction false} SamePlace(modules: seq<ModulePlan>, m: nat, r: nat, m': nat, r': nat)
    requires Place(modules, m, r) && Place(modules, m', r') && Offset(modules, m) + r == Offset(modules, m') + r'
    requires m' < |modules|
    ensures m == m' && r == r'
  {
    if m < m' { OffsetGrows(modules, m, m'); }
    if m' < m { OffsetGrows(modules, m', m); }
  }

  lemma {:induction false} AllPass(modules: seq<ModulePlan>, gate: Step -> bool)
    requires PassesUpTo(modules, gate, Offset(modules, |modules|)) && gate(Witness) && gate(Launch)
    requires forall m: nat :: gate(Close(m))
    ensures Passes(modules, gate)
  {
    forall step | StepOf(modules, step) ensures gate(step) {
      match step
      case Open(m) =>
        OffsetGrows(modules, m, |modules|);
        assert Place(modules, m, 0) && StepIn(modules, m, 0) == step;
      case Load(m, i) =>
        OffsetGrows(modules, m, |modules|);
        assert Place(modules, m, i + 1) && StepIn(modules, m, i + 1) == step;
      case _ =>
    }
  }

  lemma {:induction false} StuckUnfinished(sc: Script, s: State, k: nat)
    requires Stuck(Chain(sc), sc.modules, s, k)
    ensures !s.activated
  {
    var m: nat, r: nat, pos :|
      Refused(sc.modules, sc.Gate(), m, r) && Offset(sc.modules, m) + r < k && StuckAt(sc.modules, pos, m, r) &&
                               Chain(sc).at(s, pos);
  }

  /** The manifest activates the suite if and only if no module is opened with the zero root and
      every module takes every batch after those before it. */
  lemma {:induction false} ManifestActivatesIff(sc: Script)
    requires sc.Ready()
    ensures Finished(sc, LandAll(sc.w, Initial(), Calls(AllEntries(sc.modules, sc.evidence)))) <==> sc.Agreeable()
  {
    var entries := AllEntries(sc.modules, sc.evidence);
    var run := RunOf(sc.w, Calls(entries));
    assert Calls(entries)[..0] == [] && Calls(entries)[..|entries|] == Calls(entries);
    if sc.Agreeable() {
      ManifestActivates(sc);
    } else {
      ReadySole(sc);
      ChainSimulates(sc);
      StartReached(sc);
      RunExecutes(sc, entries);
      OffsetIsLength(sc.modules, sc.evidence, |sc.modules|);
      assert LandedOrStuck(Chain(sc), sc.modules, run(0), 0);
      RunOrStuck(Chain(sc), sc.modules, sc.evidence, entries, run, |entries|);
      if Stuck(Chain(sc), sc.modules, run(|entries|), |entries|) {
        StuckUnfinished(sc, run(|entries|), |entries|);
      } else {
        AllPass(sc.modules, sc.Gate());
      }
    }
  }

  // --------------------------------------------------- accepted plans are ready

  /** The chain a plan is meant for: same hash, same modules, same snapshot. */
  ghost predicate Targets<R>(suite: Suite<R>, plan: Plan, w: World)
    requires suite.Shaped() && |plan.modules| == |suite.ids|
  {
    && w.h == suite.h
    && w.ids == suite.ids
    && w.snapshotRoot == plan.snapshotRoot
    && DistinctIds(w)
    && w.username in w.ids
    && (forall m :: 0 <= m < |suite.ids| ==> (suite.names[m] == USERNAME <==> suite.ids[m] == w.username))
  }

  lemma {:induction false} CountIsTotal(p: ModulePlan, n: nat)
    requires n <= |p.batches|
    ensures CountAt(p, n) == Total(p.batches[..n])
  {
    if n > 0 {
      CountIsTotal(p, n - 1);
      assert p.batches[..n] == p.batches[..n - 1] + [p.batches[n - 1]];
      TotalAppend(p.batches[..n - 1], [p.batches[n - 1]]);
    }
  }

  /** The facts of one accepted batch that the chain checks. */
  lemma {:induction false} ValidBatchFacts<R>(suite: Suite<R>, plan: Plan, w: World, m: nat, i: nat)
    requires suite.Shaped() && PlanValid(suite, plan) && Targets(suite, plan, w) && m < |plan.modules|
    requires i < |plan.modules[m].batches|
    ensures var b := plan.modules[m].batches[i];
      && 0 < b.count <= MAXIMUM_BATCH_ITEMS && 0 < |b.payload| <= MAXIMUM_PAYLOAD_BYTES
      && b.payloadHash == w.h.digest(b.payload)
  {
    var p := plan.modules[m];
    assert ModuleValid(suite, plan.snapshotRoot, plan.batchSize, m, p);
    assert BatchValid(suite, m, plan.batchSize, p.batches[i]);
  }

  lemma {:induction false} ValidBatchLinked<R>(suite: Suite<R>, plan: Plan, w: World, m: nat, i: nat)
    requires suite.Shaped() && PlanValid(suite, plan) && Targets(suite, plan, w) && m < |plan.modules|
    requires i < |plan.modules[m].batches|
    ensures var p := plan.modules[m];
      p.batches[i].sequence == i && PlanAccepted.Linked(w.h, p.id, w.h.seed(p.id, w.snapshotRoot), p.batches, i)
  {
    var p := plan.modules[m];
    PlanAccepted.ModuleChain(suite, plan.snapshotRoot, plan.batchSize, m, p);
    PlanAccepted.ChainedAt(suite.h, p.id, 0, suite.h.seed(p.id, plan.snapshotRoot), p.batches, i);
  }

  lemma {:induction false} ValidBatchReady<R>(suite: Suite<R>, plan: Plan, w: World, m: nat, i: nat)
    requires suite.Shaped() && PlanValid(suite, plan) && Targets(suite, plan, w) && m < |plan.modules|
    requires i < |plan.modules[m].batches|
    ensures BatchReady(w, plan.modules[m], i)
  {
    ValidBatchFacts(suite, plan, w, m, i);
    ValidBatchLinked(suite, plan, w, m, i);
  }

  lemma {:induction false} ValidModuleReady<R>(suite: Suite<R>, plan: Plan, w: World, m: nat)
    requires suite.Shaped() && PlanValid(suite, plan) && Targets(suite, plan, w) && m < |plan.modules|
    ensures ModuleReady(w, plan.modules[m])
  {
    var p := plan.modules[m];
    assert ModuleValid(suite, plan.snapshotRoot, plan.batchSize, m, p);
    forall i | 0 <= i < |p.batches| ensures BatchReady(w, p, i) { ValidBatchReady(suite, plan, w, m, i); }
    CountIsTotal(p, |p.batches|);
    assert p.batches[..|p.batches|] == p.batches;
    if p.batches != [] { assert BatchReady(w, p, |p.batches| - 1); }
  }

  lemma {:induction false} AcceptedPlanReady<R>(suite: Suite<R>, plan: Plan, w: World)
    requires suite.Shaped() && PlanValid(suite, plan) && Targets(suite, plan, w)
    ensures Script(w, plan.modules, plan.evidence).Ready()
  {
    var sc := Script(w, plan.modules, plan.evidence);
    forall m | 0 <= m < |plan.modules| ensures sc.Fits(m) {
      assert ModuleValid(suite, plan.snapshotRoot, plan.batchSize, m, plan.modules[m]);
      ValidModuleReady(suite, plan, w, m);
    }
  }

  /** On the chain it targets an accepted plan has a manifest. */
  lemma {:induction false} TargetsBuild<R>(suite: Suite<R>, plan: Plan, w: World)
    requires suite.Shaped() && PlanValid(suite, plan) && Targets(suite, plan, w)
    ensures BuildManifest(suite, plan).Some?
    ensures EntriesOf(BuildManifest(suite, plan).value) == AllEntries(plan.modules, plan.evidence)
  {
    var u :| 0 <= u < |w.ids| && w.ids[u] == w.username;
    OneUsername(suite.names, u, |suite.names|);
    assert suite.names[..|suite.names|] == suite.names;
    ManifestComplete(suite, plan);
    ManifestEntries(suite, plan);
  }

  /** The manifest built from an accepted plan runs to activation, with the plan's own evidence and
      roots, on the chain it targets if and only if no expected root is zero and every module
      takes every batch after those before it. */
  lemma {:induction false} AcceptedPlanActivates<R>(suite: Suite<R>, plan: Plan, w: World)
    requires suite.Shaped() && PlanValid(suite, plan) && Targets(suite, plan, w)
    ensures BuildManifest(suite, plan).Some?
    ensures var sc := Script(w, plan.modules, plan.evidence);
      var end := LandAll(w, Initial(), Calls(EntriesOf(BuildManifest(suite, plan).value)));
      && sc.Ready()
      && (Finished(sc, end) <==>
          (forall m :: 0 <= m < |plan.modules| ==> plan.modules[m].expectedRoot != Zero()) &&
          (forall m, i ::
            0 <= m < |plan.modules| && 0 <= i < |plan.modules[m].batches| ==> Takes(w, plan.modules, m, i)))
  {
    var sc := Script(w, plan.modules, plan.evidence);
    AcceptedPlanReady(suite, plan, w);
    ManifestActivatesIff(sc);
    AgreeableIs(sc);
    TargetsBuild(suite, plan, w);
  }

  lemma {:induction false} AgreeableIs(sc: Script)
    ensures sc.Agreeable() <==>
      (forall m :: 0 <= m < |sc.modules| ==> sc.modules[m].expectedRoot != Zero()) &&
      (forall m, i :: 0 <= m < |sc.modules| && 0 <= i < |sc.modules[m].batches| ==> Takes(sc.w, sc.modules, m, i))
  {
    if sc.Agreeable() {
      forall m | 0 <= m < |sc.modules|
        ensures sc.modules[m].expectedRoot != Zero()
      {
        assert StepOf(sc.modules, Open(m));
      }
      forall m, i | 0 <= m < |sc.modules| && 0 <= i < |sc.modules[m].batches| ensures Takes(sc.w, sc.modules, m, i) {
        assert StepOf(sc.modules, Load(m, i));
      }
    }
  }
}
