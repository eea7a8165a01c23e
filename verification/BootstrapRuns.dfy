/** Every run of the bootstrap tool: any number of processes that read field by field, send,
    wait, crash and start again, with transactions that land late or not at all. */
module BootstrapRuns {
  import opened Digits
  import opened RollingRoot
  import opened Plan
  import opened Manifest
  import opened Coordinator
  import opened ManifestRun
  import opened Runner

  /** The chain, the fields the tool reads one after the other, and its verdict on them. */
  datatype Tool<!S> = Tool(
    exec: (S, Call) -> Option<S>, entries: seq<Entry>,
    next: S -> nat, evidence: S -> Hash, activated: S -> bool,
    verdict: (nat, nat, Hash, bool, S) -> Answer)

  /** One process at manifest transaction `index`: which start it came from, whether it has sent
      that transaction, and what it has read. */
  datatype Process = Process(
    born: nat, index: nat, sent: bool, next: Option<nat>, evidence: Option<Hash>, activated: Option<bool>)

  function Unread(born: nat, index: nat, sent: bool): Process { Process(born, index, sent, None, None, None) }

  datatype Send = Send(born: nat, index: nat)

  /** What a process concluded about a transaction, and whether it had sent it before. */
  datatype Decision = Decision(born: nat, index: nat, verdict: Answer, sent: bool)

  /** `sends` and `log` hold what was ever sent and concluded, `effects` the transactions that
      landed, in order. */
  datatype System<+S> = System(
    chain: S, started: nat, processes: map<nat, Process>, log: seq<Decision>, sends: seq<Send>, effects: seq<nat>)

  /** `Other`: somebody else moves the chain. */
  datatype Event<+S> =
    | Start(id: nat) | ReadNext(id: nat) | ReadEvidence(id: nat) | ReadActivated(id: nat)
    | Decide(id: nat) | Crash(id: nat) | Arrive(transaction: nat) | Other(state: S)

  /** What a process does once it has read the coordinator: the loop body of the tool before
      sending, and `waitUntilApplied` afterwards. Nothing means it gives up. */
  function Judge(p: Process, verdict: Answer): Option<Process> {
    match verdict
    case Applied => Some(Unread(p.born, p.index + 1, false))
    case Pending => Some(Unread(p.born, p.index, true))
    case Mismatch => if p.sent then Some(Unread(p.born, p.index, true)) else None
  }

  function Read<S>(tool: Tool<S>, chain: S, p: Process, e: Event<S>): Process {
    match e
    case ReadNext(_) => p.(next := Some(tool.next(chain)))
    case ReadEvidence(_) => if p.next.None? then p else p.(evidence := Some(tool.evidence(chain)))
    case ReadActivated(_) => if p.evidence.None? then p else p.(activated := Some(tool.activated(chain)))
    case _ => p
  }

  /** The process has read all three fields and is not through. */
  predicate Informed<S>(tool: Tool<S>, p: Process) {
    p.index < |tool.entries| && p.next.Some? && p.evidence.Some? && p.activated.Some?
  }

  function Verdict<S>(tool: Tool<S>, chain: S, p: Process): Answer
    requires Informed(tool, p)
  {
    tool.verdict(p.index, p.next.value, p.evidence.value, p.activated.value, chain)
  }

  function Decided<S>(tool: Tool<S>, sys: System<S>, id: nat, p: Process): System<S> {
    if !Informed(tool, p) then sys else
    var verdict := Verdict(tool, sys.chain, p);
    var after := Judge(p, verdict);
    sys.(processes := if after.None? then sys.processes - {id} else sys.processes[id := after.value],
         log := sys.log + [Decision(p.born, p.index, verdict, p.sent)],
         sends := if verdict == Pending && !p.sent then sys.sends + [Send(p.born, p.index)] else sys.sends)
  }

  predicate InFlight(sends: seq<Send>, i: nat) { exists j :: 0 <= j < |sends| && sends[j].index == i }

  function Arrived<S>(tool: Tool<S>, sys: System<S>, i: nat): System<S> {
    if !InFlight(sys.sends, i) || i >= |tool.entries| then sys else
    var r := tool.exec(sys.chain, tool.entries[i].call);
    if r.None? then sys else sys.(chain := r.value, effects := sys.effects + [i])
  }

  function Next<S>(tool: Tool<S>, sys: System<S>, e: Event<S>): System<S> {
    match e
    case Start(id) =>
      sys.(processes := sys.processes[id := Unread(sys.started, 0, false)], started := sys.started + 1)
    case Crash(id) => sys.(processes := sys.processes - {id})
    case Arrive(i) => Arrived(tool, sys, i)
    case Other(state) => sys.(chain := state)
    case Decide(id) => if id in sys.processes then Decided(tool, sys, id, sys.processes[id]) else sys
    case _ =>
      if e.id !in sys.processes then sys
      else sys.(processes := sys.processes[e.id := Read(tool, sys.chain, sys.processes[e.id], e)])
  }

  function Run<S>(tool: Tool<S>, sys: System<S>, events: seq<Event<S>>): System<S> {
    if events == [] then sys else Next(tool, Run(tool, sys, events[..|events| - 1]), events[|events| - 1])
  }

  lemma {:induction false} RunAppend<S>(tool: Tool<S>, sys: System<S>, a: seq<Event<S>>, b: seq<Event<S>>)
    ensures Run(tool, sys, a + b) == Run(tool, Run(tool, sys, a), b)
    decreases |b|
  {
    if b == [] {
      assert a + b == a;
    } else {
      RunAppend(tool, sys, a, b[..|b| - 1]);
      assert (a + b)[..|a + b| - 1] == a + b[..|b| - 1];
    }
  }

  // ------------------------------------------- what holds on any chain at all

  ghost predicate Concluded(log: seq<Decision>, born: nat, index: nat, verdict: Answer) {
    exists j :: 0 <= j < |log| && log[j].born == born && log[j].index == index && log[j].verdict == verdict
  }

  /** It had concluded of every transaction below `index` that it was applied. */
  ghost predicate SawApplied(log: seq<Decision>, born: nat, index: nat) {
    forall i: nat :: i < index ==> Concluded(log, born, i, Applied)
  }

  ghost predicate GaveUp(log: seq<Decision>, born: nat) {
    exists j :: 0 <= j < |log| && log[j].born == born && log[j].verdict == Mismatch && !log[j].sent
  }

  /** One process: it has seen everything below its place applied, has sent nothing above its
      place, and what is at its place once at most. */
  ghost predicate Steady(log: seq<Decision>, sends: seq<Send>, started: nat, p: Process) {
    && p.born < started && SawApplied(log, p.born, p.index) && !GaveUp(log, p.born)
    && (p.sent <==> Send(p.born, p.index) in sends)
    && (forall j :: 0 <= j < |sends| && sends[j].born == p.born ==> sends[j].index <= p.index)
  }

  /** A transaction is sent by a process at most once, after it found it pending and all before
      it applied; a process that finds a mismatch before sending is gone for good. */
  ghost predicate Disciplined<S>(sys: System<S>) {
    && (forall id :: id in sys.processes ==> Steady(sys.log, sys.sends, sys.started, sys.processes[id]))
    && (forall a, b :: a in sys.processes && b in sys.processes && a != b ==>
         sys.processes[a].born != sys.processes[b].born)
    && (forall j :: 0 <= j < |sys.log| ==> sys.log[j].born < sys.started)
    && (forall i, j :: 0 <= i < j < |sys.sends| ==> sys.sends[i] != sys.sends[j])
    && (forall j :: 0 <= j < |sys.sends| ==>
         && sys.sends[j].born < sys.started && Concluded(sys.log, sys.sends[j].born, sys.sends[j].index, Pending)
         && SawApplied(sys.log, sys.sends[j].born, sys.sends[j].index))
  }

  lemma {:induction false} ConcludedLater(log: seq<Decision>, d: Decision, born: nat, index: nat, verdict: Answer)
    ensures Concluded(log + [d], born, index, verdict) <==>
      Concluded(log, born, index, verdict) || (d.born == born && d.index == index && d.verdict == verdict)
  {
    var more := log + [d];
    assert more[|log|] == d && forall j :: 0 <= j < |log| ==> more[j] == log[j];
    if Concluded(log, born, index, verdict) {
      var j :| 0 <= j < |log| && log[j].born == born && log[j].index == index && log[j].verdict == verdict;
      assert more[j] == log[j];
    }
  }

  lemma {:induction false} SawLater(log: seq<Decision>, d: Decision, born: nat, index: nat)
    requires SawApplied(log, born, index)
    ensures SawApplied(log + [d], born, index)
    ensures d.born == born && d.index == index && d.verdict == Applied ==> SawApplied(log + [d], born, index + 1)
  {
    forall i: nat | i < index ensures Concluded(log + [d], born, i, Applied) {
      ConcludedLater(log, d, born, i, Applied);
    }
    ConcludedLater(log, d, born, index, Applied);
  }

  lemma {:induction false} GaveUpLater(log: seq<Decision>, d: Decision, born: nat)
    requires !GaveUp(log, born) && !(d.born == born && d.verdict == Mismatch && !d.sent)
    ensures !GaveUp(log + [d], born)
  {
    var more := log + [d];
    assert more[|log|] == d && forall j :: 0 <= j < |log| ==> more[j] == log[j];
  }

  /** A decision of another process. */
  lemma {:induction false} SteadyBesides(log: seq<Decision>, d: Decision, sends: seq<Send>, more: seq<Send>,
      started: nat, p: Process)
    requires Steady(log, sends, started, p) && d.born != p.born
    requires more == sends || more == sends + [Send(d.born, d.index)]
    ensures Steady(log + [d], more, started, p)
  {
    SawLater(log, d, p.born, p.index);
    GaveUpLater(log, d, p.born);
    assert forall j :: 0 <= j < |sends| ==> more[j] == sends[j];
  }

  /** Its own decision. */
  lemma {:induction false} SteadyJudged(log: seq<Decision>, sends: seq<Send>, started: nat, p: Process,
      verdict: Answer)
    requires Steady(log, sends, started, p) && Judge(p, verdict).Some?
    ensures Steady(log + [Decision(p.born, p.index, verdict, p.sent)],
      if verdict == Pending && !p.sent then sends + [Send(p.born, p.index)] else sends, started,
      Judge(p, verdict).value)
  {
    var d := Decision(p.born, p.index, verdict, p.sent);
    var more := if verdict == Pending && !p.sent then sends + [Send(p.born, p.index)] else sends;
    SawLater(log, d, p.born, p.index);
    GaveUpLater(log, d, p.born);
    assert forall j :: 0 <= j < |sends| ==> more[j] == sends[j];
    if verdict == Pending && !p.sent { assert more[|sends|] == Send(p.born, p.index); }
  }

  lemma {:induction false} SendsNext<S>(sys: System<S>, p: Process, verdict: Answer)
    requires Disciplined(sys) && Steady(sys.log, sys.sends, sys.started, p)
    ensures var log := sys.log + [Decision(p.born, p.index, verdict, p.sent)];
      var sends := if verdict == Pending && !p.sent then sys.sends + [Send(p.born, p.index)] else sys.sends;
      && (forall i, j :: 0 <= i < j < |sends| ==> sends[i] != sends[j])
      && (forall j :: 0 <= j < |sends| ==>
           && sends[j].born < sys.started && Concluded(log, sends[j].born, sends[j].index, Pending)
           && SawApplied(log, sends[j].born, sends[j].index))
  {
    var d := Decision(p.born, p.index, verdict, p.sent);
    var sends := if verdict == Pending && !p.sent then sys.sends + [Send(p.born, p.index)] else sys.sends;
    forall j | 0 <= j < |sends|
      ensures Concluded(sys.log + [d], sends[j].born, sends[j].index, Pending)
      ensures SawApplied(sys.log + [d], sends[j].born, sends[j].index)
    {
      ConcludedLater(sys.log, d, sends[j].born, sends[j].index, Pending);
      if j < |sys.sends| { assert sends[j] == sys.sends[j]; }
      SawLater(sys.log, d, sends[j].born, sends[j].index);
    }
  }

  lemma {:induction false} DecidedDisciplined<S>(tool: Tool<S>, sys: System<S>, id: nat)
    requires Disciplined(sys) && id in sys.processes
    ensures Disciplined(Decided(tool, sys, id, sys.processes[id]))
  {
    var p := sys.processes[id];
    if Informed(tool, p) {
      var verdict, after := Verdict(tool, sys.chain, p), Decided(tool, sys, id, p);
      var d := Decision(p.born, p.index, verdict, p.sent);
      SendsNext(sys, p, verdict);
      forall other | other in after.processes
        ensures Steady(after.log, after.sends, after.started, after.processes[other])
      {
        if other == id {
          SteadyJudged(sys.log, sys.sends, sys.started, p, verdict);
        } else {
          SteadyBesides(sys.log, d, sys.sends, after.sends, sys.started, sys.processes[other]);
        }
      }
    }
  }

  lemma {:induction false} NextDisciplined<S>(tool: Tool<S>, sys: System<S>, e: Event<S>)
    requires Disciplined(sys)
    ensures Disciplined(Next(tool, sys, e))
  {
    match e
    case Decide(id) => if id in sys.processes { DecidedDisciplined(tool, sys, id); }
    case Start(id) =>
      assert forall other :: other in sys.processes ==> sys.processes[other].born < sys.started;
    case _ =>
  }

  /** Whatever else happens on the chain, no process sends a transaction twice, none sends one
      before it has found all earlier ones applied, and one that finds a mismatch stops. */
  lemma {:induction false} RunDisciplined<S>(tool: Tool<S>, chain: S, events: seq<Event<S>>)
    ensures Disciplined(Run(tool, Idle(chain), events))
  {
    if events != [] {
      RunDisciplined(tool, chain, events[..|events| - 1]);
      NextDisciplined(tool, Run(tool, Idle(chain), events[..|events| - 1]), events[|events| - 1]);
    }
  }

  function Idle<S>(chain: S): System<S> { System(chain, 0, map[], [], [], []) }

  // ------------------------------------------------------------- safety

  /** `v` was the field's value at some point from `low` to `high`. */
  ghost predicate Seen<S(!new), V(!new)>(reached: (S, nat) -> bool, field: S -> V, v: V, low: nat, high: nat) {
    exists s, k: nat :: reached(s, k) && low <= k <= high && field(s) == v
  }

  /** The tool's verdict is right although its reads may be stale. */
  ghost predicate Telling<S(!new)>(tool: Tool<S>, reached: (S, nat) -> bool) {
    forall i: nat, k: nat, n, e, a, s :: i < |tool.entries| && i <= k && reached(s, k) ==>
      Tells(tool, reached, i, k, n, e, a, tool.verdict(i, n, e, a, s))
  }

  ghost predicate Tells<S(!new)>(tool: Tool<S>, reached: (S, nat) -> bool, i: nat, k: nat, n: nat, e: Hash, a: bool,
      verdict: Answer) {
    Seen(reached, tool.next, n, i, k) && Seen(reached, tool.evidence, e, i, k) &&
    Seen(reached, tool.activated, a, i, k) ==>
    verdict != Mismatch && (verdict == Applied ==> i < k)
  }

  ghost predicate Honest<S(!new)>(tool: Tool<S>, reached: (S, nat) -> bool, p: Process, k: nat) {
    && p.index <= k
    && (p.next.Some? ==> Seen(reached, tool.next, p.next.value, p.index, k))
    && (p.evidence.Some? ==> Seen(reached, tool.evidence, p.evidence.value, p.index, k))
    && (p.activated.Some? ==> Seen(reached, tool.activated, p.activated.value, p.index, k))
  }

  /** The first `k` transactions have landed, once each and in order; whatever was sent is one
      of them or the next; no process is ahead of the chain. */
  ghost predicate Safe<S(!new)>(tool: Tool<S>, reached: (S, nat) -> bool, sys: System<S>) {
    var k := |sys.effects|;
    && reached(sys.chain, k) && (forall i :: 0 <= i < k ==> sys.effects[i] == i)
    && (forall j :: 0 <= j < |sys.sends| ==> sys.sends[j].index <= k)
    && (forall id :: id in sys.processes ==> Honest(tool, reached, sys.processes[id], k))
  }

  lemma {:induction false} SeenLater<S(!new), V(!new)>(reached: (S, nat) -> bool, field: S -> V, v: V, low: nat,
      high: nat, higher: nat)
    requires Seen(reached, field, v, low, high) && high <= higher
    ensures Seen(reached, field, v, low, higher)
  {
  }

  lemma {:induction false} HonestLater<S(!new)>(tool: Tool<S>, reached: (S, nat) -> bool, p: Process, k: nat, k': nat)
    requires Honest(tool, reached, p, k) && k <= k'
    ensures Honest(tool, reached, p, k')
  {
    if p.next.Some? { SeenLater(reached, tool.next, p.next.value, p.index, k, k'); }
    if p.evidence.Some? { SeenLater(reached, tool.evidence, p.evidence.value, p.index, k, k'); }
    if p.activated.Some? { SeenLater(reached, tool.activated, p.activated.value, p.index, k, k'); }
  }

  lemma {:induction false} ReadHonest<S(!new)>(tool: Tool<S>, reached: (S, nat) -> bool, sys: System<S>, p: Process,
      k: nat, e: Event<S>)
    requires reached(sys.chain, k) && Honest(tool, reached, p, k)
    ensures Honest(tool, reached, Read(tool, sys.chain, p, e), k)
  {
    assert Seen(reached, tool.next, tool.next(sys.chain), p.index, k);
    assert Seen(reached, tool.evidence, tool.evidence(sys.chain), p.index, k);
    assert Seen(reached, tool.activated, tool.activated(sys.chain), p.index, k);
  }

  lemma {:induction false} DecidedSafe<S(!new)>(tool: Tool<S>, reached: (S, nat) -> bool, sys: System<S>, id: nat)
    requires Telling(tool, reached) && Safe(tool, reached, sys) && id in sys.processes
    ensures Safe(tool, reached, Decided(tool, sys, id, sys.processes[id]))
    ensures id in Decided(tool, sys, id, sys.processes[id]).processes
  {
    var p, k := sys.processes[id], |sys.effects|;
    if Informed(tool, p) {
      var verdict := Verdict(tool, sys.chain, p);
      assert Tells(tool, reached, p.index, k, p.next.value, p.evidence.value, p.activated.value, verdict);
      assert Honest(tool, reached, Judge(p, verdict).value, k);
    }
  }

  lemma {:induction false} ArrivedSafe<S(!new)>(tool: Tool<S>, reached: (S, nat) -> bool, sys: System<S>, i: nat)
    requires Ladder(tool.exec, tool.entries, reached) && Safe(tool, reached, sys)
    ensures Safe(tool, reached, Arrived(tool, sys, i))
  {
    var after, k := Arrived(tool, sys, i), |sys.effects|;
    if InFlight(sys.sends, i) && i < |tool.entries| && tool.exec(sys.chain, tool.entries[i].call).Some? {
      assert i == k;
      forall id | id in sys.processes ensures Honest(tool, reached, sys.processes[id], k + 1) {
        HonestLater(tool, reached, sys.processes[id], k, k + 1);
      }
    }
  }

  lemma {:induction false} NextSafe<S(!new)>(tool: Tool<S>, reached: (S, nat) -> bool, sys: System<S>, e: Event<S>)
    requires Ladder(tool.exec, tool.entries, reached) && Telling(tool, reached) && Safe(tool, reached, sys)
    requires !e.Other?
    ensures Safe(tool, reached, Next(tool, sys, e))
  {
    if e.Arrive? {
      ArrivedSafe(tool, reached, sys, e.transaction);
    } else if e.Decide? && e.id in sys.processes {
      DecidedSafe(tool, reached, sys, e.id);
    } else if e.id in sys.processes {
      ReadHonest(tool, reached, sys, sys.processes[e.id], |sys.effects|, e);
    }
  }

  /** Nobody else moves the chain. */
  predicate Alone<S>(events: seq<Event<S>>) { forall j :: 0 <= j < |events| ==> !events[j].Other? }

  lemma {:induction false} RunSafe<S(!new)>(tool: Tool<S>, reached: (S, nat) -> bool, sys: System<S>,
      events: seq<Event<S>>)
    requires Ladder(tool.exec, tool.entries, reached) && Telling(tool, reached) && Safe(tool, reached, sys)
    requires Alone(events)
    ensures Safe(tool, reached, Run(tool, sys, events))
  {
    if events != [] {
      RunSafe(tool, reached, sys, events[..|events| - 1]);
      NextSafe(tool, reached, Run(tool, sys, events[..|events| - 1]), events[|events| - 1]);
    }
  }

  /** Each transaction takes effect at most once and in manifest order; none is sent before its
      turn; no process is ahead of the chain or gives up on what it reads; and a process that
      is through the manifest leaves a finished chain. */
  ghost predicate Outcome<S(!new)>(tool: Tool<S>, reached: (S, nat) -> bool, finished: S -> bool, sys: System<S>) {
    var k := |sys.effects|;
    && reached(sys.chain, k) && k <= |tool.entries| && (forall i :: 0 <= i < k ==> sys.effects[i] == i)
    && (forall j :: 0 <= j < |sys.sends| ==> sys.sends[j].index <= k)
    && (forall id ::
          id in sys.processes ==> sys.processes[id].index <= k && id in Next(tool, sys, Decide(id)).processes)
    && (forall id :: id in sys.processes && sys.processes[id].index == |tool.entries| ==> finished(sys.chain))
  }

  lemma {:induction false} RunOutcome<S(!new)>(tool: Tool<S>, reached: (S, nat) -> bool, finished: S -> bool,
      sys: System<S>, events: seq<Event<S>>)
    requires Ladder(tool.exec, tool.entries, reached) && Telling(tool, reached) && Safe(tool, reached, sys)
    requires Alone(events)
    requires forall s, k: nat :: reached(s, k) ==> k <= |tool.entries| && (k == |tool.entries| ==> finished(s))
    ensures Outcome(tool, reached, finished, Run(tool, sys, events))
  {
    RunSafe(tool, reached, sys, events);
    var after := Run(tool, sys, events);
    forall id | id in after.processes
      ensures after.processes[id].index <= |after.effects| && id in Next(tool, after, Decide(id)).processes
    {
      assert Honest(tool, reached, after.processes[id], |after.effects|);
      DecidedSafe(tool, reached, after, id);
    }
  }

  // ------------------------------------------------------------- progress

  /** On fresh reads the tool is exactly right. */
  ghost predicate Exact<S(!new)>(tool: Tool<S>, reached: (S, nat) -> bool) {
    forall s, k: nat, i: nat :: reached(s, k) && i <= k && i < |tool.entries| ==>
      tool.verdict(i, tool.next(s), tool.evidence(s), tool.activated(s), s) == if i < k then Applied else Pending
  }

  /** One look at the coordinator and the decision on it. */
  function Round<S>(id: nat): seq<Event<S>> { [ReadNext(id), ReadEvidence(id), ReadActivated(id), Decide(id)] }

  function Looked<S>(tool: Tool<S>, chain: S, p: Process): Process {
    p.(next := Some(tool.next(chain)), evidence := Some(tool.evidence(chain)), activated := Some(tool.activated(chain)))
  }

  lemma {:induction false} RunOne<S>(tool: Tool<S>, sys: System<S>, e: Event<S>)
    ensures Run(tool, sys, [e]) == Next(tool, sys, e)
  {
    assert [e][..0] == [];
  }

  lemma {:induction false} RunFour<S>(tool: Tool<S>, sys: System<S>, a: Event<S>, b: Event<S>, c: Event<S>, d: Event<S>)
    ensures Run(tool, sys, [a, b, c, d]) == Next(tool, Next(tool, Next(tool, Next(tool, sys, a), b), c), d)
  {
    assert [a, b, c, d] == [a] + [b] + [c] + [d];
    RunAppend(tool, sys, [a] + [b] + [c], [d]);
    RunAppend(tool, sys, [a] + [b], [c]);
    RunAppend(tool, sys, [a], [b]);
    RunOne(tool, sys, a);
    RunOne(tool, Next(tool, sys, a), b);
    RunOne(tool, Next(tool, Next(tool, sys, a), b), c);
    RunOne(tool, Next(tool, Next(tool, Next(tool, sys, a), b), c), d);
  }

  lemma {:induction false} RoundIs<S>(tool: Tool<S>, sys: System<S>, id: nat)
    requires id in sys.processes
    ensures var p := Looked(tool, sys.chain, sys.processes[id]);
      Run(tool, sys, Round(id)) == Decided(tool, sys.(processes := sys.processes[id := p]), id, p)
  {
    RunFour(tool, sys, ReadNext(id), ReadEvidence(id), ReadActivated(id), Decide(id));
    var p := sys.processes[id];
    var p1 := p.(next := Some(tool.next(sys.chain)));
    var p2 := p1.(evidence := Some(tool.evidence(sys.chain)));
    var p3 := p2.(activated := Some(tool.activated(sys.chain)));
    var s1, s2, s3 := sys.processes[id := p1], sys.processes[id := p1][id := p2],
        sys.processes[id := p1][id := p2][id := p3];
    assert Next(tool, sys, ReadNext(id)).processes == s1 && s2 == sys.processes[id := p2];
    assert s3 == sys.processes[id := p3];
  }

  /** The process stands at transaction `i`, which it has not sent, on a chain with `k` effects. */
  ghost predicate StandsAt<S>(reached: (S, nat) -> bool, sys: System<S>, id: nat, i: nat, sent: bool) {
    && reached(sys.chain, |sys.effects|) && id in sys.processes
    && sys.processes[id].index == i && sys.processes[id].sent == sent
  }

  /** What has landed is passed. */
  lemma {:induction false} PassApplied<S(!new)>(tool: Tool<S>, reached: (S, nat) -> bool, sys: System<S>, id: nat,
      i: nat, sent: bool)
    requires Exact(tool, reached) && StandsAt(reached, sys, id, i, sent) && i < |sys.effects| && i < |tool.entries|
    ensures var after := Run(tool, sys, Round(id));
      StandsAt(reached, after, id, i + 1, false) && after.effects == sys.effects
  {
    RoundIs(tool, sys, id);
  }

  /** What is pending is sent, lands when it arrives, and is then passed. */
  function Push<S>(id: nat, i: nat): seq<Event<S>> { Round(id) + [Arrive(i)] + Round(id) }

  lemma {:induction false} SendPending<S(!new)>(tool: Tool<S>, reached: (S, nat) -> bool, sys: System<S>, id: nat,
      i: nat)
    requires Exact(tool, reached) && StandsAt(reached, sys, id, i, false) && i == |sys.effects| < |tool.entries|
    ensures var after := Run(tool, sys, Round(id));
      StandsAt(reached, after, id, i, true) && after.effects == sys.effects && InFlight(after.sends, i)
  {
    RoundIs(tool, sys, id);
    var after := Run(tool, sys, Round(id));
    assert after.sends[|sys.sends|].index == i;
  }

  lemma {:induction false} PushPending<S(!new)>(tool: Tool<S>, reached: (S, nat) -> bool, sys: System<S>, id: nat,
      i: nat)
    requires Ladder(tool.exec, tool.entries, reached) && Exact(tool, reached)
    requires StandsAt(reached, sys, id, i, false) && i == |sys.effects| < |tool.entries|
    ensures var after := Run(tool, sys, Push(id, i));
      StandsAt(reached, after, id, i + 1, false) && after.effects == sys.effects + [i]
  {
    var sent := Run(tool, sys, Round(id));
    SendPending(tool, reached, sys, id, i);
    var landed := Next(tool, sent, Arrive(i));
    assert StandsAt(reached, landed, id, i, true) && landed.effects == sys.effects + [i];
    PassApplied(tool, reached, landed, id, i, true);
    RunAppend(tool, sys, Round(id) + [Arrive(i)], Round(id));
    RunAppend(tool, sys, Round(id), [Arrive(i)]);
    RunOne(tool, sent, Arrive(i));
  }

  /** From transaction `i` to the end. */
  lemma {:induction false} Finishes<S(!new)>(tool: Tool<S>, reached: (S, nat) -> bool, sys: System<S>, id: nat,
      i: nat) returns (events: seq<Event<S>>)
    requires Ladder(tool.exec, tool.entries, reached) && Exact(tool, reached)
    requires StandsAt(reached, sys, id, i, false) && i <= |sys.effects| <= |tool.entries|
    ensures Alone(events) && StandsAt(reached, Run(tool, sys, events), id, |tool.entries|, false)
    ensures |Run(tool, sys, events).effects| == |tool.entries|
    decreases |tool.entries| - i
  {
    if i == |tool.entries| { return []; }
    var first := if i < |sys.effects| then Round(id) else Push(id, i);
    if i < |sys.effects| {
      PassApplied(tool, reached, sys, id, i, false);
    } else {
      PushPending(tool, reached, sys, id, i);
    }
    var rest := Finishes(tool, reached, Run(tool, sys, first), id, i + 1);
    events := first + rest;
    RunAppend(tool, sys, first, rest);
  }

  /** The bootstrap can still be completed: there are starts, reads, decisions and arrivals after
      which everything has landed and a process is through. */
  ghost predicate Completable<S(!new)>(tool: Tool<S>, finished: S -> bool, sys: System<S>) {
    exists events: seq<Event<S>> :: Alone(events) && Completes(tool, finished, Run(tool, sys, events))
  }

  ghost predicate Completes<S>(tool: Tool<S>, finished: S -> bool, sys: System<S>) {
    && |sys.effects| == |tool.entries| && finished(sys.chain)
    && exists id :: id in sys.processes && sys.processes[id].index == |tool.entries|
  }

  lemma {:induction false} SafeCompletable<S(!new)>(tool: Tool<S>, reached: (S, nat) -> bool, finished: S -> bool,
      sys: System<S>)
    requires Ladder(tool.exec, tool.entries, reached) && Exact(tool, reached) && Safe(tool, reached, sys)
    requires forall s, k: nat :: reached(s, k) ==> k <= |tool.entries| && (k == |tool.entries| ==> finished(s))
    ensures Completable(tool, finished, sys)
  {
    var begun := Next(tool, sys, Start(0));
    var rest := Finishes(tool, reached, begun, 0, 0);
    var events := [Start(0)] + rest;
    RunOne(tool, sys, Start(0));
    RunAppend(tool, sys, [Start(0)], rest);
    assert Completes(tool, finished, Run(tool, sys, events));
  }

  // ------------------------------------------------------ the real coordinator

  ghost function Bootstrap(sc: Script, entries: seq<Entry>): Tool<State> {
    Tool(Chain(sc).exec, entries,
         (s: State) => s.next, (s: State) => s.evidence, (s: State) => s.activated,
         (i: nat, n: nat, e: Hash, a: bool, s: State) =>
           if i < |entries| then TransactionApplied(sc.modules, sc.evidence, entries[i], n, e, a, RecordsOf(s))
           else Mismatch)
  }

  /** The tool on the manifest of the script. */
  ghost function Demo(sc: Script): Tool<State> { Bootstrap(sc, AllEntries(sc.modules, sc.evidence)) }

  lemma {:induction false} NextSeen(sc: Script, n: nat, low: nat, high: nat) returns (k: nat)
    requires sc.Ready() && Seen(ReachedIn(sc), Demo(sc).next, n, low, high)
    ensures low <= k <= high && ShowsNext(sc.modules, n, k)
  {
    var s: State;
    s, k :| ReachedIn(sc)(s, k) && low <= k <= high && Demo(sc).next(s) == n;
    ReachedShows(sc, s, k);
  }

  lemma {:induction false} EvidenceSeen(sc: Script, e: Hash, low: nat, high: nat) returns (k: nat)
    requires sc.Ready() && Seen(ReachedIn(sc), Demo(sc).evidence, e, low, high)
    ensures low <= k <= high && ShowsEvidence(sc.modules, sc.evidence, e, k)
  {
    var s: State;
    s, k :| ReachedIn(sc)(s, k) && low <= k <= high && Demo(sc).evidence(s) == e;
    ReachedShows(sc, s, k);
  }

  lemma {:induction false} ActivatedSeen(sc: Script, a: bool, low: nat, high: nat) returns (k: nat)
    requires sc.Ready() && Seen(ReachedIn(sc), Demo(sc).activated, a, low, high)
    ensures low <= k <= high && ShowsActivated(sc.modules, a, k)
  {
    var s: State;
    s, k :| ReachedIn(sc)(s, k) && low <= k <= high && Demo(sc).activated(s) == a;
    ReachedShows(sc, s, k);
  }

  lemma {:induction false} TellsRight(sc: Script, i: nat, k: nat, n: nat, e: Hash, a: bool, s: State)
    requires sc.Ready() && NoImports(sc.modules) && i < |AllEntries(sc.modules, sc.evidence)| && i <= k
    requires ReachedIn(sc)(s, k)
    ensures Tells(Demo(sc), ReachedIn(sc), i, k, n, e, a, Conclusion(sc, i, n, e, a, s))
  {
    var tool, reached := Demo(sc), ReachedIn(sc);
    if Seen(reached, tool.next, n, i, k) && Seen(reached, tool.evidence, e, i, k) &&
       Seen(reached, tool.activated, a, i, k) {
      var k1 := NextSeen(sc, n, i, k);
      var k2 := EvidenceSeen(sc, e, i, k);
      var k3 := ActivatedSeen(sc, a, i, k);
      ReachedShows(sc, s, k);
      ReadyOrders(sc);
      Concludes(sc.modules, sc.evidence, i, i, n, k1, e, k2, a, k3, RecordsOf(s), k);
    }
  }

  lemma {:induction false} BootstrapTells(sc: Script)
    requires sc.Ready() && NoImports(sc.modules)
    ensures Telling(Demo(sc), ReachedIn(sc))
  {
    var tool, reached := Demo(sc), ReachedIn(sc);
    forall i: nat, k: nat, n, e, a, s | i < |tool.entries| && i <= k && reached(s, k)
      ensures Tells(tool, reached, i, k, n, e, a, tool.verdict(i, n, e, a, s))
    {
      TellsRight(sc, i, k, n, e, a, s);
    }
  }

  lemma {:induction false} BootstrapExact(sc: Script)
    requires sc.Ready() && NoImports(sc.modules)
    ensures Exact(Demo(sc), ReachedIn(sc))
  {
    var tool, reached := Demo(sc), ReachedIn(sc);
    forall s, k: nat, i: nat | reached(s, k) && i <= k && i < |tool.entries|
      ensures tool.verdict(i, tool.next(s), tool.evidence(s), tool.activated(s), s) ==
        if i < k then Applied else Pending
    {
      AppliedExactly(sc, s, k, i);
    }
  }

  lemma {:induction false} ReachedBound(sc: Script, s: State, k: nat)
    requires ReachedIn(sc)(s, k)
    ensures k <= |AllEntries(sc.modules, sc.evidence)|
  {
    var m: nat, r: nat :|
      Place(sc.modules, m, r) && k == Offset(sc.modules, m) + r && Chain(sc).at(s, PositionIn(sc.modules, m, r));
    OffsetIsLength(sc.modules, sc.evidence, |sc.modules|);
    if m < |sc.modules| { OffsetGrows(sc.modules, m, |sc.modules|); }
  }

  ghost function Finishing(sc: Script): State -> bool { (s: State) => Finished(sc, s) }

  lemma {:induction false} StartSafe(sc: Script)
    requires sc.Ready()
    ensures Safe(Demo(sc), ReachedIn(sc), Idle(Initial()))
  {
    StartReached(sc);
  }

  lemma {:induction false} EndFinishes(sc: Script)
    requires sc.Ready()
    ensures var reached, n := ReachedIn(sc), |AllEntries(sc.modules, sc.evidence)|;
      forall s, k: nat :: reached(s, k) ==> k <= n && (k == n ==> Finishing(sc)(s))
  {
    var reached, n := ReachedIn(sc), |AllEntries(sc.modules, sc.evidence)|;
    forall s, k: nat | reached(s, k) ensures k <= n && (k == n ==> Finishing(sc)(s)) {
      ReachedBound(sc, s, k);
      if k == n { EndIsFinished(sc, s); }
    }
  }

  lemma {:induction false} ScriptRuns(sc: Script, events: seq<Event<State>>)
    requires sc.Ready() && sc.Agreeable() && NoImports(sc.modules) && Alone(events)
    ensures var sys := Run(Demo(sc), Idle(Initial()), events);
      Outcome(Demo(sc), ReachedIn(sc), Finishing(sc), sys) && Completable(Demo(sc), Finishing(sc), sys)
  {
    ManifestLadder(sc);
    BootstrapTells(sc);
    BootstrapExact(sc);
    StartSafe(sc);
    EndFinishes(sc);
    var reached, finished := ReachedIn(sc), Finishing(sc);
    RunOutcome(Demo(sc), reached, finished, Idle(Initial()), events);
    RunSafe(Demo(sc), reached, Idle(Initial()), events);
    SafeCompletable(Demo(sc), reached, finished, Run(Demo(sc), Idle(Initial()), events));
  }

  /** The tool on the manifest built from an accepted plan without records: however its processes
      crash, restart and overlap, and whenever their transactions land, the bootstrap stays in
      order; a process that gets through leaves the suite activated with every module finalized
      and the plan's evidence; and from wherever it stands, it can still be completed. */
  lemma {:induction false} RunsAreSafe<R>(suite: Suite<R>, plan: Plan, w: World, events: seq<Event<State>>)
    requires suite.Shaped() && PlanValid(suite, plan) && Targets(suite, plan, w) && NoImports(plan.modules)
    requires (forall m :: 0 <= m < |plan.modules| ==> plan.modules[m].expectedRoot != Zero()) && Alone(events)
    ensures BuildManifest(suite, plan).Some?
    ensures var sc := Script(w, plan.modules, plan.evidence);
      var tool := Bootstrap(sc, EntriesOf(BuildManifest(suite, plan).value));
      var sys := Run(tool, Idle(Initial()), events);
      Outcome(tool, ReachedIn(sc), Finishing(sc), sys) && Completable(tool, Finishing(sc), sys)
  {
    var sc := Script(w, plan.modules, plan.evidence);
    TargetsBuild(suite, plan, w);
    AcceptedPlanReady(suite, plan, w);
    AgreeableIs(sc);
    ScriptRuns(sc, events);
  }
}
