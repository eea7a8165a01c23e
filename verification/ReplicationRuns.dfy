/** Every run of the replication service, restarts included. */
module ReplicationRuns {
  import opened Digits
  import opened RateLimit
  import opened StateFile
  import opened Replication

  datatype Charged = Charged(key: string, size: int, nanos: int)

  /** What has happened: quota admissions, tickets signed, tickets recorded, in order. */
  datatype System = System(state: State, admitted: seq<Charged>, issued: seq<Claims>, recorded: seq<Claims>)

  /** Signed tokens cannot be forged, so a request either shows an issued ticket or no token
      that verifies. */
  datatype Event =
    | Authorize(subject: Option<string>, req: Request, clock: Clock, jti: string)
    | Present(token: Option<Claims>, request: Request, now: nat, outside: Outside)
    | Restart

  function Start(): System { System(State(map[], map[], "", {}), [], [], []) }

  predicate Admits(l: Limits, s: State, subject: Option<string>, req: Request, clock: Clock) {
    subject.Some? && BindingValid(l, req) &&
    Charge(l, s.windows, Key(subject.value, req.owner, req.repo), clock.nanos, req.size).Some?
  }

  function AfterIssue(l: Limits, sys: System, subject: Option<string>, req: Request, clock: Clock,
      jti: string): System {
    var (state, _, ticket) := Issue(l, sys.state, subject, req, clock, jti);
    System(state,
      sys.admitted + (if Admits(l, sys.state, subject, req,
        clock) then [Charged(Key(subject.value, req.owner, req.repo), req.size, clock.nanos)] else []),
      sys.issued + (if ticket.Some? then [ticket.value] else []), sys.recorded)
  }

  function AfterPresent(l: Limits, sys: System, token: Option<Claims>, req: Request, now: nat, o: Outside): System {
    var (state, status) := Replicate(l, sys.state, token, req, now, o);
    sys.(state := state, recorded := sys.recorded + if status == Created && token.Some? then [token.value] else [])
  }

  function Next(l: Limits, sys: System, e: Event): System {
    match e
    case Authorize(subject, req, clock, jti) => AfterIssue(l, sys, subject, req, clock, jti)
    case Present(token, req, now, o) => AfterPresent(l, sys, token, req, now, o)
    case Restart => sys.(state := Restarted(sys.state))
  }

  function Run(l: Limits, sys: System, events: seq<Event>): System {
    if events == [] then sys else Next(l, Run(l, sys, events[..|events| - 1]), events[|events| - 1])
  }

  // -------------------------------------------------- what a write must keep

  predicate NewTicket(issued: seq<Claims>, jti: string) { forall i :: 0 <= i < |issued| ==> issued[i].jti != jti }

  /** Ticket ids are fresh, and signed tokens cannot be forged. */
  predicate Possible(sys: System, e: Event) {
    match e
    case Authorize(_, _, _, jti) => NewTicket(sys.issued, jti)
    case Present(token, _, _, _) => token.Some? ==> token.value in sys.issued
    case Restart => true
  }

  /** The request gets as far as the state file. */
  predicate Writes(l: Limits, s: State, token: Option<Claims>, req: Request, now: nat, o: Outside) {
    token.Some? && Authorizes(l, token.value, req, now) && token.value.jti !in s.used && o.pinned && Verified(req, o)
  }

  /** What is then appended to it: the record, or whatever a failed write leaves. */
  function Appended(l: Limits, s: State, token: Option<Claims>, req: Request, now: nat, o: Outside): string {
    if !Writes(l, s, token, req, now, o) then ""
    else if o.written then Line(EntryOf(token.value, req)) + [NEWLINE] else o.leftover
  }

  ghost predicate IssuedAs(issued: seq<Claims>, jti: string, cid: string) {
    exists i :: 0 <= i < |issued| && issued[i].jti == jti && issued[i].cid == cid
  }

  /** The lines name only issued tickets, each with its own CID. */
  ghost predicate Honest(issued: seq<Claims>, lines: seq<string>) {
    forall k :: LastSaying(lines, k).Some? ==> IssuedAs(issued, k, LastSaying(lines, k).value)
  }

  /** The condition on the text of one event: the lines a write completes say only what memory
      then knows, and name the ticket just recorded; an unfinished line that a restart will read
      names only an issued ticket. */
  ghost predicate Careful(l: Limits, sys: System, e: Event) {
    match e
    case Authorize(_, _, _, _) => true
    case Present(token, req, now, o) =>
      var (after, status) := Replicate(l, sys.state, token, req, now, o);
      var lines := Completes(Rest(sys.state.file), Appended(l, sys.state, token, req, now, o));
      Agrees(after.used, lines) && (status == Created && token.Some? ==> LastSaying(lines, token.value.jti).Some?)
    case Restart => Honest(sys.issued, [Rest(sys.state.file)])
  }

  ghost predicate CarefulRun(l: Limits, sys: System, events: seq<Event>) {
    events == [] ||
    var n := |events| - 1;
    var before := Run(l, sys, events[..n]);
    CarefulRun(l, sys, events[..n]) && Possible(before, events[n]) && Careful(l, before, events[n])
  }

  // ------------------------------------------------------------ conservation

  function ClaimKey(c: Claims): string { Key(c.subject, c.owner, c.repo) }

  function Weight(c: Claims, key: string): int { if ClaimKey(c) == key then c.size else 0 }

  function TicketBytes(s: seq<Claims>, key: string): int {
    if s == [] then 0 else TicketBytes(s[..|s| - 1], key) + Weight(s[|s| - 1], key)
  }

  function AdmittedBytes(s: seq<Charged>, key: string): int {
    if s == [] then 0 else AdmittedBytes(s[..|s| - 1], key) + if s[|s| - 1].key == key then s[|s| - 1].size else 0
  }

  predicate Distinct(s: seq<Claims>) { forall i, j :: 0 <= i < j < |s| ==> s[i].jti != s[j].jti }

  predicate Positive(s: seq<Claims>) { forall i :: 0 <= i < |s| ==> s[i].size > 0 }

  lemma {:induction false} TicketNext(s: seq<Claims>, c: Claims, key: string)
    ensures TicketBytes(s + [c], key) == TicketBytes(s, key) + Weight(c, key)
  {
    assert (s + [c])[..|s|] == s;
  }

  lemma {:induction false} AdmittedNext(s: seq<Charged>, c: Charged, key: string)
    ensures AdmittedBytes(s + [c], key) == AdmittedBytes(s, key) + if c.key == key then c.size else 0
  {
    assert (s + [c])[..|s|] == s;
  }

  lemma {:induction false} TicketSplit(a: seq<Claims>, c: Claims, b: seq<Claims>, key: string)
    ensures TicketBytes(a + [c] + b, key) == TicketBytes(a + b, key) + Weight(c, key)
    decreases |b|
  {
    if b == [] {
      assert a + [c] + b == a + [c] && a + b == a;
      TicketNext(a, c, key);
    } else {
      var n := |b| - 1;
      TicketSplit(a, c, b[..n], key);
      assert a + [c] + b == (a + [c] + b[..n]) + [b[n]] && a + b == (a + b[..n]) + [b[n]];
      TicketNext(a + [c] + b[..n], b[n], key);
      TicketNext(a + b[..n], b[n], key);
    }
  }

  lemma {:induction false} TicketsPositive(s: seq<Claims>, key: string)
    requires Positive(s)
    ensures TicketBytes(s, key) >= 0
  {
    if s != [] { TicketsPositive(s[..|s| - 1], key); }
  }

  /** Tickets picked out of a list, none twice, weigh no more than the list. */
  lemma {:induction false} InRest(x: Claims, a: seq<Claims>, c: Claims, b: seq<Claims>)
    requires x in a + [c] + b && x != c
    ensures x in a + b
  {
  }

  lemma {:induction false} SubsetWeighsLess(part: seq<Claims>, all: seq<Claims>, key: string)
    requires Distinct(part) && Positive(all) && forall i :: 0 <= i < |part| ==> part[i] in all
    ensures TicketBytes(part, key) <= TicketBytes(all, key)
    decreases |part|
  {
    TicketsPositive(all, key);
    if part != [] {
      var n := |part| - 1;
      var c := part[n];
      var k :| 0 <= k < |all| && all[k] == c;
      var a, b := all[..k], all[k + 1..];
      assert all == a + [c] + b;
      TicketSplit(a, c, b, key);
      forall i | 0 <= i < n ensures part[..n][i] in a + b {
        assert part[..n][i] == part[i] && part[i].jti != c.jti;
        InRest(part[i], a, c, b);
      }
      SubsetWeighsLess(part[..n], a + b, key);
    }
  }

  // ------------------------------------------------------------ the invariant

  /** Every known ticket is an issued one, with the CID it was issued for. */
  ghost predicate OnlyIssued(used: Used, issued: seq<Claims>) { forall j :: j in used ==> IssuedAs(issued, j, used[j]) }

  ghost predicate KnowsAll(used: Used, recorded: seq<Claims>) {
    forall i :: 0 <= i < |recorded| ==> recorded[i].jti in used && used[recorded[i].jti] == recorded[i].cid
  }

  ghost predicate Within(part: Used, used: Used) { forall j :: j in part ==> j in used && used[j] == part[j] }

  ghost predicate TicketsOk(issued: seq<Claims>) { Distinct(issued) && Positive(issued) }

  ghost predicate RecordsOk(recorded: seq<Claims>, issued: seq<Claims>) {
    Distinct(recorded) && forall i :: 0 <= i < |recorded| ==> recorded[i] in issued
  }

  ghost predicate Conserves(issued: seq<Claims>, admitted: seq<Charged>) {
    forall key :: TicketBytes(issued, key) <= AdmittedBytes(admitted, key)
  }

  /** The complete lines of the file hold every recorded ticket and nothing memory does not know. */
  ghost predicate Durable(s: State, issued: seq<Claims>, recorded: seq<Claims>) {
    OnlyIssued(s.used, issued) && Within(Settled(s.file), s.used) && KnowsAll(Settled(s.file), recorded)
  }

  ghost predicate Sound(sys: System) {
    && TicketsOk(sys.issued) && RecordsOk(sys.recorded, sys.issued) && Conserves(sys.issued, sys.admitted)
    && Durable(sys.state, sys.issued, sys.recorded)
  }

  lemma {:induction false} StartSound()
    ensures Sound(Start())
  {
    SplitPlain("", NEWLINE);
    assert [""][..0] == [];
  }

  lemma {:induction false} ChargedConserves(issued: seq<Claims>, admitted: seq<Charged>, c: Charged)
    requires Conserves(issued, admitted) && c.size > 0
    ensures Conserves(issued, admitted + [c])
  {
    forall key
      ensures TicketBytes(issued, key) <= AdmittedBytes(admitted + [c], key)
    {
      AdmittedNext(admitted, c, key);
    }
  }

  lemma {:induction false} IssuedConserves(issued: seq<Claims>, admitted: seq<Charged>, t: Claims, nanos: int)
    requires Conserves(issued, admitted)
    ensures Conserves(issued + [t], admitted + [Charged(ClaimKey(t), t.size, nanos)])
  {
    forall key
      ensures TicketBytes(issued + [t], key) <= AdmittedBytes(admitted + [Charged(ClaimKey(t), t.size, nanos)], key)
    {
      AdmittedNext(admitted, Charged(ClaimKey(t), t.size, nanos), key);
      TicketNext(issued, t, key);
    }
  }

  lemma {:induction false} OnlyIssuedGrows(used: Used, issued: seq<Claims>, t: Claims)
    requires OnlyIssued(used, issued)
    ensures OnlyIssued(used, issued + [t])
  {
    forall j | j in used ensures IssuedAs(issued + [t], j, used[j]) {
      var i :| 0 <= i < |issued| && issued[i].jti == j && issued[i].cid == used[j];
      assert (issued + [t])[i] == issued[i];
    }
  }

  lemma {:induction false} IssueKeeps(l: Limits, sys: System, subject: Option<string>, req: Request, clock: Clock,
      jti: string)
    requires Sound(sys) && NewTicket(sys.issued, jti)
    ensures Sound(AfterIssue(l, sys, subject, req, clock, jti))
  {
    if Admits(l, sys.state, subject, req, clock) {
      var expires := Expiry(req, clock.seconds);
      if expires <= clock.later {
        ChargedConserves(sys.issued, sys.admitted,
            Charged(Key(subject.value, req.owner, req.repo), req.size, clock.nanos));
        assert sys.issued + [] == sys.issued;
      } else {
        var t := Ticket(subject.value, req, expires, jti);
        IssuedConserves(sys.issued, sys.admitted, t, clock.nanos);
        OnlyIssuedGrows(sys.state.used, sys.issued, t);
        assert TicketsOk(sys.issued + [t]);
        assert RecordsOk(sys.recorded, sys.issued + [t]);
      }
    } else {
      assert sys.issued + [] == sys.issued && sys.admitted + [] == sys.admitted;
    }
  }

  lemma {:induction false} PresentEffect(l: Limits, s: State, token: Option<Claims>, req: Request, now: nat, o: Outside)
    ensures var (after, status) := Replicate(l, s, token, req, now, o);
      && after.file == s.file + Appended(l, s, token, req, now, o)
      && (status == Created <==> Writes(l, s, token, req, now, o) && o.written)
      && after.used == if status == Created then s.used[token.value.jti := token.value.cid] else s.used
  {
    assert s.file + "" == s.file;
  }

  lemma {:induction false} SameTicket(issued: seq<Claims>, c: Claims, cid: string)
    requires Distinct(issued) && c in issued && IssuedAs(issued, c.jti, cid)
    ensures cid == c.cid
  {
    var i :| 0 <= i < |issued| && issued[i].jti == c.jti && issued[i].cid == cid;
    var j :| 0 <= j < |issued| && issued[j] == c;
    assert !(i < j) && !(j < i);
  }

  /** Completed lines leave the file within memory exactly when they agree with memory. */
  lemma {:induction false} WithinIff(settled: Used, used: Used, after: Used, lines: seq<string>)
    requires Within(settled, used) && Within(used, after)
    ensures Within(ReadLines(settled, lines), after) <==> Agrees(after, lines)
  {
    var read := ReadLines(settled, lines);
    forall k ensures LastSaying(lines, k).Some? ==> k in read && read[k] == LastSaying(lines, k).value
             ensures LastSaying(lines, k).None? ==>
               (k in read <==> k in settled) && (k in settled ==> read[k] == settled[k])
    {
      ReadLinesIs(settled, lines, k);
    }
  }

  /** Earlier records stay readable. */
  lemma {:induction false} StillKnown(settled: Used, lines: seq<string>, recorded: seq<Claims>, after: Used)
    requires KnowsAll(settled, recorded) && Within(settled, after) && Within(ReadLines(settled, lines), after)
    ensures KnowsAll(ReadLines(settled, lines), recorded)
  {
    forall i | 0 <= i < |recorded|
      ensures var read := ReadLines(settled, lines); recorded[i].jti in read && read[recorded[i].jti] == recorded[i].cid
    {
      ReadLinesIs(settled, lines, recorded[i].jti);
    }
  }

  lemma {:induction false} RecordNext(settled: Used, lines: seq<string>, recorded: seq<Claims>, after: Used, c: Claims)
    requires KnowsAll(settled, recorded) && Within(settled, after) && Within(ReadLines(settled, lines), after)
    requires c.jti !in settled && c.jti in after && after[c.jti] == c.cid
    ensures KnowsAll(ReadLines(settled, lines), recorded + [c]) <==> LastSaying(lines, c.jti).Some?
  {
    StillKnown(settled, lines, recorded, after);
    ReadLinesIs(settled, lines, c.jti);
    assert (recorded + [c])[|recorded|] == c;
  }

  lemma {:induction false} DistinctNext(used: Used, recorded: seq<Claims>, c: Claims)
    requires Distinct(recorded) && KnowsAll(used, recorded) && c.jti !in used
    ensures Distinct(recorded + [c])
  {
    forall i | 0 <= i < |recorded| ensures recorded[i].jti != c.jti { assert recorded[i].jti in used; }
  }

  lemma {:induction false} OnlyIssuedNext(used: Used, issued: seq<Claims>, c: Claims)
    requires OnlyIssued(used, issued) && c in issued
    ensures OnlyIssued(used[c.jti := c.cid], issued)
  {
    var i :| 0 <= i < |issued| && issued[i] == c;
    assert IssuedAs(issued, c.jti, c.cid);
  }

  /** Presenting a ticket keeps the state durable exactly when its write is careful. */
  lemma {:induction false} PresentDurable(sys: System, token: Option<Claims>, after: State, text: string, created: bool)
    requires Sound(sys) && (created ==> token.Some? && token.value in sys.issued && token.value.jti !in sys.state.used)
    requires after.file == sys.state.file + text
    requires after.used == if created then sys.state.used[token.value.jti := token.value.cid] else sys.state.used
    ensures var lines := Completes(Rest(sys.state.file), text);
      Durable(after, sys.issued, sys.recorded + if created then [token.value] else []) <==>
      Agrees(after.used, lines) && (created ==> LastSaying(lines, token.value.jti).Some?)
  {
    var lines, settled := Completes(Rest(sys.state.file), text), Settled(sys.state.file);
    AppendText(sys.state.file, text);
    assert Within(sys.state.used, after.used);
    WithinIff(settled, sys.state.used, after.used, lines);
    if Agrees(after.used, lines) {
      if created {
        OnlyIssuedNext(sys.state.used, sys.issued, token.value);
        RecordNext(settled, lines, sys.recorded, after.used, token.value);
      } else {
        StillKnown(settled, lines, sys.recorded, after.used);
        assert sys.recorded + [] == sys.recorded;
      }
    }
  }

  lemma {:induction false} PresentKeepsIff(l: Limits, sys: System, token: Option<Claims>, req: Request, now: nat,
      o: Outside)
    requires Sound(sys) && (token.Some? ==> token.value in sys.issued)
    ensures Sound(AfterPresent(l, sys, token, req, now, o)) <==> Careful(l, sys, Present(token, req, now, o))
  {
    var (after, status) := Replicate(l, sys.state, token, req, now, o);
    PresentEffect(l, sys.state, token, req, now, o);
    PresentDurable(sys, token, after, Appended(l, sys.state, token, req, now, o), status == Created);
    if status == Created {
      DistinctNext(Settled(sys.state.file), sys.recorded, token.value);
      assert RecordsOk(sys.recorded + [token.value], sys.issued);
    } else {
      assert sys.recorded + [] == sys.recorded;
    }
  }

  lemma {:induction false} RestartKeepsIff(sys: System)
    requires Sound(sys)
    ensures Sound(sys.(state := Restarted(sys.state))) <==> Honest(sys.issued, [Rest(sys.state.file)])
  {
    var settled, rest, used := Settled(sys.state.file), Rest(sys.state.file), Load(sys.state.file);
    LoadIs(sys.state.file);
    ReadOne(settled, rest);
    forall k ensures LastSaying([rest], k).Some? ==> k in used && used[k] == LastSaying([rest], k).value
             ensures LastSaying([rest], k).None? ==>
               (k in used <==> k in settled) && (k in settled ==> used[k] == settled[k])
    {
      ReadLinesIs(settled, [rest], k);
    }
    if Honest(sys.issued, [rest]) {
      forall j | j in used ensures IssuedAs(sys.issued, j, used[j]) {
        if LastSaying([rest], j).None? { assert sys.state.used[j] == settled[j]; }
      }
      forall j | j in settled ensures j in used && used[j] == settled[j] {
        assert IssuedAs(sys.issued, j, sys.state.used[j]) && IssuedAs(sys.issued, j, used[j]);
        OneCid(sys.issued, j, settled[j], used[j]);
      }
    }
  }

  lemma {:induction false} OneCid(issued: seq<Claims>, jti: string, a: string, b: string)
    requires Distinct(issued) && IssuedAs(issued, jti, a) && IssuedAs(issued, jti, b)
    ensures a == b
  {
    var i :| 0 <= i < |issued| && issued[i].jti == jti && issued[i].cid == a;
    SameTicket(issued, issued[i], b);
  }

  /** Every possible event keeps the invariant if and only if it is careful. */
  lemma {:induction false} NextKeepsIff(l: Limits, sys: System, e: Event)
    requires Sound(sys) && Possible(sys, e)
    ensures Sound(Next(l, sys, e)) <==> Careful(l, sys, e)
  {
    match e
    case Authorize(subject, req, clock, jti) => IssueKeeps(l, sys, subject, req, clock, jti);
    case Present(token, req, now, o) => PresentKeepsIff(l, sys, token, req, now, o);
    case Restart => RestartKeepsIff(sys);
  }

  lemma {:induction false} RunKeeps(l: Limits, events: seq<Event>)
    requires CarefulRun(l, Start(), events)
    ensures Sound(Run(l, Start(), events))
  {
    StartSound();
    if events != [] {
      var n := |events| - 1;
      RunKeeps(l, events[..n]);
      NextKeepsIff(l, Run(l, Start(), events[..n]), events[n]);
    }
  }

  // -------------------------------------------------- careful in plain terms

  lemma {:induction false} OneLineSays(line: string, used: Used, jti: string, cid: string)
    requires |Split(line, TAB)| >= 2
    ensures var p := Split(line, TAB);
      Agrees(used[jti := cid], [line]) && LastSaying([line], jti).Some? <==> p[0] == jti && p[1] == cid
  {
    var p := Split(line, TAB);
    forall k ensures LastSaying([line], k) == if p[0] == k then Some(p[1]) else None { SaysOnly(line, k); }
  }

  lemma {:induction false} OneLineCompleted(rest: string, e: Entry)
    requires Unbroken(rest) && Clean(e)
    ensures Completes(rest, Line(e) + [NEWLINE]) == [rest + Line(e)]
  {
    CompletesLine(rest, Line(e));
    TailUnbroken(e);
    SplitPlain(rest + Line(e), NEWLINE);
  }

  /** For a clean ticket, a careful write is one after a readable unfinished line. */
  lemma {:induction false} CarefulIffReadable(l: Limits, sys: System, c: Claims, req: Request, now: nat, o: Outside)
    requires Writes(l, sys.state, Some(c), req, now, o) && o.written && Clean(EntryOf(c, req))
    ensures Careful(l, sys, Present(Some(c), req, now, o)) <==> Readable(Rest(sys.state.file), EntryOf(c, req))
  {
    var e, rest := EntryOf(c, req), Rest(sys.state.file);
    PresentEffect(l, sys.state, Some(c), req, now, o);
    LoadIs(sys.state.file);
    OneLineCompleted(rest, e);
    TornReads(rest, e);
    OneLineSays(rest + Line(e), sys.state.used, c.jti, c.cid);
  }

  /** A write that fails without completing a line is always careful. */
  lemma {:induction false} UnfinishedIsCareful(l: Limits, sys: System, token: Option<Claims>, req: Request, now: nat,
      o: Outside)
    requires !o.written && Unbroken(o.leftover)
    ensures Careful(l, sys, Present(token, req, now, o))
  {
    var text := Appended(l, sys.state, token, req, now, o);
    PresentEffect(l, sys.state, token, req, now, o);
    LoadIs(sys.state.file);
    SplitPlain(Rest(sys.state.file) + text, NEWLINE);
    assert [Rest(sys.state.file) + text][..0] == [];
  }

  // ------------------------------------------------------------ the promises

  /** Over every careful run, restarts included: what is recorded for a key never exceeds what
      the quota admitted for it, no ticket is recorded twice, and each as it was issued. */
  lemma {:induction false} RecordedWithinQuota(l: Limits, events: seq<Event>, key: string)
    requires CarefulRun(l, Start(), events)
    ensures var sys := Run(l, Start(), events);
      TicketBytes(sys.recorded, key) <= AdmittedBytes(sys.admitted, key) && RecordsOk(sys.recorded, sys.issued)
  {
    RunKeeps(l, events);
    var sys := Run(l, Start(), events);
    SubsetWeighsLess(sys.recorded, sys.issued, key);
  }

  /** A recorded ticket, presented again with its own binding, gets the idempotent answer and
      changes nothing; after a restart it does so if and only if the unfinished last line of the
      file does not give it another CID. */
  lemma {:induction false} RetryIsIdempotent(l: Limits, events: seq<Event>, c: Claims, req: Request, now: nat,
      o: Outside)
    requires CarefulRun(l, Start(), events) && c in Run(l, Start(), events).recorded && Authorizes(l, c, req, now)
    ensures var s := Run(l, Start(), events).state;
      && Replicate(l, s, Some(c), req, now, o) == (s, Idempotent)
      && (Replicate(l, Restarted(s), Some(c), req, now, o) == (Restarted(s), Idempotent) <==>
          LastSaying([Rest(s.file)], c.jti) in {None, Some(c.cid)})
  {
    RunKeeps(l, events);
    var sys := Run(l, Start(), events);
    LoadIs(sys.state.file);
    ReadOne(Settled(sys.state.file), Rest(sys.state.file));
    ReadLinesIs(Settled(sys.state.file), [Rest(sys.state.file)], c.jti);
  }

  /** The conflict answer is never given to an issued ticket. */
  lemma {:induction false} NeverConflict(l: Limits, events: seq<Event>, c: Claims, req: Request, now: nat, o: Outside)
    requires CarefulRun(l, Start(), events) && c in Run(l, Start(), events).issued
    ensures Replicate(l, Run(l, Start(), events).state, Some(c), req, now, o).1 != Conflict
  {
    RunKeeps(l, events);
    var sys := Run(l, Start(), events);
    if c.jti in sys.state.used { SameTicket(sys.issued, c, sys.state.used[c.jti]); }
  }

  // ------------------------------------------------------------ torn writes

  /** A failed write of a clean ticket at a line boundary, and then a restart: the same ticket
      is answered with a conflict if and only if the write stopped inside its CID, and as
      already recorded if and only if it got past it. */
  lemma {:induction false} TornThenRestart(l: Limits, s: State, c: Claims, req: Request, now: nat, o: Outside,
      later: nat, again: Outside)
    requires AtBoundary(s.file) && s.used == Load(s.file) && Writes(l, s, Some(c), req, now, o) && !o.written
    requires Clean(EntryOf(c, req)) && o.leftover <= Line(EntryOf(c, req)) && Authorizes(l, c, req, later)
    ensures var torn := Restarted(Replicate(l, s, Some(c), req, now, o).0);
      var answer := Replicate(l, torn, Some(c), req, later, again).1;
      && (answer == Conflict <==> |c.jti| < |o.leftover| < |KeyText(EntryOf(c, req))|)
      && (answer == Idempotent <==> |o.leftover| >= |KeyText(EntryOf(c, req))|)
  {
    TornRestart(s.file, o.leftover, EntryOf(c, req));
  }

  /** A failed write, a retry that succeeds, and then a restart: the recorded ticket is answered
      as such if and only if the torn line is readable, and with a conflict if and only if the
      torn line goes past the ticket id and is not. */
  lemma {:induction false} TornThenRetry(l: Limits, s: State, c: Claims, req: Request, now: nat, torn: string,
      o: Outside, later: nat, again: Outside)
    requires Writes(l, s, Some(c), req, now, o) && o.written && Authorizes(l, c, req, later)
    requires AtBoundary(s.file) && s.used == Load(s.file) && Clean(EntryOf(c, req)) && torn <= Line(EntryOf(c, req))
    ensures var (after, status) := Replicate(l, s.(file := s.file + torn), Some(c), req, now, o);
      var answer := Replicate(l, Restarted(after), Some(c), req, later, again).1;
      && status == Created
      && (answer == Idempotent <==> Readable(torn, EntryOf(c, req)))
      && (answer == Conflict <==> |c.jti| < |torn| && !Readable(torn, EntryOf(c, req)))
  {
    var e := EntryOf(c, req);
    assert (s.file + torn) + (Line(e) + [NEWLINE]) == s.file + torn + Line(e) + [NEWLINE];
    TailUnbroken(e);
    LoadTorn(s.file, torn, e);
    TornReads(torn, e);
    TornPrefix(e, torn);
    if |torn| <= |c.jti| {
      ReadsUntabbed(torn, e);
    } else {
      TornTicket(torn, e);
    }
  }

  /** Past the ticket id, the torn line names the ticket. */
  lemma {:induction false} TornTicket(torn: string, e: Entry)
    requires Clean(e) && torn <= Line(e) && |e.jti| < |torn|
    ensures Split(torn + Line(e), TAB)[0] == e.jti
  {
    var tail := e.cid + [TAB] + Tail(e);
    assert Line(e) == e.jti + [TAB] + tail;
    var rest := torn[|e.jti| + 1..] + Line(e);
    assert torn + Line(e) == e.jti + [TAB] + rest;
    SplitHead(e.jti, TAB, rest);
  }

  // ------------------------------------------------------------ pins

  ghost predicate Pinned(s: State, recorded: seq<Claims>) {
    forall i :: 0 <= i < |recorded| ==> recorded[i].cid in s.pins
  }

  ghost predicate HasCid(recorded: seq<Claims>, cid: string) {
    exists i :: 0 <= i < |recorded| && recorded[i].cid == cid
  }

  /** Every recorded CID stays pinned if and only if the event is not a failed verification of a
      CID that is already recorded, followed by a successful unpin. */
  lemma {:induction false} PinsKeptIff(l: Limits, sys: System, e: Event)
    requires Pinned(sys.state, sys.recorded)
    ensures Pinned(Next(l, sys, e).state, Next(l, sys, e).recorded) <==>
      !(e.Present? && Unpins(l, sys.state, e) && HasCid(sys.recorded, e.request.cid))
  {
    assert sys.recorded + [] == sys.recorded;
    if e.Present? {
      var after := Next(l, sys, e);
      if Unpins(l, sys.state, e) {
        assert after.state.pins == sys.state.pins - {e.request.cid} && after.recorded == sys.recorded;
      } else {
        assert forall cid :: cid in sys.state.pins ==> cid in after.state.pins;
      }
    }
  }

  predicate Unpins(l: Limits, s: State, e: Event)
    requires e.Present?
  {
    e.token.Some? && Authorizes(l, e.token.value, e.request, e.now) && e.token.value.jti !in s.used &&
    e.outside.pinned && !Verified(e.request, e.outside) && e.outside.unpinned
  }

  /** Such an event exists: another ticket for the same CID with a wrong digest. */
  lemma {:induction false} WrongDigestUnpins(l: Limits, sys: System, c: Claims, wrong: Claims, req: Request, now: nat,
      o: Outside)
    requires c in sys.recorded && wrong.cid == c.cid && Authorizes(l, wrong, req, now) && wrong.jti !in sys.state.used
    requires o.pinned && o.unpinned && o.content.Some? && o.content.value.0 != wrong.sha
    ensures var after := AfterPresent(l, sys, Some(wrong), req, now, o); !Pinned(after.state, after.recorded)
  {
    var i :| 0 <= i < |sys.recorded| && sys.recorded[i] == c;
    assert sys.recorded + [] == sys.recorded;
  }

  // ------------------------------------------------- the quota of one process

  predicate Asks(l: Limits, e: Event, key: string) {
    e.Authorize? && e.subject.Some? && BindingValid(l, e.req) && Key(e.subject.value, e.req.owner, e.req.repo) == key
  }

  /** The quota requests of one key. */
  function AttemptsFor(l: Limits, events: seq<Event>, key: string): seq<Attempt> {
    if events == [] then [] else
    var n := |events| - 1;
    AttemptsFor(l, events[..n], key) +
      if Asks(l, events[n], key) then [Attempt(events[n].clock.nanos, events[n].req.size)] else []
  }

  /** The quota admissions of one key. */
  function AdmissionsFor(s: seq<Charged>, key: string): seq<Attempt> {
    if s == [] then [] else
    var last := s[|s| - 1];
    AdmissionsFor(s[..|s| - 1], key) + if last.key == key then [Attempt(last.nanos, last.size)] else []
  }

  lemma {:induction false} AdmissionNext(s: seq<Charged>, c: Charged, key: string)
    ensures AdmissionsFor(s + [c], key) ==
      AdmissionsFor(s, key) + if c.key == key then [Attempt(c.nanos, c.size)] else []
  {
    assert (s + [c])[..|s|] == s;
  }

  ghost predicate Tracks(l: Limits, sys: System, attempts: seq<Attempt>, key: string) {
    Lookup(sys.state.windows, key) == WindowAfter(l, attempts) &&
    AdmissionsFor(sys.admitted, key) == Admitted(l, attempts)
  }

  lemma {:induction false} AttemptNext(l: Limits, s: seq<Attempt>, a: Attempt)
    ensures var r := Admit(l, WindowAfter(l, s), a.now, a.size);
      WindowAfter(l, s + [a]) == (if r.Some? then r else WindowAfter(l, s)) &&
      Admitted(l, s + [a]) == Admitted(l, s) + if r.Some? then [a] else []
  {
    assert (s + [a])[..|s|] == s;
  }

  lemma {:induction false} IssueEffect(l: Limits, sys: System, e: Event)
    requires e.Authorize?
    ensures var after := Next(l, sys, e);
      if Admits(l, sys.state, e.subject, e.req, e.clock) then
        var key := Key(e.subject.value, e.req.owner, e.req.repo);
        && Charge(l, sys.state.windows, key, e.clock.nanos, e.req.size) == Some(after.state.windows)
        && after.admitted == sys.admitted + [Charged(key, e.req.size, e.clock.nanos)]
      else after.state.windows == sys.state.windows && after.admitted == sys.admitted
  {
    assert sys.admitted + [] == sys.admitted;
  }

  lemma {:induction false} IssueTracks(l: Limits, sys: System, e: Event, attempts: seq<Attempt>, key: string)
    requires Tracks(l, sys, attempts, key) && e.Authorize?
    ensures Tracks(l, Next(l, sys, e),
      attempts + (if Asks(l, e, key) then [Attempt(e.clock.nanos, e.req.size)] else []), key)
  {
    IssueEffect(l, sys, e);
    assert attempts + [] == attempts && Admitted(l, attempts) + [] == Admitted(l, attempts);
    if Admits(l, sys.state, e.subject, e.req, e.clock) {
      AdmissionNext(sys.admitted, Charged(Key(e.subject.value, e.req.owner, e.req.repo), e.req.size, e.clock.nanos),
          key);
    }
    if Asks(l, e, key) {
      AttemptNext(l, attempts, Attempt(e.clock.nanos, e.req.size));
    }
  }

  lemma {:induction false} RunTracks(l: Limits, events: seq<Event>, key: string)
    requires forall i :: 0 <= i < |events| ==> !events[i].Restart?
    ensures Tracks(l, Run(l, Start(), events), AttemptsFor(l, events, key), key)
  {
    if events != [] {
      var n := |events| - 1;
      RunTracks(l, events[..n], key);
      var sys, attempts := Run(l, Start(), events[..n]), AttemptsFor(l, events[..n], key);
      if events[n].Authorize? {
        IssueTracks(l, sys, events[n], attempts, key);
      } else {
        assert attempts + [] == attempts;
      }
    }
  }

  /** Within one process, the quota bound holds for every key over every sliding minute. */
  lemma {:induction false} QuotaAnyMinute(l: Limits, events: seq<Event>, key: string, from: int)
    requires l.Positive() && (forall i :: 0 <= i < |events| ==> !events[i].Restart?)
    requires Ordered(AttemptsFor(l, events, key))
    ensures Bounded(l, AdmissionsFor(Run(l, Start(), events).admitted, key), from)
  {
    RunTracks(l, events, key);
    AnyMinute(l, AttemptsFor(l, events, key), from);
  }
}
