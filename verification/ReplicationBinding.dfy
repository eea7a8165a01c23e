/** What a ticket binds: for which requests it is good, what the service writes for it, and how
    many bytes it lets in. */
module ReplicationBinding {
  import opened Digits
  import opened RateLimit
  import opened StateFile
  import opened Replication
  import opened ReplicationRuns

  // ------------------------------------------------------------ issuing

  /** Two requests ask for the same content in the same place. */
  predicate SameBinding(a: Request, b: Request) {
    a.cid == b.cid && a.owner == b.owner && a.repo == b.repo && a.ref == b.ref && a.sha == b.sha && a.size == b.size
  }

  /** An issued ticket is good for exactly the binding it was issued for, until it expires: in at
      most a quarter of an hour, earlier if that was asked for. */
  lemma {:induction false} TicketBinds(l: Limits, s: State, subject: string, req: Request, clock: Clock, jti: string,
      other: Request, now: int)
    requires subject != "" && jti != "" && Issue(l, s, Some(subject), req, clock, jti).1 == Created
    ensures var ticket := Issue(l, s, Some(subject), req, clock, jti).2;
      && ticket.Some? && ticket.value.jti == jti && ticket.value.subject == subject
      && (Authorizes(l, ticket.value, other, now) <==> SameBinding(other, req) && now < ticket.value.expires)
      && clock.later < ticket.value.expires <= clock.seconds + 900
      && (req.expiresAt > 0 ==> ticket.value.expires <= req.expiresAt)
      && (ticket.value.expires < clock.seconds + 900 ==> ticket.value.expires == req.expiresAt > 0)
  {
  }

  /** The window of this key was charged, and no other was touched. */
  ghost predicate ChargedOnly(before: map<string, Window>, after: map<string, Window>, key: string, size: int) {
    && key in after && after[key].bytes >= size && after[key].count >= 1
    && (forall other :: other in before ==> other in after)
    && (forall other :: other in after && other != key ==> other in before && after[other] == before[other])
  }

  /** The request names everything a ticket binds, with a size the service takes. */
  predicate Complete(l: Limits, req: Request) {
    req.cid != "" && req.owner != "" && req.repo != "" && req.ref != "" && |req.sha| == 64 &&
    1 <= req.size <= l.maxBytes
  }

  /** What an answer to a request for a ticket means: no ticket without a charge, and a charge
      exactly when the quota admits the size under the requester's own key. */
  lemma {:induction false} IssueAnswers(l: Limits, s: State, subject: Option<string>, req: Request, clock: Clock,
      jti: string)
    ensures var (after, status, ticket) := Issue(l, s, subject, req, clock, jti);
      && (status == Created <==> ticket.Some?)
      && (status == Unauthorized <==> subject.None?)
      && (status == Created <==>
            Admits(l, s, subject, req, clock) && Complete(l, req) && clock.later < clock.seconds + 900 &&
            (req.expiresAt > 0 ==> clock.later < req.expiresAt))
      && (after.windows != s.windows ==> status in {Created, BadRequest} && Admits(l, s, subject, req, clock))
      && (status == Created ==>
            Admits(l, s, subject, req, clock) &&
            ChargedOnly(s.windows, after.windows, Key(subject.value, req.owner, req.repo), req.size))
      && (status == TooManyRequests ==> !Admits(l, s, subject, req, clock) && BindingValid(l, req))
      && after.used == s.used && after.file == s.file && after.pins == s.pins
  {
  }

  // ------------------------------------------------------------ replicating

  /** What an answer to a replication request means for memory, file and pins. */
  lemma {:induction false} Answers(l: Limits, s: State, token: Option<Claims>, req: Request, now: nat, o: Outside)
    ensures var (after, status) := Replicate(l, s, token, req, now, o);
      && (status in {Unauthorized, Idempotent, Conflict} ==> after == s)
      && (status == BadGateway ==> after.used == s.used && after.file == s.file)
      && (status == ServerError ==> after.used == s.used && req.cid in after.pins && Verified(req, o))
      && (status == Created <==> token.Some? && token.value.jti !in s.used && token.value.jti in after.used)
      && (status == Created ==> req.cid in after.pins && after.used[token.value.jti] == req.cid)
      && (status == BadGateway && o.pinned && o.unpinned ==> req.cid !in after.pins)
      && (forall cid :: cid != req.cid ==> (cid in after.pins <==> cid in s.pins))
      && after.windows == s.windows
  {
  }

  /** One successful replication: by how much the file grew, what was pinned, and what Kubo read
      back of it. */
  datatype Deposit = Deposit(text: string, cid: string, digest: string, length: int, now: nat)

  function Grown(before: string, after: string): string {
    if |before| <= |after| then after[|before|..] else ""
  }

  function DepositOf(l: Limits, s: State, e: Event): seq<Deposit> {
    if !e.Present? || e.outside.content.None? then [] else
    var (after, status) := Replicate(l, s, e.token, e.request, e.now, e.outside);
    if status != Created then [] else
    [Deposit(Grown(s.file, after.file), e.request.cid, e.outside.content.value.0, e.outside.content.value.1, e.now)]
  }

  function Deposits(l: Limits, events: seq<Event>): seq<Deposit> {
    if events == [] then [] else
    var n := |events| - 1;
    Deposits(l, events[..n]) + DepositOf(l, Run(l, Start(), events[..n]).state, events[n])
  }

  /** The line that belongs to a ticket. */
  function TicketLine(c: Claims): string
    requires c.expires >= 0 && c.size >= 0
  {
    Line(Entry(c.jti, c.cid, c.expires, c.subject, c.owner, c.repo, c.ref, c.size))
  }

  /** The deposit is what the ticket was issued for, in every field. */
  predicate Fulfils(l: Limits, d: Deposit, c: Claims) {
    && c.subject != "" && c.jti != "" && d.now < c.expires && 0 < c.size <= l.maxBytes
    && d.text == TicketLine(c) + [NEWLINE] && d.cid == c.cid && d.digest == c.sha && d.length == c.size
  }

  lemma {:induction false} CreatedFulfils(l: Limits, s: State, e: Event)
    requires e.Present? && Replicate(l, s, e.token, e.request, e.now, e.outside).1 == Created
    ensures e.token.Some? && |DepositOf(l, s, e)| == 1 && Fulfils(l, DepositOf(l, s, e)[0], e.token.value)
  {
    var after := Replicate(l, s, e.token, e.request, e.now, e.outside).0;
    var line := Line(EntryOf(e.token.value, e.request)) + [NEWLINE];
    assert after.file == s.file + line && (s.file + line)[|s.file|..] == line;
  }

  ghost predicate AllFulfil(l: Limits, deposits: seq<Deposit>, recorded: seq<Claims>) {
    |deposits| == |recorded| && forall i :: 0 <= i < |deposits| ==> Fulfils(l, deposits[i], recorded[i])
  }

  lemma {:induction false} FulfilNext(l: Limits, sys: System, e: Event, deposits: seq<Deposit>)
    requires AllFulfil(l, deposits, sys.recorded)
    ensures AllFulfil(l, deposits + DepositOf(l, sys.state, e), Next(l, sys, e).recorded)
  {
    if e.Present? && Replicate(l, sys.state, e.token, e.request, e.now, e.outside).1 == Created {
      CreatedFulfils(l, sys.state, e);
    } else {
      assert DepositOf(l, sys.state, e) == [];
      assert deposits + [] == deposits && sys.recorded + [] == sys.recorded;
    }
  }

  /** Over every run, whatever writes fail and whoever asks: each successful replication fulfils
      the ticket it is recorded for, in every field, and before it expired. */
  lemma {:induction false} DepositsFulfil(l: Limits, events: seq<Event>)
    ensures AllFulfil(l, Deposits(l, events), Run(l, Start(), events).recorded)
  {
    if events != [] {
      var n := |events| - 1;
      DepositsFulfil(l, events[..n]);
      FulfilNext(l, Run(l, Start(), events[..n]), events[n], Deposits(l, events[..n]));
    }
  }

  // ------------------------------------------------------------ bytes let in

  /** The bytes read back for the deposits under one key. */
  function DepositedBytes(deposits: seq<Deposit>, recorded: seq<Claims>, key: string): int
    requires |deposits| == |recorded|
  {
    if deposits == [] then 0 else
    var n := |deposits| - 1;
    DepositedBytes(deposits[..n], recorded[..n], key) + if ClaimKey(recorded[n]) == key then deposits[n].length else 0
  }

  lemma {:induction false} DepositedIsTickets(l: Limits, deposits: seq<Deposit>, recorded: seq<Claims>, key: string)
    requires AllFulfil(l, deposits, recorded)
    ensures DepositedBytes(deposits, recorded, key) == TicketBytes(recorded, key)
  {
    if deposits != [] {
      var n := |deposits| - 1;
      DepositedIsTickets(l, deposits[..n], recorded[..n], key);
    }
  }

  /** Over every careful run: the bytes actually pinned and recorded for a key stay within the
      bytes admitted for it, and every one of them belongs to an issued ticket of that key. */
  lemma {:induction false} PinnedWithinQuota(l: Limits, events: seq<Event>, key: string)
    requires CarefulRun(l, Start(), events)
    ensures var sys, deposits := Run(l, Start(), events), Deposits(l, events);
      && AllFulfil(l, deposits, sys.recorded) && RecordsOk(sys.recorded, sys.issued)
      && DepositedBytes(deposits, sys.recorded, key) <= AdmittedBytes(sys.admitted, key)
  {
    DepositsFulfil(l, events);
    RecordedWithinQuota(l, events, key);
    DepositedIsTickets(l, Deposits(l, events), Run(l, Start(), events).recorded, key);
  }

  // ------------------------------------------------------------ the file

  function Texts(deposits: seq<Deposit>): string {
    if deposits == [] then "" else Texts(deposits[..|deposits| - 1]) + deposits[|deposits| - 1].text
  }

  /** No failed write leaves anything behind. */
  predicate Whole(events: seq<Event>) {
    forall i :: 0 <= i < |events| && events[i].Present? ==>
      events[i].outside.written || events[i].outside.leftover == ""
  }

  lemma {:induction false} TextsNext(deposits: seq<Deposit>, d: Deposit)
    ensures Texts(deposits + [d]) == Texts(deposits) + d.text
  {
    assert (deposits + [d])[..|deposits|] == deposits;
  }

  lemma {:induction false} FileNext(l: Limits, sys: System, e: Event, deposits: seq<Deposit>)
    requires sys.state.file == Texts(deposits) && (e.Present? ==> e.outside.written || e.outside.leftover == "")
    ensures Next(l, sys, e).state.file == Texts(deposits + DepositOf(l, sys.state, e))
  {
    if e.Present? && Replicate(l, sys.state, e.token, e.request, e.now, e.outside).1 == Created {
      CreatedFulfils(l, sys.state, e);
      var d := DepositOf(l, sys.state, e)[0];
      TextsNext(deposits, d);
      assert DepositOf(l, sys.state, e) == [d];
      var line := Line(EntryOf(e.token.value, e.request)) + [NEWLINE];
      assert (sys.state.file + line)[|sys.state.file|..] == line;
    } else {
      assert DepositOf(l, sys.state, e) == [] && deposits + [] == deposits;
      assert sys.state.file + "" == sys.state.file;
    }
  }

  /** If no failed write leaves anything behind, the file is, restarts included, exactly the lines
      of the tickets recorded, in the order they were. */
  lemma {:induction false} FileIsTickets(l: Limits, events: seq<Event>)
    requires Whole(events)
    ensures Run(l, Start(), events).state.file == Texts(Deposits(l, events))
    ensures AllFulfil(l, Deposits(l, events), Run(l, Start(), events).recorded)
  {
    DepositsFulfil(l, events);
    if events != [] {
      var n := |events| - 1;
      FileIsTickets(l, events[..n]);
      FileNext(l, Run(l, Start(), events[..n]), events[n], Deposits(l, events[..n]));
    }
  }
}
