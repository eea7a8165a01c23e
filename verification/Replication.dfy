/** The replication service as a state machine: tickets are issued against a quota, each is
    recorded at most once, and the record outlives restarts. */
module Replication {
  import opened Digits
  import opened RateLimit
  import opened StateFile

  const TICKET_SECONDS: nat := 900

  datatype Claims = Claims(
    subject: string, cid: string, owner: string, repo: string, ref: string, sha: string, size: int, expires: int,
    jti: string)

  datatype Request = Request(cid: string, owner: string, repo: string, ref: string, sha: string, size: int,
      expiresAt: int)

  datatype Status =
    | Created | Idempotent | Conflict | Unauthorized | BadRequest | TooManyRequests | BadGateway | ServerError

  /** What the service holds in memory and on disk, and what is pinned in Kubo. */
  datatype State = State(windows: map<string, Window>, used: Used, file: string, pins: set<string>)

  // ------------------------------------------------------------ issuing

  predicate BindingValid(l: Limits, req: Request) {
    0 < req.size <= l.maxBytes && req.cid != "" && req.owner != "" && req.repo != "" && req.ref != "" && |req.sha| == 64
  }

  function Expiry(req: Request, now: int): int {
    var limit := now + TICKET_SECONDS;
    if 0 < req.expiresAt < limit then req.expiresAt else limit
  }

  function Ticket(subject: string, req: Request, expires: int, jti: string): Claims {
    Claims(subject, req.cid, req.owner, req.repo, req.ref, req.sha, req.size, expires, jti)
  }

  /** The clock readings of one call, in the order they are taken. */
  datatype Clock = Clock(nanos: int, seconds: int, later: int)

  /** `allow` as a step on the window map. */
  function Charge(l: Limits, windows: map<string, Window>, key: string, nanos: int,
      size: int): Option<map<string, Window>> {
    var r := Admit(l, Lookup(windows, key), nanos, size);
    if r.None? then None else Some(windows[key := r.value])
  }

  /** `issueAuthorization`: the state, the answer, and the ticket if there is one. The quota is
      charged before the expiry is looked at. */
  function Issue(l: Limits, s: State, subject: Option<string>, req: Request, clock: Clock, jti: string):
      (State, Status, Option<Claims>) {
    if subject.None? then (s, Unauthorized, None)
    else if !BindingValid(l, req) then (s, BadRequest, None)
    else
      var charged := Charge(l, s.windows, Key(subject.value, req.owner, req.repo), clock.nanos, req.size);
      if charged.None? then (s, TooManyRequests, None)
      else
        var expires := Expiry(req, clock.seconds);
        if expires <= clock.later then (s.(windows := charged.value), BadRequest, None)
        else (s.(windows := charged.value), Created, Some(Ticket(subject.value, req, expires, jti)))
  }

  // ------------------------------------------------------------ replicating

  /** `authorize`, on a token whose signature is good. */
  predicate Authorizes(l: Limits, c: Claims, req: Request, now: int) {
    c.subject != "" && c.expires > now && c.jti != "" &&
    req.cid == c.cid && req.owner == c.owner && req.repo == c.repo && req.ref == c.ref && req.sha == c.sha &&
    req.size == c.size &&
    0 < req.size <= l.maxBytes
  }

  /** What Kubo and the disk answer: whether the pin succeeds, the digest and length read back,
      whether an unpin succeeds, and whether the record is written or what is left of it. */
  datatype Outside = Outside(pinned: bool, content: Option<(string, int)>, unpinned: bool, written: bool,
      leftover: string)

  /** The pinned content is what the ticket was issued for. */
  predicate Verified(req: Request, o: Outside) {
    o.content.Some? && o.content.value.1 == req.size && o.content.value.0 == req.sha
  }

  function EntryOf(c: Claims, req: Request): Entry
    requires c.expires >= 0 && req.size >= 0
  {
    Entry(c.jti, req.cid, c.expires, c.subject, req.owner, req.repo, req.ref, req.size)
  }

  /** `replicate`; the whole of it runs under the service's lock once the token is accepted. */
  function Replicate(l: Limits, s: State, token: Option<Claims>, req: Request, now: nat, o: Outside): (State, Status) {
    if token.None? || !Authorizes(l, token.value, req, now) then (s, Unauthorized)
    else
      var c := token.value;
      if c.jti in s.used then (s, if s.used[c.jti] == req.cid then Idempotent else Conflict)
      else if !o.pinned then (s, BadGateway)
      else if !Verified(req, o) then
        (s.(pins := if o.unpinned then s.pins - {req.cid} else s.pins + {req.cid}), BadGateway)
      else if !o.written then (s.(file := s.file + o.leftover, pins := s.pins + {req.cid}), ServerError)
      else
        var line := Line(EntryOf(c, req)) + [NEWLINE];
        (s.(file := s.file + line, used := s.used[c.jti := req.cid], pins := s.pins + {req.cid}), Created)
  }

  /** A restart forgets the quota windows and reads the file. */
  function Restarted(s: State): State { State(map[], Load(s.file), s.file, s.pins) }

  // ------------------------------------------------------------ the service

  class Service {
    const limits: Limits
    var window: map<string, Window>
    var used: Used
    var file: string
    var pins: set<string>

    function View(): State
      reads this
    {
      State(window, used, file, pins)
    }

    /** Start-up: the file and the pins are what an earlier process left. */
    constructor (limits: Limits, file: string, pins: set<string>)
      ensures this.limits == limits && View() == State(map[], Load(file), file, pins)
    {
      this.limits := limits;
      window, this.file, this.pins := map[], file, pins;
      new;
      var loaded := LoadState(file);
      used := loaded;
    }

    /** `allow`: decides for its own key and leaves every other key alone. */
    method Allow(subject: string, owner: string, repo: string, size: int, now: int) returns (ok: bool)
      modifies this`window
      ensures var r := Charge(limits, old(window), Key(subject, owner, repo), now, size);
        ok == r.Some? && window == if ok then r.value else old(window)
    {
      if size <= 0 || size > limits.maxBytes { return false; }
      var key := Key(subject, owner, repo);
      if key !in window || now - window[key].start >= MINUTE {
        window := window[key := Window(now, 1, size)];
        return true;
      }
      var w := window[key];
      if w.count >= limits.rate || (limits.bytesPerMinute > 0 && w.bytes > limits.bytesPerMinute - size) {
        return false;
      }
      window := window[key := w.(count := w.count + 1, bytes := w.bytes + size)];
      return true;
    }

    method IssueAuthorization(subject: Option<string>, req: Request, clock: Clock, jti: string)
      returns (status: Status, ticket: Option<Claims>)
      modifies this
      ensures (View(), status, ticket) == Issue(limits, old(View()), subject, req, clock, jti)
    {
      if subject.None? { return Unauthorized, None; }
      if req.size <= 0 || req.size > limits.maxBytes || req.cid == "" || req.owner == "" || req.repo == "" ||
         req.ref == "" || |req.sha| != 64 {
        return BadRequest, None;
      }
      var allowed := Allow(subject.value, req.owner, req.repo, req.size, clock.nanos);
      if !allowed { return TooManyRequests, None; }
      var expires := clock.seconds + TICKET_SECONDS;
      if req.expiresAt > 0 && req.expiresAt < expires { expires := req.expiresAt; }
      if expires <= clock.later { return BadRequest, None; }
      return Created, Some(Ticket(subject.value, req, expires, jti));
    }

    /** `record`: the disk first, memory only after it succeeded. */
    method Record(e: Entry, o: Outside) returns (ok: bool)
      modifies this
      ensures ok == o.written && window == old(window) && pins == old(pins)
      ensures file == old(file) + if ok then Line(e) + [NEWLINE] else o.leftover
      ensures used == if ok then old(used)[e.jti := e.cid] else old(used)
    {
      if !o.written {
        file := file + o.leftover;
        return false;
      }
      file := file + (Line(e) + [NEWLINE]);
      used := used[e.jti := e.cid];
      return true;
    }

    method ReplicateRequest(token: Option<Claims>, req: Request, now: nat, o: Outside) returns (status: Status)
      modifies this
      ensures (View(), status) == Replicate(limits, old(View()), token, req, now, o)
    {
      if token.None? || !Authorizes(limits, token.value, req, now) { return Unauthorized; }
      var c := token.value;
      if c.jti in used { return if used[c.jti] == req.cid then Idempotent else Conflict; }
      if !o.pinned { return BadGateway; }
      assert (pins + {req.cid}) - {req.cid} == pins - {req.cid};
      pins := pins + {req.cid};
      if o.content.None? || o.content.value.1 != req.size || o.content.value.0 != req.sha {
        if o.unpinned { pins := pins - {req.cid}; }
        return BadGateway;
      }
      var ok := Record(EntryOf(c, req), o);
      if !ok { return ServerError; }
      return Created;
    }
  }
}
