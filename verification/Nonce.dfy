/** The nonce manager: a locked cache with generations, and every interleaving of its users. */
module Nonce {
  import opened Digits

  const MAX_NONCE: nat := UINT64_LIMIT - 1

  /** Nonces and the node's answers are 64-bit numbers. */
  type Count = n: nat | n <= MAX_NONCE

  /** What a cached nonce is good for. */
  datatype Account = Account(endpoint: string, chainId: nat, from: string)

  datatype Cache = Cache(valid: bool, account: Account, next: Count, generation: nat)

  datatype Reservation = Reservation(account: Account, generation: nat, nonce: Count)

  function Bump(generation: nat): nat { (generation + 1) % UINT64_LIMIT }

  /** `reserve`; `pending` is what the node answers if it is asked. */
  function Reserve(c: Cache, account: Account, pending: Option<Count>): (Cache, Option<Reservation>) {
    var stale := !c.valid || c.account != account;
    if stale && pending.None? then (c.(valid := false), None)
    else if stale && pending.value == MAX_NONCE then (c, None)
    else
      var synced := if stale then Cache(true, account, pending.value, Bump(c.generation)) else c;
      if synced.next == MAX_NONCE then (synced.(valid := false), None)
      else (synced.(next := synced.next + 1), Some(Reservation(account, synced.generation, synced.next)))
  }

  /** `invalidate`: only the cache the reservation came from. */
  function Invalidate(c: Cache, r: Reservation): Cache {
    if c.valid && c.account == r.account && c.generation == r.generation
    then c.(valid := false, generation := Bump(c.generation)) else c
  }

  class Manager {
    var valid: bool
    var account: Account
    var next: Count
    var generation: nat

    function View(): Cache
      reads this
    {
      Cache(valid, account, next, generation)
    }

    constructor ()
      ensures View() == Cache(false, Account("", 0, ""), 0, 0)
    {
      valid, account, next, generation := false, Account("", 0, ""), 0, 0;
    }

    method ReserveNonce(wanted: Account, pending: Option<Count>) returns (r: Option<Reservation>)
      modifies this
      ensures (View(), r) == Reserve(old(View()), wanted, pending)
    {
      if !valid || account != wanted {
        if pending.None? {
          valid := false;
          return None;
        }
        if pending.value == MAX_NONCE { return None; }
        account, next, generation, valid := wanted, pending.value, Bump(generation), true;
      }
      var nonce := next;
      if next == MAX_NONCE {
        valid := false;
        return None;
      }
      next := next + 1;
      return Some(Reservation(account, generation, nonce));
    }

    method InvalidateReservation(r: Reservation)
      modifies this
      ensures View() == Invalidate(old(View()), r)
    {
      if valid && account == r.account && generation == r.generation {
        valid, generation := false, Bump(generation);
      }
    }

    /** `transact` from the reservation on: `steps` says which of the calls after it succeed. A
        deferred invalidation runs on every exit but the last. */
    method Transact(wanted: Account, pending: Option<Count>, steps: seq<bool>)
      returns (sent: Option<Reservation>, committed: bool)
      modifies this
      ensures var (c, r) := Reserve(old(View()), wanted, pending);
        && sent == r && (committed <==> r.Some? && forall i :: 0 <= i < |steps| ==> steps[i])
        && View() == if r.None? || committed then c else Invalidate(c, r.value)
    {
      sent := ReserveNonce(wanted, pending);
      committed := false;
      if sent.None? { return; }
      for i := 0 to |steps|
        invariant forall k :: 0 <= k < i ==> steps[k]
        invariant (View(), sent) == Reserve(old(View()), wanted, pending)
      {
        if !steps[i] {
          InvalidateReservation(sent.value);
          return;
        }
      }
      committed := true;
    }
  }

  // ------------------------------------------------------------ interleavings

  /** Callers reserve, and later end a reservation by invalidating it; a committed reservation
      takes no step. */
  datatype Event = Ask(account: Account, pending: Option<Count>) | Fail(reservation: Reservation)

  datatype System = System(cache: Cache, handed: seq<Reservation>)

  function Start(): System { System(Cache(false, Account("", 0, ""), 0, 0), []) }

  function Next(sys: System, e: Event): System {
    match e
    case Ask(account, pending) =>
      var (cache, r) := Reserve(sys.cache, account, pending);
      System(cache, sys.handed + if r.Some? then [r.value] else [])
    case Fail(r) => sys.(cache := Invalidate(sys.cache, r))
  }

  function Run(events: seq<Event>): System {
    if events == [] then Start() else Next(Run(events[..|events| - 1]), events[|events| - 1])
  }

  /** One reservation after another: the next nonce of the same generation, or a new one. */
  ghost predicate Follows(a: Reservation, b: Reservation) {
    (b.generation == a.generation && b.account == a.account && b.nonce == a.nonce + 1) || a.generation < b.generation
  }

  ghost predicate Chained(s: seq<Reservation>) {
    forall i, j :: 0 <= i && j == i + 1 && j < |s| ==> Follows(s[i], s[j])
  }

  /** The cache is at least as new as everything handed out, and continues it if it is valid. */
  ghost predicate Sound(sys: System, steps: nat) {
    && Chained(sys.handed) && sys.cache.generation <= steps
    && (sys.cache.valid ==> sys.handed != [] && sys.handed[|sys.handed| - 1].generation == sys.cache.generation)
    && (sys.handed != [] ==>
          var last := sys.handed[|sys.handed| - 1];
          && last.generation <= sys.cache.generation
          && (sys.cache.valid && last.generation == sys.cache.generation ==>
                last.account == sys.cache.account && sys.cache.next == last.nonce + 1))
  }

  lemma {:induction false} ChainNext(s: seq<Reservation>, r: Reservation)
    requires Chained(s) && (s != [] ==> Follows(s[|s| - 1], r))
    ensures Chained(s + [r])
  {
  }

  lemma {:induction false} BumpGrows(generation: nat, steps: nat)
    requires generation <= steps < MAX_NONCE
    ensures Bump(generation) == generation + 1
  {
  }

  lemma {:induction false} AskKeeps(sys: System, account: Account, pending: Option<Count>, steps: nat)
    requires Sound(sys, steps) && steps < MAX_NONCE
    ensures Sound(Next(sys, Ask(account, pending)), steps + 1)
  {
    BumpGrows(sys.cache.generation, steps);
    var r := Reserve(sys.cache, account, pending).1;
    if r.Some? {
      ChainNext(sys.handed, r.value);
    } else {
      assert sys.handed + [] == sys.handed;
    }
  }

  lemma {:induction false} NextKeeps(sys: System, e: Event, steps: nat)
    requires Sound(sys, steps) && steps < MAX_NONCE
    ensures Sound(Next(sys, e), steps + 1) && sys.cache.generation <= Next(sys, e).cache.generation
  {
    BumpGrows(sys.cache.generation, steps);
    if e.Ask? { AskKeeps(sys, e.account, e.pending, steps); }
  }

  lemma {:induction false} RunSound(events: seq<Event>)
    requires |events| < MAX_NONCE
    ensures Sound(Run(events), |events|)
  {
    if events != [] {
      RunSound(events[..|events| - 1]);
      NextKeeps(Run(events[..|events| - 1]), events[|events| - 1], |events| - 1);
    }
  }

  // ------------------------------------------------------------ the promises

  lemma {:induction false} ChainOrder(s: seq<Reservation>, i: nat, j: nat)
    requires Chained(s) && i < j < |s|
    ensures s[i].generation <= s[j].generation
    ensures s[i].generation == s[j].generation ==> s[i].account == s[j].account && s[j].nonce == s[i].nonce + (j - i)
    decreases j
  {
    assert Follows(s[j - 1], s[j]);
    if i < j - 1 { ChainOrder(s, i, j - 1); }
  }

  /** Under every interleaving, no two reservations share generation and nonce; within one
      generation the account is one and the nonces are consecutive. */
  lemma {:induction false} NoSharedNonce(events: seq<Event>, i: nat, j: nat)
    requires |events| < MAX_NONCE && i < j < |Run(events).handed|
    ensures var a, b := Run(events).handed[i], Run(events).handed[j];
      && a.generation <= b.generation && (a.generation, a.nonce) != (b.generation, b.nonce)
      && (a.generation == b.generation ==> a.account == b.account && b.nonce == a.nonce + (j - i))
  {
    RunSound(events);
    ChainOrder(Run(events).handed, i, j);
  }

  /** The first nonce of a generation is the node's own pending count. */
  lemma {:induction false} GenerationStartsAtPending(events: seq<Event>, account: Account, pending: Option<Count>,
      r: Reservation)
    requires |events| < MAX_NONCE && Reserve(Run(events).cache, account, pending).1 == Some(r)
    requires forall i :: 0 <= i < |Run(events).handed| ==> Run(events).handed[i].generation != r.generation
    ensures pending == Some(r.nonce)
  {
    RunSound(events);
  }

  /** A reservation from any other generation than the current one changes nothing. */
  lemma {:induction false} StaleCannotInvalidate(events: seq<Event>, i: nat)
    requires |events| < MAX_NONCE && i < |Run(events).handed|
    ensures var sys := Run(events); var r := sys.handed[i];
      && r.generation <= sys.cache.generation
      && (r.generation < sys.cache.generation ==> Invalidate(sys.cache, r) == sys.cache)
      && (Invalidate(sys.cache, r) != sys.cache <==> sys.cache.valid && r.generation == sys.cache.generation)
  {
    RunSound(events);
    var sys := Run(events);
    if i < |sys.handed| - 1 { ChainOrder(sys.handed, i, |sys.handed| - 1); }
    BumpGrows(sys.cache.generation, |events|);
  }

  /** No nonce of this generation will be handed out any more. */
  ghost predicate Retired(c: Cache, generation: nat) {
    c.generation > generation || (c.generation == generation && !c.valid)
  }

  lemma {:induction false} RetiredStays(sys: System, e: Event, steps: nat, generation: nat)
    requires Sound(sys, steps) && steps < MAX_NONCE && Retired(sys.cache, generation)
    ensures Retired(Next(sys, e).cache, generation)
    ensures e.Ask? && Reserve(sys.cache, e.account, e.pending).1.Some? ==>
      Reserve(sys.cache, e.account, e.pending).1.value.generation > generation
  {
    BumpGrows(sys.cache.generation, steps);
  }

  lemma {:induction false} RetiredForever(before: seq<Event>, after: seq<Event>, generation: nat)
    requires |before + after| < MAX_NONCE && Retired(Run(before).cache, generation)
    ensures Retired(Run(before + after).cache, generation) && |Run(before).handed| <= |Run(before + after).handed|
    ensures forall k ::
      |Run(before).handed| <= k < |Run(before + after).handed| ==> Run(before + after).handed[k].generation > generation
    decreases |after|
  {
    if after == [] {
      assert before + after == before;
    } else {
      var n := |after| - 1;
      assert (before + after)[..|before + after| - 1] == before + after[..n];
      RetiredForever(before, after[..n], generation);
      RunSound(before + after[..n]);
      RetiredStays(Run(before + after[..n]), after[n], |before + after[..n]|, generation);
    }
  }

  /** When `transact` fails after a reservation, every later reservation comes from a newer
      synchronisation with the node, whatever other callers do meanwhile. */
  lemma {:induction false} FailureForcesSync(before: seq<Event>, after: seq<Event>, i: nat)
    requires |before| + 1 + |after| < MAX_NONCE && i < |Run(before).handed|
    ensures var r := Run(before).handed[i]; var failed := before + [Fail(r)];
      forall k ::
        |Run(before).handed| <= k < |Run(failed + after).handed| ==>
          Run(failed + after).handed[k].generation > r.generation
  {
    RunSound(before);
    var sys := Run(before);
    var r := sys.handed[i];
    if i < |sys.handed| - 1 { ChainOrder(sys.handed, i, |sys.handed| - 1); }
    var failed := before + [Fail(r)];
    assert failed[..|before|] == before;
    BumpGrows(sys.cache.generation, |before|);
    assert Retired(Run(failed).cache, r.generation);
    RetiredForever(failed, after, r.generation);
  }

  // ------------------------------------------------- what keeps a generation

  /** The event ends the generation of reservation `a`: a failed reservation of it, or another
      account that gets at the cache. */
  predicate Ends(a: Reservation, e: Event) {
    match e
    case Fail(r) => r.account == a.account && r.generation == a.generation
    case Ask(account, pending) => account != a.account && pending != Some(MAX_NONCE)
  }

  function Asks(account: Account, events: seq<Event>): nat {
    if events == [] then 0 else
    Asks(account, events[..|events| - 1]) +
    if events[|events| - 1].Ask? && events[|events| - 1].account == account then 1 else 0
  }

  /** No event ends the generation, and the nonces last. */
  predicate Calm(a: Reservation, events: seq<Event>) {
    (forall i :: 0 <= i < |events| ==> !Ends(a, events[i])) && a.nonce + 1 + Asks(a.account, events) <= MAX_NONCE
  }

  /** The cache goes on from `a` after `n` more reservations. */
  ghost predicate Continues(c: Cache, a: Reservation, n: nat) {
    c.valid && c.account == a.account && c.next == a.nonce + 1 + n && c.generation == a.generation
  }

  lemma {:induction false} CalmNext(a: Reservation, events: seq<Event>, e: Event)
    ensures Asks(a.account, events + [e]) ==
      Asks(a.account, events) + if e.Ask? && e.account == a.account then 1 else 0
    ensures Calm(a, events + [e]) <==>
      Calm(a, events) && !Ends(a, e) && a.nonce + 1 + Asks(a.account, events + [e]) <= MAX_NONCE
  {
    var more := events + [e];
    assert more[..|events|] == events && more[|events|] == e;
    assert forall i :: 0 <= i < |events| ==> more[i] == events[i];
  }

  /** The generation of `a` is over, and the cache is not for its account unless that asked again. */
  ghost predicate Over(c: Cache, a: Reservation, n: nat) {
    Retired(c, a.generation) && (n == 0 ==> !c.valid || c.account != a.account)
  }

  lemma {:induction false} OverStays(sys: System, e: Event, steps: nat, a: Reservation, n: nat)
    requires Sound(sys, steps) && steps < MAX_NONCE && Over(sys.cache, a, n)
    ensures Over(Next(sys, e).cache, a, n + if e.Ask? && e.account == a.account then 1 else 0)
  {
    RetiredStays(sys, e, steps, a.generation);
  }

  /** One event after a reservation of the current generation. */
  lemma {:induction false} EventContinuesIff(sys: System, a: Reservation, n: nat, e: Event, steps: nat)
    requires Continues(sys.cache, a, n) && a.nonce + 1 + n <= MAX_NONCE && sys.cache.generation <= steps < MAX_NONCE
    ensures var m := n + if e.Ask? && e.account == a.account then 1 else 0;
      if !Ends(a, e) && a.nonce + 1 + m <= MAX_NONCE then Continues(Next(sys, e).cache, a, m)
      else Over(Next(sys, e).cache, a, m)
  {
    BumpGrows(sys.cache.generation, steps);
  }

  /** After any events since reservation `a` the cache goes on from it if and only if they were
      calm; otherwise its generation is over. */
  lemma {:induction false} ContinuesIff(before: seq<Event>, a: Reservation, events: seq<Event>)
    requires |before| + |events| < MAX_NONCE && Continues(Run(before).cache, a, 0) && a.nonce < MAX_NONCE
    ensures var c := Run(before + events).cache;
      if Calm(a, events) then Continues(c, a, Asks(a.account, events)) else Over(c, a, Asks(a.account, events))
    decreases |events|
  {
    if events == [] {
      assert before + events == before;
    } else {
      var n := |events| - 1;
      var rest, e := events[..n], events[n];
      assert (before + events)[..|before + events| - 1] == before + rest && rest + [e] == events;
      ContinuesIff(before, a, rest);
      CalmNext(a, rest, e);
      RunSound(before + rest);
      var sys := Run(before + rest);
      if Calm(a, rest) {
        EventContinuesIff(sys, a, Asks(a.account, rest), e, |before + rest|);
      } else {
        OverStays(sys, e, |before + rest|, a, Asks(a.account, rest));
      }
    }
  }

  /** The account is given this nonce of this generation. */
  predicate Hands(c: Cache, account: Account, answer: Option<Count>, generation: nat, nonce: nat) {
    var r := Reserve(c, account, answer).1;
    r.Some? && r.value.account == account && r.value.generation == generation && r.value.nonce == nonce
  }

  /** Whatever the node would answer. */
  ghost predicate HandsAnyway(c: Cache, account: Account, generation: nat, nonce: nat) {
    forall answer :: Hands(c, account, answer, generation, nonce)
  }

  /** The node is asked, and a newer generation starts at its answer. */
  ghost predicate AsksNode(c: Cache, account: Account, generation: nat) {
    forall answer: Count :: answer < MAX_NONCE ==>
      var r := Reserve(c, account, Some(answer)).1;
      r.Some? && r.value.nonce == answer && r.value.generation > generation
  }

  lemma {:induction false} ContinuingHands(c: Cache, a: Reservation, n: nat)
    requires Continues(c, a, n)
    ensures HandsAnyway(c, a.account, a.generation, a.nonce + 1 + n) <==> a.nonce + 1 + n < MAX_NONCE
  {
    assert Hands(c, a.account, None, a.generation, a.nonce + 1 + n) ==> a.nonce + 1 + n < MAX_NONCE;
  }

  lemma {:induction false} OverHands(c: Cache, a: Reservation, n: nat, nonce: nat)
    requires Over(c, a, n) && Bump(c.generation) == c.generation + 1
    ensures !HandsAnyway(c, a.account, a.generation, nonce) && (n == 0 ==> AsksNode(c, a.account, a.generation))
  {
    assert !Hands(c, a.account, None, a.generation, nonce);
  }

  /** The next reservation of an account has the next nonce, whatever the node would answer, if
      and only if since the last one no reservation of its generation failed, no other account
      got at the cache, and the nonces did not run out. Otherwise the node is asked, and the
      reservation is its pending count in a newer generation. */
  lemma {:induction false} ConsecutiveIff(before: seq<Event>, account: Account, pending: Option<Count>, a: Reservation,
      between: seq<Event>)
    requires |before| + 1 + |between| < MAX_NONCE && Reserve(Run(before).cache, account, pending).1 == Some(a)
    ensures var c := Run(before + [Ask(account, pending)] + between).cache;
      var due := a.nonce + 1 + Asks(account, between);
      && (HandsAnyway(c, account, a.generation, due) <==> Calm(a, between) && due < MAX_NONCE)
      && (!Calm(a, between) && Asks(account, between) == 0 ==> AsksNode(c, account, a.generation))
  {
    var asked := before + [Ask(account, pending)];
    assert asked[..|before|] == before;
    RunSound(before);
    ContinuesIff(asked, a, between);
    RunSound(asked + between);
    var c, n := Run(asked + between).cache, Asks(account, between);
    if Calm(a, between) {
      ContinuingHands(c, a, n);
    } else {
      BumpGrows(c.generation, |asked + between|);
      OverHands(c, a, n, a.nonce + 1 + n);
    }
  }
}
