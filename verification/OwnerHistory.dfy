/** Who owns a repository, read off the event log alone: the last transfer of any of its
    locators decides, and before that its creation. */
module OwnerHistory {
  import opened Order
  import opened Digits
  import opened Evidence
  import opened Replay
  import opened ReplayInvariants

  // ------------------------------------------------------------ the log

  /** What an event says about ownership. */
  datatype Deed =
    | Created(locator: string, owner: string) | Transferred(source: string, target: string, owner: string) | Other

  function DeedOf(a: Attributes): Deed {
    match ActionOf(Get(a, "action"))
    case Some(CreateRepo) => Created(Locator(Get(a, "owner"), Get(a, "repo")), Get(a, "owner"))
    case Some(ForkRepo) => Created(Locator(Get(a, "owner"), Get(a, "repo")), Get(a, "owner"))
    case Some(Transfer) =>
      Transferred(Locator(Get(a, "old_owner"), Get(a, "repo")), Locator(Get(a, "new_owner"), Get(a, "repo")),
        Get(a, "new_owner"))
    case _ => Other
  }

  function EventDeeds(contract: string, tx: Tx, n: nat): seq<Deed>
    requires n <= |tx.events|
  {
    if n == 0 then [] else
    EventDeeds(contract, tx, n - 1) +
      if Acts(tx.events[n - 1], contract) then [DeedOf(tx.events[n - 1].attributes)] else []
  }

  /** The deeds of the first `n` transactions; failed ones have none. */
  function Deeds(contract: string, txs: seq<Tx>, n: nat): seq<Deed>
    requires n <= |txs|
  {
    if n == 0 then [] else
    var tx := txs[n - 1];
    Deeds(contract, txs, n - 1) + if tx.code == 0 then EventDeeds(contract, tx, |tx.events|) else []
  }

  /** Which creation a locator goes back to. */
  function Root(d: seq<Deed>, locator: string): (r: Option<nat>)
    ensures r.Some? ==> r.value < |d| && d[r.value].Created?
  {
    if d == [] then None else
    var n := |d| - 1;
    match d[n]
    case Created(l, _) => if l == locator then Some(n) else Root(d[..n], locator)
    case Transferred(source, target, _) => if target == locator then Root(d[..n], source) else Root(d[..n], locator)
    case Other => Root(d[..n], locator)
  }

  /** Deed `k` transfers the repository of creation `r`. */
  predicate Moves(d: seq<Deed>, k: nat, r: Option<nat>) {
    k < |d| && d[k].Transferred? && Root(d[..k], d[k].source) == r
  }

  /** The owner that the log leaves the repository of creation `r`. */
  function Owner(d: seq<Deed>, r: nat): string {
    if d == [] then "" else
    var n := |d| - 1;
    if n == r && d[n].Created? then d[n].owner
    else if Moves(d, n, Some(r)) then d[n].owner
    else Owner(d[..n], r)
  }

  /** Deed `k` gives a repository to nobody, and nobody transfers it again. */
  predicate Abandons(d: seq<Deed>, k: nat) {
    k < |d| && d[k].Transferred? && d[k].owner == "" && Root(d[..k], d[k].source).Some? &&
    forall j :: k < j < |d| ==> !Moves(d, j, Root(d[..k], d[k].source))
  }

  // ------------------------------------------------- the log against the state

  /** `root` tells exactly the locators, and which of them name one repository; `owner` tells
      whose it is. */
  ghost predicate TracksBy(s: State, root: string -> Option<nat>, owner: nat -> string) {
    && (forall l :: l in s.locators <==> root(l).Some?)
    && (forall l, m :: l in s.locators && m in s.locators ==> (s.locators[l] == s.locators[m] <==> root(l) == root(m)))
    && (forall l ::
          l in s.locators ==>
            s.locators[l] in s.repositories && s.repositories[s.locators[l]].owner == owner(root(l).value))
  }

  /** Creations name an owner and keep their locator. */
  ghost predicate Rooted(d: seq<Deed>) {
    forall r: nat :: r < |d| && d[r].Created? ==> d[r].owner != "" && Root(d, d[r].locator) == Some(r)
  }

  ghost predicate Tracks(s: State, d: seq<Deed>) {
    TracksBy(s, (l: string) => Root(d, l), (r: nat) => Owner(d, r)) && Rooted(d)
  }

  lemma {:induction false} RootNext(d: seq<Deed>, deed: Deed, l: string)
    ensures Root(d + [deed], l) ==
      match deed
      case Created(m, _) => if m == l then Some(|d|) else Root(d, l)
      case Transferred(source, target, _) => if target == l then Root(d, source) else Root(d, l)
      case Other => Root(d, l)
  {
    assert (d + [deed])[..|d|] == d;
  }

  lemma {:induction false} OwnerNext(d: seq<Deed>, deed: Deed, r: nat)
    ensures Owner(d + [deed], r) ==
      if (|d| == r && deed.Created?) || (deed.Transferred? && Root(d, deed.source) == Some(r)) then deed.owner
      else Owner(d, r)
  {
    assert (d + [deed])[..|d|] == d;
  }

  lemma {:induction false} OtherTracks(s: State, t: State, d: seq<Deed>)
    requires Tracks(s, d) && t.locators == s.locators && t.repositories == s.repositories
    ensures Tracks(t, d) && Tracks(t, d + [Other])
  {
    var e := d + [Other];
    forall l ensures Root(e, l) == Root(d, l) { RootNext(d, Other, l); }
    forall r: nat ensures Owner(e, r) == Owner(d, r) { OwnerNext(d, Other, r); }
    SameTracks(s, t, (l: string) => Root(d, l), (r: nat) => Owner(d, r), (l: string) => Root(e, l),
        (r: nat) => Owner(e, r));
    OtherRooted(d);
  }

  lemma {:induction false} SameTracks(s: State, t: State, root: string -> Option<nat>, owner: nat -> string,
      root': string -> Option<nat>, owner': nat -> string)
    requires TracksBy(s, root, owner) && t.locators == s.locators && t.repositories == s.repositories
    requires (forall l :: root'(l) == root(l)) && forall r: nat :: owner'(r) == owner(r)
    ensures TracksBy(t, root, owner) && TracksBy(t, root', owner')
  {
  }

  lemma {:induction false} OtherRooted(d: seq<Deed>)
    requires Rooted(d)
    ensures Rooted(d + [Other])
  {
    var e := d + [Other];
    forall r: nat | r < |e| && e[r].Created? ensures e[r].owner != "" && Root(e, e[r].locator) == Some(r) {
      RootNext(d, Other, e[r].locator);
      assert e[r] == d[r];
    }
  }

  lemma {:induction false} CreateTracksBy(s: State, t: State, root: string -> Option<nat>, owner: nat -> string,
      id: string, locator: string, made: nat, root': string -> Option<nat>, owner': nat -> string)
    requires TracksBy(s, root, owner) && LocatorsInverse(s) && id !in s.repositories && locator !in s.locators
    requires Touches(s, t, id, locator) && t.repositories[id].owner == owner'(made)
    requires forall l :: root'(l) == (if l == locator then Some(made) else root(l)) && root(l) != Some(made)
    requires forall r: nat :: r != made ==> owner'(r) == owner(r)
    ensures TracksBy(t, root', owner')
  {
    assert forall l :: l in s.locators ==> s.locators[l] != id;
  }

  lemma {:induction false} CreateTracks(s: State, t: State, d: seq<Deed>, id: string, locator: string, owner: string)
    requires Tracks(s, d) && LocatorsInverse(s) && id !in s.repositories && locator !in s.locators && owner != ""
    requires Touches(s, t, id, locator) && t.repositories[id].owner == owner
    ensures Tracks(t, d + [Created(locator, owner)])
  {
    var deed := Created(locator, owner);
    var e := d + [deed];
    forall l ensures Root(e, l) == if l == locator then Some(|d|) else Root(d, l) { RootNext(d, deed, l); }
    forall r: nat ensures Owner(e, r) == if r == |d| then owner else Owner(d, r) { OwnerNext(d, deed, r); }
    CreateTracksBy(s, t, (l: string) => Root(d, l), (r: nat) => Owner(d, r), id, locator, |d|,
        (l: string) => Root(e, l), (r: nat) => Owner(e, r));
    CreateRooted(d, deed);
  }

  lemma {:induction false} CreateRooted(d: seq<Deed>, deed: Deed)
    requires Rooted(d) && deed.Created? && deed.owner != "" && Root(d, deed.locator).None?
    ensures Rooted(d + [deed])
  {
    var e := d + [deed];
    forall r: nat | r < |e| && e[r].Created? ensures e[r].owner != "" && Root(e, e[r].locator) == Some(r) {
      RootNext(d, deed, e[r].locator);
      if r < |d| { assert e[r] == d[r]; }
    }
  }

  lemma {:induction false} TransferTracksBy(s: State, t: State, root: string -> Option<nat>, owner: nat -> string,
      id: string, source: string, target: string, root': string -> Option<nat>, owner': nat -> string)
    requires TracksBy(s, root, owner) && source in s.locators && s.locators[source] == id && id in s.repositories
    requires target in s.locators ==> s.locators[target] == id
    requires Touches(s, t, id, target) && t.repositories[id].owner == owner'(root(source).value)
    requires forall l :: root'(l) == if l == target then root(source) else root(l)
    requires forall r: nat :: Some(r) != root(source) ==> owner'(r) == owner(r)
    ensures TracksBy(t, root', owner')
  {
    forall l | l in s.locators ensures root'(l) == root(l) {}
    forall l | l in t.locators ensures t.repositories[t.locators[l]].owner == owner'(root'(l).value) {
      if t.locators[l] != id { assert root(l) != root(source); }
    }
  }

  lemma {:induction false} TransferTracks(s: State, t: State, d: seq<Deed>, id: string, source: string, target: string,
      owner: string)
    requires Tracks(s, d) && source in s.locators && s.locators[source] == id && id in s.repositories
    requires target in s.locators ==> s.locators[target] == id
    requires Touches(s, t, id, target) && t.repositories[id].owner == owner
    ensures Tracks(t, d + [Transferred(source, target, owner)])
  {
    var deed := Transferred(source, target, owner);
    var e := d + [deed];
    forall l ensures Root(e, l) == if l == target then Root(d, source) else Root(d, l) { RootNext(d, deed, l); }
    forall r: nat
      ensures Owner(e, r) == if Root(d, source) == Some(r) then owner else Owner(d, r)
    {
      OwnerNext(d, deed, r);
    }
    TransferTracksBy(s, t, (l: string) => Root(d, l), (r: nat) => Owner(d, r), id, source, target,
        (l: string) => Root(e, l), (r: nat) => Owner(e, r));
    assert Root(d, target).Some? ==> target in s.locators && Root(d, target) == Root(d, source);
    TransferRooted(d, deed);
  }

  lemma {:induction false} TransferRooted(d: seq<Deed>, deed: Deed)
    requires Rooted(d) && deed.Transferred?
    requires Root(d, deed.target).Some? ==> Root(d, deed.target) == Root(d, deed.source)
    ensures Rooted(d + [deed])
  {
    var e := d + [deed];
    forall r: nat | r < |e| && e[r].Created? ensures e[r].owner != "" && Root(e, e[r].locator) == Some(r) {
      RootNext(d, deed, e[r].locator);
      assert e[r] == d[r];
    }
  }

  /** The other actions touch neither locators nor repositories. */
  lemma {:induction false} OthersAside(c: Context, s: State, tx: Tx, n: nat, action: Action, sender: string,
      a: Attributes)
    requires action !in {CreateRepo, ForkRepo, Transfer} && Dispatch(c, s, tx, n, action, sender, a).Some?
    ensures var t := Dispatch(c, s, tx, n, action, sender, a).value;
      t.locators == s.locators && t.repositories == s.repositories
  {
  }

  lemma {:induction false} DispatchTracks(c: Context, s: State, tx: Tx, n: nat, sender: string, a: Attributes,
      d: seq<Deed>)
    requires ValidTx(tx) && Ready(s, tx, n) && Tracks(s, d) && ActionOf(Get(a, "action")).Some?
    requires Dispatch(c, s, tx, n, ActionOf(Get(a, "action")).value, sender, a).Some?
    ensures Tracks(Dispatch(c, s, tx, n, ActionOf(Get(a, "action")).value, sender, a).value, d + [DeedOf(a)])
  {
    var action := ActionOf(Get(a, "action")).value;
    var t := Dispatch(c, s, tx, n, action, sender, a).value;
    if action == CreateRepo || action == ForkRepo {
      FreshIdentity(s, tx, n);
      CreateTracks(s, t, d, Identity(tx.hash, n), Locator(Get(a, "owner"), Get(a, "repo")), Get(a, "owner"));
    } else if action == Transfer {
      var source := Locator(Get(a, "old_owner"), Get(a, "repo"));
      TransferTracks(s, t, d, s.locators[source], source, Locator(Get(a, "new_owner"), Get(a, "repo")),
          Get(a, "new_owner"));
    } else {
      OthersAside(c, s, tx, n, action, sender, a);
      OtherTracks(s, t, d);
    }
  }

  lemma {:induction false} EventTracks(c: Context, s: State, tx: Tx, n: nat, sender: string, a: Attributes,
      d: seq<Deed>)
    requires ValidTx(tx) && n < UINT32_LIMIT && Ready(s, tx, n) && Tracks(s, d)
    requires ApplyEvent(c, s, tx, n, Get(a, "action"), sender, a).Some?
    ensures Tracks(ApplyEvent(c, s, tx, n, Get(a, "action"), sender, a).value, d + [DeedOf(a)])
  {
    var committed := Committed(c, s, tx, n, Get(a, "action"), a);
    SideStep(s, committed, tx, n);
    OtherTracks(s, committed, d);
    DispatchTracks(c, committed, tx, n, sender, a, d);
  }

  lemma {:induction false} EventsTrack(c: Context, s: State, tx: Tx, n: nat, d: seq<Deed>)
    requires ValidTx(tx) && n <= |tx.events| && Ready(s, tx, 0) && Tracks(s, d) && ReplayEvents(c, s, tx, n).Some?
    ensures Tracks(ReplayEvents(c, s, tx, n).value.0, d + EventDeeds(c.contract, tx, n))
  {
    if n == 0 {
      assert d + [] == d;
    } else {
      EventsTrack(c, s, tx, n - 1, d);
      EventsKeep(c, s, tx, n - 1);
      var before, e := ReplayEvents(c, s, tx, n - 1).value.0, tx.events[n - 1];
      NextDeed(c.contract, tx, n, d);
      if Acts(e, c.contract) {
        EventTracks(c, before, tx, n - 1, Sender(tx.events), e.attributes, d + EventDeeds(c.contract, tx, n - 1));
      }
    }
  }

  lemma {:induction false} NextDeed(contract: string, tx: Tx, n: nat, d: seq<Deed>)
    requires 0 < n <= |tx.events|
    ensures var before := d + EventDeeds(contract, tx, n - 1);
      d + EventDeeds(contract, tx, n) ==
      if Acts(tx.events[n - 1], contract) then before + [DeedOf(tx.events[n - 1].attributes)] else before
  {
  }

  /** After any prefix of any sorted log, the state's locators, repositories and owners are what
      the deeds say. */
  lemma {:induction false} LogTracks(c: Context, txs: seq<Tx>, n: nat)
    requires ValidLog(txs) && n <= |txs| && ReplayTxs(c, txs, n).Some?
    ensures Tracks(ReplayTxs(c, txs, n).value, Deeds(c.contract, txs, n))
  {
    if n > 0 {
      LogTracks(c, txs, n - 1);
      LogKeepsInvariant(c, txs, n - 1);
      var s, tx, d := ReplayTxs(c, txs, n - 1).value, txs[n - 1], Deeds(c.contract, txs, n - 1);
      ReadyForNext(c, s, txs, n - 1);
      if tx.code == 0 {
        EventsTrack(c, s, tx, |tx.events|, d);
        OtherTracks(ReplayEvents(c, s, tx, |tx.events|).value.0, ReplayTx(c, s, tx).value, Deeds(c.contract, txs, n));
      } else {
        assert d + [] == d;
      }
    }
  }

  // ------------------------------------------------------ repositories without owner

  ghost predicate Owned(s: State) { forall id :: id in s.repositories ==> s.repositories[id].owner != "" }

  /** A repository ends without an owner exactly when its last transfer named none. */
  lemma {:induction false} OwnerlessIff(d: seq<Deed>, r: nat)
    requires r < |d| && d[r].Created? && d[r].owner != ""
    ensures Owner(d, r) == "" <==> exists k: nat :: Abandons(d, k) && Moves(d, k, Some(r))
  {
    var n := |d| - 1;
    var e := d[..n];
    assert d == e + [d[n]];
    assert forall k: nat :: k < n ==> d[..k] == e[..k] && d[k] == e[k];
    if r < n {
      OwnerlessIff(e, r);
      if Moves(d, n, Some(r)) {
        if d[n].owner == "" { assert Abandons(d, n); }
      } else {
        forall k: nat | k < n
          ensures Abandons(d, k) && Moves(d, k, Some(r)) <==> Abandons(e, k) && Moves(e, k, Some(r))
        {
          LaterMoves(d, e, k, Some(r));
        }
      }
    } else {
      forall k: nat ensures !Moves(d, k, Some(r)) {}
    }
  }

  lemma {:induction false} LaterMoves(d: seq<Deed>, e: seq<Deed>, k: nat, r: Option<nat>)
    requires d != [] && e == d[..|d| - 1] && k < |e| && !Moves(d, |e|, r)
    ensures Moves(d, k, r) <==> Moves(e, k, r)
    ensures Moves(e, k, r) ==> (Abandons(d, k) <==> Abandons(e, k))
  {
    assert d[..k] == e[..k] && d[k] == e[k];
    forall j | k < j < |e| ensures Moves(d, j, r) <==> Moves(e, j, r) { assert d[..j] == e[..j]; }
  }

  lemma {:induction false} RootMoves(d: seq<Deed>, k: nat)
    requires Abandons(d, k)
    ensures exists r: nat :: r < |d| && d[r].Created? && Moves(d, k, Some(r))
  {
    var r := Root(d[..k], d[k].source).value;
    assert d[r] == d[..k][r];
  }

  ghost predicate NoneAbandoned(d: seq<Deed>) { forall k: nat :: !Abandons(d, k) }

  ghost predicate Told(s: State, d: seq<Deed>) { Tracks(s, d) && LocatorsInverse(s) && RecordsComplete(s) }

  /** Every repository has an owner if and only if no transfer to nobody is the last of its
      repository. */
  lemma {:induction false} OwnedIff(s: State, d: seq<Deed>)
    requires Told(s, d)
    ensures Owned(s) <==> NoneAbandoned(d)
  {
    if k: nat :| Abandons(d, k) {
      RootMoves(d, k);
      var r: nat :| r < |d| && d[r].Created? && Moves(d, k, Some(r));
      OwnerlessIff(d, r);
      assert Root(d, d[r].locator) == Some(r);
      assert d[r].locator in s.locators;
      assert s.repositories[s.locators[d[r].locator]].owner == "";
    } else {
      forall id | id in s.repositories ensures s.repositories[id].owner != "" {
        assert RecordComplete(id, s.repositories[id]);
        var l := s.repositories[id].aliases[0];
        assert l in s.locators && s.locators[l] == id;
        OwnerlessIff(d, Root(d, l).value);
      }
    }
  }
}
