/** The builder's output satisfies the independent validator, exactly when the log
    leaves no repository without an owner. */
module BuilderMeetsValidator {
  import opened Order
  import opened Digits
  import opened Evidence
  import opened Replay
  import opened ReplayInvariants
  import opened OwnerHistory
  import opened InventoryValidation
  import opened InventoryBuild

  /** What `ReadBlockEvidence` guarantees of the evidence it returns. */
  predicate EvidenceRead(e: BlockEvidence) {
    forall h :: h in e.blocks ==> h > 0 && e.blocks[h].timestamp > 0 && IsLowerHash(e.blocks[h].hash)
  }

  // --------------------------------------------------------------- counting

  lemma {:induction false} DispatchCounts(c: Context, s: State, tx: Tx, n: nat, action: Action, sender: string,
      a: Attributes)
    requires Dispatch(c, s, tx, n, action, sender, a).Some?
    ensures Dispatch(c, s, tx, n, action, sender, a).value.successfulTxs == s.successfulTxs
  {
  }

  lemma {:induction false} EventsCount(c: Context, s: State, tx: Tx, n: nat)
    requires n <= |tx.events| && ReplayEvents(c, s, tx, n).Some?
    ensures ReplayEvents(c, s, tx, n).value.0.successfulTxs == s.successfulTxs
  {
    if n > 0 {
      EventsCount(c, s, tx, n - 1);
      var before, e := ReplayEvents(c, s, tx, n - 1).value.0, tx.events[n - 1];
      if Acts(e, c.contract) {
        var action := Get(e.attributes, "action");
        DispatchCounts(c, Committed(c, before, tx, n - 1, action, e.attributes), tx, n - 1,
                       ActionOf(action).value, Sender(tx.events), e.attributes);
      }
    }
  }

  lemma {:induction false} CountBounded(c: Context, txs: seq<Tx>, n: nat)
    requires n <= |txs| && ReplayTxs(c, txs, n).Some?
    ensures ReplayTxs(c, txs, n).value.successfulTxs <= n
  {
    if n > 0 {
      CountBounded(c, txs, n - 1);
      if txs[n - 1].code == 0 {
        EventsCount(c, ReplayTxs(c, txs, n - 1).value, txs[n - 1], |txs[n - 1].events|);
      }
    }
  }

  // ---------------------------------------------------------- sorted collections

  lemma {:induction false} EnumerationSorted<T(!new)>(s: seq<T>, elements: set<T>, less: (T, T) -> bool)
    requires WeakOrder(less) && Enumerates(s, elements, less)
    ensures Sorted(s, less) && Distinct(s)
  {
    forall i, j | 0 <= i < j < |s| ensures !less(s[j], s[i]) && s[i] != s[j] {
      assert less(s[i], s[j]) && !less(s[i], s[i]);
    }
  }

  lemma {:induction false} StringsCanonical(names: set<string>)
    ensures Sorted(SortedStrings(names), StrLess)
    ensures NoBlankOrRepeat(SortedStrings(names)) <==> "" !in names
  {
    StringOrder();
    var s := SortedStrings(names);
    EnumerationSorted(s, names, StrLess);
    assert forall i :: 0 <= i < |s| ==> s[i] in s;
  }

  lemma {:induction false} ReportsCanonical(ids: set<nat>)
    requires 0 !in ids && TotalOn(ids, NatLess) && WeakOrder(NatLess)
    ensures Sorted(Enumeration(ids, NatLess), NatLess) && ReportIdsValid(Enumeration(ids, NatLess))
  {
    var s := Enumeration(ids, NatLess);
    EnumerationSorted(s, ids, NatLess);
    assert forall i :: 0 <= i < |s| ==> s[i] in s;
  }

  lemma {:induction false} UsernamesCanonical(s: State)
    requires UsernamesInverse(s) && WeakOrder(UsernameLess) && TotalOn(Usernames(s), UsernameLess)
    ensures var u := Enumeration(Usernames(s), UsernameLess); Sorted(u, UsernameLess) && UsernamesValid(u)
  {
    var u := Enumeration(Usernames(s), UsernameLess);
    EnumerationSorted(u, Usernames(s), UsernameLess);
    forall i | 0 <= i < |u| ensures u[i].name in s.usernameByName && u[i].owner == s.usernameByName[u[i].name] {
      assert u[i] in Usernames(s);
    }
  }

  lemma {:induction false} BlocksCanonical(c: Context, heights: set<nat>)
    requires EvidenceRead(c.evidence) && CutoverProved(c) && c.cutover in heights && heights <= c.evidence.blocks.Keys
    requires WeakOrder(NatLess) && TotalOn(heights, NatLess)
    ensures BlocksValid(BlocksAt(Enumeration(heights, NatLess), c.evidence.blocks), c.cutover,
      c.evidence.blocks[c.cutover].hash)
  {
    var h := Enumeration(heights, NatLess);
    var blocks := BlocksAt(h, c.evidence.blocks);
    forall i | 0 <= i < |blocks| ensures BlockValid(blocks[i]) { assert h[i] in heights; }
    forall i, j | 0 <= i < j < |blocks| ensures blocks[i].height < blocks[j].height { assert NatLess(h[i], h[j]); }
    assert c.cutover in h;
    var k :| 0 <= k < |h| && h[k] == c.cutover;
    assert blocks[k].height == c.cutover && blocks[k].hash == c.evidence.blocks[c.cutover].hash;
  }

  lemma {:induction false} TrailCanonical(trail: seq<Moderation>)
    requires TrailComplete(trail)
    ensures TrailValid(trail)
  {
    forall i | 1 <= i < |trail| ensures Follows(trail[i - 1], trail[i]) {
      assert Complete(trail[i - 1]) && Complete(trail[i]);
      PositionOrder(trail[i - 1], trail[i]);
    }
  }

  // -------------------------------------------------------------- repositories

  lemma {:induction false} CanonicalAliases(r: Repository)
    ensures Sorted(Canonical(r).aliases, StrLess) && multiset(Canonical(r).aliases) == multiset(r.aliases)
    ensures r.aliases != [] ==> Canonical(r).aliases != []
    ensures Distinct(r.aliases) ==> Distinct(Canonical(r).aliases)
    ensures forall l :: l in Canonical(r).aliases <==> l in r.aliases
  {
    StringOrder();
    SortBySorts(r.aliases, StrLess);
    var sorted := Canonical(r).aliases;
    assert |sorted| == |multiset(sorted)| == |r.aliases|;
    forall l ensures l in sorted <==> l in r.aliases {
      assert l in sorted <==> l in multiset(sorted);
      assert l in r.aliases <==> l in multiset(r.aliases);
    }
    if Distinct(r.aliases) {
      forall i, j | 0 <= i < j < |sorted| ensures sorted[i] != sorted[j] {
        DuplicateCount(sorted, i, j);
        OccursOnce(r.aliases, sorted[i]);
      }
    }
  }

  lemma {:induction false} InSomeList(repositories: seq<Repository>, l: string) returns (k: nat)
    requires l in AllAliases(repositories)
    ensures k < |repositories| && l in repositories[k].aliases
  {
    var last := |repositories| - 1;
    if l in repositories[last].aliases {
      k := last;
    } else {
      assert l in AllAliases(repositories[..last]);
      k := InSomeList(repositories[..last], l);
    }
  }

  lemma {:induction false} ListsDisjoint(repositories: seq<Repository>)
    requires forall i :: 0 <= i < |repositories| ==> Distinct(repositories[i].aliases)
    requires forall i, j, l ::
      0 <= i < j < |repositories| && l in repositories[i].aliases ==> l !in repositories[j].aliases
    ensures Distinct(AllAliases(repositories))
  {
    if repositories != [] {
      var last := |repositories| - 1;
      ListsDisjoint(repositories[..last]);
      var front := AllAliases(repositories[..last]);
      forall l | l in front ensures l !in repositories[last].aliases {
        var k := InSomeList(repositories[..last], l);
        assert l in repositories[k].aliases;
      }
      var all := AllAliases(repositories);
      assert all == front + repositories[last].aliases;
      forall i, j | 0 <= i < j < |all| ensures all[i] != all[j] {
        if i < |front| <= j {
          assert all[i] in front && all[j] in repositories[last].aliases;
        }
      }
    }
  }

  lemma {:induction false} RecordSource(s: State, r: Repository)
    requires RecordsComplete(s) && r in Records(s)
    ensures r.identity in s.repositories && r == Canonical(s.repositories[r.identity])
  {
    var id :| id in s.repositories && r == Canonical(s.repositories[id]);
    assert RecordComplete(id, s.repositories[id]);
  }

  lemma {:induction false} RecordsApart(s: State, a: Repository, b: Repository)
    requires RecordsComplete(s) && LocatorsInverse(s) && a in Records(s) && b in Records(s) && a != b
    ensures a.identity != b.identity
    ensures forall l :: l in a.aliases ==> l !in b.aliases
  {
    RecordSource(s, a);
    RecordSource(s, b);
    var x, y := s.repositories[a.identity], s.repositories[b.identity];
    CanonicalAliases(x);
    CanonicalAliases(y);
    forall l | l in a.aliases ensures l !in b.aliases {
      assert l in x.aliases;
      assert s.locators[l] == a.identity;
    }
  }

  lemma {:induction false} RepositoriesCanonical(s: State)
    requires RecordsComplete(s) && LocatorsInverse(s)
    requires WeakOrder(RepositoryLess) && TotalOn(Records(s), RepositoryLess)
    ensures var r := Enumeration(Records(s), RepositoryLess);
            Sorted(r, RepositoryLess) && (Owned(s) ==> RepositoriesValid(r))
    ensures RepositoriesValid(Enumeration(Records(s), RepositoryLess)) ==> Owned(s)
  {
    var r := Enumeration(Records(s), RepositoryLess);
    EnumerationSorted(r, Records(s), RepositoryLess);
    forall i | 0 <= i < |r|
      ensures r[i].identity in s.repositories && RepositoryValid(r[i].(owner := "x")) && Distinct(r[i].aliases)
      ensures r[i].owner == s.repositories[r[i].identity].owner
    {
      assert r[i] in Records(s);
      RecordSource(s, r[i]);
      CanonicalAliases(s.repositories[r[i].identity]);
      assert RecordComplete(r[i].identity, s.repositories[r[i].identity]);
    }
    forall i, j | 0 <= i < j < |r|
      ensures r[i].identity != r[j].identity && forall l :: l in r[i].aliases ==> l !in r[j].aliases
    {
      assert r[i] in Records(s) && r[j] in Records(s);
      RecordsApart(s, r[i], r[j]);
    }
    ListsDisjoint(r);
    if RepositoriesValid(r) {
      forall id | id in s.repositories ensures s.repositories[id].owner != "" {
        var record := Canonical(s.repositories[id]);
        assert record in Records(s);
        assert record in r;
        var k :| 0 <= k < |r| && r[k] == record;
        assert RepositoryValid(r[k]);
      }
    }
  }

  // ------------------------------------------------------------ the theorem

  /** The replayed state behind a built inventory. */
  ghost function FinalState(c: Context, pages: seq<Page>): Option<State> {
    var txs :- Decode(c, pages);
    ReplayTxs(c, SortBy(txs, TxLess), |SortBy(txs, TxLess)|)
  }

  lemma {:induction false} AssembledValid(c: Context, s: State, source: HexDigest, scanned: nat, heights: set<nat>)
    requires SourceGiven(c) && CutoverProved(c) && EvidenceRead(c.evidence)
    requires Invariant(s) && s.successfulTxs <= scanned
    requires c.cutover in heights && heights <= c.evidence.blocks.Keys
    ensures Valid(Assemble(c, s, source, scanned, heights)) <==> Owned(s)
  {
    RecordsComparable(s);
    UsernamesComparable(s);
    NatsComparable(heights);
    NatsComparable(s.reports);
    RepositoriesCanonical(s);
    UsernamesCanonical(s);
    ReportsCanonical(s.reports);
    BlocksCanonical(c, heights);
    TrailCanonical(s.moderation);
    StringsCanonical(Owners(s));
    StringsCanonical(s.recipients);
    StringsCanonical(s.releases);
    assert "" !in Owners(s) <==> Owned(s);
  }

  /** The sorted transactions of the pages. */
  function SortedTxs(pages: seq<Page>): seq<Tx> { SortBy(Flatten(pages), TxLess) }

  /** The ownership deeds of the pages in log order. */
  function PageDeeds(contract: string, pages: seq<Page>): seq<Deed> {
    Deeds(contract, SortedTxs(pages), |SortedTxs(pages)|)
  }

  lemma {:induction false} BuildOwned(c: Context, pages: seq<Page>, source: HexDigest)
    requires EvidenceRead(c.evidence) && Build(c, pages, source).Some?
    ensures FinalState(c, pages).Some?
    ensures Valid(Build(c, pages, source).value) <==> Owned(FinalState(c, pages).value)
  {
    var sorted := SortBy(Decode(c, pages).value, TxLess);
    SortedLog(c, pages);
    LogKeepsInvariant(c, sorted, |sorted|);
    CountBounded(c, sorted, |sorted|);
    HeightsProved(c, sorted, |sorted|);
    assert sorted[..|sorted|] == sorted;
    AssembledValid(c, FinalState(c, pages).value, source, |sorted|, Required(c, sorted));
  }

  lemma {:induction false} FinalTold(c: Context, txs: seq<Tx>)
    requires ValidLog(txs) && ReplayTxs(c, txs, |txs|).Some?
    ensures Told(ReplayTxs(c, txs, |txs|).value, Deeds(c.contract, txs, |txs|))
  {
    LogKeepsInvariant(c, txs, |txs|);
    LogTracks(c, txs, |txs|);
  }

  lemma {:induction false} FinalOwned(c: Context, txs: seq<Tx>)
    requires ValidLog(txs) && ReplayTxs(c, txs, |txs|).Some?
    ensures Owned(ReplayTxs(c, txs, |txs|).value) <==> NoneAbandoned(Deeds(c.contract, txs, |txs|))
  {
    FinalTold(c, txs);
    OwnedIff(ReplayTxs(c, txs, |txs|).value, Deeds(c.contract, txs, |txs|));
  }

  /** Every successful build is accepted by the validator if and only if, in the log, no transfer
      to the empty owner is the last transfer of its repository. */
  lemma {:induction false} BuildValidIff(c: Context, pages: seq<Page>, source: HexDigest)
    requires EvidenceRead(c.evidence) && Build(c, pages, source).Some?
    ensures Valid(Build(c, pages, source).value) <==> NoneAbandoned(PageDeeds(c.contract, pages))
  {
    BuildOwned(c, pages, source);
    SortedLog(c, pages);
    FinalOwned(c, SortedTxs(pages));
  }

  // ------------------------------------------- when every repository keeps an owner

  /** Each accepted ownership transfer names the new owner. */
  predicate TransfersNamed(tx: Tx, contract: string) {
    forall i :: 0 <= i < |tx.events| && Acts(tx.events[i], contract) ==> TransferNamed(tx.events[i].attributes)
  }

  predicate TransferNamed(a: Attributes) {
    ActionOf(Get(a, "action")) == Some(Transfer) ==> Get(a, "new_owner") != ""
  }

  predicate AllNamed(d: seq<Deed>) { forall k :: 0 <= k < |d| ==> d[k].Transferred? ==> d[k].owner != "" }

  lemma {:induction false} EventDeedsNamed(contract: string, tx: Tx, n: nat)
    requires TransfersNamed(tx, contract) && n <= |tx.events|
    ensures AllNamed(EventDeeds(contract, tx, n))
  {
    if n > 0 { EventDeedsNamed(contract, tx, n - 1); }
  }

  lemma {:induction false} DeedsNamed(contract: string, txs: seq<Tx>, n: nat)
    requires n <= |txs| && forall i :: 0 <= i < |txs| ==> TransfersNamed(txs[i], contract)
    ensures AllNamed(Deeds(contract, txs, n))
  {
    if n > 0 {
      DeedsNamed(contract, txs, n - 1);
      EventDeedsNamed(contract, txs[n - 1], |txs[n - 1].events|);
    }
  }

  /** Builder meets validator: when every transfer names its new owner, whatever builds validates. */
  lemma {:induction false} BuildMeetsValidator(c: Context, pages: seq<Page>, source: HexDigest)
    requires EvidenceRead(c.evidence) && Build(c, pages, source).Some?
    requires forall i :: 0 <= i < |Flatten(pages)| ==> TransfersNamed(Flatten(pages)[i], c.contract)
    ensures Valid(Build(c, pages, source).value)
  {
    var txs, sorted := Flatten(pages), SortedTxs(pages);
    SortedLog(c, pages);
    forall i | 0 <= i < |sorted| ensures TransfersNamed(sorted[i], c.contract) {
      assert sorted[i] in multiset(sorted);
      assert sorted[i] in txs;
    }
    DeedsNamed(c.contract, sorted, |sorted|);
    BuildValidIff(c, pages, source);
  }

  // ------------------------------------------- a build the validator rejects

  function ExampleHash(): string { seq(64, _ => 'A') }

  function ExampleEvent(extra: Attributes): Event {
    Event("wasm", map["_contract_address" := "k", "repo" := "r"] + extra)
  }

  function ExampleTx(): Tx {
    Tx(ExampleHash(), 1, 0, 0, [
      ExampleEvent(map["action" := "create_repo", "owner" := "a"]),
      ExampleEvent(map["action" := "transfer_ownership", "old_owner" := "a", "new_owner" := ""])])
  }

  function ExampleContext(digest: (HexDigest, string) -> HexDigest): Context {
    Context(digest, "chain", "k", 1,
            BlockEvidence(Zeros(64), map[1 := Block("chain", Zeros(64), 1, [ExampleHash()])]))
  }

  /** Creating a repository and at once transferring it to nobody. */
  lemma {:induction false} CreateThenGiveUp(c: Context, tx: Tx, owner: string, name: string)
    requires tx.code == 0 && |tx.events| == 2 && owner != "" && name != "" && Admissible(c, [tx], 0)
    requires Acts(tx.events[0], c.contract) && Acts(tx.events[1], c.contract)
    requires ActionOf(Get(tx.events[0].attributes, "action")) == Some(CreateRepo)
    requires ActionOf(Get(tx.events[1].attributes, "action")) == Some(Transfer)
    requires Get(tx.events[0].attributes, "owner") == owner && Get(tx.events[0].attributes, "repo") == name
    requires Get(tx.events[1].attributes, "old_owner") == owner && Get(tx.events[1].attributes, "repo") == name
    requires Get(tx.events[1].attributes, "new_owner") == ""
    ensures ReplayTxs(c, [tx], 1).Some? && !Owned(ReplayTxs(c, [tx], 1).value)
  {
    var x, y := tx.events[0].attributes, tx.events[1].attributes;
    var s0 := Committed(c, Initial(), tx, 0, Get(x, "action"), x);
    var s1 := CreateRepository(s0, tx, 0, owner, name, None).value;
    assert ReplayEvents(c, Initial(), tx, 0) == Some((Initial(), false));
    assert ReplayEvents(c, Initial(), tx, 1) == Some((s1, true));
    var s2 := Committed(c, s1, tx, 1, Get(y, "action"), y);
    GiveUp(s2, Identity(tx.hash, 0), owner, name);
    var s3 := TransferOwnership(s2, owner, "", name).value;
    assert ReplayEvents(c, Initial(), tx, 2) == Some((s3, true));
    assert ReplayTxs(c, [tx], 0) == Some(Initial());
  }

  lemma {:induction false} GiveUp(s: State, id: string, owner: string, name: string)
    requires s.locators == map[Locator(owner, name) := id] && id in s.repositories
    ensures TransferOwnership(s, owner, "", name).Some? && !Owned(TransferOwnership(s, owner, "", name).value)
  {
    assert TransferOwnership(s, owner, "", name).value.repositories[id].owner == "";
  }

  /** One page holding one transaction builds as soon as that transaction replays. */
  lemma {:induction false} SingleTxBuilds(c: Context, tx: Tx, source: HexDigest)
    requires SourceGiven(c) && CutoverProved(c) && ValidTx(tx) && ReplayTxs(c, [tx], 1).Some?
    requires c.evidence.blocks.Keys == {tx.height, c.cutover}
    ensures var pages := [Page(ExpectedQuery(c.contract, c.cutover), 1, [tx])];
            Build(c, pages, source).Some? && FinalState(c, pages) == ReplayTxs(c, [tx], 1)
  {
    var pages := [Page(ExpectedQuery(c.contract, c.cutover), 1, [tx])];
    assert Flatten(pages[..0]) == [];
    assert Flatten(pages) == [tx];
    assert Decode(c, pages) == Some([tx]);
    assert SortBy([tx][1..], TxLess) == [];
    assert SortBy([tx], TxLess) == [tx];
    assert Heights([tx]) == {tx.height} by { assert [tx][0].height in Heights([tx]); }
    assert |c.evidence.blocks| == |c.evidence.blocks.Keys|;
  }

  lemma {:induction false} ExampleEvents()
    ensures var tx := ExampleTx(); Acts(tx.events[0], "k") && Acts(tx.events[1], "k")
    ensures var a := ExampleTx().events[0].attributes;
            Get(a, "action") == "create_repo" && Get(a, "owner") == "a" && Get(a, "repo") == "r"
    ensures var a := ExampleTx().events[1].attributes;
            Get(a, "action") == "transfer_ownership" && Get(a, "old_owner") == "a" && Get(a, "new_owner") == "" &&
            Get(a, "repo") == "r"
  {
  }

  lemma {:induction false} ExampleActions()
    ensures ActionOf("create_repo") == Some(CreateRepo) && ActionOf("transfer_ownership") == Some(Transfer)
  {
  }

  lemma {:induction false} ExampleReplays(c: Context)
    requires c == ExampleContext(c.digest)
    ensures ReplayTxs(c, [ExampleTx()], 1).Some? && !Owned(ReplayTxs(c, [ExampleTx()], 1).value)
  {
    assert Admissible(c, [ExampleTx()], 0);
    ExampleEvents();
    ExampleActions();
    CreateThenGiveUp(c, ExampleTx(), "a", "r");
  }

  /** A transfer to the empty owner is replayed without complaint, and the inventory it gives is rejected. */
  lemma {:induction false} EmptyTransferRejected(c: Context, source: HexDigest)
    requires c == ExampleContext(c.digest)
    ensures var pages := [Page(ExpectedQuery("k", 1), 1, [ExampleTx()])];
            EvidenceRead(c.evidence) && Build(c, pages, source).Some? && !Valid(Build(c, pages, source).value)
  {
    ExampleReplays(c);
    SingleTxBuilds(c, ExampleTx(), source);
    BuildOwned(c, [Page(ExpectedQuery("k", 1), 1, [ExampleTx()])], source);
  }
}
