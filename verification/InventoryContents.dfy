/** When evidence makes an inventory, and what the inventory then says: entry by entry, in terms of
    the acting events alone. */
module InventoryContents {
  import opened Order
  import opened Digits
  import opened Evidence
  import opened Replay
  import opened ReplayInvariants
  import opened InventoryBuild
  import opened BuilderMeetsValidator
  import opened OwnerHistory
  import opened EventLog
  import opened Commitment
  import opened InventoryMeaning
  import opened LogAcceptance

  // ------------------------------------------------------------ when there is one

  lemma {:induction false} PlacedProved(c: Context, txs: seq<Tx>)
    requires Placed(c, txs, |txs|) && CutoverProved(c)
    ensures Required(c, txs) <= c.evidence.blocks.Keys
  {
    forall h | h in Heights(txs) ensures h in c.evidence.blocks {
      var i :| 0 <= i < |txs| && txs[i].height == h;
      assert Shown(c, txs[i]);
    }
  }

  lemma {:induction false} CoversIff(c: Context, txs: seq<Tx>)
    requires Placed(c, txs, |txs|) && CutoverProved(c)
    ensures |c.evidence.blocks| == |Required(c, txs)| <==> c.evidence.blocks.Keys == Required(c, txs)
  {
    PlacedProved(c, txs);
    assert |c.evidence.blocks.Keys| == |c.evidence.blocks|;
    if |c.evidence.blocks| == |Required(c, txs)| { SubsetSameSize(Required(c, txs), c.evidence.blocks.Keys); }
  }

  /** Chain, contract and cutover are given, the contract can stand in a quoted query, and the
      cutover block is one of this chain. */
  predicate Presented(c: Context) {
    && c.chainId != "" && c.contract != "" && c.cutover > 0
    && (forall x :: x in c.contract ==> x !in {'\'', '"', ' ', '\\', '\t', '\r', '\n'})
    && c.cutover in c.evidence.blocks && c.evidence.blocks[c.cutover].chainId == c.chainId
  }

  /** The pages are one answer: the same query and total on each, and so many valid transactions. */
  predicate Answered(c: Context, pages: seq<Page>) {
    && pages != [] && |Flatten(pages)| == pages[0].totalCount
    && (forall p :: p in pages ==>
         p.query == "wasm._contract_address='" + c.contract + "' AND tx.height<=" + Decimal(c.cutover))
    && (forall p :: p in pages ==> p.totalCount == pages[0].totalCount)
    && (forall p :: p in pages ==> forall tx :: tx in p.txs ==> ValidTx(tx))
  }

  lemma {:induction false} PresentedIff(c: Context)
    ensures Presented(c) <==> SourceGiven(c) && CutoverProved(c)
  {
    if Presented(c) {
      forall i | 0 <= i < |c.contract|
        ensures c.contract[i] !in {'\'', '"', ' ', '\\', '\t', '\r', '\n'} { assert c.contract[i] in c.contract; }
    }
  }

  lemma {:induction false} AnsweredIff(c: Context, pages: seq<Page>)
    ensures Answered(c, pages) <==> Decode(c, pages).Some?
  {
    if Decode(c, pages).Some? {
      forall p | p in pages ensures PageValid(c, p, pages[0].totalCount) {}
    }
    if Answered(c, pages) {
      forall i | 0 <= i < |pages| ensures PageValid(c, pages[i], pages[0].totalCount) { assert pages[i] in pages; }
    }
  }

  /** The log is one the builder takes: placed where the block evidence says, which covers it and
      the cutover and nothing else, and each act fits the acts before it. */
  ghost predicate Sound(c: Context, txs: seq<Tx>) {
    && Placed(c, txs, |txs|) && AllAdmitted(c, LogActs(c.contract, txs, |txs|))
    && c.evidence.blocks.Keys == Required(c, txs)
  }

  /** There is an inventory if and only if the source is presented, the pages are one answer to the
      query, and the log is sound. */
  lemma {:induction false} BuiltIff(c: Context, pages: seq<Page>, source: HexDigest)
    ensures Build(c, pages, source).Some? <==> Presented(c) && Answered(c, pages) && Sound(c, LogOf(c, pages))
  {
    PresentedIff(c);
    AnsweredIff(c, pages);
    if Presented(c) && Answered(c, pages) {
      var txs := LogOf(c, pages);
      SortedLog(c, pages);
      ReplaysIff(c, txs, |txs|);
      if Placed(c, txs, |txs|) { CoversIff(c, txs); }
    }
  }

  // ------------------------------------------------------------ the repositories

  /** The record of the repository that act `i` creates: where it comes from, whose it is now, and
      every locator that ever named it. */
  ghost predicate Describes(acts: seq<Act>, i: nat, r: Repository) {
    && i < |acts| && Origin(acts[i], r) && r.owner == Owner(DeedsOf(acts), i)
    && StrictlySorted(r.aliases, StrLess) && forall l :: l in r.aliases <==> Root(DeedsOf(acts), l) == Some(i)
  }

  ghost predicate AllProper(acts: seq<Act>) { forall i :: 0 <= i < |acts| ==> Proper(acts[i]) }

  lemma {:induction false} DeedAt(acts: seq<Act>, i: nat)
    requires AllProper(acts) && i < |acts|
    ensures DeedsOf(acts)[i].Created? <==> Creates(acts[i])
    ensures Creates(acts[i]) ==> DeedsOf(acts)[i].locator == Attr(acts[i], "owner") + "/" + Attr(acts[i], "repo")
  {
    assert Proper(acts[i]);
  }

  ghost predicate Told(s: State, acts: seq<Act>) {
    Tracks(s, DeedsOf(acts)) && OriginsMean(s, acts) && LocatorsInverse(s) && RecordsComplete(s) && AllProper(acts)
  }

  /** The locators of a repository are those that go back to its creation. */
  lemma {:induction false} AliasesAre(s: State, acts: seq<Act>, id: string, i: nat)
    requires Told(s, acts) && id in s.repositories && i < |acts| && Founds(acts[i], s.repositories[id])
    ensures forall l :: l in s.repositories[id].aliases <==> Root(DeedsOf(acts), l) == Some(i)
    ensures s.repositories[id].owner == Owner(DeedsOf(acts), i)
  {
    var deeds, first := DeedsOf(acts), s.repositories[id].aliases[0];
    DeedAt(acts, i);
    assert first in s.locators && s.locators[first] == id;
    assert Root(deeds, first) == Some(i);
    forall l ensures l in s.repositories[id].aliases <==> Root(deeds, l) == Some(i) {
      assert l in s.repositories[id].aliases <==> l in s.locators && s.locators[l] == id;
    }
  }

  lemma {:induction false} AliasesStrict(r: Repository)
    requires Distinct(r.aliases)
    ensures StrictlySorted(Canonical(r).aliases, StrLess)
  {
    StringOrder();
    CanonicalAliases(r);
    SortedDistinctIsStrict(Canonical(r).aliases, StrLess);
  }

  lemma {:induction false} RecordDescribes(s: State, acts: seq<Act>, id: string, i: nat)
    requires Told(s, acts) && id in s.repositories && i < |acts| && Founds(acts[i], s.repositories[id])
    ensures Describes(acts, i, Canonical(s.repositories[id]))
  {
    assert RecordComplete(id, s.repositories[id]);
    AliasesAre(s, acts, id, i);
    CanonicalAliases(s.repositories[id]);
    AliasesStrict(s.repositories[id]);
  }

  /** An act describes one record. */
  lemma {:induction false} OneRecord(acts: seq<Act>, i: nat, r: Repository, q: Repository)
    requires Describes(acts, i, r) && Describes(acts, i, q)
    ensures r == q
  {
    StringOrder();
    SortedUnique(r.aliases, q.aliases, StrLess);
  }

  /** The records are those that the creations of the log describe. */
  lemma {:induction false} RecordsAre(s: State, acts: seq<Act>, r: Repository)
    requires Told(s, acts)
    ensures r in Records(s) <==> exists i: nat :: Describes(acts, i, r)
  {
    if r in Records(s) {
      var id :| id in s.repositories && r == Canonical(s.repositories[id]);
      assert Founded(acts, s.repositories[id]);
      var i :| 0 <= i < |acts| && Founds(acts[i], s.repositories[id]);
      RecordDescribes(s, acts, id, i);
    }
    if i: nat :| Describes(acts, i, r) {
      var id := Identity(acts[i].tx.hash, acts[i].event);
      RecordDescribes(s, acts, id, i);
      OneRecord(acts, i, r, Canonical(s.repositories[id]));
    }
  }

  ghost predicate Owns(acts: seq<Act>, owner: string) {
    exists i: nat :: i < |acts| && Creates(acts[i]) && Owner(DeedsOf(acts), i) == owner
  }

  lemma {:induction false} OwnersAre(s: State, acts: seq<Act>, owner: string)
    requires Told(s, acts)
    ensures owner in Owners(s) <==> Owns(acts, owner)
  {
    if owner in Owners(s) {
      var id :| id in s.repositories && owner == s.repositories[id].owner;
      assert Founded(acts, s.repositories[id]);
      var i :| 0 <= i < |acts| && Founds(acts[i], s.repositories[id]);
      AliasesAre(s, acts, id, i);
    }
    if i: nat :| i < |acts| && Creates(acts[i]) && Owner(DeedsOf(acts), i) == owner {
      AliasesAre(s, acts, Identity(acts[i].tx.hash, acts[i].event), i);
    }
  }

  // ------------------------------------------------------------ the whole inventory

  /** How many of the first `n` transactions succeeded. */
  function Succeeded(txs: seq<Tx>, n: nat): nat
    requires n <= |txs|
  {
    if n == 0 then 0 else Succeeded(txs, n - 1) + if txs[n - 1].code == 0 then 1 else 0
  }

  lemma {:induction false} CountIs(c: Context, txs: seq<Tx>, n: nat)
    requires n <= |txs| && ReplayTxs(c, txs, n).Some?
    ensures ReplayTxs(c, txs, n).value.successfulTxs == Succeeded(txs, n)
  {
    if n > 0 {
      CountIs(c, txs, n - 1);
      if txs[n - 1].code == 0 {
        EventsCount(c, ReplayTxs(c, txs, n - 1).value, txs[n - 1], |txs[n - 1].events|);
      }
    }
  }

  /** The entries are the things the acts leave behind. */
  ghost predicate RepositoriesSay(acts: seq<Act>, v: Inventory) {
    && (forall r :: r in v.repositories <==> exists i: nat :: Describes(acts, i, r))
    && (forall o :: o in v.owners <==> Owns(acts, o))
  }

  ghost predicate ListsSay(acts: seq<Act>, v: Inventory) {
    && (forall id: nat :: id in v.reportIds <==> Reported(acts, id))
    && (forall name, owner :: Username(name, owner) in v.usernames <==> Holder(acts, name) == Some(owner))
    && (forall r :: r in v.badgeRecipients <==> Awarded(acts, r))
    && (forall x :: x in v.releaseVersions <==> Published(acts, x))
  }

  ghost predicate TrailSays(c: Context, acts: seq<Act>, v: Inventory) {
    var mods := Moderations(acts);
    |v.moderationTrail| == |mods| && forall i :: 0 <= i < |mods| ==> Enters(c, mods[i], v.moderationTrail[i])
  }

  /** The blocks are those of the evidence, with their hashes and times, and the header says what
      was scanned and how. */
  ghost predicate HeaderSays(c: Context, txs: seq<Tx>, v: Inventory) {
    && v.schema == "igit.cosmwasm-v1.inventory.v2" && v.chainId == c.chainId && v.contract == c.contract
    && v.cutoverHeight == c.cutover
    && v.txSearchQuery == "wasm._contract_address='" + c.contract + "' AND tx.height<=" + Decimal(c.cutover)
    && v.blockSha256 == c.evidence.sha256 && v.scannedTxs == |txs| && v.successfulTxs == Succeeded(txs, |txs|)
    && c.cutover in c.evidence.blocks && v.cutoverBlockHash == c.evidence.blocks[c.cutover].hash
    && (forall b :: b in v.blocks <==>
         b.height in c.evidence.blocks && b.hash == c.evidence.blocks[b.height].hash &&
         b.timestamp == c.evidence.blocks[b.height].timestamp)
  }

  lemma {:induction false} StateTold(c: Context, txs: seq<Tx>)
    requires ValidLog(txs) && ReplayTxs(c, txs, |txs|).Some?
    ensures Told(ReplayTxs(c, txs, |txs|).value, LogActs(c.contract, txs, |txs|))
  {
    MeaningInductive(c);
    LogInduction(c, Meaning(), txs, |txs|);
    OriginsAre(c, txs, |txs|);
    LogKeepsInvariant(c, txs, |txs|);
    forall i | 0 <= i < |LogActs(c.contract, txs, |txs|)| ensures Proper(LogActs(c.contract, txs, |txs|)[i]) {
      LogActsProper(c.contract, txs, |txs|, i);
    }
  }

  lemma {:induction false} BlocksAre(heights: seq<nat>, blocks: map<nat, Block>, b: InventoryBlock)
    requires forall h :: h in heights <==> h in blocks
    ensures b in BlocksAt(heights, blocks) <==>
      b.height in blocks && b.hash == blocks[b.height].hash && b.timestamp == blocks[b.height].timestamp
  {
    if b.height in blocks && b.hash == blocks[b.height].hash && b.timestamp == blocks[b.height].timestamp {
      var i :| 0 <= i < |heights| && heights[i] == b.height;
      assert BlocksAt(heights, blocks)[i] == b;
    }
  }

  /** The state that an inventory is assembled from. */
  ghost function Final(c: Context, pages: seq<Page>): State
    requires Decode(c, pages).Some? && ReplayTxs(c, LogOf(c, pages), |LogOf(c, pages)|).Some?
  {
    ReplayTxs(c, LogOf(c, pages), |LogOf(c, pages)|).value
  }

  lemma {:induction false} RepositoriesAre(c: Context, pages: seq<Page>, source: HexDigest)
    requires Build(c, pages, source).Some?
    ensures RepositoriesSay(LogActs(c.contract, LogOf(c, pages), |LogOf(c, pages)|), Build(c, pages, source).value)
  {
    var txs := LogOf(c, pages);
    SortedLog(c, pages);
    StateTold(c, txs);
    RepositoriesTold(Final(c, pages), LogActs(c.contract, txs, |txs|), Build(c, pages, source).value);
  }

  lemma {:induction false} RepositoriesTold(s: State, acts: seq<Act>, v: Inventory)
    requires Told(s, acts) && forall r :: r in v.repositories <==> r in Records(s)
    requires forall o :: o in v.owners <==> o in Owners(s)
    ensures RepositoriesSay(acts, v)
  {
    forall r ensures r in v.repositories <==> exists i: nat :: Describes(acts, i, r) { RecordsAre(s, acts, r); }
    forall o ensures o in v.owners <==> Owns(acts, o) { OwnersAre(s, acts, o); }
  }

  lemma {:induction false} ListsAre(c: Context, pages: seq<Page>, source: HexDigest)
    requires Build(c, pages, source).Some?
    ensures ListsSay(LogActs(c.contract, LogOf(c, pages), |LogOf(c, pages)|), Build(c, pages, source).value)
  {
    var txs := LogOf(c, pages);
    SortedLog(c, pages);
    UsernamesMean(c, txs, |txs|);
    SetsMean(c, txs, |txs|);
  }

  lemma {:induction false} HeaderIs(c: Context, pages: seq<Page>, source: HexDigest)
    requires Build(c, pages, source).Some?
    ensures HeaderSays(c, LogOf(c, pages), Build(c, pages, source).value)
  {
    var txs, v := LogOf(c, pages), Build(c, pages, source).value;
    SortedLog(c, pages);
    CountIs(c, txs, |txs|);
    BuiltIff(c, pages, source);
    NatsComparable(Required(c, txs));
    forall b
      ensures b in v.blocks <==>
        b.height in c.evidence.blocks && b.hash == c.evidence.blocks[b.height].hash &&
        b.timestamp == c.evidence.blocks[b.height].timestamp
    {
      BlocksAre(Enumeration(Required(c, txs), NatLess), c.evidence.blocks, b);
    }
  }

  /** Every entry of a built inventory, and its header, can be read off the acting events. */
  lemma {:induction false} InventorySays(c: Context, pages: seq<Page>, source: HexDigest)
    requires Build(c, pages, source).Some?
    ensures var txs, v := LogOf(c, pages), Build(c, pages, source).value;
      var acts := LogActs(c.contract, txs, |txs|);
      RepositoriesSay(acts, v) && ListsSay(acts, v) && TrailSays(c, acts, v) && HeaderSays(c, txs, v)
  {
    var txs := LogOf(c, pages);
    SortedLog(c, pages);
    RepositoriesAre(c, pages, source);
    ListsAre(c, pages, source);
    HeaderIs(c, pages, source);
    TrailIs(c, txs, |txs|);
  }
}
