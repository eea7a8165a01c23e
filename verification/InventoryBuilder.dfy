/** The builder as the program runs it: an object whose maps are updated event by
    event, proved against the replay specification. */
module InventoryBuilder {
  import opened Order
  import opened Digits
  import opened Evidence
  import opened Replay
  import opened ReplayInvariants
  import opened InventoryBuild

  /** Collects a Go map's keys in no particular order, then sorts them. */
  method SortedElements<T(!new, ==)>(elements: set<T>, less: (T, T) -> bool) returns (s: seq<T>)
    requires WeakOrder(less) && TotalOn(elements, less)
    ensures s == Enumeration(elements, less)
  {
    var collected: seq<T> := [];
    var rest := elements;
    while rest != {}
      invariant rest <= elements && Distinct(collected)
      invariant forall x :: x in collected <==> x in elements - rest
    {
      var x :| x in rest;
      assert x !in collected;
      collected, rest := collected + [x], rest - {x};
    }
    s := SortBy(collected, less);
    SortCollected(collected, elements, less);
  }

  lemma {:induction false} SortCollected<T(!new)>(collected: seq<T>, elements: set<T>, less: (T, T) -> bool)
    requires WeakOrder(less) && TotalOn(elements, less)
    requires Distinct(collected) && forall x :: x in collected <==> x in elements
    ensures SortBy(collected, less) == Enumeration(elements, less)
  {
    var s := SortBy(collected, less);
    SortBySorts(collected, less);
    forall x ensures x in s <==> x in elements {
      assert x in s <==> x in multiset(s);
      assert x in collected <==> x in multiset(collected);
    }
    forall i, j | 0 <= i < j < |s| ensures less(s[i], s[j]) || less(s[j], s[i]) {
      assert s[i] in s && s[j] in s;
      DuplicateCount(s, i, j);
      OccursOnce(collected, s[i]);
    }
    SortedDistinctIsStrict(s, less);
    SortedUnique(s, Enumeration(elements, less), less);
  }

  method SortedNames(names: set<string>) returns (s: seq<string>)
    ensures s == SortedStrings(names)
  {
    StringOrder();
    s := SortedElements(names, StrLess);
    SortedUnique(s, SortedStrings(names), StrLess);
  }

  method WriteFields(keys: seq<string>, attributes: Attributes) returns (fields: string)
    requires forall k :: k in keys ==> k in attributes
    ensures fields == Fields(keys, attributes)
  {
    fields := "";
    for k := 0 to |keys|
      invariant fields == Fields(keys[..k], attributes)
    {
      assert keys[..k + 1][..k] == keys[..k];
      fields := fields + "\0" + keys[k] + "\0" + attributes[keys[k]];
    }
    assert keys[..|keys|] == keys;
  }

  method WriteCanonical(tx: Tx, eventIndex: nat, action: string, attributes: Attributes) returns (text: string)
    ensures text == CanonicalEvent(tx, eventIndex, action, attributes)
  {
    var keys := SortedNames(attributes.Keys);
    var fields := WriteFields(keys, attributes);
    text := EventHeader(tx, eventIndex, action) + fields;
  }

  method AddUnique(values: seq<string>, value: string) returns (r: seq<string>)
    ensures r == AppendUnique(values, value)
  {
    for i := 0 to |values|
      invariant value !in values[..i]
    {
      if values[i] == value { return values; }
    }
    return values + [value];
  }

  class Builder {
    var repositories: map<string, Repository>
    var locators: map<string, string>
    var reports: set<nat>
    var usernameByName: map<string, string>
    var usernameByUser: map<string, string>
    var recipients: set<string>
    var releases: set<string>
    var moderation: seq<Moderation>
    var commitment: HexDigest
    var successfulTxs: nat

    ghost function View(): State
      reads this
    {
      State(repositories, locators, reports, usernameByName, usernameByUser, recipients, releases,
            moderation, commitment, successfulTxs)
    }

    constructor ()
      ensures View() == Initial()
    {
      repositories, locators, reports := map[], map[], {};
      usernameByName, usernameByUser := map[], map[];
      recipients, releases, moderation := {}, {}, [];
      commitment, successfulTxs := Zeros(64), 0;
    }

    method Create(tx: Tx, eventIndex: nat, owner: string, name: string, source: Option<string>) returns (ok: bool)
      modifies this
      ensures ok <==> CreateRepository(old(View()), tx, eventIndex, owner, name, source).Some?
      ensures ok ==> View() == CreateRepository(old(View()), tx, eventIndex, owner, name, source).value
    {
      if owner == "" || name == "" { return false; }
      var locator := Locator(owner, name);
      if locator in locators { return false; }
      var identity := Identity(tx.hash, eventIndex);
      var record := Repository(identity, owner, name, [locator], "", Lower(tx.hash), tx.height, tx.index);
      if source.Some? {
        if source.value == "/" { return false; }
        record := record.(forkedFrom := source.value);
      }
      repositories := repositories[identity := record];
      locators := locators[locator := identity];
      return true;
    }

    method Move(oldOwner: string, newOwner: string, name: string) returns (ok: bool)
      requires LocatorsInverse(View())
      modifies this
      ensures ok <==> TransferOwnership(old(View()), oldOwner, newOwner, name).Some?
      ensures ok ==> View() == TransferOwnership(old(View()), oldOwner, newOwner, name).value
    {
      var oldLocator, newLocator := Locator(oldOwner, name), Locator(newOwner, name);
      if oldLocator !in locators { return false; }
      var identity := locators[oldLocator];
      if newLocator in locators && locators[newLocator] != identity { return false; }
      var repository := repositories[identity];
      var aliases := AddUnique(repository.aliases, newLocator);
      repositories := repositories[identity := repository.(owner := newOwner, aliases := aliases)];
      locators := locators[newLocator := identity];
      return true;
    }

    method Moderate(c: Context, tx: Tx, eventIndex: nat, entry: Moderation) returns (ok: bool)
      modifies this
      ensures ok <==> AddModeration(c, old(View()), tx, eventIndex, entry).Some?
      ensures ok ==> View() == AddModeration(c, old(View()), tx, eventIndex, entry).value
    {
      if BlockTime(c, tx.height) == 0 { return false; }
      if entry.actor == "" || entry.action == "" { return false; }
      if entry.action == "submitted" && (entry.owner == "" || entry.repo == "" || entry.reasonHash == "") {
        return false;
      }
      if (entry.action == "resolved" || entry.action == "appeal_resolved" || entry.action == "status_set") &&
         entry.status == "" {
        return false;
      }
      moderation := moderation + [entry.(timestamp := BlockTime(c, tx.height), height := tx.height, txIndex := tx.index,
                                         eventIndex := eventIndex % UINT32_LIMIT)];
      return true;
    }

    method Report(c: Context, tx: Tx, eventIndex: nat, reportId: string, entry: Moderation) returns (ok: bool)
      modifies this
      ensures ok <==> SubmitReport(c, old(View()), tx, eventIndex, reportId, entry).Some?
      ensures ok ==> View() == SubmitReport(c, old(View()), tx, eventIndex, reportId, entry).value
    {
      var id := ParseUint(reportId);
      if id.None? || id.value == 0 || id.value in reports { return false; }
      reports := reports + {id.value};
      ok := Moderate(c, tx, eventIndex, entry.(reportId := id.value));
    }

    method Continue(c: Context, tx: Tx, eventIndex: nat, reportId: string, entry: Moderation) returns (ok: bool)
      modifies this
      ensures ok <==> FollowUp(c, old(View()), tx, eventIndex, reportId, entry).Some?
      ensures ok ==> View() == FollowUp(c, old(View()), tx, eventIndex, reportId, entry).value
    {
      var id := ParseUint(reportId);
      if id.None? || id.value == 0 || id.value !in reports { return false; }
      ok := Moderate(c, tx, eventIndex, entry.(reportId := id.value));
    }

    method ClaimUsername(name: string, owner: string) returns (ok: bool)
      modifies this
      ensures ok <==> RegisterUsername(old(View()), name, owner).Some?
      ensures ok ==> View() == RegisterUsername(old(View()), name, owner).value
    {
      if name == "" || owner == "" { return false; }
      if Get(usernameByName, name) != "" { return false; }
      if Get(usernameByUser, owner) != "" { return false; }
      usernameByName, usernameByUser := usernameByName[name := owner], usernameByUser[owner := name];
      return true;
    }

    method DropUsername(name: string, owner: string) returns (ok: bool)
      modifies this
      ensures ok <==> ReleaseUsername(old(View()), name, owner).Some?
      ensures ok ==> View() == ReleaseUsername(old(View()), name, owner).value
    {
      if Get(usernameByName, name) != owner || Get(usernameByUser, owner) != name { return false; }
      usernameByName, usernameByUser := usernameByName - {name}, usernameByUser - {owner};
      return true;
    }

    method Award(recipient: string) returns (ok: bool)
      modifies this
      ensures ok <==> AddRecipient(old(View()), recipient).Some?
      ensures ok ==> View() == AddRecipient(old(View()), recipient).value
    {
      if recipient == "" { return false; }
      recipients := recipients + {recipient};
      return true;
    }

    method Publish(version: string) returns (ok: bool)
      modifies this
      ensures ok <==> AddRelease(old(View()), version).Some?
      ensures ok ==> View() == AddRelease(old(View()), version).value
    {
      if version == "" { return false; }
      releases := releases + {version};
      return true;
    }

    method Switch(c: Context, tx: Tx, eventIndex: nat, action: Action, sender: string, a: Attributes) returns (ok: bool)
      requires LocatorsInverse(View())
      modifies this
      ensures ok <==> Dispatch(c, old(View()), tx, eventIndex, action, sender, a).Some?
      ensures ok ==> View() == Dispatch(c, old(View()), tx, eventIndex, action, sender, a).value
    {
      match action
      case CreateRepo => ok := Create(tx, eventIndex, Get(a, "owner"), Get(a, "repo"), None);
      case ForkRepo => ok := Create(tx, eventIndex, Get(a, "owner"), Get(a, "repo"), Some(ForkSource(a)));
      case Transfer => ok := Move(Get(a, "old_owner"), Get(a, "new_owner"), Get(a, "repo"));
      case Submit => ok := Report(c, tx, eventIndex, Get(a, "report_id"), EntryOf(action, sender, a));
      case Resolve => ok := Continue(c, tx, eventIndex, Get(a, "report_id"), EntryOf(action, sender, a));
      case Appeal => ok := Continue(c, tx, eventIndex, Get(a, "report_id"), EntryOf(action, sender, a));
      case ResolveAppeal => ok := Continue(c, tx, eventIndex, Get(a, "report_id"), EntryOf(action, sender, a));
      case SetStatus => ok := Moderate(c, tx, eventIndex, EntryOf(action, sender, a));
      case Register => ok := ClaimUsername(Get(a, "name"), Get(a, "owner"));
      case Release => ok := DropUsername(Get(a, "name"), Get(a, "owner"));
      case AwardBadge => ok := Award(Get(a, "recipient"));
      case RegisterRelease => ok := Publish(Get(a, "version"));
      case Inert => ok := true;
    }

    /** `inventoryBuilder.apply`: extends the commitment, then switches on the action. */
    method Apply(c: Context, tx: Tx, eventIndex: nat, action: string, sender: string, a: Attributes) returns (ok: bool)
      requires LocatorsInverse(View())
      modifies this
      ensures ok <==> ApplyEvent(c, old(View()), tx, eventIndex, action, sender, a).Some?
      ensures ok ==> View() == ApplyEvent(c, old(View()), tx, eventIndex, action, sender, a).value
    {
      var canonical := WriteCanonical(tx, eventIndex, action, a);
      commitment := c.digest(commitment, canonical);
      assert View() == Committed(c, old(View()), tx, eventIndex, action, a);
      var known := ActionOf(action);
      if known.None? { return false; }
      ok := Switch(c, tx, eventIndex, known.value, sender, a);
    }

    /** The event loop of one successful transaction. */
    method ApplyAll(c: Context, tx: Tx) returns (ok: bool)
      requires ValidTx(tx) && tx.code == 0 && Ready(View(), tx, 0)
      modifies this
      ensures ok <==> ReplayTx(c, old(View()), tx).Some?
      ensures ok ==> View() == ReplayTx(c, old(View()), tx).value
    {
      var matched := false;
      var sender := Sender(tx.events);
      for n := 0 to |tx.events|
        invariant ReplayEvents(c, old(View()), tx, n) == Some((View(), matched))
      {
        EventsKeep(c, old(View()), tx, n);
        var e := tx.events[n];
        if IsContractEvent(e, c.contract) && Get(e.attributes, "action") != "" {
          matched := true;
          var applied := Apply(c, tx, n, Get(e.attributes, "action"), sender, e.attributes);
          if !applied {
            EventsFail(c, old(View()), tx, n + 1, |tx.events|);
            return false;
          }
        }
      }
      if !matched { return false; }
      successfulTxs := successfulTxs + 1;
      return true;
    }
  }

  lemma {:induction false} EventsFail(c: Context, s: State, tx: Tx, n: nat, m: nat)
    requires n <= m <= |tx.events| && ReplayEvents(c, s, tx, n).None?
    ensures ReplayEvents(c, s, tx, m).None?
    decreases m
  {
    if n < m { EventsFail(c, s, tx, n, m - 1); }
  }

  lemma {:induction false} TxsFail(c: Context, txs: seq<Tx>, n: nat, m: nat)
    requires n <= m <= |txs| && ReplayTxs(c, txs, n).None?
    ensures ReplayTxs(c, txs, m).None?
    decreases m
  {
    if n < m { TxsFail(c, txs, n, m - 1); }
  }

  /** `decodeTxSearch` over decoded pages, with the total count check. */
  method DecodePages(c: Context, pages: seq<Page>) returns (r: Option<seq<Tx>>)
    ensures r == Decode(c, pages)
  {
    if pages == [] { return None; }
    var result: seq<Tx> := [];
    var total := pages[0].totalCount;
    for k := 0 to |pages|
      invariant result == Flatten(pages[..k])
      invariant forall i :: 0 <= i < k ==> PageValid(c, pages[i], total)
    {
      if pages[k].query != ExpectedQuery(c.contract, c.cutover) || pages[k].totalCount != total { return None; }
      for i := 0 to |pages[k].txs|
        invariant forall j :: 0 <= j < i ==> ValidTx(pages[k].txs[j])
        invariant result == Flatten(pages[..k]) + pages[k].txs[..i]
      {
        if !ValidTx(pages[k].txs[i]) { return None; }
        result := result + [pages[k].txs[i]];
        assert pages[k].txs[..i + 1] == pages[k].txs[..i] + [pages[k].txs[i]];
      }
      assert pages[..k + 1][..k] == pages[..k];
      assert pages[k].txs[..|pages[k].txs|] == pages[k].txs;
    }
    assert pages[..|pages|] == pages;
    if |result| != total { return None; }
    return Some(result);
  }

  /** What the loop's maps remember of the first `n` transactions. */
  ghost predicate Remembers(c: Context, txs: seq<Tx>, n: nat, positions: set<(nat, nat)>, hashes: set<string>,
      required: map<nat, Block>)
    requires n <= |txs|
  {
    positions == (set i | 0 <= i < n :: (txs[i].height, txs[i].index)) &&
    hashes == (set i | 0 <= i < n :: txs[i].hash) &&
    required.Keys == Required(c, txs[..n]) &&
    forall h :: h in required ==> h in c.evidence.blocks && required[h] == c.evidence.blocks[h]
  }

  /** The replay of the first transactions, as far as the loop needs to know it. */
  ghost function Replayer(c: Context, txs: seq<Tx>): nat -> Option<State>
    requires ValidLog(txs)
  {
    (n: nat) => if n <= |txs| then ReplayTxs(c, txs, n) else None
  }

  /** One transaction: its checks and, if it succeeded, its events. */
  method NextTransaction(c: Context, b: Builder, txs: seq<Tx>, n: nat, positions: set<(nat, nat)>, hashes: set<string>,
      required: map<nat, Block>, ghost replay: nat -> Option<State>)
    returns (ok: bool, positions': set<(nat, nat)>, hashes': set<string>, required': map<nat, Block>)
    requires ValidLog(txs) && n < |txs| && replay == Replayer(c, txs) && replay(n) == Some(b.View())
    requires Remembers(c, txs, n, positions, hashes, required)
    modifies b
    ensures ok ==> replay(n + 1) == Some(b.View()) && Remembers(c, txs, n + 1, positions', hashes', required')
    ensures !ok ==> replay(|txs|).None?
  {
    ok, positions', hashes', required' := Admit(c, txs, n, positions, hashes, required);
    if ok {
      ok := ApplyAdmitted(c, b, txs, n, replay);
    } else {
      Inadmissible(c, txs, n);
    }
  }

  lemma {:induction false} Inadmissible(c: Context, txs: seq<Tx>, n: nat)
    requires ValidLog(txs) && n < |txs| && !Admissible(c, txs, n)
    ensures Replayer(c, txs)(|txs|).None?
  {
    TxsFail(c, txs, n + 1, |txs|);
  }

  lemma {:induction false} ReplayNext(c: Context, txs: seq<Tx>, n: nat, s: State, r: Option<State>)
    requires ValidLog(txs) && n < |txs| && Admissible(c, txs, n) && Replayer(c, txs)(n) == Some(s)
    requires r == ReplayTx(c, s, txs[n])
    ensures Replayer(c, txs)(n + 1) == r && (r.None? ==> Replayer(c, txs)(|txs|).None?)
  {
    if r.None? { TxsFail(c, txs, n + 1, |txs|); }
  }

  lemma {:induction false} ReplayReady(c: Context, txs: seq<Tx>, n: nat, s: State)
    requires ValidLog(txs) && n < |txs| && Admissible(c, txs, n) && Replayer(c, txs)(n) == Some(s)
    ensures Ready(s, txs[n], 0)
  {
    LogKeepsInvariant(c, txs, n);
    ReadyForNext(c, s, txs, n);
  }

  method ApplyAdmitted(c: Context, b: Builder, txs: seq<Tx>, n: nat, ghost replay: nat -> Option<State>)
    returns (ok: bool)
    requires ValidLog(txs) && n < |txs| && Admissible(c, txs, n) && replay == Replayer(c, txs)
    requires replay(n) == Some(b.View())
    modifies b
    ensures ok ==> replay(n + 1) == Some(b.View())
    ensures !ok ==> replay(|txs|).None?
  {
    ReplayReady(c, txs, n, b.View());
    ReplayNext(c, txs, n, b.View(), ReplayTx(c, b.View(), txs[n]));
    ok := ApplyTransaction(c, b, txs[n]);
  }

  method ApplyTransaction(c: Context, b: Builder, tx: Tx) returns (ok: bool)
    requires ValidTx(tx) && Ready(b.View(), tx, 0)
    modifies b
    ensures ok <==> ReplayTx(c, old(b.View()), tx).Some?
    ensures ok ==> ReplayTx(c, old(b.View()), tx) == Some(b.View())
  {
    if tx.code != 0 { return true; }
    ok := b.ApplyAll(c, tx);
  }

  method ReplayLoop(c: Context, txs: seq<Tx>, b: Builder, first: map<nat, Block>, ghost replay: nat -> Option<State>)
    returns (ok: bool, required: map<nat, Block>)
    requires ValidLog(txs) && replay == Replayer(c, txs) && replay(0) == Some(b.View())
    requires Remembers(c, txs, 0, {}, {}, first)
    modifies b
    ensures ok <==> replay(|txs|).Some?
    ensures ok ==>
      replay(|txs|) == Some(b.View()) &&
      exists positions, hashes :: Remembers(c, txs, |txs|, positions, hashes, required)
  {
    required := first;
    var positions: set<(nat, nat)>, hashes: set<string> := {}, {};
    for n := 0 to |txs|
      invariant replay(n) == Some(b.View()) && Remembers(c, txs, n, positions, hashes, required)
    {
      ok, positions, hashes, required := NextTransaction(c, b, txs, n, positions, hashes, required, replay);
      if !ok { return; }
    }
    ok := true;
  }

  /** The transaction loop: positions and hashes once each, blocks proved, events applied. */
  method ReplayLog(c: Context, txs: seq<Tx>) returns (ok: bool, b: Builder, required: map<nat, Block>)
    requires ValidLog(txs) && CutoverProved(c)
    ensures fresh(b)
    ensures ok <==> ReplayTxs(c, txs, |txs|).Some?
    ensures ok ==> b.View() == ReplayTxs(c, txs, |txs|).value && required.Keys == Required(c, txs)
    ensures ok ==> forall h :: h in required ==> h in c.evidence.blocks && required[h] == c.evidence.blocks[h]
  {
    b := new Builder();
    var first := map[c.cutover := c.evidence.blocks[c.cutover]];
    ok, required := ReplayLoop(c, txs, b, first, Replayer(c, txs));
    assert txs[..|txs|] == txs;
  }

  lemma {:induction false} HeightsStep(txs: seq<Tx>, n: nat)
    requires n < |txs|
    ensures Heights(txs[..n + 1]) == Heights(txs[..n]) + {txs[n].height}
  {
    assert forall i :: 0 <= i < n ==> txs[..n + 1][i] == txs[..n][i];
    assert txs[..n + 1][n] == txs[n];
    forall h | h in Heights(txs[..n]) ensures h in Heights(txs[..n + 1]) {
      var i :| 0 <= i < n && txs[..n][i].height == h;
      assert txs[..n + 1][i].height == h;
    }
  }

  /** The checks on transaction `n`, and what the loop remembers of it. */
  method Admit(c: Context, txs: seq<Tx>, n: nat, positions: set<(nat, nat)>, hashes: set<string>,
      required: map<nat, Block>)
    returns (ok: bool, positions': set<(nat, nat)>, hashes': set<string>, required': map<nat, Block>)
    requires n < |txs| && Remembers(c, txs, n, positions, hashes, required)
    ensures ok <==> Admissible(c, txs, n)
    ensures ok ==> Remembers(c, txs, n + 1, positions', hashes', required')
  {
    positions', hashes', required' := positions, hashes, required;
    var tx := txs[n];
    ok := false;
    if tx.height > c.cutover { return; }
    if (tx.height, tx.index) in positions { return; }
    if tx.hash in hashes { return; }
    if tx.height !in c.evidence.blocks { return; }
    var block := c.evidence.blocks[tx.height];
    if block.chainId != c.chainId { return; }
    if tx.index >= |block.txHashes| || block.txHashes[tx.index] != tx.hash { return; }
    positions' := positions + {(tx.height, tx.index)};
    hashes' := hashes + {tx.hash};
    required' := required[tx.height := block];
    HeightsStep(txs, n);
    ok := true;
  }

  /** The block list of `BuildInventory`. */
  method ListBlocks(heights: seq<nat>, required: map<nat, Block>) returns (blocks: seq<InventoryBlock>)
    requires forall i :: 0 <= i < |heights| ==> heights[i] in required
    ensures |blocks| == |heights|
    ensures forall k ::
      0 <= k < |heights| ==>
        blocks[k] == InventoryBlock(heights[k], required[heights[k]].hash, required[heights[k]].timestamp)
  {
    blocks := [];
    for i := 0 to |heights|
      invariant |blocks| == i
      invariant forall k ::
        0 <= k < i ==>
          blocks[k] == InventoryBlock(heights[k], required[heights[k]].hash, required[heights[k]].timestamp)
    {
      var block := required[heights[i]];
      blocks := blocks + [InventoryBlock(heights[i], block.hash, block.timestamp)];
    }
  }

  /** `inventoryBuilder.inventory` and the block list appended after it. */
  method AssembleInventory(c: Context, b: Builder, source: HexDigest, scanned: nat, required: map<nat, Block>)
    returns (v: Inventory)
    requires RecordsComplete(b.View()) && CutoverProved(c) && required.Keys <= c.evidence.blocks.Keys
    requires forall h :: h in required ==> required[h] == c.evidence.blocks[h]
    ensures v == Assemble(c, b.View(), source, scanned, required.Keys)
  {
    ghost var s := b.View();
    RecordsComparable(s);
    UsernamesComparable(s);
    NatsComparable(required.Keys);
    NatsComparable(s.reports);
    var records := set id | id in b.repositories :: Canonical(b.repositories[id]);
    var owners := set id | id in b.repositories :: b.repositories[id].owner;
    var usernames := set name | name in b.usernameByName :: Username(name, b.usernameByName[name]);
    assert records == Records(s) && owners == Owners(s) && usernames == Usernames(s);
    var repositoryList := SortedElements(records, RepositoryLess);
    var ownerList := SortedNames(owners);
    var reportList := SortedElements(b.reports, NatLess);
    var usernameList := SortedElements(usernames, UsernameLess);
    var recipientList := SortedNames(b.recipients);
    var releaseList := SortedNames(b.releases);
    var heights := SortedElements(required.Keys, NatLess);
    assert forall i :: 0 <= i < |heights| ==> heights[i] in required.Keys;
    var blocks := ListBlocks(heights, required);
    assert blocks == BlocksAt(heights, c.evidence.blocks);
    v := Inventory(
      INVENTORY_SCHEMA, c.chainId, c.contract, c.cutover, c.evidence.blocks[c.cutover].hash,
      ExpectedQuery(c.contract, c.cutover), source, c.evidence.sha256, b.commitment,
      scanned, b.successfulTxs, blocks, repositoryList, ownerList, reportList,
      b.moderation, usernameList, recipientList, releaseList);
  }

  /** `BuildInventory`, for every evidence pair. */
  method BuildInventory(c: Context, pages: seq<Page>, source: HexDigest) returns (r: Option<Inventory>)
    ensures r == Build(c, pages, source)
  {
    if !SourceGiven(c) { return None; }
    var txs := DecodePages(c, pages);
    if txs.None? || !CutoverProved(c) { return None; }
    var sorted := SortBy(txs.value, TxLess);
    SortedLog(c, pages);
    var ok, b, required := ReplayLog(c, sorted);
    assert |required| == |required.Keys|;
    if !ok || |c.evidence.blocks| != |required| { return None; }
    LogKeepsInvariant(c, sorted, |sorted|);
    var v := AssembleInventory(c, b, source, |txs.value|, required);
    return Some(v);
  }
}
