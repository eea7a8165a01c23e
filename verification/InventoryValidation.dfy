/** The independent validator: what an inventory must satisfy, and the loops that check it. */
module InventoryValidation {
  import opened Order
  import opened Digits
  import opened Evidence
  import opened Replay

  predicate HeaderValid(v: Inventory) {
    v.schema == INVENTORY_SCHEMA && v.chainId != "" && v.contract != "" && v.cutoverHeight != 0 &&
    v.txSearchQuery == ExpectedQuery(v.contract, v.cutoverHeight) &&
    v.successfulTxs <= v.scannedTxs && IsLowerHash(v.cutoverBlockHash) &&
    IsLowerHash(v.sourceSha256) && IsLowerHash(v.blockSha256) && IsLowerHash(v.eventCommitment)
  }

  predicate BlockValid(b: InventoryBlock) {
    b.height > 0 && b.timestamp > 0 && IsLowerHash(b.hash)
  }

  predicate BlocksValid(blocks: seq<InventoryBlock>, cutover: nat, cutoverHash: string) {
    (forall i :: 0 <= i < |blocks| ==> BlockValid(blocks[i])) &&
    (forall i, j :: 0 <= i < j < |blocks| ==> blocks[i].height < blocks[j].height) &&
    (exists i :: 0 <= i < |blocks| && blocks[i].height == cutover && blocks[i].hash == cutoverHash)
  }

  predicate CollectionsSorted(v: Inventory) {
    Sorted(v.repositories, RepositoryLess) && Sorted(v.owners, StrLess) && Sorted(v.badgeRecipients, StrLess) &&
    Sorted(v.releaseVersions, StrLess) && Sorted(v.reportIds, NatLess) && Sorted(v.usernames, UsernameLess)
  }

  predicate EntryValid(m: Moderation) {
    m.action != "" && m.actor != "" && m.timestamp != 0 && m.height != 0
  }

  predicate Follows(previous: Moderation, m: Moderation) {
    StrLess(Position(previous), Position(m))
  }

  predicate TrailValid(trail: seq<Moderation>) {
    (forall i :: 0 <= i < |trail| ==> EntryValid(trail[i])) &&
    (forall i :: 1 <= i < |trail| ==> Follows(trail[i - 1], trail[i]))
  }

  predicate RepositoryValid(r: Repository) {
    r.identity != "" && r.owner != "" && r.name != "" && r.createdTxHash != "" && r.createdHeight != 0 &&
    r.aliases != [] && Sorted(r.aliases, StrLess)
  }

  /** All alias lists, one after another. */
  function AllAliases(repositories: seq<Repository>): seq<string> {
    if repositories == [] then []
    else AllAliases(repositories[..|repositories| - 1]) + repositories[|repositories| - 1].aliases
  }

  predicate RepositoriesValid(repositories: seq<Repository>) {
    (forall i :: 0 <= i < |repositories| ==> RepositoryValid(repositories[i])) &&
    (forall i, j :: 0 <= i < j < |repositories| ==> repositories[i].identity != repositories[j].identity) &&
    Distinct(AllAliases(repositories))
  }

  predicate NoBlankOrRepeat(values: seq<string>) {
    forall i :: 0 <= i < |values| ==> values[i] != "" && (i > 0 ==> values[i] != values[i - 1])
  }

  predicate ReportIdsValid(ids: seq<nat>) {
    forall i :: 0 <= i < |ids| ==> ids[i] != 0 && (i > 0 ==> ids[i] != ids[i - 1])
  }

  predicate UsernamesValid(usernames: seq<Username>) {
    (forall i :: 0 <= i < |usernames| ==> usernames[i].name != "" && usernames[i].owner != "") &&
    (forall i, j :: 0 <= i < j < |usernames| ==>
      usernames[i].name != usernames[j].name && usernames[i].owner != usernames[j].owner)
  }

  predicate Valid(v: Inventory) {
    HeaderValid(v) && BlocksValid(v.blocks, v.cutoverHeight, v.cutoverBlockHash) && CollectionsSorted(v) &&
    TrailValid(v.moderationTrail) && RepositoriesValid(v.repositories) && NoBlankOrRepeat(v.owners) &&
    NoBlankOrRepeat(v.badgeRecipients) && NoBlankOrRepeat(v.releaseVersions) &&
    ReportIdsValid(v.reportIds) && UsernamesValid(v.usernames)
  }

  // ------------------------------------------------------------- the loops

  /** `sort.SliceIsSorted`: compares neighbours from the end. */
  method IsSorted<T(!new)>(s: seq<T>, less: (T, T) -> bool) returns (ok: bool)
    requires WeakOrder(less)
    ensures ok <==> Sorted(s, less)
  {
    NeighboursSuffice(s, less);
    var i := |s| - 1;
    while i > 0
      invariant forall k :: i < k < |s| && k >= 1 ==> !less(s[k], s[k - 1])
    {
      if less(s[i], s[i - 1]) { return false; }
      i := i - 1;
    }
    return true;
  }

  method CheckBlocks(blocks: seq<InventoryBlock>, cutover: nat, cutoverHash: string) returns (ok: bool)
    ensures ok <==> BlocksValid(blocks, cutover, cutoverHash)
  {
    if blocks == [] { return false; }
    var cutoverFound := false;
    var previousHeight: nat := 0;
    for n := 0 to |blocks|
      invariant forall i :: 0 <= i < n ==> BlockValid(blocks[i]) && blocks[i].height <= previousHeight
      invariant forall i, j :: 0 <= i < j < n ==> blocks[i].height < blocks[j].height
      invariant cutoverFound <==> exists i :: 0 <= i < n && blocks[i].height == cutover && blocks[i].hash == cutoverHash
      invariant if n == 0 then previousHeight == 0 else previousHeight == blocks[n - 1].height
    {
      var block := blocks[n];
      if block.height == 0 || block.height <= previousHeight || block.timestamp == 0 { return false; }
      if !IsLowerHash(block.hash) { return false; }
      if block.height == cutover { cutoverFound := block.hash == cutoverHash; }
      previousHeight := block.height;
    }
    return cutoverFound;
  }

  /** The trail loop, for any completeness test and any non-empty position text. */
  method CheckIncreasing<T(!new)>(trail: seq<T>, complete: T -> bool, position: T -> string) returns (ok: bool)
    requires forall t :: position(t) != ""
    ensures ok <==> (forall i :: 0 <= i < |trail| ==> complete(trail[i])) &&
                    (forall i :: 1 <= i < |trail| ==> StrLess(position(trail[i - 1]), position(trail[i])))
  {
    var previousPosition := "";
    for n := 0 to |trail|
      invariant forall i :: 0 <= i < n ==> complete(trail[i])
      invariant forall i :: 1 <= i < n ==> StrLess(position(trail[i - 1]), position(trail[i]))
      invariant previousPosition == if n == 0 then "" else position(trail[n - 1])
    {
      if !complete(trail[n]) { return false; }
      var after := IsAfter(position(trail[n]), previousPosition);
      if previousPosition != "" && !after { return false; }
      previousPosition := position(trail[n]);
    }
    return true;
  }

  method CheckTrail(trail: seq<Moderation>) returns (ok: bool)
    ensures ok <==> TrailValid(trail)
  {
    assert forall m: Moderation :: |Position(m)| >= 1;
    ok := CheckIncreasing(trail, EntryValid, Position);
  }

  /** Go's `position <= previous` on strings, negated. */
  method IsAfter(position: string, previous: string) returns (ok: bool)
    ensures ok <==> StrLess(previous, position)
  {
    StringOrder();
    StrLessTotal(position, previous);
    ok := !(position == previous || StrLess(position, previous));
  }

  method CheckRepositories(repositories: seq<Repository>) returns (ok: bool)
    ensures ok <==> RepositoriesValid(repositories)
  {
    StringOrder();
    var identities, locators: set<string> := {}, {};
    for n := 0 to |repositories|
      invariant RepositoriesValid(repositories[..n])
      invariant identities == set i | 0 <= i < n :: repositories[i].identity
      invariant locators == set l | l in AllAliases(repositories[..n])
    {
      var r := repositories[n];
      assert repositories[..n + 1][..n] == repositories[..n];
      assert AllAliases(repositories[..n + 1]) == AllAliases(repositories[..n]) + r.aliases;
      PrefixAliases(repositories, n + 1);
      if r.identity == "" || r.owner == "" || r.name == "" || r.createdTxHash == "" || r.createdHeight == 0 {
        return false;
      }
      if r.identity in identities { return false; }
      identities := identities + {r.identity};
      var sorted := IsSorted(r.aliases, StrLess);
      if !sorted || r.aliases == [] { return false; }
      var unseen;
      unseen, locators := CheckAliases(r.aliases, AllAliases(repositories[..n]), locators);
      if !unseen { return false; }
    }
    assert repositories[..|repositories|] == repositories;
    return true;
  }

  lemma {:induction false} PrefixAliases(repositories: seq<Repository>, n: nat)
    requires n <= |repositories|
    ensures AllAliases(repositories[..n]) <= AllAliases(repositories)
    ensures Distinct(AllAliases(repositories)) ==> Distinct(AllAliases(repositories[..n]))
  {
    if n < |repositories| {
      var front := repositories[..|repositories| - 1];
      PrefixAliases(front, n);
      assert front[..n] == repositories[..n];
    } else {
      assert repositories[..n] == repositories;
    }
  }

  /** The inner loop over one repository's aliases; `earlier` lists those already seen. */
  method CheckAliases(aliases: seq<string>, ghost earlier: seq<string>, seen: set<string>)
    returns (ok: bool, locators: set<string>)
    requires Distinct(earlier) && seen == set l | l in earlier
    ensures ok <==> Distinct(earlier + aliases)
    ensures ok ==> locators == set l | l in earlier + aliases
  {
    locators := seen;
    for k := 0 to |aliases|
      invariant Distinct(earlier + aliases[..k])
      invariant locators == set l | l in earlier + aliases[..k]
    {
      ghost var before := earlier + aliases[..k];
      assert earlier + aliases[..k + 1] == before + [aliases[k]];
      if aliases[k] in locators {
        ghost var i :| 0 <= i < |before| && before[i] == aliases[k];
        assert (earlier + aliases)[i] == (earlier + aliases)[|earlier| + k];
        return false, locators;
      }
      locators := locators + {aliases[k]};
    }
    assert aliases[..|aliases|] == aliases;
    ok := true;
  }

  method CheckNoRepeat(values: seq<string>) returns (ok: bool)
    ensures ok <==> NoBlankOrRepeat(values)
  {
    for n := 0 to |values|
      invariant forall i :: 0 <= i < n ==> values[i] != "" && (i > 0 ==> values[i] != values[i - 1])
    {
      if values[n] == "" || (n > 0 && values[n] == values[n - 1]) { return false; }
    }
    return true;
  }

  method CheckReportIds(ids: seq<nat>) returns (ok: bool)
    ensures ok <==> ReportIdsValid(ids)
  {
    for n := 0 to |ids|
      invariant forall i :: 0 <= i < n ==> ids[i] != 0 && (i > 0 ==> ids[i] != ids[i - 1])
    {
      if ids[n] == 0 || (n > 0 && ids[n] == ids[n - 1]) { return false; }
    }
    return true;
  }

  method CheckUsernames(usernames: seq<Username>) returns (ok: bool)
    ensures ok <==> UsernamesValid(usernames)
  {
    var names, owners: set<string> := {}, {};
    for n := 0 to |usernames|
      invariant UsernamesValid(usernames[..n])
      invariant names == set i | 0 <= i < n :: usernames[i].name
      invariant owners == set i | 0 <= i < n :: usernames[i].owner
    {
      var u := usernames[n];
      if u.name == "" || u.owner == "" { return false; }
      if u.name in names || u.owner in owners { return false; }
      names, owners := names + {u.name}, owners + {u.owner};
      assert usernames[..n + 1] == usernames[..n] + [u];
    }
    assert usernames[..|usernames|] == usernames;
    return true;
  }

  /** `ValidateInventory` decides exactly `Valid`. */
  method ValidateInventory(v: Inventory) returns (ok: bool)
    ensures ok <==> Valid(v)
  {
    if !HeaderValid(v) { return false; }
    ok := CheckBlocks(v.blocks, v.cutoverHeight, v.cutoverBlockHash);
    if !ok { return; }
    ok := CheckSorted(v);
    if !ok { return; }
    ok := CheckTrail(v.moderationTrail);
    if !ok { return; }
    ok := CheckRepositories(v.repositories);
    if !ok { return; }
    ok := CheckNoRepeat(v.owners);
    if !ok { return; }
    ok := CheckNoRepeat(v.badgeRecipients);
    if !ok { return; }
    ok := CheckNoRepeat(v.releaseVersions);
    if !ok { return; }
    ok := CheckReportIds(v.reportIds);
    if !ok { return; }
    ok := CheckUsernames(v.usernames);
  }

  method CheckSorted(v: Inventory) returns (ok: bool)
    ensures ok <==> CollectionsSorted(v)
  {
    StringOrder();
    RepositoryOrder();
    UsernameOrder();
    NatOrder();
    ok := IsSorted(v.repositories, RepositoryLess);
    if !ok { return; }
    ok := IsSorted(v.owners, StrLess);
    if !ok { return; }
    ok := IsSorted(v.badgeRecipients, StrLess);
    if !ok { return; }
    ok := IsSorted(v.releaseVersions, StrLess);
    if !ok { return; }
    ok := IsSorted(v.reportIds, NatLess);
    if !ok { return; }
    ok := IsSorted(v.usernames, UsernameLess);
  }
}
