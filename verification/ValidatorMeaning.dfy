/** What the validator's comparisons of neighbours amount to for the whole inventory. */
module ValidatorMeaning {
  import opened Order
  import opened Digits
  import opened Evidence
  import opened InventoryValidation

  // ------------------------------------------------------------ ascending lists

  /** Ascending and different from the neighbour before is strictly ascending. */
  lemma {:induction false} StrictIff<T(!new)>(s: seq<T>, less: (T, T) -> bool)
    requires WeakOrder(less) && Irreflexive(less) && Transitive(less)
    requires forall i, j :: 0 <= i < j < |s| ==> s[i] == s[j] || less(s[i], s[j]) || less(s[j], s[i])
    ensures StrictlySorted(s, less) <==> Sorted(s, less) && forall i :: 1 <= i < |s| ==> s[i] != s[i - 1]
  {
    if StrictlySorted(s, less) {
      forall i, j | 0 <= i < j < |s| ensures !less(s[j], s[i]) {
        assert less(s[i], s[j]);
      }
    }
    if Sorted(s, less) && forall i :: 1 <= i < |s| ==> s[i] != s[i - 1] {
      forall i, j | 0 <= i < j < |s| ensures less(s[i], s[j]) {
        assert s[i + 1] != s[i] && !less(s[i + 1], s[i]);
        assert less(s[i], s[i + 1]) && (i + 1 < j ==> !less(s[j], s[i + 1]));
      }
    }
  }

  /** Strictly ascending texts, none of them empty. */
  ghost predicate TextSet(s: seq<string>) { StrictlySorted(s, StrLess) && "" !in s }

  lemma {:induction false} TextsIff(s: seq<string>)
    ensures TextSet(s) <==> Sorted(s, StrLess) && NoBlankOrRepeat(s)
  {
    StringOrder();
    StrictIff(s, StrLess);
  }

  /** Strictly ascending numbers, none of them zero. */
  ghost predicate NumberSet(s: seq<nat>) { StrictlySorted(s, NatLess) && 0 !in s }

  lemma {:induction false} NumbersIff(s: seq<nat>)
    ensures NumberSet(s) <==> Sorted(s, NatLess) && ReportIdsValid(s)
  {
    NatOrder();
    StrictIff(s, NatLess);
  }

  /** Strictly ascending names, each with an owner of its own. */
  ghost predicate NameTable(s: seq<Username>) {
    && (forall i :: 0 <= i < |s| ==> s[i].name != "" && s[i].owner != "")
    && (forall i, j :: 0 <= i < j < |s| ==> StrLess(s[i].name, s[j].name) && s[i].owner != s[j].owner)
  }

  lemma {:induction false} NamesIff(s: seq<Username>)
    ensures NameTable(s) <==> Sorted(s, UsernameLess) && UsernamesValid(s)
  {
    StringOrder();
    if Sorted(s, UsernameLess) && UsernamesValid(s) {
      forall i, j | 0 <= i < j < |s| ensures StrLess(s[i].name, s[j].name) { assert !UsernameLess(s[j], s[i]); }
    }
    if NameTable(s) {
      forall i, j | 0 <= i < j < |s| ensures !UsernameLess(s[j], s[i]) && s[i].name != s[j].name {
        assert StrLess(s[i].name, s[j].name);
      }
    }
  }

  // ------------------------------------------------------------ the trail

  predicate Earlier(a: Moderation, b: Moderation) {
    || a.height < b.height
    || (a.height == b.height && a.txIndex < b.txIndex)
    || (a.height == b.height && a.txIndex == b.txIndex && a.eventIndex < b.eventIndex)
  }

  ghost predicate InOrder(trail: seq<Moderation>) {
    && (forall i :: 0 <= i < |trail| ==> EntryValid(trail[i]))
    && (forall i, j :: 0 <= i < j < |trail| ==> Earlier(trail[i], trail[j]))
  }

  lemma {:induction false} EarlierByNeighbours(trail: seq<Moderation>, i: nat, j: nat)
    requires i < j < |trail| && forall k :: 1 <= k < |trail| ==> Earlier(trail[k - 1], trail[k])
    ensures Earlier(trail[i], trail[j])
  {
    if i < j - 1 { EarlierByNeighbours(trail, i, j - 1); }
    assert Earlier(trail[j - 1], trail[j]);
  }

  /** Comparing the texts of neighbours is comparing all positions as numbers. */
  lemma {:induction false} TrailIff(trail: seq<Moderation>)
    requires forall i :: 0 <= i < |trail| ==> InRange(trail[i])
    ensures InOrder(trail) <==> TrailValid(trail)
  {
    forall k | 1 <= k < |trail| ensures Follows(trail[k - 1], trail[k]) <==> Earlier(trail[k - 1], trail[k]) {
      PositionOrder(trail[k - 1], trail[k]);
    }
    if TrailValid(trail) {
      forall i, j | 0 <= i < j < |trail| ensures Earlier(trail[i], trail[j]) { EarlierByNeighbours(trail, i, j); }
    }
  }

  // ------------------------------------------------------------ the repositories

  /** By owner, then by name, then by identity. */
  predicate Precedes(a: Repository, b: Repository) {
    || StrLess(a.owner, b.owner)
    || (a.owner == b.owner && StrLess(a.name, b.name))
    || (a.owner == b.owner && a.name == b.name && StrLess(a.identity, b.identity))
  }

  predicate Recorded(r: Repository) {
    r.identity != "" && r.owner != "" && r.name != "" && r.createdTxHash != "" && r.createdHeight != 0 &&
    r.aliases != []
  }

  /** No locator names two repositories. */
  ghost predicate Apart(s: seq<Repository>) {
    forall i, j, l :: 0 <= i < j < |s| && l in s[i].aliases ==> l !in s[j].aliases
  }

  ghost predicate Registry(s: seq<Repository>) {
    && (forall i :: 0 <= i < |s| ==> Recorded(s[i]) && StrictlySorted(s[i].aliases, StrLess))
    && (forall i, j :: 0 <= i < j < |s| ==> Precedes(s[i], s[j]) && s[i].identity != s[j].identity)
    && Apart(s)
  }

  ghost predicate EachDistinct(s: seq<Repository>) { forall i :: 0 <= i < |s| ==> Distinct(s[i].aliases) }

  lemma {:induction false} DistinctParts(a: seq<string>, b: seq<string>)
    ensures Distinct(a + b) <==> Distinct(a) && Distinct(b) && forall l :: l in a ==> l !in b
  {
    var both := a + b;
    if Distinct(both) {
      forall i, j | 0 <= i < j < |a| ensures a[i] != a[j] { assert both[i] != both[j]; }
      forall i, j | 0 <= i < j < |b| ensures b[i] != b[j] { assert both[|a| + i] != both[|a| + j]; }
      forall l | l in a ensures l !in b {
        var i :| 0 <= i < |a| && a[i] == l;
        forall j | 0 <= j < |b| ensures b[j] != l { assert both[i] != both[|a| + j]; }
      }
    }
    if Distinct(a) && Distinct(b) && forall l :: l in a ==> l !in b {
      forall i, j | 0 <= i < j < |both| ensures both[i] != both[j] {
        if i < |a| <= j { assert both[i] in a && both[j] in b; }
      }
    }
  }

  lemma {:induction false} AliasIn(s: seq<Repository>, l: string)
    ensures l in AllAliases(s) <==> exists i :: 0 <= i < |s| && l in s[i].aliases
  {
    if s != [] {
      var n := |s| - 1;
      AliasIn(s[..n], l);
      if i :| 0 <= i < |s| && l in s[i].aliases { if i < n { assert s[..n][i] == s[i]; } }
      if i :| 0 <= i < n && l in s[..n][i].aliases { assert s[..n][i] == s[i]; }
    }
  }

  lemma {:induction false} ApartNext(s: seq<Repository>, n: nat)
    requires |s| == n + 1
    ensures Apart(s) <==> Apart(s[..n]) && forall l :: l in AllAliases(s[..n]) ==> l !in s[n].aliases
  {
    var front := s[..n];
    forall l ensures l in AllAliases(front) <==> exists i :: 0 <= i < n && l in front[i].aliases { AliasIn(front, l); }
    if Apart(s) {
      forall i, j, l | 0 <= i < j < n && l in front[i].aliases ensures l !in front[j].aliases {
        assert front[i] == s[i] && front[j] == s[j];
      }
      forall l | l in AllAliases(front) ensures l !in s[n].aliases {
        var i :| 0 <= i < n && l in front[i].aliases;
        assert front[i] == s[i];
      }
    }
    if Apart(front) && forall l :: l in AllAliases(front) ==> l !in s[n].aliases {
      forall i, j, l | 0 <= i < j < |s| && l in s[i].aliases ensures l !in s[j].aliases {
        assert front[i] == s[i];
        if j < n { assert front[j] == s[j]; }
      }
    }
  }

  lemma {:induction false} AliasesIff(s: seq<Repository>)
    ensures Distinct(AllAliases(s)) <==> EachDistinct(s) && Apart(s)
  {
    if s != [] {
      var n := |s| - 1;
      AliasesIff(s[..n]);
      DistinctParts(AllAliases(s[..n]), s[n].aliases);
      ApartNext(s, n);
      assert forall i :: 0 <= i < n ==> s[..n][i] == s[i];
    }
  }

  lemma {:induction false} AscendsIff(s: seq<Repository>, i: nat, j: nat)
    requires i < j < |s| && s[i].identity != s[j].identity
    ensures !RepositoryLess(s[j], s[i]) <==> Precedes(s[i], s[j])
  {
    StringOrder();
  }

  lemma {:induction false} AliasesStrict(aliases: seq<string>)
    ensures StrictlySorted(aliases, StrLess) <==> Sorted(aliases, StrLess) && Distinct(aliases)
  {
    StringOrder();
    StrictIff(aliases, StrLess);
  }

  lemma {:induction false} RegistryIff(s: seq<Repository>)
    ensures Registry(s) <==> Sorted(s, RepositoryLess) && RepositoriesValid(s)
  {
    AliasesIff(s);
    forall i | 0 <= i < |s|
      ensures StrictlySorted(s[i].aliases, StrLess) <==> Sorted(s[i].aliases, StrLess) && Distinct(s[i].aliases)
    {
      AliasesStrict(s[i].aliases);
    }
    forall i, j | 0 <= i < j < |s| && s[i].identity != s[j].identity
      ensures !RepositoryLess(s[j], s[i]) <==> Precedes(s[i], s[j])
    {
      AscendsIff(s, i, j);
    }
  }

  // ------------------------------------------------------------ the whole

  /** The inventory is canonical: its lists are sets in order, its tables have one entry per key,
      and its trail is in the order of the chain. */
  ghost predicate Canonical(v: Inventory) {
    && HeaderValid(v) && BlocksValid(v.blocks, v.cutoverHeight, v.cutoverBlockHash)
    && Registry(v.repositories) && InOrder(v.moderationTrail) && NameTable(v.usernames)
    && TextSet(v.owners) && TextSet(v.badgeRecipients) && TextSet(v.releaseVersions) && NumberSet(v.reportIds)
  }

  /** The validator accepts exactly the canonical inventories. */
  lemma {:induction false} ValidIff(v: Inventory)
    requires forall i :: 0 <= i < |v.moderationTrail| ==> InRange(v.moderationTrail[i])
    ensures Valid(v) <==> Canonical(v)
  {
    TextsIff(v.owners);
    TextsIff(v.badgeRecipients);
    TextsIff(v.releaseVersions);
    NumbersIff(v.reportIds);
    NamesIff(v.usernames);
    TrailIff(v.moderationTrail);
    RegistryIff(v.repositories);
  }

  /** An accepted inventory lists one block at the cutover height, with the cutover hash. */
  lemma {:induction false} CutoverShown(v: Inventory)
    requires Valid(v)
    ensures exists b :: b in v.blocks && b.height == v.cutoverHeight && b.hash == v.cutoverBlockHash
    ensures forall b, d :: b in v.blocks && d in v.blocks && b.height == d.height ==> b == d
  {
    var i :| 0 <= i < |v.blocks| && v.blocks[i].height == v.cutoverHeight && v.blocks[i].hash == v.cutoverBlockHash;
    assert v.blocks[i] in v.blocks;
  }

  /** The inventories say the same, each list taken as a set. */
  ghost predicate SameFacts(v: Inventory, w: Inventory) {
    && w == v.(blocks := w.blocks, repositories := w.repositories, owners := w.owners, reportIds := w.reportIds,
               moderationTrail := w.moderationTrail, usernames := w.usernames, badgeRecipients := w.badgeRecipients,
               releaseVersions := w.releaseVersions)
    && SameSet(v.blocks, w.blocks) && SameSet(v.repositories, w.repositories) && SameSet(v.owners, w.owners)
    && SameSet(v.reportIds, w.reportIds) && SameSet(v.moderationTrail, w.moderationTrail)
    && SameSet(v.usernames, w.usernames) && SameSet(v.badgeRecipients, w.badgeRecipients)
    && SameSet(v.releaseVersions, w.releaseVersions)
  }

  ghost predicate SameSet<T(!new)>(a: seq<T>, b: seq<T>) { forall x :: x in a <==> x in b }

  predicate LowerBlock(a: InventoryBlock, b: InventoryBlock) { a.height < b.height }

  lemma {:induction false} PrecedesOrder()
    ensures Irreflexive(Precedes) && Transitive(Precedes)
  {
    StringOrder();
  }

  lemma {:induction false} TablesUnique(v: Inventory, w: Inventory)
    requires Canonical(v) && Canonical(w) && SameFacts(v, w)
    ensures v.blocks == w.blocks && v.moderationTrail == w.moderationTrail && v.usernames == w.usernames
  {
    StringOrder();
    SortedUnique(v.blocks, w.blocks, LowerBlock);
    SortedUnique(v.moderationTrail, w.moderationTrail, Earlier);
    SortedUnique(v.usernames, w.usernames, UsernameLess);
  }

  lemma {:induction false} ListsUnique(v: Inventory, w: Inventory)
    requires Canonical(v) && Canonical(w) && SameFacts(v, w)
    ensures v.repositories == w.repositories && v.owners == w.owners && v.reportIds == w.reportIds
    ensures v.badgeRecipients == w.badgeRecipients && v.releaseVersions == w.releaseVersions
  {
    StringOrder();
    PrecedesOrder();
    SortedUnique(v.repositories, w.repositories, Precedes);
    SortedUnique(v.owners, w.owners, StrLess);
    SortedUnique(v.reportIds, w.reportIds, NatLess);
    SortedUnique(v.badgeRecipients, w.badgeRecipients, StrLess);
    SortedUnique(v.releaseVersions, w.releaseVersions, StrLess);
  }

  /** The validator accepts one rendering of the same facts. */
  lemma {:induction false} OneRendering(v: Inventory, w: Inventory)
    requires (forall m :: m in v.moderationTrail ==> InRange(m)) && forall m :: m in w.moderationTrail ==> InRange(m)
    requires Valid(v) && Valid(w) && SameFacts(v, w)
    ensures v == w
  {
    ValidIff(v);
    ValidIff(w);
    TablesUnique(v, w);
    ListsUnique(v, w);
  }
}
