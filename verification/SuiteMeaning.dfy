/** Which record streams the modules take, record by record, without their storage. */
module SuiteMeaning {
  import opened Digits
  import opened SuiteImport

  // ------------------------------------------------------------ a place of its own

  /** The records would occupy the same entry of the same module. */
  predicate SameEntry(a: SuiteRecord, b: SuiteRecord) {
    match a
    case Repository(_, owner, name, _, _) => (b.Repository? || b.Alias?) && b.owner == owner && b.name == name
    case Alias(_, owner, name, _) => (b.Repository? || b.Alias?) && b.owner == owner && b.name == name
    case Ref(repo, name, _) => b.Ref? && b.repo == repo && b.name == name
    case Collaborator(repo, account, _) => b.Collaborator? && b.repo == repo && b.account == account
    case Guardians(repo, _, _, _) => b.Guardians? && b.repo == repo
    case Status(repo, _, _) => b.Status? && b.repo == repo
    case Report(number, _, _) => b.Report? && b.number == number
    case StatusTrail(repo, _, _, _) => b.StatusTrail? && b.repo == repo
    case Splits(repo, _, _) => b.Splits? && b.repo == repo
    case Total(repo, denom, _) => b.Total? && b.repo == repo && b.denom == denom
    case OriginalOwner(name, _) => b.OriginalOwner? && b.name == name
    case ReservedName(name, _) => b.ReservedName? && b.name == name
    case Badge(number, _, _) => b.Badge? && b.number == number
    case Release(version, platform, _) => b.Release? && b.version == version && b.platform == platform
  }

  lemma {:induction false} SameEntryIff(a: SuiteRecord, b: SuiteRecord)
    ensures SameEntry(a, b) <==> KeyOf(a) == KeyOf(b)
  {
  }

  /** The records count towards the same limit. */
  predicate Siblings(a: SuiteRecord, b: SuiteRecord) {
    || (a.Ref? && b.Ref? && a.repo == b.repo)
    || (a.Collaborator? && b.Collaborator? && a.repo == b.repo)
    || (a.ReservedName? && b.ReservedName?)
  }

  /** Refs and collaborators of a repository, and reserved names, are limited in number. */
  function Most(r: SuiteRecord): Option<nat> {
    if r.Ref? then Some(1024) else if r.Collaborator? then Some(256) else if r.ReservedName? then Some(128) else None
  }

  function CountSiblings(rs: seq<SuiteRecord>, r: SuiteRecord): nat {
    if rs == [] then 0 else
    CountSiblings(rs[..|rs| - 1], r) + if Siblings(rs[|rs| - 1], r) then 1 else 0
  }

  /** No two records occupy the same entry. */
  ghost predicate Apart(rs: seq<SuiteRecord>) {
    forall i, j :: 0 <= i < j < |rs| ==> KeyOf(rs[i]) != KeyOf(rs[j])
  }

  lemma {:induction false} SiblingIff(x: SuiteRecord, r: SuiteRecord)
    requires Most(r).Some?
    ensures KeyOf(r).PartKey? && Limit(KeyOf(r).place) == Most(r)
    ensures Siblings(x, r) <==>
      KeyOf(x).PartKey? && KeyOf(x).place == KeyOf(r).place && KeyOf(x).repo == KeyOf(r).repo
  {
  }

  lemma {:induction false} Unlimited(r: SuiteRecord)
    requires Most(r).None? && KeyOf(r).PartKey?
    ensures Limit(KeyOf(r).place).None?
  {
  }

  predicate Grouped(k: Key, key: Key) { k.PartKey? && key.PartKey? && k.place == key.place && k.repo == key.repo }

  lemma {:induction false} GroupNext(keys: set<Key>, k: Key, key: Key)
    requires k !in keys
    ensures |Group(keys + {k}, key)| == |Group(keys, key)| + if Grouped(k, key) then 1 else 0
  {
    assert Group(keys + {k}, key) == Group(keys, key) + if Grouped(k, key) then {k} else {};
  }

  lemma {:induction false} NewKey(rs: seq<SuiteRecord>, n: nat)
    requires Apart(rs) && n < |rs|
    ensures Apart(rs[..n]) && KeyOf(rs[n]) !in Keys(rs[..n])
  {
    forall i, j | 0 <= i < j < n ensures KeyOf(rs[..n][i]) != KeyOf(rs[..n][j]) {
      assert rs[..n][i] == rs[i] && rs[..n][j] == rs[j];
    }
    forall i | 0 <= i < n ensures KeyOf(rs[..n][i]) != KeyOf(rs[n]) { assert rs[..n][i] == rs[i]; }
  }

  lemma {:induction false} GroupCounts(rs: seq<SuiteRecord>, r: SuiteRecord)
    requires Apart(rs) && Most(r).Some?
    ensures |Group(Keys(rs), KeyOf(r))| == CountSiblings(rs, r)
  {
    if rs == [] {
      assert Group(Keys(rs), KeyOf(r)) == {};
    } else {
      var n := |rs| - 1;
      NewKey(rs, n);
      GroupCounts(rs[..n], r);
      KeysNext(rs[..n], rs[n]);
      assert rs == rs[..n] + [rs[n]];
      SiblingIff(rs[n], r);
      GroupNext(Keys(rs[..n]), KeyOf(rs[n]), KeyOf(r));
    }
  }

  ghost predicate HasRoomLeft(before: seq<SuiteRecord>, r: SuiteRecord) {
    Most(r).Some? ==> CountSiblings(before, r) < Most(r).value
  }

  lemma {:induction false} RoomIff(before: seq<SuiteRecord>, r: SuiteRecord)
    requires Apart(before)
    ensures HasRoom(Keys(before), KeyOf(r)) <==> HasRoomLeft(before, r)
  {
    if Most(r).Some? {
      SiblingIff(r, r);
      GroupCounts(before, r);
    } else if KeyOf(r).PartKey? {
      Unlimited(r);
    }
  }

  ghost predicate NoneSame(before: seq<SuiteRecord>, r: SuiteRecord) {
    forall i :: 0 <= i < |before| ==> !SameEntry(before[i], r)
  }

  lemma {:induction false} PlaceIff(before: seq<SuiteRecord>, r: SuiteRecord)
    requires Apart(before)
    ensures HasPlace(before, r) <==> r.sound && NoneSame(before, r) && HasRoomLeft(before, r)
  {
    RoomIff(before, r);
    forall i | 0 <= i < |before| ensures SameEntry(before[i], r) <==> KeyOf(before[i]) == KeyOf(r) {
      SameEntryIff(before[i], r);
    }
    if NoneSame(before, r) {
      forall i | 0 <= i < |before| ensures KeyOf(before[i]) != KeyOf(r) {}
      assert KeyOf(r) !in Keys(before);
    }
    if KeyOf(r) !in Keys(before) {
      forall i | 0 <= i < |before| ensures !SameEntry(before[i], r) { assert KeyOf(before[i]) in Keys(before); }
    }
  }

  // ------------------------------------------------------------ a home

  predicate Creates(x: SuiteRecord, id: string) { x.Repository? && x.id == id }

  ghost predicate Created(rs: seq<SuiteRecord>, id: string) { exists j :: 0 <= j < |rs| && Creates(rs[j], id) }

  /** A collaborator is not the owner; guardians are set by the owner and without the owner; the
      owner takes no part in a split. */
  predicate Suits(r: SuiteRecord, owner: string) {
    && (r.Collaborator? ==> r.account != owner)
    && (r.Guardians? ==> r.configuredBy == owner && owner !in r.accounts)
    && (r.Splits? ==> owner !in r.accounts)
  }

  ghost predicate SuitsOwner(before: seq<SuiteRecord>, r: SuiteRecord, repo: string) {
    forall j :: 0 <= j < |before| && Creates(before[j], repo) ==> Suits(r, before[j].owner)
  }

  /** A fork comes after its parent, everything of a repository after the repository, and suits its
      owner. */
  ghost predicate AtHome(before: seq<SuiteRecord>, r: SuiteRecord) {
    match r
    case Repository(_, _, _, parent, _) =>
      parent == "" || parent == "0x0000000000000000000000000000000000000000000000000000000000000000" ||
      Created(before, parent)
    case OriginalOwner(_, _) => true
    case ReservedName(_, _) => true
    case Release(_, _, _) => true
    case _ => Created(before, r.repo) && SuitsOwner(before, r, r.repo)
  }

  lemma {:induction false} CreatedIff(rs: seq<SuiteRecord>, id: string)
    ensures Created(rs, id) <==> Defines(rs, id)
  {
    if j :| 0 <= j < |rs| && Creates(rs[j], id) { assert OwnerEntry(rs[j]).Some? && OwnerEntry(rs[j]).value.0 == id; }
    if Defines(rs, id) {
      var j :| 0 <= j < |rs| && OwnerEntry(rs[j]).Some? && OwnerEntry(rs[j]).value.0 == id;
      assert Creates(rs[j], id);
    }
  }

  lemma {:induction false} SuitsIff(before: seq<SuiteRecord>, r: SuiteRecord, repo: string)
    ensures SuitsOwner(before, r, repo) <==>
      forall owner :: Says(before, OwnerEntry, repo, owner) ==> OwnerFits(r, owner)
  {
    if SuitsOwner(before, r, repo) {
      forall owner | Says(before, OwnerEntry, repo, owner) ensures OwnerFits(r, owner) {
        var j :| 0 <= j < |before| && OwnerEntry(before[j]) == Some((repo, owner));
        assert Creates(before[j], repo);
      }
    }
    if forall owner :: Says(before, OwnerEntry, repo, owner) ==> OwnerFits(r, owner) {
      forall j | 0 <= j < |before| && Creates(before[j], repo) ensures Suits(r, before[j].owner) {
        assert OwnerEntry(before[j]) == Some((repo, before[j].owner));
        assert Says(before, OwnerEntry, repo, before[j].owner);
      }
    }
  }

  lemma {:induction false} HomeIff(before: seq<SuiteRecord>, r: SuiteRecord)
    ensures HasHome(before, r) <==> AtHome(before, r)
  {
    if Needs(r).Some? {
      CreatedIff(before, Needs(r).value);
      SuitsIff(before, r, Needs(r).value);
    }
  }

  // ------------------------------------------------------------ the status trail

  ghost predicate Shows(rs: seq<SuiteRecord>, repo: string, status: nat) {
    exists j :: 0 <= j < |rs| && rs[j].Status? && rs[j].repo == repo && rs[j].status == status
  }

  ghost predicate Reports(rs: seq<SuiteRecord>, number: nat, repo: string) {
    exists j :: 0 <= j < |rs| && rs[j].Report? && rs[j].number == number && rs[j].repo == repo
  }

  /** The status the trail ends with is the repository's, and the reports it names are about the
      repository; report 0 is none. */
  ghost predicate Traced(before: seq<SuiteRecord>, trail: SuiteRecord)
    requires trail.StatusTrail?
  {
    Shows(before, trail.repo, trail.last) &&
    forall k :: 0 <= k < |trail.reports| && trail.reports[k] != 0 ==> Reports(before, trail.reports[k], trail.repo)
  }

  lemma {:induction false} ShowsIff(rs: seq<SuiteRecord>, repo: string, status: nat)
    ensures Shows(rs, repo, status) <==> Says(rs, StatusEntry, repo, status)
  {
    if j :| 0 <= j < |rs| && rs[j].Status? && rs[j].repo == repo && rs[j].status == status {
      assert StatusEntry(rs[j]) == Some((repo, status));
    }
    if Says(rs, StatusEntry, repo, status) {
      var j :| 0 <= j < |rs| && StatusEntry(rs[j]) == Some((repo, status));
      assert rs[j].Status?;
    }
  }

  lemma {:induction false} ReportsIff(rs: seq<SuiteRecord>, number: nat, repo: string)
    ensures Reports(rs, number, repo) <==> Says(rs, ReportEntry, number, repo)
  {
    if j :| 0 <= j < |rs| && rs[j].Report? && rs[j].number == number && rs[j].repo == repo {
      assert ReportEntry(rs[j]) == Some((number, repo));
    }
    if Says(rs, ReportEntry, number, repo) {
      var j :| 0 <= j < |rs| && ReportEntry(rs[j]) == Some((number, repo));
      assert rs[j].Report?;
    }
  }

  lemma {:induction false} TracedIff(before: seq<SuiteRecord>, trail: SuiteRecord)
    requires trail.StatusTrail?
    ensures Traced(before, trail) <==> TrailKnown(before, trail)
  {
    ShowsIff(before, trail.repo, trail.last);
    forall k | 0 <= k < |trail.reports|
      ensures Reports(before, trail.reports[k], trail.repo) <==> Says(before, ReportEntry, trail.reports[k], trail.repo)
    {
      ReportsIff(before, trail.reports[k], trail.repo);
    }
  }

  // ------------------------------------------------------------ whole streams

  /** The record can follow these: sound, with an entry and room of its own, at home, a repository
      under a new id that is not zero, a status trail traced. */
  ghost predicate Follows(before: seq<SuiteRecord>, r: SuiteRecord) {
    && r.sound && NoneSame(before, r) && HasRoomLeft(before, r) && AtHome(before, r)
    && (r.Repository? ==>
         r.id != "0x0000000000000000000000000000000000000000000000000000000000000000" && !Created(before, r.id))
    && (r.StatusTrail? ==> Traced(before, r))
  }

  ghost predicate AllFollow(rs: seq<SuiteRecord>) {
    rs == [] || (AllFollow(rs[..|rs| - 1]) && Follows(rs[..|rs| - 1], rs[|rs| - 1]))
  }

  lemma {:induction false} FollowsIff(before: seq<SuiteRecord>, r: SuiteRecord)
    requires Apart(before)
    ensures Follows(before, r) <==> Fits(before, r)
  {
    PlaceIff(before, r);
    HomeIff(before, r);
    if r.Repository? { CreatedIff(before, r.id); }
    if r.StatusTrail? { TracedIff(before, r); }
  }

  lemma {:induction false} FitApart(rs: seq<SuiteRecord>)
    requires AllFit(rs)
    ensures Apart(rs)
  {
    forall i, j | 0 <= i < j < |rs| ensures KeyOf(rs[i]) != KeyOf(rs[j]) {
      assert Fits(rs[..j], rs[j]);
      assert rs[..j][i] == rs[i];
      assert KeyOf(rs[..j][i]) in Keys(rs[..j]);
    }
  }

  lemma {:induction false} AllFollowIff(rs: seq<SuiteRecord>)
    ensures AllFollow(rs) <==> AllFit(rs)
  {
    if rs != [] {
      var before, r := rs[..|rs| - 1], rs[|rs| - 1];
      assert rs == before + [r];
      AllFollowIff(before);
      AllFitNext(before, r);
      if AllFit(before) {
        FitApart(before);
        FollowsIff(before, r);
      }
    }
  }

  /** The modules take a stream if and only if each record can follow those before it. */
  lemma {:induction false} TakenIff(rs: seq<SuiteRecord>)
    ensures StoreAll(Empty(), rs).Some? <==> AllFollow(rs)
  {
    StoreAllIff(rs);
    AllFollowIff(rs);
  }
}
