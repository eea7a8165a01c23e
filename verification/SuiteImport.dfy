/** The storage that the modules of the suite fill during bootstrap: which record streams they
    take, and that the records of a valid snapshot, in import order, are one of them unless a
    repository has the zero id. */
module SuiteImport {
  import opened Order
  import opened Digits
  import opened ForkLineage

  const ZERO_ID: string := "0x0000000000000000000000000000000000000000000000000000000000000000"
  const MAX_REFS_PER_REPO: nat := 1024
  const MAX_COLLABORATORS_PER_REPO: nat := 256
  const MAX_RESERVED_USERNAMES: nat := 128

  /** The records of all modules. `sound` stands for the checks of a record's own fields that are
      not written out below. An empty `parent` is none; `reports` are those a status trail names,
      `accounts` the guardians or the recipients of a split. */
  datatype SuiteRecord =
    | Repository(id: string, owner: string, name: string, parent: string, sound: bool)
    | Alias(repo: string, owner: string, name: string, sound: bool)
    | Ref(repo: string, name: string, sound: bool)
    | Collaborator(repo: string, account: string, sound: bool)
    | Guardians(repo: string, configuredBy: string, accounts: seq<string>, sound: bool)
    | Status(repo: string, status: nat, sound: bool)
    | Report(number: nat, repo: string, sound: bool)
    | StatusTrail(repo: string, reports: seq<nat>, last: nat, sound: bool)
    | Splits(repo: string, accounts: seq<string>, sound: bool)
    | Total(repo: string, denom: string, sound: bool)
    | OriginalOwner(name: string, sound: bool)
    | ReservedName(name: string, sound: bool)
    | Badge(number: nat, repo: string, sound: bool)
    | Release(version: string, platform: string, sound: bool)

  /** The module that takes a record, and its kind there. */
  function Place(r: SuiteRecord): (nat, nat) {
    match r
    case Repository(_, _, _, _, _) => (0, 0)
    case Alias(_, _, _, _) => (0, 1)
    case Ref(_, _, _) => (0, 2)
    case Collaborator(_, _, _) => (0, 3)
    case Guardians(_, _, _, _) => (1, 0)
    case Status(_, _, _) => (2, 0)
    case Report(_, _, _) => (2, 1)
    case StatusTrail(_, _, _, _) => (2, 2)
    case Splits(_, _, _) => (3, 0)
    case Total(_, _, _) => (3, 1)
    case OriginalOwner(_, _) => (4, 0)
    case ReservedName(_, _) => (4, 1)
    case Badge(_, _, _) => (5, 0)
    case Release(_, _, _) => (6, 0)
  }

  predicate NotAfter(a: (nat, nat), b: (nat, nat)) { a.0 < b.0 || (a.0 == b.0 && a.1 <= b.1) }

  ghost predicate InOrder(rs: seq<SuiteRecord>) {
    forall i, j :: 0 <= i < j < |rs| ==> NotAfter(Place(rs[i]), Place(rs[j]))
  }

  /** What a record occupies, within its place. */
  datatype Key =
    | LocatorKey(owner: string, name: string)
    | PartKey(place: (nat, nat), repo: string, name: string)
    | NumberKey(place: (nat, nat), number: nat)

  function KeyOf(r: SuiteRecord): Key {
    match r
    case Repository(_, owner, name, _, _) => LocatorKey(owner, name)
    case Alias(_, owner, name, _) => LocatorKey(owner, name)
    case Ref(repo, name, _) => PartKey(Place(r), repo, name)
    case Collaborator(repo, account, _) => PartKey(Place(r), repo, account)
    case Guardians(repo, _, _, _) => PartKey(Place(r), repo, "")
    case Status(repo, _, _) => PartKey(Place(r), repo, "")
    case Report(number, _, _) => NumberKey(Place(r), number)
    case StatusTrail(repo, _, _, _) => PartKey(Place(r), repo, "")
    case Splits(repo, _, _) => PartKey(Place(r), repo, "")
    case Total(repo, denom, _) => PartKey(Place(r), repo, denom)
    case OriginalOwner(name, _) => PartKey(Place(r), "", name)
    case ReservedName(name, _) => PartKey(Place(r), "", name)
    case Badge(number, _, _) => NumberKey(Place(r), number)
    case Release(version, platform, _) => PartKey(Place(r), version, platform)
  }

  /** The repository that must be there already; the zero id is no parent. */
  function Needs(r: SuiteRecord): Option<string> {
    match r
    case Repository(_, _, _, parent, _) => if parent == "" || parent == ZERO_ID then None else Some(parent)
    case OriginalOwner(_, _) => None
    case ReservedName(_, _) => None
    case Release(_, _, _) => None
    case _ => Some(r.repo)
  }

  /** What the modules ask of a record whose repository has this owner. */
  predicate OwnerFits(r: SuiteRecord, owner: string) {
    match r
    case Collaborator(_, account, _) => account != owner
    case Guardians(_, configuredBy, accounts, _) => configuredBy == owner && configuredBy !in accounts
    case Splits(_, accounts, _) => owner !in accounts
    case _ => true
  }

  // ------------------------------------------------------------- the storage

  datatype Storage = Storage(
    owners: map<string, string>, statuses: map<string, nat>, reports: map<nat, string>, keys: set<Key>)

  function Empty(): Storage { Storage(map[], map[], map[], {}) }

  /** The refs or collaborators of one repository, or the reserved names. */
  function Group(keys: set<Key>, key: Key): set<Key> {
    set k | k in keys && k.PartKey? && key.PartKey? && k.place == key.place && k.repo == key.repo
  }

  function Limit(place: (nat, nat)): Option<nat> {
    if place == (0, 2) then Some(MAX_REFS_PER_REPO)
    else if place == (0, 3) then Some(MAX_COLLABORATORS_PER_REPO)
    else if place == (4, 1) then Some(MAX_RESERVED_USERNAMES)
    else None
  }

  predicate HasRoom(keys: set<Key>, key: Key) {
    key.PartKey? && Limit(key.place).Some? ==> |Group(keys, key)| < Limit(key.place).value
  }

  predicate TrailFits(st: Storage, trail: SuiteRecord)
    requires trail.StatusTrail?
  {
    && trail.repo in st.statuses && st.statuses[trail.repo] == trail.last
    && forall k :: 0 <= k < |trail.reports| && trail.reports[k] != 0 ==>
      trail.reports[k] in st.reports && st.reports[trail.reports[k]] == trail.repo
  }

  predicate Storable(st: Storage, r: SuiteRecord) {
    && r.sound && KeyOf(r) !in st.keys && HasRoom(st.keys, KeyOf(r))
    && (Needs(r).Some? ==> Needs(r).value in st.owners)
    && (r.Repository? ==> r.id != ZERO_ID && r.id !in st.owners)
    && (!r.Repository? && Needs(r).Some? && Needs(r).value in st.owners ==> OwnerFits(r, st.owners[Needs(r).value]))
    && (r.StatusTrail? ==> TrailFits(st, r))
  }

  function Put<K, V>(m: map<K, V>, entry: Option<(K, V)>): map<K, V> {
    if entry.Some? then m[entry.value.0 := entry.value.1] else m
  }

  function OwnerEntry(r: SuiteRecord): Option<(string, string)> {
    if r.Repository? then Some((r.id, r.owner)) else None
  }

  function StatusEntry(r: SuiteRecord): Option<(string, nat)> { if r.Status? then Some((r.repo, r.status)) else None }

  function ReportEntry(r: SuiteRecord): Option<(nat, string)> { if r.Report? then Some((r.number, r.repo)) else None }

  /** One record of `_importPayload`, in whichever module; nothing is a revert. */
  function Store(st: Storage, r: SuiteRecord): Option<Storage> {
    if !Storable(st, r) then None
    else
      Some(Storage(Put(st.owners, OwnerEntry(r)), Put(st.statuses, StatusEntry(r)), Put(st.reports, ReportEntry(r)),
        st.keys + {KeyOf(r)}))
  }

  /** The import loop; one revert undoes the whole batch. */
  function StoreAll(st: Storage, rs: seq<SuiteRecord>): Option<Storage> {
    if rs == [] then Some(st) else
    var before :- StoreAll(st, rs[..|rs| - 1]);
    Store(before, rs[|rs| - 1])
  }

  lemma {:induction false} StoreAppend(st: Storage, a: seq<SuiteRecord>, b: seq<SuiteRecord>)
    ensures StoreAll(st, a + b) == if StoreAll(st, a).None? then None else StoreAll(StoreAll(st, a).value, b)
    decreases |b|
  {
    if b == [] {
      assert a + b == a;
    } else {
      StoreAppend(st, a, b[..|b| - 1]);
      assert (a + b)[..|a + b| - 1] == a + b[..|b| - 1];
    }
  }

  // ------------------------------------------------ which streams are taken

  function Keys(rs: seq<SuiteRecord>): set<Key> { set i | 0 <= i < |rs| :: KeyOf(rs[i]) }

  /** A record of the stream enters this value under this key. */
  ghost predicate Says<K, V>(rs: seq<SuiteRecord>, entry: SuiteRecord -> Option<(K, V)>, key: K, value: V) {
    exists j :: 0 <= j < |rs| && entry(rs[j]) == Some((key, value))
  }

  ghost predicate Names<K, V>(rs: seq<SuiteRecord>, entry: SuiteRecord -> Option<(K, V)>, key: K) {
    exists j :: 0 <= j < |rs| && entry(rs[j]).Some? && entry(rs[j]).value.0 == key
  }

  ghost predicate Defines(rs: seq<SuiteRecord>, id: string) { Names(rs, OwnerEntry, id) }

  ghost predicate TrailKnown(rs: seq<SuiteRecord>, trail: SuiteRecord)
    requires trail.StatusTrail?
  {
    && Says(rs, StatusEntry, trail.repo, trail.last)
    && forall k :: 0 <= k < |trail.reports| && trail.reports[k] != 0 ==>
      Says(rs, ReportEntry, trail.reports[k], trail.repo)
  }

  ghost predicate HasPlace(before: seq<SuiteRecord>, r: SuiteRecord) {
    r.sound && KeyOf(r) !in Keys(before) && HasRoom(Keys(before), KeyOf(r))
  }

  /** The repository that a record needs is there, and its owner agrees. */
  ghost predicate HasHome(before: seq<SuiteRecord>, r: SuiteRecord) {
    Needs(r).Some? ==>
      && Defines(before, Needs(r).value)
      && (!r.Repository? ==>
          forall owner :: Says(before, OwnerEntry, Needs(r).value, owner) ==> OwnerFits(r, owner))
  }

  /** The record fits what comes before it in the stream. */
  ghost predicate Fits(before: seq<SuiteRecord>, r: SuiteRecord) {
    && HasPlace(before, r) && HasHome(before, r)
    && (r.Repository? ==> r.id != ZERO_ID && !Defines(before, r.id))
    && (r.StatusTrail? ==> TrailKnown(before, r))
  }

  ghost predicate AllFit(rs: seq<SuiteRecord>) { forall i :: 0 <= i < |rs| ==> Fits(rs[..i], rs[i]) }

  /** The map is what the stream entered. */
  ghost predicate Tracks<K(!new), V>(m: map<K, V>, rs: seq<SuiteRecord>, entry: SuiteRecord -> Option<(K, V)>) {
    && (forall j :: 0 <= j < |rs| && entry(rs[j]).Some? ==>
         entry(rs[j]).value.0 in m && m[entry(rs[j]).value.0] == entry(rs[j]).value.1)
    && (forall key :: key in m ==> Says(rs, entry, key, m[key]))
  }

  /** The storage is what the stream made of it. */
  ghost predicate Holds(st: Storage, rs: seq<SuiteRecord>) {
    st.keys == Keys(rs) && Tracks(st.owners, rs, OwnerEntry) && Tracks(st.statuses, rs, StatusEntry) &&
    Tracks(st.reports, rs, ReportEntry)
  }

  lemma {:induction false} KeysNext(rs: seq<SuiteRecord>, r: SuiteRecord)
    ensures Keys(rs + [r]) == Keys(rs) + {KeyOf(r)}
  {
    var more := rs + [r];
    forall k ensures k in Keys(more) <==> k in Keys(rs) + {KeyOf(r)} {
      if k in Keys(rs) {
        var i :| 0 <= i < |rs| && KeyOf(rs[i]) == k;
        assert more[i] == rs[i];
      }
      if k == KeyOf(r) { assert more[|rs|] == r; }
    }
  }

  /** A map that tracks a stream answers what the stream says. */
  lemma {:induction false} TracksSays<K(!new), V>(m: map<K, V>, rs: seq<SuiteRecord>,
      entry: SuiteRecord -> Option<(K, V)>, key: K)
    requires Tracks(m, rs, entry)
    ensures key in m <==> Names(rs, entry, key)
    ensures forall value :: Says(rs, entry, key, value) <==> key in m && m[key] == value
  {
    if key in m {
      var j :| 0 <= j < |rs| && entry(rs[j]) == Some((key, m[key]));
      assert Names(rs, entry, key);
    }
  }

  lemma {:induction false} TracksNext<K(!new), V>(m: map<K, V>, rs: seq<SuiteRecord>, r: SuiteRecord,
      entry: SuiteRecord -> Option<(K, V)>)
    requires Tracks(m, rs, entry) && (entry(r).Some? ==> entry(r).value.0 !in m)
    ensures Tracks(Put(m, entry(r)), rs + [r], entry)
  {
    var more, after := rs + [r], Put(m, entry(r));
    forall key | key in after ensures Says(more, entry, key, after[key]) {
      if key in m {
        var j :| 0 <= j < |rs| && entry(rs[j]) == Some((key, m[key]));
        assert more[j] == rs[j];
      } else {
        assert more[|rs|] == r;
      }
    }
  }

  lemma {:induction false} TrailIff(st: Storage, rs: seq<SuiteRecord>, trail: SuiteRecord)
    requires Holds(st, rs) && trail.StatusTrail?
    ensures TrailFits(st, trail) <==> TrailKnown(rs, trail)
  {
    TracksSays(st.statuses, rs, StatusEntry, trail.repo);
    forall k | 0 <= k < |trail.reports|
      ensures Says(rs, ReportEntry, trail.reports[k], trail.repo) <==>
        trail.reports[k] in st.reports && st.reports[trail.reports[k]] == trail.repo
    {
      TracksSays(st.reports, rs, ReportEntry, trail.reports[k]);
    }
  }

  lemma {:induction false} StorableIff(st: Storage, rs: seq<SuiteRecord>, r: SuiteRecord)
    requires Holds(st, rs)
    ensures Storable(st, r) <==> Fits(rs, r)
  {
    if Needs(r).Some? { TracksSays(st.owners, rs, OwnerEntry, Needs(r).value); }
    if r.Repository? { TracksSays(st.owners, rs, OwnerEntry, r.id); }
    if r.StatusTrail? { TrailIff(st, rs, r); }
  }

  lemma {:induction false} StatusKeyed(rs: seq<SuiteRecord>, repo: string)
    requires Names(rs, StatusEntry, repo)
    ensures PartKey((2, 0), repo, "") in Keys(rs)
  {
    var j :| 0 <= j < |rs| && StatusEntry(rs[j]).Some? && StatusEntry(rs[j]).value.0 == repo;
    assert KeyOf(rs[j]) in Keys(rs);
  }

  lemma {:induction false} ReportKeyed(rs: seq<SuiteRecord>, number: nat)
    requires Names(rs, ReportEntry, number)
    ensures NumberKey((2, 1), number) in Keys(rs)
  {
    var j :| 0 <= j < |rs| && ReportEntry(rs[j]).Some? && ReportEntry(rs[j]).value.0 == number;
    assert KeyOf(rs[j]) in Keys(rs);
  }

  /** A new key means a new entry. */
  lemma {:induction false} FreshEntries(st: Storage, rs: seq<SuiteRecord>, r: SuiteRecord)
    requires Holds(st, rs) && KeyOf(r) !in st.keys
    ensures r.Status? ==> r.repo !in st.statuses
    ensures r.Report? ==> r.number !in st.reports
  {
    if r.Status? {
      TracksSays(st.statuses, rs, StatusEntry, r.repo);
      if r.repo in st.statuses { StatusKeyed(rs, r.repo); }
    }
    if r.Report? {
      TracksSays(st.reports, rs, ReportEntry, r.number);
      if r.number in st.reports { ReportKeyed(rs, r.number); }
    }
  }

  lemma {:induction false} StoreHolds(st: Storage, rs: seq<SuiteRecord>, r: SuiteRecord)
    requires Holds(st, rs) && Storable(st, r)
    ensures Holds(Store(st, r).value, rs + [r])
  {
    KeysNext(rs, r);
    FreshEntries(st, rs, r);
    TracksNext(st.owners, rs, r, OwnerEntry);
    TracksNext(st.statuses, rs, r, StatusEntry);
    TracksNext(st.reports, rs, r, ReportEntry);
  }

  lemma {:induction false} AllFitNext(before: seq<SuiteRecord>, r: SuiteRecord)
    ensures AllFit(before + [r]) <==> AllFit(before) && Fits(before, r)
  {
    var rs, n := before + [r], |before|;
    assert rs[..n] == before && rs[n] == r;
    forall i | 0 <= i < n ensures Fits(rs[..i], rs[i]) <==> Fits(before[..i], before[i]) {
      assert rs[..i] == before[..i] && rs[i] == before[i];
    }
  }

  /** A stream is taken if and only if every record fits what comes before it: sound, with a key,
      an id and room of its own, after the repository it needs and agreeing with its owner, and a
      status trail after the status and the reports it names. */
  lemma {:induction false} StoreAllIff(rs: seq<SuiteRecord>)
    ensures StoreAll(Empty(), rs).Some? <==> AllFit(rs)
    ensures StoreAll(Empty(), rs).Some? ==> Holds(StoreAll(Empty(), rs).value, rs)
  {
    if rs != [] {
      var n := |rs| - 1;
      var before, r := rs[..n], rs[n];
      StoreAllIff(before);
      AllFitNext(before, r);
      assert before + [r] == rs;
      if StoreAll(Empty(), before).Some? {
        StorableIff(StoreAll(Empty(), before).value, before, r);
        if Storable(StoreAll(Empty(), before).value, r) { StoreHolds(StoreAll(Empty(), before).value, before, r); }
      }
    }
  }

  // ------------------------------------------------------ a valid snapshot

  function Lineage(repositories: seq<SuiteRecord>): (s: seq<Record>)
    requires forall i :: 0 <= i < |repositories| ==> repositories[i].Repository?
    ensures |s| == |repositories|
  {
    seq(|repositories|, i requires 0 <= i < |repositories| => Record(repositories[i].id, repositories[i].parent))
  }

  function Ids(repositories: seq<SuiteRecord>): (s: seq<string>)
    requires forall i :: 0 <= i < |repositories| ==> repositories[i].Repository?
    ensures |s| == |repositories|
  {
    seq(|repositories|, i requires 0 <= i < |repositories| => repositories[i].id)
  }

  /** What the snapshot asks of a record whose repository has this owner. */
  predicate OwnerAgrees(r: SuiteRecord, owner: string) {
    match r
    case Collaborator(_, account, _) => account != owner
    case Guardians(_, configuredBy, accounts, _) => configuredBy == owner && owner !in accounts
    case Splits(_, accounts, _) => owner !in accounts
    case _ => true
  }

  /** The status trail ends at the final status and names reports of its own repository. */
  ghost predicate TrailValid(others: seq<SuiteRecord>, trail: SuiteRecord)
    requires trail.StatusTrail?
  {
    && (forall j :: 0 <= j < |others| && others[j].Status? && others[j].repo == trail.repo ==>
         others[j].status == trail.last)
    && (forall k :: 0 <= k < |trail.reports| && trail.reports[k] != 0 ==>
         Says(others, ReportEntry, trail.reports[k], trail.repo))
  }

  /** What `validateSnapshot` establishes about the repositories and all other records. */
  ghost predicate SnapshotValid(repositories: seq<SuiteRecord>, others: seq<SuiteRecord>) {
    && (forall i :: 0 <= i < |repositories| ==> repositories[i].Repository?)
    && LineageValid(Lineage(repositories))
    && (forall j :: 0 <= j < |others| ==>
         !others[j].Repository? && (Needs(others[j]).Some? ==> Defines(repositories, Needs(others[j]).value)))
    && RestValid(repositories + others)
    && (forall i, j :: 0 <= i < |repositories| && 0 <= j < |others| && Needs(others[j]) == Some(repositories[i].id) ==>
         OwnerAgrees(others[j], repositories[i].owner))
    && (forall i :: 0 <= i < |repositories| ==> Names(others, StatusEntry, repositories[i].id))
    && (forall j :: 0 <= j < |others| && others[j].StatusTrail? ==> TrailValid(others, others[j]))
  }

  /** Sound records with keys of their own, and no group over its limit. */
  ghost predicate RestValid(rs: seq<SuiteRecord>) {
    && (forall i :: 0 <= i < |rs| ==> rs[i].sound)
    && (forall i, j :: 0 <= i < j < |rs| ==> KeyOf(rs[i]) != KeyOf(rs[j]))
    && (forall key :: key in Keys(rs) && key.PartKey? && Limit(key.place).Some? ==>
         |Group(Keys(rs), key)| <= Limit(key.place).value)
  }

  /** The condition that the snapshot checks leave open. */
  predicate NoZeroId(repositories: seq<SuiteRecord>) {
    forall i :: 0 <= i < |repositories| && repositories[i].Repository? ==> repositories[i].id != ZERO_ID
  }

  lemma {:induction false} RoomBefore(rs: seq<SuiteRecord>, i: nat)
    requires RestValid(rs) && i < |rs|
    ensures KeyOf(rs[i]) !in Keys(rs[..i]) && HasRoom(Keys(rs[..i]), KeyOf(rs[i]))
  {
    var key := KeyOf(rs[i]);
    var before, all := Group(Keys(rs[..i]), key), Group(Keys(rs), key);
    assert key in Keys(rs);
    forall k | k in Keys(rs[..i]) ensures k in Keys(rs) && k != key {
      var j :| 0 <= j < i && KeyOf(rs[..i][j]) == k;
      assert rs[..i][j] == rs[j] && KeyOf(rs[j]) in Keys(rs);
    }
    if key.PartKey? {
      assert key in all;
      Smaller(before, all, key);
    }
  }

  lemma {:induction false} Smaller(a: set<Key>, b: set<Key>, key: Key)
    requires key in b && forall k :: k in a ==> k in b && k != key
    ensures |a| < |b|
  {
    SubsetSize(a, b - {key});
  }

  lemma {:induction false} SubsetSize(a: set<Key>, b: set<Key>)
    requires a <= b
    ensures |a| <= |b|
  {
    if a != {} {
      var k :| k in a;
      SubsetSize(a - {k}, b - {k});
    }
  }

  /** In the import order every fork finds its parent. */
  lemma {:induction false} ParentDefined(repositories: seq<SuiteRecord>, p: Parents, i: nat)
    requires forall k :: 0 <= k < |repositories| ==> repositories[k].Repository?
    requires Describes(p, Lineage(repositories)) && ParentsPrecede(p, Ids(repositories))
    requires i < |repositories| && repositories[i].parent != ""
    ensures Defines(repositories[..i], repositories[i].parent)
  {
    var ids := Ids(repositories);
    assert Lineage(repositories)[i] == Record(repositories[i].id, repositories[i].parent);
    assert ids[i] in p && p[ids[i]] == repositories[i].parent;
    assert Precedes(p[ids[i]], ids, i);
    var j :| 0 <= j < i && j < |ids| && ids[j] == p[ids[i]];
    assert OwnerEntry(repositories[..i][j]).Some?;
  }

  lemma {:induction false} RepositoryFits(repositories: seq<SuiteRecord>, others: seq<SuiteRecord>, p: Parents, i: nat)
    requires SnapshotValid(repositories, others) && Describes(p, Lineage(repositories))
    requires ParentsPrecede(p, Ids(repositories)) && i < |repositories| && repositories[i].id != ZERO_ID
    ensures Fits(repositories[..i], repositories[i])
  {
    var rs := repositories + others;
    RoomBefore(rs, i);
    assert rs[..i] == repositories[..i] && rs[i] == repositories[i];
    if Needs(repositories[i]).Some? { ParentDefined(repositories, p, i); }
    forall j | 0 <= j < i ensures repositories[..i][j].id != repositories[i].id {
      assert Lineage(repositories)[j].id != Lineage(repositories)[i].id;
    }
  }

  /** What comes before a record that is no repository: all repositories, and some of the rest. */
  lemma {:induction false} NamesEarlier<K, V>(repositories: seq<SuiteRecord>, part: seq<SuiteRecord>,
      entry: SuiteRecord -> Option<(K, V)>, key: K)
    requires Names(repositories, entry, key)
    ensures Names(repositories + part, entry, key)
  {
    var j :| 0 <= j < |repositories| && entry(repositories[j]).Some? && entry(repositories[j]).value.0 == key;
    assert (repositories + part)[j] == repositories[j];
  }

  lemma {:induction false} OwnersEarlier(repositories: seq<SuiteRecord>, others: seq<SuiteRecord>, j: nat,
      owner: string)
    requires SnapshotValid(repositories, others) && j < |others| && Needs(others[j]).Some?
    requires Says(repositories + others[..j], OwnerEntry, Needs(others[j]).value, owner)
    ensures OwnerFits(others[j], owner)
  {
    var before := repositories + others[..j];
    var i :| 0 <= i < |before| && OwnerEntry(before[i]) == Some((Needs(others[j]).value, owner));
    assert forall k :: 0 <= k < j ==> before[|repositories| + k] == others[k] && !others[k].Repository?;
    assert before[i] == repositories[i];
  }

  /** Records of an earlier place come earlier. */
  lemma {:induction false} SaysEarlier<K, V>(repositories: seq<SuiteRecord>, others: seq<SuiteRecord>, j: nat, i: nat,
      entry: SuiteRecord -> Option<(K, V)>, key: K, value: V)
    requires InOrder(others) && j < |others| && i < |others| && entry(others[i]) == Some((key, value))
    requires !NotAfter(Place(others[j]), Place(others[i]))
    ensures Says(repositories + others[..j], entry, key, value)
  {
    assert i < j;
    assert (repositories + others[..j])[|repositories| + i] == others[i];
  }

  lemma {:induction false} StatusEarlier(repositories: seq<SuiteRecord>, others: seq<SuiteRecord>, j: nat)
    requires InOrder(others) && j < |others| && others[j].StatusTrail? && TrailValid(others, others[j])
    requires Names(others, StatusEntry, others[j].repo)
    ensures Says(repositories + others[..j], StatusEntry, others[j].repo, others[j].last)
  {
    var i :| 0 <= i < |others| && StatusEntry(others[i]).Some? && StatusEntry(others[i]).value.0 == others[j].repo;
    SaysEarlier(repositories, others, j, i, StatusEntry, others[j].repo, others[j].last);
  }

  lemma {:induction false} ReportEarlier(repositories: seq<SuiteRecord>, others: seq<SuiteRecord>, j: nat, number: nat)
    requires InOrder(others) && j < |others| && others[j].StatusTrail?
    requires Says(others, ReportEntry, number, others[j].repo)
    ensures Says(repositories + others[..j], ReportEntry, number, others[j].repo)
  {
    var i :| 0 <= i < |others| && ReportEntry(others[i]) == Some((number, others[j].repo));
    SaysEarlier(repositories, others, j, i, ReportEntry, number, others[j].repo);
  }

  lemma {:induction false} HasStatus(repositories: seq<SuiteRecord>, others: seq<SuiteRecord>, id: string)
    requires Defines(repositories, id)
    requires forall i :: 0 <= i < |repositories| && repositories[i].Repository? ==>
      Names(others, StatusEntry, repositories[i].id)
    ensures Names(others, StatusEntry, id)
  {
    var n :| 0 <= n < |repositories| && OwnerEntry(repositories[n]).Some? && OwnerEntry(repositories[n]).value.0 == id;
    assert repositories[n].Repository?;
  }

  lemma {:induction false} TrailEarlier(repositories: seq<SuiteRecord>, others: seq<SuiteRecord>, j: nat)
    requires InOrder(others) && j < |others| && others[j].StatusTrail? && TrailValid(others, others[j])
    requires Names(others, StatusEntry, others[j].repo)
    ensures TrailKnown(repositories + others[..j], others[j])
  {
    StatusEarlier(repositories, others, j);
    forall k | 0 <= k < |others[j].reports| && others[j].reports[k] != 0
      ensures Says(repositories + others[..j], ReportEntry, others[j].reports[k], others[j].repo)
    {
      ReportEarlier(repositories, others, j, others[j].reports[k]);
    }
  }

  lemma {:induction false} OtherHasPlace(repositories: seq<SuiteRecord>, others: seq<SuiteRecord>, j: nat)
    requires RestValid(repositories + others) && j < |others|
    ensures HasPlace(repositories + others[..j], others[j])
  {
    var rs, i := repositories + others, |repositories| + j;
    RoomBefore(rs, i);
    assert rs[..i] == repositories + others[..j] && rs[i] == others[j];
  }

  lemma {:induction false} OtherHasHome(repositories: seq<SuiteRecord>, others: seq<SuiteRecord>, j: nat)
    requires SnapshotValid(repositories, others) && j < |others|
    ensures HasHome(repositories + others[..j], others[j])
  {
    var r, before := others[j], repositories + others[..j];
    if Needs(r).Some? {
      NamesEarlier(repositories, others[..j], OwnerEntry, Needs(r).value);
      forall owner | Says(before, OwnerEntry, Needs(r).value, owner) ensures OwnerFits(r, owner) {
        OwnersEarlier(repositories, others, j, owner);
      }
    }
  }

  lemma {:induction false} OtherFits(repositories: seq<SuiteRecord>, others: seq<SuiteRecord>, j: nat)
    requires SnapshotValid(repositories, others) && InOrder(others) && j < |others|
    ensures Fits(repositories + others[..j], others[j])
  {
    OtherHasPlace(repositories, others, j);
    OtherHasHome(repositories, others, j);
    if others[j].StatusTrail? {
      HasStatus(repositories, others, others[j].repo);
      TrailEarlier(repositories, others, j);
    }
  }

  lemma {:induction false} AllTaken(repositories: seq<SuiteRecord>, others: seq<SuiteRecord>, p: Parents)
    requires SnapshotValid(repositories, others) && InOrder(others) && Describes(p, Lineage(repositories))
    requires ParentsPrecede(p, Ids(repositories)) && NoZeroId(repositories)
    ensures StoreAll(Empty(), repositories + others).Some?
  {
    var rs, n := repositories + others, |repositories|;
    forall i | 0 <= i < |rs| ensures Fits(rs[..i], rs[i]) {
      if i < n {
        RepositoryFits(repositories, others, p, i);
        assert rs[..i] == repositories[..i] && rs[i] == repositories[i];
      } else {
        OtherFits(repositories, others, i - n);
        assert rs[..i] == repositories + others[..i - n] && rs[i] == others[i - n];
      }
    }
    StoreAllIff(rs);
  }

  lemma {:induction false} OrphanRefused(repositories: seq<SuiteRecord>, i: nat)
    requires forall k :: 0 <= k < |repositories| ==> repositories[k].Repository?
    requires i < |repositories| && repositories[i].parent != "" && repositories[i].parent != ZERO_ID
    requires !Precedes(repositories[i].parent, Ids(repositories), i)
    ensures !Fits(repositories[..i], repositories[i])
  {
    var ids := Ids(repositories);
    forall j | 0 <= j < i ensures repositories[..i][j].id != repositories[i].parent {
      assert ids[j] == repositories[j].id;
    }
  }

  /** With no zero id, a parent is no zero id either. */
  lemma {:induction false} ParentNotZero(repositories: seq<SuiteRecord>, p: Parents, i: nat)
    requires (forall k :: 0 <= k < |repositories| ==> repositories[k].Repository?) && NoZeroId(repositories)
    requires Describes(p, Lineage(repositories)) && Closed(p) && i < |repositories| && repositories[i].parent != ""
    ensures repositories[i].parent != ZERO_ID
  {
    var lineage := Lineage(repositories);
    assert lineage[i] == Record(repositories[i].id, repositories[i].parent);
    assert p[lineage[i].id] in p && Named(lineage, repositories[i].parent);
    var j :| 0 <= j < |lineage| && lineage[j].id == repositories[i].parent;
    assert repositories[j].id == repositories[i].parent;
  }

  lemma {:induction false} TakenOnly(repositories: seq<SuiteRecord>, others: seq<SuiteRecord>, p: Parents)
    requires SnapshotValid(repositories, others) && Describes(p, Lineage(repositories)) && Closed(p)
    requires StoreAll(Empty(), repositories + others).Some?
    ensures ParentsPrecede(p, Ids(repositories)) && NoZeroId(repositories)
  {
    var rs, ids := repositories + others, Ids(repositories);
    StoreAllIff(rs);
    forall i | 0 <= i < |repositories| ensures Fits(repositories[..i], repositories[i]) {
      assert rs[..i] == repositories[..i] && rs[i] == repositories[i];
    }
    forall i: nat | i < |ids| && ids[i] in p && p[ids[i]] != "" ensures Precedes(p[ids[i]], ids, i) {
      assert Lineage(repositories)[i] == Record(repositories[i].id, repositories[i].parent);
      ParentNotZero(repositories, p, i);
      if !Precedes(p[ids[i]], ids, i) { OrphanRefused(repositories, i); }
    }
  }

  /** Of the orders in which a valid snapshot's repositories could be imported, exactly those are
      taken in which every parent comes before its forks, and only if no id is zero. */
  lemma {:induction false} ParentsFirstIff(repositories: seq<SuiteRecord>, others: seq<SuiteRecord>, p: Parents)
    requires SnapshotValid(repositories, others) && InOrder(others)
    requires Describes(p, Lineage(repositories)) && Closed(p)
    ensures StoreAll(Empty(), repositories + others).Some? <==>
      ParentsPrecede(p, Ids(repositories)) && NoZeroId(repositories)
  {
    if StoreAll(Empty(), repositories + others).Some? { TakenOnly(repositories, others, p); }
    if ParentsPrecede(p, Ids(repositories)) && NoZeroId(repositories) { AllTaken(repositories, others, p); }
  }

  /** Sorted by fork depth, a valid snapshot is taken if and only if no repository id is zero. */
  lemma {:induction false} SnapshotTakenIff(repositories: seq<SuiteRecord>, others: seq<SuiteRecord>, p: Parents,
      listing: seq<string>)
    requires SnapshotValid(repositories, others) && InOrder(others) && Describes(p, Lineage(repositories)) && Closed(p)
    requires Lists(p, listing)
    requires (forall id :: id in p ==> Ends(p, id)) && Ids(repositories) == Ordered(p, listing)
    ensures StoreAll(Empty(), repositories + others).Some? <==> NoZeroId(repositories)
  {
    var ids := Ids(repositories);
    forall i: nat | i < |ids| && ids[i] in p && p[ids[i]] != ""
      ensures Precedes(p[ids[i]], ids, i)
    {
      ParentsFirst(p, listing, i);
    }
    ParentsFirstIff(repositories, others, p);
  }

  lemma {:induction false} LoneLineage(id: string)
    requires id != ""
    ensures LineageValid([Record(id, "")])
  {
    var lineage, p := [Record(id, "")], map[id := ""];
    assert lineage[0].id == id;
    assert Ancestor(p, id, 1) == "";
    AcyclicIffEnds(p);
    assert Describes(p, lineage) && Closed(p) && Acyclic(p);
  }

  lemma {:induction false} LoneKeys(r: SuiteRecord, s: SuiteRecord)
    requires r.Repository? && s.Status? && r.sound && s.sound
    ensures RestValid([r] + [s])
  {
    forall k | k in Keys([r] + [s]) ensures k in {KeyOf(r), KeyOf(s)} {}
  }

  /** A repository on its own is a valid snapshot, whatever its id. */
  lemma {:induction false} LoneRepository(id: string, owner: string, name: string)
    requires id != ""
    ensures SnapshotValid([Repository(id, owner, name, "", true)], [Status(id, 0, true)])
  {
    var r, s := Repository(id, owner, name, "", true), Status(id, 0, true);
    LoneLineage(id);
    assert Lineage([r]) == [Record(id, "")];
    LoneKeys(r, s);
    assert OwnerEntry([r][0]).Some? && StatusEntry([s][0]).Some?;
  }

  /** The snapshot checks take a repository with the zero id; the repository module does not. */
  lemma {:induction false} ZeroIdRefused(owner: string, name: string)
    ensures var repositories, others := [Repository(ZERO_ID, owner, name, "", true)], [Status(ZERO_ID, 0, true)];
      SnapshotValid(repositories, others) && StoreAll(Empty(), repositories + others).None?
  {
    var rs := [Repository(ZERO_ID, owner, name, "", true)] + [Status(ZERO_ID, 0, true)];
    LoneRepository(ZERO_ID, owner, name);
    StoreAllIff(rs);
    assert !Fits(rs[..0], rs[0]);
  }
}
