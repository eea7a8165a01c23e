/** Event-sourced replay of the V1 contract log: what one event, one
    transaction and a whole sorted log do to the builder's state. */
module Replay {
  import opened Order
  import opened Digits
  import opened Evidence

  datatype State = State(
    repositories: map<string, Repository>,
    locators: map<string, string>,
    reports: set<nat>,
    usernameByName: map<string, string>,
    usernameByUser: map<string, string>,
    recipients: set<string>,
    releases: set<string>,
    moderation: seq<Moderation>,
    commitment: HexDigest,
    successfulTxs: nat)

  /** `digest(c, e)` is the SHA-256, in hex, of the bytes of `c` followed by `e`. */
  datatype Context = Context(
    digest: (HexDigest, string) -> HexDigest,
    chainId: string,
    contract: string,
    cutover: nat,
    evidence: BlockEvidence)

  function Initial(): State {
    State(map[], map[], {}, map[], map[], {}, {}, [], Zeros(64), 0)
  }

  /** Lookup in a Go map: a missing key reads as the empty string. */
  function Get(m: map<string, string>, key: string): string {
    if key in m then m[key] else ""
  }

  /** The contract actions replay knows; `Inert` ones leave the enumerable keys alone. */
  datatype Action =
    | CreateRepo | ForkRepo | Transfer | Submit | Resolve | Appeal | ResolveAppeal | SetStatus
    | Register | Release | AwardBadge | RegisterRelease | Inert

  const INERT_ACTIONS: set<string> := {
    "instantiate", "migrate", "update_ref", "delete_ref", "set_collaborator", "remove_collaborator",
    "transfer_ownership_started", "transfer_ownership_cancelled", "set_guardians", "recovery_proposed",
    "recovery_approved", "recovery_cancelled", "update_repo_info", "set_moderation_committee", "sponsor",
    "set_revenue_splits", "set_fee_config", "set_username_policy", "schedule_upgrade", "cancel_upgrade" }

  function ActionOf(name: string): Option<Action> {
    match name
    case "create_repo" => Some(CreateRepo)
    case "fork_repo" => Some(ForkRepo)
    case "transfer_ownership" => Some(Transfer)
    case "submit_moderation_report" => Some(Submit)
    case "resolve_moderation_report" => Some(Resolve)
    case "appeal_moderation_report" => Some(Appeal)
    case "resolve_moderation_appeal" => Some(ResolveAppeal)
    case "set_moderation_status" => Some(SetStatus)
    case "register_username" => Some(Register)
    case "release_username" => Some(Release)
    case "award_badge" => Some(AwardBadge)
    case "register_release" => Some(RegisterRelease)
    case _ => if name in INERT_ACTIONS then Some(Inert) else None
  }

  // ------------------------------------------------------------ one event

  ghost function SortedStrings(names: set<string>): (s: seq<string>)
    ensures Enumerates(s, names, StrLess)
  {
    StringOrder();
    Enumeration(names, StrLess)
  }

  function Fields(keys: seq<string>, attributes: Attributes): string
    requires forall k :: k in keys ==> k in attributes
  {
    if keys == [] then "" else
    var last := keys[|keys| - 1];
    Fields(keys[..|keys| - 1], attributes) + "\0" + last + "\0" + attributes[last]
  }

  function EventHeader(tx: Tx, eventIndex: nat, action: string): string {
    Decimal(tx.height) + "\0" + Decimal(tx.index) + "\0" + tx.hash + "\0" + Decimal(eventIndex) + "\0" + action
  }

  ghost function CanonicalEvent(tx: Tx, eventIndex: nat, action: string, attributes: Attributes): string {
    EventHeader(tx, eventIndex, action) + Fields(SortedStrings(attributes.Keys), attributes)
  }

  function Locator(owner: string, name: string): string { owner + "/" + name }

  /** `source` is the fork parent's locator, absent for a plain creation. */
  function CreateRepository(s: State, tx: Tx, eventIndex: nat, owner: string, name: string,
      source: Option<string>): Option<State> {
    var locator := Locator(owner, name);
    if owner == "" || name == "" || locator in s.locators || source == Some("/") then None else
    var identity := Identity(tx.hash, eventIndex);
    var record := Repository(identity, owner, name, [locator], if source.Some? then source.value else "",
                             Lower(tx.hash), tx.height, tx.index);
    Some(s.(repositories := s.repositories[identity := record], locators := s.locators[locator := identity]))
  }

  function AppendUnique(values: seq<string>, value: string): seq<string> {
    if value in values then values else values + [value]
  }

  /** A locator whose repository is missing would be a nil dereference; `LocatorsInverse` excludes it. */
  function TransferOwnership(s: State, oldOwner: string, newOwner: string, name: string): Option<State> {
    var oldLocator, newLocator := Locator(oldOwner, name), Locator(newOwner, name);
    if oldLocator !in s.locators then None else
    var identity := s.locators[oldLocator];
    if newLocator in s.locators && s.locators[newLocator] != identity then None else
    if identity !in s.repositories then None else
    var repository := s.repositories[identity];
    var moved := repository.(owner := newOwner, aliases := AppendUnique(repository.aliases, newLocator));
    Some(s.(repositories := s.repositories[identity := moved], locators := s.locators[newLocator := identity]))
  }

  function BlockTime(c: Context, height: nat): nat {
    if height in c.evidence.blocks then c.evidence.blocks[height].timestamp else 0
  }

  predicate EntryComplete(entry: Moderation) {
    entry.actor != "" && entry.action != "" &&
    (entry.action == "submitted" ==> entry.owner != "" && entry.repo != "" && entry.reasonHash != "") &&
    (entry.action in {"resolved", "appeal_resolved", "status_set"} ==> entry.status != "")
  }

  function Stamp(c: Context, tx: Tx, eventIndex: nat, entry: Moderation): Moderation {
    entry.(timestamp := BlockTime(c, tx.height), height := tx.height, txIndex := tx.index,
           eventIndex := eventIndex % UINT32_LIMIT)
  }

  function AddModeration(c: Context, s: State, tx: Tx, eventIndex: nat, entry: Moderation): Option<State> {
    if BlockTime(c, tx.height) == 0 || !EntryComplete(entry) then None
    else Some(s.(moderation := s.moderation + [Stamp(c, tx, eventIndex, entry)]))
  }

  function Entry(reportId: nat, owner: string, repo: string, action: string, actor: string, status: string,
      reasonHash: string): Moderation {
    Moderation(reportId, owner, repo, action, actor, status, reasonHash, 0, 0, 0, 0)
  }

  function ReportId(text: string): Option<nat> {
    var id :- ParseUint(text);
    if id == 0 then None else Some(id)
  }

  function OrElse(value: string, fallback: string): string {
    if value == "" then fallback else value
  }

  function SubmitReport(c: Context, s: State, tx: Tx, eventIndex: nat, reportId: string,
      entry: Moderation): Option<State> {
    var id :- ReportId(reportId);
    if id in s.reports then None else
    AddModeration(c, s.(reports := s.reports + {id}), tx, eventIndex, entry.(reportId := id))
  }

  /** Resolutions and appeals refer to a report already submitted. */
  function FollowUp(c: Context, s: State, tx: Tx, eventIndex: nat, reportId: string, entry: Moderation): Option<State> {
    var id :- ReportId(reportId);
    if id !in s.reports then None else
    AddModeration(c, s, tx, eventIndex, entry.(reportId := id))
  }

  function RegisterUsername(s: State, name: string, owner: string): Option<State> {
    if name == "" || owner == "" || Get(s.usernameByName, name) != "" || Get(s.usernameByUser, owner) != "" then None
    else Some(s.(usernameByName := s.usernameByName[name := owner], usernameByUser := s.usernameByUser[owner := name]))
  }

  function ReleaseUsername(s: State, name: string, owner: string): Option<State> {
    if Get(s.usernameByName, name) != owner || Get(s.usernameByUser, owner) != name then None
    else Some(s.(usernameByName := s.usernameByName - {name}, usernameByUser := s.usernameByUser - {owner}))
  }

  function AddRecipient(s: State, recipient: string): Option<State> {
    if recipient == "" then None else Some(s.(recipients := s.recipients + {recipient}))
  }

  function AddRelease(s: State, version: string): Option<State> {
    if version == "" then None else Some(s.(releases := s.releases + {version}))
  }

  function ForkSource(a: Attributes): string { Get(a, "source_owner") + "/" + Get(a, "source_repo") }

  /** The moderation entry an event asks for, before it is numbered and stamped. */
  function EntryOf(action: Action, sender: string, a: Attributes): Moderation {
    var owner, repo, status, reason := Get(a, "owner"), Get(a, "repo"), Get(a, "status"), Get(a, "reason_hash");
    match action
    case Submit => Entry(0, owner, repo, "submitted", OrElse(Get(a, "reporter"), sender), "", reason)
    case Resolve => Entry(0, "", "", "resolved", sender, status, reason)
    case Appeal => Entry(0, "", "", "appealed", OrElse(owner, sender), "", reason)
    case ResolveAppeal => Entry(0, "", "", "appeal_resolved", sender, status, reason)
    case _ => Entry(0, owner, repo, "status_set", sender, status, reason)
  }

  /** The action switch, after the commitment was extended. */
  function Dispatch(c: Context, s: State, tx: Tx, eventIndex: nat, action: Action, sender: string,
      a: Attributes): Option<State> {
    match action
    case CreateRepo => CreateRepository(s, tx, eventIndex, Get(a, "owner"), Get(a, "repo"), None)
    case ForkRepo => CreateRepository(s, tx, eventIndex, Get(a, "owner"), Get(a, "repo"), Some(ForkSource(a)))
    case Transfer => TransferOwnership(s, Get(a, "old_owner"), Get(a, "new_owner"), Get(a, "repo"))
    case Submit => SubmitReport(c, s, tx, eventIndex, Get(a, "report_id"), EntryOf(action, sender, a))
    case Resolve => FollowUp(c, s, tx, eventIndex, Get(a, "report_id"), EntryOf(action, sender, a))
    case Appeal => FollowUp(c, s, tx, eventIndex, Get(a, "report_id"), EntryOf(action, sender, a))
    case ResolveAppeal => FollowUp(c, s, tx, eventIndex, Get(a, "report_id"), EntryOf(action, sender, a))
    case SetStatus => AddModeration(c, s, tx, eventIndex, EntryOf(action, sender, a))
    case Register => RegisterUsername(s, Get(a, "name"), Get(a, "owner"))
    case Release => ReleaseUsername(s, Get(a, "name"), Get(a, "owner"))
    case AwardBadge => AddRecipient(s, Get(a, "recipient"))
    case RegisterRelease => AddRelease(s, Get(a, "version"))
    case Inert => Some(s)
  }

  ghost function Committed(c: Context, s: State, tx: Tx, eventIndex: nat, action: string, a: Attributes): State {
    s.(commitment := c.digest(s.commitment, CanonicalEvent(tx, eventIndex, action, a)))
  }

  ghost function ApplyEvent(c: Context, s: State, tx: Tx, eventIndex: nat, action: string, sender: string,
      a: Attributes): Option<State> {
    var known :- ActionOf(action);
    Dispatch(c, Committed(c, s, tx, eventIndex, action, a), tx, eventIndex, known, sender, a)
  }

  // ------------------------------------------------- one transaction, one log

  function ContractAddress(a: Attributes): string {
    OrElse(Get(a, "_contract_address"), Get(a, "contract_address"))
  }

  predicate IsContractEvent(e: Event, contract: string) {
    (e.kind == "wasm" || "wasm-" <= e.kind) && ContractAddress(e.attributes) == contract
  }

  /** The event reaches `apply`: it is the contract's and names an action. */
  predicate Acts(e: Event, contract: string) {
    IsContractEvent(e, contract) && Get(e.attributes, "action") != ""
  }

  function Sender(events: seq<Event>): string {
    if events == [] then ""
    else if events[0].kind == "message" &&
    Get(events[0].attributes, "sender") != "" then Get(events[0].attributes, "sender")
    else Sender(events[1..])
  }

  /** The state after the first `n` events of `tx`, and whether any of them acted. */
  ghost function ReplayEvents(c: Context, s: State, tx: Tx, n: nat): Option<(State, bool)>
    requires n <= |tx.events|
  {
    if n == 0 then Some((s, false)) else
    var before :- ReplayEvents(c, s, tx, n - 1);
    var e := tx.events[n - 1];
    if !Acts(e, c.contract) then Some(before) else
    var after :- ApplyEvent(c, before.0, tx, n - 1, Get(e.attributes, "action"), Sender(tx.events), e.attributes);
    Some((after, true))
  }

  /** The checks transaction `n` passes before any of its events is looked at. */
  ghost predicate Admissible(c: Context, txs: seq<Tx>, n: nat)
    requires n < |txs|
  {
    var tx := txs[n];
    tx.height <= c.cutover &&
    (forall m :: 0 <= m < n ==> (txs[m].height, txs[m].index) != (tx.height, tx.index) && txs[m].hash != tx.hash) &&
    tx.height in c.evidence.blocks &&
    c.evidence.blocks[tx.height].chainId == c.chainId &&
    tx.index < |c.evidence.blocks[tx.height].txHashes| &&
    c.evidence.blocks[tx.height].txHashes[tx.index] == tx.hash
  }

  ghost function ReplayTx(c: Context, s: State, tx: Tx): Option<State> {
    if tx.code != 0 then Some(s) else
    var after :- ReplayEvents(c, s, tx, |tx.events|);
    if !after.1 then None else Some(after.0.(successfulTxs := after.0.successfulTxs + 1))
  }

  /** The state after the first `n` transactions of a sorted log. */
  ghost function ReplayTxs(c: Context, txs: seq<Tx>, n: nat): Option<State>
    requires n <= |txs|
  {
    if n == 0 then Some(Initial()) else
    var before :- ReplayTxs(c, txs, n - 1);
    if !Admissible(c, txs, n - 1) then None else ReplayTx(c, before, txs[n - 1])
  }

  // ------------------------------------------------------------- invariants

  ghost predicate UsernamesInverse(s: State) {
    (forall n :: n in s.usernameByName ==>
      n != "" && s.usernameByName[n] != "" &&
      s.usernameByName[n] in s.usernameByUser && s.usernameByUser[s.usernameByName[n]] == n) &&
    (forall u :: u in s.usernameByUser ==>
      u != "" && s.usernameByUser[u] != "" &&
      s.usernameByUser[u] in s.usernameByName && s.usernameByName[s.usernameByUser[u]] == u)
  }

  /** `locators` is exactly the inverse of all alias lists, so no locator names two repositories. */
  ghost predicate LocatorsInverse(s: State) {
    (forall l :: l in s.locators ==>
      s.locators[l] in s.repositories && l in s.repositories[s.locators[l]].aliases) &&
    (forall id, k :: id in s.repositories && 0 <= k < |s.repositories[id].aliases| ==>
      s.repositories[id].aliases[k] in s.locators && s.locators[s.repositories[id].aliases[k]] == id)
  }

  predicate RecordComplete(id: string, r: Repository) {
    r.identity == id && id != "" && r.name != "" && |r.createdTxHash| == 64 && r.createdTxHash <= id &&
    r.createdHeight > 0 && r.aliases != [] && Distinct(r.aliases)
  }

  ghost predicate RecordsComplete(s: State) {
    forall id :: id in s.repositories ==> RecordComplete(id, s.repositories[id])
  }

  ghost predicate KeysNonEmpty(s: State) {
    0 !in s.reports && "" !in s.recipients && "" !in s.releases
  }

  predicate Complete(m: Moderation) {
    m.action != "" && m.actor != "" && m.timestamp > 0 && m.height > 0 && InRange(m)
  }

  predicate TrailOrdered(trail: seq<Moderation>) {
    forall i, j :: 0 <= i < j < |trail| ==> Before(trail[i], trail[j])
  }

  ghost predicate TrailComplete(trail: seq<Moderation>) {
    TrailOrdered(trail) && forall i :: 0 <= i < |trail| ==> Complete(trail[i])
  }

  ghost predicate Invariant(s: State) {
    UsernamesInverse(s) && LocatorsInverse(s) && RecordsComplete(s) && KeysNonEmpty(s) && TrailComplete(s.moderation)
  }

  /** Every identity so far was minted before event `n` of `tx`. */
  ghost predicate Minted(s: State, tx: Tx, n: nat) {
    forall id :: id in s.repositories && s.repositories[id].createdTxHash == Lower(tx.hash) ==>
      exists j: nat :: j < n && id == Identity(tx.hash, j)
  }

  predicate PrecedesEvent(m: Moderation, tx: Tx, n: nat) {
    if m.height != tx.height then m.height < tx.height
    else if m.txIndex != tx.index then m.txIndex < tx.index
    else m.eventIndex < n
  }

  ghost predicate TrailPrecedes(s: State, tx: Tx, n: nat) {
    forall i :: 0 <= i < |s.moderation| ==> PrecedesEvent(s.moderation[i], tx, n)
  }

  /** What decoding a tx_search page guarantees of each transaction. */
  predicate ValidTx(tx: Tx) {
    0 < tx.height < UINT64_LIMIT && tx.index < UINT32_LIMIT && IsUpperHash(tx.hash)
  }

  /** Only the owner may change, and aliases are only appended. */
  predicate Extends(r: Repository, t: Repository) {
    r.aliases <= t.aliases && t == r.(owner := t.owner, aliases := t.aliases)
  }

  /** Nothing replay has learned is ever lost. */
  ghost predicate Grows(s: State, t: State) {
    (forall id :: id in s.repositories ==> id in t.repositories && Extends(s.repositories[id], t.repositories[id])) &&
    (forall l :: l in s.locators ==> l in t.locators && t.locators[l] == s.locators[l]) &&
    s.reports <= t.reports && s.recipients <= t.recipients && s.releases <= t.releases &&
    s.moderation <= t.moderation
  }
}
