/** What the replayed state means, read off the acting events alone: which logs are accepted, and
    what the inventory then says about each of them. */
module InventoryMeaning {
  import opened Order
  import opened Digits
  import opened Evidence
  import opened Replay
  import opened ReplayInvariants
  import opened InventoryBuild
  import opened EventLog
  import OwnerHistory

  // ------------------------------------------------------------ reading acts

  /** The report number an act names: decimal, positive, 64 bits. */
  function Number(a: Act): Option<nat> {
    var n := ParseUint(Attr(a, "report_id"));
    if n == Some(0) then None else n
  }

  predicate Submits(a: Act, id: nat) { Is(a, Submit) && Number(a) == Some(id) }

  ghost predicate Reported(acts: seq<Act>, id: nat) { exists i :: 0 <= i < |acts| && Submits(acts[i], id) }

  ghost predicate Awarded(acts: seq<Act>, recipient: string) {
    exists i :: 0 <= i < |acts| && Is(acts[i], AwardBadge) && Attr(acts[i], "recipient") == recipient
  }

  ghost predicate Published(acts: seq<Act>, version: string) {
    exists i :: 0 <= i < |acts| && Is(acts[i], RegisterRelease) && Attr(acts[i], "version") == version
  }

  /** Who holds a username: its last registration or release decides. */
  function Holder(acts: seq<Act>, name: string): Option<string> {
    if acts == [] then None else
    var a := acts[|acts| - 1];
    if Is(a, Register) && Attr(a, "name") == name then Some(Attr(a, "owner"))
    else if Is(a, Release) && Attr(a, "name") == name then None
    else Holder(acts[..|acts| - 1], name)
  }

  predicate Moderates(a: Act) {
    Is(a, Submit) || Is(a, Resolve) || Is(a, Appeal) || Is(a, ResolveAppeal) || Is(a, SetStatus)
  }

  /** The moderation acts, in order. */
  function Moderations(acts: seq<Act>): seq<Act> {
    if acts == [] then [] else
    Moderations(acts[..|acts| - 1]) + if Moderates(acts[|acts| - 1]) then [acts[|acts| - 1]] else []
  }

  /** Who acts: the reporter or the appealing owner if named, otherwise whoever sent the transaction. */
  function Actor(a: Act): string {
    if Is(a, Submit) && Attr(a, "reporter") != "" then Attr(a, "reporter")
    else if Is(a, Appeal) && Attr(a, "owner") != "" then Attr(a, "owner")
    else SenderOf(a)
  }

  /** The trail entry says what the act does, where and when. */
  ghost predicate Enters(c: Context, a: Act, m: Moderation) {
    && m.height == a.tx.height && m.txIndex == a.tx.index && m.eventIndex == a.event
    && a.tx.height in c.evidence.blocks && m.timestamp == c.evidence.blocks[a.tx.height].timestamp
    && m.actor == Actor(a) && m.reasonHash == Attr(a, "reason_hash")
    && (Is(a, SetStatus) ==> m.reportId == 0 && m.action == "status_set")
    && (!Is(a, SetStatus) ==> Number(a) == Some(m.reportId))
    && (Is(a, Submit) ==> m.action == "submitted") && (Is(a, Resolve) ==> m.action == "resolved")
    && (Is(a, Appeal) ==> m.action == "appealed") && (Is(a, ResolveAppeal) ==> m.action == "appeal_resolved")
    && m.owner == (if Is(a, Submit) || Is(a, SetStatus) then Attr(a, "owner") else "")
    && m.repo == (if Is(a, Submit) || Is(a, SetStatus) then Attr(a, "repo") else "")
    && m.status == (if Is(a, Submit) || Is(a, Appeal) then "" else Attr(a, "status"))
  }

  predicate Creates(a: Act) { Is(a, CreateRepo) || Is(a, ForkRepo) }

  /** The record says where the repository comes from. */
  predicate Origin(a: Act, r: Repository) {
    && Creates(a) && r.identity == Identity(a.tx.hash, a.event) && r.name == Attr(a, "repo")
    && r.createdTxHash == Lower(a.tx.hash) && r.createdHeight == a.tx.height && r.createdTxIndex == a.tx.index
    && r.forkedFrom == (if Is(a, ForkRepo) then Attr(a, "source_owner") + "/" + Attr(a, "source_repo") else "")
  }

  /** The act creates the repository of the record. */
  predicate Founds(a: Act, r: Repository) {
    Origin(a, r) && r.aliases != [] && r.aliases[0] == Attr(a, "owner") + "/" + Attr(a, "repo")
  }

  // ------------------------------------------------------------ what one act changes

  // Every action touches its own part of the state only.

  lemma {:induction false} ReportsAside(c: Context, s: State, tx: Tx, n: nat, action: Action, sender: string,
      a: Attributes)
    requires action != Submit && Dispatch(c, s, tx, n, action, sender, a).Some?
    ensures var t := Dispatch(c, s, tx, n, action, sender, a).value; t.reports == s.reports
  {
  }

  lemma {:induction false} BadgesAside(c: Context, s: State, tx: Tx, n: nat, action: Action, sender: string,
      a: Attributes)
    requires action != AwardBadge && Dispatch(c, s, tx, n, action, sender, a).Some?
    ensures var t := Dispatch(c, s, tx, n, action, sender, a).value; t.recipients == s.recipients
  {
  }

  lemma {:induction false} ReleasesAside(c: Context, s: State, tx: Tx, n: nat, action: Action, sender: string,
      a: Attributes)
    requires action != RegisterRelease && Dispatch(c, s, tx, n, action, sender, a).Some?
    ensures var t := Dispatch(c, s, tx, n, action, sender, a).value; t.releases == s.releases
  {
  }

  lemma {:induction false} NamesAside(c: Context, s: State, tx: Tx, n: nat, action: Action, sender: string,
      a: Attributes)
    requires action != Register && action != Release && Dispatch(c, s, tx, n, action, sender, a).Some?
    ensures var t := Dispatch(c, s, tx, n, action, sender, a).value; t.usernameByName == s.usernameByName
  {
  }

  lemma {:induction false} TrailAside(c: Context, s: State, tx: Tx, n: nat, action: Action, sender: string,
      a: Attributes)
    requires action !in {Submit, Resolve, Appeal, ResolveAppeal, SetStatus}
    requires Dispatch(c, s, tx, n, action, sender, a).Some?
    ensures var t := Dispatch(c, s, tx, n, action, sender, a).value; t.moderation == s.moderation
  {
  }

  /** The state in which an act takes effect. */
  ghost function Base(c: Context, s: State, a: Act): State {
    Committed(c, s, a.tx, a.event, Attr(a, "action"), Attrs(a))
  }

  // ------------------------------------------------------------ reports, badges, releases

  ghost predicate ReportsMean(s: State, acts: seq<Act>) { forall id: nat :: id in s.reports <==> Reported(acts, id) }

  ghost predicate BadgesMean(s: State, acts: seq<Act>) { forall r :: r in s.recipients <==> Awarded(acts, r) }

  ghost predicate ReleasesMean(s: State, acts: seq<Act>) { forall v :: v in s.releases <==> Published(acts, v) }

  lemma {:induction false} SomeNext(acts: seq<Act>, a: Act, of: Act -> bool)
    ensures (exists i :: 0 <= i < |acts + [a]| && of((acts + [a])[i])) <==>
      (exists i :: 0 <= i < |acts| && of(acts[i])) || of(a)
  {
    var more := acts + [a];
    if i :| 0 <= i < |acts| && of(acts[i]) { assert more[i] == acts[i]; }
    if of(a) { assert more[|acts|] == a; }
    if i :| 0 <= i < |more| && of(more[i]) { if i < |acts| { assert more[i] == acts[i]; } }
  }

  lemma {:induction false} ReportNext(acts: seq<Act>, a: Act, id: nat)
    ensures Reported(acts + [a], id) <==> Reported(acts, id) || Submits(a, id)
  {
    SomeNext(acts, a, (b: Act) => Submits(b, id));
  }

  lemma {:induction false} AwardNext(acts: seq<Act>, a: Act, r: string)
    ensures Awarded(acts + [a], r) <==> Awarded(acts, r) || (Is(a, AwardBadge) && Attr(a, "recipient") == r)
  {
    SomeNext(acts, a, (b: Act) => Is(b, AwardBadge) && Attr(b, "recipient") == r);
  }

  lemma {:induction false} PublishNext(acts: seq<Act>, a: Act, v: string)
    ensures Published(acts + [a], v) <==> Published(acts, v) || (Is(a, RegisterRelease) && Attr(a, "version") == v)
  {
    SomeNext(acts, a, (b: Act) => Is(b, RegisterRelease) && Attr(b, "version") == v);
  }

  /** A submission adds its number. */
  lemma {:induction false} ReportsChange(c: Context, s: State, a: Act)
    requires ApplyAct(c, s, a).Some?
    ensures Is(a, Submit) ==> Number(a).Some?
    ensures ApplyAct(c, s, a).value.reports ==
      if Is(a, Submit) then s.reports + {Number(a).value} else s.reports
  {
    if !Is(a, Submit) { ReportsAside(c, Base(c, s, a), a.tx, a.event, a.does.value, SenderOf(a), Attrs(a)); }
  }

  lemma {:induction false} ReportsStep(c: Context, s: State, acts: seq<Act>, a: Act)
    requires ReportsMean(s, acts) && ApplyAct(c, s, a).Some?
    ensures ReportsMean(ApplyAct(c, s, a).value, acts + [a])
  {
    ReportsChange(c, s, a);
    forall id: nat ensures id in ApplyAct(c, s, a).value.reports <==> Reported(acts + [a], id) {
      ReportNext(acts, a, id);
    }
  }

  lemma {:induction false} BadgesStep(c: Context, s: State, acts: seq<Act>, a: Act)
    requires BadgesMean(s, acts) && ApplyAct(c, s, a).Some?
    ensures BadgesMean(ApplyAct(c, s, a).value, acts + [a])
  {
    if !Is(a, AwardBadge) { BadgesAside(c, Base(c, s, a), a.tx, a.event, a.does.value, SenderOf(a), Attrs(a)); }
    forall r ensures r in ApplyAct(c, s, a).value.recipients <==> Awarded(acts + [a], r) { AwardNext(acts, a, r); }
  }

  lemma {:induction false} ReleasesStep(c: Context, s: State, acts: seq<Act>, a: Act)
    requires ReleasesMean(s, acts) && ApplyAct(c, s, a).Some?
    ensures ReleasesMean(ApplyAct(c, s, a).value, acts + [a])
  {
    if !Is(a, RegisterRelease) { ReleasesAside(c, Base(c, s, a), a.tx, a.event, a.does.value, SenderOf(a), Attrs(a)); }
    forall v ensures v in ApplyAct(c, s, a).value.releases <==> Published(acts + [a], v) { PublishNext(acts, a, v); }
  }

  lemma {:induction false} SetsMean(c: Context, txs: seq<Tx>, n: nat)
    requires ValidLog(txs) && n <= |txs| && ReplayTxs(c, txs, n).Some?
    ensures var s, acts := ReplayTxs(c, txs, n).value, LogActs(c.contract, txs, n);
      ReportsMean(s, acts) && BadgesMean(s, acts) && ReleasesMean(s, acts)
  {
    var holds := (s: State, acts: seq<Act>) => ReportsMean(s, acts) && BadgesMean(s, acts) && ReleasesMean(s, acts);
    forall s, acts, a | holds(s, acts) && CanFollow(s, a) && ApplyAct(c, s, a).Some?
      ensures holds(ApplyAct(c, s, a).value, acts + [a])
    {
      ReportsStep(c, s, acts, a);
      BadgesStep(c, s, acts, a);
      ReleasesStep(c, s, acts, a);
    }
    assert holds(Initial(), []);
    LogInduction(c, holds, txs, n);
  }

  // ------------------------------------------------------------ usernames

  ghost predicate NamesMean(s: State, acts: seq<Act>) {
    forall name :: if name in s.usernameByName then Holder(acts, name) == Some(s.usernameByName[name])
                   else Holder(acts, name).None?
  }

  lemma {:induction false} HolderNext(acts: seq<Act>, a: Act, name: string)
    ensures Holder(acts + [a], name) ==
      if Is(a, Register) && Attr(a, "name") == name then Some(Attr(a, "owner"))
      else if Is(a, Release) && Attr(a, "name") == name then None else Holder(acts, name)
  {
    assert (acts + [a])[..|acts|] == acts;
  }

  /** A registration adds its name, a release takes its name away. */
  lemma {:induction false} NamesChange(c: Context, s: State, a: Act)
    requires ApplyAct(c, s, a).Some?
    ensures ApplyAct(c, s, a).value.usernameByName ==
      if Is(a, Register) then s.usernameByName[Attr(a, "name") := Attr(a, "owner")]
      else if Is(a, Release) then s.usernameByName - {Attr(a, "name")} else s.usernameByName
  {
    if !Is(a, Register) && !Is(a, Release) {
      NamesAside(c, Base(c, s, a), a.tx, a.event, a.does.value, SenderOf(a), Attrs(a));
    }
  }

  lemma {:induction false} NamesStep(c: Context, s: State, acts: seq<Act>, a: Act)
    requires NamesMean(s, acts) && ApplyAct(c, s, a).Some?
    ensures NamesMean(ApplyAct(c, s, a).value, acts + [a])
  {
    var t := ApplyAct(c, s, a).value;
    NamesChange(c, s, a);
    forall name
      ensures if name in t.usernameByName then Holder(acts + [a], name) == Some(t.usernameByName[name])
              else Holder(acts + [a], name).None?
    {
      HolderNext(acts, a, name);
    }
  }

  lemma {:induction false} UsernamesMean(c: Context, txs: seq<Tx>, n: nat)
    requires ValidLog(txs) && n <= |txs| && ReplayTxs(c, txs, n).Some?
    ensures NamesMean(ReplayTxs(c, txs, n).value, LogActs(c.contract, txs, n))
  {
    var holds := (s: State, acts: seq<Act>) => NamesMean(s, acts);
    forall s, acts, a | holds(s, acts) && CanFollow(s, a) && ApplyAct(c, s, a).Some?
      ensures holds(ApplyAct(c, s, a).value, acts + [a])
    {
      NamesStep(c, s, acts, a);
    }
    assert holds(Initial(), []);
    LogInduction(c, holds, txs, n);
  }

  // ------------------------------------------------------------ the trail

  ghost predicate TrailMeans(c: Context, s: State, acts: seq<Act>) {
    var mods := Moderations(acts);
    |s.moderation| == |mods| && forall i :: 0 <= i < |mods| ==> Enters(c, mods[i], s.moderation[i])
  }

  lemma {:induction false} ModerationsNext(acts: seq<Act>, a: Act)
    ensures Moderations(acts + [a]) == Moderations(acts) + if Moderates(a) then [a] else []
  {
    assert (acts + [a])[..|acts|] == acts;
  }

  /** The act is entered at the end of the trail. */
  ghost predicate Appends(c: Context, s: State, a: Act, t: State) {
    && |t.moderation| == |s.moderation| + 1 && t.moderation[..|s.moderation|] == s.moderation
    && Enters(c, a, t.moderation[|s.moderation|])
  }

  lemma {:induction false} AppendsEntry(c: Context, s: State, a: Act, entry: Moderation, base: State)
    requires a.event < UINT32_LIMIT && base.moderation == s.moderation
    requires AddModeration(c, base, a.tx, a.event, entry).Some?
    requires Enters(c, a, Stamp(c, a.tx, a.event, entry)) || a.tx.height !in c.evidence.blocks
    ensures Appends(c, s, a, AddModeration(c, base, a.tx, a.event, entry).value)
  {
  }

  lemma {:induction false} NumberIs(a: Act)
    ensures Number(a) == ReportId(Attr(a, "report_id"))
  {
  }

  /** The entry the switch makes of an act is the one that says what it does. */
  lemma {:induction false} EntryEnters(c: Context, a: Act, id: nat)
    requires Moderates(a) && a.event < UINT32_LIMIT && a.tx.height in c.evidence.blocks
    requires if Is(a, SetStatus) then id == 0 else Number(a) == Some(id)
    ensures Enters(c, a, Stamp(c, a.tx, a.event, EntryOf(a.does.value, SenderOf(a), Attrs(a)).(reportId := id)))
  {
  }

  lemma {:induction false} EntersSubmit(c: Context, s: State, a: Act)
    requires Is(a, Submit) && a.event < UINT32_LIMIT && ApplyAct(c, s, a).Some?
    ensures Appends(c, s, a, ApplyAct(c, s, a).value)
  {
    NumberIs(a);
    var id, base := Number(a).value, Base(c, s, a);
    var entry := EntryOf(Submit, SenderOf(a), Attrs(a)).(reportId := id);
    if a.tx.height in c.evidence.blocks { EntryEnters(c, a, id); }
    AppendsEntry(c, s, a, entry, base.(reports := base.reports + {id}));
  }

  lemma {:induction false} EntersFollowUp(c: Context, s: State, a: Act)
    requires Is(a, Resolve) || Is(a, Appeal) || Is(a, ResolveAppeal)
    requires a.event < UINT32_LIMIT && ApplyAct(c, s, a).Some?
    ensures Appends(c, s, a, ApplyAct(c, s, a).value)
  {
    var entry := EntryOf(a.does.value, SenderOf(a), Attrs(a));
    NumberIs(a);
    FollowUpIs(c, Base(c, s, a), a.tx, a.event, Attr(a, "report_id"), entry);
    if a.tx.height in c.evidence.blocks { EntryEnters(c, a, Number(a).value); }
    AppendsEntry(c, s, a, entry.(reportId := Number(a).value), Base(c, s, a));
  }

  lemma {:induction false} FollowUpIs(c: Context, s: State, tx: Tx, n: nat, report: string, entry: Moderation)
    requires FollowUp(c, s, tx, n, report, entry).Some?
    ensures ReportId(report).Some?
    ensures FollowUp(c, s, tx, n, report, entry) ==
      AddModeration(c, s, tx, n, entry.(reportId := ReportId(report).value))
  {
  }

  lemma {:induction false} EntersStatus(c: Context, s: State, a: Act)
    requires Is(a, SetStatus) && a.event < UINT32_LIMIT && ApplyAct(c, s, a).Some?
    ensures Appends(c, s, a, ApplyAct(c, s, a).value)
  {
    var entry := EntryOf(SetStatus, SenderOf(a), Attrs(a));
    if a.tx.height in c.evidence.blocks { EntryEnters(c, a, 0); }
    assert entry.(reportId := 0) == entry;
    AppendsEntry(c, s, a, entry, Base(c, s, a));
  }

  lemma {:induction false} EntersNew(c: Context, s: State, a: Act)
    requires Moderates(a) && a.event < UINT32_LIMIT && ApplyAct(c, s, a).Some?
    ensures Appends(c, s, a, ApplyAct(c, s, a).value)
  {
    if Is(a, Submit) {
      EntersSubmit(c, s, a);
    } else if Is(a, SetStatus) {
      EntersStatus(c, s, a);
    } else {
      EntersFollowUp(c, s, a);
    }
  }

  lemma {:induction false} TrailStep(c: Context, s: State, acts: seq<Act>, a: Act)
    requires TrailMeans(c, s, acts) && CanFollow(s, a) && ApplyAct(c, s, a).Some?
    ensures TrailMeans(c, ApplyAct(c, s, a).value, acts + [a])
  {
    if !Moderates(a) { TrailAside(c, Base(c, s, a), a.tx, a.event, a.does.value, SenderOf(a), Attrs(a)); }
    ModerationsNext(acts, a);
    var t, mods := ApplyAct(c, s, a).value, Moderations(acts + [a]);
    if Moderates(a) {
      EntersNew(c, s, a);
      forall i | 0 <= i < |mods| ensures Enters(c, mods[i], t.moderation[i]) {
        if i < |s.moderation| { assert t.moderation[i] == t.moderation[..|s.moderation|][i] == s.moderation[i]; }
      }
    } else {
      assert mods == Moderations(acts) + [] == Moderations(acts);
    }
  }

  /** The trail is the moderation acts of the log, entry for entry. */
  lemma {:induction false} TrailIs(c: Context, txs: seq<Tx>, n: nat)
    requires ValidLog(txs) && n <= |txs| && ReplayTxs(c, txs, n).Some?
    ensures TrailMeans(c, ReplayTxs(c, txs, n).value, LogActs(c.contract, txs, n))
  {
    var holds := (s: State, acts: seq<Act>) => TrailMeans(c, s, acts);
    forall s, acts, a | holds(s, acts) && CanFollow(s, a) && ApplyAct(c, s, a).Some?
      ensures holds(ApplyAct(c, s, a).value, acts + [a])
    {
      TrailStep(c, s, acts, a);
    }
    assert holds(Initial(), []);
    LogInduction(c, holds, txs, n);
  }

  // ------------------------------------------------------------ repositories

  ghost predicate Founded(acts: seq<Act>, r: Repository) { exists i :: 0 <= i < |acts| && Founds(acts[i], r) }

  ghost predicate OriginsMean(s: State, acts: seq<Act>) {
    && (forall id :: id in s.repositories ==> Founded(acts, s.repositories[id]))
    && (forall i :: 0 <= i < |acts| && Creates(acts[i]) ==>
         Identity(acts[i].tx.hash, acts[i].event) in s.repositories &&
         Founds(acts[i], s.repositories[Identity(acts[i].tx.hash, acts[i].event)]))
  }

  lemma {:induction false} FoundedLater(acts: seq<Act>, a: Act, r: Repository)
    ensures Founded(acts + [a], r) <==> Founded(acts, r) || Founds(a, r)
  {
    SomeNext(acts, a, (b: Act) => Founds(b, r));
  }

  lemma {:induction false} FoundsNew(c: Context, s: State, a: Act)
    requires Creates(a) && ApplyAct(c, s, a).Some?
    ensures var t, id := ApplyAct(c, s, a).value, Identity(a.tx.hash, a.event);
      id in t.repositories && t.repositories == s.repositories[id := t.repositories[id]] &&
      Founds(a, t.repositories[id])
  {
  }

  /** A transfer changes the owner and adds an alias, and nothing else. */
  lemma {:induction false} TransferOrigin(c: Context, s: State, a: Act)
    requires Is(a, Transfer) && ApplyAct(c, s, a).Some? && RecordsComplete(s)
    ensures var t := ApplyAct(c, s, a).value;
      && t.repositories.Keys == s.repositories.Keys
      && forall id, b :: id in s.repositories ==> (Founds(b, s.repositories[id]) <==> Founds(b, t.repositories[id]))
  {
    var t := ApplyAct(c, s, a).value;
    forall id | id in s.repositories
      ensures id in t.repositories && s.repositories[id].aliases != []
      ensures t.repositories[id] == s.repositories[id].(
        owner := t.repositories[id].owner, aliases := t.repositories[id].aliases)
      ensures t.repositories[id].aliases != [] && t.repositories[id].aliases[0] == s.repositories[id].aliases[0]
    {
      assert RecordComplete(id, s.repositories[id]);
    }
  }

  /** What an act makes of the origins: one more, or none. */
  ghost predicate KeepsOrigins(s: State, a: Act, t: State) {
    var id := Identity(a.tx.hash, a.event);
    && (forall i :: i in s.repositories ==> i in t.repositories)
    && (forall i, b :: i in s.repositories && Founds(b, s.repositories[i]) ==> Founds(b, t.repositories[i]))
    && (forall i :: i in t.repositories && i !in s.repositories ==> Creates(a) && i == id)
    && (Creates(a) ==> id !in s.repositories && id in t.repositories && Founds(a, t.repositories[id]))
  }

  lemma {:induction false} ActKeepsOrigins(c: Context, s: State, a: Act)
    requires CanFollow(s, a) && ApplyAct(c, s, a).Some?
    ensures KeepsOrigins(s, a, ApplyAct(c, s, a).value)
  {
    if Creates(a) {
      FoundsNew(c, s, a);
      FreshIdentity(s, a.tx, a.event);
    } else if Is(a, Transfer) {
      TransferOrigin(c, s, a);
    } else {
      OwnerHistory.OthersAside(c, Base(c, s, a), a.tx, a.event, a.does.value, SenderOf(a), Attrs(a));
    }
  }

  lemma {:induction false} OriginsStep(s: State, acts: seq<Act>, a: Act, t: State)
    requires OriginsMean(s, acts) && KeepsOrigins(s, a, t)
    ensures OriginsMean(t, acts + [a])
  {
    var more := acts + [a];
    forall id | id in t.repositories ensures Founded(more, t.repositories[id]) {
      FoundedLater(acts, a, t.repositories[id]);
      if id in s.repositories {
        var i :| 0 <= i < |acts| && Founds(acts[i], s.repositories[id]);
        assert Founds(acts[i], t.repositories[id]);
      }
    }
    forall i | 0 <= i < |more| && Creates(more[i])
      ensures Identity(more[i].tx.hash, more[i].event) in t.repositories
      ensures Founds(more[i], t.repositories[Identity(more[i].tx.hash, more[i].event)])
    {
      if i < |acts| { assert more[i] == acts[i]; }
    }
  }

  /** The repositories are the creations of the log, each with its origin. */
  lemma {:induction false} OriginsAre(c: Context, txs: seq<Tx>, n: nat)
    requires ValidLog(txs) && n <= |txs| && ReplayTxs(c, txs, n).Some?
    ensures OriginsMean(ReplayTxs(c, txs, n).value, LogActs(c.contract, txs, n))
  {
    var holds := (s: State, acts: seq<Act>) => OriginsMean(s, acts);
    forall s, acts, a | holds(s, acts) && CanFollow(s, a) && ApplyAct(c, s, a).Some?
      ensures holds(ApplyAct(c, s, a).value, acts + [a])
    {
      ActKeepsOrigins(c, s, a);
      OriginsStep(s, acts, a, ApplyAct(c, s, a).value);
    }
    assert holds(Initial(), []);
    LogInduction(c, holds, txs, n);
  }
}
