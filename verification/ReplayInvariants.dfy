/** Every replayed log keeps the builder's maps mutually inverse and loses nothing. */
module ReplayInvariants {
  import opened Order
  import opened Digits
  import opened Evidence
  import opened Replay

  /** The invariant, with the bounds that make the next event's identity and position new. */
  ghost predicate Ready(s: State, tx: Tx, n: nat) {
    Invariant(s) && Minted(s, tx, n) && TrailPrecedes(s, tx, n)
  }

  /** Everything in `t` that is not in `s` carries the stamp of `tx`. */
  ghost predicate StampedBy(s: State, t: State, tx: Tx) {
    (forall id :: id in t.repositories ==>
      (id in s.repositories && t.repositories[id].createdTxHash == s.repositories[id].createdTxHash) ||
      t.repositories[id].createdTxHash == Lower(tx.hash)) &&
    s.moderation <= t.moderation &&
    (forall i :: |s.moderation| <= i < |t.moderation| ==>
      t.moderation[i].height == tx.height && t.moderation[i].txIndex == tx.index)
  }

  ghost predicate Steps(s: State, t: State, tx: Tx, n: nat) {
    Ready(t, tx, n) && Grows(s, t) && StampedBy(s, t, tx)
  }

  lemma {:induction false} FreshIdentity(s: State, tx: Tx, n: nat)
    requires ValidTx(tx) && RecordsComplete(s) && Minted(s, tx, n)
    ensures Identity(tx.hash, n) !in s.repositories
  {
    var id := Identity(tx.hash, n);
    assert id[..64] == Lower(tx.hash);
    forall j: nat | j < n ensures id != Identity(tx.hash, j) {
      IdentityInjective(tx.hash, n, tx.hash, j);
    }
  }

  /** A step that touches only one repository and one locator. */
  ghost predicate Touches(s: State, t: State, id: string, locator: string) {
    id in t.repositories &&
    t == s.(repositories := s.repositories[id := t.repositories[id]], locators := s.locators[locator := id])
  }

  lemma {:induction false} TouchGrows(s: State, t: State, id: string, locator: string)
    requires Touches(s, t, id, locator)
    requires locator in s.locators ==> s.locators[locator] == id
    requires id in s.repositories ==> Extends(s.repositories[id], t.repositories[id])
    ensures Grows(s, t)
  {
  }

  lemma {:induction false} TouchReady(s: State, t: State, id: string, locator: string, tx: Tx, n: nat)
    requires Ready(s, tx, n) && Touches(s, t, id, locator)
    requires LocatorsInverse(t) && RecordComplete(id, t.repositories[id]) && Minted(t, tx, n + 1)
    ensures Ready(t, tx, n + 1)
  {
    assert RecordsComplete(t);
  }

  lemma {:induction false} TouchSteps(s: State, t: State, id: string, locator: string, tx: Tx, n: nat)
    requires Ready(s, tx, n) && Touches(s, t, id, locator)
    requires LocatorsInverse(t) && RecordComplete(id, t.repositories[id]) && Minted(t, tx, n + 1)
    requires locator in s.locators ==> s.locators[locator] == id
    requires id in s.repositories ==> Extends(s.repositories[id], t.repositories[id])
    requires id !in s.repositories ==> t.repositories[id].createdTxHash == Lower(tx.hash)
    ensures Steps(s, t, tx, n + 1)
  {
    TouchReady(s, t, id, locator, tx, n);
    TouchGrows(s, t, id, locator);
    assert StampedBy(s, t, tx);
  }

  lemma {:induction false} CreateKeeps(s: State, tx: Tx, n: nat, owner: string, name: string, source: Option<string>)
    requires ValidTx(tx) && Ready(s, tx, n) && CreateRepository(s, tx, n, owner, name, source).Some?
    ensures Steps(s, CreateRepository(s, tx, n, owner, name, source).value, tx, n + 1)
  {
    FreshIdentity(s, tx, n);
    var t := CreateRepository(s, tx, n, owner, name, source).value;
    var id, locator := Identity(tx.hash, n), Locator(owner, name);
    assert RecordComplete(id, t.repositories[id]) && Touches(s, t, id, locator) by {
      assert id[..64] == Lower(tx.hash);
    }
    CreateInverse(s, t, id, locator);
    MintedTouch(s, t, tx, n, id, locator);
    TouchSteps(s, t, id, locator, tx, n);
  }

  lemma {:induction false} MintedTouch(s: State, t: State, tx: Tx, n: nat, id: string, locator: string)
    requires Minted(s, tx, n) && Touches(s, t, id, locator)
    requires id == Identity(tx.hash, n) ||
             (id in s.repositories && t.repositories[id].createdTxHash == s.repositories[id].createdTxHash)
    ensures Minted(t, tx, n + 1)
  {
  }

  lemma {:induction false} CreateInverse(s: State, t: State, id: string, locator: string)
    requires LocatorsInverse(s) && id !in s.repositories && locator !in s.locators
    requires Touches(s, t, id, locator) && t.repositories[id].aliases == [locator]
    ensures LocatorsInverse(t)
  {
  }

  lemma {:induction false} TransferKeeps(s: State, tx: Tx, n: nat, oldOwner: string, newOwner: string, name: string)
    requires Ready(s, tx, n) && TransferOwnership(s, oldOwner, newOwner, name).Some?
    ensures Steps(s, TransferOwnership(s, oldOwner, newOwner, name).value, tx, n + 1)
  {
    var t := TransferOwnership(s, oldOwner, newOwner, name).value;
    var id, locator := s.locators[Locator(oldOwner, name)], Locator(newOwner, name);
    assert Touches(s, t, id, locator);
    TransferInverse(s, t, id, locator);
    MintedTouch(s, t, tx, n, id, locator);
    TouchSteps(s, t, id, locator, tx, n);
  }

  lemma {:induction false} TransferInverse(s: State, t: State, id: string, locator: string)
    requires LocatorsInverse(s) && id in s.repositories && Distinct(s.repositories[id].aliases)
    requires locator in s.locators ==> s.locators[locator] == id
    requires Touches(s, t, id, locator)
    requires t.repositories[id].aliases == AppendUnique(s.repositories[id].aliases, locator)
    ensures LocatorsInverse(t) && Distinct(t.repositories[id].aliases)
    ensures s.repositories[id].aliases <= t.repositories[id].aliases
  {
    var before, after := s.repositories[id].aliases, t.repositories[id].aliases;
    assert locator in after && forall k :: 0 <= k < |before| ==> after[k] == before[k];
    forall l | l in t.locators ensures t.locators[l] in t.repositories && l in t.repositories[t.locators[l]].aliases {
      if l != locator && t.locators[l] == id { assert l in before; }
    }
  }

  lemma {:induction false} ModerationKeeps(c: Context, s: State, tx: Tx, n: nat, entry: Moderation)
    requires ValidTx(tx) && n < UINT32_LIMIT && Ready(s, tx, n) && AddModeration(c, s, tx, n, entry).Some?
    ensures Steps(s, AddModeration(c, s, tx, n, entry).value, tx, n + 1)
  {
    var t := AddModeration(c, s, tx, n, entry).value;
    var last := |s.moderation|;
    assert Complete(t.moderation[last]) && PrecedesEvent(t.moderation[last], tx, n + 1);
    forall i | 0 <= i < last
      ensures Before(t.moderation[i], t.moderation[last]) && PrecedesEvent(t.moderation[i], tx, n + 1)
    {
      assert t.moderation[i] == s.moderation[i] && PrecedesEvent(s.moderation[i], tx, n);
    }
  }

  lemma {:induction false} UsernamesKeep(s: State, name: string, owner: string)
    requires UsernamesInverse(s)
    ensures RegisterUsername(s, name, owner).Some? ==> UsernamesInverse(RegisterUsername(s, name, owner).value)
    ensures ReleaseUsername(s, name, owner).Some? ==> UsernamesInverse(ReleaseUsername(s, name, owner).value)
  {
  }

  lemma {:induction false} ReadyLater(s: State, tx: Tx, n: nat)
    requires Ready(s, tx, n)
    ensures Steps(s, s, tx, n + 1)
  {
  }

  /** Changing only usernames, badges, releases, reports or the commitment disturbs nothing else. */
  lemma {:induction false} SideStep(s: State, t: State, tx: Tx, n: nat)
    requires Ready(s, tx, n) && UsernamesInverse(t) && KeysNonEmpty(t)
    requires t.repositories == s.repositories && t.locators == s.locators && t.moderation == s.moderation
    requires s.reports <= t.reports && s.recipients <= t.recipients && s.releases <= t.releases
    ensures Steps(s, t, tx, n) && Steps(s, t, tx, n + 1)
  {
  }

  lemma {:induction false} SubmitKeeps(c: Context, s: State, tx: Tx, n: nat, reportId: string, entry: Moderation)
    requires ValidTx(tx) && n < UINT32_LIMIT && Ready(s, tx, n)
    requires SubmitReport(c, s, tx, n, reportId, entry).Some?
    ensures Steps(s, SubmitReport(c, s, tx, n, reportId, entry).value, tx, n + 1)
  {
    var id := ReportId(reportId).value;
    var t := s.(reports := s.reports + {id});
    SideStep(s, t, tx, n);
    ModerationKeeps(c, t, tx, n, entry.(reportId := id));
    StepsCompose(s, t, SubmitReport(c, s, tx, n, reportId, entry).value, tx, n, n + 1);
  }

  lemma {:induction false} DispatchKeeps(c: Context, s: State, tx: Tx, n: nat, action: Action, sender: string,
      a: Attributes)
    requires ValidTx(tx) && n < UINT32_LIMIT && Ready(s, tx, n)
    requires Dispatch(c, s, tx, n, action, sender, a).Some?
    ensures Steps(s, Dispatch(c, s, tx, n, action, sender, a).value, tx, n + 1)
  {
    var t := Dispatch(c, s, tx, n, action, sender, a).value;
    match action
    case CreateRepo => CreateKeeps(s, tx, n, Get(a, "owner"), Get(a, "repo"), None);
    case ForkRepo => CreateKeeps(s, tx, n, Get(a, "owner"), Get(a, "repo"), Some(ForkSource(a)));
    case Transfer => TransferKeeps(s, tx, n, Get(a, "old_owner"), Get(a, "new_owner"), Get(a, "repo"));
    case Submit => SubmitKeeps(c, s, tx, n, Get(a, "report_id"), EntryOf(action, sender, a));
    case Resolve => FollowUpKeeps(c, s, tx, n, Get(a, "report_id"), EntryOf(action, sender, a));
    case Appeal => FollowUpKeeps(c, s, tx, n, Get(a, "report_id"), EntryOf(action, sender, a));
    case ResolveAppeal => FollowUpKeeps(c, s, tx, n, Get(a, "report_id"), EntryOf(action, sender, a));
    case SetStatus => ModerationKeeps(c, s, tx, n, EntryOf(action, sender, a));
    case Register => UsernamesKeep(s, Get(a, "name"), Get(a, "owner")); SideStep(s, t, tx, n);
    case Release => UsernamesKeep(s, Get(a, "name"), Get(a, "owner")); SideStep(s, t, tx, n);
    case AwardBadge => SideStep(s, t, tx, n);
    case RegisterRelease => SideStep(s, t, tx, n);
    case Inert => ReadyLater(s, tx, n);
  }

  lemma {:induction false} FollowUpKeeps(c: Context, s: State, tx: Tx, n: nat, reportId: string, entry: Moderation)
    requires ValidTx(tx) && n < UINT32_LIMIT && Ready(s, tx, n)
    requires FollowUp(c, s, tx, n, reportId, entry).Some?
    ensures Steps(s, FollowUp(c, s, tx, n, reportId, entry).value, tx, n + 1)
  {
    ModerationKeeps(c, s, tx, n, entry.(reportId := ReportId(reportId).value));
  }

  lemma {:induction false} StepsCompose(s: State, t: State, u: State, tx: Tx, n: nat, m: nat)
    requires Steps(s, t, tx, n) && Steps(t, u, tx, m)
    ensures Steps(s, u, tx, m)
  {
  }

  lemma {:induction false} EventsKeep(c: Context, s: State, tx: Tx, n: nat)
    requires ValidTx(tx) && n <= |tx.events| && Ready(s, tx, 0)
    requires ReplayEvents(c, s, tx, n).Some?
    ensures Steps(s, ReplayEvents(c, s, tx, n).value.0, tx, n)
  {
    if n > 0 {
      EventsKeep(c, s, tx, n - 1);
      var before := ReplayEvents(c, s, tx, n - 1).value.0;
      var e := tx.events[n - 1];
      if Acts(e, c.contract) {
        EventKeeps(c, before, tx, n - 1, Get(e.attributes, "action"), Sender(tx.events), e.attributes);
      } else {
        ReadyLater(before, tx, n - 1);
      }
      StepsCompose(s, before, ReplayEvents(c, s, tx, n).value.0, tx, n - 1, n);
    }
  }

  lemma {:induction false} EventKeeps(c: Context, s: State, tx: Tx, n: nat, action: string, sender: string,
      a: Attributes)
    requires ValidTx(tx) && n < UINT32_LIMIT && Ready(s, tx, n)
    requires ApplyEvent(c, s, tx, n, action, sender, a).Some?
    ensures Steps(s, ApplyEvent(c, s, tx, n, action, sender, a).value, tx, n + 1)
  {
    var known := ActionOf(action).value;
    var t := Committed(c, s, tx, n, action, a);
    SideStep(s, t, tx, n);
    DispatchKeeps(c, t, tx, n, known, sender, a);
    StepsCompose(s, t, ApplyEvent(c, s, tx, n, action, sender, a).value, tx, n, n + 1);
  }

  // ------------------------------------------------------------- whole logs

  ghost predicate FromLog(s: State, txs: seq<Tx>, n: nat)
    requires n <= |txs|
  {
    (forall id :: id in s.repositories ==>
      exists m :: 0 <= m < n && s.repositories[id].createdTxHash == Lower(txs[m].hash)) &&
    (forall i :: 0 <= i < |s.moderation| ==>
      exists m :: 0 <= m < n && s.moderation[i].height == txs[m].height && s.moderation[i].txIndex == txs[m].index)
  }

  ghost predicate ValidLog(txs: seq<Tx>) {
    Sorted(txs, TxLess) && forall i :: 0 <= i < |txs| ==> ValidTx(txs[i])
  }

  lemma {:induction false} ReadyForNext(c: Context, s: State, txs: seq<Tx>, n: nat)
    requires ValidLog(txs) && n < |txs| && Admissible(c, txs, n) && Invariant(s) && FromLog(s, txs, n)
    ensures Ready(s, txs[n], 0)
  {
    var tx := txs[n];
    forall m | 0 <= m < n ensures Lower(txs[m].hash) != Lower(tx.hash) {
      if Lower(txs[m].hash) == Lower(tx.hash) { LowerInjective(txs[m].hash, tx.hash); }
    }
    forall i | 0 <= i < |s.moderation| ensures PrecedesEvent(s.moderation[i], tx, 0) {
      var m :| 0 <= m < n && s.moderation[i].height == txs[m].height && s.moderation[i].txIndex == txs[m].index;
      assert !TxLess(tx, txs[m]);
    }
  }

  lemma {:induction false} TxKeeps(c: Context, s: State, tx: Tx)
    requires ValidTx(tx) && Ready(s, tx, 0) && ReplayTx(c, s, tx).Some?
    ensures var t := ReplayTx(c, s, tx).value; Invariant(t) && Grows(s, t) && StampedBy(s, t, tx)
  {
    if tx.code == 0 {
      EventsKeep(c, s, tx, |tx.events|);
      var u := ReplayEvents(c, s, tx, |tx.events|).value.0;
      SideStep(u, ReplayTx(c, s, tx).value, tx, |tx.events|);
      StepsCompose(s, u, ReplayTx(c, s, tx).value, tx, |tx.events|, |tx.events|);
    } else {
      ReadyLater(s, tx, 0);
    }
  }

  /** Over every log the replayed maps stay mutually inverse, records complete and the trail ordered. */
  lemma {:induction false} LogKeepsInvariant(c: Context, txs: seq<Tx>, n: nat)
    requires ValidLog(txs) && n <= |txs| && ReplayTxs(c, txs, n).Some?
    ensures Invariant(ReplayTxs(c, txs, n).value) && FromLog(ReplayTxs(c, txs, n).value, txs, n)
  {
    if n > 0 {
      LogKeepsInvariant(c, txs, n - 1);
      var s := ReplayTxs(c, txs, n - 1).value;
      ReadyForNext(c, s, txs, n - 1);
      TxKeeps(c, s, txs[n - 1]);
      FromLogExtends(s, ReplayTxs(c, txs, n).value, txs, n);
    }
  }

  lemma {:induction false} FromLogExtends(s: State, t: State, txs: seq<Tx>, n: nat)
    requires 0 < n <= |txs| && FromLog(s, txs, n - 1) && StampedBy(s, t, txs[n - 1])
    ensures FromLog(t, txs, n)
  {
    forall id | id in t.repositories
      ensures exists m :: 0 <= m < n && t.repositories[id].createdTxHash == Lower(txs[m].hash)
    {
      if t.repositories[id].createdTxHash != Lower(txs[n - 1].hash) {
        var m :| 0 <= m < n - 1 && s.repositories[id].createdTxHash == Lower(txs[m].hash);
        assert t.repositories[id].createdTxHash == Lower(txs[m].hash);
      } else {
        var m := n - 1;
        assert 0 <= m < n && t.repositories[id].createdTxHash == Lower(txs[m].hash);
      }
    }
    forall i | 0 <= i < |t.moderation|
      ensures exists m ::
        0 <= m < n && t.moderation[i].height == txs[m].height && t.moderation[i].txIndex == txs[m].index
    {
      if i < |s.moderation| {
        var m :| 0 <= m < n - 1 && s.moderation[i].height == txs[m].height && s.moderation[i].txIndex == txs[m].index;
        assert t.moderation[i] == s.moderation[i] && t.moderation[i].height == txs[m].height;
      } else {
        var m := n - 1;
        assert 0 <= m < n && t.moderation[i].height == txs[m].height && t.moderation[i].txIndex == txs[m].index;
      }
    }
  }

  lemma {:induction false} GrowsTransitive(s: State, t: State, u: State)
    requires Grows(s, t) && Grows(t, u)
    ensures Grows(s, u)
  {
    forall id | id in s.repositories ensures id in u.repositories && Extends(s.repositories[id], u.repositories[id]) {
      assert Extends(s.repositories[id], t.repositories[id]) && Extends(t.repositories[id], u.repositories[id]);
    }
  }

  lemma {:induction false} TxLosesNothing(c: Context, txs: seq<Tx>, n: nat)
    requires ValidLog(txs) && n < |txs| && ReplayTxs(c, txs, n + 1).Some?
    ensures ReplayTxs(c, txs, n).Some? && Grows(ReplayTxs(c, txs, n).value, ReplayTxs(c, txs, n + 1).value)
  {
    LogKeepsInvariant(c, txs, n);
    ReadyForNext(c, ReplayTxs(c, txs, n).value, txs, n);
    TxKeeps(c, ReplayTxs(c, txs, n).value, txs[n]);
  }

  /** No alias, locator, report, badge, release or moderation entry is ever lost, and identities are never reused. */
  lemma {:induction false} LogLosesNothing(c: Context, txs: seq<Tx>, m: nat, n: nat)
    requires ValidLog(txs) && m <= n <= |txs| && ReplayTxs(c, txs, n).Some?
    ensures ReplayTxs(c, txs, m).Some? && Grows(ReplayTxs(c, txs, m).value, ReplayTxs(c, txs, n).value)
    decreases n
  {
    if m < n {
      TxLosesNothing(c, txs, n - 1);
      LogLosesNothing(c, txs, m, n - 1);
      GrowsTransitive(ReplayTxs(c, txs, m).value, ReplayTxs(c, txs, n - 1).value, ReplayTxs(c, txs, n).value);
    }
  }

  /** Read off the invariant: no locator in two repositories, no user with two names. */
  lemma {:induction false} NoSharing(c: Context, txs: seq<Tx>, n: nat)
    requires ValidLog(txs) && n <= |txs| && ReplayTxs(c, txs, n).Some?
    ensures var s := ReplayTxs(c, txs, n).value;
            forall x, y, i, j | x in s.repositories && y in s.repositories &&
              0 <= i < |s.repositories[x].aliases| && 0 <= j < |s.repositories[y].aliases| ::
              s.repositories[x].aliases[i] == s.repositories[y].aliases[j] ==> x == y && i == j
    ensures var s := ReplayTxs(c, txs, n).value;
            forall a, b ::
              a in s.usernameByName && b in s.usernameByName && s.usernameByName[a] == s.usernameByName[b] ==> a == b
  {
    LogKeepsInvariant(c, txs, n);
  }
}
