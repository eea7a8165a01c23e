/** Which logs the builder accepts, read off the events alone: every act must fit the acts before
    it. */
module LogAcceptance {
  import opened Order
  import opened Digits
  import opened Evidence
  import opened Replay
  import opened ReplayInvariants
  import opened EventLog
  import opened InventoryMeaning
  import opened OwnerHistory

  // ------------------------------------------------------------ what fits

  function DeedsOf(acts: seq<Act>): (r: seq<Deed>)
    ensures |r| == |acts|
  {
    seq(|acts|, i requires 0 <= i < |acts| => DeedOf(Attrs(acts[i])))
  }

  /** The creation that a locator goes back to, if it names a repository. */
  function RootOf(acts: seq<Act>, owner: string, name: string): Option<nat> {
    Root(DeedsOf(acts), owner + "/" + name)
  }

  predicate NewRepository(acts: seq<Act>, a: Act) {
    Attr(a, "owner") != "" && Attr(a, "repo") != "" && RootOf(acts, Attr(a, "owner"), Attr(a, "repo")).None?
  }

  /** The old locator names a repository, and the new one names none other. */
  predicate Transferable(acts: seq<Act>, a: Act) {
    var from := RootOf(acts, Attr(a, "old_owner"), Attr(a, "repo"));
    var to := RootOf(acts, Attr(a, "new_owner"), Attr(a, "repo"));
    from.Some? && (to.None? || to == from)
  }

  /** A moderation act is complete: its block is timed, somebody acts, a submission says where and
      why, a decision says what. */
  predicate Recordable(c: Context, a: Act) {
    && BlockTime(c, a.tx.height) != 0 && Actor(a) != ""
    && (Is(a, Submit) ==> Attr(a, "owner") != "" && Attr(a, "repo") != "" && Attr(a, "reason_hash") != "")
    && (Is(a, Resolve) || Is(a, ResolveAppeal) || Is(a, SetStatus) ==> Attr(a, "status") != "")
  }

  ghost predicate Admitted(c: Context, acts: seq<Act>, a: Act) {
    && a.does.Some?
    && match a.does.value
       case CreateRepo => NewRepository(acts, a)
       case ForkRepo => NewRepository(acts, a) && (Attr(a, "source_owner") != "" || Attr(a, "source_repo") != "")
       case Transfer => Transferable(acts, a)
       case Submit => Recordable(c, a) && Number(a).Some? && !Reported(acts, Number(a).value)
       case Resolve => Recordable(c, a) && Number(a).Some? && Reported(acts, Number(a).value)
       case Appeal => Recordable(c, a) && Number(a).Some? && Reported(acts, Number(a).value)
       case ResolveAppeal => Recordable(c, a) && Number(a).Some? && Reported(acts, Number(a).value)
       case SetStatus => Recordable(c, a)
       case Register => Attr(a, "name") != "" && Attr(a, "owner") != "" && Holder(acts, Attr(a, "name")).None? &&
                        forall name :: Holder(acts, name) != Some(Attr(a, "owner"))
       case Release => Holder(acts, Attr(a, "name")) == Some(Attr(a, "owner")) ||
                       (Attr(a, "name") == "" && Attr(a, "owner") == "")
       case AwardBadge => Attr(a, "recipient") != ""
       case RegisterRelease => Attr(a, "version") != ""
       case Inert => true
  }

  // ------------------------------------------------- the state against the acts

  ghost predicate Means(s: State, acts: seq<Act>) {
    ReportsMean(s, acts) && NamesMean(s, acts) && Tracks(s, DeedsOf(acts))
  }

  lemma {:induction false} DeedsNext(acts: seq<Act>, a: Act)
    ensures DeedsOf(acts + [a]) == DeedsOf(acts) + [DeedOf(Attrs(a))]
  {
  }

  lemma {:induction false} MeansStep(c: Context, s: State, acts: seq<Act>, a: Act)
    requires Means(s, acts) && CanFollow(s, a) && ApplyAct(c, s, a).Some?
    ensures Means(ApplyAct(c, s, a).value, acts + [a])
  {
    ReportsStep(c, s, acts, a);
    NamesStep(c, s, acts, a);
    DeedsNext(acts, a);
    EventTracks(c, s, a.tx, a.event, SenderOf(a), Attrs(a), DeedsOf(acts));
  }

  ghost function Meaning(): (State, seq<Act>) -> bool { (s: State, acts: seq<Act>) => Means(s, acts) }

  lemma {:induction false} MeaningInductive(c: Context)
    ensures Inductive(c, Meaning())
  {
    var holds := Meaning();
    forall s, acts, a | holds(s, acts) && CanFollow(s, a) && ApplyAct(c, s, a).Some?
      ensures holds(ApplyAct(c, s, a).value, acts + [a])
    {
      MeansStep(c, s, acts, a);
    }
    forall s, acts, k | holds(s, acts) ensures holds(s.(successfulTxs := k), acts) {
      OtherTracks(s, s.(successfulTxs := k), DeedsOf(acts));
    }
    assert DeedsOf([]) == [];
    assert holds(Initial(), []);
  }

  // ------------------------------------------------------------ one act

  lemma {:induction false} RepositoryFits(s: State, acts: seq<Act>, owner: string, name: string)
    requires Tracks(s, DeedsOf(acts))
    ensures Locator(owner, name) in s.locators <==> RootOf(acts, owner, name).Some?
  {
  }

  lemma {:induction false} CreateIff(s: State, acts: seq<Act>, a: Act, source: Option<string>)
    requires Tracks(s, DeedsOf(acts))
    ensures CreateRepository(s, a.tx, a.event, Attr(a, "owner"), Attr(a, "repo"), source).Some? <==>
      NewRepository(acts, a) && source != Some("/")
  {
    RepositoryFits(s, acts, Attr(a, "owner"), Attr(a, "repo"));
  }

  lemma {:induction false} ForkSourceGiven(owner: string, name: string)
    ensures owner + "/" + name == "/" <==> owner == "" && name == ""
  {
    assert |owner + "/" + name| == |owner| + 1 + |name|;
  }

  lemma {:induction false} TransferIff(s: State, acts: seq<Act>, a: Act)
    requires Tracks(s, DeedsOf(acts))
    ensures TransferOwnership(s, Attr(a, "old_owner"), Attr(a, "new_owner"), Attr(a, "repo")).Some? <==>
      Transferable(acts, a)
  {
    RepositoryFits(s, acts, Attr(a, "old_owner"), Attr(a, "repo"));
    RepositoryFits(s, acts, Attr(a, "new_owner"), Attr(a, "repo"));
  }

  lemma {:induction false} RecordIff(c: Context, s: State, a: Act, id: nat)
    requires Moderates(a)
    ensures AddModeration(c, s, a.tx, a.event, EntryOf(a.does.value, SenderOf(a), Attrs(a)).(reportId := id)).Some? <==>
      Recordable(c, a)
  {
  }

  lemma {:induction false} ModerationIff(c: Context, s: State, acts: seq<Act>, a: Act)
    requires ReportsMean(s, acts) && Moderates(a)
    ensures Dispatch(c, s, a.tx, a.event, a.does.value, SenderOf(a), Attrs(a)).Some? <==> Admitted(c, acts, a)
  {
    NumberIs(a);
    if Is(a, SetStatus) {
      RecordIff(c, s, a, 0);
      var entry := EntryOf(SetStatus, SenderOf(a), Attrs(a));
      assert entry.(reportId := 0) == entry;
    } else if Number(a).Some? {
      var id := Number(a).value;
      RecordIff(c, s, a, id);
      RecordIff(c, s.(reports := s.reports + {id}), a, id);
    }
  }

  lemma {:induction false} RegisterIff(s: State, acts: seq<Act>, a: Act)
    requires NamesMean(s, acts) && UsernamesInverse(s)
    ensures RegisterUsername(s, Attr(a, "name"), Attr(a, "owner")).Some? <==>
      Attr(a, "name") != "" && Attr(a, "owner") != "" && Holder(acts, Attr(a, "name")).None? &&
      forall name :: Holder(acts, name) != Some(Attr(a, "owner"))
  {
    var name, owner := Attr(a, "name"), Attr(a, "owner");
    if owner in s.usernameByUser { assert Holder(acts, s.usernameByUser[owner]) == Some(owner); }
    forall other | Holder(acts, other) == Some(owner) ensures owner in s.usernameByUser {
      assert other in s.usernameByName && s.usernameByName[other] == owner;
    }
  }

  lemma {:induction false} ReleaseIff(s: State, acts: seq<Act>, a: Act)
    requires NamesMean(s, acts) && UsernamesInverse(s)
    ensures ReleaseUsername(s, Attr(a, "name"), Attr(a, "owner")).Some? <==>
      Holder(acts, Attr(a, "name")) == Some(Attr(a, "owner")) || (Attr(a, "name") == "" && Attr(a, "owner") == "")
  {
    var name, owner := Attr(a, "name"), Attr(a, "owner");
    assert if name in s.usernameByName then Holder(acts, name) == Some(s.usernameByName[name])
           else Holder(acts, name).None?;
  }

  lemma {:induction false} RepositoryIff(c: Context, s: State, acts: seq<Act>, a: Act)
    requires Tracks(s, DeedsOf(acts)) && (Creates(a) || Is(a, Transfer))
    ensures Dispatch(c, s, a.tx, a.event, a.does.value, SenderOf(a), Attrs(a)).Some? <==> Admitted(c, acts, a)
  {
    if Is(a, CreateRepo) {
      CreateIff(s, acts, a, None);
    } else if Is(a, ForkRepo) {
      CreateIff(s, acts, a, Some(ForkSource(Attrs(a))));
      ForkSourceGiven(Attr(a, "source_owner"), Attr(a, "source_repo"));
    } else {
      TransferIff(s, acts, a);
    }
  }

  lemma {:induction false} UsernameIff(c: Context, s: State, acts: seq<Act>, a: Act)
    requires NamesMean(s, acts) && UsernamesInverse(s) && (Is(a, Register) || Is(a, Release))
    ensures Dispatch(c, s, a.tx, a.event, a.does.value, SenderOf(a), Attrs(a)).Some? <==> Admitted(c, acts, a)
  {
    if Is(a, Register) {
      RegisterIff(s, acts, a);
    } else {
      ReleaseIff(s, acts, a);
    }
  }

  lemma {:induction false} RestIff(c: Context, s: State, acts: seq<Act>, a: Act)
    requires a.does.Some? && !Moderates(a) && !Creates(a) && !Is(a, Transfer) && !Is(a, Register) && !Is(a, Release)
    ensures Dispatch(c, s, a.tx, a.event, a.does.value, SenderOf(a), Attrs(a)).Some? <==> Admitted(c, acts, a)
  {
  }

  /** An act is applied if and only if it fits the acts before it. */
  lemma {:induction false} AdmittedIff(c: Context, s: State, acts: seq<Act>, a: Act)
    requires Means(s, acts) && UsernamesInverse(s)
    ensures ApplyAct(c, s, a).Some? <==> Admitted(c, acts, a)
  {
    var base := Base(c, s, a);
    OtherTracks(s, base, DeedsOf(acts));
    assert ReportsMean(base, acts) && NamesMean(base, acts) && UsernamesInverse(base);
    if a.does.Some? {
      if Moderates(a) {
        ModerationIff(c, base, acts, a);
      } else if Creates(a) || Is(a, Transfer) {
        RepositoryIff(c, base, acts, a);
      } else if Is(a, Register) || Is(a, Release) {
        UsernameIff(c, base, acts, a);
      } else {
        RestIff(c, base, acts, a);
      }
    }
  }

  // ------------------------------------------------------------ whole logs

  /** Every act fits the ones before it. */
  ghost predicate AllAdmitted(c: Context, acts: seq<Act>) {
    acts == [] || (AllAdmitted(c, acts[..|acts| - 1]) && Admitted(c, acts[..|acts| - 1], acts[|acts| - 1]))
  }

  lemma {:induction false} AllNext(c: Context, acts: seq<Act>, a: Act)
    ensures AllAdmitted(c, acts + [a]) <==> AllAdmitted(c, acts) && Admitted(c, acts, a)
  {
    assert (acts + [a])[..|acts|] == acts;
  }

  lemma {:induction false} EventIff(c: Context, s: State, acts: seq<Act>, tx: Tx, n: nat)
    requires Means(s, acts) && ValidTx(tx) && Ready(s, tx, 0) && 0 < n <= |tx.events|
    requires ReplayEvents(c, s, tx, n - 1).Some? <==> AllAdmitted(c, acts + EventActs(c.contract, tx, n - 1))
    ensures ReplayEvents(c, s, tx, n).Some? <==> AllAdmitted(c, acts + EventActs(c.contract, tx, n))
  {
    NextActs(c.contract, tx, n, acts);
    if Acts(tx.events[n - 1], c.contract) {
      AllNext(c, acts + EventActs(c.contract, tx, n - 1), ActAt(tx, n - 1));
      if ReplayEvents(c, s, tx, n - 1).Some? { NextIff(c, s, acts, tx, n); }
    }
  }

  lemma {:induction false} EventsIff(c: Context, s: State, acts: seq<Act>, tx: Tx, n: nat)
    requires Means(s, acts) && AllAdmitted(c, acts) && ValidTx(tx) && Ready(s, tx, 0) && n <= |tx.events|
    ensures ReplayEvents(c, s, tx, n).Some? <==> AllAdmitted(c, acts + EventActs(c.contract, tx, n))
  {
    if n == 0 {
      assert acts + [] == acts;
    } else {
      EventsIff(c, s, acts, tx, n - 1);
      EventIff(c, s, acts, tx, n);
    }
  }

  /** Replay notes whether anything acted. */
  lemma {:induction false} NotesActs(c: Context, s: State, tx: Tx, n: nat)
    requires n <= |tx.events| && ReplayEvents(c, s, tx, n).Some?
    ensures ReplayEvents(c, s, tx, n).value.1 <==> EventActs(c.contract, tx, n) != []
  {
    if n > 0 { NotesActs(c, s, tx, n - 1); }
  }

  lemma {:induction false} NextIff(c: Context, s: State, acts: seq<Act>, tx: Tx, n: nat)
    requires Means(s, acts) && ValidTx(tx) && Ready(s, tx, 0) && 0 < n <= |tx.events|
    requires ReplayEvents(c, s, tx, n - 1).Some? && Acts(tx.events[n - 1], c.contract)
    ensures ReplayEvents(c, s, tx, n).Some? <==>
      Admitted(c, acts + EventActs(c.contract, tx, n - 1), ActAt(tx, n - 1))
  {
    var before := ReplayEvents(c, s, tx, n - 1).value.0;
    MeansWithin(c, s, acts, tx, n - 1);
    ApplyIs(c, before, tx, n - 1);
    AdmittedIff(c, before, acts + EventActs(c.contract, tx, n - 1), ActAt(tx, n - 1));
  }

  lemma {:induction false} MeansWithin(c: Context, s: State, acts: seq<Act>, tx: Tx, n: nat)
    requires Means(s, acts) && ValidTx(tx) && Ready(s, tx, 0) && n <= |tx.events| && ReplayEvents(c, s, tx, n).Some?
    ensures Means(ReplayEvents(c, s, tx, n).value.0, acts + EventActs(c.contract, tx, n))
    ensures UsernamesInverse(ReplayEvents(c, s, tx, n).value.0)
  {
    MeaningInductive(c);
    EventInduction(c, Meaning(), s, acts, tx, n);
    EventsKeep(c, s, tx, n);
  }

  lemma {:induction false} AllPrefix(c: Context, acts: seq<Act>, more: seq<Act>)
    requires AllAdmitted(c, acts + more)
    ensures AllAdmitted(c, acts)
  {
    if more == [] {
      assert acts + more == acts;
    } else {
      assert (acts + more)[..|acts + more| - 1] == acts + more[..|more| - 1];
      AllPrefix(c, acts, more[..|more| - 1]);
    }
  }

  predicate ActsIfGood(c: Context, tx: Tx) { tx.code == 0 ==> EventActs(c.contract, tx, |tx.events|) != [] }

  /** The block evidence of this chain shows the transaction, not after the cutover. */
  predicate Shown(c: Context, tx: Tx) {
    && tx.height <= c.cutover && tx.height in c.evidence.blocks
    && c.evidence.blocks[tx.height].chainId == c.chainId
    && tx.index < |c.evidence.blocks[tx.height].txHashes| && c.evidence.blocks[tx.height].txHashes[tx.index] == tx.hash
  }

  /** Each transaction is where the evidence shows it, no two share their place or their hash, and
      a successful one acts. */
  ghost predicate Placed(c: Context, txs: seq<Tx>, n: nat)
    requires n <= |txs|
  {
    && (forall m :: 0 <= m < n ==> Shown(c, txs[m]) && ActsIfGood(c, txs[m]))
    && (forall i, j :: 0 <= i < j < n ==>
         txs[i].hash != txs[j].hash && (txs[i].height != txs[j].height || txs[i].index != txs[j].index))
  }

  /** The same, transaction by transaction, as the builder checks it. */
  ghost predicate AllPass(c: Context, txs: seq<Tx>, n: nat)
    requires n <= |txs|
  {
    n == 0 || (AllPass(c, txs, n - 1) && Admissible(c, txs, n - 1) && ActsIfGood(c, txs[n - 1]))
  }

  lemma {:induction false} PlacedIff(c: Context, txs: seq<Tx>, n: nat)
    requires n <= |txs|
    ensures Placed(c, txs, n) <==> AllPass(c, txs, n)
  {
    if n > 0 { PlacedIff(c, txs, n - 1); }
  }

  lemma {:induction false} EarlierAdmitted(c: Context, txs: seq<Tx>, n: nat)
    requires 0 < n <= |txs| && AllAdmitted(c, LogActs(c.contract, txs, n))
    ensures AllAdmitted(c, LogActs(c.contract, txs, n - 1))
  {
    var acts, tx := LogActs(c.contract, txs, n - 1), txs[n - 1];
    if tx.code == 0 {
      AllPrefix(c, acts, EventActs(c.contract, tx, |tx.events|));
    } else {
      assert acts + [] == acts;
    }
  }

  lemma {:induction false} PassesIff(c: Context, txs: seq<Tx>, n: nat)
    requires ValidLog(txs) && n <= |txs|
    ensures ReplayTxs(c, txs, n).Some? <==> AllPass(c, txs, n) && AllAdmitted(c, LogActs(c.contract, txs, n))
  {
    if n > 0 {
      PassesIff(c, txs, n - 1);
      if ReplayTxs(c, txs, n - 1).Some? && Admissible(c, txs, n - 1) {
        TxIff(c, txs, n);
      } else if AllAdmitted(c, LogActs(c.contract, txs, n)) {
        EarlierAdmitted(c, txs, n);
      }
    }
  }

  /** A sorted log replays if and only if its transactions are placed right and each act fits the
      acts before it. */
  lemma {:induction false} ReplaysIff(c: Context, txs: seq<Tx>, n: nat)
    requires ValidLog(txs) && n <= |txs|
    ensures ReplayTxs(c, txs, n).Some? <==> Placed(c, txs, n) && AllAdmitted(c, LogActs(c.contract, txs, n))
  {
    PassesIff(c, txs, n);
    PlacedIff(c, txs, n);
  }

  lemma {:induction false} MeansAt(c: Context, txs: seq<Tx>, n: nat)
    requires ValidLog(txs) && n < |txs| && ReplayTxs(c, txs, n).Some? && Admissible(c, txs, n)
    ensures var s := ReplayTxs(c, txs, n).value;
      Means(s, LogActs(c.contract, txs, n)) && Ready(s, txs[n], 0)
  {
    MeaningInductive(c);
    LogInduction(c, Meaning(), txs, n);
    LogKeepsInvariant(c, txs, n);
    ReadyForNext(c, ReplayTxs(c, txs, n).value, txs, n);
  }

  lemma {:induction false} GoodTxIff(c: Context, s: State, acts: seq<Act>, tx: Tx)
    requires Means(s, acts) && AllAdmitted(c, acts) && ValidTx(tx) && Ready(s, tx, 0) && tx.code == 0
    ensures ReplayTx(c, s, tx).Some? <==>
      ActsIfGood(c, tx) && AllAdmitted(c, acts + EventActs(c.contract, tx, |tx.events|))
  {
    EventsIff(c, s, acts, tx, |tx.events|);
    if ReplayEvents(c, s, tx, |tx.events|).Some? { NotesActs(c, s, tx, |tx.events|); }
  }

  lemma {:induction false} TxIff(c: Context, txs: seq<Tx>, n: nat)
    requires ValidLog(txs) && 0 < n <= |txs| && ReplayTxs(c, txs, n - 1).Some? && Admissible(c, txs, n - 1)
    requires AllAdmitted(c, LogActs(c.contract, txs, n - 1))
    ensures ReplayTxs(c, txs, n).Some? <==>
      ActsIfGood(c, txs[n - 1]) && AllAdmitted(c, LogActs(c.contract, txs, n))
  {
    var s, acts, tx := ReplayTxs(c, txs, n - 1).value, LogActs(c.contract, txs, n - 1), txs[n - 1];
    if tx.code == 0 {
      MeansAt(c, txs, n - 1);
      GoodTxIff(c, s, acts, tx);
    } else {
      assert acts + [] == acts;
    }
  }
}
