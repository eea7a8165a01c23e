/** The acting events of a log, and induction over them: what every step keeps, replay keeps. */
module EventLog {
  import opened Digits
  import opened Evidence
  import opened Replay
  import opened ReplayInvariants

  /** Event `event` of a transaction, and what it does. */
  datatype Act = Act(tx: Tx, event: nat, does: Option<Action>)

  function Attrs(a: Act): Attributes { if a.event < |a.tx.events| then a.tx.events[a.event].attributes else map[] }

  function Attr(a: Act, key: string): string { Get(Attrs(a), key) }

  function SenderOf(a: Act): string { Sender(a.tx.events) }

  predicate Sends(e: Event) { e.kind == "message" && Get(e.attributes, "sender") != "" }

  /** The sender is named by the first message event that names one. */
  lemma {:induction false} SenderIs(events: seq<Event>)
    ensures Sender(events) != "" <==> exists i :: 0 <= i < |events| && Sends(events[i])
    ensures forall i :: 0 <= i < |events| && Sends(events[i]) && (forall j :: 0 <= j < i ==> !Sends(events[j])) ==>
      Sender(events) == Get(events[i].attributes, "sender")
  {
    if events != [] && !Sends(events[0]) {
      SenderIs(events[1..]);
      if i :| 0 <= i < |events| && Sends(events[i]) { assert events[1..][i - 1] == events[i]; }
      forall i | 0 <= i < |events| && Sends(events[i]) && forall j :: 0 <= j < i ==> !Sends(events[j])
        ensures Sender(events) == Get(events[i].attributes, "sender")
      {
        assert events[1..][i - 1] == events[i];
        assert forall j :: 0 <= j < i - 1 ==> events[1..][j] == events[j + 1];
      }
    }
  }

  predicate Is(a: Act, action: Action) { a.does == Some(action) }

  function ActAt(tx: Tx, n: nat): Act
    requires n < |tx.events|
  {
    Act(tx, n, ActionOf(Get(tx.events[n].attributes, "action")))
  }

  /** The events that act: of the contract's kinds, addressed to it under the newer attribute or else
      the older one, and with an action. */
  lemma {:induction false} ActsIff(e: Event, contract: string)
    ensures Acts(e, contract) <==>
      && (e.kind == "wasm" || (|e.kind| >= 5 && e.kind[..5] == "wasm-")) && Get(e.attributes, "action") != ""
      && contract == if Get(e.attributes, "_contract_address") != "" then Get(e.attributes, "_contract_address")
                     else Get(e.attributes, "contract_address")
  {
  }

  /** The name under which the contract reports an action that replay acts on. */
  function NameOf(action: Action): string
    requires action != Inert
  {
    match action
    case CreateRepo => "create_repo"
    case ForkRepo => "fork_repo"
    case Transfer => "transfer_ownership"
    case Submit => "submit_moderation_report"
    case Resolve => "resolve_moderation_report"
    case Appeal => "appeal_moderation_report"
    case ResolveAppeal => "resolve_moderation_appeal"
    case SetStatus => "set_moderation_status"
    case Register => "register_username"
    case Release => "release_username"
    case AwardBadge => "award_badge"
    case RegisterRelease => "register_release"
  }

  lemma {:induction false} NamesAction(action: Action)
    requires action != Inert
    ensures ActionOf(NameOf(action)) == Some(action)
  {
  }

  /** An event stands for an action exactly when it bears its name. */
  lemma {:induction false} ActionNamed(name: string, action: Action)
    requires action != Inert
    ensures ActionOf(name) == Some(action) <==> name == NameOf(action)
  {
    NamesAction(action);
  }

  /** The act is read right. */
  predicate Proper(a: Act) { a.event < |a.tx.events| && a.does == ActionOf(Attr(a, "action")) }

  /** The commitment goes on over the act, and then it takes effect. */
  ghost function ApplyAct(c: Context, s: State, a: Act): Option<State> {
    if a.does.None? then None else
    Dispatch(c, Committed(c, s, a.tx, a.event, Attr(a, "action"), Attrs(a)), a.tx, a.event, a.does.value, SenderOf(a),
      Attrs(a))
  }

  lemma {:induction false} ApplyIs(c: Context, s: State, tx: Tx, n: nat)
    requires n < |tx.events|
    ensures var e := tx.events[n];
      Proper(ActAt(tx, n)) && ApplyAct(c, s, ActAt(tx, n)) ==
        ApplyEvent(c, s, tx, n, Get(e.attributes, "action"), Sender(tx.events), e.attributes)
  {
  }

  /** The acting ones among the first `n` events of a transaction. */
  function EventActs(contract: string, tx: Tx, n: nat): seq<Act>
    requires n <= |tx.events|
  {
    if n == 0 then [] else
    EventActs(contract, tx, n - 1) + if Acts(tx.events[n - 1], contract) then [ActAt(tx, n - 1)] else []
  }

  /** The acts of the first `n` transactions; failed ones have none. */
  function LogActs(contract: string, txs: seq<Tx>, n: nat): seq<Act>
    requires n <= |txs|
  {
    if n == 0 then [] else
    var tx := txs[n - 1];
    LogActs(contract, txs, n - 1) + if tx.code == 0 then EventActs(contract, tx, |tx.events|) else []
  }

  /** The act can come next: its transaction is valid and its identity and position are new. */
  ghost predicate CanFollow(s: State, a: Act) {
    ValidTx(a.tx) && Proper(a) && Ready(s, a.tx, a.event)
  }

  /** The relation holds of the start and is kept by every act and by counting transactions. */
  ghost predicate Inductive(c: Context, holds: (State, seq<Act>) -> bool) {
    && holds(Initial(), [])
    && (forall s, acts, a :: holds(s, acts) && CanFollow(s, a) && ApplyAct(c, s, a).Some? ==>
         holds(ApplyAct(c, s, a).value, acts + [a]))
    && (forall s, acts, k :: holds(s, acts) ==> holds(s.(successfulTxs := k), acts))
  }

  lemma {:induction false} NextActs(contract: string, tx: Tx, n: nat, acts: seq<Act>)
    requires 0 < n <= |tx.events|
    ensures acts + EventActs(contract, tx, n) ==
      if Acts(tx.events[n - 1], contract) then acts + EventActs(contract, tx, n - 1) + [ActAt(tx, n - 1)]
      else acts + EventActs(contract, tx, n - 1)
  {
  }

  lemma {:induction false} EventInduction(c: Context, holds: (State, seq<Act>) -> bool, s: State, acts: seq<Act>,
      tx: Tx, n: nat)
    requires Inductive(c, holds) && holds(s, acts) && n <= |tx.events| && ReplayEvents(c, s, tx, n).Some?
    requires ValidTx(tx) && Ready(s, tx, 0)
    ensures holds(ReplayEvents(c, s, tx, n).value.0, acts + EventActs(c.contract, tx, n))
  {
    if n == 0 {
      assert acts + [] == acts;
    } else {
      EventInduction(c, holds, s, acts, tx, n - 1);
      EventsKeep(c, s, tx, n - 1);
      NextActs(c.contract, tx, n, acts);
      var before := ReplayEvents(c, s, tx, n - 1).value.0;
      if Acts(tx.events[n - 1], c.contract) {
        ApplyIs(c, before, tx, n - 1);
        assert CanFollow(before, ActAt(tx, n - 1));
      }
    }
  }

  /** Such a relation holds between the replayed state and the acts of the log. */
  lemma {:induction false} LogInduction(c: Context, holds: (State, seq<Act>) -> bool, txs: seq<Tx>, n: nat)
    requires Inductive(c, holds) && ValidLog(txs) && n <= |txs| && ReplayTxs(c, txs, n).Some?
    ensures holds(ReplayTxs(c, txs, n).value, LogActs(c.contract, txs, n))
  {
    if n > 0 {
      LogInduction(c, holds, txs, n - 1);
      LogKeepsInvariant(c, txs, n - 1);
      var s, acts, tx := ReplayTxs(c, txs, n - 1).value, LogActs(c.contract, txs, n - 1), txs[n - 1];
      ReadyForNext(c, s, txs, n - 1);
      if tx.code == 0 {
        EventInduction(c, holds, s, acts, tx, |tx.events|);
      } else {
        assert acts + [] == acts;
      }
    }
  }

  lemma {:induction false} EventActsIn(contract: string, tx: Tx, n: nat)
    requires n <= |tx.events|
    ensures forall a :: a in EventActs(contract, tx, n) ==> a.tx == tx && a.event < n
  {
    if n > 0 { EventActsIn(contract, tx, n - 1); }
  }

  lemma {:induction false} EventActsProper(contract: string, tx: Tx, n: nat, i: nat)
    requires n <= |tx.events| && i < |EventActs(contract, tx, n)|
    ensures Proper(EventActs(contract, tx, n)[i])
  {
    if i < |EventActs(contract, tx, n - 1)| { EventActsProper(contract, tx, n - 1, i); }
  }

  /** Every act is read right. */
  lemma {:induction false} LogActsProper(contract: string, txs: seq<Tx>, n: nat, i: nat)
    requires n <= |txs| && i < |LogActs(contract, txs, n)|
    ensures Proper(LogActs(contract, txs, n)[i])
  {
    var before, tx := |LogActs(contract, txs, n - 1)|, txs[n - 1];
    if i < before {
      LogActsProper(contract, txs, n - 1, i);
    } else {
      EventActsProper(contract, tx, |tx.events|, i - before);
    }
  }

  /** Every act belongs to a transaction of the log. */
  lemma {:induction false} LogActsIn(contract: string, txs: seq<Tx>, n: nat)
    requires n <= |txs|
    ensures forall a :: a in LogActs(contract, txs, n) ==> a.tx in txs[..n]
  {
    if n > 0 {
      LogActsIn(contract, txs, n - 1);
      EventActsIn(contract, txs[n - 1], |txs[n - 1].events|);
      assert txs[..n] == txs[..n - 1] + [txs[n - 1]];
    }
  }
}
