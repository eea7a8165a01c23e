/** Pushing packs through a registry of refs, by clients that work from stale listings: when
    the listed packs together hold the full history of every listed tip. */
module PackCoverage {
  import opened Digits

  const MAX_PACK_URIS: nat := 128
  const MAX_REFS: nat := 1024

  datatype RefInfo = RefInfo(tip: string, uris: seq<string>)

  type Refs = map<string, RefInfo>

  /** A pack holds objects; those stored as deltas need their base objects, which a thin pack
      may leave out. */
  datatype PackFile = PackFile(objects: set<string>, bases: set<string>)

  /** The history of a commit, and the pack behind a content address. */
  datatype Git = Git(reach: string -> set<string>, stored: string -> PackFile)

  // ------------------------------------------------------------ the registry

  /** Appends the addresses that are not listed yet, up to the cap. */
  function AppendNew(list: seq<string>, uris: seq<string>): Option<seq<string>> {
    if uris == [] then Some(list) else
    var before :- AppendNew(list, uris[..|uris| - 1]);
    var uri := uris[|uris| - 1];
    if uri in before then Some(before) else if |before| >= MAX_PACK_URIS then None else Some(before + [uri])
  }

  /** `updateRef` of the registry contract; nothing is a revert. */
  function UpdateRef(refs: Refs, name: string, tip: string, uris: seq<string>, expected: string,
      force: bool): Option<Refs> {
    if uris == [] || |uris| > MAX_PACK_URIS then None
    else if !force && name in refs && refs[name].tip != expected then None
    else if name !in refs && |refs| >= MAX_REFS then None
    else if force || name !in refs || refs[name].uris == [] then Some(refs[name := RefInfo(tip, uris)])
    else
      var list :- AppendNew(refs[name].uris, uris);
      Some(refs[name := RefInfo(tip, list)])
  }

  function DeleteRef(refs: Refs, name: string): Option<Refs> { if name in refs then Some(refs - {name}) else None }

  // ------------------------------------------------------------ pushing

  function Tips(refs: Refs): set<string> { set name | name in refs :: refs[name].tip }

  /** `PackObjects`: the history of `tip` without that of the excluded commits present locally. */
  function Pack(g: Git, tip: string, exclude: set<string>, local: set<string>): set<string> {
    set o | o in g.reach(tip) && forall e :: e in exclude && e in local ==> o !in g.reach(e)
  }

  datatype Spec = Spec(dst: string, tip: string, force: bool)

  /** The incremental pack of a push that starts from the listing `cache`. */
  function Increment(g: Git, cache: Refs, spec: Spec, local: set<string>): set<string> {
    Pack(g, spec.tip, if spec.force then {} else Tips(cache), local)
  }

  /** An empty increment of a listed ref uploads nothing and keeps the listed addresses. */
  predicate KeepsList(g: Git, cache: Refs, spec: Spec, local: set<string>) {
    Increment(g, cache, spec, local) == {} && spec.dst in cache && cache[spec.dst].uris != []
  }

  /** What is uploaded otherwise: an empty increment of an unlisted ref becomes a full pack. */
  function Upload(g: Git, cache: Refs, spec: Spec, local: set<string>): set<string> {
    var pack := Increment(g, cache, spec, local);
    if pack == {} && spec.dst !in cache then g.reach(spec.tip) else pack
  }

  function ExpectedTip(cache: Refs, name: string): string { if name in cache then cache[name].tip else "" }

  /** The addresses the registry is told; `uri` is that of the uploaded pack. */
  function Sent(g: Git, cache: Refs, spec: Spec, local: set<string>, uri: string): seq<string> {
    if KeepsList(g, cache, spec, local) then cache[spec.dst].uris else [uri]
  }

  /** `pushOne` with a commit to push. */
  function Push(g: Git, refs: Refs, cache: Refs, spec: Spec, local: set<string>, uri: string): Option<Refs> {
    UpdateRef(refs, spec.dst, spec.tip, Sent(g, cache, spec, local, uri), ExpectedTip(cache, spec.dst), spec.force)
  }

  /** An unlisted ref without new objects gets its whole history. */
  predicate SendsAll(g: Git, cache: Refs, spec: Spec, local: set<string>) {
    spec.force || (Increment(g, cache, spec, local) == {} && spec.dst !in cache)
  }

  /** Objects git may delta against without packing them: the history of the excluded commits. */
  predicate MayBase(g: Git, cache: Refs, spec: Spec, local: set<string>, o: string) {
    !SendsAll(g, cache, spec, local) && exists e :: e in Tips(cache) && e in local && o in g.reach(e)
  }

  /** If a pack is uploaded, its address leads to it. */
  ghost predicate Stores(g: Git, cache: Refs, spec: Spec, local: set<string>, uri: string) {
    !KeepsList(g, cache, spec, local) ==>
      && g.stored(uri).objects == Upload(g, cache, spec, local)
      && forall o :: o in g.stored(uri).bases ==> MayBase(g, cache, spec, local, o)
  }

  // ------------------------------------------------------------ coverage

  ghost predicate Holds(g: Git, uris: seq<string>, o: string) {
    exists k :: 0 <= k < |uris| && o in g.stored(uris[k]).objects
  }

  ghost predicate Listed(g: Git, refs: Refs, o: string) { exists name :: name in refs && Holds(g, refs[name].uris, o) }

  /** Every object of the history of `tip` is in some listed pack. */
  ghost predicate Covers(g: Git, refs: Refs, tip: string) { forall o :: o in g.reach(tip) ==> Listed(g, refs, o) }

  ghost predicate CoversItself(g: Git, refs: Refs) { forall name :: name in refs ==> Covers(g, refs, refs[name].tip) }

  /** Everything a ref needs is in its own list. */
  ghost predicate Complete(g: Git, info: RefInfo) { forall o :: o in g.reach(info.tip) ==> Holds(g, info.uris, o) }

  /** Lists only grow. */
  ghost predicate Grows(refs: Refs, after: Refs) {
    forall name :: name in refs ==>
      name in after && forall k :: 0 <= k < |refs[name].uris| ==> refs[name].uris[k] in after[name].uris
  }

  /** Appending adds exactly the new addresses. */
  lemma {:induction false} AppendKeeps(list: seq<string>, uris: seq<string>)
    ensures var r := AppendNew(list, uris); r.Some? ==> forall u :: u in r.value <==> u in list || u in uris
  {
    if uris != [] {
      var n := |uris| - 1;
      AppendKeeps(list, uris[..n]);
      assert uris == uris[..n] + [uris[n]];
    }
  }

  /** The addresses among these that are not listed yet. */
  function Unlisted(list: seq<string>, uris: seq<string>): set<string> { set u | u in uris && u !in list }

  /** Appending fails exactly when more addresses are new than there is room for. */
  lemma {:induction false} AppendIff(list: seq<string>, uris: seq<string>)
    ensures AppendNew(list, uris).Some? <==>
      Unlisted(list, uris) == {} || |list| + |Unlisted(list, uris)| <= 128
    ensures AppendNew(list, uris).Some? ==> |AppendNew(list, uris).value| == |list| + |Unlisted(list, uris)|
  {
    if uris == [] {
      assert Unlisted(list, uris) == {};
    } else {
      var n := |uris| - 1;
      var front, u := uris[..n], uris[n];
      AppendIff(list, front);
      AppendKeeps(list, front);
      assert uris == front + [u];
      if u in list || u in front {
        assert Unlisted(list, uris) == Unlisted(list, front);
      } else {
        assert Unlisted(list, uris) == Unlisted(list, front) + {u};
      }
    }
  }

  function ListOf(refs: Refs, name: string): seq<string> { if name in refs then refs[name].uris else [] }

  /** When the registry takes an update: not too many addresses, the expected tip or force, and room
      for the ref and for its new addresses. */
  lemma {:induction false} UpdateIff(refs: Refs, name: string, tip: string, uris: seq<string>, expected: string,
      force: bool)
    ensures UpdateRef(refs, name, tip, uris, expected, force).Some? <==>
      && 1 <= |uris| <= 128
      && (if name in refs then force || refs[name].tip == expected else |refs| < 1024)
      && (force || ListOf(refs, name) == [] || Unlisted(ListOf(refs, name), uris) == {} ||
          |ListOf(refs, name)| + |Unlisted(ListOf(refs, name), uris)| <= 128)
  {
    AppendIff(ListOf(refs, name), uris);
  }

  /** The registry keeps within its limits. */
  ghost predicate Bounded(refs: Refs) { |refs| <= 1024 && forall name :: name in refs ==> |refs[name].uris| <= 128 }

  lemma {:induction false} UpdateBounded(refs: Refs, name: string, tip: string, uris: seq<string>, expected: string,
      force: bool)
    requires Bounded(refs) && UpdateRef(refs, name, tip, uris, expected, force).Some?
    ensures Bounded(UpdateRef(refs, name, tip, uris, expected, force).value)
  {
    AppendIff(ListOf(refs, name), uris);
    PutBounded(refs, name, UpdateRef(refs, name, tip, uris, expected, force).value[name]);
  }

  lemma {:induction false} PutBounded(refs: Refs, name: string, info: RefInfo)
    requires Bounded(refs) && |info.uris| <= 128 && (name in refs || |refs| < 1024)
    ensures Bounded(refs[name := info])
  {
    var after := refs[name := info];
    assert after.Keys == refs.Keys + {name} && |after| == |after.Keys| && |refs| == |refs.Keys|;
    if name in refs { assert after.Keys == refs.Keys; }
  }

  /** An unforced update adds the sent addresses to the list of its ref, sets its tip, and
      touches no other ref. */
  lemma {:induction false} UpdateGrows(refs: Refs, name: string, tip: string, uris: seq<string>, expected: string)
    ensures var r := UpdateRef(refs, name, tip, uris, expected, false); r.Some? ==>
      && Grows(refs, r.value) && r.value == refs[name := RefInfo(tip, ListOf(r.value, name))]
      && forall u :: u in ListOf(r.value, name) <==> u in ListOf(refs, name) || u in uris
  {
    var r := UpdateRef(refs, name, tip, uris, expected, false);
    if name in refs { AppendKeeps(refs[name].uris, uris); }
    if r.Some? {
      forall other | other in refs
        ensures other in r.value
        ensures forall k :: 0 <= k < |refs[other].uris| ==> refs[other].uris[k] in r.value[other].uris
      {
        assert other != name ==> r.value[other] == refs[other];
        assert forall k :: 0 <= k < |refs[other].uris| ==> refs[other].uris[k] in refs[other].uris;
      }
    }
  }

  lemma {:induction false} HoldsIn(g: Git, list: seq<string>, a: seq<string>, b: seq<string>, o: string)
    requires forall u :: u in list <==> u in a || u in b
    ensures Holds(g, list, o) <==> Holds(g, a, o) || Holds(g, b, o)
  {
    if Holds(g, list, o) {
      var k :| 0 <= k < |list| && o in g.stored(list[k]).objects;
      assert list[k] in a || list[k] in b;
    }
    if Holds(g, a, o) {
      var k :| 0 <= k < |a| && o in g.stored(a[k]).objects;
      assert a[k] in list;
    }
    if Holds(g, b, o) {
      var k :| 0 <= k < |b| && o in g.stored(b[k]).objects;
      assert b[k] in list;
    }
  }

  /** What an accepted unforced push makes its ref hold, and the registry list. */
  lemma {:induction false} PushHolds(g: Git, refs: Refs, cache: Refs, spec: Spec, local: set<string>, uri: string,
      o: string)
    requires !spec.force && Push(g, refs, cache, spec, local, uri).Some?
    ensures var after, sent := Push(g, refs, cache, spec, local, uri).value, Sent(g, cache, spec, local, uri);
      && Grows(refs, after) && after == refs[spec.dst := RefInfo(spec.tip, ListOf(after, spec.dst))]
      && (Holds(g, after[spec.dst].uris, o) <==> Holds(g, ListOf(refs, spec.dst), o) || Holds(g, sent, o))
      && (Listed(g, after, o) <==> Listed(g, refs, o) || Holds(g, sent, o))
  {
    var after, sent := Push(g, refs, cache, spec, local, uri).value, Sent(g, cache, spec, local, uri);
    UpdateGrows(refs, spec.dst, spec.tip, sent, ExpectedTip(cache, spec.dst));
    HoldsIn(g, after[spec.dst].uris, ListOf(refs, spec.dst), sent, o);
    ListedInstead(g, refs, spec.dst, after[spec.dst], o);
    if Holds(g, ListOf(refs, spec.dst), o) { assert spec.dst in refs && Holds(g, refs[spec.dst].uris, o); }
  }

  /** Some other ref lists the object. */
  ghost predicate ListedElsewhere(g: Git, refs: Refs, name: string, o: string) {
    exists other :: other in refs && other != name && Holds(g, refs[other].uris, o)
  }

  lemma {:induction false} ListedInstead(g: Git, refs: Refs, name: string, info: RefInfo, o: string)
    ensures Listed(g, refs[name := info], o) <==> Holds(g, info.uris, o) || ListedElsewhere(g, refs, name, o)
    ensures Listed(g, refs - {name}, o) <==> ListedElsewhere(g, refs, name, o)
    ensures Listed(g, refs, o) <==> Holds(g, ListOf(refs, name), o) || ListedElsewhere(g, refs, name, o)
  {
    var after, left := refs[name := info], refs - {name};
    if Listed(g, after, o) {
      var n :| n in after && Holds(g, after[n].uris, o);
      assert n != name ==> n in refs && refs[n] == after[n];
    }
    if Holds(g, info.uris, o) { assert Holds(g, after[name].uris, o); }
    if ListedElsewhere(g, refs, name, o) {
      var n :| n in refs && n != name && Holds(g, refs[n].uris, o);
      assert after[n] == refs[n] && left[n] == refs[n];
    }
    if Listed(g, left, o) {
      var n :| n in left && Holds(g, left[n].uris, o);
      assert n in refs && n != name && refs[n] == left[n];
    }
    if Holds(g, ListOf(refs, name), o) { assert name in refs && Holds(g, refs[name].uris, o); }
  }

  // ------------------------------------- exactly what an unforced push leaves

  /** What the push takes for granted: objects of the history that it does not pack. */
  predicate LeftOut(g: Git, cache: Refs, spec: Spec, local: set<string>, o: string) {
    o in g.reach(spec.tip) && o !in Increment(g, cache, spec, local)
  }

  lemma {:induction false} OneHolds(g: Git, uri: string, o: string)
    ensures Holds(g, [uri], o) <==> o in g.stored(uri).objects
  {
    if o in g.stored(uri).objects { assert o in g.stored([uri][0]).objects; }
  }

  lemma {:induction false} SentHolds(g: Git, cache: Refs, spec: Spec, local: set<string>, uri: string, o: string)
    requires !spec.force && Stores(g, cache, spec, local, uri) && o in g.reach(spec.tip)
    ensures SendsAll(g, cache, spec, local) || !LeftOut(g, cache, spec, local, o) ==>
      Holds(g, Sent(g, cache, spec, local, uri), o)
    ensures !SendsAll(g, cache, spec, local) && LeftOut(g, cache, spec, local, o) ==>
      (Holds(g, Sent(g, cache, spec, local, uri), o) <==>
       KeepsList(g, cache, spec, local) && Holds(g, ListOf(cache, spec.dst), o))
  {
    OneHolds(g, uri, o);
  }

  /** An accepted unforced push leaves its tip covered if and only if it sent the whole history,
      or everything it left out is listed, or in the list it sent again. */
  lemma {:induction false} PushCoversIff(g: Git, refs: Refs, cache: Refs, spec: Spec, local: set<string>, uri: string)
    requires !spec.force && Push(g, refs, cache, spec, local, uri).Some? && Stores(g, cache, spec, local, uri)
    ensures Covers(g, Push(g, refs, cache, spec, local, uri).value, spec.tip) <==>
      SendsAll(g, cache, spec, local) ||
      forall o :: LeftOut(g, cache, spec, local, o) ==>
        Listed(g, refs, o) || (KeepsList(g, cache, spec, local) && Holds(g, ListOf(cache, spec.dst), o))
  {
    forall o | o in g.reach(spec.tip)
      ensures Listed(g, Push(g, refs, cache, spec, local, uri).value, o) <==>
        SendsAll(g, cache, spec, local) || !LeftOut(g, cache, spec, local, o) || Listed(g, refs, o) ||
        (KeepsList(g, cache, spec, local) && Holds(g, ListOf(cache, spec.dst), o))
    {
      PushHolds(g, refs, cache, spec, local, uri, o);
      SentHolds(g, cache, spec, local, uri, o);
    }
  }

  /** It leaves its ref complete if and only if it sent the whole history, or everything it left
      out is in the ref's own list, or in the list it sent again. */
  lemma {:induction false} PushCompleteIff(g: Git, refs: Refs, cache: Refs, spec: Spec, local: set<string>, uri: string)
    requires !spec.force && Push(g, refs, cache, spec, local, uri).Some? && Stores(g, cache, spec, local, uri)
    ensures Complete(g, Push(g, refs, cache, spec, local, uri).value[spec.dst]) <==>
      SendsAll(g, cache, spec, local) ||
      forall o :: LeftOut(g, cache, spec, local, o) ==>
        Holds(g, ListOf(refs, spec.dst), o) ||
        (KeepsList(g, cache, spec, local) && Holds(g, ListOf(cache, spec.dst), o))
  {
    forall o | o in g.reach(spec.tip)
      ensures Holds(g, Push(g, refs, cache, spec, local, uri).value[spec.dst].uris, o) <==>
        SendsAll(g, cache, spec, local) || !LeftOut(g, cache, spec, local, o) || Holds(g, ListOf(refs, spec.dst), o) ||
        (KeepsList(g, cache, spec, local) && Holds(g, ListOf(cache, spec.dst), o))
    {
      PushHolds(g, refs, cache, spec, local, uri, o);
      SentHolds(g, cache, spec, local, uri, o);
    }
  }

  /** A new ref is complete if and only if it brings no new objects, or shares no history with
      any listed commit that is present locally. */
  lemma {:induction false} CreationCompleteIff(g: Git, refs: Refs, cache: Refs, spec: Spec, local: set<string>,
      uri: string)
    requires !spec.force && Push(g, refs, cache, spec, local, uri).Some? && Stores(g, cache, spec, local, uri)
    requires spec.dst !in refs && spec.dst !in cache
    ensures Complete(g, Push(g, refs, cache, spec, local, uri).value[spec.dst]) <==>
      Increment(g, cache, spec, local) == {} ||
      forall e :: e in Tips(cache) && e in local ==> g.reach(e) !! g.reach(spec.tip)
  {
    PushCompleteIff(g, refs, cache, spec, local, uri);
    assert forall o :: !Holds(g, ListOf(refs, spec.dst), o);
    if e :| e in Tips(cache) && e in local && !(g.reach(e) !! g.reach(spec.tip)) {
      var o :| o in g.reach(e) && o in g.reach(spec.tip);
      assert LeftOut(g, cache, spec, local, o);
    }
  }

  /** A forced push leaves a ref that is complete from its own list. */
  lemma {:induction false} ForceIsComplete(g: Git, refs: Refs, cache: Refs, spec: Spec, local: set<string>, uri: string)
    requires spec.force && spec.tip in g.reach(spec.tip) && Stores(g, cache, spec, local, uri)
    requires Push(g, refs, cache, spec, local, uri).Some?
    ensures Push(g, refs, cache, spec, local, uri).value == refs[spec.dst := RefInfo(spec.tip, [uri])]
    ensures g.stored(uri) == PackFile(g.reach(spec.tip), {})
    ensures Complete(g, RefInfo(spec.tip, [uri]))
  {
    assert Increment(g, cache, spec, local) == g.reach(spec.tip);
    forall o | o in g.reach(spec.tip) ensures Holds(g, [uri], o) { OneHolds(g, uri, o); }
    assert g.stored(uri).bases == {};
  }

  /** A complete ref stays so while others are pushed to or deleted. */
  lemma {:induction false} CompleteStays(g: Git, refs: Refs, cache: Refs, spec: Spec, local: set<string>, uri: string,
      name: string)
    requires name in refs && name != spec.dst && Complete(g, refs[name])
    ensures var r := Push(g, refs, cache, spec, local, uri); r.Some? ==> name in r.value && Complete(g, r.value[name])
    ensures var d := DeleteRef(refs, spec.dst); d.Some? ==> name in d.value && Complete(g, d.value[name])
  {
  }

  // ------------------------------------------------------------ runs

  /** The registry, what each client last listed, and the packs that pushes have added, in order. */
  datatype System = System(refs: Refs, caches: map<nat, Refs>, uploads: seq<string>)

  datatype Event =
    | ListRefs(client: nat)
    | PushRef(client: nat, spec: Spec, local: set<string>, uri: string)
    | Delete(name: string)

  function Empty(): System { System(map[], map[], []) }

  function CacheOf(sys: System, client: nat): Refs { if client in sys.caches then sys.caches[client] else map[] }

  function AfterPush(g: Git, sys: System, cache: Refs, spec: Spec, local: set<string>, uri: string): System {
    var r := Push(g, sys.refs, cache, spec, local, uri);
    if r.None? then sys
    else sys.(refs := r.value, uploads := sys.uploads + if KeepsList(g, cache, spec, local) then [] else [uri])
  }

  function Next(g: Git, sys: System, e: Event): System {
    match e
    case ListRefs(client) => sys.(caches := sys.caches[client := sys.refs])
    case PushRef(client, spec, local, uri) => AfterPush(g, sys, CacheOf(sys, client), spec, local, uri)
    case Delete(name) => if DeleteRef(sys.refs, name).Some? then sys.(refs := DeleteRef(sys.refs, name).value) else sys
  }

  function Run(g: Git, sys: System, events: seq<Event>): System {
    if events == [] then sys else Next(g, Run(g, sys, events[..|events| - 1]), events[|events| - 1])
  }

  /** What is pushed is a commit of its own history, and its pack is stored under its address. */
  ghost predicate Possible(g: Git, sys: System, e: Event) {
    e.PushRef? ==> e.spec.tip in g.reach(e.spec.tip) && Stores(g, CacheOf(sys, e.client), e.spec, e.local, e.uri)
  }

  // ----------------------------------- exactly what keeps the registry sound

  /** Somebody relies on the object: a ref other than `name`, or a ref in some client's listing. */
  ghost predicate Needs(g: Git, sys: System, name: string, o: string) {
    || (exists other :: other in sys.refs && other != name && o in g.reach(sys.refs[other].tip))
    || (exists client: nat, listed :: listed in CacheOf(sys, client) && o in g.reach(CacheOf(sys, client)[listed].tip))
  }

  /** The object would be listed nowhere once the list of `name` is replaced by packs that
      hold `kept`. */
  ghost predicate Loses(g: Git, refs: Refs, name: string, kept: set<string>, o: string) {
    Holds(g, ListOf(refs, name), o) && !ListedElsewhere(g, refs, name, o) && o !in kept
  }

  /** The condition on deletions and forced pushes: what only the old list holds is needed by
      nobody, neither in the registry nor in a listing. */
  ghost predicate Careful(g: Git, sys: System, e: Event) {
    match e
    case ListRefs(_) => true
    case PushRef(client, spec, local, uri) =>
      spec.force && Push(g, sys.refs, CacheOf(sys, client), spec, local, uri).Some? ==>
        forall o :: Loses(g, sys.refs, spec.dst, g.reach(spec.tip), o) ==> !Needs(g, sys, spec.dst, o)
    case Delete(name) => forall o :: Loses(g, sys.refs, name, {}, o) ==> !Needs(g, sys, name, o)
  }

  ghost predicate CarefulRun(g: Git, events: seq<Event>) {
    events == [] ||
    var n := |events| - 1;
    var before := Run(g, Empty(), events[..n]);
    CarefulRun(g, events[..n]) && Possible(g, before, events[n]) && Careful(g, before, events[n])
  }

  /** A listing is covered by the packs it lists itself, and by those listed now. */
  ghost predicate CacheSound(g: Git, refs: Refs, cache: Refs) {
    CoversItself(g, cache) && forall name :: name in cache ==> Covers(g, refs, cache[name].tip)
  }

  ghost predicate Sound(g: Git, sys: System) {
    CoversItself(g, sys.refs) && forall client :: CacheSound(g, sys.refs, CacheOf(sys, client))
  }

  lemma {:induction false} ListKeeps(g: Git, sys: System, client: nat)
    requires Sound(g, sys)
    ensures Sound(g, Next(g, sys, ListRefs(client)))
  {
    forall c ensures CacheSound(g, sys.refs, CacheOf(Next(g, sys, ListRefs(client)), c)) {
      assert CacheSound(g, sys.refs, CacheOf(sys, c));
    }
  }

  /** More is listed, so what was covered still is. */
  lemma {:induction false} MoreListed(g: Git, sys: System, after: System)
    requires Sound(g, sys) && after.caches == sys.caches
    requires forall o :: Listed(g, sys.refs, o) ==> Listed(g, after.refs, o)
    requires CoversItself(g, after.refs)
    ensures Sound(g, after)
  {
    forall client ensures CacheSound(g, after.refs, CacheOf(after, client)) {
      assert CacheSound(g, sys.refs, CacheOf(sys, client));
      assert CacheOf(after, client) == CacheOf(sys, client);
    }
  }

  lemma {:induction false} PushKeeps(g: Git, sys: System, cache: Refs, spec: Spec, local: set<string>, uri: string)
    requires Sound(g, sys) && !spec.force && Stores(g, cache, spec, local, uri)
    requires forall name :: name in cache ==> Covers(g, sys.refs, cache[name].tip)
    ensures Sound(g, AfterPush(g, sys, cache, spec, local, uri))
  {
    var r := Push(g, sys.refs, cache, spec, local, uri);
    if r.Some? {
      forall o
        ensures Listed(g, sys.refs, o) ==> Listed(g, r.value, o)
      {
        PushHolds(g, sys.refs, cache, spec, local, uri, o);
      }
      forall o | LeftOut(g, cache, spec, local, o) ensures Listed(g, sys.refs, o) {
        var e :| e in Tips(cache) && e in local && o in g.reach(e);
        var name :| name in cache && cache[name].tip == e;
      }
      PushCoversIff(g, sys.refs, cache, spec, local, uri);
      PushHolds(g, sys.refs, cache, spec, local, uri, "");
      forall name | name in r.value ensures Covers(g, r.value, r.value[name].tip) {
        assert name != spec.dst ==> r.value[name] == sys.refs[name];
      }
      MoreListed(g, sys, AfterPush(g, sys, cache, spec, local, uri));
    }
  }

  /** The list of one ref is gone, or replaced by a complete one that holds `kept`. */
  ghost predicate Replaces(g: Git, refs: Refs, name: string, kept: set<string>, after: Refs) {
    || (kept == {} && after == refs - {name})
    || (name in after && after == refs[name := after[name]] && g.reach(after[name].tip) == kept &&
        forall o :: Holds(g, after[name].uris, o) <==> o in kept)
  }

  lemma {:induction false} ReplacedListed(g: Git, refs: Refs, name: string, kept: set<string>, after: Refs, o: string)
    requires Replaces(g, refs, name, kept, after)
    ensures Listed(g, after, o) <==> o in kept || ListedElsewhere(g, refs, name, o)
    ensures Listed(g, refs, o) ==> (Listed(g, after, o) <==> !Loses(g, refs, name, kept, o))
  {
    ListedInstead(g, refs, name, if name in after then after[name] else RefInfo("", []), o);
  }

  lemma {:induction false} ReplacedSound(g: Git, sys: System, name: string, kept: set<string>, after: System)
    requires Sound(g, sys) && Replaces(g, sys.refs, name, kept, after.refs) && after.caches == sys.caches
    requires forall o :: Loses(g, sys.refs, name, kept, o) ==> !Needs(g, sys, name, o)
    ensures Sound(g, after)
  {
    forall o
      ensures o in kept || Needs(g, sys, name, o) ==> (Listed(g, sys.refs, o) || o in kept ==> Listed(g, after.refs, o))
    {
      ReplacedListed(g, sys.refs, name, kept, after.refs, o);
    }
    forall other | other in after.refs ensures Covers(g, after.refs, after.refs[other].tip) {
      if other != name {
        assert after.refs[other] == sys.refs[other] && Covers(g, sys.refs, sys.refs[other].tip);
        forall o | o in g.reach(sys.refs[other].tip) ensures Listed(g, after.refs, o) { assert Needs(g, sys, name, o); }
      }
    }
    forall client ensures CacheSound(g, after.refs, CacheOf(after, client)) {
      var cache := CacheOf(sys, client);
      assert CacheSound(g, sys.refs, cache) && CacheOf(after, client) == cache;
      forall listed, o | listed in cache && o in g.reach(cache[listed].tip) ensures Listed(g, after.refs, o) {
        assert Covers(g, sys.refs, cache[listed].tip);
        assert Needs(g, sys, name, o);
      }
    }
  }

  lemma {:induction false} ReplacedUnsound(g: Git, sys: System, name: string, kept: set<string>, after: System,
      o: string)
    requires Replaces(g, sys.refs, name, kept, after.refs) && after.caches == sys.caches
    requires Loses(g, sys.refs, name, kept, o) && Needs(g, sys, name, o)
    ensures !Sound(g, after)
  {
    ReplacedListed(g, sys.refs, name, kept, after.refs, o);
    ListedInstead(g, sys.refs, name, RefInfo("", []), o);
    if other :| other in sys.refs && other != name && o in g.reach(sys.refs[other].tip) {
      assert other in after.refs && after.refs[other] == sys.refs[other];
      assert !Covers(g, after.refs, after.refs[other].tip);
    } else {
      var client: nat, listed :| listed in CacheOf(sys, client) && o in g.reach(CacheOf(sys, client)[listed].tip);
      assert CacheOf(after, client) == CacheOf(sys, client);
      assert !Covers(g, after.refs, CacheOf(after, client)[listed].tip);
    }
  }

  lemma {:induction false} ReplacedIff(g: Git, sys: System, name: string, kept: set<string>, after: System)
    requires Sound(g, sys) && Replaces(g, sys.refs, name, kept, after.refs) && after.caches == sys.caches
    ensures Sound(g, after) <==> forall o :: Loses(g, sys.refs, name, kept, o) ==> !Needs(g, sys, name, o)
  {
    if forall o :: Loses(g, sys.refs, name, kept, o) ==> !Needs(g, sys, name, o) {
      ReplacedSound(g, sys, name, kept, after);
    } else {
      var o :| Loses(g, sys.refs, name, kept, o) && Needs(g, sys, name, o);
      ReplacedUnsound(g, sys, name, kept, after, o);
    }
  }

  /** A deletion keeps everything covered, for the registry and for every listing, if and only if
      what only its list holds is needed by nobody. */
  lemma {:induction false} DeletionSoundIff(g: Git, sys: System, name: string)
    requires Sound(g, sys)
    ensures Sound(g, Next(g, sys, Delete(name))) <==> Careful(g, sys, Delete(name))
  {
    if name in sys.refs { ReplacedIff(g, sys, name, {}, Next(g, sys, Delete(name))); }
  }

  /** So does a forced push, which keeps the history of its own tip. */
  lemma {:induction false} ForceSoundIff(g: Git, sys: System, e: Event)
    requires Sound(g, sys) && e.PushRef? && e.spec.force && Possible(g, sys, e)
    ensures Sound(g, Next(g, sys, e)) <==> Careful(g, sys, e)
  {
    var cache := CacheOf(sys, e.client);
    var r := Push(g, sys.refs, cache, e.spec, e.local, e.uri);
    if r.Some? {
      ForceIsComplete(g, sys.refs, cache, e.spec, e.local, e.uri);
      forall o ensures Holds(g, [e.uri], o) <==> o in g.reach(e.spec.tip) { OneHolds(g, e.uri, o); }
      ReplacedIff(g, sys, e.spec.dst, g.reach(e.spec.tip), Next(g, sys, e));
    }
  }

  /** Every event keeps the registry and all listings covered if and only if it is careful. */
  lemma {:induction false} NextKeepsIff(g: Git, sys: System, e: Event)
    requires Sound(g, sys) && Possible(g, sys, e)
    ensures Sound(g, Next(g, sys, e)) <==> Careful(g, sys, e)
  {
    match e
    case ListRefs(client) => ListKeeps(g, sys, client);
    case Delete(name) => DeletionSoundIff(g, sys, name);
    case PushRef(client, spec, local, uri) =>
      if spec.force {
        ForceSoundIff(g, sys, e);
      } else {
        assert CacheSound(g, sys.refs, CacheOf(sys, client));
        PushKeeps(g, sys, CacheOf(sys, client), spec, local, uri);
      }
  }

  lemma {:induction false} RunKeeps(g: Git, events: seq<Event>)
    requires CarefulRun(g, events)
    ensures Sound(g, Run(g, Empty(), events))
  {
    if events != [] {
      var n := |events| - 1;
      RunKeeps(g, events[..n]);
      NextKeepsIff(g, Run(g, Empty(), events[..n]), events[n]);
    }
  }

  // ------------------------------------------------- two ways to lose objects

  /** A commit on top of another, and the packs that hold one each. */
  predicate OneOnTop(g: Git, base: string, next: string, u: string, v: string) {
    base != next && g.reach(base) == {base} && g.reach(next) == {base, next} &&
    g.stored(u) == PackFile({base}, {}) && g.stored(v).objects == {next} && g.stored(v).bases <= {base}
  }

  lemma {:induction false} PushOnTop(g: Git, base: string, next: string, u: string, v: string, refs: Refs, cache: Refs)
    requires OneOnTop(g, base, next, u, v) && cache == map["a" := RefInfo(base, [u])] && "b" !in refs
    requires |refs| < MAX_REFS
    ensures Stores(g, cache, Spec("b", next, false), {base}, v)
    ensures Push(g, refs, cache, Spec("b", next, false), {base}, v) == Some(refs["b" := RefInfo(next, [v])])
  {
    var spec := Spec("b", next, false);
    assert cache["a"].tip in Tips(cache);
    assert Tips(cache) == {base};
    assert Increment(g, cache, spec, {base}) == {next};
    forall o | o in g.stored(v).bases ensures MayBase(g, cache, spec, {base}, o) { assert o in g.reach(base); }
  }

  lemma {:induction false} OnlyNextHeld(g: Git, base: string, next: string, u: string, v: string, refs: Refs)
    requires OneOnTop(g, base, next, u, v) && refs == map["b" := RefInfo(next, [v])]
    ensures !CoversItself(g, refs)
  {
    OneHolds(g, v, base);
    assert !Listed(g, refs, base);
    assert !Covers(g, refs, refs["b"].tip);
  }

  /** A branch one commit past another lists that commit alone, so deleting the other branch
      uncovers it. */
  lemma {:induction false} DeletionUncovers(g: Git, base: string, next: string, u: string, v: string, refs: Refs)
    requires OneOnTop(g, base, next, u, v) && refs == map["a" := RefInfo(base, [u])]
    ensures var after := Push(g, refs, refs, Spec("b", next, false), {base}, v);
      && Stores(g, refs, Spec("b", next, false), {base}, v) && after.Some? && CoversItself(g, after.value)
      && !CoversItself(g, DeleteRef(after.value, "a").value)
  {
    PushOnTop(g, base, next, u, v, refs, refs);
    var after := refs["b" := RefInfo(next, [v])];
    OneHolds(g, u, base);
    OneHolds(g, v, next);
    assert Holds(g, after["a"].uris, base) && Holds(g, after["b"].uris, next);
    var left := after - {"a"};
    assert left == map["b" := RefInfo(next, [v])];
    OnlyNextHeld(g, base, next, u, v, left);
  }

  /** Deleting the only branch leaves nothing uncovered, but a client that still has it in its
      listing then pushes on top of it, and that push is accepted. */
  lemma {:induction false} StaleListingUncovers(g: Git, base: string, next: string, u: string, v: string, refs: Refs)
    requires OneOnTop(g, base, next, u, v) && refs == map["a" := RefInfo(base, [u])]
    ensures var left := DeleteRef(refs, "a").value;
      var after := Push(g, left, refs, Spec("b", next, false), {base}, v);
      && Stores(g, refs, Spec("b", next, false), {base}, v) && CoversItself(g, left)
      && after.Some? && !CoversItself(g, after.value)
  {
    var left := refs - {"a"};
    assert left == map[];
    PushOnTop(g, base, next, u, v, left, refs);
    OnlyNextHeld(g, base, next, u, v, left["b" := RefInfo(next, [v])]);
  }
}
