/** Fetching thin packs: when the packs of a listing can be indexed in the order in which they
    are collected, and what they then bring. */
module PackFetch {
  import opened Digits
  import opened PackCoverage

  // ------------------------------------------------------------ collecting

  /** All addresses of the requested refs, each once, in order of first mention. */
  function Merge(seen: seq<string>, uris: seq<string>): seq<string> {
    if uris == [] then seen else
    var before := Merge(seen, uris[..|uris| - 1]);
    if uris[|uris| - 1] in before then before else before + [uris[|uris| - 1]]
  }

  function Needed(cache: Refs, names: seq<string>): seq<string>
    requires forall i :: 0 <= i < |names| ==> names[i] in cache
  {
    if names == [] then [] else Merge(Needed(cache, names[..|names| - 1]), cache[names[|names| - 1]].uris)
  }

  predicate NoRepeat(s: seq<string>) { forall i, j :: 0 <= i < j < |s| ==> s[i] != s[j] }

  lemma {:induction false} MergeIs(seen: seq<string>, uris: seq<string>)
    ensures forall u :: u in Merge(seen, uris) <==> u in seen || u in uris
    ensures NoRepeat(seen) ==> NoRepeat(Merge(seen, uris))
    ensures seen <= Merge(seen, uris)
  {
    if uris != [] {
      var n := |uris| - 1;
      MergeIs(seen, uris[..n]);
      assert uris == uris[..n] + [uris[n]];
    }
  }

  lemma {:induction false} NeededIs(cache: Refs, names: seq<string>)
    requires forall i :: 0 <= i < |names| ==> names[i] in cache
    ensures NoRepeat(Needed(cache, names))
    ensures forall i, u :: 0 <= i < |names| && u in cache[names[i]].uris ==> u in Needed(cache, names)
    ensures forall u :: u in Needed(cache, names) ==> exists i :: 0 <= i < |names| && u in cache[names[i]].uris
  {
    if names != [] {
      var n := |names| - 1;
      NeededIs(cache, names[..n]);
      MergeIs(Needed(cache, names[..n]), cache[names[n]].uris);
      forall i, u | 0 <= i < |names| && u in cache[names[i]].uris ensures u in Needed(cache, names) {
        if i < n { assert names[..n][i] == names[i]; }
      }
      forall u | u in Needed(cache, names) ensures exists i :: 0 <= i < |names| && u in cache[names[i]].uris {
        if u !in cache[names[n]].uris {
          var i :| 0 <= i < n && u in cache[names[..n][i]].uris;
          assert u in cache[names[i]].uris;
        }
      }
    }
  }

  ghost predicate AllNames(cache: Refs, names: seq<string>) { forall name :: name in cache <==> name in names }

  // ------------------------------------------------------------ indexing

  /** `index-pack --fix-thin`: every delta base must be present or in the pack itself. */
  function IndexPack(have: set<string>, pack: PackFile): Option<set<string>> {
    if pack.bases <= have + pack.objects then Some(have + pack.objects) else None
  }

  /** The download loop: the packs are indexed one by one, and the first failure ends it. */
  function Fetch(download: string -> Option<PackFile>, have: set<string>, uris: seq<string>): Option<set<string>> {
    if uris == [] then Some(have) else
    var before :- Fetch(download, have, uris[..|uris| - 1]);
    var pack :- download(uris[|uris| - 1]);
    IndexPack(before, pack)
  }

  function Objects(g: Git, uris: seq<string>): set<string> {
    if uris == [] then {} else Objects(g, uris[..|uris| - 1]) + g.stored(uris[|uris| - 1]).objects
  }

  /** Every pack can be downloaded. */
  function Online(g: Git): string -> Option<PackFile> { u => Some(g.stored(u)) }

  /** The delta bases of each pack are there at the start, in an earlier pack, or in itself. */
  ghost predicate BasesMet(g: Git, have: set<string>, uris: seq<string>) {
    forall k :: 0 <= k < |uris| ==> g.stored(uris[k]).bases <= have + Objects(g, uris[..k + 1])
  }

  lemma {:induction false} BasesNext(g: Git, have: set<string>, uris: seq<string>, uri: string)
    ensures BasesMet(g, have, uris + [uri]) <==>
      BasesMet(g, have, uris) && g.stored(uri).bases <= have + Objects(g, uris) + g.stored(uri).objects
  {
    var more := uris + [uri];
    assert more[..|uris|] == uris && more[..|more|] == more;
    assert forall k :: 0 <= k < |uris| ==> more[..k + 1] == uris[..k + 1] && more[k] == uris[k];
    if BasesMet(g, have, more) {
      forall k | 0 <= k < |uris| ensures g.stored(uris[k]).bases <= have + Objects(g, uris[..k + 1]) {
        assert g.stored(more[k]).bases <= have + Objects(g, more[..k + 1]);
      }
      assert g.stored(more[|uris|]).bases <= have + Objects(g, more[..|uris| + 1]);
    }
  }

  /** A fetch succeeds if and only if every pack finds its bases, and then it brings exactly the
      objects of the packs. */
  lemma {:induction false} FetchIff(g: Git, have: set<string>, uris: seq<string>)
    ensures Fetch(Online(g), have, uris).Some? <==> BasesMet(g, have, uris)
    ensures BasesMet(g, have, uris) ==> Fetch(Online(g), have, uris) == Some(have + Objects(g, uris))
  {
    if uris != [] {
      var n := |uris| - 1;
      FetchIff(g, have, uris[..n]);
      BasesNext(g, have, uris[..n], uris[n]);
      assert uris == uris[..n] + [uris[n]];
      assert have + (Objects(g, uris[..n]) + g.stored(uris[n]).objects) ==
        have + Objects(g, uris[..n]) + g.stored(uris[n]).objects;
    } else {
      assert have + {} == have;
    }
  }

  lemma {:induction false} ObjectsHold(g: Git, uris: seq<string>, o: string)
    ensures o in Objects(g, uris) <==> Holds(g, uris, o)
  {
    if uris != [] {
      var n := |uris| - 1;
      ObjectsHold(g, uris[..n], o);
      assert uris == uris[..n] + [uris[n]];
      HoldsIn(g, uris, uris[..n], [uris[n]], o);
      OneHolds(g, uris[n], o);
    }
  }

  /** The addresses of all refs of a listing, in whatever order. */
  ghost predicate Addresses(cache: Refs, uris: seq<string>) {
    forall u :: u in uris <==> exists name :: name in cache && u in cache[name].uris
  }

  lemma {:induction false} ListedFetched(g: Git, cache: Refs, uris: seq<string>, o: string)
    requires Addresses(cache, uris) && Listed(g, cache, o)
    ensures o in Objects(g, uris)
  {
    var name :| name in cache && Holds(g, cache[name].uris, o);
    var k :| 0 <= k < |cache[name].uris| && o in g.stored(cache[name].uris[k]).objects;
    assert cache[name].uris[k] in uris;
    var i :| 0 <= i < |uris| && uris[i] == cache[name].uris[k];
    assert Holds(g, uris, o);
    ObjectsHold(g, uris, o);
  }

  /** The history of every listed tip is among the objects. */
  ghost predicate Brings(g: Git, cache: Refs, objects: set<string>) {
    forall name, o :: name in cache && o in g.reach(cache[name].tip) ==> o in objects
  }

  lemma {:induction false} AllNeeded(cache: Refs, names: seq<string>)
    requires AllNames(cache, names) && forall i :: 0 <= i < |names| ==> names[i] in cache
    ensures Addresses(cache, Needed(cache, names))
  {
    NeededIs(cache, names);
    forall u ensures u in Needed(cache, names) <==> exists name :: name in cache && u in cache[name].uris {
      if name :| name in cache && u in cache[name].uris {
        var i :| 0 <= i < |names| && names[i] == name;
        assert u in cache[names[i]].uris;
      }
    }
  }

  /** After any careful run, fetching all refs of any listing, however stale, succeeds if and only
      if every pack finds its bases in the order of collection, and then brings the whole history
      of every tip in the listing. */
  lemma {:induction false} FetchAllComplete(g: Git, events: seq<Event>, client: nat, names: seq<string>,
      have: set<string>)
    requires CarefulRun(g, events) && AllNames(CacheOf(Run(g, Empty(), events), client), names)
    ensures var cache := CacheOf(Run(g, Empty(), events), client);
      && (forall i :: 0 <= i < |names| ==> names[i] in cache)
      && (Fetch(Online(g), have, Needed(cache, names)).Some? <==> BasesMet(g, have, Needed(cache, names)))
      && (BasesMet(g, have, Needed(cache, names)) ==>
            Brings(g, cache, Fetch(Online(g), have, Needed(cache, names)).value))
  {
    RunKeeps(g, events);
    var sys := Run(g, Empty(), events);
    var cache := CacheOf(sys, client);
    assert CacheSound(g, sys.refs, cache);
    forall i | 0 <= i < |names| ensures names[i] in cache { assert names[i] in names; }
    AllNeeded(cache, names);
    FetchIff(g, have, Needed(cache, names));
    forall name, o | name in cache && o in g.reach(cache[name].tip) ensures o in Objects(g, Needed(cache, names)) {
      assert Covers(g, cache, cache[name].tip);
      ListedFetched(g, cache, Needed(cache, names), o);
    }
  }

  // ------------------------------------------------------------ upload order

  /** Creations and unforced updates only. */
  predicate Ordinary(e: Event) { e.ListRefs? || (e.PushRef? && !e.spec.force) }

  ghost predicate OrdinaryRun(g: Git, events: seq<Event>) {
    CarefulRun(g, events) && forall i :: 0 <= i < |events| ==> Ordinary(events[i])
  }

  /** The listing shows exactly the first `n` uploads. */
  ghost predicate ShowsFirst(cache: Refs, uploads: seq<string>, n: nat) {
    n <= |uploads| && Addresses(cache, uploads[..n])
  }

  ghost predicate Shown(cache: Refs, uploads: seq<string>) { exists n: nat :: ShowsFirst(cache, uploads, n) }

  /** In the order of upload every pack finds its bases, and every listing is an initial stretch
      of the uploads. */
  ghost predicate Traced(g: Git, sys: System) {
    && BasesMet(g, {}, sys.uploads) && Addresses(sys.refs, sys.uploads)
    && (forall client :: Shown(CacheOf(sys, client), sys.uploads))
  }

  lemma {:induction false} StillShown(cache: Refs, uploads: seq<string>, more: seq<string>)
    requires Shown(cache, uploads)
    ensures Shown(cache, uploads + more)
  {
    var n: nat :| ShowsFirst(cache, uploads, n);
    assert (uploads + more)[..n] == uploads[..n];
    assert ShowsFirst(cache, uploads + more, n);
  }

  lemma {:induction false} UploadTraced(g: Git, sys: System, after: System, uri: string)
    requires Traced(g, sys) && after.caches == sys.caches && after.uploads == sys.uploads + [uri]
    requires Addresses(after.refs, after.uploads)
    requires forall o :: o in g.stored(uri).bases ==> o in Objects(g, sys.uploads)
    ensures Traced(g, after)
  {
    BasesNext(g, {}, sys.uploads, uri);
    forall client ensures Shown(CacheOf(after, client), after.uploads) {
      assert CacheOf(after, client) == CacheOf(sys, client);
      StillShown(CacheOf(sys, client), sys.uploads, [uri]);
    }
  }

  lemma {:induction false} AddressesNext(refs: Refs, uploads: seq<string>, dst: string, info: RefInfo,
      more: seq<string>)
    requires Addresses(refs, uploads) && forall u :: u in info.uris <==> u in ListOf(refs, dst) || u in more
    ensures Addresses(refs[dst := info], uploads + more)
  {
    var after := refs[dst := info];
    forall u ensures u in uploads + more <==> exists name :: name in after && u in after[name].uris {
      if u in uploads {
        var name :| name in refs && u in refs[name].uris;
        assert name == dst ==> u in ListOf(refs, dst);
        assert u in after[name].uris;
      }
      if u in more { assert u in after[dst].uris; }
      if name :| name in after && u in after[name].uris {
        assert name != dst ==> name in refs && u in refs[name].uris;
        assert name == dst && u !in more ==> dst in refs && u in refs[dst].uris;
      }
    }
  }

  /** What a push may delta against was uploaded before. */
  lemma {:induction false} BasesUploaded(g: Git, sys: System, cache: Refs, spec: Spec, local: set<string>, o: string)
    requires Addresses(sys.refs, sys.uploads) && MayBase(g, cache, spec, local, o)
    requires forall name :: name in cache ==> Covers(g, sys.refs, cache[name].tip)
    ensures o in Objects(g, sys.uploads)
  {
    var e :| e in Tips(cache) && e in local && o in g.reach(e);
    var name :| name in cache && cache[name].tip == e;
    assert Covers(g, sys.refs, cache[name].tip);
    ListedFetched(g, sys.refs, sys.uploads, o);
  }

  lemma {:induction false} ShownWithin(cache: Refs, uploads: seq<string>, dst: string)
    requires Shown(cache, uploads)
    ensures forall u :: u in ListOf(cache, dst) ==> u in uploads
  {
    var n: nat :| ShowsFirst(cache, uploads, n);
    forall u | u in ListOf(cache, dst) ensures u in uploads {
      assert dst in cache && u in cache[dst].uris;
      assert u in uploads[..n];
    }
  }

  lemma {:induction false} PushTraced(g: Git, sys: System, cache: Refs, spec: Spec, local: set<string>, uri: string)
    requires Traced(g, sys) && !spec.force && Stores(g, cache, spec, local, uri) && Shown(cache, sys.uploads)
    requires forall name :: name in cache ==> Covers(g, sys.refs, cache[name].tip)
    ensures Traced(g, AfterPush(g, sys, cache, spec, local, uri))
  {
    var r := Push(g, sys.refs, cache, spec, local, uri);
    if r.Some? {
      var after, sent := AfterPush(g, sys, cache, spec, local, uri), Sent(g, cache, spec, local, uri);
      UpdateGrows(sys.refs, spec.dst, spec.tip, sent, ExpectedTip(cache, spec.dst));
      AddressesNext(sys.refs, sys.uploads, spec.dst, r.value[spec.dst], sent);
      if KeepsList(g, cache, spec, local) {
        ShownWithin(cache, sys.uploads, spec.dst);
        AddressesShorter(r.value, sys.uploads, sent);
        assert after.uploads == sys.uploads && after.caches == sys.caches;
        forall client
          ensures Shown(CacheOf(after, client), after.uploads)
        {
          assert CacheOf(after, client) == CacheOf(sys, client);
        }
      } else {
        forall o | o in g.stored(uri).bases
          ensures o in Objects(g, sys.uploads)
        {
          BasesUploaded(g, sys, cache, spec, local, o);
        }
        UploadTraced(g, sys, after, uri);
      }
    }
  }

  lemma {:induction false} AddressesShorter(refs: Refs, uploads: seq<string>, known: seq<string>)
    requires Addresses(refs, uploads + known) && forall u :: u in known ==> u in uploads
    ensures Addresses(refs, uploads)
  {
    forall u ensures u in uploads <==> u in uploads + known {}
  }

  lemma {:induction false} ListTraced(g: Git, sys: System, client: nat)
    requires Traced(g, sys)
    ensures Traced(g, Next(g, sys, ListRefs(client)))
  {
    var after, n := Next(g, sys, ListRefs(client)), |sys.uploads|;
    assert sys.uploads[..n] == sys.uploads;
    assert ShowsFirst(sys.refs, sys.uploads, n);
    forall c ensures Shown(CacheOf(after, c), after.uploads) {
      assert c != client ==> CacheOf(after, c) == CacheOf(sys, c);
    }
  }

  lemma {:induction false} OrdinaryTraced(g: Git, events: seq<Event>)
    requires OrdinaryRun(g, events)
    ensures Traced(g, Run(g, Empty(), events))
  {
    if events == [] {
      forall client ensures Shown(CacheOf(Empty(), client), []) { assert ShowsFirst(map[], [], 0); }
    } else {
      var n := |events| - 1;
      var sys, e := Run(g, Empty(), events[..n]), events[n];
      OrdinaryTraced(g, events[..n]);
      RunKeeps(g, events[..n]);
      if e.ListRefs? {
        ListTraced(g, sys, e.client);
      } else {
        assert CacheSound(g, sys.refs, CacheOf(sys, e.client)) && Shown(CacheOf(sys, e.client), sys.uploads);
        PushTraced(g, sys, CacheOf(sys, e.client), e.spec, e.local, e.uri);
      }
    }
  }

  lemma {:induction false} BasesPrefix(g: Git, have: set<string>, uris: seq<string>, n: nat)
    requires BasesMet(g, {}, uris) && n <= |uris|
    ensures BasesMet(g, have, uris[..n])
  {
    forall k | 0 <= k < n ensures g.stored(uris[..n][k]).bases <= have + Objects(g, uris[..n][..k + 1]) {
      assert uris[..n][..k + 1] == uris[..k + 1];
    }
  }

  /** The packs of any listing, however stale, indexed in the order of upload, always find their
      bases and bring the whole history of every tip in it. */
  lemma {:induction false} UploadOrderIndexes(g: Git, events: seq<Event>, client: nat, have: set<string>)
    returns (order: seq<string>)
    requires OrdinaryRun(g, events)
    ensures var sys := Run(g, Empty(), events);
      && order <= sys.uploads && Addresses(CacheOf(sys, client), order)
      && Fetch(Online(g), have, order).Some? && Brings(g, CacheOf(sys, client), Fetch(Online(g), have, order).value)
  {
    OrdinaryTraced(g, events);
    RunKeeps(g, events);
    var sys := Run(g, Empty(), events);
    var cache := CacheOf(sys, client);
    assert Shown(cache, sys.uploads) && CacheSound(g, sys.refs, cache);
    var n: nat :| ShowsFirst(cache, sys.uploads, n);
    order := sys.uploads[..n];
    BasesPrefix(g, have, sys.uploads, n);
    FetchIff(g, have, order);
    forall name, o | name in cache && o in g.reach(cache[name].tip) ensures o in Objects(g, order) {
      assert Covers(g, cache, cache[name].tip);
      ListedFetched(g, cache, order, o);
    }
  }

  // ---------------------------------------- the order of collection can fail

  /** Three commits in a row, each packed on its own as a delta against the one before. */
  predicate ThreeInRow(g: Git, u: string, v: string, w: string) {
    && u != v && u != w && v != w
    && g.reach("1") == {"1"} && g.reach("2") == {"1", "2"} && g.reach("3") == {"1", "2", "3"}
    && g.stored(u) == PackFile({"1"}, {})
    && g.stored(v) == PackFile({"2"}, {"1"})
    && g.stored(w) == PackFile({"3"}, {"2"})
  }

  lemma {:induction false} FirstPush(g: Git, u: string, v: string, w: string)
    requires ThreeInRow(g, u, v, w)
    ensures var spec := Spec("a", "1", false);
      Stores(g, map[], spec, {"1"}, u) && !KeepsList(g, map[], spec, {"1"}) &&
      Push(g, map[], map[], spec, {"1"}, u) == Some(map["a" := RefInfo("1", [u])])
  {
    assert Tips(map[]) == {};
    assert Increment(g, map[], Spec("a", "1", false), {"1"}) == {"1"};
  }

  lemma {:induction false} SecondPush(g: Git, u: string, v: string, w: string, refs: Refs)
    requires ThreeInRow(g, u, v, w) && refs == map["a" := RefInfo("1", [u])]
    ensures var spec := Spec("b", "2", false);
      Stores(g, refs, spec, {"1", "2"}, v) && !KeepsList(g, refs, spec, {"1", "2"}) &&
      Push(g, refs, refs, spec, {"1", "2"}, v) == Some(refs["b" := RefInfo("2", [v])])
  {
    var spec := Spec("b", "2", false);
    assert refs["a"].tip in Tips(refs);
    assert Tips(refs) == {"1"};
    assert Increment(g, refs, spec, {"1", "2"}) == {"2"};
    assert MayBase(g, refs, spec, {"1", "2"}, "1") by { assert "1" in g.reach("1"); }
  }

  lemma {:induction false} AppendOne(list: seq<string>, uri: string)
    requires uri !in list && |list| < MAX_PACK_URIS
    ensures AppendNew(list, [uri]) == Some(list + [uri])
  {
    assert [uri][..0] == [];
    assert AppendNew(list, []) == Some(list);
  }

  lemma {:induction false} ThirdPush(g: Git, u: string, v: string, w: string, refs: Refs)
    requires ThreeInRow(g, u, v, w) && refs == map["a" := RefInfo("1", [u]), "b" := RefInfo("2", [v])]
    ensures var spec, local := Spec("a", "3", false), {"1", "2", "3"};
      Stores(g, refs, spec, local, w) && !KeepsList(g, refs, spec, local) &&
      Push(g, refs, refs, spec, local, w) == Some(refs["a" := RefInfo("3", [u, w])])
  {
    var spec, local := Spec("a", "3", false), {"1", "2", "3"};
    assert refs["a"].tip in Tips(refs) && refs["b"].tip in Tips(refs);
    assert Tips(refs) == {"1", "2"};
    assert Increment(g, refs, spec, local) == {"3"};
    assert MayBase(g, refs, spec, local, "2") by { assert "2" in g.reach("2"); }
    AppendOne([u], w);
    assert [u] + [w] == [u, w];
  }

  function PushAndList(spec: Spec, local: set<string>, uri: string): seq<Event> {
    [PushRef(0, spec, local, uri), ListRefs(0)]
  }

  function RowEvents(u: string, v: string, w: string): seq<Event> {
    PushAndList(Spec("a", "1", false), {"1"}, u) + PushAndList(Spec("b", "2", false), {"1", "2"}, v) +
    PushAndList(Spec("a", "3", false), {"1", "2", "3"}, w)
  }

  lemma {:induction false} RunExtends(g: Git, events: seq<Event>, e: Event)
    requires OrdinaryRun(g, events) && Ordinary(e) && Possible(g, Run(g, Empty(), events), e)
    ensures OrdinaryRun(g, events + [e]) && Run(g, Empty(), events + [e]) == Next(g, Run(g, Empty(), events), e)
  {
    assert (events + [e])[..|events|] == events;
  }

  /** One push from an up-to-date listing, and a new listing. */
  lemma {:induction false} PushListRun(g: Git, events: seq<Event>, refs: Refs, caches: map<nat, Refs>,
      uploads: seq<string>, spec: Spec, local: set<string>, uri: string, after: Refs)
    requires OrdinaryRun(g, events) && Run(g, Empty(), events) == System(refs, caches, uploads)
    requires (if 0 in caches then caches[0] else map[]) == refs && !spec.force && spec.tip in g.reach(spec.tip)
    requires Stores(g, refs, spec, local, uri) && !KeepsList(g, refs, spec, local)
    requires Push(g, refs, refs, spec, local, uri) == Some(after)
    ensures OrdinaryRun(g, events + PushAndList(spec, local, uri))
    ensures Run(g, Empty(), events + PushAndList(spec, local, uri)) ==
      System(after, caches[0 := after], uploads + [uri])
  {
    var push := PushRef(0, spec, local, uri);
    RunExtends(g, events, push);
    RunExtends(g, events + [push], ListRefs(0));
    assert (events + [push]) + [ListRefs(0)] == events + PushAndList(spec, local, uri);
  }

  lemma {:induction false} RowOne(g: Git, u: string, v: string, w: string, e1: seq<Event>, r1: Refs)
    requires ThreeInRow(g, u, v, w) && e1 == PushAndList(Spec("a", "1", false), {"1"}, u)
    requires r1 == map["a" := RefInfo("1", [u])]
    ensures OrdinaryRun(g, e1) && Run(g, Empty(), e1) == System(r1, map[0 := r1], [u])
  {
    FirstPush(g, u, v, w);
    PushListRun(g, [], map[], map[], [], Spec("a", "1", false), {"1"}, u, r1);
    assert [] + e1 == e1 && [] + [u] == [u];
  }

  lemma {:induction false} RowTwo(g: Git, u: string, v: string, w: string, e1: seq<Event>, r1: Refs, r2: Refs)
    requires ThreeInRow(g, u, v, w) && r1 == map["a" := RefInfo("1", [u])] && r2 == r1["b" := RefInfo("2", [v])]
    requires OrdinaryRun(g, e1) && Run(g, Empty(), e1) == System(r1, map[0 := r1], [u])
    ensures var e2 := e1 + PushAndList(Spec("b", "2", false), {"1", "2"}, v);
      OrdinaryRun(g, e2) && Run(g, Empty(), e2) == System(r2, map[0 := r2], [u, v])
  {
    SecondPush(g, u, v, w, r1);
    PushListRun(g, e1, r1, map[0 := r1], [u], Spec("b", "2", false), {"1", "2"}, v, r2);
    assert [u] + [v] == [u, v];
  }

  lemma {:induction false} RowThree(g: Git, u: string, v: string, w: string, e2: seq<Event>, r2: Refs, r3: Refs)
    requires ThreeInRow(g, u, v, w) && r2 == map["a" := RefInfo("1", [u]), "b" := RefInfo("2", [v])]
    requires r3 == r2["a" := RefInfo("3", [u, w])]
    requires OrdinaryRun(g, e2) && Run(g, Empty(), e2) == System(r2, map[0 := r2], [u, v])
    ensures var e3 := e2 + PushAndList(Spec("a", "3", false), {"1", "2", "3"}, w);
      OrdinaryRun(g, e3) && Run(g, Empty(), e3) == System(r3, map[0 := r3], [u, v, w])
  {
    ThirdPush(g, u, v, w, r2);
    PushListRun(g, e2, r2, map[0 := r2], [u, v], Spec("a", "3", false), {"1", "2", "3"}, w, r3);
    assert [u, v] + [w] == [u, v, w];
  }

  lemma {:induction false} RowFrom(g: Git, u: string, v: string, w: string, e1: seq<Event>, r1: Refs, r2: Refs,
      r3: Refs)
    requires ThreeInRow(g, u, v, w) && r1 == map["a" := RefInfo("1", [u])]
    requires r2 == r1["b" := RefInfo("2", [v])] && r3 == r2["a" := RefInfo("3", [u, w])]
    requires OrdinaryRun(g, e1) && Run(g, Empty(), e1) == System(r1, map[0 := r1], [u])
    ensures var e3 := e1 + PushAndList(Spec("b", "2", false), {"1", "2"}, v) +
        PushAndList(Spec("a", "3", false), {"1", "2", "3"}, w);
      OrdinaryRun(g, e3) && Run(g, Empty(), e3) == System(r3, map[0 := r3], [u, v, w])
  {
    RowTwo(g, u, v, w, e1, r1, r2);
    RowThree(g, u, v, w, e1 + PushAndList(Spec("b", "2", false), {"1", "2"}, v), r2, r3);
  }

  lemma {:induction false} RowRun(g: Git, u: string, v: string, w: string, refs: Refs)
    requires ThreeInRow(g, u, v, w) && refs == map["a" := RefInfo("3", [u, w]), "b" := RefInfo("2", [v])]
    ensures OrdinaryRun(g, RowEvents(u, v, w))
    ensures Run(g, Empty(), RowEvents(u, v, w)) == System(refs, map[0 := refs], [u, v, w])
  {
    var r1: Refs := map["a" := RefInfo("1", [u])];
    var r2 := r1["b" := RefInfo("2", [v])];
    assert refs == r2["a" := RefInfo("3", [u, w])];
    RowOne(g, u, v, w, PushAndList(Spec("a", "1", false), {"1"}, u), r1);
    RowFrom(g, u, v, w, PushAndList(Spec("a", "1", false), {"1"}, u), r1, r2, refs);
  }

  lemma {:induction false} RowNeeded(cache: Refs, u: string, v: string, w: string)
    requires u != v && u != w && v != w && cache == map["a" := RefInfo("3", [u, w]), "b" := RefInfo("2", [v])]
    ensures Needed(cache, ["a", "b"]) == [u, w, v]
  {
    assert ["a", "b"][..1] == ["a"] && ["a"][..0] == [];
    assert [u, w][..1] == [u] && [u][..0] == [] && [v][..0] == [];
    assert Merge([], [u]) == [u];
    assert Merge([], [u, w]) == [u, w];
    assert Needed(cache, ["a"]) == [u, w];
    assert Merge([u, w], []) == [u, w];
    assert Merge([u, w], [v]) == [u, w, v];
  }

  /** A run of ordinary pushes after which fetching everything fails: the packs are collected
      ref by ref, and one needs a base that a later one brings. In the order of upload the same
      packs are indexed. */
  lemma {:induction false} CollectionOrderFails(g: Git, u: string, v: string, w: string)
    requires ThreeInRow(g, u, v, w)
    ensures var events := RowEvents(u, v, w);
      var cache := CacheOf(Run(g, Empty(), events), 0);
      && OrdinaryRun(g, events) && AllNames(cache, ["a", "b"]) && Fetch(Online(g), {}, Needed(cache, ["a", "b"])).None?
      && Run(g, Empty(), events).uploads == [u, v, w] && Fetch(Online(g), {}, [u, v, w]) == Some({"1", "2", "3"})
  {
    var cache: Refs := map["a" := RefInfo("3", [u, w]), "b" := RefInfo("2", [v])];
    RowRun(g, u, v, w, cache);
    RowNeeded(cache, u, v, w);
    FetchRow(g, u, v, w);
  }

  lemma {:induction false} FetchNext(g: Git, have: set<string>, uris: seq<string>, uri: string, objects: set<string>)
    requires Fetch(Online(g), have, uris) == Some(objects)
    ensures Fetch(Online(g), have, uris + [uri]) == IndexPack(objects, g.stored(uri))
  {
    assert (uris + [uri])[..|uris|] == uris;
  }

  lemma {:induction false} FetchRow(g: Git, u: string, v: string, w: string)
    requires ThreeInRow(g, u, v, w)
    ensures Fetch(Online(g), {}, [u, w, v]).None? && Fetch(Online(g), {}, [u, v, w]) == Some({"1", "2", "3"})
  {
    FetchNext(g, {}, [], u, {});
    assert [] + [u] == [u] && {} + {"1"} == {"1"};
    FetchNext(g, {}, [u], w, {"1"});
    assert [u] + [w] == [u, w] == [u, w, v][..2];
    FetchNext(g, {}, [u], v, {"1"});
    assert [u] + [v] == [u, v] && {"1"} + {"2"} == {"1", "2"};
    FetchNext(g, {}, [u, v], w, {"1", "2"});
    assert [u, v] + [w] == [u, v, w] && {"1", "2"} + {"3"} == {"1", "2", "3"};
  }

  // ------------------------------------------------------------ one branch

  lemma {:induction false} MergeNext(seen: seq<string>, uris: seq<string>, uri: string)
    ensures Merge(seen, uris + [uri]) ==
      var before := Merge(seen, uris); if uri in before then before else before + [uri]
  {
    assert (uris + [uri])[..|uris|] == uris;
  }

  /** Leaving out repetitions leaves every base where it was needed. */
  lemma {:induction false} MergedBases(g: Git, have: set<string>, uris: seq<string>)
    requires BasesMet(g, have, uris)
    ensures BasesMet(g, have, Merge([], uris)) && Objects(g, Merge([], uris)) == Objects(g, uris)
  {
    if uris != [] {
      var n := |uris| - 1;
      var before, uri := Merge([], uris[..n]), uris[n];
      assert uris == uris[..n] + [uri];
      BasesNext(g, have, uris[..n], uri);
      MergedBases(g, have, uris[..n]);
      MergeNext([], uris[..n], uri);
      if uri in before {
        forall o | o in g.stored(uri).objects ensures o in Objects(g, before) {
          var k :| 0 <= k < |before| && before[k] == uri;
          assert Holds(g, before, o);
          ObjectsHold(g, before, o);
        }
      } else {
        BasesNext(g, have, before, uri);
        assert (before + [uri])[..|before|] == before;
      }
    }
  }

  lemma {:induction false} MergeAgain(uris: seq<string>)
    requires NoRepeat(uris)
    ensures Merge([], uris) == uris
  {
    if uris != [] {
      var n := |uris| - 1;
      MergeAgain(uris[..n]);
      assert uris[n] !in uris[..n];
    }
  }

  /** The list of the only branch is the uploads without repetitions. */
  ghost predicate Single(refs: Refs, uploads: seq<string>, branch: string) {
    (forall name :: name in refs ==> name == branch) && ListOf(refs, branch) == Merge([], uploads) &&
    (uploads != [] ==> branch in refs)
  }

  ghost predicate SingleStretch(refs: Refs, uploads: seq<string>, n: nat, branch: string) {
    n <= |uploads| && Single(refs, uploads[..n], branch)
  }

  ghost predicate SingleShown(refs: Refs, uploads: seq<string>, branch: string) {
    exists n: nat :: SingleStretch(refs, uploads, n, branch)
  }

  ghost predicate SingleBranch(sys: System, branch: string) {
    Single(sys.refs, sys.uploads, branch) && forall client :: SingleShown(CacheOf(sys, client), sys.uploads, branch)
  }

  lemma {:induction false} SingleLater(refs: Refs, uploads: seq<string>, more: seq<string>, branch: string)
    requires SingleShown(refs, uploads, branch)
    ensures SingleShown(refs, uploads + more, branch)
  {
    var n: nat :| SingleStretch(refs, uploads, n, branch);
    assert (uploads + more)[..n] == uploads[..n];
    assert SingleStretch(refs, uploads + more, n, branch);
  }

  lemma {:induction false} AppendKnown(list: seq<string>, uris: seq<string>)
    requires forall u :: u in uris ==> u in list
    ensures AppendNew(list, uris) == Some(list)
  {
    if uris != [] {
      var n := |uris| - 1;
      assert uris[n] in uris;
      AppendKnown(list, uris[..n]);
    }
  }

  lemma {:induction false} MergedWithin(uris: seq<string>)
    ensures (forall u :: u in Merge([], uris) <==> u in uris) && NoRepeat(Merge([], uris))
  {
    MergeIs([], uris);
  }

  /** The list after a push of one new pack. */
  lemma {:induction false} SinglePush(refs: Refs, uploads: seq<string>, branch: string, tip: string, uri: string,
      expected: string)
    requires Single(refs, uploads, branch) && UpdateRef(refs, branch, tip, [uri], expected, false).Some?
    ensures Single(UpdateRef(refs, branch, tip, [uri], expected, false).value, uploads + [uri], branch)
  {
    MergeNext([], uploads, uri);
    MergedWithin(uploads);
    var list := ListOf(refs, branch);
    if branch in refs {
      assert [uri][..0] == [];
      assert AppendNew(list, []) == Some(list);
      assert list == [] ==> [] + [uri] == [uri];
    } else {
      assert uploads == [];
      assert [] + [uri] == [uri];
    }
  }

  /** A push that sends its list again leaves it as it is. */
  lemma {:induction false} SingleKept(refs: Refs, uploads: seq<string>, cache: Refs, branch: string, tip: string,
      expected: string)
    requires Single(refs, uploads, branch) && SingleShown(cache, uploads, branch) && branch in cache
    requires cache[branch].uris != []
    requires UpdateRef(refs, branch, tip, cache[branch].uris, expected, false).Some?
    ensures Single(UpdateRef(refs, branch, tip, cache[branch].uris, expected, false).value, uploads, branch)
  {
    var n: nat :| SingleStretch(cache, uploads, n, branch);
    MergedWithin(uploads[..n]);
    MergedWithin(uploads);
    forall u | u in cache[branch].uris ensures u in ListOf(refs, branch) { assert u in uploads[..n]; }
    assert cache[branch].uris[0] in ListOf(refs, branch);
    AppendKnown(ListOf(refs, branch), cache[branch].uris);
  }

  lemma {:induction false} SingleNext(g: Git, sys: System, e: Event, branch: string)
    requires SingleBranch(sys, branch) && Ordinary(e) && (e.PushRef? ==> e.spec.dst == branch)
    ensures SingleBranch(Next(g, sys, e), branch)
  {
    var after := Next(g, sys, e);
    if e.ListRefs? {
      assert sys.uploads[..|sys.uploads|] == sys.uploads;
      assert SingleStretch(sys.refs, sys.uploads, |sys.uploads|, branch);
      forall client ensures SingleShown(CacheOf(after, client), after.uploads, branch) {
        assert client != e.client ==> CacheOf(after, client) == CacheOf(sys, client);
      }
    } else {
      var cache := CacheOf(sys, e.client);
      assert SingleShown(cache, sys.uploads, branch);
      if Push(g, sys.refs, cache, e.spec, e.local, e.uri).Some? {
        if KeepsList(g, cache, e.spec, e.local) {
          SingleKept(sys.refs, sys.uploads, cache, branch, e.spec.tip, ExpectedTip(cache, branch));
          assert after.uploads == sys.uploads;
        } else {
          SinglePush(sys.refs, sys.uploads, branch, e.spec.tip, e.uri, ExpectedTip(cache, branch));
        }
      }
      forall client ensures SingleShown(CacheOf(after, client), after.uploads, branch) {
        assert CacheOf(after, client) == CacheOf(sys, client);
        SingleLater(CacheOf(sys, client), sys.uploads, [e.uri], branch);
      }
    }
  }

  lemma {:induction false} SingleRun(g: Git, events: seq<Event>, branch: string)
    requires OrdinaryRun(g, events)
    requires forall i :: 0 <= i < |events| && events[i].PushRef? ==> events[i].spec.dst == branch
    ensures SingleBranch(Run(g, Empty(), events), branch)
  {
    if events == [] {
      forall client
        ensures SingleShown(CacheOf(Empty(), client), [], branch)
      {
        assert SingleStretch(map[], [], 0, branch);
      }
    } else {
      var n := |events| - 1;
      SingleRun(g, events[..n], branch);
      SingleNext(g, Run(g, Empty(), events[..n]), events[n], branch);
    }
  }

  /** As long as all pushes go to one branch, collection order is upload order, and fetching it
      from any listing, however stale, always succeeds. */
  lemma {:induction false} OneBranchFetches(g: Git, events: seq<Event>, branch: string, client: nat, have: set<string>)
    requires OrdinaryRun(g, events)
    requires forall i :: 0 <= i < |events| && events[i].PushRef? ==> events[i].spec.dst == branch
    requires branch in CacheOf(Run(g, Empty(), events), client)
    ensures Fetch(Online(g), have, Needed(CacheOf(Run(g, Empty(), events), client), [branch])).Some?
  {
    SingleRun(g, events, branch);
    OrdinaryTraced(g, events);
    var sys := Run(g, Empty(), events);
    var cache := CacheOf(sys, client);
    assert SingleShown(cache, sys.uploads, branch);
    var n: nat :| SingleStretch(cache, sys.uploads, n, branch);
    BasesPrefix(g, have, sys.uploads, n);
    MergedBases(g, have, sys.uploads[..n]);
    MergedWithin(sys.uploads[..n]);
    assert [branch][..0] == [];
    MergeAgain(cache[branch].uris);
    FetchIff(g, have, Needed(cache, [branch]));
  }
}
