/** Fork parents: cycle detection by depth-first search, fork depth with a memo,
    and the import order that puts every parent before its forks. */
module ForkLineage {
  import opened Order
  import opened Digits

  /** Repository id to the id it was forked from; the empty string is no parent. */
  type Parents = map<string, string>

  /** Every parent is a repository, and no repository has the empty id. */
  predicate Closed(p: Parents) {
    "" !in p && forall id :: id in p ==> p[id] == "" || p[id] in p
  }

  function Parent(p: Parents, id: string): string { if id in p then p[id] else "" }

  /** The `n`-th ancestor; past the root there is only the empty string. */
  function Ancestor(p: Parents, id: string, n: nat): string
    decreases n
  {
    if n == 0 then id else Ancestor(p, Parent(p, id), n - 1)
  }

  /** No repository is its own proper ancestor. */
  ghost predicate Acyclic(p: Parents) {
    forall id, n: nat :: id in p && n >= 1 ==> Ancestor(p, id, n) != id
  }

  ghost predicate Ends(p: Parents, id: string) { exists n: nat :: Ancestor(p, id, n) == "" }

  // ------------------------------------------------------------ ancestors

  lemma {:induction false} AncestorCompose(p: Parents, id: string, m: nat, n: nat)
    ensures Ancestor(p, id, m + n) == Ancestor(p, Ancestor(p, id, m), n)
    decreases m
  {
    if m > 0 { AncestorCompose(p, Parent(p, id), m - 1, n); }
  }

  lemma {:induction false} EmptyStays(p: Parents, n: nat)
    requires "" !in p
    ensures Ancestor(p, "", n) == ""
  {
    if n > 0 { EmptyStays(p, n - 1); }
  }

  lemma {:induction false} CycleRepeats(p: Parents, id: string, n: nat, k: nat)
    requires Ancestor(p, id, n) == id
    ensures Ancestor(p, id, k * n) == id
  {
    if k == 0 {
      assert k * n == 0;
    } else {
      CycleRepeats(p, id, n, k - 1);
      assert k * n == (k - 1) * n + n;
      AncestorCompose(p, id, (k - 1) * n, n);
    }
  }

  /** A chain that reaches a root passes no repository twice. */
  lemma {:induction false} EndsNoCycle(p: Parents, id: string, n: nat)
    requires "" !in p && id in p && Ends(p, id) && n >= 1
    ensures Ancestor(p, id, n) != id
  {
    var m: nat :| Ancestor(p, id, m) == "";
    if Ancestor(p, id, n) == id {
      CycleRepeats(p, id, n, m);
      assert m * n >= m;
      AncestorCompose(p, id, m, m * n - m);
      EmptyStays(p, m * n - m);
    }
  }

  lemma {:induction false} ParentEnds(p: Parents, id: string)
    requires "" !in p && id in p
    ensures Ends(p, id) <==> p[id] == "" || Ends(p, p[id])
  {
    if Ends(p, id) {
      var n: nat :| Ancestor(p, id, n) == "";
      assert n > 0;
      assert Ancestor(p, p[id], n - 1) == "";
    }
    if p[id] == "" {
      assert Ancestor(p, id, 1) == Ancestor(p, "", 0) == "";
    } else if Ends(p, p[id]) {
      var n: nat :| Ancestor(p, p[id], n) == "";
      assert Ancestor(p, id, n + 1) == "";
    }
  }

  // ------------------------------------------------------ cycle detection

  /** `visitFork`: the visited set after exploring `id`, or nothing if it met a cycle. */
  function Visit(p: Parents, id: string, visiting: set<string>, visited: set<string>): Option<set<string>>
    requires Closed(p) && id in p && visiting <= p.Keys
    decreases p.Keys - visiting
  {
    if id in visiting then None
    else if id in visited then Some(visited)
    else if p[id] == "" then Some(visited + {id})
    else
      var explored :- Visit(p, p[id], visiting + {id}, visited);
      Some(explored + {id})
  }

  ghost predicate AllEnd(p: Parents, ids: set<string>) { forall id :: id in ids ==> id in p && Ends(p, id) }

  lemma {:induction false} VisitSound(p: Parents, id: string, visiting: set<string>, visited: set<string>)
    requires Closed(p) && id in p && visiting <= p.Keys && AllEnd(p, visited)
    requires Visit(p, id, visiting, visited).Some?
    ensures AllEnd(p, Visit(p, id, visiting, visited).value)
    ensures visited + {id} <= Visit(p, id, visiting, visited).value
    decreases p.Keys - visiting
  {
    if id !in visited {
      if p[id] != "" { VisitSound(p, p[id], visiting + {id}, visited); }
      ParentEnds(p, id);
    }
  }

  /** Everything on the current path leads to `id`. */
  ghost predicate OnPath(p: Parents, visiting: set<string>, id: string) {
    forall v :: v in visiting ==> exists n: nat :: n >= 1 && Ancestor(p, v, n) == id
  }

  lemma {:induction false} PathExtends(p: Parents, visiting: set<string>, id: string)
    requires id in p && OnPath(p, visiting, id)
    ensures OnPath(p, visiting + {id}, p[id])
  {
    forall v | v in visiting + {id} ensures exists n: nat :: n >= 1 && Ancestor(p, v, n) == p[id] {
      if v in visiting {
        var n: nat :| n >= 1 && Ancestor(p, v, n) == id;
        AncestorCompose(p, v, n, 1);
        assert Ancestor(p, id, 1) == Ancestor(p, p[id], 0);
        assert Ancestor(p, v, n + 1) == p[id];
      } else {
        assert Ancestor(p, v, 1) == Ancestor(p, p[id], 0) == p[id];
      }
    }
  }

  lemma {:induction false} VisitFindsCycle(p: Parents, id: string, visiting: set<string>, visited: set<string>)
    requires Closed(p) && id in p && visiting <= p.Keys && OnPath(p, visiting, id)
    requires Visit(p, id, visiting, visited).None?
    ensures !Acyclic(p)
    decreases p.Keys - visiting
  {
    if id in visiting {
      var n: nat :| n >= 1 && Ancestor(p, id, n) == id;
    } else {
      PathExtends(p, visiting, id);
      VisitFindsCycle(p, p[id], visiting + {id}, visited);
    }
  }

  /** The loop over all repositories, in whatever order the map yields them. */
  function VisitAll(p: Parents, ids: seq<string>, n: nat): Option<set<string>>
    requires Closed(p) && n <= |ids| && forall i :: 0 <= i < |ids| ==> ids[i] in p
  {
    if n == 0 then Some({}) else
    var visited :- VisitAll(p, ids, n - 1);
    Visit(p, ids[n - 1], {}, visited)
  }

  lemma {:induction false} VisitAllSound(p: Parents, ids: seq<string>, n: nat)
    requires Closed(p) && n <= |ids| && forall i :: 0 <= i < |ids| ==> ids[i] in p
    ensures VisitAll(p, ids, n).Some? ==>
      AllEnd(p, VisitAll(p, ids, n).value) && forall i :: 0 <= i < n ==> ids[i] in VisitAll(p, ids, n).value
    ensures VisitAll(p, ids, n).None? ==> !Acyclic(p)
  {
    if n > 0 {
      VisitAllSound(p, ids, n - 1);
      var before := VisitAll(p, ids, n - 1);
      if before.Some? {
        if Visit(p, ids[n - 1], {}, before.value).Some? {
          VisitSound(p, ids[n - 1], {}, before.value);
        } else {
          VisitFindsCycle(p, ids[n - 1], {}, before.value);
        }
      }
    }
  }

  ghost predicate Lists(p: Parents, ids: seq<string>) { Distinct(ids) && forall id :: id in ids <==> id in p }

  lemma {:induction false} AcyclicIffEnds(p: Parents)
    requires "" !in p && forall id :: id in p ==> Ends(p, id)
    ensures Acyclic(p)
  {
    forall id, n: nat | id in p && n >= 1 ensures Ancestor(p, id, n) != id { EndsNoCycle(p, id, n); }
  }

  /** The search accepts exactly the acyclic parent relations, whatever the iteration order. */
  lemma {:induction false} VisitAcceptsAcyclic(p: Parents, ids: seq<string>)
    requires Closed(p) && Lists(p, ids)
    ensures VisitAll(p, ids, |ids|).Some? <==> Acyclic(p)
    ensures Acyclic(p) ==> forall id :: id in p ==> Ends(p, id)
  {
    VisitAllSound(p, ids, |ids|);
    if VisitAll(p, ids, |ids|).Some? {
      forall id | id in p ensures Ends(p, id) { assert id in ids; }
      AcyclicIffEnds(p);
    }
  }

  // ------------------------------------------------------------ fork depth

  ghost predicate IsRank(p: Parents, id: string, n: nat) {
    Ancestor(p, id, n) == "" && forall m: nat :: m < n ==> Ancestor(p, id, m) != ""
  }

  lemma {:induction false} RankExists(p: Parents, id: string, n: nat)
    requires Ancestor(p, id, n) == ""
    ensures exists m: nat :: IsRank(p, id, m)
    decreases n
  {
    if m: nat :| m < n && Ancestor(p, id, m) == "" {
      RankExists(p, id, m);
    } else {
      assert IsRank(p, id, n);
    }
  }

  /** The number of ancestors, the root itself not counted. */
  ghost function Depth(p: Parents, id: string): (d: nat)
    requires id != "" && Ends(p, id)
    ensures IsRank(p, id, d + 1)
  {
    var n: nat :| Ancestor(p, id, n) == "";
    RankExists(p, id, n);
    var m: nat :| IsRank(p, id, m);
    assert m != 0;
    m - 1
  }

  lemma {:induction false} RankUnique(p: Parents, id: string, m: nat, n: nat)
    requires IsRank(p, id, m) && IsRank(p, id, n)
    ensures m == n
  {
    assert !(m < n) && !(n < m);
  }

  lemma {:induction false} DepthStep(p: Parents, id: string)
    requires Closed(p) && id in p && Ends(p, id)
    ensures p[id] == "" ==> Depth(p, id) == 0
    ensures p[id] != "" ==> Ends(p, p[id]) && Depth(p, id) == Depth(p, p[id]) + 1
  {
    ParentEnds(p, id);
    if p[id] == "" {
      assert Ancestor(p, id, 1) == Ancestor(p, "", 0) == "";
      assert IsRank(p, id, 1);
      RankUnique(p, id, 1, Depth(p, id) + 1);
    } else {
      var d := Depth(p, p[id]);
      forall m: nat | m < d + 2 ensures Ancestor(p, id, m) != "" {
        if m > 0 { assert Ancestor(p, id, m) == Ancestor(p, p[id], m - 1); }
      }
      assert Ancestor(p, id, d + 2) == Ancestor(p, p[id], d + 1) == "";
      RankUnique(p, id, d + 2, Depth(p, id) + 1);
    }
  }

  ghost predicate MemoCorrect(p: Parents, memo: map<string, nat>) {
    forall id :: id in memo ==> id != "" && id in p && Ends(p, id) && memo[id] == Depth(p, id)
  }

  /** `forkDepth`: terminates on every accepted lineage. */
  method ForkDepth(p: Parents, id: string, memo: map<string, nat>) returns (d: nat, memo': map<string, nat>)
    requires Closed(p) && id in p && Ends(p, id) && MemoCorrect(p, memo)
    ensures d == Depth(p, id) && MemoCorrect(p, memo') && id in memo' && memo.Keys <= memo'.Keys
    decreases Depth(p, id)
  {
    if id in memo { return memo[id], memo; }
    DepthStep(p, id);
    var parent := p[id];
    if parent == "" { return 0, memo[id := 0]; }
    d, memo' := ForkDepth(p, parent, memo);
    d := d + 1;
    memo' := memo'[id := d];
  }

  // ------------------------------------------------------------ import order

  function DepthIn(depth: map<string, nat>, id: string): nat { if id in depth then depth[id] else 0 }

  predicate LessAt(depth: map<string, nat>, a: string, b: string) {
    if DepthIn(depth, a) != DepthIn(depth, b) then DepthIn(depth, a) < DepthIn(depth, b) else StrLess(a, b)
  }

  function LineageLess(depth: map<string, nat>): (string, string) -> bool { (a, b) => LessAt(depth, a, b) }

  lemma {:induction false} LineageOrder(depth: map<string, nat>)
    ensures WeakOrder(LineageLess(depth))
    ensures forall a, b :: a == b || LineageLess(depth)(a, b) || LineageLess(depth)(b, a)
  {
    StringOrder();
    var less := LineageLess(depth);
    forall a, b, c | less(a, b) && less(b, c) ensures less(a, c) {}
    forall a, b, c | less(a, c) ensures less(a, b) || less(b, c) {}
  }

  ghost function DepthMap(p: Parents): map<string, nat>
    requires forall id :: id in p ==> id != "" && Ends(p, id)
  {
    map id | id in p :: Depth(p, id)
  }

  ghost function Ordered(p: Parents, ids: seq<string>): seq<string>
    requires Closed(p) && forall id :: id in p ==> Ends(p, id)
  {
    SortBy(ids, LineageLess(DepthMap(p)))
  }

  lemma {:induction false} SortStrict(p: Parents, ids: seq<string>)
    requires Closed(p) && Lists(p, ids) && forall id :: id in p ==> Ends(p, id)
    ensures StrictlySorted(Ordered(p, ids), LineageLess(DepthMap(p)))
    ensures forall id :: id in Ordered(p, ids) <==> id in p
  {
    var less, s := LineageLess(DepthMap(p)), Ordered(p, ids);
    LineageOrder(DepthMap(p));
    SortBySorts(ids, less);
    forall id ensures id in s <==> id in p {
      assert id in s <==> id in multiset(s);
      assert id in ids <==> id in multiset(ids);
    }
    forall i, j | 0 <= i < j < |s| ensures less(s[i], s[j]) || less(s[j], s[i]) {
      DuplicateCount(s, i, j);
      OccursOnce(ids, s[i]);
    }
    SortedDistinctIsStrict(s, less);
  }

  /** By depth, and within a depth by id. */
  lemma {:induction false} OrderedIs(p: Parents, ids: seq<string>, i: nat, j: nat)
    requires Closed(p) && Lists(p, ids) && (forall id :: id in p ==> Ends(p, id)) && i < j < |Ordered(p, ids)|
    ensures var a, b := Ordered(p, ids)[i], Ordered(p, ids)[j];
      a in p && b in p && (Depth(p, a) < Depth(p, b) || (Depth(p, a) == Depth(p, b) && StrLess(a, b)))
  {
    SortStrict(p, ids);
    assert LineageLess(DepthMap(p))(Ordered(p, ids)[i], Ordered(p, ids)[j]);
  }

  ghost predicate Precedes(id: string, s: seq<string>, i: nat) { exists j :: 0 <= j < i && j < |s| && s[j] == id }

  ghost predicate ParentsPrecede(p: Parents, s: seq<string>) {
    forall i: nat :: i < |s| && s[i] in p && p[s[i]] != "" ==> Precedes(p[s[i]], s, i)
  }

  /** In the import stream every fork comes strictly after the repository it was forked from. */
  lemma {:induction false} ParentsFirst(p: Parents, ids: seq<string>, i: nat)
    requires Closed(p) && Lists(p, ids) && (forall id :: id in p ==> Ends(p, id))
    requires i < |Ordered(p, ids)| && Ordered(p, ids)[i] in p && p[Ordered(p, ids)[i]] != ""
    ensures Precedes(p[Ordered(p, ids)[i]], Ordered(p, ids), i)
  {
    var s := Ordered(p, ids);
    SortStrict(p, ids);
    var child := s[i];
    assert p[child] in s;
    var j :| 0 <= j < |s| && s[j] == p[child];
    DepthStep(p, child);
    if i < j { OrderedIs(p, ids, i, j); }
  }

  /** The import order depends only on the repositories, not on how the snapshot lists them. */
  lemma {:induction false} OrderCanonical(p: Parents, ids: seq<string>, other: seq<string>)
    requires Closed(p) && Lists(p, ids) && Lists(p, other) && forall id :: id in p ==> Ends(p, id)
    ensures Ordered(p, ids) == Ordered(p, other)
  {
    SortStrict(p, ids);
    SortStrict(p, other);
    LineageOrder(DepthMap(p));
    SortedUnique(Ordered(p, ids), Ordered(p, other), LineageLess(DepthMap(p)));
  }

  /** `snapshotModuleRecords`, repository part: depths by memo, then the depth/id sort. */
  method ImportOrder(p: Parents, ids: seq<string>) returns (sorted: seq<string>)
    requires Closed(p) && Lists(p, ids) && Acyclic(p)
    ensures forall id :: id in p ==> Ends(p, id)
    ensures ParentsPrecede(p, sorted) && multiset(sorted) == multiset(ids)
    ensures forall other :: Lists(p, other) ==> sorted == Ordered(p, other)
  {
    VisitAcceptsAcyclic(p, ids);
    var memo: map<string, nat> := map[];
    for i := 0 to |ids|
      invariant MemoCorrect(p, memo) && forall k :: 0 <= k < i ==> ids[k] in memo
    {
      var d;
      assert ids[i] in ids;
      d, memo := ForkDepth(p, ids[i], memo);
    }
    assert memo == DepthMap(p) by {
      forall id ensures id in memo <==> id in p { assert id in ids <==> id in p; }
    }
    sorted := SortBy(ids, LineageLess(memo));
    assert sorted == Ordered(p, ids);
    LineageOrder(memo);
    SortBySorts(ids, LineageLess(memo));
    forall i: nat | i < |sorted| && sorted[i] in p && p[sorted[i]] != "" ensures Precedes(p[sorted[i]], sorted, i) {
      ParentsFirst(p, ids, i);
    }
    forall other | Lists(p, other) ensures sorted == Ordered(p, other) { OrderCanonical(p, ids, other); }
  }

  // ------------------------------------------------------------ the checks

  datatype Record = Record(id: string, forkedFrom: string)

  ghost predicate Indexed(records: seq<Record>) {
    forall i, j :: 0 <= i < j < |records| ==> records[i].id != records[j].id
  }

  ghost predicate Named(records: seq<Record>, id: string) { exists i :: 0 <= i < |records| && records[i].id == id }

  /** `p` holds the records and nothing else. */
  ghost predicate Describes(p: Parents, records: seq<Record>) {
    && (forall i :: 0 <= i < |records| ==> records[i].id in p && p[records[i].id] == records[i].forkedFrom)
    && (forall id :: id in p ==> Named(records, id))
  }

  /** The lineage part of a valid snapshot, in terms of the records alone. */
  ghost predicate LineageValid(records: seq<Record>) {
    && Indexed(records)
    && exists p :: Describes(p, records) && Closed(p) && Acyclic(p)
  }

  lemma {:induction false} DescribesUnique(p: Parents, q: Parents, records: seq<Record>)
    requires Describes(p, records) && Describes(q, records)
    ensures p == q
  {
    forall id ensures id in p <==> id in q {
      assert Named(records, id) ==> id in p && id in q;
    }
    forall id | id in p ensures p[id] == q[id] {
      assert Named(records, id);
    }
  }

  /** The search's two mutable maps. */
  class Visitor {
    const parents: Parents
    var visiting: set<string>
    var visited: set<string>

    constructor (parents: Parents)
      ensures this.parents == parents && visiting == {} && visited == {}
    {
      this.parents := parents;
      visiting, visited := {}, {};
    }

    /** `visitFork`: on success the path is restored and the visited set is the specified one. */
    method VisitFork(id: string) returns (ok: bool)
      requires Closed(parents) && id in parents && visiting <= parents.Keys
      modifies this
      ensures ok <==> Visit(parents, id, old(visiting), old(visited)).Some?
      ensures ok ==> visiting == old(visiting) && Some(visited) == Visit(parents, id, old(visiting), old(visited))
      decreases parents.Keys - visiting
    {
      if id in visiting { return false; }
      if id in visited { return true; }
      visiting := visiting + {id};
      if parents[id] != "" {
        ok := VisitFork(parents[id]);
        if !ok { return; }
      }
      visiting := visiting - {id};
      visited := visited + {id};
      return true;
    }
  }

  ghost predicate Reaches(p: Parents, ids: seq<string>, n: nat, visited: set<string>)
    requires Closed(p) && n <= |ids| && forall i :: 0 <= i < |ids| ==> ids[i] in p
  {
    VisitAll(p, ids, n) == Some(visited)
  }

  lemma {:induction false} ReachesNext(p: Parents, ids: seq<string>, n: nat, visited: set<string>)
    requires Closed(p) && n < |ids| && (forall i :: 0 <= i < |ids| ==> ids[i] in p) && Reaches(p, ids, n, visited)
    ensures var r := Visit(p, ids[n], {}, visited); if r.Some? then Reaches(p, ids, n + 1, r.value) else !Acyclic(p)
  {
    VisitAllSound(p, ids, n + 1);
  }

  /** The loop that starts a search at every repository. */
  method CheckCycles(p: Parents, ids: seq<string>) returns (ok: bool)
    requires Closed(p) && Lists(p, ids)
    ensures ok <==> Acyclic(p)
  {
    forall i | 0 <= i < |ids| ensures ids[i] in p { assert ids[i] in ids; }
    var visitor := new Visitor(p);
    for n := 0 to |ids|
      invariant fresh(visitor) && visitor.parents == p && visitor.visiting == {}
      invariant Reaches(p, ids, n, visitor.visited)
    {
      ReachesNext(p, ids, n, visitor.visited);
      var accepted := visitor.VisitFork(ids[n]);
      if !accepted { return false; }
    }
    VisitAcceptsAcyclic(p, ids);
    return true;
  }

  lemma {:induction false} DescribesNext(p: Parents, records: seq<Record>, i: nat)
    requires i < |records| && Describes(p, records[..i]) && records[i].id !in p
    ensures Describes(p[records[i].id := records[i].forkedFrom], records[..i + 1])
  {
    var q, longer := p[records[i].id := records[i].forkedFrom], records[..i + 1];
    forall k | 0 <= k < |longer| ensures longer[k].id in q && q[longer[k].id] == longer[k].forkedFrom {
      if k < i { assert records[..i][k] == longer[k]; }
    }
    forall id | id in q ensures Named(longer, id) {
      if id == records[i].id {
        assert longer[i].id == id;
      } else {
        assert Named(records[..i], id);
        var k :| 0 <= k < i && records[..i][k].id == id;
        assert longer[k].id == id;
      }
    }
  }

  lemma {:induction false} IndexedNext(p: Parents, records: seq<Record>, i: nat)
    requires i < |records| && Describes(p, records[..i]) && Indexed(records[..i])
    ensures if records[i].id in p then !Indexed(records) else Indexed(records[..i + 1])
  {
    if records[i].id in p {
      assert Named(records[..i], records[i].id);
      var k :| 0 <= k < i && records[..i][k].id == records[i].id;
      assert records[k].id == records[i].id;
    } else {
      forall j, k | 0 <= j < k < i + 1 ensures records[j].id != records[k].id {
        assert records[..i][j].id in p;
        if k < i { assert records[..i][k].id != records[..i][j].id; }
      }
    }
  }

  /** The first repository loop: ids are present and distinct. */
  method IndexRecords(records: seq<Record>) returns (r: Option<Parents>)
    ensures r.Some? ==> Indexed(records) && Describes(r.value, records) && "" !in r.value
    ensures r.None? ==> !Indexed(records) || exists i :: 0 <= i < |records| && records[i].id == ""
  {
    var repos: Parents := map[];
    for i := 0 to |records|
      invariant Indexed(records[..i]) && Describes(repos, records[..i]) && "" !in repos
    {
      if records[i].id == "" { return None; }
      IndexedNext(repos, records, i);
      if records[i].id in repos { return None; }
      DescribesNext(repos, records, i);
      repos := repos[records[i].id := records[i].forkedFrom];
    }
    assert records[..|records|] == records;
    return Some(repos);
  }

  /** The second repository loop: parents exist and no repository forks itself. */
  method CheckParents(repos: Parents, records: seq<Record>) returns (ok: bool)
    requires Describes(repos, records) && "" !in repos
    ensures ok ==> Closed(repos)
    ensures !ok ==> !Closed(repos) || !Acyclic(repos)
  {
    for i := 0 to |records|
      invariant forall k :: 0 <= k < i ==> records[k].forkedFrom == "" || records[k].forkedFrom in repos
    {
      if records[i].forkedFrom != "" {
        if records[i].forkedFrom == records[i].id {
          assert Ancestor(repos, records[i].id, 1) == Ancestor(repos, records[i].id, 0);
          return false;
        }
        if records[i].forkedFrom !in repos { return false; }
      }
    }
    forall id | id in repos ensures repos[id] == "" || repos[id] in repos { assert Named(records, id); }
    return true;
  }

  /** The lineage checks of `validateSnapshot`; `order` gives the order in which the search
      iterates the repository map. */
  method CheckLineage(records: seq<Record>, order: Parents -> seq<string>) returns (ok: bool)
    requires forall p :: Closed(p) ==> Lists(p, order(p))
    ensures ok <==> LineageValid(records)
  {
    var repos := IndexRecords(records);
    if repos.None? { return false; }
    forall p | Describes(p, records) ensures p == repos.value { DescribesUnique(p, repos.value, records); }
    ok := CheckParents(repos.value, records);
    if ok { ok := CheckCycles(repos.value, order(repos.value)); }
  }
}
