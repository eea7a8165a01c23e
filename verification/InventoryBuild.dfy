/** Building an inventory from evidence pages, and what the result is worth:
    it passes the validator, and paging and transaction order do not matter. */
module InventoryBuild {
  import opened Order
  import opened Digits
  import opened Evidence
  import opened Replay
  import opened ReplayInvariants
  import opened InventoryValidation

  // ------------------------------------------------------------ specification

  function Flatten(pages: seq<Page>): seq<Tx> {
    if pages == [] then [] else Flatten(pages[..|pages| - 1]) + pages[|pages| - 1].txs
  }

  /** `decodeTxSearch`: every page repeats the exact query and the same total. */
  function Decode(c: Context, pages: seq<Page>): Option<seq<Tx>> {
    if pages == [] then None else
    if exists i :: 0 <= i < |pages| && !PageValid(c, pages[i], pages[0].totalCount) then None else
    if |Flatten(pages)| != pages[0].totalCount then None else Some(Flatten(pages))
  }

  predicate PageValid(c: Context, page: Page, total: nat) {
    page.query == ExpectedQuery(c.contract, c.cutover) && page.totalCount == total &&
    forall i :: 0 <= i < |page.txs| ==> ValidTx(page.txs[i])
  }

  predicate Quotable(contract: string) {
    forall i :: 0 <= i < |contract| ==> contract[i] !in {'\'', '"', ' ', '\\', '\t', '\r', '\n'}
  }

  predicate SourceGiven(c: Context) {
    c.chainId != "" && c.contract != "" && c.cutover != 0 && Quotable(c.contract) && c.evidence.blocks != map[]
  }

  predicate CutoverProved(c: Context) {
    c.cutover in c.evidence.blocks && c.evidence.blocks[c.cutover].chainId == c.chainId
  }

  function Heights(txs: seq<Tx>): set<nat> {
    set i | 0 <= i < |txs| :: txs[i].height
  }

  function Required(c: Context, txs: seq<Tx>): set<nat> { Heights(txs) + {c.cutover} }

  function Canonical(r: Repository): Repository { r.(aliases := SortBy(r.aliases, StrLess)) }

  function Records(s: State): set<Repository> {
    set id | id in s.repositories :: Canonical(s.repositories[id])
  }

  function Owners(s: State): set<string> {
    set id | id in s.repositories :: s.repositories[id].owner
  }

  function Usernames(s: State): set<Username> {
    set name | name in s.usernameByName :: Username(name, s.usernameByName[name])
  }

  function BlocksAt(heights: seq<nat>, blocks: map<nat, Block>): seq<InventoryBlock>
    requires forall h :: h in heights ==> h in blocks
  {
    seq(|heights|, i requires 0 <= i < |heights| =>
      InventoryBlock(heights[i], blocks[heights[i]].hash, blocks[heights[i]].timestamp))
  }

  lemma {:induction false} RecordsComparable(s: State)
    requires RecordsComplete(s)
    ensures WeakOrder(RepositoryLess) && TotalOn(Records(s), RepositoryLess)
  {
    RepositoryOrder();
    forall x, y | x in Records(s) && y in Records(s) ensures x == y || RepositoryLess(x, y) || RepositoryLess(y, x) {
      var i :| i in s.repositories && x == Canonical(s.repositories[i]);
      var j :| j in s.repositories && y == Canonical(s.repositories[j]);
      assert x.identity == i && y.identity == j;
    }
  }

  lemma {:induction false} UsernamesComparable(s: State)
    ensures WeakOrder(UsernameLess) && TotalOn(Usernames(s), UsernameLess)
  {
    UsernameOrder();
  }

  lemma {:induction false} NatsComparable(n: set<nat>)
    ensures WeakOrder(NatLess) && TotalOn(n, NatLess)
  {
  }

  ghost function Assemble(c: Context, s: State, source: HexDigest, scanned: nat, heights: set<nat>): Inventory
    requires RecordsComplete(s) && heights <= c.evidence.blocks.Keys && CutoverProved(c)
  {
    RecordsComparable(s);
    UsernamesComparable(s);
    NatsComparable(heights);
    NatsComparable(s.reports);
    Inventory(
      INVENTORY_SCHEMA, c.chainId, c.contract, c.cutover, c.evidence.blocks[c.cutover].hash,
      ExpectedQuery(c.contract, c.cutover), source, c.evidence.sha256, s.commitment,
      scanned, s.successfulTxs, BlocksAt(Enumeration(heights, NatLess), c.evidence.blocks),
      Enumeration(Records(s), RepositoryLess), SortedStrings(Owners(s)), Enumeration(s.reports, NatLess),
      s.moderation, Enumeration(Usernames(s), UsernameLess), SortedStrings(s.recipients), SortedStrings(s.releases))
  }

  lemma {:induction false} FlattenValid(c: Context, pages: seq<Page>, total: nat)
    requires forall i :: 0 <= i < |pages| ==> PageValid(c, pages[i], total)
    ensures forall i :: 0 <= i < |Flatten(pages)| ==> ValidTx(Flatten(pages)[i])
  {
    if pages != [] { FlattenValid(c, pages[..|pages| - 1], total); }
  }

  lemma {:induction false} SortedLog(c: Context, pages: seq<Page>)
    requires Decode(c, pages).Some?
    ensures var txs := Decode(c, pages).value;
            ValidLog(SortBy(txs, TxLess)) && multiset(SortBy(txs, TxLess)) == multiset(txs) &&
            |SortBy(txs, TxLess)| == |txs|
  {
    var txs := Decode(c, pages).value;
    FlattenValid(c, pages, pages[0].totalCount);
    TxOrder();
    SortBySorts(txs, TxLess);
    var sorted := SortBy(txs, TxLess);
    assert |sorted| == |multiset(sorted)| == |multiset(txs)| == |txs|;
    forall i | 0 <= i < |sorted| ensures ValidTx(sorted[i]) {
      assert sorted[i] in multiset(sorted);
      assert sorted[i] in txs;
    }
  }

  lemma {:induction false} HeightsProved(c: Context, txs: seq<Tx>, n: nat)
    requires n <= |txs| && ReplayTxs(c, txs, n).Some?
    ensures Heights(txs[..n]) <= c.evidence.blocks.Keys
    ensures forall i, j :: 0 <= i < j < n ==> (txs[i].height, txs[i].index) != (txs[j].height, txs[j].index)
  {
    if n > 0 {
      HeightsProved(c, txs, n - 1);
      assert forall i :: 0 <= i < n - 1 ==> txs[..n][i] == txs[..n - 1][i] == txs[i];
    }
  }

  /** `BuildInventory`, with the evidence decoded. */
  ghost function Build(c: Context, pages: seq<Page>, source: HexDigest): Option<Inventory> {
    if !SourceGiven(c) then None else
    var txs :- Decode(c, pages);
    if !CutoverProved(c) then None else
    var sorted := SortBy(txs, TxLess);
    var s :- ReplayTxs(c, sorted, |sorted|);
    if |c.evidence.blocks| != |Required(c, sorted)| then None else
    SortedLog(c, pages);
    LogKeepsInvariant(c, sorted, |sorted|);
    HeightsProved(c, sorted, |sorted|);
    assert sorted[..|sorted|] == sorted;
    Some(Assemble(c, s, source, |txs|, Required(c, sorted)))
  }

  // -------------------------------------------------------- evidence heights

  lemma {:induction false} SubsetSameSize<T>(a: set<T>, b: set<T>)
    requires a <= b && |a| == |b|
    ensures a == b
  {
    assert |b - a| == |b| - |a|;
  }

  /** On success the evidence covers exactly the transaction heights and the cutover. */
  lemma {:induction false} HeightsExact(c: Context, pages: seq<Page>, source: HexDigest)
    requires Build(c, pages, source).Some?
    ensures c.evidence.blocks.Keys == Heights(Decode(c, pages).value) + {c.cutover}
  {
    var txs := Decode(c, pages).value;
    var sorted := SortBy(txs, TxLess);
    SortedLog(c, pages);
    HeightsProved(c, sorted, |sorted|);
    assert sorted[..|sorted|] == sorted;
    assert |c.evidence.blocks.Keys| == |c.evidence.blocks|;
    SubsetSameSize(Required(c, sorted), c.evidence.blocks.Keys);
    SameHeights(sorted, txs);
  }

  lemma {:induction false} SameHeights(a: seq<Tx>, b: seq<Tx>)
    requires multiset(a) == multiset(b)
    ensures Heights(a) == Heights(b)
  {
    forall i | 0 <= i < |a| ensures a[i].height in Heights(b) {
      assert a[i] in multiset(b);
    }
    forall i | 0 <= i < |b| ensures b[i].height in Heights(a) {
      assert b[i] in multiset(a);
    }
  }

  // --------------------------------------------------- order and paging do not matter

  /** Two page lists that declare the same query and total. */
  predicate SameDeclaration(pages: seq<Page>, other: seq<Page>) {
    pages != [] && other != [] &&
    (forall i :: 0 <= i < |pages| ==> pages[i].query == pages[0].query && pages[i].totalCount == pages[0].totalCount) &&
    (forall i :: 0 <= i < |other| ==> other[i].query == pages[0].query && other[i].totalCount == pages[0].totalCount)
  }

  lemma {:induction false} FlattenInvalid(pages: seq<Page>, k: nat, i: nat)
    requires k < |pages| && i < |pages[k].txs|
    ensures pages[k].txs[i] in Flatten(pages)
  {
    if k < |pages| - 1 { FlattenInvalid(pages[..|pages| - 1], k, i); }
  }

  lemma {:induction false} DecodeAlike(c: Context, pages: seq<Page>, other: seq<Page>)
    requires SameDeclaration(pages, other) && multiset(Flatten(pages)) == multiset(Flatten(other))
    requires Decode(c, pages).Some?
    ensures Decode(c, other).Some?
  {
    FlattenValid(c, pages, pages[0].totalCount);
    forall k | 0 <= k < |other| ensures PageValid(c, other[k], other[0].totalCount) {
      forall i | 0 <= i < |other[k].txs| ensures ValidTx(other[k].txs[i]) {
        FlattenInvalid(other, k, i);
        assert other[k].txs[i] in multiset(Flatten(pages));
      }
    }
    assert |Flatten(pages)| == |multiset(Flatten(pages))| == |Flatten(other)|;
  }

  /** A log that replays has no two transactions at one position, so it has one sorted order. */
  lemma {:induction false} SameLog(c: Context, a: seq<Tx>, b: seq<Tx>)
    requires ValidLog(a) && ValidLog(b) && multiset(a) == multiset(b) && ReplayTxs(c, a, |a|).Some?
    ensures a == b
  {
    TxOrder();
    HeightsProved(c, a, |a|);
    assert forall i, j :: 0 <= i < j < |a| ==> TxLess(a[i], a[j]) by {
      forall i, j | 0 <= i < j < |a| ensures TxLess(a[i], a[j]) { assert !TxLess(a[j], a[i]); }
    }
    forall i, j | 0 <= i < j < |b| ensures TxLess(b[i], b[j]) || TxLess(b[j], b[i]) {
      assert b[i] in multiset(a) && b[j] in multiset(a);
      var k :| 0 <= k < |a| && a[k] == b[i];
      var l :| 0 <= l < |a| && a[l] == b[j];
      DuplicateCount(b, i, j);
      DistinctCount(a, b[i], TxLess);
      assert k != l;
    }
    SortedDistinctIsStrict(b, TxLess);
    forall x ensures x in a <==> x in b {
      assert x in multiset(a) <==> x in a;
      assert x in multiset(b) <==> x in b;
    }
    SortedUnique(a, b, TxLess);
  }

  lemma {:induction false} BuildAlike(c: Context, pages: seq<Page>, source: HexDigest, other: seq<Page>,
      otherSource: HexDigest)
    requires SameDeclaration(pages, other) && SameDeclaration(other, pages)
    requires multiset(Flatten(pages)) == multiset(Flatten(other)) && Build(c, pages, source).Some?
    ensures Build(c, other, otherSource) == Some(Build(c, pages, source).value.(sourceSha256 := otherSource))
  {
    DecodeAlike(c, pages, other);
    SortedLog(c, pages);
    SortedLog(c, other);
    SameLog(c, SortBy(Decode(c, pages).value, TxLess), SortBy(Decode(c, other).value, TxLess));
  }

  /** Any reordering or re-paging of the same transactions fails too, or gives the same
      inventory, commitment included, up to the digest of the source file. */
  lemma {:induction false} PagingIndependent(c: Context, pages: seq<Page>, source: HexDigest, other: seq<Page>,
      otherSource: HexDigest)
    requires SameDeclaration(pages, other) && multiset(Flatten(pages)) == multiset(Flatten(other))
    ensures match Build(c, pages, source)
            case None => Build(c, other, otherSource).None?
            case Some(v) => Build(c, other, otherSource) == Some(v.(sourceSha256 := otherSource))
  {
    assert SameDeclaration(other, pages);
    if Build(c, pages, source).Some? {
      BuildAlike(c, pages, source, other, otherSource);
    } else if Build(c, other, otherSource).Some? {
      BuildAlike(c, other, otherSource, pages, source);
    }
  }
}
