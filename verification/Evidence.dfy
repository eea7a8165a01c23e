/** The V1 evidence documents and the inventory replayed from them, as values.
    JSON and base64 decoding are done; every string is the decoded one. */
module Evidence {
  import opened Order
  import opened Digits

  type Attributes = map<string, string>

  datatype Event = Event(kind: string, attributes: Attributes)

  /** Events are numbered by 32-bit integers. */
  type EventList = s: seq<Event> | |s| <= 0x1_0000_0000 witness []

  datatype Tx = Tx(hash: string, height: nat, index: nat, code: nat, events: EventList)

  datatype Page = Page(query: string, totalCount: nat, txs: seq<Tx>)

  datatype Block = Block(chainId: string, hash: string, timestamp: nat, txHashes: seq<string>)

  datatype BlockEvidence = BlockEvidence(sha256: HexDigest, blocks: map<nat, Block>)

  datatype Repository = Repository(
    identity: string, owner: string, name: string, aliases: seq<string>, forkedFrom: string,
    createdTxHash: string, createdHeight: nat, createdTxIndex: nat)

  datatype Username = Username(name: string, owner: string)

  datatype Moderation = Moderation(
    reportId: nat, owner: string, repo: string, action: string, actor: string, status: string,
    reasonHash: string, timestamp: nat, height: nat, txIndex: nat, eventIndex: nat)

  datatype InventoryBlock = InventoryBlock(height: nat, hash: string, timestamp: nat)

  datatype Inventory = Inventory(
    schema: string, chainId: string, contract: string, cutoverHeight: nat, cutoverBlockHash: string,
    txSearchQuery: string, sourceSha256: string, blockSha256: string, eventCommitment: string,
    scannedTxs: nat, successfulTxs: nat, blocks: seq<InventoryBlock>, repositories: seq<Repository>,
    owners: seq<string>, reportIds: seq<nat>, moderationTrail: seq<Moderation>,
    usernames: seq<Username>, badgeRecipients: seq<string>, releaseVersions: seq<string>)

  const INVENTORY_SCHEMA: string := "igit.cosmwasm-v1.inventory.v2"

  predicate IsLowerHex(c: char) { '0' <= c <= '9' || 'a' <= c <= 'f' }

  predicate IsUpperHex(c: char) { '0' <= c <= '9' || 'A' <= c <= 'F' }

  predicate IsLowerHash(s: string) {
    |s| == 64 && forall i :: 0 <= i < |s| ==> IsLowerHex(s[i])
  }

  predicate IsUpperHash(s: string) {
    |s| == 64 && forall i :: 0 <= i < |s| ==> IsUpperHex(s[i])
  }

  type HexDigest = s: string | IsLowerHash(s) witness Zeros(64)

  function LowerChar(c: char): char {
    if 'A' <= c <= 'Z' then c - 'A' + 'a' else c
  }

  function Lower(s: string): (r: string)
    ensures |r| == |s| && forall i :: 0 <= i < |s| ==> r[i] == LowerChar(s[i])
  {
    seq(|s|, i requires 0 <= i < |s| => LowerChar(s[i]))
  }

  lemma {:induction false} LowerInjective(a: string, b: string)
    requires IsUpperHash(a) && IsUpperHash(b) && Lower(a) == Lower(b)
    ensures a == b
  {
    forall i | 0 <= i < 64 ensures a[i] == b[i] {
      assert Lower(a)[i] == Lower(b)[i];
    }
  }

  function UpperChar(c: char): char { if 'a' <= c <= 'z' then c - 'a' + 'A' else c }

  /** Lower-casing maps the transaction hashes onto the lower-case hashes. */
  lemma {:induction false} HashesPair(s: string)
    ensures IsUpperHash(s) ==> IsLowerHash(Lower(s))
    ensures IsLowerHash(s) ==> exists h :: IsUpperHash(h) && Lower(h) == s
  {
    if IsLowerHash(s) {
      var h := seq(|s|, i requires 0 <= i < |s| => UpperChar(s[i]));
      assert IsUpperHash(h) && Lower(h) == s;
    }
  }

  /** A repository's identity: the creating transaction and event. */
  function Identity(hash: string, eventIndex: nat): string {
    Lower(hash) + ":" + Decimal(eventIndex)
  }

  lemma {:induction false} IdentityInjective(h: string, i: nat, k: string, j: nat)
    requires IsUpperHash(h) && IsUpperHash(k)
    ensures Identity(h, i) == Identity(k, j) ==> h == k && i == j
  {
    var a, b := Identity(h, i), Identity(k, j);
    assert a[..64] == Lower(h) && b[..64] == Lower(k);
    assert a[65..] == Decimal(i) && b[65..] == Decimal(j);
    if a == b {
      LowerInjective(h, k);
      DecimalInjective(i, j);
    }
  }

  function ExpectedQuery(contract: string, cutover: nat): string {
    "wasm._contract_address='" + contract + "' AND tx.height<=" + Decimal(cutover)
  }

  // ----------------------------------------------------------- canonical orders

  predicate TxLess(a: Tx, b: Tx) {
    if a.height != b.height then a.height < b.height
    else if a.index != b.index then a.index < b.index
    else StrLess(a.hash, b.hash)
  }

  lemma {:induction false} TxOrder()
    ensures WeakOrder(TxLess)
  {
    StringOrder();
  }

  predicate RepositoryLess(a: Repository, b: Repository) {
    if a.owner != b.owner then StrLess(a.owner, b.owner)
    else if a.name != b.name then StrLess(a.name, b.name)
    else StrLess(a.identity, b.identity)
  }

  lemma {:induction false} RepositoryOrder()
    ensures WeakOrder(RepositoryLess)
    ensures forall a: Repository, b: Repository ::
      a.identity != b.identity ==> RepositoryLess(a, b) || RepositoryLess(b, a)
  {
    StringOrder();
  }

  predicate UsernameLess(a: Username, b: Username) { StrLess(a.name, b.name) }

  lemma {:induction false} UsernameOrder()
    ensures WeakOrder(UsernameLess)
    ensures forall a: Username, b: Username :: a.name != b.name ==> UsernameLess(a, b) || UsernameLess(b, a)
  {
    StringOrder();
  }

  predicate NatLess(a: nat, b: nat) { a < b }

  lemma {:induction false} NatOrder()
    ensures WeakOrder(NatLess)
  {
  }

  /** The position text the validator compares. */
  function Position(m: Moderation): string {
    ZeroPadded(m.height, 20) + "/" + ZeroPadded(m.txIndex, 10) + "/" + ZeroPadded(m.eventIndex, 10)
  }

  predicate InRange(m: Moderation) {
    m.height < UINT64_LIMIT && m.txIndex < UINT32_LIMIT && m.eventIndex < UINT32_LIMIT
  }

  predicate Before(a: Moderation, b: Moderation) {
    if a.height != b.height then a.height < b.height
    else if a.txIndex != b.txIndex then a.txIndex < b.txIndex
    else a.eventIndex < b.eventIndex
  }

  lemma {:induction false} Pow10Values()
    ensures Pow10(10) == 10_000_000_000 && Pow10(20) == 100_000_000_000_000_000_000
  {
    assert Pow10(5) == 100_000;
    assert Pow10(10) == 10_000_000_000;
    assert Pow10(15) == 1_000_000_000_000_000;
  }

  lemma {:induction false} PairOrder(t: nat, e: nat, u: nat, f: nat)
    requires t < Pow10(10) && e < Pow10(10) && u < Pow10(10) && f < Pow10(10)
    ensures StrLess("/" + (Fixed(t, 10) + ("/" + Fixed(e, 10))), "/" + (Fixed(u, 10) + ("/" + Fixed(f, 10)))) <==>
            t < u || (t == u && e < f)
  {
    FixedOrder(e, "", f, "", 10);
    assert Fixed(e, 10) + "" == Fixed(e, 10) && Fixed(f, 10) + "" == Fixed(f, 10);
    HeadDecides('/', Fixed(e, 10), '/', Fixed(f, 10));
    var x, y := "/" + Fixed(e, 10), "/" + Fixed(f, 10);
    FixedOrder(t, x, u, y, 10);
    HeadDecides('/', Fixed(t, 10) + x, '/', Fixed(u, 10) + y);
  }

  lemma {:induction false} PositionIsFixed(m: Moderation)
    requires InRange(m)
    ensures Position(m) == Fixed(m.height, 20) + ("/" + (Fixed(m.txIndex, 10) + ("/" + Fixed(m.eventIndex, 10))))
  {
    Pow10Values();
    ZeroPaddedIsFixed(m.height, 20);
    ZeroPaddedIsFixed(m.txIndex, 10);
    ZeroPaddedIsFixed(m.eventIndex, 10);
  }

  /** Comparing position strings is comparing (height, tx index, event index). */
  lemma {:induction false} PositionOrder(a: Moderation, b: Moderation)
    requires InRange(a) && InRange(b)
    ensures StrLess(Position(a), Position(b)) <==> Before(a, b)
  {
    Pow10Values();
    PositionIsFixed(a);
    PositionIsFixed(b);
    PairOrder(a.txIndex, a.eventIndex, b.txIndex, b.eventIndex);
    FixedOrder(a.height, "/" + (Fixed(a.txIndex, 10) + ("/" + Fixed(a.eventIndex, 10))),
               b.height, "/" + (Fixed(b.txIndex, 10) + ("/" + Fixed(b.eventIndex, 10))), 20);
  }
}
