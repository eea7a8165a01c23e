/** What the event commitment of an inventory binds: every acting event of the log, in every
    field, unless the digest is broken. */
module Commitment {
  import opened Order
  import opened Digits
  import opened Evidence
  import opened Replay
  import opened ReplayInvariants
  import opened InventoryBuild
  import opened EventLog

  const NUL: char := '\0'

  // ------------------------------------------------------------ one event

  /** What is bound of an event. */
  datatype Bound = Bound(height: nat, index: nat, hash: string, event: nat, action: string, attributes: Attributes)

  function BoundOf(a: Act): Bound {
    Bound(a.tx.height, a.tx.index, a.tx.hash, a.event, Attr(a, "action"), Attrs(a))
  }

  function Bounds(acts: seq<Act>): (r: seq<Bound>)
    ensures |r| == |acts|
  {
    seq(|acts|, i requires 0 <= i < |acts| => BoundOf(acts[i]))
  }

  ghost function TextOf(a: Act): string { CanonicalEvent(a.tx, a.event, Attr(a, "action"), Attrs(a)) }

  predicate NulFree(a: Attributes) { forall k :: k in a ==> NUL !in k && NUL !in a[k] }

  /** Every part, with a NUL before it. */
  function Joined(parts: seq<string>): string {
    if parts == [] then "" else Joined(parts[..|parts| - 1]) + [NUL] + parts[|parts| - 1]
  }

  predicate Parts(parts: seq<string>) { forall i :: 0 <= i < |parts| ==> NUL !in parts[i] }

  lemma {:induction false} JoinedNext(parts: seq<string>, part: string)
    ensures Joined(parts + [part]) == Joined(parts) + [NUL] + part
  {
    assert (parts + [part])[..|parts|] == parts;
  }

  lemma {:induction false} LastPart(a: string, x: string, b: string, y: string)
    requires NUL !in x && NUL !in y && a + [NUL] + x == b + [NUL] + y
    ensures a == b && x == y
  {
    var s, t := a + [NUL] + x, b + [NUL] + y;
    assert s[|a|] == NUL && t[|b|] == NUL;
    assert forall k :: |a| < k < |s| ==> s[k] in x;
    assert forall k :: |b| < k < |t| ==> t[k] in y;
    assert |a| == |b|;
    assert s[..|a|] == a && t[..|b|] == b && s[|a| + 1..] == x && t[|b| + 1..] == y;
  }

  /** Parts without NUL can be told apart again. */
  lemma {:induction false} JoinedInjective(a: seq<string>, b: seq<string>)
    requires Parts(a) && Parts(b) && Joined(a) == Joined(b)
    ensures a == b
  {
    if a != [] && b != [] {
      var m, n := |a| - 1, |b| - 1;
      LastPart(Joined(a[..m]), a[m], Joined(b[..n]), b[n]);
      JoinedInjective(a[..m], b[..n]);
      assert a == a[..m] + [a[m]] && b == b[..n] + [b[n]];
    }
  }

  /** Keys and values in turn. */
  function Pairs(keys: seq<string>, attributes: Attributes): (r: seq<string>)
    requires forall k :: k in keys ==> k in attributes
    ensures |r| == 2 * |keys|
  {
    if keys == [] then [] else
    var last := keys[|keys| - 1];
    Pairs(keys[..|keys| - 1], attributes) + [last, attributes[last]]
  }

  /** One more pair, on both sides. */
  lemma {:induction false} PairJoined(rest: seq<string>, key: string, value: string, text: string)
    requires text == Joined(rest)
    ensures text + [NUL] + key + [NUL] + value == Joined(rest + [key, value])
  {
    JoinedNext(rest, key);
    JoinedNext(rest + [key], value);
    assert rest + [key] + [value] == rest + [key, value];
  }

  lemma {:induction false} FieldsJoined(keys: seq<string>, attributes: Attributes, before: seq<string>)
    requires forall k :: k in keys ==> k in attributes
    ensures Joined(before) + Fields(keys, attributes) == Joined(before + Pairs(keys, attributes))
  {
    if keys == [] {
      assert before + [] == before && Joined(before) + "" == Joined(before);
    } else {
      var n := |keys| - 1;
      var last, rest, text := keys[n], before + Pairs(keys[..n], attributes), Fields(keys[..n], attributes);
      FieldsJoined(keys[..n], attributes, before);
      PairJoined(rest, last, attributes[last], Joined(before) + text);
      assert before + Pairs(keys, attributes) == rest + [last, attributes[last]];
      Regroup(Joined(before), text, last, attributes[last]);
    }
  }

  lemma {:induction false} Regroup(a: string, b: string, key: string, value: string)
    ensures a + (b + [NUL] + key + [NUL] + value) == a + b + [NUL] + key + [NUL] + value
  {
  }

  lemma {:induction false} PairsAre(keys: seq<string>, attributes: Attributes, i: nat)
    requires (forall k :: k in keys ==> k in attributes) && i < |keys|
    ensures Pairs(keys, attributes)[2 * i] == keys[i] && Pairs(keys, attributes)[2 * i + 1] == attributes[keys[i]]
  {
    if i < |keys| - 1 { PairsAre(keys[..|keys| - 1], attributes, i); }
  }

  /** The list of pairs determines the attributes. */
  lemma {:induction false} PairsDecide(a: Attributes, b: Attributes)
    requires Pairs(SortedStrings(a.Keys), a) == Pairs(SortedStrings(b.Keys), b)
    ensures a == b
  {
    var p, q := SortedStrings(a.Keys), SortedStrings(b.Keys);
    forall i | 0 <= i < |p| ensures p[i] == q[i] && a[p[i]] == b[q[i]] {
      PairsAre(p, a, i);
      PairsAre(q, b, i);
    }
    assert p == q;
    forall k ensures k in a <==> k in b { assert (k in a <==> k in p) && (k in b <==> k in q); }
    forall k | k in a ensures a[k] == b[k] {
      var i :| 0 <= i < |p| && p[i] == k;
    }
  }

  function Header(b: Bound): seq<string> {
    [Decimal(b.height), Decimal(b.index), b.hash, Decimal(b.event), b.action]
  }

  ghost function PartsOf(b: Bound): seq<string> { Header(b) + Pairs(SortedStrings(b.attributes.Keys), b.attributes) }

  lemma {:induction false} HeaderJoined(b: Bound)
    ensures Joined(Header(b)) == [NUL] + Decimal(b.height) + [NUL] + Decimal(b.index) + [NUL] + b.hash + [NUL] +
      Decimal(b.event) + [NUL] + b.action
  {
    var h := Header(b);
    assert h == [h[0]] + [h[1]] + [h[2]] + [h[3]] + [h[4]];
    assert [] + [h[0]] == [h[0]];
    JoinedNext([], h[0]);
    JoinedNext([h[0]], h[1]);
    JoinedNext([h[0]] + [h[1]], h[2]);
    JoinedNext([h[0]] + [h[1]] + [h[2]], h[3]);
    JoinedNext([h[0]] + [h[1]] + [h[2]] + [h[3]], h[4]);
  }

  lemma {:induction false} HeaderText(a: Act)
    ensures [NUL] + EventHeader(a.tx, a.event, Attr(a, "action")) == Joined(Header(BoundOf(a)))
  {
    HeaderJoined(BoundOf(a));
  }

  lemma {:induction false} TextJoined(a: Act)
    ensures [NUL] + TextOf(a) == Joined(PartsOf(BoundOf(a)))
  {
    var b, header := BoundOf(a), EventHeader(a.tx, a.event, Attr(a, "action"));
    HeaderText(a);
    FieldsJoined(SortedStrings(b.attributes.Keys), b.attributes, Header(b));
    Associates(header, Fields(SortedStrings(b.attributes.Keys), b.attributes));
  }

  lemma {:induction false} Associates(x: string, y: string)
    ensures [NUL] + (x + y) == [NUL] + x + y
  {
  }

  lemma {:induction false} PairsNulFree(keys: seq<string>, a: Attributes)
    requires NulFree(a) && forall k :: k in keys ==> k in a
    ensures Parts(Pairs(keys, a))
  {
    if keys != [] { PairsNulFree(keys[..|keys| - 1], a); }
  }

  lemma {:induction false} DecimalNulFree(n: nat)
    ensures NUL !in Decimal(n)
  {
    DecimalReads(n);
  }

  /** No text of the event holds a NUL. */
  predicate Texts(b: Bound) { NUL !in b.hash && NUL !in b.action && NulFree(b.attributes) }

  lemma {:induction false} PartsNulFree(b: Bound)
    requires Texts(b)
    ensures Parts(PartsOf(b))
  {
    DecimalNulFree(b.height);
    DecimalNulFree(b.index);
    DecimalNulFree(b.event);
    PairsNulFree(SortedStrings(b.attributes.Keys), b.attributes);
  }

  lemma {:induction false} PartsDecide(a: Bound, b: Bound)
    requires PartsOf(a) == PartsOf(b)
    ensures a == b
  {
    var p, q := PartsOf(a), PartsOf(b);
    assert p[..5] == Header(a) && q[..5] == Header(b);
    assert p[5..] == Pairs(SortedStrings(a.attributes.Keys), a.attributes);
    assert q[5..] == Pairs(SortedStrings(b.attributes.Keys), b.attributes);
    assert Header(a)[0] == Header(b)[0] && Header(a)[1] == Header(b)[1] && Header(a)[3] == Header(b)[3];
    assert Header(a)[2] == Header(b)[2] && Header(a)[4] == Header(b)[4];
    DecimalInjective(a.height, b.height);
    DecimalInjective(a.index, b.index);
    DecimalInjective(a.event, b.event);
    PairsDecide(a.attributes, b.attributes);
  }

  /** The committed text of an event determines it, if no part holds a NUL. */
  lemma {:induction false} TextDecides(a: Act, b: Act)
    requires Texts(BoundOf(a)) && Texts(BoundOf(b)) && TextOf(a) == TextOf(b)
    ensures BoundOf(a) == BoundOf(b)
  {
    TextJoined(a);
    TextJoined(b);
    PartsNulFree(BoundOf(a));
    PartsNulFree(BoundOf(b));
    JoinedInjective(PartsOf(BoundOf(a)), PartsOf(BoundOf(b)));
    PartsDecide(BoundOf(a), BoundOf(b));
  }

  // ------------------------------------------------------------ the chain

  type Digest = (HexDigest, string) -> HexDigest

  ghost function Chain(digest: Digest, acts: seq<Act>): HexDigest {
    if acts == [] then Zeros(64) else digest(Chain(digest, acts[..|acts| - 1]), TextOf(acts[|acts| - 1]))
  }

  /** Two inputs with one digest, or one whose digest is zero. */
  ghost predicate Broken(digest: Digest) {
    || (exists p, x, q, y :: (p, x) != (q, y) && digest(p, x) == digest(q, y))
    || (exists p, x :: digest(p, x) == Zeros(64))
  }

  lemma {:induction false} DispatchCommits(c: Context, s: State, tx: Tx, n: nat, action: Action, sender: string,
      a: Attributes)
    requires Dispatch(c, s, tx, n, action, sender, a).Some?
    ensures Dispatch(c, s, tx, n, action, sender, a).value.commitment == s.commitment
  {
  }

  lemma {:induction false} ChainNext(digest: Digest, acts: seq<Act>, a: Act)
    ensures Chain(digest, acts + [a]) == digest(Chain(digest, acts), TextOf(a))
  {
    assert (acts + [a])[..|acts|] == acts;
  }

  lemma {:induction false} ActCommits(c: Context, s: State, acts: seq<Act>, a: Act)
    requires s.commitment == Chain(c.digest, acts) && ApplyAct(c, s, a).Some?
    ensures ApplyAct(c, s, a).value.commitment == Chain(c.digest, acts + [a])
  {
    ChainNext(c.digest, acts, a);
    DispatchCommits(c, Committed(c, s, a.tx, a.event, Attr(a, "action"), Attrs(a)), a.tx, a.event, a.does.value,
        SenderOf(a), Attrs(a));
  }

  /** The commitment is the chain over the acts of the log. */
  lemma {:induction false} CommitmentIs(c: Context, txs: seq<Tx>, n: nat)
    requires ValidLog(txs) && n <= |txs| && ReplayTxs(c, txs, n).Some?
    ensures ReplayTxs(c, txs, n).value.commitment == Chain(c.digest, LogActs(c.contract, txs, n))
  {
    var holds := (s: State, acts: seq<Act>) => s.commitment == Chain(c.digest, acts);
    forall s, acts, a | holds(s, acts) && ApplyAct(c, s, a).Some? ensures holds(ApplyAct(c, s, a).value, acts + [a]) {
      ActCommits(c, s, acts, a);
    }
    assert holds(Initial(), []);
    LogInduction(c, holds, txs, n);
  }

  lemma {:induction false} DigestBinds(digest: Digest, p: HexDigest, x: string, q: HexDigest, y: string)
    requires digest(p, x) == digest(q, y)
    ensures (p == q && x == y) || Broken(digest)
  {
    if p != q || x != y { assert (p, x) != (q, y); }
  }

  lemma {:induction false} BoundsLast(acts: seq<Act>)
    requires acts != []
    ensures Bounds(acts) == Bounds(acts[..|acts| - 1]) + [BoundOf(acts[|acts| - 1])]
  {
  }

  ghost predicate AllTexts(acts: seq<Act>) { forall i :: 0 <= i < |acts| ==> Texts(BoundOf(acts[i])) }

  /** One commitment, one sequence of events, or the digest is broken. */
  lemma {:induction false} ChainBinds(digest: Digest, a: seq<Act>, b: seq<Act>)
    requires AllTexts(a) && AllTexts(b) && Chain(digest, a) == Chain(digest, b) && !Broken(digest)
    ensures Bounds(a) == Bounds(b)
  {
    if a != [] && b != [] {
      var m, n := |a| - 1, |b| - 1;
      DigestBinds(digest, Chain(digest, a[..m]), TextOf(a[m]), Chain(digest, b[..n]), TextOf(b[n]));
      TextDecides(a[m], b[n]);
      ChainBinds(digest, a[..m], b[..n]);
      BoundsLast(a);
      BoundsLast(b);
    }
  }

  // ------------------------------------------------------------ logs

  /** No acting event holds a NUL. */
  ghost predicate LogTexts(contract: string, txs: seq<Tx>) {
    forall a :: a in LogActs(contract, txs, |txs|) ==> NulFree(Attrs(a))
  }

  lemma {:induction false} ActTexts(contract: string, txs: seq<Tx>, a: Act)
    requires ValidLog(txs) && LogTexts(contract, txs) && a in LogActs(contract, txs, |txs|)
    ensures Texts(BoundOf(a))
  {
    LogActsIn(contract, txs, |txs|);
    assert txs[..|txs|] == txs && a.tx in txs;
    assert IsUpperHash(a.tx.hash);
  }

  /** Two logs that replay to the same commitment have the same acting events, each with the same
      position, transaction, action and attributes, or the digest is broken. */
  lemma {:induction false} CommitmentBinds(c: Context, txs: seq<Tx>, d: Context, others: seq<Tx>)
    requires c.digest == d.digest && ValidLog(txs) && ValidLog(others)
    requires LogTexts(c.contract, txs) && LogTexts(d.contract, others)
    requires ReplayTxs(c, txs, |txs|).Some? && ReplayTxs(d, others, |others|).Some?
    requires ReplayTxs(c, txs, |txs|).value.commitment == ReplayTxs(d, others, |others|).value.commitment
    ensures Bounds(LogActs(c.contract, txs, |txs|)) == Bounds(LogActs(d.contract, others, |others|)) || Broken(c.digest)
  {
    CommitmentIs(c, txs, |txs|);
    CommitmentIs(d, others, |others|);
    var a, b := LogActs(c.contract, txs, |txs|), LogActs(d.contract, others, |others|);
    forall i | 0 <= i < |a| ensures Texts(BoundOf(a[i])) { ActTexts(c.contract, txs, a[i]); }
    forall i | 0 <= i < |b| ensures Texts(BoundOf(b[i])) { ActTexts(d.contract, others, b[i]); }
    if !Broken(c.digest) { ChainBinds(c.digest, a, b); }
  }

  /** The log an inventory was built from. */
  ghost function LogOf(c: Context, pages: seq<Page>): seq<Tx>
    requires Decode(c, pages).Some?
  {
    SortBy(Decode(c, pages).value, TxLess)
  }

  /** Inventories with the same event commitment were built from the same acting events, or the
      digest is broken. */
  lemma {:induction false} InventoryBinds(c: Context, pages: seq<Page>, source: HexDigest, d: Context,
      others: seq<Page>, source': HexDigest)
    requires c.digest == d.digest && Build(c, pages, source).Some? && Build(d, others, source').Some?
    requires LogTexts(c.contract, LogOf(c, pages)) && LogTexts(d.contract, LogOf(d, others))
    requires Build(c, pages, source).value.eventCommitment == Build(d, others, source').value.eventCommitment
    ensures var a, b := LogOf(c, pages), LogOf(d, others);
      Bounds(LogActs(c.contract, a, |a|)) == Bounds(LogActs(d.contract, b, |b|)) || Broken(c.digest)
  {
    SortedLog(c, pages);
    SortedLog(d, others);
    CommitmentBinds(c, LogOf(c, pages), d, LogOf(d, others));
  }

  /** With NULs in a value, different attributes can have one text. */
  lemma {:induction false} NulAmbiguous()
    ensures var a, b := map["k" := "v" + [NUL] + "l" + [NUL] + "w"], map["k" := "v", "l" := "w"];
      a != b && Fields(["k"], a) == Fields(["k", "l"], b) && SortedStrings(a.Keys) == ["k"] &&
      SortedStrings(b.Keys) == ["k", "l"]
  {
    var a, b := map["k" := "v" + [NUL] + "l" + [NUL] + "w"], map["k" := "v", "l" := "w"];
    assert "l" in b && "l" !in a;
    assert ["k"][..0] == [] && ["k", "l"][..1] == ["k"];
    OneSorted("k");
    TwoSorted("k", "l");
    assert a.Keys == {"k"} && b.Keys == {"k", "l"};
  }

  lemma {:induction false} OneSorted(x: string)
    ensures SortedStrings({x}) == [x]
  {
    StringOrder();
    SortedUnique(SortedStrings({x}), [x], StrLess);
  }

  lemma {:induction false} TwoSorted(x: string, y: string)
    requires StrLess(x, y)
    ensures SortedStrings({x, y}) == [x, y]
  {
    StringOrder();
    SortedUnique(SortedStrings({x, y}), [x, y], StrLess);
  }
}
