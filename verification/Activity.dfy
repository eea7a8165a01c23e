/** Scanning event logs newest first in bounded spans, against one wide query. */
module Activity {
  import opened Order
  import opened Digits

  const RANGE_LIMIT: nat := 10_000
  const SPLIT_DEPTH: nat := 6

  /** One event log; `tx` is the lower-cased transaction hash. */
  datatype Log = Log(block: nat, index: nat, tx: string, removed: bool)

  predicate Before(a: Log, b: Log) { a.block < b.block || (a.block == b.block && a.index < b.index) }

  /** Ascending by block and then log index, and a transaction's logs share their block. */
  predicate Chain(s: seq<Log>) {
    forall i, j :: 0 <= i < j < |s| ==> Before(s[i], s[j]) && (s[i].tx == s[j].tx ==> s[i].block == s[j].block)
  }

  function Slice(all: seq<Log>, from: nat, to: nat): seq<Log> {
    if all == [] then [] else
    var n := |all| - 1;
    Slice(all[..n], from, to) + if from <= all[n].block <= to then [all[n]] else []
  }

  // ------------------------------------------------------------ spans

  datatype Span = Span(from: nat, to: nat)

  /** `descendingSpans`: the spans it yields, newest first. */
  function Spans(from: nat, end: int): seq<Span>
    decreases if end < 0 then 0 else end
  {
    if end < from then [] else
    var start := if end - RANGE_LIMIT + 1 > from then end - RANGE_LIMIT + 1 else from;
    [Span(start, end)] + if start <= from then [] else Spans(from, start - 1)
  }

  /** The spans partition the window from its end to its start, each within the range limit. */
  ghost predicate Partition(spans: seq<Span>, from: nat, to: nat) {
    && |spans| > 0 && spans[0].to == to && spans[|spans| - 1].from == from
    && (forall i ::
         0 <= i < |spans| ==> from <= spans[i].from <= spans[i].to && spans[i].to - spans[i].from < RANGE_LIMIT)
    && (forall i, j :: 0 <= i && j == i + 1 && j < |spans| ==> spans[j].to + 1 == spans[i].from)
  }

  /** All but the oldest span are as wide as the range limit allows. */
  ghost predicate Widest(spans: seq<Span>) {
    forall i :: 0 <= i < |spans| - 1 ==> spans[i].to - spans[i].from == RANGE_LIMIT - 1
  }

  ghost predicate Tiles(spans: seq<Span>, from: nat, to: nat) { Partition(spans, from, to) && Widest(spans) }

  lemma {:induction false} TilesNext(rest: seq<Span>, from: nat, start: nat, to: nat, spans: seq<Span>)
    requires from < start <= to && to - start == RANGE_LIMIT - 1 && Tiles(rest, from, start - 1)
    requires spans == [Span(start, to)] + rest
    ensures Tiles(spans, from, to)
  {
    forall i, j | 0 <= i && j == i + 1 && j < |spans| ensures spans[j].to + 1 == spans[i].from {
      if i > 0 { assert spans[i] == rest[i - 1] && spans[j] == rest[i]; }
    }
    forall i | 0 <= i < |spans| - 1 ensures spans[i].to - spans[i].from == RANGE_LIMIT - 1 {
      if i > 0 { assert spans[i] == rest[i - 1]; }
    }
  }

  lemma {:induction false} OneTile(from: nat, end: nat)
    requires from <= end && end - from < RANGE_LIMIT
    ensures Tiles(Spans(from, end), from, end)
  {
    assert Spans(from, end) == [Span(from, end)];
  }

  lemma {:induction false} SpansTile(from: nat, end: nat)
    requires from <= end
    ensures Tiles(Spans(from, end), from, end)
    decreases end
  {
    if end - from >= RANGE_LIMIT {
      var start := end - RANGE_LIMIT + 1;
      var rest := Spans(from, start - 1);
      SpansTile(from, start - 1);
      TilesNext(rest, from, start, end, [Span(start, end)] + rest);
      assert Spans(from, end) == [Span(start, end)] + rest;
    } else {
      OneTile(from, end);
    }
  }

  /** The spans partition the window, newest first, and all but the oldest are as wide as allowed. */
  lemma {:induction false} SpansPartition(from: nat, end: nat)
    requires from <= end
    ensures Partition(Spans(from, end), from, end) && Widest(Spans(from, end))
  {
    SpansTile(from, end);
  }

  // --------------------------------------------------------- adaptive halving

  datatype Answer = Logs(logs: seq<Log>) | TooWide | Failed

  /** A node that, when it answers, answers with exactly the logs of the span, in order. */
  ghost predicate Honest(query: (nat, nat) -> Answer, all: seq<Log>) {
    forall from, to :: query(from, to).Logs? ==> query(from, to).logs == Slice(all, from, to)
  }

  /** `logsInSpan`; nothing is a thrown error. */
  function LogsInSpan(query: (nat, nat) -> Answer, from: nat, to: nat, depth: nat): Option<seq<Log>>
    decreases if depth < SPLIT_DEPTH then SPLIT_DEPTH - depth else 0
  {
    var a := query(from, to);
    if a.Logs? then Some(a.logs)
    else if from >= to || depth >= SPLIT_DEPTH || a.Failed? then None
    else
      var middle := from + (to - from) / 2;
      var head :- LogsInSpan(query, from, middle, depth + 1);
      var tail :- LogsInSpan(query, middle + 1, to, depth + 1);
      Some(head + tail)
  }

  lemma {:induction false} SliceIn(all: seq<Log>, from: nat, to: nat)
    ensures forall x :: x in Slice(all, from, to) <==> x in all && from <= x.block <= to
  {
    if all != [] {
      var n := |all| - 1;
      SliceIn(all[..n], from, to);
      assert all == all[..n] + [all[n]];
    }
  }

  lemma {:induction false} SliceEmpty(all: seq<Log>, from: nat, to: nat)
    requires forall i :: 0 <= i < |all| ==> !(from <= all[i].block <= to)
    ensures Slice(all, from, to) == []
  {
    if all != [] { SliceEmpty(all[..|all| - 1], from, to); }
  }

  lemma {:induction false} JoinNext(a: seq<Log>, b: seq<Log>, x: Log, inA: bool, inB: bool)
    requires !(inA && inB) && (inA ==> b == [])
    ensures (a + if inA then [x] else []) + (b + if inB then [x] else []) == (a + b) + if inA || inB then [x] else []
  {
  }

  /** Neighbouring slices put together. */
  lemma {:induction false} SliceJoin(all: seq<Log>, from: nat, middle: nat, to: nat)
    requires Chain(all) && from <= middle + 1 && middle <= to
    ensures Slice(all, from, middle) + Slice(all, middle + 1, to) == Slice(all, from, to)
  {
    if all != [] {
      var n := |all| - 1;
      var x, rest := all[n], all[..n];
      SliceJoin(rest, from, middle, to);
      if x.block <= middle {
        forall i | 0 <= i < n ensures !(middle + 1 <= rest[i].block <= to) { assert Before(all[i], all[n]); }
        SliceEmpty(rest, middle + 1, to);
      }
      JoinNext(Slice(rest, from, middle), Slice(rest, middle + 1, to), x, from <= x.block <= middle,
          middle + 1 <= x.block <= to);
    }
  }

  ghost predicate ReadsExactly(r: Option<seq<Log>>, slice: seq<Log>) { r.Some? ==> r.value == slice }

  /** One halving step, given that both halves are read exactly. */
  lemma {:induction false} HalvingStep(query: (nat, nat) -> Answer, from: nat, to: nat, depth: nat, head: seq<Log>,
      tail: seq<Log>, slice: seq<Log>)
    requires query(from, to).Logs? ==> query(from, to).logs == slice
    requires from < to ==> head + tail == slice
    requires from < to && depth < SPLIT_DEPTH ==> var middle := from + (to - from) / 2;
      ReadsExactly(LogsInSpan(query, from, middle, depth + 1), head) &&
      ReadsExactly(LogsInSpan(query, middle + 1, to, depth + 1), tail)
    ensures ReadsExactly(LogsInSpan(query, from, to, depth), slice)
  {
  }

  /** Halving changes nothing: a span that is read at all is read exactly. */
  lemma {:induction false} HalvingExact(query: (nat, nat) -> Answer, all: seq<Log>, from: nat, to: nat, depth: nat)
    requires Honest(query, all) && Chain(all) && from <= to
    ensures ReadsExactly(LogsInSpan(query, from, to, depth), Slice(all, from, to))
  {
    var slice := (f: nat, t: nat) => Slice(all, f, t);
    forall f: nat, m: nat, t: nat ensures Adjoins(slice, f, m, t) {
      if f <= m < t { SliceJoin(all, f, m, t); }
    }
    HalvingReads(query, slice, from, to, depth);
  }

  ghost predicate Adjoins(slice: (nat, nat) -> seq<Log>, from: nat, middle: nat, to: nat) {
    from <= middle < to ==> slice(from, middle) + slice(middle + 1, to) == slice(from, to)
  }

  lemma {:induction false} HalvingReads(query: (nat, nat) -> Answer, slice: (nat, nat) -> seq<Log>, from: nat, to: nat,
      depth: nat)
    requires from <= to && (forall f: nat, t: nat :: query(f, t).Logs? ==> query(f, t).logs == slice(f, t))
    requires forall f: nat, m: nat, t: nat :: Adjoins(slice, f, m, t)
    ensures ReadsExactly(LogsInSpan(query, from, to, depth), slice(from, to))
    decreases if depth < SPLIT_DEPTH then SPLIT_DEPTH - depth else 0
  {
    var middle := from + (to - from) / 2;
    if from < to && depth < SPLIT_DEPTH {
      HalvingReads(query, slice, from, middle, depth + 1);
      HalvingReads(query, slice, middle + 1, to, depth + 1);
    }
    assert Adjoins(slice, from, middle, to);
    HalvingStep(query, from, to, depth, slice(from, middle), slice(middle + 1, to), slice(from, to));
  }

  // ------------------------------------------------------------ what can be read

  function Half(s: Span, block: nat): (r: Span)
    requires s.from <= block <= s.to
    ensures s.from <= r.from <= block <= r.to <= s.to
  {
    var middle := s.from + (s.to - s.from) / 2;
    if block <= middle then Span(s.from, middle) else Span(middle + 1, s.to)
  }

  /** The part of a span around a block that `k` halvings leave. */
  function Zoom(s: Span, block: nat, k: nat): (r: Span)
    requires s.from <= block <= s.to
    ensures s.from <= r.from <= block <= r.to <= s.to
    decreases k
  {
    if k == 0 then s else Zoom(Half(s, block), block, k - 1)
  }

  function Ask(query: (nat, nat) -> Answer, s: Span): Answer { query(s.from, s.to) }

  /** The part that `k` halvings leave is answered, and every wider one is refused as too wide. */
  ghost predicate ReadAt(query: (nat, nat) -> Answer, s: Span, block: nat, k: nat)
    requires s.from <= block <= s.to
  {
    Ask(query, Zoom(s, block, k)).Logs? && forall j: nat :: j < k ==> Ask(query, Zoom(s, block, j)).TooWide?
  }

  ghost predicate Read(query: (nat, nat) -> Answer, s: Span, block: nat, most: nat)
    requires s.from <= block <= s.to
  {
    exists k: nat :: k <= most && ReadAt(query, s, block, k)
  }

  /** Every block of the span is read, after at most so many halvings. */
  ghost predicate AllRead(query: (nat, nat) -> Answer, s: Span, most: nat) {
    forall block: nat :: s.from <= block <= s.to ==> Read(query, s, block, most)
  }

  lemma {:induction false} ZoomOne(s: Span, k: nat)
    requires s.from == s.to
    ensures Zoom(s, s.from, k) == s
  {
    if k > 0 { ZoomOne(s, k - 1); }
  }

  lemma {:induction false} ReadAtHalf(query: (nat, nat) -> Answer, s: Span, block: nat, k: nat)
    requires s.from <= block <= s.to && Ask(query, s).TooWide?
    ensures ReadAt(query, s, block, k + 1) <==> ReadAt(query, Half(s, block), block, k)
  {
    var half := Half(s, block);
    assert forall j: nat :: Zoom(s, block, j + 1) == Zoom(half, block, j);
    if ReadAt(query, s, block, k + 1) {
      forall j: nat | j < k ensures Ask(query, Zoom(half, block, j)).TooWide? {
        assert Ask(query, Zoom(s, block, j + 1)).TooWide?;
      }
    }
    if ReadAt(query, half, block, k) {
      forall j: nat | j < k + 1 ensures Ask(query, Zoom(s, block, j)).TooWide? {
        if j > 0 { assert Ask(query, Zoom(half, block, j - 1)).TooWide?; }
      }
    }
  }

  lemma {:induction false} ReadHalf(query: (nat, nat) -> Answer, s: Span, block: nat, most: nat)
    requires s.from <= block <= s.to && Ask(query, s).TooWide? && most > 0
    ensures Read(query, s, block, most) <==> Read(query, Half(s, block), block, most - 1)
  {
    if k: nat :| k <= most && ReadAt(query, s, block, k) {
      assert k > 0;
      ReadAtHalf(query, s, block, k - 1);
    }
    if k: nat :| k <= most - 1 && ReadAt(query, Half(s, block), block, k) { ReadAtHalf(query, s, block, k); }
  }

  lemma {:induction false} Unreadable(query: (nat, nat) -> Answer, s: Span, most: nat)
    requires s.from <= s.to && !Ask(query, s).Logs?
    requires Ask(query, s).Failed? || s.from == s.to || most == 0
    ensures !Read(query, s, s.from, most)
  {
    forall k: nat | k <= most ensures !ReadAt(query, s, s.from, k) {
      if k > 0 {
        assert Zoom(s, s.from, 0) == s;
        if s.from == s.to { ZoomOne(s, k); }
      }
    }
  }

  lemma {:induction false} AllReadHalves(query: (nat, nat) -> Answer, s: Span, middle: nat, most: nat)
    requires s.from < s.to && middle == s.from + (s.to - s.from) / 2 && Ask(query, s).TooWide? && most > 0
    ensures AllRead(query, s, most) <==>
      AllRead(query, Span(s.from, middle), most - 1) && AllRead(query, Span(middle + 1, s.to), most - 1)
  {
    var head, tail, less: nat := Span(s.from, middle), Span(middle + 1, s.to), most - 1;
    forall block: nat | s.from <= block <= s.to
      ensures Read(query, s, block, most) <==>
        if block <= middle then Read(query, head, block, less) else Read(query, tail, block, less)
    {
      ReadHalf(query, s, block, most);
    }
    if AllRead(query, s, most) {
      forall block: nat | head.from <= block <= head.to ensures Read(query, head, block, less) {
        assert Read(query, s, block, most);
      }
      forall block: nat | tail.from <= block <= tail.to ensures Read(query, tail, block, less) {
        assert Read(query, s, block, most);
      }
    }
  }

  /** A span is read if and only if around each of its blocks a part after at most six halvings is
      answered and every wider one refused as too wide. */
  lemma {:induction false} ReadIff(query: (nat, nat) -> Answer, s: Span, depth: nat)
    requires s.from <= s.to && depth <= SPLIT_DEPTH
    ensures LogsInSpan(query, s.from, s.to, depth).Some? <==> AllRead(query, s, SPLIT_DEPTH - depth)
    decreases SPLIT_DEPTH - depth
  {
    var most := SPLIT_DEPTH - depth;
    if Ask(query, s).Logs? {
      forall block: nat | s.from <= block <= s.to ensures Read(query, s, block, most) {
        assert ReadAt(query, s, block, 0);
      }
    } else if Ask(query, s).Failed? || s.from == s.to || most == 0 {
      Unreadable(query, s, most);
    } else {
      var middle := s.from + (s.to - s.from) / 2;
      ReadIff(query, Span(s.from, middle), depth + 1);
      ReadIff(query, Span(middle + 1, s.to), depth + 1);
      AllReadHalves(query, s, middle, most);
    }
  }

  /** The provider answers spans of up to `cap` blocks and refuses wider ones as too wide. */
  ghost predicate Capped(query: (nat, nat) -> Answer, cap: nat) {
    forall from: nat, to: nat :: from <= to ==> CappedAt(query, cap, from, to)
  }

  predicate CappedAt(query: (nat, nat) -> Answer, cap: nat, from: nat, to: nat) {
    if to - from < cap then query(from, to).Logs? else query(from, to).TooWide?
  }

  function Reach(cap: nat, halvings: nat): nat { if halvings == 0 then cap else 2 * Reach(cap, halvings - 1) }

  lemma {:induction false} ReachGrows(cap: nat, halvings: nat)
    ensures cap <= Reach(cap, halvings)
  {
    if halvings > 0 { ReachGrows(cap, halvings - 1); }
  }

  lemma {:induction false} HalvesFit(from: nat, to: nat, middle: nat, width: nat)
    requires from < to && middle == from + (to - from) / 2
    ensures to - from + 1 <= 2 * width <==> middle - from + 1 <= width && to - middle <= width
  {
  }

  lemma {:induction false} CapReads(query: (nat, nat) -> Answer, cap: nat, from: nat, to: nat, depth: nat)
    requires Capped(query, cap) && from <= to && depth <= SPLIT_DEPTH
    ensures LogsInSpan(query, from, to, depth).Some? <==> to - from + 1 <= Reach(cap, SPLIT_DEPTH - depth)
    decreases SPLIT_DEPTH - depth
  {
    ReachGrows(cap, SPLIT_DEPTH - depth);
    assert CappedAt(query, cap, from, to);
    if to - from < cap || depth == SPLIT_DEPTH {
    } else if from == to {
      NoReach(SPLIT_DEPTH - depth);
    } else {
      var middle := from + (to - from) / 2;
      HalvesFit(from, to, middle, Reach(cap, SPLIT_DEPTH - depth - 1));
      CapReads(query, cap, from, middle, depth + 1);
      CapReads(query, cap, middle + 1, to, depth + 1);
    }
  }

  lemma {:induction false} NoReach(halvings: nat)
    ensures Reach(0, halvings) == 0
  {
    if halvings > 0 { NoReach(halvings - 1); }
  }

  /** With such a provider exactly the spans of up to 64 times its cap are read; that is every span
      the scan asks for if and only if the cap is at least 157 blocks. */
  lemma {:induction false} CapIff(query: (nat, nat) -> Answer, cap: nat)
    requires Capped(query, cap)
    ensures forall from: nat, to: nat :: from <= to ==>
      (LogsInSpan(query, from, to, 0).Some? <==> to - from + 1 <= 64 * cap)
    ensures (forall from: nat, to: nat :: from <= to && to - from < RANGE_LIMIT ==>
      LogsInSpan(query, from, to, 0).Some?) <==> cap >= 157
  {
    assert Reach(cap, 6) == 64 * cap by {
      assert Reach(cap, 1) == 2 * Reach(cap, 0);
      assert Reach(cap, 2) == 4 * cap;
      assert Reach(cap, 4) == 4 * Reach(cap, 2);
      assert Reach(cap, 6) == 4 * Reach(cap, 4);
    }
    forall from: nat, to: nat | from <= to
      ensures LogsInSpan(query, from, to, 0).Some? <==> to - from + 1 <= 64 * cap
    {
      CapReads(query, cap, from, to, 0);
    }
    assert LogsInSpan(query, 0, 9_999, 0).Some? <==> 10_000 <= 64 * cap;
  }

  // ------------------------------------------------------------ ordering

  /** The map of `orderLogs`: a later log of a transaction takes the place of an earlier one. */
  function Put(unique: seq<Log>, x: Log): (r: seq<Log>)
    ensures |unique| <= |r|
  {
    if unique == [] then [x]
    else if unique[0].tx == x.tx then [x] + unique[1..]
    else [unique[0]] + Put(unique[1..], x)
  }

  function Unique(logs: seq<Log>): seq<Log> {
    if logs == [] then [] else
    var n := |logs| - 1;
    if logs[n].removed then Unique(logs[..n]) else Put(Unique(logs[..n]), logs[n])
  }

  predicate NewerFirst(a: Log, b: Log) { Before(b, a) }

  /** `orderLogs`. */
  function OrderLogs(logs: seq<Log>): seq<Log> { SortBy(Unique(logs), NewerFirst) }

  /** The loop of `orderLogs`. */
  method OrderLogsLoop(logs: seq<Log>) returns (r: seq<Log>)
    ensures r == OrderLogs(logs)
  {
    var unique: seq<Log> := [];
    for i := 0 to |logs|
      invariant unique == Unique(logs[..i])
    {
      assert logs[..i + 1][..i] == logs[..i];
      if !logs[i].removed { unique := Put(unique, logs[i]); }
    }
    assert logs[..|logs|] == logs;
    r := SortBy(unique, NewerFirst);
  }

  predicate Shows(x: Log, tx: string) { !x.removed && x.tx == tx }

  ghost predicate LastAt(logs: seq<Log>, x: Log, i: int) {
    0 <= i < |logs| && logs[i] == x && !x.removed && forall j :: i < j < |logs| ==> !Shows(logs[j], x.tx)
  }

  /** `x` is the last log of its transaction that was not removed. */
  ghost predicate Represents(logs: seq<Log>, x: Log) { exists i :: LastAt(logs, x, i) }

  predicate OnePerTx(s: seq<Log>) { forall i, j :: 0 <= i < j < |s| ==> s[i].tx != s[j].tx }

  lemma {:induction false} PutIs(unique: seq<Log>, x: Log)
    requires OnePerTx(unique)
    ensures OnePerTx(Put(unique, x))
    ensures forall y :: y in Put(unique, x) <==> y == x || (y in unique && y.tx != x.tx)
  {
    if unique != [] {
      assert unique == [unique[0]] + unique[1..];
      if unique[0].tx != x.tx {
        PutIs(unique[1..], x);
        var tail := Put(unique[1..], x);
        forall j | 0 <= j < |tail| ensures tail[j].tx != unique[0].tx {
          assert tail[j] in tail;
          if tail[j] != x { assert tail[j] in unique[1..]; }
        }
      }
    }
  }

  lemma {:induction false} RepresentsNext(logs: seq<Log>, x: Log, y: Log)
    ensures Represents(logs + [x], y) <==> (y == x && !x.removed) || (Represents(logs, y) && !Shows(x, y.tx))
  {
    var more, n := logs + [x], |logs|;
    assert more[n] == x && forall j :: 0 <= j < n ==> more[j] == logs[j];
    if Represents(more, y) {
      var i :| LastAt(more, y, i);
      if i < n { assert LastAt(logs, y, i); }
    }
    if y == x && !x.removed { assert LastAt(more, y, n); }
    if Represents(logs, y) && !Shows(x, y.tx) {
      var i :| LastAt(logs, y, i);
      assert LastAt(more, y, i);
    }
  }

  lemma {:induction false} UniqueIs(logs: seq<Log>)
    ensures OnePerTx(Unique(logs)) && forall y :: y in Unique(logs) <==> Represents(logs, y)
  {
    if logs != [] {
      var n := |logs| - 1;
      UniqueIs(logs[..n]);
      assert logs == logs[..n] + [logs[n]];
      forall y ensures y in Unique(logs) <==> Represents(logs, y) {
        RepresentsNext(logs[..n], logs[n], y);
        if !logs[n].removed { PutIs(Unique(logs[..n]), logs[n]); }
      }
      if !logs[n].removed { PutIs(Unique(logs[..n]), logs[n]); }
    }
  }

  lemma {:induction false} NewerOrder()
    ensures WeakOrder(NewerFirst)
  {
  }

  lemma {:induction false} ChainComparable(logs: seq<Log>, x: Log, y: Log)
    requires Chain(logs) && x in logs && y in logs && x != y
    ensures NewerFirst(x, y) || NewerFirst(y, x)
  {
    var i :| 0 <= i < |logs| && logs[i] == x;
    var j :| 0 <= j < |logs| && logs[j] == y;
    assert i < j ==> Before(logs[i], logs[j]);
    assert j < i ==> Before(logs[j], logs[i]);
  }

  /** Newest first, and exactly the representative of each transaction. */
  lemma {:induction false} OrderLogsIs(logs: seq<Log>)
    requires Chain(logs)
    ensures StrictlySorted(OrderLogs(logs), NewerFirst) && forall y :: y in OrderLogs(logs) <==> Represents(logs, y)
  {
    var u, s := Unique(logs), OrderLogs(logs);
    NewerOrder();
    SortBySorts(u, NewerFirst);
    UniqueIs(logs);
    forall y ensures y in s <==> Represents(logs, y) {
      assert y in s <==> y in multiset(s);
      assert y in u <==> y in multiset(u);
    }
    forall i, j | 0 <= i < j < |s| ensures NewerFirst(s[i], s[j]) || NewerFirst(s[j], s[i]) {
      DuplicateCount(s, i, j);
      OnceInUnique(u, s[i]);
      assert s[i] in s && s[j] in s;
      ChainComparable(logs, s[i], s[j]);
    }
    SortedDistinctIsStrict(s, NewerFirst);
  }

  lemma {:induction false} OnceInUnique(u: seq<Log>, x: Log)
    requires OnePerTx(u)
    ensures multiset(u)[x] <= 1
  {
    forall i, j | 0 <= i < j < |u| ensures u[i] != u[j] { assert u[i].tx != u[j].tx; }
    OccursOnce(u, x);
  }

  // ---------------------------------------------------- spans put together

  predicate Older(a: seq<Log>, b: seq<Log>) { forall i, j :: 0 <= i < |a| && 0 <= j < |b| ==> a[i].block < b[j].block }

  lemma {:induction false} RepresentsJoin(a: seq<Log>, b: seq<Log>, y: Log)
    requires Chain(a + b) && Older(a, b)
    ensures Represents(a + b, y) <==> Represents(a, y) || Represents(b, y)
  {
    if Represents(a + b, y) { RepresentsPart(a, b, y); }
    if Represents(b, y) { RepresentsNewer(a, b, y); }
    if Represents(a, y) { RepresentsOlder(a, b, y); }
  }

  lemma {:induction false} RepresentsPart(a: seq<Log>, b: seq<Log>, y: Log)
    requires Represents(a + b, y)
    ensures Represents(a, y) || Represents(b, y)
  {
    var s, n := a + b, |a|;
    var i :| LastAt(s, y, i);
    if i < n {
      assert forall j :: i <= j < n ==> a[j] == s[j];
      assert LastAt(a, y, i);
    } else {
      assert forall j :: i - n <= j < |b| ==> b[j] == s[n + j];
      assert LastAt(b, y, i - n);
    }
  }

  lemma {:induction false} RepresentsNewer(a: seq<Log>, b: seq<Log>, y: Log)
    requires Represents(b, y)
    ensures Represents(a + b, y)
  {
    var s, n := a + b, |a|;
    var i :| LastAt(b, y, i);
    assert forall j :: n + i <= j < |s| ==> s[j] == b[j - n];
    assert LastAt(s, y, n + i);
  }

  lemma {:induction false} RepresentsOlder(a: seq<Log>, b: seq<Log>, y: Log)
    requires Chain(a + b) && Older(a, b) && Represents(a, y)
    ensures Represents(a + b, y)
  {
    var s, n := a + b, |a|;
    var i :| LastAt(a, y, i);
    assert s[i] == a[i];
    forall j | i < j < |s| ensures !Shows(s[j], y.tx) {
      if j >= n { assert a[i].block < b[j - n].block && s[i].block != s[j].block; }
    }
    assert LastAt(s, y, i);
  }

  lemma {:induction false} JoinSorted(newer: seq<Log>, older: seq<Log>)
    requires StrictlySorted(newer, NewerFirst) && StrictlySorted(older, NewerFirst) && Older(older, newer)
    ensures StrictlySorted(newer + older, NewerFirst)
  {
  }

  lemma {:induction false} ChainParts(a: seq<Log>, b: seq<Log>)
    requires Chain(a + b)
    ensures Chain(a) && Chain(b)
  {
    var s := a + b;
    assert (forall i :: 0 <= i < |a| ==> s[i] == a[i]) && forall i :: 0 <= i < |b| ==> s[|a| + i] == b[i];
    forall i, j | 0 <= i < j < |b| ensures Before(b[i], b[j]) && (b[i].tx == b[j].tx ==> b[i].block == b[j].block) {
      assert Before(s[|a| + i], s[|a| + j]);
    }
  }

  lemma {:induction false} OrderedOlder(a: seq<Log>, b: seq<Log>)
    requires Chain(a) && Chain(b) && Older(a, b)
    ensures Older(OrderLogs(a), OrderLogs(b))
  {
    OrderLogsIs(a);
    OrderLogsIs(b);
    var x, y := OrderLogs(a), OrderLogs(b);
    forall i, j | 0 <= i < |x| && 0 <= j < |y| ensures x[i].block < y[j].block {
      assert x[i] in x && y[j] in y;
      var k :| LastAt(a, x[i], k);
      var m :| LastAt(b, y[j], m);
    }
  }

  /** Ordering two neighbouring spans at once or one after the other is the same. */
  lemma {:induction false} OrderJoin(a: seq<Log>, b: seq<Log>)
    requires Chain(a + b) && Older(a, b)
    ensures OrderLogs(a + b) == OrderLogs(b) + OrderLogs(a)
  {
    ChainParts(a, b);
    OrderLogsIs(a + b);
    OrderLogsIs(a);
    OrderLogsIs(b);
    OrderedOlder(a, b);
    JoinSorted(OrderLogs(b), OrderLogs(a));
    NewerOrder();
    forall y ensures y in OrderLogs(a + b) <==> y in OrderLogs(b) + OrderLogs(a) { RepresentsJoin(a, b, y); }
    SortedUnique(OrderLogs(a + b), OrderLogs(b) + OrderLogs(a), NewerFirst);
  }

  lemma {:induction false} SliceChain(all: seq<Log>, from: nat, to: nat)
    requires Chain(all)
    ensures Chain(Slice(all, from, to))
  {
    if all != [] {
      var n := |all| - 1;
      SliceChain(all[..n], from, to);
      SliceIn(all[..n], from, to);
      var s := Slice(all[..n], from, to);
      forall i | 0 <= i < |s| ensures Before(s[i], all[n]) && (s[i].tx == all[n].tx ==> s[i].block == all[n].block) {
        assert s[i] in s;
        var k :| 0 <= k < n && all[..n][k] == s[i];
        assert Before(all[k], all[n]);
      }
    }
  }

  /** The wide view of a window is the view of its newer part and then of its older part. */
  lemma {:induction false} ViewJoin(all: seq<Log>, from: nat, middle: nat, to: nat)
    requires Chain(all) && from <= middle + 1 && middle <= to
    ensures OrderLogs(Slice(all, from, to)) ==
      OrderLogs(Slice(all, middle + 1, to)) + OrderLogs(Slice(all, from, middle))
  {
    var a, b := Slice(all, from, middle), Slice(all, middle + 1, to);
    SliceJoin(all, from, middle, to);
    SliceChain(all, from, to);
    SliceIn(all, from, middle);
    SliceIn(all, middle + 1, to);
    forall i, j | 0 <= i < |a| && 0 <= j < |b| ensures a[i].block < b[j].block { assert a[i] in a && b[j] in b; }
    OrderJoin(a, b);
  }

  lemma {:induction false} ViewOnePerTx(logs: seq<Log>)
    requires Chain(logs)
    ensures OnePerTx(OrderLogs(logs))
  {
    OrderLogsIs(logs);
    var s := OrderLogs(logs);
    forall i, j | 0 <= i < j < |s| ensures s[i].tx != s[j].tx {
      assert NewerFirst(s[i], s[j]);
      assert s[i] in s && s[j] in s;
      var k :| LastAt(logs, s[i], k);
      var m :| LastAt(logs, s[j], m);
      assert k < m ==> !Shows(logs[m], s[i].tx);
      assert m < k ==> !Shows(logs[k], s[j].tx);
    }
  }

  // ------------------------------------------------------------ scanning

  /** What is found out about a log: its transaction, receipt and block time cannot be had, it is
      passed over (incomplete, or another sender's), or it is shown. */
  datatype Lookup<+T> = Lost | Skip | Item(value: T)

  function Described<T>(look: Log -> Lookup<T>, s: seq<Log>): seq<T> {
    if s == [] then [] else
    var n := |s| - 1;
    Described(look, s[..n]) + if look(s[n]).Item? then [look(s[n]).value] else []
  }

  function AtLeastOne(limit: int): nat { if limit < 1 then 1 else limit }

  function Cut<T>(s: seq<T>, limit: int): seq<T> { if |s| <= AtLeastOne(limit) then s else s[..AtLeastOne(limit)] }

  /** The simple form: one wide query, deduplicated, newest first, filtered and cut off. */
  function Simple<T>(look: Log -> Lookup<T>, all: seq<Log>, from: nat, to: nat, limit: int): seq<T> {
    Cut(Described(look, OrderLogs(Slice(all, from, to))), limit)
  }

  /** A positive limit bounds the output, any other stands for 1; below it nothing is cut off. */
  lemma {:induction false} SimpleLimit<T>(look: Log -> Lookup<T>, all: seq<Log>, from: nat, to: nat, limit: int)
    ensures var shown, whole := Simple(look, all, from, to, limit), Described(look, OrderLogs(Slice(all, from, to)));
      && shown <= whole && (limit >= 1 ==> |shown| <= limit) && (limit < 1 ==> |shown| <= 1)
      && (shown != whole ==> |shown| == if limit >= 1 then limit else 1)
  {
  }

  lemma {:induction false} DescribedPrefix<T>(look: Log -> Lookup<T>, a: seq<Log>, b: seq<Log>)
    ensures Described(look, a) <= Described(look, a + b)
    decreases |b|
  {
    if b == [] {
      assert a + b == a;
    } else {
      DescribedPrefix(look, a, b[..|b| - 1]);
      assert (a + b)[..|a + b| - 1] == a + b[..|b| - 1];
    }
  }

  function Hashes(s: seq<Log>): set<string> { set i | 0 <= i < |s| :: s[i].tx }

  lemma {:induction false} ScanNext<T>(look: Log -> Lookup<T>, done: seq<Log>, ordered: seq<Log>, i: nat)
    requires OnePerTx(done + ordered) && i < |ordered|
    ensures var now, next, x := done + ordered[..i], done + ordered[..i + 1], ordered[i];
      && x.tx !in Hashes(now) && Hashes(next) == Hashes(now) + {x.tx}
      && Described(look, next) == Described(look, now) + if look(x).Item? then [look(x).value] else []
  {
    var now, next := done + ordered[..i], done + ordered[..i + 1];
    assert next[..|next| - 1] == now && next[|next| - 1] == ordered[i];
    forall k | 0 <= k < |now| ensures now[k].tx != ordered[i].tx {
      assert now[k] == (done + ordered)[k] && (done + ordered)[|done| + i] == ordered[i];
    }
  }

  /** No lookup of these logs fails. */
  predicate Intact<T>(look: Log -> Lookup<T>, logs: seq<Log>) { forall j :: 0 <= j < |logs| ==> !look(logs[j]).Lost? }

  /** These logs alone fill the output. */
  predicate Enough<T>(look: Log -> Lookup<T>, logs: seq<Log>, limit: int) {
    |Described(look, logs)| >= AtLeastOne(limit)
  }

  /** Some lookup fails before the output is full. */
  ghost predicate Broken<T>(look: Log -> Lookup<T>, logs: seq<Log>, limit: int) {
    exists j :: 0 <= j < |logs| && look(logs[j]).Lost? && !Enough(look, logs[..j], limit)
  }

  datatype Verdict = Going | Full | Failing

  /** What scanning `done` has established. */
  ghost predicate Scanned<T>(look: Log -> Lookup<T>, done: seq<Log>, limit: int, output: seq<T>, seen: set<string>) {
    output == Described(look, done) && seen == Hashes(done) && |output| < AtLeastOne(limit) && Intact(look, done)
  }

  /** One more log, which no earlier one shares its transaction with. */
  lemma {:induction false} ScanStep<T>(look: Log -> Lookup<T>, now: seq<Log>, x: Log, limit: int, output: seq<T>,
      seen: set<string>)
    requires Scanned(look, now, limit, output, seen)
    requires Hashes(now + [x]) == Hashes(now) + {x.tx}
    requires Described(look, now + [x]) == Described(look, now) + if look(x).Item? then [look(x).value] else []
    ensures look(x).Skip? ==> Scanned(look, now + [x], limit, output, seen + {x.tx})
    ensures look(x).Item? ==> Described(look, now + [x]) == output + [look(x).value] && Intact(look, now + [x])
    ensures look(x).Item? && |output| + 1 < AtLeastOne(limit) ==>
      Scanned(look, now + [x], limit, output + [look(x).value], seen + {x.tx})
  {
  }

  /** The inner loop of `contractActivity`: `done` is what earlier spans contributed. */
  method ScanSpan<T>(look: Log -> Lookup<T>, ordered: seq<Log>, limit: int, start: seq<T>, known: set<string>,
      ghost done: seq<Log>)
    returns (output: seq<T>, seen: set<string>, verdict: Verdict, ghost upto: nat)
    requires OnePerTx(done + ordered) && Scanned(look, done, limit, start, known)
    ensures upto <= |ordered| && output == Described(look, done + ordered[..upto])
    ensures Intact(look, done + ordered[..upto])
    ensures verdict == Full ==> |output| == AtLeastOne(limit)
    ensures verdict == Failing ==> upto < |ordered| && look(ordered[upto]).Lost? && |output| < AtLeastOne(limit)
    ensures verdict == Going ==> upto == |ordered| && Scanned(look, done + ordered, limit, output, seen)
  {
    output, seen, verdict, upto := start, known, Going, 0;
    assert done + ordered[..0] == done;
    for i := 0 to |ordered|
      invariant verdict == Going && upto == i && Scanned(look, done + ordered[..i], limit, output, seen)
    {
      ScanNext(look, done, ordered, i);
      var x := ordered[i];
      assert done + ordered[..i + 1] == (done + ordered[..i]) + [x];
      ScanStep(look, done + ordered[..i], x, limit, output, seen);
      if x.tx !in seen {
        seen := seen + {x.tx};
        var found := look(x);
        if found.Lost? { return output, seen, Failing, i; }
        upto := i + 1;
        if found.Item? {
          output := output + [found.value];
          if |output| >= limit { return output, seen, Full, i + 1; }
        }
      }
    }
    assert ordered[..|ordered|] == ordered;
  }

  /** The ordered view of any window. */
  ghost function View(all: seq<Log>): (nat, nat) -> seq<Log> { (from: nat, to: nat) => OrderLogs(Slice(all, from, to)) }

  ghost predicate JoinsAt(view: (nat, nat) -> seq<Log>, from: nat, middle: nat, to: nat) {
    from <= middle + 1 && middle <= to ==> view(from, to) == view(middle + 1, to) + view(from, middle)
  }

  /** Views of neighbouring windows concatenate, and show each transaction once. */
  ghost predicate Views(view: (nat, nat) -> seq<Log>) {
    && (forall from: nat, middle: nat, to: nat :: JoinsAt(view, from, middle, to))
    && (forall from: nat, to: nat :: OnePerTx(view(from, to)))
    && forall to: nat :: EmptyAt(view, to)
  }

  ghost predicate EmptyAt(view: (nat, nat) -> seq<Log>, to: nat) { view(to + 1, to) == [] }

  lemma {:induction false} ChainViews(all: seq<Log>)
    requires Chain(all)
    ensures Views(View(all))
  {
    var view := View(all);
    forall from: nat, middle: nat, to: nat ensures JoinsAt(view, from, middle, to) {
      if from <= middle + 1 && middle <= to { ViewJoin(all, from, middle, to); }
    }
    forall from: nat, to: nat ensures OnePerTx(view(from, to)) {
      SliceChain(all, from, to);
      ViewOnePerTx(Slice(all, from, to));
    }
    forall to: nat ensures EmptyAt(view, to) { SliceEmpty(all, to + 1, to); }
  }

  /** The provider never answers this span, and what is newer does not fill the output. */
  ghost predicate Blocks<T>(query: (nat, nat) -> Answer, look: Log -> Lookup<T>, view: (nat, nat) -> seq<Log>,
      span: Span, to: nat, limit: int) {
    LogsInSpan(query, span.from, span.to, 0).None? && !Enough(look, view(span.to + 1, to), limit)
  }

  /** Once a window fills the output, so does every longer one. */
  lemma {:induction false} EnoughStays<T>(look: Log -> Lookup<T>, view: (nat, nat) -> seq<Log>, low: nat, from: nat,
      to: nat, limit: int)
    requires Views(view) && low <= from <= to && Enough(look, view(from, to), limit)
    ensures Enough(look, view(low, to), limit)
  {
    if low < from {
      assert JoinsAt(view, low, from - 1, to);
      DescribedPrefix(look, view(from, to), view(low, from - 1));
    }
  }

  /** A full output was reached before any older span could block. */
  lemma {:induction false} FullUnblocked<T>(query: (nat, nat) -> Answer, look: Log -> Lookup<T>,
      view: (nat, nat) -> seq<Log>, spans: seq<Span>, from: nat, to: nat, k: nat, limit: int)
    requires Views(view) && Partition(spans, from, to) && k < |spans| && Enough(look, view(spans[k].from, to), limit)
    requires forall j :: 0 <= j <= k ==> LogsInSpan(query, spans[j].from, spans[j].to, 0).Some?
    ensures forall j :: 0 <= j < |spans| ==> !Blocks(query, look, view, spans[j], to, limit)
  {
    forall j | k < j < |spans| ensures !Blocks(query, look, view, spans[j], to, limit) {
      SpansDescend(spans, from, to, k, j);
      SpansWithin(spans, from, to, k);
      EnoughStays(look, view, spans[j].to + 1, spans[k].from, to, limit);
    }
  }

  /** A full output is a prefix of the wide view, cut off at the limit. */
  lemma {:induction false} FullIsCut<T>(look: Log -> Lookup<T>, limit: int, prefix: seq<Log>, rest: seq<Log>,
      output: seq<T>)
    requires output == Described(look, prefix) && |output| == AtLeastOne(limit)
    ensures output == Cut(Described(look, prefix + rest), limit)
  {
    DescribedPrefix(look, prefix, rest);
    assert Described(look, prefix + rest)[..|output|] == output;
  }

  lemma {:induction false} PrefixOfView(view: (nat, nat) -> seq<Log>, from: nat, span: Span, to: nat, upto: nat)
    returns (rest: seq<Log>)
    requires Views(view) && from <= span.from <= span.to <= to && upto <= |view(span.from, span.to)|
    ensures view(from, to) == (view(span.to + 1, to) + view(span.from, span.to)[..upto]) + rest
  {
    var done, ordered := view(span.to + 1, to), view(span.from, span.to);
    assert JoinsAt(view, span.from, span.to, to);
    rest := ordered[upto..];
    assert done + ordered == (done + ordered[..upto]) + rest;
    if from < span.from {
      assert JoinsAt(view, from, span.from - 1, to);
      var older := view(from, span.from - 1);
      assert ((done + ordered[..upto]) + rest) + older == (done + ordered[..upto]) + (rest + older);
      rest := rest + older;
    }
  }

  /** What is already full is not broken by anything older. */
  lemma {:induction false} FullUnbroken<T>(look: Log -> Lookup<T>, limit: int, prefix: seq<Log>, rest: seq<Log>)
    requires Intact(look, prefix) && Enough(look, prefix, limit)
    ensures !Broken(look, prefix + rest, limit)
  {
    var all := prefix + rest;
    forall j | 0 <= j < |all| ensures !look(all[j]).Lost? || Enough(look, all[..j], limit) {
      if j >= |prefix| {
        assert all[..j] == prefix + rest[..j - |prefix|];
        DescribedPrefix(look, prefix, rest[..j - |prefix|]);
      }
    }
  }

  predicate Loses<T>(look: Log -> Lookup<T>, logs: seq<Log>, at: nat) { at < |logs| && look(logs[at]).Lost? }

  lemma {:induction false} LostBreaks<T>(look: Log -> Lookup<T>, limit: int, prefix: seq<Log>, x: Log, rest: seq<Log>)
    requires look(x).Lost? && !Enough(look, prefix, limit)
    ensures Broken(look, (prefix + [x]) + rest, limit)
  {
    var all := (prefix + [x]) + rest;
    assert all[|prefix|] == x && all[..|prefix|] == prefix;
  }

  /** A scan that stopped within a span has the answer for the whole window, or none can be had. */
  lemma {:induction false} Stopped<T>(look: Log -> Lookup<T>, view: (nat, nat) -> seq<Log>, from: nat, span: Span,
      to: nat, limit: int, upto: nat, output: seq<T>)
    requires Views(view) && from <= span.from <= span.to <= to && upto <= |view(span.from, span.to)|
    requires var prefix := view(span.to + 1, to) + view(span.from, span.to)[..upto];
      output == Described(look, prefix) && Intact(look, prefix)
    ensures |output| == AtLeastOne(limit) ==> output == Cut(Described(look, view(from, to)), limit)
    ensures |output| == AtLeastOne(limit) ==>
      !Broken(look, view(from, to), limit) && Enough(look, view(span.from, to), limit)
    ensures |output| < AtLeastOne(limit) && Loses(look, view(span.from, span.to), upto) ==>
      Broken(look, view(from, to), limit)
  {
    var done, ordered := view(span.to + 1, to), view(span.from, span.to);
    var prefix := done + ordered[..upto];
    if |output| == AtLeastOne(limit) {
      var rest := PrefixOfView(view, from, span, to, upto);
      FullIsCut(look, limit, prefix, rest, output);
      FullUnbroken(look, limit, prefix, rest);
      rest := PrefixOfView(view, span.from, span, to, upto);
      DescribedPrefix(look, prefix, rest);
    } else if upto < |ordered| {
      var rest := PrefixOfView(view, from, span, to, upto + 1);
      assert done + ordered[..upto + 1] == prefix + [ordered[upto]];
      if |output| < AtLeastOne(limit) && look(ordered[upto]).Lost? {
        LostBreaks(look, limit, prefix, ordered[upto], rest);
      }
    }
  }

  /** One span of the scan. */
  method ScanOne<T>(look: Log -> Lookup<T>, ordered: seq<Log>, ghost view: (nat, nat) -> seq<Log>, ghost from: nat,
      ghost span: Span, ghost to: nat, limit: int, start: seq<T>, known: set<string>)
    returns (output: seq<T>, seen: set<string>, verdict: Verdict)
    requires Views(view) && from <= span.from <= span.to <= to && ordered == view(span.from, span.to)
    requires Scanned(look, view(span.to + 1, to), limit, start, known)
    ensures verdict == Full ==> output == Cut(Described(look, view(from, to)), limit)
    ensures verdict == Full ==> Enough(look, view(span.from, to), limit) && !Broken(look, view(from, to), limit)
    ensures verdict == Failing ==> Broken(look, view(from, to), limit)
    ensures verdict == Going ==> Scanned(look, view(span.from, to), limit, output, seen)
  {
    ghost var done := view(span.to + 1, to);
    ghost var upto: nat;
    assert JoinsAt(view, span.from, span.to, to);
    output, seen, verdict, upto := ScanSpan(look, ordered, limit, start, known, done);
    Stopped(look, view, from, span, to, limit, upto, output);
  }

  /** `descendingSpans`. */
  method DescendingSpans(from: nat, to: nat) returns (spans: seq<Span>)
    ensures spans == Spans(from, to)
  {
    spans := [];
    var end: int := to;
    assert [] + Spans(from, to) == Spans(from, to);
    while end >= from
      invariant end >= -1 && spans + Spans(from, end) == Spans(from, to)
      decreases end + 1
    {
      var start := if end - RANGE_LIMIT + 1 > from then end - RANGE_LIMIT + 1 else from;
      ghost var rest := if start <= from then [] else Spans(from, start - 1);
      assert spans + ([Span(start, end)] + rest) == (spans + [Span(start, end)]) + rest;
      spans := spans + [Span(start, end)];
      if start == 0 || start <= from {
        assert spans + [] == spans;
        return;
      }
      end := start - 1;
    }
    assert spans + [] == spans;
  }

  const BLOCK_WINDOW: nat := 100_000

  function WindowStart(latest: nat): (r: nat)
    ensures r <= latest && latest - r <= 100_000 && (r > 0 ==> latest - r == 100_000)
  {
    if latest > BLOCK_WINDOW then latest - BLOCK_WINDOW else 0
  }

  /** The window from the start of span `k` on has been read and scanned, and more is wanted. */
  ghost predicate Through<T>(query: (nat, nat) -> Answer, look: Log -> Lookup<T>, view: (nat, nat) -> seq<Log>,
      spans: seq<Span>, to: nat, limit: int, k: nat, output: seq<T>, seen: set<string>)
    requires k <= |spans|
  {
    && Scanned(look, view(if k == 0 then to + 1 else spans[k - 1].from, to), limit, output, seen)
    && forall j :: 0 <= j < k ==> LogsInSpan(query, spans[j].from, spans[j].to, 0).Some?
  }

  /** Why the scan of a window gives no result. */
  ghost predicate Hopeless<T>(query: (nat, nat) -> Answer, look: Log -> Lookup<T>, view: (nat, nat) -> seq<Log>,
      spans: seq<Span>, from: nat, to: nat, limit: int) {
    || (exists k :: 0 <= k < |spans| && Blocks(query, look, view, spans[k], to, limit))
    || Broken(look, view(from, to), limit)
  }

  lemma {:induction false} AllThrough<T>(query: (nat, nat) -> Answer, look: Log -> Lookup<T>,
      view: (nat, nat) -> seq<Log>, spans: seq<Span>, from: nat, to: nat, limit: int, output: seq<T>, seen: set<string>)
    requires Partition(spans, from, to) && Through(query, look, view, spans, to, limit, |spans|, output, seen)
    ensures output == Cut(Described(look, view(from, to)), limit)
    ensures !Hopeless(query, look, view, spans, from, to, limit)
  {
  }

  lemma {:induction false} TurnStarts<T>(query: (nat, nat) -> Answer, look: Log -> Lookup<T>,
      view: (nat, nat) -> seq<Log>, spans: seq<Span>, from: nat, to: nat, limit: int, k: nat, output: seq<T>,
      seen: set<string>)
    requires Partition(spans, from, to) && k < |spans|
    requires Through(query, look, view, spans, to, limit, k, output, seen)
    ensures from <= spans[k].from <= spans[k].to <= to
    ensures Scanned(look, view(spans[k].to + 1, to), limit, output, seen)
    ensures LogsInSpan(query, spans[k].from, spans[k].to, 0).None? ==>
      Hopeless(query, look, view, spans, from, to, limit)
  {
    SpansWithin(spans, from, to, k);
    assert k > 0 ==> spans[k].to + 1 == spans[k - 1].from;
    if LogsInSpan(query, spans[k].from, spans[k].to, 0).None? {
      assert Blocks(query, look, view, spans[k], to, limit);
    }
  }

  lemma {:induction false} TurnGoesOn<T>(query: (nat, nat) -> Answer, look: Log -> Lookup<T>,
      view: (nat, nat) -> seq<Log>, spans: seq<Span>, to: nat, limit: int, k: nat, start: seq<T>, known: set<string>,
      output: seq<T>, seen: set<string>)
    requires k < |spans| && Through(query, look, view, spans, to, limit, k, start, known)
    requires LogsInSpan(query, spans[k].from, spans[k].to, 0).Some?
    requires Scanned(look, view(spans[k].from, to), limit, output, seen)
    ensures Through(query, look, view, spans, to, limit, k + 1, output, seen)
  {
  }

  /** One turn of the outer loop of `contractActivity`. */
  method ScanNextSpan<T>(query: (nat, nat) -> Answer, look: Log -> Lookup<T>, spans: seq<Span>, ghost from: nat,
      ghost to: nat, limit: int, ghost view: (nat, nat) -> seq<Log>, k: nat, start: seq<T>, known: set<string>)
    returns (output: seq<T>, seen: set<string>, verdict: Verdict)
    requires Views(view) && Partition(spans, from, to) && k < |spans| && ViewedBy(query, view, spans[k])
    requires Through(query, look, view, spans, to, limit, k, start, known)
    ensures verdict == Full ==>
      output == Cut(Described(look, view(from, to)), limit) && !Hopeless(query, look, view, spans, from, to, limit)
    ensures verdict == Failing ==> Hopeless(query, look, view, spans, from, to, limit)
    ensures verdict == Going ==> Through(query, look, view, spans, to, limit, k + 1, output, seen)
  {
    TurnStarts(query, look, view, spans, from, to, limit, k, start, known);
    var logs := LogsInSpan(query, spans[k].from, spans[k].to, 0);
    if logs.None? { return start, known, Failing; }
    var ordered := OrderLogsLoop(logs.value);
    output, seen, verdict := ScanOne(look, ordered, view, from, spans[k], to, limit, start, known);
    if verdict == Full { FullUnblocked(query, look, view, spans, from, to, k, limit); }
    if verdict == Going { TurnGoesOn(query, look, view, spans, to, limit, k, start, known, output, seen); }
  }

  /** The outer loop of `contractActivity`, over spans read through `query`. */
  method ScanSpans<T>(query: (nat, nat) -> Answer, look: Log -> Lookup<T>, spans: seq<Span>, ghost from: nat,
      ghost to: nat, limit: int, ghost view: (nat, nat) -> seq<Log>)
    returns (r: Option<seq<T>>)
    requires Views(view) && Partition(spans, from, to)
    requires forall k :: 0 <= k < |spans| ==> ViewedBy(query, view, spans[k])
    ensures r.Some? ==> r.value == Cut(Described(look, view(from, to)), limit)
    ensures r.None? <==> Hopeless(query, look, view, spans, from, to, limit)
  {
    assert EmptyAt(view, to);
    var output: seq<T>, seen: set<string> := [], {};
    for k := 0 to |spans|
      invariant Through(query, look, view, spans, to, limit, k, output, seen)
    {
      var verdict;
      output, seen, verdict := ScanNextSpan(query, look, spans, from, to, limit, view, k, output, seen);
      if verdict == Failing { return None; }
      if verdict == Full { return Some(output); }
    }
    AllThrough(query, look, view, spans, from, to, limit, output, seen);
    return Some(output);
  }

  ghost predicate ViewedBy(query: (nat, nat) -> Answer, view: (nat, nat) -> seq<Log>, span: Span) {
    var logs := LogsInSpan(query, span.from, span.to, 0);
    logs.Some? ==> OrderLogs(logs.value) == view(span.from, span.to)
  }

  /** `contractActivity`: it returns what the simple form gives, and fails exactly when a span or
      a lookup that is still needed fails. */
  method ContractActivity<T>(query: (nat, nat) -> Answer, look: Log -> Lookup<T>, latest: nat, limit: int,
      ghost all: seq<Log>)
    returns (r: Option<seq<T>>)
    requires Honest(query, all) && Chain(all)
    ensures r.Some? ==> r.value == Simple(look, all, WindowStart(latest), latest, limit)
    ensures r.None? <==>
      Hopeless(query, look, View(all), Spans(WindowStart(latest), latest), WindowStart(latest), latest, limit)
  {
    var from := WindowStart(latest);
    var spans := DescendingSpans(from, latest);
    SpansPartition(from, latest);
    ChainViews(all);
    forall k | 0 <= k < |spans| ensures ViewedBy(query, View(all), spans[k]) {
      HalvingExact(query, all, spans[k].from, spans[k].to, 0);
    }
    r := ScanSpans(query, look, spans, from, latest, limit, View(all));
  }

  /** With a cap of at least 157 blocks, the scan fails only over a lookup it still needs. */
  lemma {:induction false} CapSuffices<T>(query: (nat, nat) -> Answer, look: Log -> Lookup<T>, latest: nat, limit: int,
      all: seq<Log>, cap: nat)
    requires Capped(query, cap) && cap >= 157
    ensures var from := WindowStart(latest);
      Hopeless(query, look, View(all), Spans(from, latest), from, latest, limit) <==>
      Broken(look, View(all)(from, latest), limit)
  {
    var from := WindowStart(latest);
    var spans := Spans(from, latest);
    SpansPartition(from, latest);
    CapIff(query, cap);
    forall k | 0 <= k < |spans| ensures LogsInSpan(query, spans[k].from, spans[k].to, 0).Some? {}
  }

  lemma {:induction false} SpansWithin(spans: seq<Span>, from: nat, to: nat, k: nat)
    requires Partition(spans, from, to) && k < |spans|
    ensures spans[k].to <= to
  {
    if k > 0 {
      SpansWithin(spans, from, to, k - 1);
      assert spans[k].to + 1 == spans[k - 1].from;
    }
  }

  lemma {:induction false} SpansDescend(spans: seq<Span>, from: nat, to: nat, k: nat, j: nat)
    requires Partition(spans, from, to) && k < j < |spans|
    ensures spans[j].to < spans[k].from
  {
    assert spans[j].to + 1 == spans[j - 1].from;
    if k < j - 1 { SpansDescend(spans, from, to, k, j - 1); }
  }
}
