/** The upload quota: one fixed one-minute window per key, and what it guarantees over every
    sliding minute. */
module RateLimit {
  import opened Digits

  const MINUTE: int := 60_000_000_000

  datatype Window = Window(start: int, count: nat, bytes: nat)

  datatype Limits = Limits(maxBytes: int, rate: int, bytesPerMinute: int) {
    predicate Positive() { maxBytes > 0 && rate > 0 && bytesPerMinute > 0 }
  }

  /** `allow` for one key: the window afterwards, or nothing when the request is refused. */
  function Admit(l: Limits, w: Option<Window>, now: int, size: int): Option<Window> {
    if size <= 0 || size > l.maxBytes then None
    else if w.None? || now - w.value.start >= MINUTE then Some(Window(now, 1, size))
    else if w.value.count >= l.rate || (l.bytesPerMinute > 0 && w.value.bytes > l.bytesPerMinute - size) then None
    else Some(w.value.(count := w.value.count + 1, bytes := w.value.bytes + size))
  }

  function Lookup(windows: map<string, Window>, key: string): Option<Window> {
    if key in windows then Some(windows[key]) else None
  }

  function Key(subject: string, owner: string, repo: string): string { subject + "|" + owner + "/" + repo }

  lemma {:induction false} FirstCut(a: string, x: string, b: string, y: string, mark: char)
    requires mark !in a && mark !in b && a + [mark] + x == b + [mark] + y
    ensures a == b && x == y
  {
    var s, t := a + [mark] + x, b + [mark] + y;
    assert s[|a|] == mark && t[|b|] == mark;
    assert (forall i :: 0 <= i < |a| ==> s[i] == a[i]) && forall i :: 0 <= i < |b| ==> t[i] == b[i];
    assert a == s[..|a|] && b == t[..|b|] && x == s[|a| + 1..] && y == t[|b| + 1..];
  }

  /** Subjects without a bar and owners without a slash have a window of their own for each
      repository. */
  lemma {:induction false} KeyInjective(subject: string, owner: string, repo: string, subject': string, owner': string,
      repo': string)
    requires '|' !in subject && '|' !in subject' && '/' !in owner && '/' !in owner'
    requires Key(subject, owner, repo) == Key(subject', owner', repo')
    ensures subject == subject' && owner == owner' && repo == repo'
  {
    var x, y := owner + "/" + repo, owner' + "/" + repo';
    assert Key(subject, owner, repo) == subject + ['|'] + x && Key(subject', owner', repo') == subject' + ['|'] + y;
    FirstCut(subject, x, subject', y, '|');
    FirstCut(owner, repo, owner', repo', '/');
  }

  /** A slash in the owner lets two repositories share one window. */
  lemma {:induction false} KeysShared(subject: string)
    ensures Key(subject, "a/b", "c") == Key(subject, "a", "b/c")
  {
    assert "a/b" + "/" + "c" == "a" + "/" + "b/c";
    assert subject + "|" + "a/b" + "/" + "c" == subject + "|" + ("a/b" + "/" + "c");
    assert subject + "|" + "a" + "/" + "b/c" == subject + "|" + ("a" + "/" + "b/c");
  }

  // ------------------------------------------------------- runs of one key

  datatype Attempt = Attempt(now: int, size: int)

  predicate Ordered(s: seq<Attempt>) { forall i, j :: 0 <= i < j < |s| ==> s[i].now <= s[j].now }

  function WindowAfter(l: Limits, s: seq<Attempt>): Option<Window> {
    if s == [] then None else
    var before, last := WindowAfter(l, s[..|s| - 1]), s[|s| - 1];
    var r := Admit(l, before, last.now, last.size);
    if r.Some? then r else before
  }

  /** The attempts that were let through. */
  function Admitted(l: Limits, s: seq<Attempt>): seq<Attempt> {
    if s == [] then [] else
    var n := |s| - 1;
    Admitted(l, s[..n]) + if Admit(l, WindowAfter(l, s[..n]), s[n].now, s[n].size).Some? then [s[n]] else []
  }

  predicate Within(a: Attempt, from: int) { from <= a.now < from + MINUTE }

  function CountIn(s: seq<Attempt>, from: int): nat {
    if s == [] then 0 else CountIn(s[..|s| - 1], from) + if Within(s[|s| - 1], from) then 1 else 0
  }

  function BytesIn(s: seq<Attempt>, from: int): int {
    if s == [] then 0 else BytesIn(s[..|s| - 1], from) + if Within(s[|s| - 1], from) then s[|s| - 1].size else 0
  }

  function Bytes(s: seq<Attempt>): int {
    if s == [] then 0 else Bytes(s[..|s| - 1]) + s[|s| - 1].size
  }

  // ------------------------------------------------ the windows of a run

  /** One window's admissions. */
  ghost predicate WindowOk(l: Limits, g: seq<Attempt>) {
    && 0 < |g| <= l.rate && Ordered(g) && (forall i :: 0 <= i < |g| ==> 0 < g[i].size <= l.maxBytes)
    && (|g| >= 2 ==> Bytes(g) <= l.bytesPerMinute)
  }

  function Flat(groups: seq<seq<Attempt>>): seq<Attempt> {
    if groups == [] then [] else Flat(groups[..|groups| - 1]) + groups[|groups| - 1]
  }

  /** Windows follow each other at least a minute apart, and time never runs backwards. */
  ghost predicate Grouped(l: Limits, groups: seq<seq<Attempt>>) {
    && (forall i :: 0 <= i < |groups| ==> WindowOk(l, groups[i]))
    && (forall i :: 0 < i < |groups| ==> Apart(groups[i - 1], groups[i]))
  }

  ghost predicate Apart(g: seq<Attempt>, h: seq<Attempt>)
    requires g != [] && h != []
  {
    g[0].now + MINUTE <= h[0].now && g[|g| - 1].now <= h[0].now
  }

  /** The groups make up the admissions, and the last group is the current window; nothing is
      later than `now`. */
  ghost predicate Explains(l: Limits, groups: seq<seq<Attempt>>, admitted: seq<Attempt>, w: Option<Window>, now: int) {
    && Grouped(l, groups) && Flat(groups) == admitted && (groups == [] <==> w.None?)
    && (groups != [] ==> IsCurrent(groups[|groups| - 1], w.value, now))
  }

  ghost predicate IsCurrent(g: seq<Attempt>, w: Window, now: int) {
    g != [] && w.start == g[0].now && w.count == |g| && w.bytes == Bytes(g) && g[|g| - 1].now <= now
  }

  lemma {:induction false} BytesNext(g: seq<Attempt>, a: Attempt)
    ensures Bytes(g + [a]) == Bytes(g) + a.size
  {
    assert (g + [a])[..|g|] == g;
  }

  lemma {:induction false} FlatNext(groups: seq<seq<Attempt>>, g: seq<Attempt>)
    ensures Flat(groups + [g]) == Flat(groups) + g
  {
    assert (groups + [g])[..|groups|] == groups;
  }

  lemma {:induction false} GroupedNext(l: Limits, groups: seq<seq<Attempt>>, g: seq<Attempt>)
    requires Grouped(l, groups) && WindowOk(l, g) && (groups != [] ==> Apart(groups[|groups| - 1], g))
    ensures Grouped(l, groups + [g])
  {
    var more := groups + [g];
    assert forall i :: 0 <= i < |more| ==> WindowOk(l, more[i]);
    forall i: int | 0 < i < |more| ensures Apart(more[i - 1], more[i]) {
      if i < |groups| { assert Apart(groups[i - 1], groups[i]); }
    }
  }

  lemma {:induction false} GroupedPrefix(l: Limits, groups: seq<seq<Attempt>>, n: nat)
    requires Grouped(l, groups) && n <= |groups|
    ensures Grouped(l, groups[..n])
  {
    assert forall i :: 0 <= i < n ==> WindowOk(l, groups[i]);
    forall i: int | 0 < i < n
      ensures Apart(groups[..n][i - 1], groups[..n][i])
    {
      assert Apart(groups[i - 1], groups[i]);
    }
  }

  lemma {:induction false} OpensWindow(l: Limits, groups: seq<seq<Attempt>>, admitted: seq<Attempt>, w: Option<Window>,
      now: int, a: Attempt)
    requires l.Positive() && Explains(l, groups, admitted, w, now) && now <= a.now && 0 < a.size <= l.maxBytes
    requires w.None? || a.now - w.value.start >= MINUTE
    ensures Explains(l, groups + [[a]], admitted + [a], Some(Window(a.now, 1, a.size)), a.now)
  {
    GroupedNext(l, groups, [a]);
    FlatNext(groups, [a]);
    BytesNext([], a);
    assert [] + [a] == [a];
  }

  lemma {:induction false} WindowGrows(l: Limits, g: seq<Attempt>, a: Attempt, w: Window, now: int)
    requires WindowOk(l, g) && IsCurrent(g, w, now) && now <= a.now && 0 < a.size <= l.maxBytes
    requires w.count < l.rate && w.bytes <= l.bytesPerMinute - a.size
    ensures WindowOk(l, g + [a]) && IsCurrent(g + [a], w.(count := w.count + 1, bytes := Bytes(g) + a.size), a.now)
  {
    BytesNext(g, a);
  }

  lemma {:induction false} FillsWindow(l: Limits, before: seq<seq<Attempt>>, g: seq<Attempt>, admitted: seq<Attempt>,
      w: Window, now: int, a: Attempt)
    requires Explains(l, before + [g], admitted, Some(w), now) && now <= a.now && 0 < a.size <= l.maxBytes
    requires w.count < l.rate && w.bytes <= l.bytesPerMinute - a.size
    ensures Explains(l, before + [g + [a]], admitted + [a], Some(w.(count := w.count + 1, bytes := w.bytes + a.size)),
      a.now)
  {
    var groups, n := before + [g], |before|;
    assert groups[n] == g && groups[..n] == before;
    WindowGrows(l, g, a, w, now);
    GroupedPrefix(l, groups, n);
    assert n > 0 ==> Apart(groups[n - 1], groups[n]);
    GroupedNext(l, before, g + [a]);
    FlatNext(before, g);
    FlatNext(before, g + [a]);
    assert Flat(before) + (g + [a]) == Flat(before) + g + [a];
  }

  /** Every run of one key falls into such windows. */
  lemma {:induction false} RunGroups(l: Limits, s: seq<Attempt>, now: int) returns (groups: seq<seq<Attempt>>)
    requires l.Positive() && Ordered(s) && (s != [] ==> s[|s| - 1].now <= now)
    ensures Explains(l, groups, Admitted(l, s), WindowAfter(l, s), now)
  {
    if s == [] {
      groups := [];
    } else {
      var n := |s| - 1;
      var a := s[n];
      groups := RunGroups(l, s[..n], a.now);
      var admitted, w := Admitted(l, s[..n]), WindowAfter(l, s[..n]);
      if Admit(l, w, a.now, a.size).Some? {
        if w.None? || a.now - w.value.start >= MINUTE {
          OpensWindow(l, groups, admitted, w, a.now, a);
          groups := groups + [[a]];
        } else {
          var before, g := groups[..|groups| - 1], groups[|groups| - 1];
          assert groups == before + [g];
          FillsWindow(l, before, g, admitted, w.value, a.now, a);
          groups := before + [g + [a]];
        }
      } else {
        assert admitted + [] == admitted;
      }
    }
  }

  // --------------------------------------------------- any sliding minute

  lemma {:induction false} CountAppend(a: seq<Attempt>, b: seq<Attempt>, from: int)
    ensures CountIn(a + b, from) == CountIn(a, from) + CountIn(b, from)
    ensures BytesIn(a + b, from) == BytesIn(a, from) + BytesIn(b, from)
    decreases |b|
  {
    if b == [] {
      assert a + b == a;
    } else {
      CountAppend(a, b[..|b| - 1], from);
      assert (a + b)[..|a + b| - 1] == a + b[..|b| - 1];
    }
  }

  lemma {:induction false} CountBound(g: seq<Attempt>, from: int)
    requires forall i :: 0 <= i < |g| ==> g[i].size > 0
    ensures CountIn(g, from) <= |g| && 0 <= BytesIn(g, from) <= Bytes(g)
  {
    if g != [] { CountBound(g[..|g| - 1], from); }
  }

  lemma {:induction false} NoneIn(g: seq<Attempt>, from: int)
    requires forall i :: 0 <= i < |g| ==> !Within(g[i], from)
    ensures CountIn(g, from) == 0 && BytesIn(g, from) == 0
  {
    if g != [] { NoneIn(g[..|g| - 1], from); }
  }

  function Larger(a: int, b: int): int { if a > b then a else b }

  function Smaller(a: int, b: int): int { if a < b then a else b }

  /** What one window can hold: every admission is at least one byte long, and only the first
      is not measured against the bytes per minute. */
  function WindowCount(l: Limits): int { Smaller(l.rate, l.bytesPerMinute) }

  function WindowBytes(l: Limits): int { Larger(l.maxBytes, Smaller(l.bytesPerMinute, l.rate * l.maxBytes)) }

  /** What one window can hold after its first admission. */
  function LaterBytes(l: Limits): int { Smaller(l.bytesPerMinute - 1, (l.rate - 1) * l.maxBytes) }

  /** The most that any span shorter than a minute can see. */
  function MostCount(l: Limits): int { 2 * WindowCount(l) - 1 }

  function MostBytes(l: Limits): int { WindowBytes(l) + LaterBytes(l) }

  lemma {:induction false} SizesBound(g: seq<Attempt>, most: int)
    requires forall i :: 0 <= i < |g| ==> 0 < g[i].size <= most
    ensures |g| <= Bytes(g) <= |g| * most
  {
    if g != [] {
      var n := |g| - 1;
      SizesBound(g[..n], most);
      assert |g| * most == n * most + most;
    }
  }

  lemma {:induction false} ScaleUp(a: int, b: int, most: int)
    requires a <= b && most > 0
    ensures a * most <= b * most
  {
  }

  lemma {:induction false} WindowHolds(l: Limits, g: seq<Attempt>)
    requires l.Positive() && WindowOk(l, g)
    ensures |g| <= WindowCount(l) && Bytes(g) <= WindowBytes(l)
  {
    SizesBound(g, l.maxBytes);
    ScaleUp(|g|, l.rate, l.maxBytes);
  }

  /** A window whose first admission lies before the span loses at least that one. */
  lemma {:induction false} FirstOutside(l: Limits, g: seq<Attempt>, from: int)
    requires l.Positive() && WindowOk(l, g) && g[0].now < from
    ensures CountIn(g, from) <= WindowCount(l) - 1 && BytesIn(g, from) <= LaterBytes(l)
  {
    var tail := g[1..];
    assert g == [g[0]] + tail;
    CountAppend([g[0]], tail, from);
    NoneIn([g[0]], from);
    CountBound(tail, from);
    BytesSplit(g[0], tail);
    WindowHolds(l, g);
    SizesBound(tail, l.maxBytes);
    ScaleUp(|tail|, l.rate - 1, l.maxBytes);
    ScaleUp(0, l.rate - 1, l.maxBytes);
    if |g| == 1 { assert tail == []; }
  }

  lemma {:induction false} BytesSplit(a: Attempt, tail: seq<Attempt>)
    ensures Bytes([a] + tail) == a.size + Bytes(tail)
  {
    if tail == [] {
      assert [a] + tail == [] + [a];
      BytesNext([], a);
    } else {
      BytesSplit(a, tail[..|tail| - 1]);
      assert ([a] + tail)[..|tail|] == [a] + tail[..|tail| - 1];
    }
  }

  lemma {:induction false} AllPast(l: Limits, g: seq<Attempt>, from: int)
    requires WindowOk(l, g) && g[|g| - 1].now < from
    ensures CountIn(g, from) == 0 && BytesIn(g, from) == 0
  {
    NoneIn(g, from);
  }

  lemma {:induction false} Past(l: Limits, groups: seq<seq<Attempt>>, from: int)
    requires Grouped(l, groups) && (groups != [] ==> var g := groups[|groups| - 1]; g[|g| - 1].now < from)
    ensures CountIn(Flat(groups), from) == 0 && BytesIn(Flat(groups), from) == 0
  {
    if groups != [] {
      var n := |groups| - 1;
      var g, rest := groups[n], groups[..n];
      AllPast(l, g, from);
      GroupedPrefix(l, groups, n);
      if n > 0 {
        assert Apart(groups[n - 1], groups[n]);
        assert WindowOk(l, groups[n]);
      }
      Past(l, rest, from);
      CountAppend(Flat(rest), g, from);
    }
  }

  ghost predicate Bounded(l: Limits, s: seq<Attempt>, from: int) {
    CountIn(s, from) <= MostCount(l) && BytesIn(s, from) <= MostBytes(l)
  }

  /** What the windows before one that starts inside the span can still contribute. */
  lemma {:induction false} BeforeLast(l: Limits, groups: seq<seq<Attempt>>, from: int)
    requires l.Positive() && Grouped(l, groups)
    requires groups != [] ==> groups[|groups| - 1][0].now < from
    ensures CountIn(Flat(groups), from) <= WindowCount(l) - 1 && BytesIn(Flat(groups), from) <= LaterBytes(l)
  {
    ScaleUp(0, l.rate - 1, l.maxBytes);
    if groups != [] {
      var n := |groups| - 1;
      var h := groups[n];
      assert WindowOk(l, h);
      FirstOutside(l, h, from);
      GroupedPrefix(l, groups, n);
      assert n > 0 ==> Apart(groups[n - 1], h);
      Past(l, groups[..n], from);
      CountAppend(Flat(groups[..n]), h, from);
    }
  }

  lemma {:induction false} LastInside(l: Limits, rest: seq<seq<Attempt>>, g: seq<Attempt>, from: int)
    requires l.Positive() && Grouped(l, rest) && WindowOk(l, g)
    requires rest != [] ==> rest[|rest| - 1][0].now < from
    ensures Bounded(l, Flat(rest) + g, from)
  {
    CountAppend(Flat(rest), g, from);
    CountBound(g, from);
    WindowHolds(l, g);
    BeforeLast(l, rest, from);
  }

  lemma {:induction false} LastOutside(l: Limits, s: seq<Attempt>, g: seq<Attempt>, from: int)
    requires WindowOk(l, g) && g[0].now >= from + MINUTE && Bounded(l, s, from)
    ensures Bounded(l, s + g, from)
  {
    CountAppend(s, g, from);
    NoneIn(g, from);
  }

  lemma {:induction false} NothingBounded(l: Limits, from: int)
    requires l.Positive()
    ensures Bounded(l, [], from)
  {
    ScaleUp(0, l.rate - 1, l.maxBytes);
  }

  lemma {:induction false} SpanBound(l: Limits, groups: seq<seq<Attempt>>, from: int)
    requires l.Positive() && Grouped(l, groups)
    ensures Bounded(l, Flat(groups), from)
  {
    if groups == [] {
      NothingBounded(l, from);
    } else {
      var n := |groups| - 1;
      var g, rest := groups[n], groups[..n];
      assert WindowOk(l, g);
      GroupedPrefix(l, groups, n);
      assert n > 0 ==> Apart(groups[n - 1], g);
      if g[0].now >= from + MINUTE {
        SpanBound(l, rest, from);
        LastOutside(l, Flat(rest), g, from);
      } else {
        LastInside(l, rest, g, from);
      }
    }
  }

  /** In any span shorter than a minute, at most twice a window's admissions less one, and one
      window's bytes plus what another can hold after its first admission. */
  lemma {:induction false} AnyMinute(l: Limits, s: seq<Attempt>, from: int)
    requires l.Positive() && Ordered(s)
    ensures Bounded(l, Admitted(l, s), from)
  {
    var groups := RunGroups(l, s, if s == [] then 0 else s[|s| - 1].now);
    SpanBound(l, groups, from);
  }

  // ------------------------------------------------------ the bounds are met

  lemma {:induction false} AdmitNext(l: Limits, s: seq<Attempt>, a: Attempt)
    ensures var r := Admit(l, WindowAfter(l, s), a.now, a.size);
      r.Some? ==> Admitted(l, s + [a]) == Admitted(l, s) + [a] && WindowAfter(l, s + [a]) == r
  {
    assert (s + [a])[..|s|] == s;
  }

  ghost predicate Steps(l: Limits, admitted: seq<Attempt> -> seq<Attempt>, after: seq<Attempt> -> Option<Window>,
      s: seq<Attempt>, a: Attempt) {
    var r := Admit(l, after(s), a.now, a.size);
    r.Some? ==> admitted(s + [a]) == admitted(s) + [a] && after(s + [a]) == r
  }

  /** Requests made at one time, each of a size the service takes. */
  predicate Burst(l: Limits, g: seq<Attempt>, now: int) {
    forall i :: 0 <= i < |g| ==> g[i].now == now && 0 < g[i].size <= l.maxBytes
  }

  lemma {:induction false} BurstStep(l: Limits, admitted: seq<Attempt> -> seq<Attempt>,
      after: seq<Attempt> -> Option<Window>, s: seq<Attempt>, w: Window, g: seq<Attempt>, now: int)
    requires l.Positive() && after(s) == Some(w) && Burst(l, g, now) && now - w.start < MINUTE
    requires w.count + |g| <= l.rate && w.bytes + Bytes(g) <= l.bytesPerMinute
    requires forall t, a :: Steps(l, admitted, after, t, a)
    ensures admitted(s + g) == admitted(s) + g && Bytes(g) >= 0
    ensures after(s + g) == Some(w.(count := w.count + |g|, bytes := w.bytes + Bytes(g)))
  {
    if g == [] {
      assert s + g == s && admitted(s) + g == admitted(s);
    } else {
      var n := |g| - 1;
      BurstStep(l, admitted, after, s, w, g[..n], now);
      assert Steps(l, admitted, after, s + g[..n], g[n]);
      assert (s + g[..n]) + [g[n]] == s + g && (admitted(s) + g[..n]) + [g[n]] == admitted(s) + g;
    }
  }

  /** A burst that fits into the open window is admitted whole. */
  lemma {:induction false} BurstAdmitted(l: Limits, s: seq<Attempt>, w: Window, g: seq<Attempt>, now: int)
    requires l.Positive() && WindowAfter(l, s) == Some(w) && Burst(l, g, now) && now - w.start < MINUTE
    requires w.count + |g| <= l.rate && w.bytes + Bytes(g) <= l.bytesPerMinute
    ensures Admitted(l, s + g) == Admitted(l, s) + g && Bytes(g) >= 0
    ensures WindowAfter(l, s + g) == Some(w.(count := w.count + |g|, bytes := w.bytes + Bytes(g)))
  {
    var admitted, after := (t: seq<Attempt>) => Admitted(l, t), (t: seq<Attempt>) => WindowAfter(l, t);
    forall t, a ensures Steps(l, admitted, after, t, a) { AdmitNext(l, t, a); }
    BurstStep(l, admitted, after, s, w, g, now);
  }

  /** A burst a minute after the last window opened is a window of its own. */
  predicate FitsWindow(l: Limits, g: seq<Attempt>) {
    |g| == 1 || (0 < |g| <= l.rate && Bytes(g) <= l.bytesPerMinute)
  }

  lemma {:induction false} OpensWith(l: Limits, s: seq<Attempt>, a: Attempt)
    requires 0 < a.size <= l.maxBytes && (WindowAfter(l, s).Some? ==> a.now - WindowAfter(l, s).value.start >= MINUTE)
    ensures Admitted(l, s + [a]) == Admitted(l, s) + [a] && WindowAfter(l, s + [a]) == Some(Window(a.now, 1, a.size))
  {
    AdmitNext(l, s, a);
  }

  lemma {:induction false} Rejoin(s: seq<Attempt>, a: Attempt, tail: seq<Attempt>)
    ensures s + ([a] + tail) == (s + [a]) + tail
  {
  }

  lemma {:induction false} BurstOpens(l: Limits, s: seq<Attempt>, g: seq<Attempt>, now: int)
    requires l.Positive() && Burst(l, g, now) && FitsWindow(l, g)
    requires WindowAfter(l, s).Some? ==> now - WindowAfter(l, s).value.start >= MINUTE
    ensures Admitted(l, s + g) == Admitted(l, s) + g
  {
    var a, tail := g[0], g[1..];
    assert g == [a] + tail;
    OpensWith(l, s, a);
    if |g| == 1 {
      assert g == [a];
    } else {
      BytesSplit(a, tail);
      BurstAdmitted(l, s + [a], Window(now, 1, a.size), tail, now);
      Rejoin(s, a, tail);
      Rejoin(Admitted(l, s), a, tail);
    }
  }

  lemma {:induction false} BurstWithin(g: seq<Attempt>, now: int, from: int)
    requires from <= now < from + MINUTE && forall i :: 0 <= i < |g| ==> g[i].now == now
    ensures CountIn(g, from) == |g| && BytesIn(g, from) == Bytes(g)
  {
    if g != [] { BurstWithin(g[..|g| - 1], now, from); }
  }

  lemma {:induction false} BurstsAdmitted(l: Limits, first: Attempt, late: seq<Attempt>, next: seq<Attempt>)
    requires l.Positive() && first == Attempt(0, 1) && Burst(l, late, MINUTE - 1) && Burst(l, next, MINUTE)
    requires FitsWindow(l, next)
    requires 1 + |late| <= l.rate && 1 + Bytes(late) <= l.bytesPerMinute
    ensures Admitted(l, ([first] + late) + next) == ([first] + late) + next
  {
    OpensWith(l, [], first);
    assert [] + [first] == [first];
    BurstAdmitted(l, [first], Window(0, 1, 1), late, MINUTE - 1);
    BurstOpens(l, [first] + late, next, MINUTE);
  }

  lemma {:induction false} BurstsCounted(first: Attempt, late: seq<Attempt>, next: seq<Attempt>)
    requires first.now == 0
    requires forall i :: 0 <= i < |late| ==> late[i].now == MINUTE - 1
    requires forall i :: 0 <= i < |next| ==> next[i].now == MINUTE
    ensures var s := ([first] + late) + next;
      CountIn(s, 1) == |late| + |next| && BytesIn(s, 1) == Bytes(late) + Bytes(next)
  {
    CountAppend([first] + late, next, 1);
    CountAppend([first], late, 1);
    NoneIn([first], 1);
    BurstWithin(late, MINUTE - 1, 1);
    BurstWithin(next, MINUTE, 1);
  }

  lemma {:induction false} BurstsOrdered(first: Attempt, late: seq<Attempt>, next: seq<Attempt>)
    requires first.now == 0
    requires forall i :: 0 <= i < |late| ==> late[i].now == MINUTE - 1
    requires forall i :: 0 <= i < |next| ==> next[i].now == MINUTE
    ensures Ordered(([first] + late) + next)
  {
  }

  /** One admission, then a burst at the very end of its window, then a full window. */
  lemma {:induction false} TwoBursts(l: Limits, late: seq<Attempt>, next: seq<Attempt>) returns (s: seq<Attempt>)
    requires l.Positive() && Burst(l, late, MINUTE - 1) && Burst(l, next, MINUTE) && FitsWindow(l, next)
    requires 1 + |late| <= l.rate && 1 + Bytes(late) <= l.bytesPerMinute
    ensures Ordered(s) && CountIn(Admitted(l, s), 1) == |late| + |next|
    ensures BytesIn(Admitted(l, s), 1) == Bytes(late) + Bytes(next)
  {
    var first := Attempt(0, 1);
    s := ([first] + late) + next;
    BurstsAdmitted(l, first, late, next);
    BurstsCounted(first, late, next);
    BurstsOrdered(first, late, next);
  }

  /** `total` bytes at one time in as few requests as the size limit allows. */
  function Pieces(now: int, total: nat, most: nat): (g: seq<Attempt>)
    requires most > 0
    ensures forall i :: 0 <= i < |g| ==> g[i].now == now && 0 < g[i].size <= most
  {
    if total == 0 then [] else if total <= most then [Attempt(now, total)]
    else Pieces(now, total - most, most) + [Attempt(now, most)]
  }

  lemma {:induction false} OneLess(total: nat, most: nat, rate: nat)
    requires 0 < total <= rate * most
    ensures rate > 0 && total - most <= (rate - 1) * most
  {
    assert rate == 0 ==> rate * most == 0;
    assert rate * most == (rate - 1) * most + most;
  }

  lemma {:induction false} PiecesAre(now: int, total: nat, most: nat, rate: nat)
    requires most > 0 && total <= rate * most
    ensures Bytes(Pieces(now, total, most)) == total && |Pieces(now, total, most)| <= rate
    ensures total > 0 ==> Pieces(now, total, most) != []
  {
    if total > 0 { OneLess(total, most, rate); }
    if 0 < total <= most {
      assert [Attempt(now, total)] == [] + [Attempt(now, total)];
      BytesNext([], Attempt(now, total));
    } else if total > most {
      PiecesAre(now, total - most, most, rate - 1);
      BytesNext(Pieces(now, total - most, most), Attempt(now, most));
    }
  }

  function Ones(now: int, n: nat): (g: seq<Attempt>)
    ensures |g| == n && forall i :: 0 <= i < n ==> g[i] == Attempt(now, 1)
  {
    seq(n, _ => Attempt(now, 1))
  }

  lemma {:induction false} OnesBytes(now: int, n: nat)
    ensures Bytes(Ones(now, n)) == n
  {
    if n > 0 {
      OnesBytes(now, n - 1);
      assert Ones(now, n)[..n - 1] == Ones(now, n - 1);
    }
  }

  /** A run that reaches the bound on admissions. */
  lemma {:induction false} CountIsMet(l: Limits) returns (s: seq<Attempt>)
    requires l.Positive()
    ensures Ordered(s) && CountIn(Admitted(l, s), 1) == MostCount(l)
  {
    var n := WindowCount(l);
    OnesBytes(MINUTE - 1, n - 1);
    OnesBytes(MINUTE, n);
    s := TwoBursts(l, Ones(MINUTE - 1, n - 1), Ones(MINUTE, n));
  }

  lemma {:induction false} FullWindow(l: Limits) returns (g: seq<Attempt>)
    requires l.Positive()
    ensures Burst(l, g, MINUTE) && FitsWindow(l, g) && Bytes(g) == WindowBytes(l)
  {
    var total := Smaller(l.bytesPerMinute, l.rate * l.maxBytes);
    ScaleUp(1, l.rate, l.maxBytes);
    if l.maxBytes >= total {
      g := [Attempt(MINUTE, l.maxBytes)];
      assert g == [] + g;
      BytesNext([], g[0]);
    } else {
      g := Pieces(MINUTE, total, l.maxBytes);
      PiecesAre(MINUTE, total, l.maxBytes, l.rate);
    }
  }

  /** A run that reaches the bound on bytes. */
  lemma {:induction false} BytesAreMet(l: Limits) returns (s: seq<Attempt>)
    requires l.Positive()
    ensures Ordered(s) && BytesIn(Admitted(l, s), 1) == MostBytes(l)
  {
    ScaleUp(0, l.rate - 1, l.maxBytes);
    var total := LaterBytes(l);
    PiecesAre(MINUTE - 1, total, l.maxBytes, l.rate - 1);
    var next := FullWindow(l);
    s := TwoBursts(l, Pieces(MINUTE - 1, total, l.maxBytes), next);
  }

  /** A sliding minute never sees more than the configured rate if and only if the limits make
      twice a window less one no more than the rate. */
  lemma {:induction false} RateKeptIff(l: Limits)
    requires l.Positive()
    ensures (forall s, from :: Ordered(s) ==> CountIn(Admitted(l, s), from) <= l.rate) <==>
      2 * Smaller(l.rate, l.bytesPerMinute) - 1 <= l.rate
  {
    forall s, from | Ordered(s) ensures CountIn(Admitted(l, s), from) <= MostCount(l) { AnyMinute(l, s, from); }
    var met := CountIsMet(l);
    assert CountIn(Admitted(l, met), 1) == MostCount(l);
  }

  /** Nor more than the configured bytes, if and only if a full window and what another holds
      after its first admission fit into them together. */
  lemma {:induction false} BytesKeptIff(l: Limits)
    requires l.Positive()
    ensures (forall s, from :: Ordered(s) ==> BytesIn(Admitted(l, s), from) <= l.bytesPerMinute) <==>
      MostBytes(l) <= l.bytesPerMinute
  {
    forall s, from | Ordered(s) ensures BytesIn(Admitted(l, s), from) <= MostBytes(l) { AnyMinute(l, s, from); }
    var met := BytesAreMet(l);
    assert BytesIn(Admitted(l, met), 1) == MostBytes(l);
  }
}
