/** A feedback register that is linear over an exclusive-or, for symbols of any type. */
module LinearRegister {

  datatype Register<!T> = Register(feed: T -> T, add: (T, T) -> T, zero: T)

  ghost predicate AdditiveAt<T>(add: (T, T) -> T, f: T -> T, a: T, b: T) { f(add(a, b)) == add(f(a), f(b)) }

  ghost predicate Additive<T(!new)>(add: (T, T) -> T, f: T -> T) { forall a, b :: AdditiveAt(add, f, a, b) }

  /** The middle two of four summands may change places. */
  ghost predicate Exchange<T>(add: (T, T) -> T, a: T, b: T, c: T, d: T) {
    add(add(a, b), add(c, d)) == add(add(a, c), add(b, d))
  }

  ghost predicate Exchanges<T(!new)>(add: (T, T) -> T) { forall a, b, c, d :: Exchange(add, a, b, c, d) }

  /** `add` is a commutative group in which everything is its own inverse; `feed` respects it. */
  ghost predicate Sound<T(!new)>(g: Register<T>) {
    && Exchanges(g.add) && Additive(g.add, g.feed)
    && (forall a :: g.add(a, g.zero) == a && g.add(g.zero, a) == a && g.add(a, a) == g.zero)
  }

  lemma {:induction false} SumAdditive<T(!new)>(add: (T, T) -> T, f: T -> T, g: T -> T, sum: T -> T)
    requires Exchanges(add) && Additive(add, f) && Additive(add, g) && forall a :: sum(a) == add(f(a), g(a))
    ensures Additive(add, sum)
  {
    forall a, b ensures AdditiveAt(add, sum, a, b) {
      assert AdditiveAt(add, f, a, b) && AdditiveAt(add, g, a, b) && Exchange(add, f(a), f(b), g(a), g(b));
    }
  }

  function Shift<T>(g: Register<T>, c: T, s: seq<T>): T {
    if s == [] then c else g.add(g.feed(Shift(g, c, s[..|s| - 1])), s[|s| - 1])
  }

  function Blank<T>(g: Register<T>, n: nat): (r: seq<T>)
    ensures |r| == n
  {
    seq(n, _ => g.zero)
  }

  function Sum<T>(g: Register<T>, a: seq<T>, b: seq<T>): (r: seq<T>)
    requires |a| == |b|
    ensures |r| == |a|
  {
    seq(|a|, i requires 0 <= i < |a| => g.add(a[i], b[i]))
  }

  lemma {:induction false} ShiftSplit<T>(g: Register<T>, c: T, a: seq<T>, b: seq<T>)
    ensures Shift(g, c, a + b) == Shift(g, Shift(g, c, a), b)
    decreases |b|
  {
    if b == [] {
      assert a + b == a;
    } else {
      var n := |b| - 1;
      ShiftSplit(g, c, a, b[..n]);
      assert (a + b)[..|a + b| - 1] == a + b[..n];
    }
  }

  /** Registers and inputs add up. */
  lemma {:induction false} ShiftSum<T(!new)>(g: Register<T>, c: T, d: T, a: seq<T>, b: seq<T>)
    requires Sound(g) && |a| == |b|
    ensures Shift(g, g.add(c, d), Sum(g, a, b)) == g.add(Shift(g, c, a), Shift(g, d, b))
  {
    if a != [] {
      var n := |a| - 1;
      ShiftSum(g, c, d, a[..n], b[..n]);
      assert Sum(g, a, b)[..n] == Sum(g, a[..n], b[..n]);
      var p, q := Shift(g, c, a[..n]), Shift(g, d, b[..n]);
      assert AdditiveAt(g.add, g.feed, p, q) && Exchange(g.add, g.feed(p), g.feed(q), a[n], b[n]);
    }
  }

  /** An input contributes its own pattern, whatever the register held. */
  lemma {:induction false} Superposed<T(!new)>(g: Register<T>, c: T, s: seq<T>)
    requires Sound(g)
    ensures Shift(g, c, s) == g.add(Shift(g, c, Blank(g, |s|)), Shift(g, g.zero, s))
  {
    ShiftSum(g, c, g.zero, Blank(g, |s|), s);
    assert Sum(g, Blank(g, |s|), s) == s;
  }

  lemma {:induction false} Cancel<T(!new)>(g: Register<T>, a: T, b: T, c: T)
    requires Sound(g)
    ensures g.add(a, b) == c <==> b == g.add(a, c)
    ensures g.add(a, b) == g.zero <==> a == b
    ensures g.add(b, a) == g.add(c, a) <==> b == c
  {
    assert Exchange(g.add, a, a, g.zero, b) && Exchange(g.add, a, g.zero, a, b);
    assert Exchange(g.add, a, a, g.zero, c) && Exchange(g.add, a, g.zero, a, c);
    assert Exchange(g.add, b, a, g.zero, a) && Exchange(g.add, c, a, g.zero, a);
    assert g.add(a, g.add(a, b)) == b && g.add(a, g.add(a, c)) == c;
    assert g.add(g.add(b, a), a) == b && g.add(g.add(c, a), a) == c;
  }

  /** Inside `live`, the feedback forgets nothing. */
  ghost predicate Faithful<T(!new)>(g: Register<T>, live: T -> bool) {
    (forall a, b :: AddsLive(g, live, a, b)) && forall a :: FeedsLive(g, live, a)
  }

  ghost predicate AddsLive<T>(g: Register<T>, live: T -> bool, a: T, b: T) { live(a) && live(b) ==> live(g.add(a, b)) }

  ghost predicate FeedsLive<T>(g: Register<T>, live: T -> bool, a: T) {
    live(a) ==> live(g.feed(a)) && (g.feed(a) == g.zero ==> a == g.zero)
  }

  lemma {:induction false} ShiftLive<T(!new)>(g: Register<T>, live: T -> bool, c: T, s: seq<T>)
    requires Faithful(g, live) && live(c) && forall i :: 0 <= i < |s| ==> live(s[i])
    ensures live(Shift(g, c, s))
  {
    if s != [] {
      var n := |s| - 1;
      ShiftLive(g, live, c, s[..n]);
      assert FeedsLive(g, live, Shift(g, c, s[..n])) && AddsLive(g, live, g.feed(Shift(g, c, s[..n])), s[n]);
    }
  }

  lemma {:induction false} FeedInjective<T(!new)>(g: Register<T>, live: T -> bool, a: T, b: T)
    requires Sound(g) && Faithful(g, live) && live(a) && live(b) && g.feed(a) == g.feed(b)
    ensures a == b
  {
    assert AdditiveAt(g.add, g.feed, a, b) && AddsLive(g, live, a, b) && FeedsLive(g, live, g.add(a, b));
    Cancel(g, a, b, g.zero);
  }

  /** A difference in the register survives any common input, of any length. */
  lemma {:induction false} DifferenceSurvives<T(!new)>(g: Register<T>, live: T -> bool, c: T, d: T, s: seq<T>)
    requires Sound(g) && Faithful(g, live) && live(c) && live(d) && (forall i :: 0 <= i < |s| ==> live(s[i]))
    requires Shift(g, c, s) == Shift(g, d, s)
    ensures c == d
  {
    if s != [] {
      var n := |s| - 1;
      var p, q := Shift(g, c, s[..n]), Shift(g, d, s[..n]);
      ShiftLive(g, live, c, s[..n]);
      ShiftLive(g, live, d, s[..n]);
      Cancel(g, s[n], g.feed(p), g.feed(q));
      FeedInjective(g, live, p, q);
      DifferenceSurvives(g, live, c, d, s[..n]);
    }
  }

  ghost predicate AllLive<T>(live: T -> bool, s: seq<T>) { forall i :: 0 <= i < |s| ==> live(s[i]) }

  lemma {:induction false} Through<T(!new)>(g: Register<T>, live: T -> bool, c: T, before: seq<T>, x: seq<T>,
      after: seq<T>)
    requires Faithful(g, live) && live(c) && AllLive(live, before) && AllLive(live, x)
    ensures live(Shift(g, Shift(g, c, before), x))
    ensures Shift(g, c, before + x + after) == Shift(g, Shift(g, Shift(g, c, before), x), after)
  {
    ShiftSplit(g, c, before + x, after);
    ShiftSplit(g, c, before, x);
    ShiftLive(g, live, c, before);
    ShiftLive(g, live, Shift(g, c, before), x);
  }

  /** Equal length and equal effect on one register means equal pattern. */
  lemma {:induction false} SamePattern<T(!new)>(g: Register<T>, p: T, x: seq<T>, y: seq<T>)
    requires Sound(g) && |x| == |y| && Shift(g, p, x) == Shift(g, p, y)
    ensures Shift(g, g.zero, x) == Shift(g, g.zero, y)
  {
    Superposed(g, p, x);
    Superposed(g, p, y);
    var common := Shift(g, p, Blank(g, |x|));
    Cancel(g, common, Shift(g, g.zero, x), Shift(g, p, x));
    Cancel(g, common, Shift(g, g.zero, y), Shift(g, p, y));
  }

  /** Two inputs that agree outside a window and lead to the same register write the same
      pattern inside it. */
  lemma {:induction false} WindowDecides<T(!new)>(g: Register<T>, live: T -> bool, c: T, before: seq<T>, x: seq<T>,
      y: seq<T>, after: seq<T>)
    requires Sound(g) && Faithful(g, live) && live(c) && |x| == |y|
    requires AllLive(live, before) && AllLive(live, x) && AllLive(live, y) && AllLive(live, after)
    requires Shift(g, c, before + x + after) == Shift(g, c, before + y + after)
    ensures Shift(g, g.zero, x) == Shift(g, g.zero, y)
  {
    Through(g, live, c, before, x, after);
    Through(g, live, c, before, y, after);
    var p := Shift(g, c, before);
    DifferenceSurvives(g, live, Shift(g, p, x), Shift(g, p, y), after);
    SamePattern(g, p, x, y);
  }

  lemma {:induction false} ExchangesBy<T(!new)>(add: (T, T) -> T)
    requires (forall a, b, c :: add(add(a, b), c) == add(a, add(b, c))) && forall a, b :: add(a, b) == add(b, a)
    ensures Exchanges(add)
  {
    forall a, b, c, d ensures Exchange(add, a, b, c, d) {
      calc {
        add(add(a, b), add(c, d));
        add(a, add(b, add(c, d)));
        add(a, add(add(b, c), d));
        add(a, add(add(c, b), d));
        add(a, add(c, add(b, d)));
        add(add(a, c), add(b, d));
      }
    }
  }

  /** One more symbol. */
  lemma {:induction false} ShiftNext<T>(g: Register<T>, c: T, s: seq<T>, x: T)
    ensures Shift(g, c, s + [x]) == g.add(g.feed(Shift(g, c, s)), x)
  {
    assert (s + [x])[..|s|] == s;
  }

  lemma {:induction false} ShiftSix<T>(g: Register<T>, r: T, a: T, b: T, c: T, d: T, e: T, f: T)
    ensures Shift(g, r, [a, b, c, d, e, f]) ==
      g.add(g.feed(g.add(g.feed(g.add(g.feed(g.add(g.feed(g.add(g.feed(g.add(g.feed(r), a)), b)), c)), d)), e)), f)
  {
    ShiftNext(g, r, [], a);
    ShiftNext(g, r, [a], b);
    ShiftNext(g, r, [a, b], c);
    ShiftNext(g, r, [a, b, c], d);
    ShiftNext(g, r, [a, b, c, d], e);
    ShiftNext(g, r, [a, b, c, d, e], f);
    assert [] + [a] == [a] && [a] + [b] == [a, b] && [a, b] + [c] == [a, b, c] && [a, b, c] + [d] == [a, b, c, d];
    assert [a, b, c, d] + [e] == [a, b, c, d, e] && [a, b, c, d, e] + [f] == [a, b, c, d, e, f];
  }

  /** The same, by the registers on the way. */
  lemma {:induction false} ShiftSixTo<T>(g: Register<T>, r: T, a: T, b: T, c: T, d: T, e: T, f: T, r1: T, r2: T, r3: T,
      r4: T, r5: T, r6: T)
    requires g.add(g.feed(r), a) == r1 && g.add(g.feed(r1), b) == r2 && g.add(g.feed(r2), c) == r3
    requires g.add(g.feed(r3), d) == r4 && g.add(g.feed(r4), e) == r5 && g.add(g.feed(r5), f) == r6
    ensures Shift(g, r, [a, b, c, d, e, f]) == r6
  {
    ShiftSix(g, r, a, b, c, d, e, f);
  }

  /** The pattern a suffix of length `n` must write to lead from `c` to `target`. */
  function Due<T>(g: Register<T>, c: T, n: nat, target: T): T { g.add(Shift(g, c, Blank(g, n)), target) }

  lemma {:induction false} DueDecides<T(!new)>(g: Register<T>, c: T, s: seq<T>, target: T)
    requires Sound(g)
    ensures Shift(g, c, s) == target <==> Shift(g, g.zero, s) == Due(g, c, |s|, target)
  {
    Superposed(g, c, s);
    Cancel(g, Shift(g, c, Blank(g, |s|)), Shift(g, g.zero, s), target);
  }

  lemma {:induction false} DueLive<T(!new)>(g: Register<T>, live: T -> bool, c: T, n: nat, target: T)
    requires Faithful(g, live) && live(c) && live(g.zero) && live(target)
    ensures live(Due(g, c, n, target))
  {
    ShiftLive(g, live, c, Blank(g, n));
    assert AddsLive(g, live, Shift(g, c, Blank(g, n)), target);
  }
}
