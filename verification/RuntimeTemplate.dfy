/** Deployed bytecode against its compiler template with immutable values filled in. */
module RuntimeTemplate {
  import opened Digits
  import opened RollingRoot

  const SLOT: nat := 32

  datatype Reference = Reference(start: nat, length: nat)

  /** The references of one immutable; the reference map is read in key order. */
  datatype Group = Group(key: string, references: seq<Reference>)

  datatype Place = Place(key: string, start: nat)

  predicate Covers(p: Place, x: int) { p.start <= x < p.start + SLOT }

  predicate Apart(p: Place, q: Place) { p.start + SLOT <= q.start || q.start + SLOT <= p.start }

  function PlacesOf(g: Group): (r: seq<Place>)
    ensures |r| == |g.references|
  {
    seq(|g.references|, i requires 0 <= i < |g.references| => Place(g.key, g.references[i].start))
  }

  /** Every reference of every group, in the order they are visited. */
  function Places(groups: seq<Group>): seq<Place> {
    if groups == [] then [] else Places(groups[..|groups| - 1]) + PlacesOf(groups[|groups| - 1])
  }

  predicate DistinctKeys(groups: seq<Group>) { forall i, j :: 0 <= i < j < |groups| ==> groups[i].key != groups[j].key }

  predicate ReferenceOk(r: Reference, size: nat) { r.length == SLOT && r.start + SLOT <= size }

  predicate GroupOk(blank: string -> bool, g: Group, size: nat) {
    !blank(g.key) && g.references != [] && forall i :: 0 <= i < |g.references| ==> ReferenceOk(g.references[i], size)
  }

  predicate Disjoint(places: seq<Place>) { forall i, j :: 0 <= i < j < |places| ==> Apart(places[i], places[j]) }

  /** What `validateImmutableReferences` accepts. */
  predicate Valid(blank: string -> bool, groups: seq<Group>, size: nat) {
    groups != [] && (forall i :: 0 <= i < |groups| ==> GroupOk(blank, groups[i], size)) && Disjoint(Places(groups))
  }

  // ------------------------------------------------------------ validation

  ghost predicate Covered(places: seq<Place>, x: int) { exists k :: 0 <= k < |places| && Covers(places[k], x) }

  lemma {:induction false} CoveredNext(places: seq<Place>, p: Place, x: int)
    ensures Covered(places + [p], x) <==> Covered(places, x) || Covers(p, x)
  {
    var more := places + [p];
    if Covered(places, x) {
      var k :| 0 <= k < |places| && Covers(places[k], x);
      assert Covers(more[k], x);
    }
    if Covers(p, x) { assert Covers(more[|places|], x); }
  }

  /** The marks are exactly the covered bytes. */
  ghost predicate Marks(marks: seq<bool>, places: seq<Place>) {
    forall x :: 0 <= x < |marks| ==> (marks[x] <==> Covered(places, x))
  }

  ghost predicate Fit(places: seq<Place>, size: nat) {
    forall k :: 0 <= k < |places| ==> places[k].start + SLOT <= size
  }

  lemma {:induction false} DisjointNext(places: seq<Place>, p: Place, size: nat)
    requires Disjoint(places) && Fit(places, size) && p.start + SLOT <= size
    ensures Disjoint(places + [p]) <==> forall x :: p.start <= x < p.start + SLOT ==> !Covered(places, x)
  {
    var more := places + [p];
    if Disjoint(more) {
      forall x | p.start <= x < p.start + SLOT ensures !Covered(places, x) {
        forall k | 0 <= k < |places| ensures !Covers(places[k], x) { assert Apart(more[k], more[|places|]); }
      }
    }
    if forall x :: p.start <= x < p.start + SLOT ==> !Covered(places, x) {
      forall k | 0 <= k < |places| ensures Apart(places[k], p) {
        var x := if places[k].start <= p.start then p.start else places[k].start;
        assert p.start <= x < p.start + SLOT ==> !Covered(places, x);
        assert Covers(places[k], x) ==> Covered(places, x);
      }
    }
  }

  /** Marks one slot; stops at a byte that is marked already. */
  method MarkSlot(occupied: array<bool>, p: Place, ghost places: seq<Place>) returns (ok: bool)
    requires p.start + SLOT <= occupied.Length && Marks(occupied[..], places) && Disjoint(places)
    requires Fit(places, occupied.Length)
    modifies occupied
    ensures ok <==> Disjoint(places + [p])
    ensures ok ==> Marks(occupied[..], places + [p])
  {
    DisjointNext(places, p, occupied.Length);
    for x := p.start to p.start + SLOT
      invariant forall y :: 0 <= y < occupied.Length ==> (occupied[y] <==> Covered(places, y) || p.start <= y < x)
      invariant forall y :: p.start <= y < x ==> !Covered(places, y)
    {
      if occupied[x] { return false; }
      occupied[x] := true;
    }
    forall y | 0 <= y < occupied.Length ensures occupied[y] <==> Covered(places + [p], y) { CoveredNext(places, p, y); }
    return true;
  }

  lemma {:induction false} DisjointPrefix(a: seq<Place>, b: seq<Place>)
    ensures Disjoint(a + b) ==> Disjoint(a)
  {
    var s := a + b;
    assert forall i :: 0 <= i < |a| ==> s[i] == a[i];
  }

  lemma {:induction false} PlacesPrefix(g: Group, i: nat)
    requires i < |g.references|
    ensures PlacesOf(g)[..i + 1] == PlacesOf(g)[..i] + [Place(g.key, g.references[i].start)]
  {
  }

  /** One group of `validateImmutableReferences`. */
  method MarkGroup(blank: string -> bool, occupied: array<bool>, g: Group, ghost before: seq<Place>) returns (ok: bool)
    requires Marks(occupied[..], before) && Disjoint(before) && Fit(before, occupied.Length)
    modifies occupied
    ensures ok <==> GroupOk(blank, g, occupied.Length) && Disjoint(before + PlacesOf(g))
    ensures ok ==> Marks(occupied[..], before + PlacesOf(g)) && Fit(before + PlacesOf(g), occupied.Length)
  {
    if blank(g.key) || |g.references| == 0 { return false; }
    assert before + PlacesOf(g)[..0] == before;
    for i := 0 to |g.references|
      invariant forall k :: 0 <= k < i ==> ReferenceOk(g.references[k], occupied.Length)
      invariant var now := before + PlacesOf(g)[..i];
        Marks(occupied[..], now) && Disjoint(now) && Fit(now, occupied.Length)
    {
      var r := g.references[i];
      if r.length != SLOT || r.start > occupied.Length || r.start + r.length > occupied.Length { return false; }
      PlacesPrefix(g, i);
      ghost var now := before + PlacesOf(g)[..i];
      assert now + [Place(g.key, r.start)] == before + PlacesOf(g)[..i + 1];
      var free := MarkSlot(occupied, Place(g.key, r.start), now);
      if !free {
        assert before + PlacesOf(g) == (before + PlacesOf(g)[..i + 1]) + PlacesOf(g)[i + 1..];
        DisjointPrefix(before + PlacesOf(g)[..i + 1], PlacesOf(g)[i + 1..]);
        return false;
      }
    }
    assert PlacesOf(g)[..|g.references|] == PlacesOf(g);
    return true;
  }

  lemma {:induction false} PlacesSplit(groups: seq<Group>, k: nat) returns (rest: seq<Place>)
    requires k <= |groups|
    ensures Places(groups) == Places(groups[..k]) + rest
  {
    if k == |groups| {
      rest := [];
      assert groups[..k] == groups;
    } else {
      var n := |groups| - 1;
      rest := PlacesSplit(groups[..n], k);
      assert groups[..n][..k] == groups[..k];
      rest := rest + PlacesOf(groups[n]);
    }
  }

  /** `validateImmutableReferences`, marking bytes in an array. */
  method ValidateReferences(blank: string -> bool, groups: seq<Group>, size: nat) returns (ok: bool)
    ensures ok <==> Valid(blank, groups, size)
  {
    if groups == [] { return false; }
    var occupied := new bool[size](_ => false);
    for k := 0 to |groups|
      invariant forall i :: 0 <= i < k ==> GroupOk(blank, groups[i], size)
      invariant Marks(occupied[..], Places(groups[..k])) && Disjoint(Places(groups[..k]))
      invariant Fit(Places(groups[..k]), size)
    {
      assert groups[..k + 1][..k] == groups[..k];
      var accepted := MarkGroup(blank, occupied, groups[k], Places(groups[..k]));
      if !accepted {
        ghost var rest := PlacesSplit(groups, k + 1);
        DisjointPrefix(Places(groups[..k + 1]), rest);
        return false;
      }
    }
    assert groups[..|groups|] == groups;
    return true;
  }

  // ------------------------------------------------------------ covered bytes

  /** How many of the first `n` bytes are covered. */
  ghost function CountTo(places: seq<Place>, n: nat): nat {
    if n == 0 then 0 else CountTo(places, n - 1) + if Covered(places, n - 1) then 1 else 0
  }

  /** How many of the first `n` bytes a place covers. */
  function CountOf(p: Place, n: nat): nat {
    if n <= p.start then 0 else if n <= p.start + SLOT then n - p.start else SLOT
  }

  lemma {:induction false} CountNext(places: seq<Place>, p: Place, n: nat)
    requires Disjoint(places + [p])
    ensures CountTo(places + [p], n) == CountTo(places, n) + CountOf(p, n)
  {
    if n > 0 {
      CountNext(places, p, n - 1);
      CoveredNext(places, p, n - 1);
      if Covers(p, n - 1) {
        var more := places + [p];
        forall k | 0 <= k < |places| ensures !Covers(places[k], n - 1) { assert Apart(more[k], more[|places|]); }
      }
    }
  }

  lemma {:induction false} CountNone(n: nat)
    ensures CountTo([], n) == 0
  {
    if n > 0 { CountNone(n - 1); }
  }

  lemma {:induction false} CoveredSize(places: seq<Place>, size: nat)
    requires Disjoint(places) && Fit(places, size)
    ensures CountTo(places, size) == 32 * |places|
  {
    if places == [] {
      CountNone(size);
    } else {
      var n := |places| - 1;
      assert places == places[..n] + [places[n]];
      DisjointPrefix(places[..n], [places[n]]);
      CoveredSize(places[..n], size);
      CountNext(places[..n], places[n], size);
    }
  }

  function Lengths(references: seq<Reference>): nat {
    if references == [] then 0 else Lengths(references[..|references| - 1]) + references[|references| - 1].length
  }

  /** The bytes that all references claim. */
  function Claimed(groups: seq<Group>): nat {
    if groups == [] then 0 else Claimed(groups[..|groups| - 1]) + Lengths(groups[|groups| - 1].references)
  }

  lemma {:induction false} LengthsAre(references: seq<Reference>, size: nat)
    requires forall i :: 0 <= i < |references| ==> ReferenceOk(references[i], size)
    ensures Lengths(references) == 32 * |references|
  {
    if references != [] { LengthsAre(references[..|references| - 1], size); }
  }

  lemma {:induction false} ClaimedIs(blank: string -> bool, groups: seq<Group>, size: nat)
    requires forall i :: 0 <= i < |groups| ==> GroupOk(blank, groups[i], size)
    ensures Claimed(groups) == 32 * |Places(groups)| && Fit(Places(groups), size) && |Places(groups)| >= |groups|
  {
    if groups != [] {
      var n := |groups| - 1;
      ClaimedIs(blank, groups[..n], size);
      LengthsAre(groups[n].references, size);
      assert GroupOk(blank, groups[n], size);
    }
  }

  lemma {:induction false} CountAtMost(places: seq<Place>, p: Place, n: nat)
    ensures CountTo(places + [p], n) <= CountTo(places, n) + CountOf(p, n)
  {
    if n > 0 {
      CountAtMost(places, p, n - 1);
      CoveredNext(places, p, n - 1);
    }
  }

  /** A byte that is covered already does not count again. */
  lemma {:induction false} CountOverlap(places: seq<Place>, p: Place, n: nat, x: nat)
    requires x < n && Covered(places, x) && Covers(p, x)
    ensures CountTo(places + [p], n) < CountTo(places, n) + CountOf(p, n)
  {
    CoveredNext(places, p, n - 1);
    if x < n - 1 {
      CountOverlap(places, p, n - 1, x);
    } else {
      CountAtMost(places, p, n - 1);
    }
  }

  lemma {:induction false} FullIsDisjoint(places: seq<Place>, size: nat)
    requires Fit(places, size)
    ensures CountTo(places, size) <= 32 * |places| && (CountTo(places, size) == 32 * |places| ==> Disjoint(places))
  {
    if places == [] {
      CountNone(size);
    } else {
      var n := |places| - 1;
      var front, p := places[..n], places[n];
      assert places == front + [p];
      FullIsDisjoint(front, size);
      CountAtMost(front, p, size);
      if CountTo(places, size) == 32 * |places| {
        DisjointNext(front, p, size);
        forall x | p.start <= x < p.start + SLOT ensures !Covered(front, x) {
          if Covered(front, x) { CountOverlap(front, p, size, x); }
        }
      }
    }
  }

  /** References are accepted if and only if there are some, each with a key, of 32 bytes and within
      the code, and together they claim as many bytes as they cover: none twice. */
  lemma {:induction false} ValidIff(blank: string -> bool, groups: seq<Group>, size: nat)
    ensures Valid(blank, groups, size) <==>
      && groups != [] && (forall g :: g in groups ==> !blank(g.key) && g.references != [])
      && (forall g :: g in groups ==> forall r :: r in g.references ==> r.length == 32 && r.start + 32 <= size)
      && CountTo(Places(groups), size) == Claimed(groups)
  {
    if forall i :: 0 <= i < |groups| ==> GroupOk(blank, groups[i], size) {
      ClaimedIs(blank, groups, size);
      FullIsDisjoint(Places(groups), size);
      if Valid(blank, groups, size) { CoveredSize(Places(groups), size); }
      forall g | g in groups ensures GroupOk(blank, g, size) {}
    } else {
      var i :| 0 <= i < |groups| && !GroupOk(blank, groups[i], size);
      assert groups[i] in groups;
      if forall r :: r in groups[i].references ==> r.length == 32 && r.start + 32 <= size {
        forall k | 0 <= k < |groups[i].references| ensures ReferenceOk(groups[i].references[k], size) {
          assert groups[i].references[k] in groups[i].references;
        }
      }
    }
  }

  // ------------------------------------------------------------ filling in

  type Values = map<string, Bytes>

  /** One 32-byte value per immutable id. */
  ghost predicate Assigns(values: Values, groups: seq<Group>) {
    (forall key :: key in values <==> exists i :: 0 <= i < |groups| && groups[i].key == key) &&
    forall key :: key in values ==> |values[key]| == SLOT
  }

  function Stamp(code: Bytes, start: nat, value: Bytes): (r: Bytes)
    requires start + SLOT <= |code| && |value| == SLOT
    ensures |r| == |code|
  {
    code[..start] + value + code[start + SLOT..]
  }

  ghost predicate Stampable(places: seq<Place>, values: Values, size: nat) {
    forall k ::
      0 <= k < |places| ==> places[k].key in values && |values[places[k].key]| == SLOT && places[k].start + SLOT <= size
  }

  /** The template with the values written at all their places. */
  ghost function Instantiate(template: Bytes, places: seq<Place>, values: Values): (r: Bytes)
    requires Stampable(places, values, |template|)
    ensures |r| == |template|
  {
    if places == [] then template else
    var p := places[|places| - 1];
    Stamp(Instantiate(template, places[..|places| - 1], values), p.start, values[p.key])
  }

  /** The same, place by place and byte by byte. */
  ghost predicate Fills(template: Bytes, code: Bytes, places: seq<Place>, values: Values)
    requires Stampable(places, values, |template|)
  {
    && |code| == |template|
    && (forall k :: 0 <= k < |places| ==> code[places[k].start..places[k].start + SLOT] == values[places[k].key])
    && (forall x :: 0 <= x < |code| && !Covered(places, x) ==> code[x] == template[x])
  }

  lemma {:induction false} StampReads(code: Bytes, start: nat, value: Bytes, x: nat)
    requires start + SLOT <= |code| && |value| == SLOT && x < |code|
    ensures Stamp(code, start, value)[x] == if start <= x < start + SLOT then value[x - start] else code[x]
  {
  }

  lemma {:induction false} StampSlice(code: Bytes, start: nat, value: Bytes, other: nat)
    requires start + SLOT <= |code| && |value| == SLOT && other + SLOT <= |code|
    ensures Stamp(code, start, value)[start..start + SLOT] == value
    ensures Apart(Place("", start), Place("", other)) ==>
      Stamp(code, start, value)[other..other + SLOT] == code[other..other + SLOT]
  {
    var s := Stamp(code, start, value);
    if Apart(Place("", start), Place("", other)) {
      forall x | other <= x < other + SLOT ensures s[x] == code[x] { StampReads(code, start, value, x); }
    }
  }

  /** The instantiated template is filled in at disjoint places. */
  lemma {:induction false} InstantiateFills(template: Bytes, places: seq<Place>, values: Values)
    requires Stampable(places, values, |template|) && Disjoint(places)
    ensures Fills(template, Instantiate(template, places, values), places, values)
  {
    if places != [] {
      var n := |places| - 1;
      var before, p := places[..n], places[n];
      assert places == before + [p];
      DisjointPrefix(before, [p]);
      InstantiateFills(template, before, values);
      var code, after := Instantiate(template, before, values), Instantiate(template, places, values);
      forall k | 0 <= k < |places| ensures after[places[k].start..places[k].start + SLOT] == values[places[k].key] {
        if k < n {
          assert Apart(places[k], places[n]);
          assert code[before[k].start..before[k].start + SLOT] == values[before[k].key];
          StampSlice(code, p.start, values[p.key], places[k].start);
        } else {
          StampSlice(code, p.start, values[p.key], p.start);
        }
      }
      forall x | 0 <= x < |after| && !Covered(places, x) ensures after[x] == template[x] {
        CoveredNext(before, p, x);
        StampReads(code, p.start, values[p.key], x);
      }
    }
  }

  lemma {:induction false} FillsAt(template: Bytes, code: Bytes, places: seq<Place>, values: Values, x: nat, k: nat)
    requires Stampable(places, values, |template|) && Fills(template, code, places, values) && k < |places|
    requires Covers(places[k], x) && x < |code|
    ensures code[x] == values[places[k].key][x - places[k].start]
  {
    var slice := code[places[k].start..places[k].start + SLOT];
    assert slice[x - places[k].start] == code[x];
  }

  /** Filling in determines the code. */
  lemma {:induction false} FillsUnique(template: Bytes, a: Bytes, b: Bytes, places: seq<Place>, values: Values)
    requires Stampable(places, values, |template|) && Fills(template, a, places, values)
    requires Fills(template, b, places, values)
    ensures a == b
  {
    forall x | 0 <= x < |a| ensures a[x] == b[x] {
      if Covered(places, x) {
        var k :| 0 <= k < |places| && Covers(places[k], x);
        FillsAt(template, a, places, values, x, k);
        FillsAt(template, b, places, values, x, k);
      }
    }
  }

  lemma {:induction false} InstantiateIff(template: Bytes, observed: Bytes, places: seq<Place>, values: Values)
    requires Stampable(places, values, |template|) && Disjoint(places)
    ensures observed == Instantiate(template, places, values) <==> Fills(template, observed, places, values)
  {
    InstantiateFills(template, places, values);
    if Fills(template, observed, places, values) {
      FillsUnique(template, observed, Instantiate(template, places, values), places, values);
    }
  }

  // ------------------------------------------------------------ comparing

  lemma {:induction false} PlaceIn(groups: seq<Group>, k: nat)
    requires k < |Places(groups)|
    ensures exists g, i ::
      0 <= g < |groups| && 0 <= i < |groups[g].references| &&
      Places(groups)[k] == Place(groups[g].key, groups[g].references[i].start)
  {
    var n := |groups| - 1;
    var before := Places(groups[..n]);
    if k < |before| {
      PlaceIn(groups[..n], k);
      var g, i :|
        0 <= g < n && 0 <= i < |groups[..n][g].references| &&
        before[k] == Place(groups[..n][g].key, groups[..n][g].references[i].start);
      assert groups[g] == groups[..n][g];
    } else {
      assert Places(groups)[k] == PlacesOf(groups[n])[k - |before|];
    }
  }

  lemma {:induction false} PlaceOut(groups: seq<Group>, g: nat, i: nat)
    requires g < |groups| && i < |groups[g].references|
    ensures Place(groups[g].key, groups[g].references[i].start) in Places(groups)
  {
    var n := |groups| - 1;
    if g < n {
      PlaceOut(groups[..n], g, i);
    } else {
      assert PlacesOf(groups[n])[i] in PlacesOf(groups[n]);
    }
  }

  lemma {:induction false} ValidStampable(blank: string -> bool, groups: seq<Group>, size: nat, values: Values)
    requires Valid(blank, groups, size) && Assigns(values, groups)
    ensures Stampable(Places(groups), values, size)
  {
    var places := Places(groups);
    forall k | 0 <= k < |places|
      ensures places[k].key in values && |values[places[k].key]| == SLOT && places[k].start + SLOT <= size
    {
      PlaceIn(groups, k);
      var g, i :|
        0 <= g < |groups| && 0 <= i < |groups[g].references| &&
        places[k] == Place(groups[g].key, groups[g].references[i].start);
      assert GroupOk(blank, groups[g], size) && ReferenceOk(groups[g].references[i], size);
    }
  }

  function SlotAt(code: Bytes, start: nat): Bytes
    requires start + SLOT <= |code|
  {
    code[start..start + SLOT]
  }

  /** All references of a group read the same value. */
  ghost predicate Agrees(code: Bytes, g: Group, value: Bytes) {
    forall i ::
      0 <= i < |g.references| ==> g.references[i].start + SLOT <= |code| && SlotAt(code, g.references[i].start) == value
  }

  /** The inner loop of `compareRuntimeTemplate`: the common value of one immutable. */
  method ReadImmutable(observed: Bytes, g: Group, mutable: array<bool>, ghost before: seq<Place>)
    returns (value: Option<Bytes>)
    requires mutable.Length == |observed| && g.references != [] && Marks(mutable[..], before)
    requires forall i :: 0 <= i < |g.references| ==> ReferenceOk(g.references[i], |observed|)
    modifies mutable
    ensures value.Some? ==>
      |value.value| == SLOT && Agrees(observed, g, value.value) && Marks(mutable[..], before + PlacesOf(g))
    ensures value.None? ==> forall v :: !Agrees(observed, g, v)
  {
    value := None;
    assert before + PlacesOf(g)[..0] == before;
    for i := 0 to |g.references|
      invariant i == 0 ==> value.None?
      invariant i > 0 ==> value == Some(SlotAt(observed, g.references[0].start))
      invariant forall k ::
        0 <= k < i ==> SlotAt(observed, g.references[k].start) == SlotAt(observed, g.references[0].start)
      invariant Marks(mutable[..], before + PlacesOf(g)[..i])
    {
      var start := g.references[i].start;
      var slot := SlotAt(observed, start);
      if value.None? {
        value := Some(slot);
      } else if value.value != slot {
        forall v ensures !Agrees(observed, g, v) {
          assert SlotAt(observed, g.references[0].start) != SlotAt(observed, g.references[i].start);
        }
        return None;
      }
      PlacesPrefix(g, i);
      MarkMutable(mutable, Place(g.key, start), before + PlacesOf(g)[..i]);
      assert (before + PlacesOf(g)[..i]) + [Place(g.key, start)] == before + PlacesOf(g)[..i + 1];
    }
    assert PlacesOf(g)[..|g.references|] == PlacesOf(g);
  }

  method MarkMutable(mutable: array<bool>, p: Place, ghost places: seq<Place>)
    requires p.start + SLOT <= mutable.Length && Marks(mutable[..], places)
    modifies mutable
    ensures Marks(mutable[..], places + [p])
  {
    for x := p.start to p.start + SLOT
      invariant forall y :: 0 <= y < mutable.Length ==> (mutable[y] <==> Covered(places, y) || p.start <= y < x)
    {
      mutable[x] := true;
    }
    forall y | 0 <= y < mutable.Length ensures mutable[y] <==> Covered(places + [p], y) { CoveredNext(places, p, y); }
  }

  ghost predicate Collected(observed: Bytes, groups: seq<Group>, n: nat, values: Values)
    requires n <= |groups|
  {
    && (forall key :: key in values <==> exists i :: 0 <= i < n && groups[i].key == key)
    && (forall i ::
          0 <= i < n ==>
            groups[i].key in values && |values[groups[i].key]| == SLOT &&
            Agrees(observed, groups[i], values[groups[i].key]))
  }

  lemma {:induction false} CollectedNext(observed: Bytes, groups: seq<Group>, n: nat, values: Values, value: Bytes)
    requires n < |groups| && DistinctKeys(groups) && Collected(observed, groups, n, values) && |value| == SLOT
    requires Agrees(observed, groups[n], value)
    ensures Collected(observed, groups, n + 1, values[groups[n].key := value])
  {
    var more := values[groups[n].key := value];
    forall i | 0 <= i < n + 1
      ensures groups[i].key in more && |more[groups[i].key]| == SLOT && Agrees(observed, groups[i], more[groups[i].key])
    {
      if i < n { assert groups[i].key != groups[n].key; }
    }
    forall key ensures key in more <==> exists i :: 0 <= i < n + 1 && groups[i].key == key {
      if key in values {
        var i :| 0 <= i < n && groups[i].key == key;
      }
    }
  }

  /** What every admissible assignment must say about a group. */
  lemma {:induction false} FillsAgrees(template: Bytes, observed: Bytes, groups: seq<Group>, values: Values, g: nat)
    requires Stampable(Places(groups), values, |template|) && Fills(template, observed, Places(groups), values)
    requires g < |groups|
    requires groups[g].key in values
    ensures Agrees(observed, groups[g], values[groups[g].key])
  {
    var places := Places(groups);
    forall i | 0 <= i < |groups[g].references|
      ensures groups[g].references[i].start + SLOT <= |observed|
      ensures SlotAt(observed, groups[g].references[i].start) == values[groups[g].key]
    {
      PlaceOut(groups, g, i);
      var k :| 0 <= k < |places| && places[k] == Place(groups[g].key, groups[g].references[i].start);
    }
  }

  lemma {:induction false} CollectedFills(template: Bytes, observed: Bytes, groups: seq<Group>, values: Values)
    requires Stampable(Places(groups), values, |template|) && Collected(observed, groups, |groups|, values)
    requires |observed| == |template|
    requires forall x :: 0 <= x < |observed| && !Covered(Places(groups), x) ==> observed[x] == template[x]
    ensures Fills(template, observed, Places(groups), values)
  {
    var places := Places(groups);
    forall k | 0 <= k < |places| ensures observed[places[k].start..places[k].start + SLOT] == values[places[k].key] {
      PlaceIn(groups, k);
      var g, i :|
        0 <= g < |groups| && 0 <= i < |groups[g].references| &&
        places[k] == Place(groups[g].key, groups[g].references[i].start);
      assert Agrees(observed, groups[g], values[groups[g].key]);
      assert SlotAt(observed, groups[g].references[i].start) == values[groups[g].key];
    }
  }

  /** The observed code is the template with these values written in. */
  ghost predicate Explains(template: Bytes, observed: Bytes, groups: seq<Group>, values: Values) {
    && Assigns(values, groups) && Stampable(Places(groups), values, |template|)
    && observed == Instantiate(template, Places(groups), values)
  }

  lemma {:induction false} ExplainsIff(blank: string -> bool, template: Bytes, observed: Bytes, groups: seq<Group>,
      values: Values)
    requires Valid(blank, groups, |template|)
    ensures Explains(template, observed, groups, values) <==>
      Assigns(values, groups) && Stampable(Places(groups), values, |template|) &&
      Fills(template, observed, Places(groups), values)
  {
    if Assigns(values, groups) && Stampable(Places(groups), values, |template|) {
      InstantiateIff(template, observed, Places(groups), values);
    }
  }

  /** At most one assignment explains the code. */
  lemma {:induction false} ExplanationUnique(blank: string -> bool, template: Bytes, observed: Bytes,
      groups: seq<Group>, a: Values, b: Values)
    requires Valid(blank, groups, |template|) && Explains(template, observed, groups, a)
    requires Explains(template, observed, groups, b)
    ensures a == b
  {
    ExplainsIff(blank, template, observed, groups, a);
    ExplainsIff(blank, template, observed, groups, b);
    assert forall key :: key in a <==> key in b;
    forall key | key in a ensures a[key] == b[key] {
      var g :| 0 <= g < |groups| && groups[g].key == key;
      assert GroupOk(blank, groups[g], |template|);
      FillsAgrees(template, observed, groups, a, g);
      FillsAgrees(template, observed, groups, b, g);
      assert SlotAt(observed, groups[g].references[0].start) == a[key];
    }
  }

  lemma {:induction false} NoExplanation(blank: string -> bool, template: Bytes, observed: Bytes, groups: seq<Group>,
      g: nat)
    requires Valid(blank, groups, |template|) && g < |groups| && forall v :: !Agrees(observed, groups[g], v)
    ensures forall values :: !Explains(template, observed, groups, values)
  {
    forall values ensures !Explains(template, observed, groups, values) {
      ExplainsIff(blank, template, observed, groups, values);
      if Explains(template, observed, groups, values) { FillsAgrees(template, observed, groups, values, g); }
    }
  }

  lemma {:induction false} DiffersOutside(blank: string -> bool, template: Bytes, observed: Bytes, groups: seq<Group>,
      x: nat)
    requires Valid(blank, groups, |template|) && x < |template| == |observed| && !Covered(Places(groups), x)
    requires observed[x] != template[x]
    ensures forall values :: !Explains(template, observed, groups, values)
  {
    forall values ensures !Explains(template, observed, groups, values) {
      ExplainsIff(blank, template, observed, groups, values);
    }
  }

  /** The last loop of `compareRuntimeTemplate`: nothing differs outside the marks. */
  method SameOutside(template: Bytes, observed: Bytes, mutable: array<bool>, ghost places: seq<Place>)
    returns (at: Option<nat>)
    requires |template| == |observed| == mutable.Length && Marks(mutable[..], places)
    ensures at.None? ==> forall x :: 0 <= x < |template| && !Covered(places, x) ==> observed[x] == template[x]
    ensures at.Some? ==> at.value < |template| && !Covered(places, at.value) && observed[at.value] != template[at.value]
  {
    for x := 0 to |template|
      invariant forall y :: 0 <= y < x && !Covered(places, y) ==> observed[y] == template[y]
    {
      if !mutable[x] && template[x] != observed[x] {
        assert mutable[..][x] == mutable[x];
        return Some(x);
      }
      assert mutable[..][x] == mutable[x];
    }
    return None;
  }

  /** The loops over the groups of `compareRuntimeTemplate`. */
  method ReadValues(blank: string -> bool, template: Bytes, observed: Bytes, groups: seq<Group>, mutable: array<bool>)
    returns (r: Option<Values>)
    requires Valid(blank, groups, |template|) && DistinctKeys(groups) && |observed| == |template| == mutable.Length
    requires Marks(mutable[..], [])
    modifies mutable
    ensures r.Some? ==> Collected(observed, groups, |groups|, r.value) && Marks(mutable[..], Places(groups))
    ensures r.None? ==> forall values :: !Explains(template, observed, groups, values)
  {
    var values: Values := map[];
    for n := 0 to |groups|
      invariant Collected(observed, groups, n, values) && Marks(mutable[..], Places(groups[..n]))
    {
      assert groups[..n + 1][..n] == groups[..n];
      assert GroupOk(blank, groups[n], |template|);
      var value := ReadImmutable(observed, groups[n], mutable, Places(groups[..n]));
      if value.None? {
        NoExplanation(blank, template, observed, groups, n);
        return None;
      }
      CollectedNext(observed, groups, n, values, value.value);
      values := values[groups[n].key := value.value];
    }
    assert groups[..|groups|] == groups;
    return Some(values);
  }

  /** `compareRuntimeTemplate`: it succeeds exactly when some assignment of one 32-byte value per
      immutable turns the template into the observed code, and returns the only such assignment. */
  method CompareRuntimeTemplate(blank: string -> bool, template: Bytes, observed: Bytes, groups: seq<Group>)
    returns (r: Option<Values>)
    requires Valid(blank, groups, |template|) && DistinctKeys(groups)
    ensures r.Some? <==> exists values :: Explains(template, observed, groups, values)
    ensures r.Some? ==> Explains(template, observed, groups, r.value)
    ensures r.Some? ==> forall values :: Explains(template, observed, groups, values) ==> values == r.value
  {
    if |observed| != |template| {
      assert forall values :: !Explains(template, observed, groups, values);
      return None;
    }
    var mutable := new bool[|template|](_ => false);
    assert forall x :: 0 <= x < mutable.Length ==> mutable[..][x] == mutable[x];
    var values := ReadValues(blank, template, observed, groups, mutable);
    if values.None? { return None; }
    var at := SameOutside(template, observed, mutable, Places(groups));
    if at.Some? {
      DiffersOutside(blank, template, observed, groups, at.value);
      return None;
    }
    CollectedExplains(blank, template, observed, groups, values.value);
    forall other | Explains(template, observed, groups, other) ensures other == values.value {
      ExplanationUnique(blank, template, observed, groups, other, values.value);
    }
    return values;
  }

  lemma {:induction false} CollectedExplains(blank: string -> bool, template: Bytes, observed: Bytes,
      groups: seq<Group>, values: Values)
    requires Valid(blank, groups, |template|) && |observed| == |template|
    requires Collected(observed, groups, |groups|, values)
    requires forall x :: 0 <= x < |observed| && !Covered(Places(groups), x) ==> observed[x] == template[x]
    ensures Explains(template, observed, groups, values)
  {
    forall key | key in values ensures |values[key]| == SLOT {
      var i :| 0 <= i < |groups| && groups[i].key == key;
    }
    ValidStampable(blank, groups, |template|, values);
    CollectedFills(template, observed, groups, values);
    ExplainsIff(blank, template, observed, groups, values);
  }
}
