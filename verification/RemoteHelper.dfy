/** The remote helper: its cached listing, and the loops of a listing, a fetch and a push. */
module RemoteHelper {
  import opened Digits
  import opened PackCoverage
  import opened PackFetch

  /** The addresses of one requested ref: from the listing, or asked for directly. */
  function UrisOf(cache: Refs, resolve: string -> Option<seq<string>>, name: string): Option<seq<string>> {
    if name in cache then Some(cache[name].uris) else resolve(name)
  }

  function Collect(cache: Refs, resolve: string -> Option<seq<string>>, names: seq<string>): Option<seq<string>> {
    if names == [] then Some([]) else
    var before :- Collect(cache, resolve, names[..|names| - 1]);
    var uris :- UrisOf(cache, resolve, names[|names| - 1]);
    Some(Merge(before, uris))
  }

  lemma {:induction false} CollectIsNeeded(cache: Refs, resolve: string -> Option<seq<string>>, names: seq<string>)
    requires forall i :: 0 <= i < |names| ==> names[i] in cache
    ensures Collect(cache, resolve, names) == Some(Needed(cache, names))
  {
    if names != [] { CollectIsNeeded(cache, resolve, names[..|names| - 1]); }
  }

  lemma {:induction false} CollectFails(cache: Refs, resolve: string -> Option<seq<string>>, names: seq<string>, i: nat)
    requires i < |names| && UrisOf(cache, resolve, names[i]).None?
    ensures Collect(cache, resolve, names).None?
  {
    if i < |names| - 1 { CollectFails(cache, resolve, names[..|names| - 1], i); }
  }

  // ------------------------------------------------------------ listing

  datatype Listed = Listed(name: string, info: RefInfo)

  /** What a resolved repository says of itself: whether it was reached under its current name,
      and the default branch. */
  datatype Resolved = Resolved(canonical: bool, defaultBranch: string)

  /** The listing shows `refs` and nothing else. */
  ghost predicate Lists(listing: seq<Listed>, refs: Refs) {
    && (forall i :: 0 <= i < |listing| ==> listing[i].name in refs && refs[listing[i].name] == listing[i].info)
    && (forall name :: name in refs ==> exists i :: 0 <= i < |listing| && listing[i].name == name)
  }

  /** Entry `i` is the last one with its name. */
  predicate LastNamed(listing: seq<Listed>, i: nat) {
    i < |listing| && forall j :: i < j < |listing| ==> listing[j].name != listing[i].name
  }

  /** The cache holds the last entry of every listed name. */
  ghost predicate Latest(listing: seq<Listed>, cache: Refs) {
    && (forall i :: 0 <= i < |listing| ==> listing[i].name in cache)
    && (forall name :: name in cache ==>
          exists i :: 0 <= i < |listing| && LastNamed(listing, i) && listing[i] == Listed(name, cache[name]))
  }

  lemma {:induction false} LatestNext(listing: seq<Listed>, cache: Refs, r: Listed)
    requires Latest(listing, cache)
    ensures Latest(listing + [r], cache[r.name := r.info])
  {
    var more, after := listing + [r], cache[r.name := r.info];
    forall name | name in after
      ensures exists i :: 0 <= i < |more| && LastNamed(more, i) && more[i] == Listed(name, after[name])
    {
      if name == r.name {
        assert LastNamed(more, |listing|) && more[|listing|] == r;
      } else {
        var i :| 0 <= i < |listing| && LastNamed(listing, i) && listing[i] == Listed(name, cache[name]);
        assert LastNamed(more, i) && more[i] == listing[i];
      }
    }
  }

  /** A listing of the registry is cached as the registry itself. */
  lemma {:induction false} ListingIsRegistry(listing: seq<Listed>, cache: Refs, refs: Refs)
    requires Latest(listing, cache) && Lists(listing, refs)
    ensures cache == refs
  {
  }

  function RefLine(r: Listed): string { r.info.tip + " " + r.name }

  function HeadTarget(branch: string): string { "refs/heads/" + branch }

  /** The line for HEAD, only when the default branch is listed. */
  function HeadLine(cache: Refs, branch: string): seq<string> {
    if branch != "" && HeadTarget(branch) in cache then ["@" + HeadTarget(branch) + " HEAD"] else []
  }

  function RefLines(listing: seq<Listed>): seq<string> {
    seq(|listing|, i requires 0 <= i < |listing| => RefLine(listing[i]))
  }

  // ------------------------------------------------------------ pushing

  /** Whether packing, the local upload, the connection, the authorization and the durable pin
      each succeed. */
  datatype Steps = Steps(packed: bool, added: bool, connected: bool, authorized: bool, confirmed: bool)

  predicate Succeeds(steps: Steps) {
    steps.packed && steps.added && steps.connected && steps.authorized && steps.confirmed
  }

  /** One push command: delete a ref, or move it to a local commit, which may not resolve. */
  datatype Command = Remove(dst: string) | Move(dst: string, commit: Option<string>, force: bool)

  /** The registry afterwards; nothing when the command fails, which leaves it as it was. */
  function Execute(g: Git, refs: Refs, cache: Refs, c: Command, local: set<string>, uri: string,
      steps: Steps): Option<Refs> {
    match c
    case Remove(dst) => DeleteRef(refs, dst)
    case Move(dst, commit, force) =>
      if commit.None? || !steps.packed then None else
      var spec := Spec(dst, commit.value, force);
      if !KeepsList(g, cache, spec, local) && !Succeeds(steps) then None else Push(g, refs, cache, spec, local, uri)
  }

  /** Without a durable pin of its pack, and every step before it, no ref moves. */
  lemma {:induction false} NoPinNoMove(g: Git, refs: Refs, cache: Refs, spec: Spec, local: set<string>, uri: string,
      steps: Steps)
    requires Execute(g, refs, cache, Move(spec.dst, Some(spec.tip), spec.force), local, uri, steps).Some?
    ensures (steps.packed && steps.added && steps.connected && steps.authorized && steps.confirmed) ||
      (spec.dst in cache && Sent(g, cache, spec, local, uri) == cache[spec.dst].uris)
  {
  }

  /** From a current listing, when every step succeeds and the registry has room, a push lands and
      its ref points to the commit. */
  lemma {:induction false} CurrentPushLands(g: Git, refs: Refs, spec: Spec, local: set<string>, uri: string,
      steps: Steps)
    requires Bounded(refs) && (spec.dst in refs || |refs| < 1024) && |PackCoverage.ListOf(refs, spec.dst)| < 128
    requires steps.packed && steps.added && steps.connected && steps.authorized && steps.confirmed
    ensures var r := Execute(g, refs, refs, Move(spec.dst, Some(spec.tip), spec.force), local, uri, steps);
      r.Some? && spec.dst in r.value && r.value[spec.dst].tip == spec.tip
  {
    var uris, list := Sent(g, refs, spec, local, uri), PackCoverage.ListOf(refs, spec.dst);
    UpdateIff(refs, spec.dst, spec.tip, uris, ExpectedTip(refs, spec.dst), spec.force);
    if KeepsList(g, refs, spec, local) {
      assert Unlisted(list, uris) == {};
    } else {
      assert Unlisted(list, [uri]) == if uri in list then {} else {uri};
    }
  }

  /** Git's reading of an announced ref: the tip ends at the first blank. */
  function ReadLine(line: string): (string, string) {
    if line == "" then ("", "") else if line[0] == ' ' then ("", line[1..]) else
    var rest := ReadLine(line[1..]);
    ([line[0]] + rest.0, rest.1)
  }

  lemma {:induction false} LineReads(r: Listed)
    requires ' ' !in r.info.tip
    ensures ReadLine(RefLine(r)) == (r.info.tip, r.name)
    decreases |r.info.tip|
  {
    var line, tip := RefLine(r), r.info.tip;
    if tip == "" {
      assert line[1..] == r.name;
    } else {
      var rest := r.(info := r.info.(tip := tip[1..]));
      LineReads(rest);
      assert line[0] == tip[0] && line[0] in tip && line[1..] == RefLine(rest) && tip == [tip[0]] + tip[1..];
    }
  }

  /** HEAD is announced exactly when its branch is among the listed refs. */
  lemma {:induction false} HeadIff(listing: seq<Listed>, cache: Refs, branch: string)
    requires Latest(listing, cache)
    ensures HeadLine(cache, branch) ==
      if branch != "" && (exists i :: 0 <= i < |listing| && listing[i].name == "refs/heads/" + branch)
      then ["@refs/heads/" + branch + " HEAD"] else []
  {
    assert "@" + ("refs/heads/" + branch) + " HEAD" == "@refs/heads/" + branch + " HEAD";
    if HeadTarget(branch) in cache {
      var i :| 0 <= i < |listing| && LastNamed(listing, i) &&
        listing[i] == Listed(HeadTarget(branch), cache[HeadTarget(branch)]);
    }
  }

  class Helper {
    var remoteRefs: Refs

    constructor ()
      ensures remoteRefs == map[]
    {
      remoteRefs := map[];
    }

    /** `cmdList`: whatever was cached before, afterwards it is the last entry of every listed
        name, announced line by line; when the command fails nothing changes. */
    method List(resolved: Option<Resolved>, forPush: bool, listing: Option<seq<Listed>>)
      returns (lines: Option<seq<string>>)
      modifies this
      ensures lines.Some? <==> resolved.Some? && listing.Some? && (forPush ==> resolved.value.canonical)
      ensures lines.None? ==> remoteRefs == old(remoteRefs)
      ensures lines.Some? ==> Latest(listing.value, remoteRefs)
      ensures lines.Some? ==>
        lines.value == RefLines(listing.value) + HeadLine(remoteRefs, resolved.value.defaultBranch)
    {
      if resolved.None? || (forPush && !resolved.value.canonical) || listing.None? { return None; }
      var out: seq<string> := [];
      remoteRefs := map[];
      for i := 0 to |listing.value|
        invariant out == RefLines(listing.value)[..i] && Latest(listing.value[..i], remoteRefs)
      {
        var r := listing.value[i];
        assert listing.value[..i + 1] == listing.value[..i] + [r];
        LatestNext(listing.value[..i], remoteRefs, r);
        remoteRefs := remoteRefs[r.name := r.info];
        out := out + [RefLine(r)];
      }
      assert listing.value[..|listing.value|] == listing.value;
      var branch := resolved.value.defaultBranch;
      if branch != "" && HeadTarget(branch) in remoteRefs { out := out + ["@" + HeadTarget(branch) + " HEAD"]; }
      return Some(out);
    }

    /** The inner loop of `cmdFetchBatch`. */
    method AddUris(start: seq<string>, uris: seq<string>) returns (r: seq<string>)
      ensures r == Merge(start, uris)
    {
      r := start;
      for i := 0 to |uris|
        invariant r == Merge(start, uris[..i])
      {
        assert uris[..i + 1][..i] == uris[..i];
        if uris[i] !in r { r := r + [uris[i]]; }
      }
      assert uris[..|uris|] == uris;
    }

    /** The address collection of `cmdFetchBatch`. */
    method CollectUris(resolve: string -> Option<seq<string>>, names: seq<string>) returns (r: Option<seq<string>>)
      ensures r == Collect(remoteRefs, resolve, names)
    {
      var uris: seq<string> := [];
      for i := 0 to |names|
        invariant Collect(remoteRefs, resolve, names[..i]) == Some(uris)
      {
        assert names[..i + 1][..i] == names[..i];
        var listed := UrisOf(remoteRefs, resolve, names[i]);
        if listed.None? {
          CollectFails(remoteRefs, resolve, names, i);
          return None;
        }
        uris := AddUris(uris, listed.value);
      }
      assert names[..|names|] == names;
      return Some(uris);
    }

    /** The tips a push leaves out: all listed ones. */
    method ExcludedTips() returns (exclude: set<string>)
      ensures exclude == Tips(remoteRefs)
    {
      exclude := {};
      var left := remoteRefs.Keys;
      while left != {}
        invariant left <= remoteRefs.Keys
        invariant exclude == set name | name in remoteRefs && name !in left :: remoteRefs[name].tip
        decreases |left|
      {
        var name :| name in left;
        exclude := exclude + {remoteRefs[name].tip};
        left := left - {name};
      }
    }

    /** `cmdFetchBatch`: what is present afterwards, or nothing when a ref does not resolve, a
        pack cannot be downloaded, or one cannot be indexed. */
    method FetchBatch(resolve: string -> Option<seq<string>>, download: string -> Option<PackFile>, names: seq<string>,
        have: set<string>)
      returns (r: Option<set<string>>)
      ensures var uris := Collect(remoteRefs, resolve, names);
        r == if uris.None? then None else Fetch(download, have, uris.value)
    {
      var uris := CollectUris(resolve, names);
      if uris.None? { return None; }
      r := IndexAll(download, uris.value, have);
    }

    /** `pushOne`: which pack is built, whether it is uploaded, and what the registry is told. The
        listing is not touched. */
    method PushOne(g: Git, refs: Refs, c: Command, local: set<string>, uri: string, steps: Steps)
      returns (r: Option<Refs>, uploaded: Option<set<string>>)
      ensures r == Execute(g, refs, remoteRefs, c, local, uri, steps)
      ensures uploaded.Some? && c.Move? && c.commit.Some? ==>
        var spec := Spec(c.dst, c.commit.value, c.force);
        !KeepsList(g, remoteRefs, spec, local) && uploaded.value == Upload(g, remoteRefs, spec, local)
      ensures uploaded.None? && c.Move? && r.Some? ==>
        KeepsList(g, remoteRefs, Spec(c.dst, c.commit.value, c.force), local)
    {
      if c.Remove? { return DeleteRef(refs, c.dst), None; }
      if c.commit.None? || !steps.packed { return None, None; }
      var tip := c.commit.value;
      var expected := "";
      if c.dst in remoteRefs { expected := remoteRefs[c.dst].tip; }
      var exclude: set<string> := {};
      if !c.force { exclude := ExcludedTips(); }
      var pack := Pack(g, tip, exclude, local);
      var uris: seq<string> := [];
      if pack == {} {
        if c.dst in remoteRefs {
          uris := remoteRefs[c.dst].uris;
        } else {
          pack := FullPack(g, tip, local);
        }
      }
      uploaded := None;
      if |uris| == 0 {
        if !steps.added { return None, None; }
        uploaded := Some(pack);
        uris := [uri];
        if !steps.connected || !steps.authorized || !steps.confirmed { return None, uploaded; }
      }
      r := UpdateRef(refs, c.dst, tip, uris, expected, c.force);
    }
  }

  lemma {:induction false} FetchFails(download: string -> Option<PackFile>, have: set<string>, uris: seq<string>,
      i: nat)
    requires i <= |uris| && Fetch(download, have, uris[..i]).None?
    ensures Fetch(download, have, uris).None?
    decreases |uris| - i
  {
    if i == |uris| {
      assert uris[..i] == uris;
    } else {
      assert uris[..i + 1][..i] == uris[..i];
      FetchFails(download, have, uris, i + 1);
    }
  }

  /** The download loop of `cmdFetchBatch`. */
  method IndexAll(download: string -> Option<PackFile>, uris: seq<string>, have: set<string>)
    returns (r: Option<set<string>>)
    ensures r == Fetch(download, have, uris)
  {
    var objects := have;
    for i := 0 to |uris|
      invariant Fetch(download, have, uris[..i]) == Some(objects)
    {
      assert uris[..i + 1][..i] == uris[..i];
      var pack := download(uris[i]);
      if pack.None? || !(pack.value.bases <= objects + pack.value.objects) {
        FetchFails(download, have, uris, i + 1);
        return None;
      }
      objects := objects + pack.value.objects;
    }
    assert uris[..|uris|] == uris;
    return Some(objects);
  }

  /** Packing without exclusions: the whole history. */
  method FullPack(g: Git, tip: string, local: set<string>) returns (pack: set<string>)
    ensures pack == g.reach(tip)
  {
    pack := Pack(g, tip, {}, local);
  }
}
