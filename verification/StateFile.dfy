/** The replication service's append-only state file: writing a record and reading the file. */
module StateFile {
  import opened Digits

  const TAB: char := '\t'
  const NEWLINE: char := '\n'

  // ------------------------------------------------------------ splitting

  /** Position of the first `c`, or the length. */
  function First(s: string, c: char): (r: nat)
    ensures r <= |s| && (r < |s| ==> s[r] == c) && forall i :: 0 <= i < r ==> s[i] != c
  {
    if s == "" || s[0] == c then 0 else 1 + First(s[1..], c)
  }

  /** `strings.Split` at a single character. */
  function Split(s: string, c: char): (r: seq<string>)
    ensures |r| >= 1 && forall k :: 0 <= k < |r| ==> c !in r[k]
    decreases |s|
  {
    var i := First(s, c);
    if i == |s| then [s] else [s[..i]] + Split(s[i + 1..], c)
  }

  lemma {:induction false} FirstIs(a: string, c: char, b: string)
    requires c !in a
    ensures First(a + [c] + b, c) == |a|
  {
    var s, i := a + [c] + b, First(a + [c] + b, c);
    assert s[|a|] == c;
    assert forall k :: 0 <= k < |a| ==> s[k] == a[k] != c;
  }

  lemma {:induction false} SplitHead(a: string, c: char, b: string)
    requires c !in a
    ensures Split(a + [c] + b, c) == [a] + Split(b, c)
  {
    FirstIs(a, c, b);
    var s := a + [c] + b;
    assert s[..|a|] == a && s[|a| + 1..] == b;
  }

  lemma {:induction false} Rebracket(head: string, c: char, tail: string, b: string)
    ensures (head + [c] + tail) + [c] + b == head + [c] + (tail + [c] + b)
  {
  }

  lemma {:induction false} Regroup(head: string, a: seq<string>, b: seq<string>)
    ensures [head] + (a + b) == ([head] + a) + b
  {
  }

  lemma {:induction false} SplitLonger(head: string, c: char, tail: string, b: string, joined: string)
    requires c !in head && joined == tail + [c] + b && Split(joined, c) == Split(tail, c) + Split(b, c)
    ensures Split(head + [c] + joined, c) == Split(head + [c] + tail, c) + Split(b, c)
  {
    SplitHead(head, c, joined);
    SplitHead(head, c, tail);
    Regroup(head, Split(tail, c), Split(b, c));
  }

  lemma {:induction false} CutAt(s: string, c: char) returns (head: string, tail: string)
    requires c in s
    ensures s == head + [c] + tail && c !in head
  {
    var i := First(s, c);
    head, tail := s[..i], s[i + 1..];
  }

  lemma {:induction false} SplitAppend(a: string, c: char, b: string)
    ensures Split(a + [c] + b, c) == Split(a, c) + Split(b, c)
    decreases |a|
  {
    if c !in a {
      SplitHead(a, c, b);
      SplitPlain(a, c);
    } else {
      var head, tail := CutAt(a, c);
      SplitAppend(tail, c, b);
      SplitLonger(head, c, tail, b, tail + [c] + b);
      Rebracket(head, c, tail, b);
    }
  }

  // ------------------------------------------------------------ reading

  type Used = map<string, string>

  function ReadLine(used: Used, line: string): Used {
    var p := Split(line, TAB);
    if |p| >= 2 then used[p[0] := p[1]] else used
  }

  function ReadLines(used: Used, lines: seq<string>): Used {
    if lines == [] then used else ReadLine(ReadLines(used, lines[..|lines| - 1]), lines[|lines| - 1])
  }

  /** `loadState`: what a file says was used. */
  function Load(file: string): Used { ReadLines(map[], Split(file, NEWLINE)) }

  /** Empty, or ending in a complete line. */
  predicate AtBoundary(file: string) { file == "" || file[|file| - 1] == NEWLINE }

  lemma {:induction false} ReadAppend(used: Used, a: seq<string>, b: seq<string>)
    ensures ReadLines(used, a + b) == ReadLines(ReadLines(used, a), b)
    decreases |b|
  {
    if b == [] {
      assert a + b == a;
    } else {
      ReadAppend(used, a, b[..|b| - 1]);
      assert (a + b)[..|a + b| - 1] == a + b[..|b| - 1];
    }
  }

  lemma {:induction false} SplitPlain(s: string, c: char)
    requires c !in s
    ensures Split(s, c) == [s]
  {
  }

  lemma {:induction false} ReadOne(used: Used, line: string)
    ensures ReadLines(used, [line]) == ReadLine(used, line) && ReadLine(used, "") == used
  {
    assert [line][..0] == [];
    SplitPlain("", TAB);
  }

  lemma {:induction false} TwoPieces(line: string)
    requires NEWLINE !in line
    ensures Split(line + [NEWLINE] + "", NEWLINE) == [line, ""]
  {
    SplitHead(line, NEWLINE, "");
    SplitPlain("", NEWLINE);
  }

  lemma {:induction false} ReadTwo(used: Used, line: string)
    ensures ReadLines(used, [line, ""]) == ReadLine(used, line) && ReadLines(used, [""]) == used
  {
    assert [line, ""] == [line] + [""];
    ReadAppend(used, [line], [""]);
    ReadOne(used, line);
    ReadOne(used, "");
    ReadOne(ReadLine(used, line), "");
  }

  lemma {:induction false} LoadAfter(f: string, line: string)
    requires NEWLINE !in line
    ensures Load(f + [NEWLINE] + (line + [NEWLINE] + "")) == ReadLine(Load(f + [NEWLINE] + ""), line)
  {
    var seen := Split(f, NEWLINE);
    SplitAppend(f, NEWLINE, "");
    SplitPlain("", NEWLINE);
    SplitAppend(f, NEWLINE, line + [NEWLINE] + "");
    TwoPieces(line);
    ReadAppend(map[], seen, [""]);
    ReadAppend(map[], seen, [line, ""]);
    ReadTwo(ReadLines(map[], seen), line);
  }

  /** A complete line is read on top of what the file said before. */
  lemma {:induction false} LoadNext(file: string, line: string)
    requires AtBoundary(file) && NEWLINE !in line
    ensures Load(file + line + [NEWLINE]) == ReadLine(Load(file), line) && AtBoundary(file + line + [NEWLINE])
  {
    if file == "" {
      assert file + line + [NEWLINE] == line + [NEWLINE] + "";
      TwoPieces(line);
      SplitPlain("", NEWLINE);
      ReadTwo(map[], line);
    } else {
      var f := file[..|file| - 1];
      assert file == f + [NEWLINE] + "";
      assert file + line + [NEWLINE] == f + [NEWLINE] + (line + [NEWLINE] + "");
      LoadAfter(f, line);
    }
  }

  // ------------------------------------------------------------ writing

  datatype Entry = Entry(jti: string, cid: string, expires: nat, subject: string, owner: string, repo: string,
      ref: string, size: nat)

  function Tail(e: Entry): string {
    Decimal(e.expires) + [TAB] + e.subject + [TAB] + e.owner + [TAB] + e.repo + [TAB] + e.ref + [TAB] + Decimal(e.size)
  }

  /** The line `record` appends, without its newline. */
  function Line(e: Entry): string { e.jti + [TAB] + e.cid + [TAB] + Tail(e) }

  predicate Unbroken(s: string) { NEWLINE !in s }

  predicate Plain(s: string) { TAB !in s && NEWLINE !in s }

  predicate Clean(e: Entry) {
    Plain(e.jti) && Plain(e.cid) && Unbroken(e.subject) && Unbroken(e.owner) && Unbroken(e.repo) && Unbroken(e.ref)
  }

  lemma {:induction false} DecimalUnbroken(n: nat)
    ensures Plain(Decimal(n))
  {
    if n >= 10 { DecimalUnbroken(n / 10); }
  }

  lemma {:induction false} TailUnbroken(e: Entry)
    requires Unbroken(e.subject) && Unbroken(e.owner) && Unbroken(e.repo) && Unbroken(e.ref)
    ensures Unbroken(Tail(e))
  {
    DecimalUnbroken(e.expires);
    DecimalUnbroken(e.size);
  }

  lemma {:induction false} LineFields(jti: string, cid: string, tail: string)
    requires TAB !in jti && TAB !in cid
    ensures var p := Split(jti + [TAB] + cid + [TAB] + tail, TAB); |p| >= 2 && p[0] == jti && p[1] == cid
  {
    assert jti + [TAB] + cid + [TAB] + tail == jti + [TAB] + (cid + [TAB] + tail);
    SplitHead(jti, TAB, cid + [TAB] + tail);
    SplitHead(cid, TAB, tail);
  }

  /** A clean record appended at a line boundary is exactly what a restart reads back. */
  lemma {:induction false} RecordReadBack(file: string, e: Entry)
    requires AtBoundary(file) && Clean(e)
    ensures Load(file + Line(e) + [NEWLINE]) == Load(file)[e.jti := e.cid] && AtBoundary(file + Line(e) + [NEWLINE])
  {
    TailUnbroken(e);
    LineFields(e.jti, e.cid, Tail(e));
    LoadNext(file, Line(e));
  }

  // ------------------------------------------------- complete and unfinished lines

  /** What the last line that names `k` says of it. */
  function LastSaying(lines: seq<string>, k: string): Option<string> {
    if lines == [] then None else
    var p := Split(lines[|lines| - 1], TAB);
    if |p| >= 2 && p[0] == k then Some(p[1]) else LastSaying(lines[..|lines| - 1], k)
  }

  /** Lines override what was known, the last one winning. */
  lemma {:induction false} ReadLinesIs(used: Used, lines: seq<string>, k: string)
    ensures var said, read := LastSaying(lines, k), ReadLines(used, lines);
      if said.Some? then k in read && read[k] == said.value
      else (k in read <==> k in used) && (k in used ==> read[k] == used[k])
  {
    if lines != [] { ReadLinesIs(used, lines[..|lines| - 1], k); }
  }

  /** Everything the lines say is in `used`. */
  ghost predicate Agrees(used: Used, lines: seq<string>) {
    forall k :: LastSaying(lines, k).Some? ==> k in used && used[k] == LastSaying(lines, k).value
  }

  lemma {:induction false} ReadsNothingNew(used: Used, lines: seq<string>)
    ensures ReadLines(used, lines) == used <==> Agrees(used, lines)
  {
    var read := ReadLines(used, lines);
    forall k ensures LastSaying(lines, k).Some? ==> k in read && read[k] == LastSaying(lines, k).value
             ensures LastSaying(lines, k).None? ==> (k in read <==> k in used) && (k in used ==> read[k] == used[k])
    {
      ReadLinesIs(used, lines, k);
    }
  }

  lemma {:induction false} SaysOnly(line: string, k: string)
    ensures LastSaying([line], k) == (var p := Split(line, TAB); if |p| >= 2 && p[0] == k then Some(p[1]) else None)
  {
    assert [line][..0] == [];
  }

  /** The unfinished last line of a file. */
  function Rest(file: string): string { var lines := Split(file, NEWLINE); lines[|lines| - 1] }

  /** What the complete lines of a file say. */
  function Settled(file: string): Used { var lines := Split(file, NEWLINE); ReadLines(map[], lines[..|lines| - 1]) }

  /** The lines that `text` completes when it is appended after `rest`. */
  function Completes(rest: string, text: string): seq<string> {
    var lines := Split(rest + text, NEWLINE);
    lines[..|lines| - 1]
  }

  lemma {:induction false} LoadIs(file: string)
    ensures Load(file) == ReadLine(Settled(file), Rest(file)) && Unbroken(Rest(file))
  {
  }

  lemma {:induction false} TextExtends(head: string, c: char, tail: string, t: string)
    ensures (head + [c] + tail) + t == head + [c] + (tail + t)
  {
  }

  lemma {:induction false} ExtendsFrom(head: string, p: seq<string>, longer: seq<string>, last: seq<string>)
    requires p != [] && longer == p[..|p| - 1] + last
    ensures var q := [head] + p; q[|q| - 1] == p[|p| - 1] && [head] + longer == q[..|q| - 1] + last
  {
  }

  lemma {:induction false} SplitExtendsStep(head: string, c: char, tail: string, t: string, p: seq<string>,
      last: seq<string>)
    requires c !in head && p == Split(tail, c) && Split(tail + t, c) == p[..|p| - 1] + last
    ensures var q := [head] + p;
      Split(head + [c] + tail, c) == q && q[|q| - 1] == p[|p| - 1] &&
      Split((head + [c] + tail) + t, c) == q[..|q| - 1] + last
  {
    SplitHead(head, c, tail);
    TextExtends(head, c, tail, t);
    SplitHead(head, c, tail + t);
    ExtendsFrom(head, p, Split(tail + t, c), last);
  }

  /** Appending changes only the last piece of a split. */
  lemma {:induction false} SplitExtends(a: string, c: char, t: string)
    ensures var p := Split(a, c); Split(a + t, c) == p[..|p| - 1] + Split(p[|p| - 1] + t, c)
    decreases |a|
  {
    if c !in a {
      SplitPlain(a, c);
      assert [a][..0] + Split(a + t, c) == Split(a + t, c);
    } else {
      var head, tail := CutAt(a, c);
      SplitExtends(tail, c, t);
      var p := Split(tail, c);
      SplitExtendsStep(head, c, tail, t, p, Split(p[|p| - 1] + t, c));
    }
  }

  lemma {:induction false} ReadsOn(before: seq<string>, more: seq<string>, all: seq<string>)
    requires more != [] && all == before + more
    ensures ReadLines(map[], all[..|all| - 1]) == ReadLines(ReadLines(map[], before), more[..|more| - 1])
    ensures all[|all| - 1] == more[|more| - 1]
  {
    assert all[..|all| - 1] == before + more[..|more| - 1];
    ReadAppend(map[], before, more[..|more| - 1]);
  }

  /** What an append does to a file: it completes some lines and leaves an unfinished one. */
  lemma {:induction false} AppendText(file: string, text: string)
    ensures Settled(file + text) == ReadLines(Settled(file), Completes(Rest(file), text))
    ensures Rest(file + text) == Rest(Rest(file) + text)
  {
    var p, more, all := Split(file, NEWLINE), Split(Rest(file) + text, NEWLINE), Split(file + text, NEWLINE);
    SplitExtends(file, NEWLINE, text);
    ReadsOn(p[..|p| - 1], more, all);
    LastPieces(file, text, p, more, all);
  }

  lemma {:induction false} LastPieces(file: string, text: string, p: seq<string>, more: seq<string>, all: seq<string>)
    requires p == Split(file, NEWLINE) && more == Split(Rest(file) + text, NEWLINE)
    requires all == Split(file + text, NEWLINE)
    ensures |p| > 0 && |more| > 0 && |all| > 0
    ensures Settled(file) == ReadLines(map[], p[..|p| - 1]) && Completes(Rest(file), text) == more[..|more| - 1]
    ensures Settled(file + text) == ReadLines(map[], all[..|all| - 1])
    ensures Rest(file + text) == all[|all| - 1] && Rest(Rest(file) + text) == more[|more| - 1]
  {
  }

  lemma {:induction false} CompletesLine(rest: string, line: string)
    ensures Completes(rest, line + [NEWLINE]) == Split(rest + line, NEWLINE) && Rest(rest + (line + [NEWLINE])) == ""
  {
    assert rest + (line + [NEWLINE]) == (rest + line) + [NEWLINE] + "";
    SplitAppend(rest + line, NEWLINE, "");
    SplitPlain("", NEWLINE);
    var p := Split(rest + line, NEWLINE);
    assert (p + [""])[..|p|] == p;
  }

  lemma {:induction false} BoundaryRest(file: string)
    ensures AtBoundary(file) <==> Rest(file) == ""
  {
    if file == "" {
      SplitPlain("", NEWLINE);
    } else {
      var n := |file| - 1;
      assert file == file[..n] + [file[n]];
      SplitExtends(file[..n], NEWLINE, [file[n]]);
      var p := Split(file[..n], NEWLINE);
      if file[n] == NEWLINE {
        CompletesLine(p[|p| - 1], "");
        assert p[|p| - 1] + ("" + [NEWLINE]) == p[|p| - 1] + [file[n]];
      } else {
        SplitPlain(p[|p| - 1] + [file[n]], NEWLINE);
      }
    }
  }

  lemma {:induction false} BoundaryLoad(file: string)
    requires AtBoundary(file)
    ensures Settled(file) == Load(file)
  {
    BoundaryRest(file);
    LoadIs(file);
    ReadOne(Settled(file), "");
  }

  // ------------------------------------------------- exactly when it survives

  lemma {:induction false} SplitWithin(s: string, c: char, k: nat, d: char)
    requires k < |Split(s, c)| && d in Split(s, c)[k]
    ensures d in s
    decreases |s|
  {
    var i := First(s, c);
    if i < |s| && k > 0 { SplitWithin(s[i + 1..], c, k - 1, d); }
  }

  ghost predicate PlainValues(used: Used) { forall j :: j in used ==> Plain(used[j]) }

  lemma {:induction false} ReadLinePlain(used: Used, line: string)
    requires PlainValues(used) && NEWLINE !in line
    ensures PlainValues(ReadLine(used, line))
  {
    var p := Split(line, TAB);
    if |p| >= 2 {
      assert NEWLINE !in p[1] by { if NEWLINE in p[1] { SplitWithin(line, TAB, 1, NEWLINE); } }
      assert TAB !in p[1];
    }
  }

  lemma {:induction false} ReadLinesPlain(used: Used, lines: seq<string>)
    requires PlainValues(used) && forall i :: 0 <= i < |lines| ==> NEWLINE !in lines[i]
    ensures PlainValues(ReadLines(used, lines))
  {
    if lines != [] {
      ReadLinesPlain(used, lines[..|lines| - 1]);
      ReadLinePlain(ReadLines(used, lines[..|lines| - 1]), lines[|lines| - 1]);
    }
  }

  lemma {:induction false} SplitPrefixed(a: string, c: char, b: string)
    requires c !in a
    ensures Split(a + b, c) == [a + Split(b, c)[0]] + Split(b, c)[1..]
  {
    if c !in b {
      SplitPlain(b, c);
      SplitPlain(a + b, c);
    } else {
      var head, tail := CutAt(b, c);
      SplitHead(head, c, tail);
      assert a + b == (a + head) + [c] + tail;
      SplitHead(a + head, c, tail);
    }
  }

  /** The lines that newlines inside the later fields of a record make of its tail. */
  function ExtraLines(e: Entry): seq<string> { Split(Tail(e), NEWLINE)[1..] }

  /** Whatever is appended as a whole line at a boundary is read line by line. */
  lemma {:induction false} LoadText(file: string, text: string)
    requires AtBoundary(file)
    ensures Load(file + text + [NEWLINE]) == ReadLines(Load(file), Split(text, NEWLINE))
  {
    assert file + text + [NEWLINE] == file + (text + [NEWLINE]);
    AppendText(file, text + [NEWLINE]);
    BoundaryRest(file);
    CompletesLine("", text);
    assert "" + text == text;
    BoundaryLoad(file);
    BoundaryLoad(file + (text + [NEWLINE]));
  }

  lemma {:induction false} ReadFirst(used: Used, first: string, others: seq<string>)
    ensures ReadLines(used, [first] + others) == ReadLines(ReadLine(used, first), others)
  {
    ReadAppend(used, [first], others);
    ReadOne(used, first);
  }

  /** A record reads as its ticket first, and then as whatever its broken tail says. */
  lemma {:induction false} RecordReads(file: string, e: Entry)
    requires AtBoundary(file) && Plain(e.jti) && Plain(e.cid)
    ensures Load(file + Line(e) + [NEWLINE]) == ReadLines(Load(file)[e.jti := e.cid], ExtraLines(e))
  {
    var head, t := e.jti + [TAB] + e.cid + [TAB], Split(Tail(e), NEWLINE);
    LoadText(file, Line(e));
    SplitPrefixed(head, NEWLINE, Tail(e));
    LineFields(e.jti, e.cid, t[0]);
    ReadFirst(Load(file), head + t[0], t[1..]);
  }

  /** A restart reads back exactly the record, and nothing else, if and only if the CID has
      neither tab nor newline and the lines of a broken tail say nothing new. */
  lemma {:induction false} RecordSurvivesIff(file: string, e: Entry)
    requires AtBoundary(file) && Plain(e.jti)
    ensures var known := Load(file)[e.jti := e.cid];
      Load(file + Line(e) + [NEWLINE]) == known <==> Plain(e.cid) && Agrees(known, ExtraLines(e))
  {
    var known, text := Load(file)[e.jti := e.cid], file + Line(e) + [NEWLINE];
    if Plain(e.cid) {
      RecordReads(file, e);
      ReadsNothingNew(known, ExtraLines(e));
    } else {
      ReadLinesPlain(map[], Split(text, NEWLINE));
      assert e.jti in known && !Plain(known[e.jti]);
    }
  }

  lemma {:induction false} BrokenRef(e: Entry, before: string, after: string)
    requires e.ref == before + [NEWLINE] + after && Unbroken(e.subject) && Unbroken(e.owner) && Unbroken(e.repo)
    requires Plain(before) && Plain(after)
    ensures ExtraLines(e) == [after + [TAB] + Decimal(e.size)]
  {
    DecimalUnbroken(e.expires);
    DecimalUnbroken(e.size);
    var head := Decimal(e.expires) + [TAB] + e.subject + [TAB] + e.owner + [TAB] + e.repo + [TAB] + before;
    var last := after + [TAB] + Decimal(e.size);
    assert Tail(e) == head + [NEWLINE] + last;
    SplitHead(head, NEWLINE, last);
    SplitPlain(last, NEWLINE);
  }

  /** A newline in the ref name makes a restart know a ticket that was never recorded. */
  lemma {:induction false} ForgedTicket(file: string, e: Entry, before: string, ticket: string)
    requires AtBoundary(file) && Plain(e.jti) && Plain(e.cid) && Unbroken(e.subject) && Unbroken(e.owner)
    requires Unbroken(e.repo)
    requires e.ref == before + [NEWLINE] + ticket && Plain(before) && Plain(ticket) && ticket != e.jti
    requires ticket !in Load(file)
    ensures var used := Load(file + Line(e) + [NEWLINE]); ticket in used && used[ticket] == Decimal(e.size)
  {
    BrokenRef(e, before, ticket);
    RecordReads(file, e);
    var line := ticket + [TAB] + Decimal(e.size);
    ReadOne(Load(file)[e.jti := e.cid], line);
    DecimalUnbroken(e.size);
    SplitHead(ticket, TAB, Decimal(e.size));
    SplitPlain(Decimal(e.size), TAB);
  }

  // ------------------------------------------------------------ torn writes

  ghost predicate Knows(used: Used, e: Entry) { e.jti in used && used[e.jti] == e.cid }

  /** What a line must begin with to be read as the record `e`. */
  function KeyText(e: Entry): string { e.jti + [TAB] + e.cid }

  /** The record `e`, written after the unfinished line `torn`, still reads as itself. */
  predicate Readable(torn: string, e: Entry) {
    torn == "" || torn + e.jti == KeyText(e) || KeyText(e) + [TAB] <= torn
  }

  lemma {:induction false} TwoFields(a: string, b: string)
    requires TAB !in a && TAB !in b
    ensures Split(a + [TAB] + b, TAB) == [a, b]
  {
    SplitHead(a, TAB, b);
    SplitPlain(b, TAB);
  }

  lemma {:induction false} KeyPrefix(torn: string, e: Entry)
    requires Plain(e.jti) && Plain(e.cid) && KeyText(e) + [TAB] <= torn
    ensures var p := Split(torn, TAB); |p| >= 3 && p[0] == e.jti && p[1] == e.cid
  {
    var rest := torn[|KeyText(e)| + 1..];
    assert torn == e.jti + [TAB] + (e.cid + [TAB] + rest);
    SplitHead(e.jti, TAB, e.cid + [TAB] + rest);
    SplitHead(e.cid, TAB, rest);
  }

  /** The unfinished line has no tab, one, or more. */
  lemma {:induction false} ReadsUntabbed(torn: string, e: Entry)
    requires Plain(e.jti) && Plain(e.cid) && TAB !in torn
    ensures var p := Split(torn + Line(e), TAB); |p| >= 2 && p[0] == torn + e.jti && p[1] == e.cid
    ensures Readable(torn, e) <==> torn == ""
  {
    assert torn + Line(e) == (torn + e.jti) + [TAB] + e.cid + [TAB] + Tail(e);
    LineFields(torn + e.jti, e.cid, Tail(e));
    TwoFields(e.jti, e.cid);
    SplitPlain(torn + e.jti, TAB);
    SplitPlain(torn, TAB);
    if KeyText(e) + [TAB] <= torn { KeyPrefix(torn, e); }
  }

  lemma {:induction false} OneTabText(a: string, b: string, jti: string, tail: string)
    ensures (a + [TAB] + b) + (jti + [TAB] + tail) == a + [TAB] + (b + jti) + [TAB] + tail
  {
  }

  lemma {:induction false} ReadsOneTab(torn: string, a: string, b: string, e: Entry)
    requires Plain(e.jti) && Plain(e.cid) && torn == a + [TAB] + b && TAB !in a && TAB !in b
    ensures var p := Split(torn + Line(e), TAB); |p| >= 2 && p[0] == a && p[1] == b + e.jti
    ensures Readable(torn, e) <==> a == e.jti && b + e.jti == e.cid
  {
    OneTabText(a, b, e.jti, e.cid + [TAB] + Tail(e));
    assert Line(e) == e.jti + [TAB] + (e.cid + [TAB] + Tail(e));
    LineFields(a, b + e.jti, e.cid + [TAB] + Tail(e));
    TextExtends(a, TAB, b, e.jti);
    TwoFields(a, b + e.jti);
    TwoFields(e.jti, e.cid);
    TwoFields(a, b);
    if KeyText(e) + [TAB] <= torn { KeyPrefix(torn, e); }
  }

  lemma {:induction false} MoreText(a: string, b: string, c: string, more: string)
    ensures (a + [TAB] + b + [TAB] + c) + more == a + [TAB] + b + [TAB] + (c + more)
  {
  }

  lemma {:induction false} ReadsMoreTabs(torn: string, a: string, b: string, c: string, e: Entry)
    requires Plain(e.jti) && Plain(e.cid) && torn == a + [TAB] + b + [TAB] + c && TAB !in a && TAB !in b
    ensures var p := Split(torn + Line(e), TAB); |p| >= 2 && p[0] == a && p[1] == b
  {
    MoreText(a, b, c, Line(e));
    LineFields(a, b, c + Line(e));
  }

  lemma {:induction false} ReadableMoreTabs(torn: string, a: string, b: string, c: string, e: Entry)
    requires Plain(e.jti) && Plain(e.cid) && torn == a + [TAB] + b + [TAB] + c && TAB !in a && TAB !in b
    ensures Readable(torn, e) <==> a == e.jti && b == e.cid
  {
    LineFields(a, b, c);
    MoreText(a, b, c, e.jti);
    ThreeFields(a, b, c + e.jti);
    TwoFields(e.jti, e.cid);
    if KeyText(e) + [TAB] <= torn { KeyPrefix(torn, e); }
  }

  lemma {:induction false} ThreeFields(a: string, b: string, c: string)
    requires TAB !in a && TAB !in b
    ensures |Split(a + [TAB] + b + [TAB] + c, TAB)| >= 3
  {
    assert a + [TAB] + b + [TAB] + c == a + [TAB] + (b + [TAB] + c);
    SplitHead(a, TAB, b + [TAB] + c);
    SplitHead(b, TAB, c);
  }

  /** A record after an unfinished line reads as itself exactly when that line is readable. */
  lemma {:induction false} TornReads(torn: string, e: Entry)
    requires Plain(e.jti) && Plain(e.cid)
    ensures var p := Split(torn + Line(e), TAB); |p| >= 2 && (p[0] == e.jti && p[1] == e.cid <==> Readable(torn, e))
  {
    if TAB !in torn {
      ReadsUntabbed(torn, e);
      assert torn + e.jti == e.jti ==> |torn| == 0;
    } else {
      var a, rest := CutAt(torn, TAB);
      if TAB !in rest {
        ReadsOneTab(torn, a, rest, e);
      } else {
        var b, c := CutAt(rest, TAB);
        assert torn == a + [TAB] + b + [TAB] + c;
        ReadsMoreTabs(torn, a, b, c, e);
        ReadableMoreTabs(torn, a, b, c, e);
      }
    }
  }

  lemma {:induction false} LoadTorn(file: string, torn: string, e: Entry)
    requires AtBoundary(file) && Unbroken(torn) && Clean(e)
    ensures Load(file + torn + Line(e) + [NEWLINE]) == ReadLine(Load(file), torn + Line(e))
  {
    TailUnbroken(e);
    assert file + torn + Line(e) == file + (torn + Line(e));
    LoadNext(file, torn + Line(e));
  }

  /** After a torn write, the next record is known to a restart if and only if the torn line is
      empty, already holds the record's ticket and CID, or is completed to them by the ticket. */
  lemma {:induction false} TornRecordIff(file: string, torn: string, e: Entry)
    requires AtBoundary(file) && Unbroken(torn) && Clean(e) && !Knows(Load(file), e)
    ensures Knows(Load(file + torn + Line(e) + [NEWLINE]), e) <==> Readable(torn, e)
  {
    LoadTorn(file, torn, e);
    TornReads(torn, e);
  }

  lemma {:induction false} TornPrefix(e: Entry, torn: string)
    requires Clean(e) && torn <= Line(e)
    ensures |torn| <= |e.jti| ==> TAB !in torn
    ensures |e.jti| < |torn| < |KeyText(e)| ==> torn == e.jti + [TAB] + e.cid[..|torn| - |e.jti| - 1]
    ensures |KeyText(e)| == |torn| ==> torn == KeyText(e)
    ensures |KeyText(e)| < |torn| ==> KeyText(e) + [TAB] <= torn
  {
    assert Line(e) == KeyText(e) + [TAB] + Tail(e);
    assert |torn| <= |e.jti| ==> torn == e.jti[..|torn|];
  }

  /** What a restart makes of the torn write itself: nothing as long as it ends within the
      ticket, the ticket with a wrong CID within the CID, and the record beyond. */
  lemma {:induction false} TornRestart(file: string, torn: string, e: Entry)
    requires AtBoundary(file) && Clean(e) && torn <= Line(e) && e.jti !in Load(file)
    ensures var used := Load(file + torn);
      && (|torn| <= |e.jti| <==> e.jti !in used)
      && (|e.jti| < |torn| < |KeyText(e)| <==> e.jti in used && used[e.jti] != e.cid)
      && (|KeyText(e)| <= |torn| <==> Knows(used, e))
  {
    TailUnbroken(e);
    assert Unbroken(Line(e));
    AppendText(file, torn);
    BoundaryRest(file);
    BoundaryLoad(file);
    assert "" + torn == torn;
    SplitPlain(torn, NEWLINE);
    LoadIs(file + torn);
    TornPrefix(e, torn);
    if |torn| <= |e.jti| {
      SplitPlain(torn, TAB);
    } else if |torn| < |KeyText(e)| {
      TwoFields(e.jti, e.cid[..|torn| - |e.jti| - 1]);
    } else if |torn| == |KeyText(e)| {
      TwoFields(e.jti, e.cid);
    } else {
      KeyPrefix(torn, e);
    }
  }

  // ------------------------------------------------------------ the loop

  /** `loadState`. */
  method LoadState(file: string) returns (used: Used)
    ensures used == Load(file)
  {
    used := map[];
    var lines := Split(file, NEWLINE);
    for i := 0 to |lines|
      invariant used == ReadLines(map[], lines[..i])
    {
      assert lines[..i + 1][..i] == lines[..i];
      var p := Split(lines[i], TAB);
      if |p| >= 2 { used := used[p[0] := p[1]]; }
    }
    assert lines[..|lines|] == lines;
  }
}
