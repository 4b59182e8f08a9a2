// verdict.go, residue.go and the tree walks of marker.go: the review's verdict,
// the markers it leaves and the residue gate that finds them again.
module ClosedLoop {
  import opened Wrappers
  import opened Sequences
  import opened Text
  import opened Markers

  // -------------------------------------------------------------- verdict

  datatype Rule = Rule(category: string, blockEligible: bool)

  datatype Verdict = VerdictPass | VerdictBlock | VerdictOther(text: string)

  datatype Review = Review(gateVersion: string, verdict: Verdict, findings: seq<Finding>)

  const SEVERITIES: set<string> := {"BLOCKER", "MAJOR", "MINOR"}
  const CONFIDENCES: set<string> := {"high", "medium", "low"}

  // The first rule of the category decides; an unknown category never blocks.
  function BlockEligible(rules: seq<Rule>, category: string): bool {
    if rules == [] then false
    else if rules[0].category == category then rules[0].blockEligible
    else BlockEligible(rules[1..], category)
  }

  predicate Blocks(f: Finding, rules: seq<Rule>) {
    f.severity == "BLOCKER" && f.confidence == "high" && BlockEligible(rules, f.category)
  }

  // A finding blocks when it is a high-confidence blocker and the first rule of
  // its category says that category may block.
  lemma BlocksIff(f: Finding, rules: seq<Rule>)
    ensures Blocks(f, rules) <==>
      && f.severity == "BLOCKER" && f.confidence == "high"
      && exists i :: 0 <= i < |rules| && rules[i].category == f.category && rules[i].blockEligible
           && forall j :: 0 <= j < i ==> rules[j].category != f.category
  {
    EligibleIff(rules, f.category);
  }

  lemma {:induction false} EligibleIff(rules: seq<Rule>, category: string)
    ensures BlockEligible(rules, category) <==>
      exists i :: 0 <= i < |rules| && rules[i].category == category && rules[i].blockEligible
        && forall j :: 0 <= j < i ==> rules[j].category != category
  {
    if rules != [] {
      EligibleIff(rules[1..], category);
      if i :| 0 <= i < |rules[1..]| && rules[1..][i].category == category && rules[1..][i].blockEligible
              && forall j :: 0 <= j < i ==> rules[1..][j].category != category {
        if rules[0].category != category {
          assert rules[i + 1].blockEligible;
          assert forall j :: 0 < j < i + 1 ==> rules[j] == rules[1..][j - 1];
        }
      }
      if i :| 0 <= i < |rules| && rules[i].category == category && rules[i].blockEligible
              && forall j :: 0 <= j < i ==> rules[j].category != category {
        if i > 0 {
          assert rules[1..][i - 1] == rules[i];
          assert forall j :: 0 <= j < i - 1 ==> rules[1..][j] == rules[j + 1];
        }
      }
    }
  }

  function BlocksUnder(rules: seq<Rule>): Finding -> bool {
    (f: Finding) => Blocks(f, rules)
  }

  method ComputeVerdict(findings: seq<Finding>, rules: seq<Rule>) returns (v: Verdict)
    ensures v == VerdictBlock <==> exists f :: f in findings && Blocks(f, rules)
    ensures v == VerdictBlock || v == VerdictPass
  {
    for i := 0 to |findings|
      invariant forall j :: 0 <= j < i ==> !Blocks(findings[j], rules)
    {
      if Blocks(findings[i], rules) {
        return VerdictBlock;
      }
    }
    return VerdictPass;
  }

  method Blocking(findings: seq<Finding>, rules: seq<Rule>) returns (out: seq<Finding>)
    ensures out == Filter(findings, BlocksUnder(rules))
  {
    out := [];
    for i := 0 to |findings|
      invariant out == Filter(findings[..i], BlocksUnder(rules))
    {
      TakeStep(findings, i);
      FilterAppend(findings[..i], [findings[i]], BlocksUnder(rules));
      assert [findings[i]][1..] == [];
      if Blocks(findings[i], rules) {
        out := out + [findings[i]];
      }
    }
    TakeAll(findings);
  }

  predicate FieldsOk(f: Finding) {
    && f.id != "" && f.file != "" && f.line >= 1 && f.category != ""
    && f.severity in {"BLOCKER", "MAJOR", "MINOR"} && f.confidence in {"high", "medium", "low"}
    && f.rationale != "" && f.suggestedFix != ""
  }

  ghost predicate DistinctIds(fs: seq<Finding>) {
    forall i, j :: 0 <= i < j < |fs| ==> fs[i].id != fs[j].id
  }

  ghost predicate IsValid(r: Review) {
    && r.gateVersion != "" && !r.verdict.VerdictOther?
    && (forall f :: f in r.findings ==> FieldsOk(f))
    && DistinctIds(r.findings)
  }

  // Counts the problems; the review is accepted exactly when there are none.
  method Validate(r: Review) returns (problems: nat)
    ensures problems == 0 <==> IsValid(r)
  {
    problems := 0;
    if r.gateVersion == "" {
      problems := problems + 1;
    }
    if r.verdict.VerdictOther? {
      problems := problems + 1;
    }
    var headerOk := problems == 0;
    var seen: set<string> := {};
    for i := 0 to |r.findings|
      invariant seen == set f | f in r.findings[..i] :: f.id
      invariant problems == 0 <==>
        headerOk && (forall f :: f in r.findings[..i] ==> FieldsOk(f)) && DistinctIds(r.findings[..i])
    {
      var f := r.findings[i];
      TakeStep(r.findings, i);
      IdSeen(r.findings[..i], f);
      ghost var was := problems;
      if f.id == "" {
        problems := problems + 1;
      } else if f.id in seen {
        problems := problems + 1;
      }
      seen := seen + {f.id};
      if f.file == "" {
        problems := problems + 1;
      }
      if f.line < 1 {
        problems := problems + 1;
      }
      if f.category == "" {
        problems := problems + 1;
      }
      if f.severity !in SEVERITIES {
        problems := problems + 1;
      }
      if f.confidence !in CONFIDENCES {
        problems := problems + 1;
      }
      if f.rationale == "" {
        problems := problems + 1;
      }
      if f.suggestedFix == "" {
        problems := problems + 1;
      }
      ValidSoFar(r.findings[..i], f);
      assert problems == 0 <==> was == 0 && FieldsOk(f) && f.id !in (set g | g in r.findings[..i] :: g.id);
    }
    TakeAll(r.findings);
  }

  lemma IdSeen(fs: seq<Finding>, f: Finding)
    ensures (set g | g in fs + [f] :: g.id) == (set g | g in fs :: g.id) + {f.id}
  {
    assert forall g :: g in fs + [f] <==> g in fs || g == f;
  }

  lemma ValidSoFar(fs: seq<Finding>, f: Finding)
    ensures (forall g :: g in fs + [f] ==> FieldsOk(g)) <==> (forall g :: g in fs ==> FieldsOk(g)) && FieldsOk(f)
    ensures DistinctIds(fs + [f]) <==> DistinctIds(fs) && f.id !in (set g | g in fs :: g.id)
  {
    var all := fs + [f];
    assert all[|fs|] == f && f in all;
    assert forall g :: g in all <==> g in fs || g == f;
    if DistinctIds(all) {
      forall i, j | 0 <= i < j < |fs| ensures fs[i].id != fs[j].id {
        assert all[i] == fs[i] && all[j] == fs[j];
      }
      forall g | g in fs ensures g.id != f.id {
        var i :| 0 <= i < |fs| && fs[i] == g;
        assert all[i] == g;
      }
    }
    if DistinctIds(fs) && f.id !in (set g | g in fs :: g.id) {
      forall i, j | 0 <= i < j < |all| ensures all[i].id != all[j].id {
        assert all[i] == fs[i];
        if j < |fs| {
          assert all[j] == fs[j];
        } else {
          assert fs[i] in fs;
        }
      }
    }
  }

  // -------------------------------------------------------- which files count

  const SKIPPED_DIRS: set<string> := {".git", "node_modules", ".swarm-worktrees"}
  const SOURCE_EXTS: set<string> := {".go", ".ts", ".tsx", ".js", ".jsx", ".sql", ".css"}
  const CRAFT_TOOL_DIR := "cli/craft"

  predicate IsSource(path: string) { Ext(path) in SOURCE_EXTS }

  predicate UnderPrefix(path: string, prefix: string) {
    path == prefix || prefix + "/" <= path
  }

  // The walk reaches a file unless a directory above it is skipped.
  predicate Scanned(path: string) {
    var parts := Split(path, '/');
    && IsSource(path)
    && (forall d :: d in parts[..|parts|-1] ==> d !in SKIPPED_DIRS)
    && !UnderPrefix(path, CRAFT_TOOL_DIR)
  }

  // The same, by name: a source file, in no skipped directory, outside the
  // tool's own.
  ghost predicate InTheGate(path: string) {
    && (EndsWith(path, ".go") || EndsWith(path, ".ts") || EndsWith(path, ".tsx") || EndsWith(path, ".js")
        || EndsWith(path, ".jsx") || EndsWith(path, ".sql") || EndsWith(path, ".css"))
    && !InDirectory(path, ".git") && !InDirectory(path, "node_modules") && !InDirectory(path, ".swarm-worktrees")
    && path != "cli/craft" && !("cli/craft/" <= path)
  }

  // Some directory above the file has this name.
  ghost predicate InDirectory(path: string, name: string) {
    exists a, b :: path == a + (name + ("/" + b)) && (a == "" || a[|a| - 1] == '/')
  }

  lemma SourceIff(path: string)
    ensures IsSource(path) <==>
      || EndsWith(path, ".go") || EndsWith(path, ".ts") || EndsWith(path, ".tsx") || EndsWith(path, ".js")
      || EndsWith(path, ".jsx") || EndsWith(path, ".sql") || EndsWith(path, ".css")
  {
    ExtIff(path, ".go");
    ExtIff(path, ".ts");
    ExtIff(path, ".tsx");
    ExtIff(path, ".js");
    ExtIff(path, ".jsx");
    ExtIff(path, ".sql");
    ExtIff(path, ".css");
  }

  lemma DirectoryIff(path: string, name: string)
    requires '/' !in name
    ensures var parts := Split(path, '/'); name in parts[..|parts| - 1] <==> InDirectory(path, name)
  {
    PartIff(path, name, '/');
    if IsPart(path, name, '/') {
      var a, b :| path == a + (name + (['/'] + b)) && (a == "" || a[|a| - 1] == '/');
      assert path == a + (name + ("/" + b));
    }
    if InDirectory(path, name) {
      var a, b :| path == a + (name + ("/" + b)) && (a == "" || a[|a| - 1] == '/');
      assert path == a + (name + (['/'] + b));
    }
  }

  lemma SkippedIff(path: string)
    ensures var parts := Split(path, '/');
      (forall d :: d in parts[..|parts| - 1] ==> d !in SKIPPED_DIRS) <==>
        !InDirectory(path, ".git") && !InDirectory(path, "node_modules") && !InDirectory(path, ".swarm-worktrees")
  {
    DirectoryIff(path, ".git");
    DirectoryIff(path, "node_modules");
    DirectoryIff(path, ".swarm-worktrees");
  }

  // The walk with its sets and splits reads exactly these files.
  lemma ScannedIff(path: string)
    ensures Scanned(path) <==> InTheGate(path)
  {
    SourceIff(path);
    SkippedIff(path);
    assert CRAFT_TOOL_DIR + "/" == "cli/craft/";
  }

  // ------------------------------------------------------------ collecting

  datatype Found = Found(file: string, line: nat, marker: ParsedMarker)

  function LineScanner(file: string): (string, nat) -> seq<Found> {
    (line: string, at: nat) =>
      match ParseMarker(line)
      case Some(m) => [Found(file, at, m)]
      case None => []
  }

  function Scan(file: string, lines: seq<string>, at: nat): seq<Found> {
    FlatMap(lines, at, LineScanner(file))
  }

  function MarkersIn(file: string, content: string): seq<Found> {
    Scan(file, Split(content, '\n'), 1)
  }

  function FileScanner(files: map<string, string>): (string, nat) -> seq<Found> {
    (path: string, at: nat) => if Scanned(path) && path in files then MarkersIn(path, files[path]) else []
  }

  function ResidueOf(files: map<string, string>, paths: seq<string>): seq<Found> {
    FlatMap(paths, 0, FileScanner(files))
  }

  lemma ResidueMember(files: map<string, string>, paths: seq<string>, m: Found)
    ensures m in ResidueOf(files, paths) <==>
      exists p :: p in paths && Scanned(p) && p in files && m in MarkersIn(p, files[p])
  {
    FlatMapMember(paths, 0, FileScanner(files), m);
    if p :| p in paths && m in FileScanner(files)(p, 0) {
      assert Scanned(p) && p in files && m in MarkersIn(p, files[p]);
    }
    if p :| p in paths && Scanned(p) && p in files && m in MarkersIn(p, files[p]) {
      assert m in FileScanner(files)(p, 0);
    }
  }

  // ------------------------------------------- a marked file, read back

  predicate Unmarked(lines: seq<string>) {
    forall l :: l in lines ==> ParseMarker(l).None?
  }

  function Ids(fs: seq<Finding>): multiset<string> {
    if fs == [] then multiset{} else multiset{fs[|fs|-1].id} + Ids(fs[..|fs|-1])
  }

  function FoundIds(ms: seq<Found>): multiset<string> {
    if ms == [] then multiset{} else multiset{ms[0].marker.id} + FoundIds(ms[1..])
  }

  lemma {:induction false} FoundIdsAppend(a: seq<Found>, b: seq<Found>)
    ensures FoundIds(a + b) == FoundIds(a) + FoundIds(b)
    decreases |a|
  {
    if a == [] {
      assert a + b == b;
    } else {
      assert (a + b)[1..] == a[1..] + b;
      FoundIdsAppend(a[1..], b);
    }
  }

  // The ids of the findings for slot k, and for slot k or later.
  function IdsAt(fs: seq<Finding>, k: int): multiset<string> {
    if fs == [] then multiset{}
    else (if fs[|fs|-1].line - 1 == k then multiset{fs[|fs|-1].id} else multiset{}) + IdsAt(fs[..|fs|-1], k)
  }

  function IdsFrom(fs: seq<Finding>, k: int): multiset<string> {
    if fs == [] then multiset{}
    else (if fs[|fs|-1].line - 1 >= k then multiset{fs[|fs|-1].id} else multiset{}) + IdsFrom(fs[..|fs|-1], k)
  }

  lemma {:induction false} IdsFromStep(fs: seq<Finding>, k: int)
    ensures IdsFrom(fs, k) == IdsAt(fs, k) + IdsFrom(fs, k + 1)
  {
    if fs != [] {
      IdsFromStep(fs[..|fs|-1], k);
    }
  }

  lemma {:induction false} IdsFromNone(fs: seq<Finding>, k: int)
    requires forall f :: f in fs ==> f.line - 1 < k
    ensures IdsFrom(fs, k) == multiset{}
  {
    if fs != [] {
      assert fs[|fs|-1] in fs;
      IdsFromNone(fs[..|fs|-1], k);
    }
  }

  lemma {:induction false} IdsFromAll(fs: seq<Finding>, k: int)
    requires forall f :: f in fs ==> f.line - 1 >= k
    ensures IdsFrom(fs, k) == Ids(fs)
  {
    if fs != [] {
      assert fs[|fs|-1] in fs;
      IdsFromAll(fs[..|fs|-1], k);
    }
  }

  lemma IdsSnoc(fs: seq<Finding>, f: Finding)
    ensures Ids(fs + [f]) == Ids(fs) + multiset{f.id}
  {
    assert (fs + [f])[..|fs|] == fs;
  }

  lemma {:induction false} BlockReadsBack(file: string, lines: seq<string>, fs: seq<Finding>, k: nat, at: nat)
    requires forall f :: f in fs ==> Printable(f)
    ensures ReadsAs(Scan(file, Block(lines, fs, k), at), file, IdsAt(fs, k))
    decreases |fs|
  {
    if fs != [] {
      var f, before := fs[|fs|-1], fs[..|fs|-1];
      assert f in fs;
      if f.line - 1 == k {
        var below := Block(lines, before, k);
        BlockReadsBack(file, lines, before, k, at + 1);
        ParsePrinted(f, LeadingIndent(lines, k));
        MarkerLineFirst(file, LeadingIndent(lines, k) + Marker(f), f.id, below, at, IdsAt(before, k));
      } else {
        BlockReadsBack(file, lines, before, k, at);
        assert [] + Block(lines, before, k) == Block(lines, before, k);
      }
    }
  }

  // Only CRAFT-FIX markers of this file, with these ids.
  ghost predicate ReadsAs(ms: seq<Found>, file: string, ids: multiset<string>) {
    && FoundIds(ms) == ids
    && forall m :: m in ms ==> m.file == file && m.marker.kind == Fix
  }

  lemma MarkerLineFirst(file: string, line: string, id: string, below: seq<string>, at: nat, ids: multiset<string>)
    requires ParseMarker(line) == Some(ParsedMarker(Fix, id, ""))
    requires ReadsAs(Scan(file, below, at + 1), file, ids)
    ensures ReadsAs(Scan(file, [line] + below, at), file, multiset{id} + ids)
  {
    assert ([line] + below)[1..] == below;
    var ms := Scan(file, below, at + 1);
    var all := [Found(file, at, ParsedMarker(Fix, id, ""))] + ms;
    assert all[1..] == ms && all[0].marker.id == id;
    assert Scan(file, [line] + below, at) == all;
  }

  lemma ReadsAppend(a: seq<Found>, b: seq<Found>, file: string, idsA: multiset<string>, idsB: multiset<string>)
    requires ReadsAs(a, file, idsA) && ReadsAs(b, file, idsB)
    ensures ReadsAs(a + b, file, idsA + idsB)
  {
    FoundIdsAppend(a, b);
  }

  lemma {:induction false} ScanUnmarked(file: string, lines: seq<string>, at: nat)
    requires Unmarked(lines)
    ensures Scan(file, lines, at) == []
    decreases |lines|
  {
    if lines != [] {
      ScanUnmarked(file, lines[1..], at + 1);
    }
  }

  // Scanning a marked file finds exactly the placed findings' ids.
  lemma {:induction false} PlacedReadsBack(file: string, lines: seq<string>, fs: seq<Finding>, k: nat, at: nat)
    requires k <= |lines| && Unmarked(lines)
    requires forall f :: f in fs ==> Printable(f) && f.line - 1 <= |lines|
    ensures ReadsAs(Scan(file, Placed(lines, fs, k), at), file, IdsFrom(fs, k))
    decreases |lines| - k
  {
    var block := Block(lines, fs, k);
    BlockReadsBack(file, lines, fs, k, at);
    IdsFromStep(fs, k);
    if k == |lines| {
      IdsFromNone(fs, k + 1);
    } else {
      var rest := Placed(lines, fs, k + 1);
      PlacedReadsBack(file, lines, fs, k + 1, at + |block| + 1);
      FlatMapAppend(block + [lines[k]], rest, at, LineScanner(file));
      FlatMapAppend(block, [lines[k]], at, LineScanner(file));
      ScanUnmarked(file, [lines[k]], at + |block|);
      var ms, more := Scan(file, block, at), Scan(file, rest, at + |block| + 1);
      assert ms + [] == ms;
      ReadsAppend(ms, more, file, IdsAt(fs, k), IdsFrom(fs, k + 1));
    }
  }

  predicate IsPlain(line: string) { ParseMarker(line).None? }

  lemma {:induction false} BlockAllMarkers(lines: seq<string>, fs: seq<Finding>, k: nat)
    requires forall f :: f in fs ==> Printable(f)
    ensures forall l :: l in Block(lines, fs, k) ==> !IsPlain(l)
    decreases |fs|
  {
    if fs != [] {
      assert fs[|fs|-1] in fs;
      BlockAllMarkers(lines, fs[..|fs|-1], k);
      ParsePrinted(fs[|fs|-1], LeadingIndent(lines, k));
    }
  }

  lemma {:induction false} KeepingPlainLines(lines: seq<string>, fs: seq<Finding>, k: nat, plain: string -> bool)
    requires k <= |lines|
    requires forall l :: l in lines ==> plain(l)
    requires forall j: nat, m :: m in Block(lines, fs, j) ==> !plain(m)
    ensures Filter(Placed(lines, fs, k), plain) == lines[k..]
    decreases |lines| - k
  {
    var block := Block(lines, fs, k);
    FilterNone(block, plain);
    if k < |lines| {
      var l, rest := lines[k], Placed(lines, fs, k + 1);
      KeepingPlainLines(lines, fs, k + 1, plain);
      FilterAppend(block + [l], rest, plain);
      FilterAppend(block, [l], plain);
      FilterAll([l], plain);
      assert [] + [l] == [l];
      assert [l] + lines[k+1..] == lines[k..];
    }
  }

  // Deleting the marker lines of an annotated file restores the file.
  lemma DeletingMarkersRestores(lines: seq<string>, fs: seq<Finding>)
    requires Unmarked(lines)
    requires forall f :: f in fs ==> Printable(f)
    ensures Filter(Placed(lines, fs, 0), IsPlain) == lines
  {
    forall j: nat, m | m in Block(lines, fs, j) ensures !IsPlain(m) {
      BlockAllMarkers(lines, fs, j);
    }
    KeepingPlainLines(lines, fs, 0, IsPlain);
  }

  // ------------------------------------------------------- the whole loop

  function FindingsOf(fs: seq<Finding>, file: string): seq<Finding> {
    Filter(fs, (f: Finding) => f.file == file)
  }

  ghost predicate AnnotatedFrom(before: string, after: string, fs: seq<Finding>) {
    exists order ::
      && multiset(order) == multiset(fs)
      && Placed(Split(before, '\n'), order, 0) != []
      && after == Join(Placed(Split(before, '\n'), order, 0), '\n')
  }

  predicate Annotatable(files: map<string, string>, fs: seq<Finding>, path: string) {
    path in files && forall f :: f in FindingsOf(fs, path) ==> InRange(f, Split(files[path], '\n'))
  }

  // A repository tree: file contents by slash-separated path.
  class Tree {
    var files: map<string, string>

    constructor (contents: map<string, string>)
      ensures files == contents
    {
      files := contents;
    }

    method AnnotateFile(path: string, fs: seq<Finding>) returns (ok: bool)
      modifies this
      ensures ok <==> path in old(files) && forall f :: f in fs ==> InRange(f, Split(old(files)[path], '\n'))
      ensures !ok ==> files == old(files)
      ensures ok ==> path in files && files == old(files)[path := files[path]]
      ensures ok ==> AnnotatedFrom(old(files)[path], files[path], fs)
    {
      if path !in files {
        return false;
      }
      var content, order := AnnotateContent(files[path], fs);
      if content.None? {
        return false;
      }
      files := files[path := content.value];
      return true;
    }

    // One file after another, in whatever order the grouping map yields them.
    // Success means every file could be annotated and was; on failure, some
    // file could not be, and no file has been touched that was not its target.
    method Annotate(blocking: seq<Finding>) returns (ok: bool)
      modifies this
      ensures ok <==> forall f :: f in blocking ==> Annotatable(old(files), blocking, f.file)
      ensures files.Keys == old(files).Keys
      ensures forall p :: p in files ==>
        || files[p] == old(files)[p]
        || AnnotatedFrom(old(files)[p], files[p], FindingsOf(blocking, p))
      ensures ok ==> forall p :: p in files ==>
        if FindingsOf(blocking, p) == [] then files[p] == old(files)[p]
        else AnnotatedFrom(old(files)[p], files[p], FindingsOf(blocking, p))
    {
      var todo := set f | f in blocking :: f.file;
      forall p | p !in todo ensures FindingsOf(blocking, p) == [] {
        FilterNone(blocking, (f: Finding) => f.file == p);
      }
      while todo != {}
        invariant todo <= set f | f in blocking :: f.file
        invariant files.Keys == old(files).Keys
        invariant forall p :: p in files && p in todo ==> files[p] == old(files)[p]
        invariant forall f :: f in blocking && f.file !in todo ==> Annotatable(old(files), blocking, f.file)
        invariant forall p :: p in files && p !in todo ==>
          if FindingsOf(blocking, p) == [] then files[p] == old(files)[p]
          else AnnotatedFrom(old(files)[p], files[p], FindingsOf(blocking, p))
        decreases todo
      {
        var path :| path in todo;
        HasFindings(blocking, path);
        var done := AnnotateFile(path, FindingsOf(blocking, path));
        if !done {
          return false;
        }
        todo := todo - {path};
      }
      return true;
    }

    // Collect over the whole tree, minus the tool's own directory.
    method Residue(paths: seq<string>) returns (markers: seq<Found>)
      ensures markers == ResidueOf(files, paths)
    {
      markers := [];
      for i := 0 to |paths|
        invariant markers == ResidueOf(files, paths[..i])
      {
        var path := paths[i];
        FlatMapTake(paths, i, 0, FileScanner(files));
        if path in files && Scanned(path) {
          var found := ScanFile(path, files[path]);
          markers := markers + found;
        }
      }
      TakeAll(paths);
    }
  }

  method ScanFile(path: string, content: string) returns (found: seq<Found>)
    ensures found == MarkersIn(path, content)
  {
    var lines := Split(content, '\n');
    found := [];
    for i := 0 to |lines|
      invariant found == Scan(path, lines[..i], 1)
    {
      FlatMapTake(lines, i, 1, LineScanner(path));
      match ParseMarker(lines[i]) {
        case Some(m) => found := found + [Found(path, i + 1, m)];
        case None =>
      }
    }
    TakeAll(lines);
  }

  lemma HasFindings(blocking: seq<Finding>, path: string)
    requires path in set f | f in blocking :: f.file
    ensures FindingsOf(blocking, path) != []
  {
    var f :| f in blocking && f.file == path;
    FilterMember(blocking, (f: Finding) => f.file == path, f);
  }

  lemma {:induction false} IdsPermuted(a: seq<Finding>, b: seq<Finding>)
    requires multiset(a) == multiset(b)
    ensures Ids(a) == Ids(b)
  {
    if a == [] {
      assert |multiset(b)| == 0;
    } else {
      var f := a[|a|-1];
      assert f in multiset(a);
      assert f in b;
      var i :| 0 <= i < |b| && b[i] == f;
      var b' := b[..i] + b[i+1..];
      assert a == a[..|a|-1] + [f];
      assert b == b[..i] + [f] + b[i+1..];
      assert multiset(a) == multiset(a[..|a|-1]) + multiset{f};
      assert multiset(b) == multiset(b[..i]) + multiset{f} + multiset(b[i+1..]);
      assert multiset(a[..|a|-1]) == multiset(a) - multiset{f};
      assert multiset(b') == multiset(b) - multiset{f};
      IdsPermuted(a[..|a|-1], b');
      IdsRemove(b[..i], f, b[i+1..]);
    }
  }

  lemma {:induction false} IdsRemove(a: seq<Finding>, f: Finding, c: seq<Finding>)
    ensures Ids(a + [f] + c) == Ids(a + c) + multiset{f.id}
    decreases |c|
  {
    if c == [] {
      assert a + [f] + c == a + [f] && a + c == a;
      IdsSnoc(a, f);
    } else {
      var l := c[|c|-1];
      IdsRemove(a, f, c[..|c|-1]);
      assert a + [f] + c == (a + [f] + c[..|c|-1]) + [l];
      assert a + c == (a + c[..|c|-1]) + [l];
      IdsSnoc(a + [f] + c[..|c|-1], l);
      IdsSnoc(a + c[..|c|-1], l);
    }
  }

  lemma {:induction false} PlacedLines(lines: seq<string>, fs: seq<Finding>, k: nat)
    requires k <= |lines|
    requires forall l :: l in lines ==> '\n' !in l
    requires forall f :: f in fs ==> '\n' !in MarkerText(f)
    ensures forall l :: l in Placed(lines, fs, k) ==> '\n' !in l
    decreases |lines| - k
  {
    BlockLines(lines, fs, k);
    if k < |lines| {
      PlacedLines(lines, fs, k + 1);
    }
  }

  lemma {:induction false} BlockLines(lines: seq<string>, fs: seq<Finding>, k: nat)
    requires forall f :: f in fs ==> '\n' !in MarkerText(f)
    ensures forall l :: l in Block(lines, fs, k) ==> '\n' !in l
    decreases |fs|
  {
    if fs != [] {
      var f := fs[|fs|-1];
      assert f in fs;
      BlockLines(lines, fs[..|fs|-1], k);
      var indent := LeadingIndent(lines, k);
      assert '\n' !in indent && '\n' !in CommentDelims(f.file).0 && '\n' !in CommentDelims(f.file).1;
      NoNewline(indent, CommentDelims(f.file).0, MarkerText(f), CommentDelims(f.file).1);
    }
  }

  lemma NoNewline(a: string, b: string, c: string, d: string)
    requires '\n' !in a && '\n' !in b && '\n' !in c && '\n' !in d
    ensures '\n' !in a + (b + c + d)
  {
  }

  // One annotated file read back: its markers carry its findings' ids, each
  // as often as it was found.
  lemma FileReadsBack(path: string, before: string, after: string, fs: seq<Finding>)
    requires Unmarked(Split(before, '\n')) && AnnotatedFrom(before, after, fs)
    requires forall f :: f in fs ==> Printable(f) && InRange(f, Split(before, '\n'))
    ensures FoundIds(MarkersIn(path, after)) == Ids(fs)
    ensures forall m :: m in MarkersIn(path, after) ==> m.file == path && m.marker.kind == Fix
  {
    var lines := Split(before, '\n');
    var order :| multiset(order) == multiset(fs) && Placed(lines, order, 0) != []
      && after == Join(Placed(lines, order, 0), '\n');
    SameMembers(order, fs);
    JoinSplit(before, '\n');
    PlacedLines(lines, order, 0);
    SplitJoin(Placed(lines, order, 0), '\n');
    PlacedReadsBack(path, lines, order, 0, 1);
    IdsFromAll(order, 0);
    IdsPermuted(order, fs);
  }

  ghost predicate CleanTree(files: map<string, string>) {
    forall p :: p in files && InTheGate(p) ==> Unmarked(Split(files[p], '\n'))
  }

  // What a successful Annotate leaves behind.
  ghost predicate IsAnnotated(before: map<string, string>, after: map<string, string>, blocking: seq<Finding>) {
    && after.Keys == before.Keys
    && (forall f :: f in blocking ==> Annotatable(before, blocking, f.file))
    && forall p :: p in after ==>
         if FindingsOf(blocking, p) == [] then after[p] == before[p]
         else AnnotatedFrom(before[p], after[p], FindingsOf(blocking, p))
  }

  lemma {:induction false} IdsMember(fs: seq<Finding>, id: string)
    ensures id in Ids(fs) <==> exists f :: f in fs && f.id == id
  {
    if fs != [] {
      IdsMember(fs[..|fs|-1], id);
      assert fs == fs[..|fs|-1] + [fs[|fs|-1]];
    }
  }

  lemma {:induction false} FoundIdsMember(ms: seq<Found>, id: string)
    ensures id in FoundIds(ms) <==> exists m :: m in ms && m.marker.id == id
  {
    if ms != [] {
      FoundIdsMember(ms[1..], id);
      assert ms == [ms[0]] + ms[1..];
    }
  }

  // On a clean tree, after annotating, one scanned file's markers are its
  // blocking findings, id for id.
  lemma ScannedFileMarkers(before: map<string, string>, after: map<string, string>, blocking: seq<Finding>,
      path: string)
    requires CleanTree(before) && IsAnnotated(before, after, blocking)
    requires forall f :: f in blocking ==> Printable(f)
    requires path in after && InTheGate(path)
    ensures FoundIds(MarkersIn(path, after[path])) == Ids(FindingsOf(blocking, path))
    ensures forall m :: m in MarkersIn(path, after[path]) ==> m.file == path && m.marker.kind == Fix
  {
    var fs := FindingsOf(blocking, path);
    if fs == [] {
      ScanUnmarked(path, Split(after[path], '\n'), 1);
    } else {
      forall f | f in fs ensures Printable(f) && f in blocking && f.file == path {
        FilterMember(blocking, (f: Finding) => f.file == path, f);
      }
      HeadIsIn(fs);
      assert Annotatable(before, blocking, fs[0].file);
      FileReadsBack(path, before[path], after[path], fs);
    }
  }

  // The residue recovers exactly the (file, id) pairs of the blocking findings
  // that lie in scanned files.
  lemma ResidueRecovers(before: map<string, string>, after: map<string, string>, paths: seq<string>,
      blocking: seq<Finding>, file: string, id: string)
    requires CleanTree(before) && IsAnnotated(before, after, blocking)
    requires forall f :: f in blocking ==> Printable(f)
    requires forall p :: p in paths <==> p in after
    ensures (exists m :: m in ResidueOf(after, paths) && m.file == file && m.marker.id == id)
       <==> (exists f :: f in blocking && InTheGate(f.file) && f.file == file && f.id == id)
  {
    forall p ensures Scanned(p) <==> InTheGate(p) {
      ScannedIff(p);
    }
    if m :| m in ResidueOf(after, paths) && m.file == file && m.marker.id == id {
      ResidueMember(after, paths, m);
      var p :| p in paths && Scanned(p) && p in after && m in MarkersIn(p, after[p]);
      ScannedFileMarkers(before, after, blocking, p);
      FoundIdsMember(MarkersIn(p, after[p]), id);
      IdsMember(FindingsOf(blocking, p), id);
      var f :| f in FindingsOf(blocking, p) && f.id == id;
      FilterMember(blocking, (f: Finding) => f.file == p, f);
    }
    if f :| f in blocking && InTheGate(f.file) && f.file == file && f.id == id {
      assert Annotatable(before, blocking, f.file);
      FilterMember(blocking, (f: Finding) => f.file == file, f);
      ScannedFileMarkers(before, after, blocking, file);
      IdsMember(FindingsOf(blocking, file), id);
      FoundIdsMember(MarkersIn(file, after[file]), id);
      var m :| m in MarkersIn(file, after[file]) && m.marker.id == id;
      ResidueMember(after, paths, m);
    }
  }

  // The closed loop: the residue gate stays red exactly when the review blocks
  // on a finding in a file the gate scans. The verdict alone is not enough: a
  // blocking finding in an unscanned file leaves no residue.
  lemma ResidueIffBlocked(before: map<string, string>, after: map<string, string>, paths: seq<string>,
      findings: seq<Finding>, rules: seq<Rule>)
    requires var blocking := Filter(findings, BlocksUnder(rules));
      && CleanTree(before) && IsAnnotated(before, after, blocking)
      && forall f :: f in blocking ==> Printable(f)
    requires forall p :: p in paths <==> p in after
    ensures ResidueOf(after, paths) != [] <==> exists f :: f in findings && Blocks(f, rules) && InTheGate(f.file)
  {
    var blocking := Filter(findings, BlocksUnder(rules));
    var residue := ResidueOf(after, paths);
    if residue != [] {
      HeadIsIn(residue);
      var f := BlockerBehind(before, after, paths, blocking, residue[0]);
      FilterMember(findings, BlocksUnder(rules), f);
    }
    if f :| f in findings && Blocks(f, rules) && InTheGate(f.file) {
      FilterMember(findings, BlocksUnder(rules), f);
      ResidueRecovers(before, after, paths, blocking, f.file, f.id);
    }
  }

  lemma BlockerBehind(before: map<string, string>, after: map<string, string>, paths: seq<string>,
      blocking: seq<Finding>, m: Found) returns (f: Finding)
    requires CleanTree(before) && IsAnnotated(before, after, blocking)
    requires forall f :: f in blocking ==> Printable(f)
    requires forall p :: p in paths <==> p in after
    requires m in ResidueOf(after, paths)
    ensures f in blocking && InTheGate(f.file) && f.file == m.file && f.id == m.marker.id
  {
    ResidueRecovers(before, after, paths, blocking, m.file, m.marker.id);
    f :| f in blocking && InTheGate(f.file) && f.file == m.file && f.id == m.marker.id;
  }

  // The annotator writes markers into .scss files that the gate never reads.
  lemma ScssEscapesTheGate(dir: string)
    ensures CommentDelims(dir + "/a.scss") == ("/* ", " */") && !InTheGate(dir + "/a.scss")
  {
    ExtOf(dir + "/a", ".scss");
    assert dir + "/a" + ".scss" == dir + "/a.scss";
    ScannedIff(dir + "/a.scss");
  }

  lemma {:induction false} ExtOf(path: string, ext: string)
    requires ext == ".scss"
    ensures Ext(path + ext) == ext
  {
    if path == [] {
      assert path + ext == ext;
      assert "s"[1..] == "" && "ss"[1..] == "s" && "css"[1..] == "ss" && "scss"[1..] == "css" && ext[1..] == "scss";
      assert Ext("s") == "";
      assert Ext("ss") == "";
      assert Ext("css") == "";
      assert Ext("scss") == "";
    } else {
      assert (path + ext)[0] == path[0] && (path + ext)[1..] == path[1..] + ext;
      ExtOf(path[1..], ext);
    }
  }

  // Review, annotate and gate in one: with every blocking finding in a scanned
  // file, the verdict and the gate agree.
  method ReviewAndGate(tree: Tree, paths: seq<string>, findings: seq<Finding>, rules: seq<Rule>)
    returns (verdict: Verdict, annotated: bool, residue: seq<Found>)
    requires CleanTree(tree.files) && forall p :: p in paths <==> p in tree.files
    requires forall f :: f in findings ==> Printable(f) && InTheGate(f.file)
    modifies tree
    ensures annotated ==> (verdict == VerdictBlock <==> residue != [])
  {
    verdict := ComputeVerdict(findings, rules);
    var blocking := Blocking(findings, rules);
    ghost var before := tree.files;
    annotated := tree.Annotate(blocking);
    residue := tree.Residue(paths);
    if annotated {
      forall f | f in blocking ensures Printable(f) {
        FilterMember(findings, BlocksUnder(rules), f);
      }
      ResidueIffBlocked(before, tree.files, paths, findings, rules);
    }
  }
}
