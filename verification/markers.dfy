// marker.go: CRAFT-FIX markers written above the lines they concern, bottom
// up, and read back from the tree.
module Markers {
  import opened Wrappers
  import opened Sequences
  import opened Strings
  import opened Text

  datatype Finding = Finding(
    id: string, file: string, line: int, category: string,
    severity: string, confidence: string, rationale: string, suggestedFix: string)

  const FIX_OPEN := "CRAFT-FIX["
  const DISPUTE_OPEN := "CRAFT-DISPUTE["

  // ------------------------------------------------------------- printing

  // The extension: from the last dot of the last path element.
  function Ext(path: string): string {
    if path == [] then ""
    else
      var rest := Ext(path[1..]);
      if path[0] == '.' && rest == "" && '/' !in path then path else rest
  }

  predicate EndsWith(s: string, suffix: string) {
    |suffix| <= |s| && s[|s| - |suffix|..] == suffix
  }

  // A dot and what follows it, up to the end of a path.
  predicate IsExtension(ext: string) {
    ext != "" && ext[0] == '.' && '.' !in ext[1..] && '/' !in ext
  }

  lemma {:induction false} ExtIsSuffix(path: string)
    ensures EndsWith(path, Ext(path))
  {
    if path != [] {
      ExtIsSuffix(path[1..]);
      var rest := Ext(path[1..]);
      assert path[|path| - |rest|..] == path[1..][|path| - 1 - |rest|..];
    }
  }

  lemma {:induction false} NoDotNoExt(path: string)
    requires '.' !in path
    ensures Ext(path) == ""
  {
    if path != [] {
      NoDotNoExt(path[1..]);
    }
  }

  lemma {:induction false} ExtBehind(front: string, ext: string)
    requires IsExtension(ext)
    ensures Ext(front + ext) == ext
    decreases |front|
  {
    if front == [] {
      assert front + ext == ext;
      NoDotNoExt(ext[1..]);
    } else {
      assert (front + ext)[0] == front[0] && (front + ext)[1..] == front[1..] + ext;
      ExtBehind(front[1..], ext);
    }
  }

  // A path has an extension exactly if it ends with it.
  lemma ExtIff(path: string, ext: string)
    requires IsExtension(ext)
    ensures Ext(path) == ext <==> EndsWith(path, ext)
  {
    ExtIsSuffix(path);
    if EndsWith(path, ext) {
      var front := path[..|path| - |ext|];
      assert path == front + ext;
      ExtBehind(front, ext);
    }
  }

  lemma {:induction false} NoExtNoDot(path: string)
    requires Ext(path) == "" && '/' !in path
    ensures '.' !in path
  {
    if path != [] {
      NoExtNoDot(path[1..]);
    }
  }

  // With ExtIff: the extension a path ends with, if it ends with one, and
  // otherwise none. A dot in a directory's name starts no extension.
  lemma {:induction false} ExtIsExtension(path: string)
    ensures Ext(path) == "" || IsExtension(Ext(path))
  {
    if path != [] {
      ExtIsExtension(path[1..]);
      if path[0] == '.' && Ext(path[1..]) == "" && '/' !in path {
        NoExtNoDot(path[1..]);
      }
    }
  }

  function CommentDelims(path: string): (string, string) {
    var ext := Ext(path);
    if ext == ".sql" then ("-- ", "")
    else if ext == ".css" || ext == ".scss" then ("/* ", " */")
    else ("// ", "")
  }

  function MarkerText(f: Finding): string {
    FIX_OPEN + f.id + MarkerRest(f)
  }

  function MarkerRest(f: Finding): string {
    "] " + f.category + " (" + f.severity + "/" + f.confidence + "): "
      + f.rationale + " | FIX: " + f.suggestedFix
  }

  // The whole comment written for a finding, in each of the three styles.
  lemma MarkerIs(f: Finding)
    ensures var text := "CRAFT-FIX[" + f.id + "] " + f.category + " (" + f.severity + "/" + f.confidence + "): "
                      + f.rationale + " | FIX: " + f.suggestedFix;
      && MarkerText(f) == text
      && (EndsWith(f.file, ".sql") ==> Marker(f) == "-- " + text)
      && (EndsWith(f.file, ".css") || EndsWith(f.file, ".scss") ==> Marker(f) == "/* " + text + " */")
      && (!EndsWith(f.file, ".sql") && !EndsWith(f.file, ".css") && !EndsWith(f.file, ".scss") ==>
            Marker(f) == "// " + text)
  {
    ExtIff(f.file, ".sql");
    ExtIff(f.file, ".css");
    ExtIff(f.file, ".scss");
    MarkerTextIs(f);
  }

  lemma MarkerTextIs(f: Finding)
    ensures MarkerText(f)
      == "CRAFT-FIX[" + f.id + "] " + f.category + " (" + f.severity + "/" + f.confidence + "): "
       + f.rationale + " | FIX: " + f.suggestedFix
  {
  }

  predicate IsBlank(c: char) { c == ' ' || c == '\t' }

  function Indent(line: string): (r: string)
    ensures r <= line && forall c :: c in r ==> c == ' ' || c == '\t'
    ensures |r| == |line| || (line[|r|] != ' ' && line[|r|] != '\t')
  {
    if line == [] || !IsBlank(line[0]) then "" else [line[0]] + Indent(line[1..])
  }

  function LeadingIndent(lines: seq<string>, idx: nat): string {
    if idx >= |lines| then "" else Indent(lines[idx])
  }

  function Marker(f: Finding): string {
    CommentDelims(f.file).0 + MarkerText(f) + CommentDelims(f.file).1
  }

  lemma {:induction false} IndentOf(indent: string, rest: string)
    requires forall c :: c in indent ==> IsBlank(c)
    requires rest != [] && !IsBlank(rest[0])
    ensures Indent(indent + rest) == indent
  {
    if indent == [] {
      assert indent + rest == rest;
    } else {
      assert (indent + rest)[0] == indent[0] && (indent + rest)[1..] == indent[1..] + rest;
      IndentOf(indent[1..], rest);
    }
  }

  lemma MarkerStartsUnblank(f: Finding)
    ensures Marker(f) != [] && !IsBlank(Marker(f)[0])
  {
    assert Marker(f)[0] == CommentDelims(f.file).0[0];
  }

  // ------------------------------------------------------ bottom-up insert

  // All markers placed at once: each goes, with its target's own indentation,
  // into the block directly above the target; a later finding in `fs` goes
  // above an earlier one. Slot |lines| is past the last line.
  function Block(lines: seq<string>, fs: seq<Finding>, k: nat): seq<string>
    decreases |fs|
  {
    if fs == [] then []
    else
      var f := fs[|fs|-1];
      (if f.line - 1 == k then [LeadingIndent(lines, k) + Marker(f)] else []) + Block(lines, fs[..|fs|-1], k)
  }

  function Placed(lines: seq<string>, fs: seq<Finding>, k: nat): (r: seq<string>)
    requires k <= |lines|
    ensures |r| >= |lines| - k
    decreases |lines| - k
  {
    if k == |lines| then Block(lines, fs, k)
    else Block(lines, fs, k) + [lines[k]] + Placed(lines, fs, k + 1)
  }

  predicate InRange(f: Finding, lines: seq<string>) {
    1 <= f.line <= |lines| + 1
  }

  predicate LineGeq(a: Finding, b: Finding) { a.line >= b.line }

  lemma {:induction false} EmptyBlock(lines: seq<string>, fs: seq<Finding>, k: nat)
    requires forall f :: f in fs ==> f.line - 1 != k
    ensures Block(lines, fs, k) == []
  {
    if fs != [] {
      assert fs[|fs|-1] in fs;
      EmptyBlock(lines, fs[..|fs|-1], k);
    }
  }

  lemma BlockSnoc(lines: seq<string>, fs: seq<Finding>, f: Finding, k: nat)
    ensures Block(lines, fs + [f], k)
      == (if f.line - 1 == k then [LeadingIndent(lines, k) + Marker(f)] else []) + Block(lines, fs, k)
  {
    assert (fs + [f])[..|fs|] == fs;
  }

  // Slots above every target hold just the original lines.
  lemma {:induction false} PlacedAbove(lines: seq<string>, fs: seq<Finding>, k: nat, m: nat)
    requires k <= m <= |lines|
    requires forall f :: f in fs ==> f.line - 1 >= m
    ensures Placed(lines, fs, k) == lines[k..m] + Placed(lines, fs, m)
    decreases m - k
  {
    if k < m {
      EmptyBlock(lines, fs, k);
      assert Block(lines, fs, k) + [lines[k]] == [lines[k]];
      PlacedAbove(lines, fs, k + 1, m);
      Reassociate([lines[k]], lines[k+1..m], Placed(lines, fs, m));
      assert [lines[k]] + lines[k+1..m] == lines[k..m];
    } else {
      assert lines[k..m] == [];
    }
  }

  lemma {:induction false} PlacedIgnoresLater(lines: seq<string>, fs: seq<Finding>, f: Finding, k: nat)
    requires k <= |lines| && f.line - 1 < k
    ensures Placed(lines, fs + [f], k) == Placed(lines, fs, k)
    decreases |lines| - k
  {
    BlockSnoc(lines, fs, f, k);
    assert [] + Block(lines, fs, k) == Block(lines, fs, k);
    if k < |lines| {
      PlacedIgnoresLater(lines, fs, f, k + 1);
    }
  }

  // Inserting one more marker at or above all earlier ones.
  lemma InsertOne(lines: seq<string>, fs: seq<Finding>, f: Finding)
    requires InRange(f, lines)
    requires forall g :: g in fs ==> InRange(g, lines) && g.line >= f.line
    ensures var now, idx := Placed(lines, fs, 0), f.line - 1;
      && idx <= |now|
      && now[..idx] + [LeadingIndent(now, idx) + Marker(f)] + now[idx..] == Placed(lines, fs + [f], 0)
  {
    var now, idx := Placed(lines, fs, 0), f.line - 1;
    var all, m := fs + [f], LeadingIndent(lines, idx) + Marker(f);
    PlacedAbove(lines, fs, 0, idx);
    PlacedAbove(lines, all, 0, idx);
    IndentUnderMarkers(lines, fs, idx);
    PlacedAtTarget(lines, fs, f);
    var head, tail := lines[0..idx], Placed(lines, fs, idx);
    assert now == head + tail && |head| == idx;
    assert now[..idx] == head && now[idx..] == tail;
    Reassociate(head, [m], tail);
  }

  // The target's slot gains the new marker on top.
  lemma PlacedAtTarget(lines: seq<string>, fs: seq<Finding>, f: Finding)
    requires InRange(f, lines)
    ensures var idx := f.line - 1;
      Placed(lines, fs + [f], idx) == [LeadingIndent(lines, idx) + Marker(f)] + Placed(lines, fs, idx)
  {
    var idx := f.line - 1;
    var m := LeadingIndent(lines, idx) + Marker(f);
    BlockSnoc(lines, fs, f, idx);
    if idx < |lines| {
      PlacedIgnoresLater(lines, fs, f, idx + 1);
      Reassociate([m], Block(lines, fs, idx), [lines[idx]]);
      Reassociate([m], Block(lines, fs, idx) + [lines[idx]], Placed(lines, fs, idx + 1));
    }
  }

  // The line now at the target's slot, a marker or the target, has the
  // target's indentation.
  lemma IndentUnderMarkers(lines: seq<string>, fs: seq<Finding>, idx: nat)
    requires idx <= |lines| && forall g :: g in fs ==> g.line - 1 >= idx
    ensures LeadingIndent(Placed(lines, fs, 0), idx) == LeadingIndent(lines, idx)
  {
    PlacedAbove(lines, fs, 0, idx);
    var now := Placed(lines, fs, 0);
    assert now == lines[0..idx] + Placed(lines, fs, idx);
    var block := Block(lines, fs, idx);
    if block != [] {
      BlockIndent(lines, fs, idx);
      assert now[idx] == block[0];
    }
  }

  lemma {:induction false} BlockIndent(lines: seq<string>, fs: seq<Finding>, k: nat)
    ensures forall m :: m in Block(lines, fs, k) ==> Indent(m) == LeadingIndent(lines, k)
  {
    if fs != [] {
      var f := fs[|fs|-1];
      BlockIndent(lines, fs[..|fs|-1], k);
      MarkerStartsUnblank(f);
      IndentOf(LeadingIndent(lines, k), Marker(f));
    }
  }

  // The library's unstable sort: some arrangement in descending line order.
  method SortByLineDescending(fs: seq<Finding>) returns (sorted: seq<Finding>)
    ensures multiset(sorted) == multiset(fs) && Sorted(sorted, LineGeq)
  {
    sorted := StableSort(fs, LineGeq);
    StableSortSorts(fs, LineGeq);
  }

  // The body of annotateFile on a file's content: None when some finding is
  // out of range, and otherwise the content with every marker placed.
  method AnnotateContent(content: string, fs: seq<Finding>) returns (r: Option<string>, ghost order: seq<Finding>)
    ensures multiset(order) == multiset(fs)
    ensures r.None? <==> exists f :: f in fs && !InRange(f, Split(content, '\n'))
    ensures r.Some? ==>
      var placed := Placed(Split(content, '\n'), order, 0);
      placed != [] && r.value == Join(placed, '\n')
  {
    var lines := Split(content, '\n');
    ghost var original := lines;
    var sorted := SortByLineDescending(fs);
    order := sorted;
    SameMembers(sorted, fs);
    NothingPlaced(lines, 0);
    for i := 0 to |sorted|
      invariant lines == Placed(original, sorted[..i], 0)
      invariant forall f :: f in sorted[..i] ==> InRange(f, original)
    {
      var f := sorted[i];
      var idx := f.line - 1;
      RangeCheck(original, sorted, i);
      if idx < 0 || idx > |lines| {
        assert f in fs && !InRange(f, original);
        return None, order;
      }
      InsertOne(original, sorted[..i], f);
      TakeStep(sorted, i);
      lines := lines[..idx] + [LeadingIndent(lines, idx) + Marker(f)] + lines[idx..];
    }
    TakeAll(sorted);
    return Some(Join(lines, '\n')), order;
  }

  lemma SameMembers<T>(a: seq<T>, b: seq<T>)
    requires multiset(a) == multiset(b)
    ensures forall x :: x in a ==> x in b
    ensures forall x :: x in b ==> x in a
  {
    assert forall x :: x in a ==> x in multiset(a);
    assert forall x :: x in b ==> x in multiset(b);
  }

  lemma {:induction false} NothingPlaced(lines: seq<string>, k: nat)
    requires k <= |lines|
    ensures Placed(lines, [], k) == lines[k..]
    decreases |lines| - k
  {
    if k < |lines| {
      NothingPlaced(lines, k + 1);
      assert [lines[k]] + lines[k+1..] == lines[k..];
      assert [] + [lines[k]] == [lines[k]];
    }
  }

  // Checking against the lines grown so far is checking against the original
  // file: the first finding is tested on the original, and the rest lie above.
  lemma RangeCheck(lines: seq<string>, sorted: seq<Finding>, i: nat)
    requires i < |sorted| && Sorted(sorted, LineGeq)
    requires forall f :: f in sorted[..i] ==> InRange(f, lines)
    ensures InRange(sorted[i], lines) <==> 0 <= sorted[i].line - 1 <= |Placed(lines, sorted[..i], 0)|
    ensures forall g :: g in sorted[..i] ==> g.line >= sorted[i].line
  {
    forall g | g in sorted[..i] ensures g.line >= sorted[i].line {
      var j :| 0 <= j < i && sorted[j] == g;
      assert LineGeq(sorted[j], sorted[i]);
    }
    if i == 0 {
      NothingPlaced(lines, 0);
    } else {
      assert sorted[0] in sorted[..i];
    }
  }

  // ------------------------------------------------- where everything ends up

  // How many markers stand in slots from..k.
  function MarkersBetween(lines: seq<string>, fs: seq<Finding>, from: nat, k: nat): nat
    decreases k - from
  {
    if from > k then 0 else |Block(lines, fs, from)| + MarkersBetween(lines, fs, from + 1, k)
  }

  // Original line k moves down by exactly the markers above it, with its own
  // markers standing directly over it.
  lemma {:induction false} TargetPosition(lines: seq<string>, fs: seq<Finding>, from: nat, k: nat)
    returns (front: seq<string>)
    requires from <= k < |lines|
    ensures Placed(lines, fs, from) == front + (Block(lines, fs, k) + [lines[k]] + Placed(lines, fs, k + 1))
    ensures |front| + |Block(lines, fs, k)| == k - from + MarkersBetween(lines, fs, from, k)
    decreases k - from
  {
    if from == k {
      front := [];
      assert MarkersBetween(lines, fs, k, k) == |Block(lines, fs, k)| + MarkersBetween(lines, fs, k + 1, k);
    } else {
      var rest := TargetPosition(lines, fs, from + 1, k);
      front := (Block(lines, fs, from) + [lines[from]]) + rest;
      Reassociate(Block(lines, fs, from) + [lines[from]], rest,
                  Block(lines, fs, k) + [lines[k]] + Placed(lines, fs, k + 1));
    }
  }

  // How many findings target slots 0..k.
  function Above(fs: seq<Finding>, k: int): (r: nat)
    ensures r <= |fs|
  {
    if fs == [] then 0
    else (if fs[|fs|-1].line - 1 <= k then 1 else 0) + Above(fs[..|fs|-1], k)
  }

  lemma {:induction false} AboveStep(lines: seq<string>, fs: seq<Finding>, k: nat)
    ensures Above(fs, k) == Above(fs, k - 1) + |Block(lines, fs, k)|
  {
    if fs != [] {
      AboveStep(lines, fs[..|fs|-1], k);
    }
  }

  // One marker per finding: nothing is dropped or written twice.
  lemma {:induction false} MarkersCounted(lines: seq<string>, fs: seq<Finding>, from: nat, k: nat)
    requires from <= k + 1
    ensures MarkersBetween(lines, fs, from, k) == Above(fs, k) - Above(fs, from - 1)
    decreases k + 1 - from
  {
    if from <= k {
      AboveStep(lines, fs, from);
      MarkersCounted(lines, fs, from + 1, k);
    }
  }

  // ------------------------------------------------------------- parsing

  datatype Kind = Fix | Dispute

  datatype ParsedMarker = ParsedMarker(kind: Kind, id: string, reason: string)

  // A bracketed, non-empty id without "]" right after `open`, at position i.
  function MatchAt(line: string, open: string, i: nat): Option<nat>
    requires i <= |line|
  {
    if !HasAt(line, i, open) then None
    else match IndexFrom(line, ']', i + |open|)
      case None => None
      case Some(j) => if j > i + |open| then Some(j) else None
  }

  // The leftmost match from i on: where it starts and where its "]" is.
  function FindMatch(line: string, open: string, i: nat): (r: Option<(nat, nat)>)
    requires i <= |line|
    ensures r.Some? ==> i <= r.value.0 && r.value.0 + |open| < r.value.1 < |line| && HasAt(line, r.value.0, open)
    decreases |line| - i
  {
    match MatchAt(line, open, i)
    case Some(j) => Some((i, j))
    case None => if i == |line| then None else FindMatch(line, open, i + 1)
  }

  function ParseMarker(line: string): Option<ParsedMarker> {
    match FindMatch(line, DISPUTE_OPEN, 0)
    case Some(m) =>
      var tail := line[m.1 + 1..];
      var reason := if tail != [] && tail[0] == ':' then tail[1..] else tail;
      Some(ParsedMarker(Dispute, line[m.0 + |DISPUTE_OPEN|..m.1], TrimSpace(reason)))
    case None =>
      match FindMatch(line, FIX_OPEN, 0)
      case Some(m) => Some(ParsedMarker(Fix, line[m.0 + |FIX_OPEN|..m.1], ""))
      case None => None
  }

  // Findings whose marker stays on one line and reads back unambiguously.
  ghost predicate Printable(f: Finding) {
    && f.id != "" && ']' !in f.id
    && '\n' !in MarkerText(f)
    && !Contains(MarkerText(f), DISPUTE_OPEN)
  }

  lemma {:induction false} NoMatch(line: string, open: string, i: nat)
    requires i <= |line| && forall k :: i <= k <= |line| ==> !HasAt(line, k, open)
    ensures FindMatch(line, open, i).None?
    decreases |line| - i
  {
    if i < |line| {
      NoMatch(line, open, i + 1);
    }
  }

  lemma {:induction false} SkipTo(line: string, open: string, i: nat, at: nat)
    requires i <= at <= |line| && forall k :: i <= k < at ==> !HasAt(line, k, open)
    ensures FindMatch(line, open, i) == FindMatch(line, open, at)
    decreases at - i
  {
    if i < at {
      SkipTo(line, open, i + 1, at);
    }
  }

  // What stands before the marker text holds no tag.
  lemma QuietLead(f: Finding, indent: string, k: nat, open: string)
    requires forall c :: c in indent ==> IsBlank(c)
    requires open != "" && open[0] == 'C'
    requires k < |indent + CommentDelims(f.file).0|
    ensures !HasAt(indent + Marker(f), k, open)
  {
    var lead := indent + CommentDelims(f.file).0;
    var line := indent + Marker(f);
    assert line[k] == lead[k];
    if k < |indent| {
      assert lead[k] == indent[k] && indent[k] in indent;
    } else {
      assert lead[k] == CommentDelims(f.file).0[k - |indent|] != 'C';
    }
    if HasAt(line, k, open) {
      HasAtMeans(line, k, open, 0);
      assert false;
    }
  }

  lemma NoDispute(f: Finding, indent: string, k: nat)
    requires Printable(f) && forall c :: c in indent ==> IsBlank(c)
    ensures !HasAt(indent + Marker(f), k, DISPUTE_OPEN)
  {
    var delims := CommentDelims(f.file);
    var lead := indent + delims.0;
    var line := lead + MarkerText(f) + delims.1;
    assert indent + Marker(f) == line;
    assert forall p :: |lead| + |MarkerText(f)| <= p < |line| ==>
      line[p] == delims.1[p - |lead| - |MarkerText(f)|] != '[';
    if k < |lead| {
      QuietLead(f, indent, k, DISPUTE_OPEN);
    } else if HasAt(line, k, DISPUTE_OPEN) {
      HasAtMeans(line, k, DISPUTE_OPEN, |DISPUTE_OPEN| - 1);
      if k + |DISPUTE_OPEN| <= |lead + MarkerText(f)| {
        HasAtWithin(lead, MarkerText(f), delims.1, k, DISPUTE_OPEN);
      }
      assert false;
    }
  }

  // Reading any line: the leftmost dispute tag, or without one the leftmost fix
  // tag. What follows a dispute's bracket and an optional colon is its reason.
  lemma DisputeReads(lead: string, id: string, tail: string)
    requires var line := lead + "CRAFT-DISPUTE[" + id + ("]" + tail);
      forall k: nat :: k < |lead| ==> !HasAt(line, k, "CRAFT-DISPUTE[")
    requires id != "" && ']' !in id
    ensures var r := ParseMarker(lead + "CRAFT-DISPUTE[" + id + ("]" + tail));
      && (tail == "" || tail[0] != ':' ==> r == Some(ParsedMarker(Dispute, id, TrimSpace(tail))))
      && (tail != "" && tail[0] == ':' ==> r == Some(ParsedMarker(Dispute, id, TrimSpace(tail[1..]))))
  {
    DisputeFound(lead + DISPUTE_OPEN + id + ("]" + tail), lead, id, tail);
  }

  lemma DisputeFound(line: string, lead: string, id: string, tail: string)
    requires line == lead + DISPUTE_OPEN + id + ("]" + tail)
    requires forall k: nat :: k < |lead| ==> !HasAt(line, k, DISPUTE_OPEN)
    requires id != "" && ']' !in id
    ensures ParseMarker(line)
      == Some(ParsedMarker(Dispute, id, TrimSpace(if tail != "" && tail[0] == ':' then tail[1..] else tail)))
  {
    SkipTo(line, DISPUTE_OPEN, 0, |lead|);
    FoundFromStart(line, lead, DISPUTE_OPEN, id, "]" + tail);
    assert ("]" + tail)[1..] == tail;
  }

  lemma FixReads(lead: string, id: string, tail: string)
    requires var line := lead + "CRAFT-FIX[" + id + ("]" + tail);
      && (forall k: nat :: k < |lead| ==> !HasAt(line, k, "CRAFT-FIX["))
      && !Contains(line, "CRAFT-DISPUTE[")
    requires id != "" && ']' !in id
    ensures ParseMarker(lead + "CRAFT-FIX[" + id + ("]" + tail)) == Some(ParsedMarker(Fix, id, ""))
  {
    var line := lead + FIX_OPEN + id + ("]" + tail);
    NoMatch(line, DISPUTE_OPEN, 0);
    SkipTo(line, FIX_OPEN, 0, |lead|);
    MatchPrinted(line, lead, FIX_OPEN, id, "]" + tail);
  }

  lemma PlainLineReadsAsNothing(line: string)
    requires !Contains(line, "CRAFT-DISPUTE[") && !Contains(line, "CRAFT-FIX[")
    ensures ParseMarker(line).None?
  {
    NoMatch(line, DISPUTE_OPEN, 0);
    NoMatch(line, FIX_OPEN, 0);
  }

  // Reading a written marker line gives back its kind and its finding's id.
  lemma ParsePrinted(f: Finding, indent: string)
    requires Printable(f) && forall c :: c in indent ==> IsBlank(c)
    ensures ParseMarker(indent + Marker(f)) == Some(ParsedMarker(Fix, f.id, ""))
  {
    var line, lead := indent + Marker(f), indent + CommentDelims(f.file).0;
    var tail := MarkerLine(f, indent);
    forall k: nat ensures !HasAt(line, k, DISPUTE_OPEN) {
      NoDispute(f, indent, k);
    }
    forall k: nat | k < |lead| ensures !HasAt(line, k, FIX_OPEN) {
      QuietLead(f, indent, k, FIX_OPEN);
    }
    FixReads(lead, f.id, tail);
  }

  lemma MarkerLine(f: Finding, indent: string) returns (tail: string)
    ensures indent + Marker(f) == (indent + CommentDelims(f.file).0) + FIX_OPEN + f.id + ("]" + tail)
  {
    var rest := MarkerRest(f) + CommentDelims(f.file).1;
    PrintedParts(indent, CommentDelims(f.file).0, FIX_OPEN, f.id, MarkerRest(f), CommentDelims(f.file).1);
    tail := rest[1..];
    assert MarkerRest(f)[0] == ']';
    assert rest == "]" + tail;
  }

  lemma PrintedParts(indent: string, delim: string, open: string, id: string, rest: string, tail: string)
    ensures indent + (delim + (open + id + rest) + tail) == (indent + delim) + open + id + (rest + tail)
  {
  }

  lemma MatchPrinted(line: string, lead: string, open: string, id: string, tail: string)
    requires line == lead + open + id + tail
    requires id != "" && ']' !in id && tail != [] && tail[0] == ']'
    ensures FindMatch(line, open, |lead|) == Some((|lead|, |lead| + |open| + |id|))
    ensures line[|lead| + |open|..|lead| + |open| + |id|] == id
  {
    var front := lead + open;
    assert |front| == |lead| + |open|;
    Reassociate(front, id, tail);
    PrintedOpen(line, lead, open, id + tail);
    PrintedId(line, front, id, tail);
    MatchFound(line, open, |lead|, id);
  }

  lemma PrintedOpen(line: string, lead: string, open: string, rest: string)
    requires |line| == |lead| + |open| + |rest| && line == lead + open + rest
    ensures HasAt(line, |lead|, open)
  {
  }

  lemma PrintedId(line: string, lead: string, id: string, tail: string)
    requires line == lead + id + tail && tail != []
    ensures line[|lead|..|lead| + |id|] == id && line[|lead| + |id|] == tail[0]
  {
  }

  lemma FoundFromStart(line: string, lead: string, open: string, id: string, tail: string)
    requires line == lead + open + id + tail
    requires id != "" && ']' !in id && tail != [] && tail[0] == ']'
    requires FindMatch(line, open, 0) == FindMatch(line, open, |lead|)
    ensures var from := |lead| + |open|;
      && FindMatch(line, open, 0) == Some((|lead|, from + |id|))
      && line[from..from + |id|] == id && line[from + |id| + 1..] == tail[1..]
  {
    MatchPrinted(line, lead, open, id, tail);
  }

  lemma MatchFound(line: string, open: string, at: nat, id: string)
    requires HasAt(line, at, open) && id != "" && ']' !in id
    requires at + |open| + |id| < |line| && line[at + |open|..at + |open| + |id|] == id
      && line[at + |open| + |id|] == ']'
    ensures FindMatch(line, open, at) == Some((at, at + |open| + |id|))
  {
    IndexIs(line, at + |open|, at + |open| + |id|);
  }

  lemma IndexIs(line: string, from: nat, close: nat)
    requires from <= close < |line| && line[close] == ']' && ']' !in line[from..close]
    ensures IndexFrom(line, ']', from) == Some(close)
  {
    var r := IndexFrom(line, ']', from);
    assert line[close] in line[from..];
  }
}
