// critic.go, extractJSON: the first brace-balanced span of a model's answer.
module JsonSpan {

  // ------------------------------------------------------------- scanner

  datatype Scan = Scan(depth: int, inStr: bool, esc: bool)

  function Step(st: Scan, c: char): Scan {
    if st.esc then st.(esc := false)
    else if c == '\\' && st.inStr then st.(esc := true)
    else if c == '"' then st.(inStr := !st.inStr)
    else if st.inStr then st
    else if c == '{' then st.(depth := st.depth + 1)
    else if c == '}' then st.(depth := st.depth - 1)
    else st
  }

  function Run(st: Scan, s: string): Scan
    decreases |s|
  {
    if s == [] then st else Run(Step(st, s[0]), s[1..])
  }

  // Outside any string literal, at the given brace depth.
  function Outside(depth: int): Scan { Scan(depth, false, false) }
  function Inside(depth: int): Scan { Scan(depth, true, false) }

  predicate FirstBrace(s: string, start: nat) {
    start < |s| && s[start] == '{' && '{' !in s[..start]
  }

  predicate Closes(s: string, start: nat, end: nat) {
    start < end <= |s| && Run(Outside(0), s[start..end]).depth == 0
  }

  // The shortest span from the first brace whose braces outside string
  // literals balance; empty when there is none.
  ghost predicate IsFirstSpan(s: string, r: string) {
    || (r == "" && forall start: nat, end: nat :: FirstBrace(s, start) ==> !Closes(s, start, end))
    || exists start: nat, end: nat ::
         && FirstBrace(s, start) && Closes(s, start, end) && r == s[start..end]
         && forall e: nat :: start < e < end ==> !Closes(s, start, e)
  }

  lemma {:induction false} RunAppend(st: Scan, a: string, b: string)
    ensures Run(st, a + b) == Run(Run(st, a), b)
    decreases |a|
  {
    if a == [] {
      assert a + b == b;
    } else {
      assert (a + b)[1..] == a[1..] + b;
      RunAppend(Step(st, a[0]), a[1..], b);
    }
  }

  lemma RunSnoc(st: Scan, a: string, c: char)
    ensures Run(st, a + [c]) == Step(Run(st, a), c)
  {
    RunAppend(st, a, [c]);
    assert [c][1..] == [];
  }

  lemma FirstBraceUnique(s: string, a: nat, b: nat)
    requires FirstBrace(s, a) && FirstBrace(s, b)
    ensures a == b
  {
  }

  // Only one string is the first span.
  lemma FirstSpanUnique(s: string, r: string, q: string)
    requires IsFirstSpan(s, r) && IsFirstSpan(s, q)
    ensures r == q
  {
    if r != "" && q != "" {
      var start: nat, end: nat :| FirstBrace(s, start) && Closes(s, start, end) && r == s[start..end]
        && forall e: nat :: start < e < end ==> !Closes(s, start, e);
      var start': nat, end': nat :| FirstBrace(s, start') && Closes(s, start', end') && q == s[start'..end']
        && forall e: nat :: start' < e < end' ==> !Closes(s, start', e);
      FirstBraceUnique(s, start, start');
    }
  }

  method ExtractJSON(s: string) returns (r: string)
    ensures IsFirstSpan(s, r)
  {
    var start := 0;
    while start < |s| && s[start] != '{'
      invariant start <= |s|
      invariant '{' !in s[..start]
    {
      start := start + 1;
    }
    if start == |s| {
      assert s[..start] == s;
      return "";
    }
    var depth, inStr, esc := 0, false, false;
    var i := start;
    while i < |s|
      invariant start <= i <= |s|
      invariant Run(Outside(0), s[start..i]) == Scan(depth, inStr, esc)
      invariant start < i ==> depth > 0
      invariant forall e: nat :: start < e <= i ==> !Closes(s, start, e)
    {
      var c := s[i];
      assert s[start..i+1] == s[start..i] + [c];
      RunSnoc(Outside(0), s[start..i], c);
      if esc {
        esc := false;
      } else if c == '\\' && inStr {
        esc := true;
      } else if c == '"' {
        inStr := !inStr;
      } else if inStr {
      } else if c == '{' {
        depth := depth + 1;
      } else if c == '}' {
        depth := depth - 1;
        if depth == 0 {
          assert Closes(s, start, i + 1);
          return s[start..i+1];
        }
      }
      i := i + 1;
    }
    forall a: nat, b: nat | FirstBrace(s, a) ensures !Closes(s, a, b) {
      FirstBraceUnique(s, a, start);
    }
    return "";
  }

  // ---------------------------------------- JSON texts (RFC 8259, 2 to 7)

  datatype StrChar =
    | Plain(c: char)
    | Escape(c: char)
    | UnicodeEscape(hex: string)

  // Concrete syntax with its insignificant whitespace. A scalar is a number or
  // a literal name.
  datatype Json =
    | Scalar(text: string)
    | Str(chars: seq<StrChar>)
    | Arr(space: string, items: Items)
    | Obj(space: string, members: Members)

  datatype Items = NoItems | Item(value: Json, after: string, before: string, rest: Items)

  datatype Members =
    | NoMembers
    | Member(key: seq<StrChar>, afterKey: string, beforeValue: string, value: Json, after: string, before: string,
      rest: Members)

  function CharText(c: StrChar): string {
    match c
    case Plain(c) => [c]
    case Escape(c) => ['\\', c]
    case UnicodeEscape(hex) => "\\u" + hex
  }

  function CharsText(chars: seq<StrChar>): string {
    if chars == [] then "" else CharText(chars[0]) + CharsText(chars[1..])
  }

  function StrText(chars: seq<StrChar>): string {
    "\"" + CharsText(chars) + "\""
  }

  function Text(j: Json): string {
    match j
    case Scalar(t) => t
    case Str(chars) => StrText(chars)
    case Arr(space, items) => "[" + space + ItemsText(items) + "]"
    case Obj(space, members) => "{" + (space + MembersText(members)) + "}"
  }

  function ItemsText(items: Items): string {
    match items
    case NoItems => ""
    case Item(v, after, before, rest) =>
      Text(v) + (after + (if rest.NoItems? then "" else "," + before) + ItemsText(rest))
  }

  function MembersText(members: Members): string {
    match members
    case NoMembers => ""
    case Member(key, afterKey, beforeValue, v, after, before, rest) =>
      StrText(key) + (afterKey + ":" + beforeValue)
      + (Text(v) + (after + (if rest.NoMembers? then "" else "," + before) + MembersText(rest)))
  }

  predicate IsSpace(s: string) {
    forall c :: c in s ==> c == ' ' || c == '\t' || c == '\n' || c == '\r'
  }

  predicate IsHex(c: char) {
    '0' <= c <= '9' || 'a' <= c <= 'f' || 'A' <= c <= 'F'
  }

  predicate IsStrChar(c: StrChar) {
    match c
    case Plain(c) => c != '"' && c != '\\' && c >= ' '
    case Escape(c) => c in "\"\\/bfnrt"
    case UnicodeEscape(hex) => |hex| == 4 && forall h :: h in hex ==> IsHex(h)
  }

  // Every RFC 8259 number and literal name is made of these characters.
  predicate IsScalarText(s: string) {
    s != "" && forall c :: c in s ==> '0' <= c <= '9' || 'a' <= c <= 'z' || c in "+-.E"
  }

  predicate IsStr(chars: seq<StrChar>) {
    forall c :: c in chars ==> IsStrChar(c)
  }

  predicate IsJson(j: Json) {
    match j
    case Scalar(t) => IsScalarText(t)
    case Str(chars) => IsStr(chars)
    case Arr(space, items) => IsSpace(space) && AreItems(items)
    case Obj(space, members) => IsSpace(space) && AreMembers(members)
  }

  predicate AreItems(items: Items) {
    match items
    case NoItems => true
    case Item(v, after, before, rest) => IsJson(v) && IsSpace(after) && IsSpace(before) && AreItems(rest)
  }

  predicate AreMembers(members: Members) {
    match members
    case NoMembers => true
    case Member(key, afterKey, beforeValue, v, after, before, rest) =>
      && IsStr(key) && IsSpace(afterKey) && IsSpace(beforeValue)
      && IsJson(v) && IsSpace(after) && IsSpace(before) && AreMembers(rest)
  }

  // ------------------------------------------------ the grammar, rule by rule

  ghost predicate IsValue(s: string) {
    exists j :: IsJson(j) && Text(j) == s
  }

  // One element or more, with the white space after each and behind each comma.
  ghost predicate IsElements(s: string) {
    exists items: Items :: items.Item? && AreItems(items) && ItemsText(items) == s
  }

  ghost predicate IsPairs(s: string) {
    exists members: Members :: members.Member? && AreMembers(members) && MembersText(members) == s
  }

  // Tabs, line feeds, carriage returns and spaces.
  predicate IsWhite(s: string) {
    forall c :: c in s ==> c as int in {9, 10, 13, 32}
  }

  predicate IsHexDigit(c: char) {
    48 <= c as int <= 57 || 65 <= c as int <= 70 || 97 <= c as int <= 102
  }

  // What may stand between the quotes of a string: characters from the space
  // on but quotes and backslashes, the eight short escapes, and four hex digits
  // behind a backslash and a u.
  predicate IsStringBody(s: string) {
    if s == "" then true
    else if s[0] as int == 92 then
      |s| >= 2
      && if s[1] == 'u' then
           |s| >= 6 && IsHexDigit(s[2]) && IsHexDigit(s[3]) && IsHexDigit(s[4]) && IsHexDigit(s[5])
           && IsStringBody(s[6..])
         else s[1] as int in {34, 92, 47, 98, 102, 110, 114, 116} && IsStringBody(s[2..])
    else s[0] as int >= 32 && s[0] as int != 34 && IsStringBody(s[1..])
  }

  function CharsOf(s: string): (r: seq<StrChar>)
    requires IsStringBody(s)
  {
    if s == "" then []
    else if s[0] != '\\' then [Plain(s[0])] + CharsOf(s[1..])
    else if s[1] != 'u' then [Escape(s[1])] + CharsOf(s[2..])
    else [UnicodeEscape(s[2..6])] + CharsOf(s[6..])
  }

  lemma {:induction false} BodyIsChars(s: string)
    requires IsStringBody(s)
    ensures IsStr(CharsOf(s)) && CharsText(CharsOf(s)) == s
    decreases |s|
  {
    if s == "" {
    } else if s[0] != '\\' {
      BodyIsChars(s[1..]);
      CharsCons(Plain(s[0]), CharsOf(s[1..]));
      assert [s[0]] + s[1..] == s;
    } else if s[1] != 'u' {
      BodyIsChars(s[2..]);
      CharsCons(Escape(s[1]), CharsOf(s[2..]));
      assert ['\\', s[1]] + s[2..] == s;
    } else {
      BodyIsChars(s[6..]);
      CharsCons(UnicodeEscape(s[2..6]), CharsOf(s[6..]));
      assert "\\u" + s[2..6] + s[6..] == s;
    }
  }

  lemma CharsCons(c: StrChar, rest: seq<StrChar>)
    ensures CharsText([c] + rest) == CharText(c) + CharsText(rest)
    ensures IsStrChar(c) && IsStr(rest) ==> IsStr([c] + rest)
  {
  }

  lemma StringIsValue(s: string)
    requires IsStringBody(s)
    ensures IsValue("\"" + s + "\"")
  {
    BodyIsChars(s);
    assert Text(Str(CharsOf(s))) == "\"" + s + "\"";
  }

  // Numbers and literal names among them.
  lemma ScalarIsValue(s: string)
    requires s != "" && forall c :: c in s ==>
      48 <= c as int <= 57 || 97 <= c as int <= 122 || c as int in {43, 45, 46, 69}
    ensures IsValue(s)
  {
    assert Text(Scalar(s)) == s;
  }

  lemma ItemsOf(elements: string) returns (items: Items)
    requires elements == "" || IsElements(elements)
    ensures AreItems(items) && ItemsText(items) == elements
  {
    if elements == "" {
      items := NoItems;
    } else {
      items :| items.Item? && AreItems(items) && ItemsText(items) == elements;
    }
  }

  lemma ArrayIsValue(space: string, elements: string)
    requires IsWhite(space) && (elements == "" || IsElements(elements))
    ensures IsValue("[" + space + elements + "]")
  {
    var items := ItemsOf(elements);
    ArrayText(space, items);
    assert IsJson(Arr(space, items));
  }

  lemma LastItem(j: Json, after: string, before: string)
    ensures ItemsText(Item(j, after, before, NoItems)) == Text(j) + after
  {
    assert ItemsText(NoItems) == "" && after + "" == after;
  }

  lemma LastMember(key: seq<StrChar>, afterKey: string, beforeValue: string, j: Json, after: string, before: string)
    ensures MembersText(Member(key, afterKey, beforeValue, j, after, before, NoMembers))
      == StrText(key) + (afterKey + ":" + beforeValue) + (Text(j) + after)
  {
    assert MembersText(NoMembers) == "" && after + "" == after;
  }

  lemma ArrayText(space: string, items: Items)
    ensures Text(Arr(space, items)) == "[" + space + ItemsText(items) + "]"
  {
  }

  lemma ElementsGrow(v: string, after: string, before: string, rest: string)
    requires IsValue(v) && IsWhite(after) && IsWhite(before)
    ensures IsElements(v + after)
    ensures IsElements(rest) ==> IsElements(v + (after + ("," + before) + rest))
  {
    var j :| IsJson(j) && Text(j) == v;
    var one := Item(j, after, before, NoItems);
    LastItem(j, after, before);
    assert AreItems(one);
    if IsElements(rest) {
      var items: Items :| items.Item? && AreItems(items) && ItemsText(items) == rest;
      var more := Item(j, after, before, items);
      assert AreItems(more) && ItemsText(more) == v + (after + ("," + before) + rest);
    }
  }

  lemma MembersOf(pairs: string) returns (members: Members)
    requires pairs == "" || IsPairs(pairs)
    ensures AreMembers(members) && MembersText(members) == pairs
  {
    if pairs == "" {
      members := NoMembers;
    } else {
      members :| members.Member? && AreMembers(members) && MembersText(members) == pairs;
    }
  }

  lemma ObjectIsValue(space: string, pairs: string)
    requires IsWhite(space) && (pairs == "" || IsPairs(pairs))
    ensures IsValue("{" + (space + pairs) + "}")
  {
    var members := MembersOf(pairs);
    assert IsJson(Obj(space, members)) && Text(Obj(space, members)) == "{" + (space + pairs) + "}";
  }

  lemma PairsGrow(key: string, colon: (string, string), v: string, after: string, before: string, rest: string)
    requires IsStringBody(key) && IsWhite(colon.0) && IsWhite(colon.1)
    requires IsValue(v) && IsWhite(after) && IsWhite(before)
    ensures var pair := "\"" + key + "\"" + (colon.0 + ":" + colon.1);
      && IsPairs(pair + (v + after))
      && (IsPairs(rest) ==> IsPairs(pair + (v + (after + ("," + before) + rest))))
  {
    BodyIsChars(key);
    var pair := "\"" + key + "\"" + (colon.0 + ":" + colon.1);
    var j :| IsJson(j) && Text(j) == v;
    var one := Member(CharsOf(key), colon.0, colon.1, j, after, before, NoMembers);
    LastMember(CharsOf(key), colon.0, colon.1, j, after, before);
    assert AreMembers(one);
    if IsPairs(rest) {
      var members: Members :| members.Member? && AreMembers(members) && MembersText(members) == rest;
      var more := Member(CharsOf(key), colon.0, colon.1, j, after, before, members);
      assert AreMembers(more) && MembersText(more) == pair + (v + (after + ("," + before) + rest));
    }
  }

  // ------------------------------------------ what the scanner sees of them

  // Scanning s from st ends in `end` and never drops below depth d on the way.
  ghost predicate Scans(st: Scan, s: string, end: Scan, d: int) {
    && Run(st, s) == end
    && forall k :: 0 <= k <= |s| ==> Run(st, s[..k]).depth >= d
  }

  lemma ScansAppend(st: Scan, a: string, mid: Scan, b: string, end: Scan, d: int)
    requires Scans(st, a, mid, d) && Scans(mid, b, end, d)
    ensures Scans(st, a + b, end, d)
  {
    RunAppend(st, a, b);
    forall k | 0 <= k <= |a + b| ensures Run(st, (a + b)[..k]).depth >= d {
      if k <= |a| {
        assert (a + b)[..k] == a[..k];
      } else {
        assert (a + b)[..k] == a + b[..k-|a|];
        RunAppend(st, a, b[..k-|a|]);
      }
    }
  }

  lemma ScansOne(st: Scan, c: char, d: int)
    requires st.depth >= d && Step(st, c).depth >= d
    ensures Scans(st, [c], Step(st, c), d)
  {
    forall k | 0 <= k <= 1 ensures Run(st, [c][..k]).depth >= d {
      if k == 1 {
        assert [c][..1] == [c];
      }
    }
  }

  // Text that leaves the scanner's state alone.
  lemma {:induction false} ScansStill(st: Scan, s: string)
    requires forall c :: c in s ==> Step(st, c) == st
    ensures Scans(st, s, st, st.depth)
  {
    if s != [] {
      ScansStill(st, s[1..]);
      ScansOne(st, s[0], st.depth);
      ScansAppend(st, [s[0]], st, s[1..], st, st.depth);
      assert [s[0]] + s[1..] == s;
    }
  }

  lemma ScansChar(c: StrChar, d: int)
    requires IsStrChar(c)
    ensures Scans(Inside(d), CharText(c), Inside(d), d)
  {
    var st := Inside(d);
    match c {
      case Plain(p) =>
        ScansOne(st, p, d);
      case Escape(e) =>
        ScansOne(st, '\\', d);
        ScansOne(st.(esc := true), e, d);
        ScansAppend(st, ['\\'], st.(esc := true), [e], st, d);
        assert ['\\'] + [e] == CharText(c);
      case UnicodeEscape(hex) =>
        ScansOne(st, '\\', d);
        ScansOne(st.(esc := true), 'u', d);
        ScansAppend(st, ['\\'], st.(esc := true), ['u'], st, d);
        assert ['\\'] + ['u'] == "\\u";
        ScansStill(st, hex);
        ScansAppend(st, "\\u", st, hex, st, d);
    }
  }

  lemma {:induction false} ScansChars(chars: seq<StrChar>, d: int)
    requires IsStr(chars)
    ensures Scans(Inside(d), CharsText(chars), Inside(d), d)
  {
    if chars == [] {
      ScansStill(Inside(d), "");
    } else {
      ScansChar(chars[0], d);
      ScansChars(chars[1..], d);
      ScansAppend(Inside(d), CharText(chars[0]), Inside(d), CharsText(chars[1..]), Inside(d), d);
    }
  }

  lemma ScansStr(chars: seq<StrChar>, d: int)
    requires IsStr(chars)
    ensures Scans(Outside(d), StrText(chars), Outside(d), d)
  {
    ScansChars(chars, d);
    ScansOne(Outside(d), '"', d);
    ScansOne(Inside(d), '"', d);
    ScansAppend(Outside(d), "\"", Inside(d), CharsText(chars), Inside(d), d);
    ScansAppend(Outside(d), "\"" + CharsText(chars), Inside(d), "\"", Outside(d), d);
  }

  // A value's braces balance, and inside an object the depth stays above the
  // depth it started at until its last character.
  lemma {:induction false} ScansJson(j: Json, d: int)
    requires IsJson(j)
    ensures Scans(Outside(d), Text(j), Outside(d), d)
    decreases j
  {
    var st := Outside(d);
    match j {
      case Scalar(t) =>
        ScansStill(st, t);
      case Str(chars) =>
        ScansStr(chars, d);
      case Arr(space, items) =>
        ScansStill(st, "[" + space);
        ScansItems(items, d);
        ScansAppend(st, "[" + space, st, ItemsText(items), st, d);
        ScansStill(st, "]");
        ScansAppend(st, "[" + space + ItemsText(items), st, "]", st, d);
      case Obj(space, members) =>
        ScansBody(space, members, d + 1);
        ScansOne(st, '{', d);
        ScansOne(Outside(d + 1), '}', d);
        ScansAppend(st, "{", Outside(d + 1), space + MembersText(members), Outside(d + 1), d);
        ScansAppend(st, "{" + (space + MembersText(members)), Outside(d + 1), "}", st, d);
    }
  }

  lemma {:induction false} ScansBody(space: string, members: Members, d: int)
    requires IsSpace(space) && AreMembers(members)
    ensures Scans(Outside(d), space + MembersText(members), Outside(d), d)
    ensures Scans(Outside(d), space + MembersText(members), Outside(d), d - 1)
    decreases members, 1
  {
    ScansStill(Outside(d), space);
    ScansMembers(members, d);
    ScansAppend(Outside(d), space, Outside(d), MembersText(members), Outside(d), d);
  }

  lemma {:induction false} ScansItems(items: Items, d: int)
    requires AreItems(items)
    ensures Scans(Outside(d), ItemsText(items), Outside(d), d)
    decreases items
  {
    var st := Outside(d);
    match items {
      case NoItems =>
        ScansStill(st, "");
      case Item(v, after, before, rest) =>
        var gap := after + (if rest.NoItems? then "" else "," + before);
        ScansJson(v, d);
        ScansStill(st, gap);
        ScansItems(rest, d);
        ScansAppend(st, gap, st, ItemsText(rest), st, d);
        ScansAppend(st, Text(v), st, gap + ItemsText(rest), st, d);
    }
  }

  lemma {:induction false} ScansMembers(members: Members, d: int)
    requires AreMembers(members)
    ensures Scans(Outside(d), MembersText(members), Outside(d), d)
    decreases members, 0
  {
    var st := Outside(d);
    match members {
      case NoMembers =>
        ScansStill(st, "");
      case Member(key, afterKey, beforeValue, v, after, before, rest) =>
        var colon := afterKey + ":" + beforeValue;
        var gap := after + (if rest.NoMembers? then "" else "," + before);
        ScansStr(key, d);
        ScansStill(st, colon);
        ScansAppend(st, StrText(key), st, colon, st, d);
        ScansJson(v, d);
        ScansStill(st, gap);
        ScansMembers(rest, d);
        ScansAppend(st, gap, st, MembersText(rest), st, d);
        ScansAppend(st, Text(v), st, gap + MembersText(rest), st, d);
        ScansAppend(st, StrText(key) + colon, st, Text(v) + (gap + MembersText(rest)), st, d);
    }
  }

  // The object closes at its end and nowhere before.
  lemma ObjectClosesOnlyAtEnd(space: string, members: Members, k: nat)
    requires IsSpace(space) && AreMembers(members)
    requires 0 < k <= |Text(Obj(space, members))|
    ensures var text := Text(Obj(space, members));
      Run(Outside(0), text[..k]).depth == 0 <==> k == |text|
  {
    var text, body := Text(Obj(space, members)), space + MembersText(members);
    ScansJson(Obj(space, members), 0);
    assert text[..|text|] == text;
    if k < |text| {
      ScansBody(space, members, 1);
      assert text[..k] == "{" + body[..k-1];
      RunAppend(Outside(0), "{", body[..k-1]);
      assert "{"[1..] == "";
      assert Run(Outside(0), "{") == Outside(1);
    }
  }

  // The span found in any answer that wraps a JSON object in prose without an
  // opening brace is that object, whatever braces and quotes its strings hold
  // and whatever follows it.
  lemma ObjectIsFirstSpan(pre: string, space: string, members: Members, post: string)
    requires '{' !in pre && IsSpace(space) && AreMembers(members)
    ensures IsFirstSpan(pre + Text(Obj(space, members)) + post, Text(Obj(space, members)))
  {
    var text := Text(Obj(space, members));
    var s := pre + text + post;
    var start, end := |pre|, |pre| + |text|;
    assert s[..start] == pre && s[start] == text[0] == '{';
    assert s[start..end] == text;
    forall e: nat | start < e <= end ensures Closes(s, start, e) <==> e == end {
      assert s[start..e] == text[..e-start];
      ObjectClosesOnlyAtEnd(space, members, e - start);
    }
  }

  // The same for an object's text, however it came about.
  lemma ObjectTextIsFirstSpan(pre: string, space: string, pairs: string, post: string)
    requires '{' !in pre && IsWhite(space) && (pairs == "" || IsPairs(pairs))
    ensures var text := "{" + (space + pairs) + "}"; IsFirstSpan(pre + text + post, text)
  {
    var members := MembersOf(pairs);
    ObjectIsFirstSpan(pre, space, members, post);
  }

  // So the extractor undoes any such wrapping.
  method ExtractWrapped(pre: string, space: string, members: Members, post: string) returns (r: string)
    requires '{' !in pre && IsSpace(space) && AreMembers(members)
    ensures r == Text(Obj(space, members))
  {
    r := ExtractJSON(pre + Text(Obj(space, members)) + post);
    ObjectIsFirstSpan(pre, space, members, post);
    FirstSpanUnique(pre + Text(Obj(space, members)) + post, r, Text(Obj(space, members)));
  }
}
