// strings.Split, strings.Join and substring search.
module Text {
  import opened Wrappers

  // The pieces between separators; never empty, like strings.Split.
  function Split(s: string, sep: char): (r: seq<string>)
    ensures r != []
  {
    if s == [] then [""]
    else
      var rest := Split(s[1..], sep);
      if s[0] == sep then [""] + rest else [[s[0]] + rest[0]] + rest[1..]
  }

  function Join(parts: seq<string>, sep: char): string
    requires parts != []
  {
    if |parts| == 1 then parts[0] else parts[0] + [sep] + Join(parts[1..], sep)
  }

  lemma {:induction false} JoinSplit(s: string, sep: char)
    ensures Join(Split(s, sep), sep) == s
    ensures forall part :: part in Split(s, sep) ==> sep !in part
  {
    if s != [] {
      JoinSplit(s[1..], sep);
      var rest := Split(s[1..], sep);
      assert s == [s[0]] + s[1..];
      if s[0] == sep {
        assert ([""] + rest)[1..] == rest;
        assert [] + [sep] + Join(rest, sep) == s;
      } else {
        var parts := [[s[0]] + rest[0]] + rest[1..];
        assert parts[1..] == rest[1..];
        forall part | part in parts ensures sep !in part {
          if part != parts[0] {
            assert part in rest;
          } else {
            assert rest[0] in rest;
          }
        }
        if |rest| > 1 {
          assert ([s[0]] + rest[0]) + [sep] + Join(rest[1..], sep) == [s[0]] + (rest[0] + [sep] + Join(rest[1..], sep));
        }
      }
    }
  }

  lemma {:induction false} SplitPrefix(part: string, tail: string, sep: char)
    requires sep !in part
    ensures var rest := Split(tail, sep); Split(part + tail, sep) == [part + rest[0]] + rest[1..]
  {
    var rest := Split(tail, sep);
    if part == [] {
      assert part + tail == tail && part + rest[0] == rest[0];
      assert rest == [rest[0]] + rest[1..];
    } else {
      assert (part + tail)[0] == part[0] && (part + tail)[1..] == part[1..] + tail;
      SplitPrefix(part[1..], tail, sep);
      var inner := [part[1..] + rest[0]] + rest[1..];
      assert inner[0] == part[1..] + rest[0] && inner[1..] == rest[1..];
      assert [part[0]] + (part[1..] + rest[0]) == part + rest[0];
    }
  }

  lemma {:induction false} SplitJoin(parts: seq<string>, sep: char)
    requires parts != [] && forall part :: part in parts ==> sep !in part
    ensures Split(Join(parts, sep), sep) == parts
  {
    assert parts[0] in parts;
    if |parts| == 1 {
      SplitPrefix(parts[0], "", sep);
      assert parts[0] + "" == parts[0];
      assert parts == [parts[0]];
    } else {
      SplitJoin(parts[1..], sep);
      var tail := [sep] + Join(parts[1..], sep);
      assert tail[1..] == Join(parts[1..], sep);
      SplitPrefix(parts[0], tail, sep);
      assert Split(tail, sep) == [""] + parts[1..];
      assert ([""] + parts[1..])[1..] == parts[1..];
      assert parts[0] + [sep] + Join(parts[1..], sep) == parts[0] + tail;
      assert parts[0] + "" == parts[0];
      assert parts == [parts[0]] + parts[1..];
    }
  }

  lemma {:induction false} SplitAppend(a: string, b: string, sep: char)
    ensures Split(a + [sep] + b, sep) == Split(a, sep) + Split(b, sep)
  {
    var all := a + [sep] + b;
    if a == [] {
      assert all[0] == sep && all[1..] == b;
    } else {
      assert all[0] == a[0] && all[1..] == a[1..] + [sep] + b;
      SplitAppend(a[1..], b, sep);
    }
  }

  lemma {:induction false} JoinAppend(a: seq<string>, b: seq<string>, sep: char)
    requires a != [] && b != []
    ensures Join(a + b, sep) == Join(a, sep) + [sep] + Join(b, sep)
  {
    if |a| == 1 {
      assert (a + b)[1..] == b;
    } else {
      assert (a + b)[0] == a[0] && (a + b)[1..] == a[1..] + b;
      JoinAppend(a[1..], b, sep);
    }
  }

  // A part before the last one is what stands between separators, or between
  // the start and one.
  ghost predicate IsPart(s: string, part: string, sep: char) {
    exists a, b :: s == a + (part + ([sep] + b)) && (a == "" || a[|a| - 1] == sep)
  }

  lemma PartIff(s: string, part: string, sep: char)
    requires sep !in part
    ensures var parts := Split(s, sep); part in parts[..|parts| - 1] <==> IsPart(s, part, sep)
  {
    var parts := Split(s, sep);
    if part in parts[..|parts| - 1] {
      var i :| 0 <= i < |parts| - 1 && parts[..|parts| - 1][i] == part;
      PartStands(s, i, sep);
    }
    if IsPart(s, part, sep) {
      var a, b :| s == a + (part + ([sep] + b)) && (a == "" || a[|a| - 1] == sep);
      PartFound(a, part, b, sep);
    }
  }

  lemma JoinFrom(parts: seq<string>, i: nat, sep: char)
    requires i < |parts| - 1
    ensures Join(parts[i..], sep) == parts[i] + ([sep] + Join(parts[i + 1..], sep))
  {
    var part, rest := parts[i], parts[i + 1..];
    assert parts[i..] == [part] + rest;
    JoinAppend([part], rest, sep);
    assert part + [sep] + Join(rest, sep) == part + ([sep] + Join(rest, sep));
  }

  lemma JoinBefore(parts: seq<string>, i: nat, sep: char)
    requires 0 < i < |parts|
    ensures Join(parts, sep) == (Join(parts[..i], sep) + [sep]) + Join(parts[i..], sep)
  {
    assert parts == parts[..i] + parts[i..];
    JoinAppend(parts[..i], parts[i..], sep);
  }

  lemma PartStands(s: string, i: nat, sep: char)
    requires i < |Split(s, sep)| - 1
    ensures IsPart(s, Split(s, sep)[i], sep)
  {
    var parts := Split(s, sep);
    JoinSplit(s, sep);
    JoinFrom(parts, i, sep);
    var b := Join(parts[i + 1..], sep);
    if i == 0 {
      assert parts[0..] == parts;
      assert s == "" + (parts[0] + ([sep] + b));
    } else {
      JoinBefore(parts, i, sep);
      var a := Join(parts[..i], sep) + [sep];
      assert s == a + (parts[i] + ([sep] + b));
    }
  }

  lemma PartFound(a: string, part: string, b: string, sep: char)
    requires sep !in part && (a == "" || a[|a| - 1] == sep)
    ensures var parts := Split(a + (part + ([sep] + b)), sep); part in parts[..|parts| - 1]
  {
    var back := part + ([sep] + b);
    assert back == part + [sep] + b;
    SplitAppend(part, b, sep);
    SplitJoin([part], sep);
    assert Split(part, sep) == [part];
    if a == "" {
      assert a + back == back;
      var parts := Split(a + back, sep);
      assert parts[..|parts| - 1][0] == part;
    } else {
      var front := a[..|a| - 1];
      assert a + back == front + [sep] + back;
      SplitAppend(front, back, sep);
      var parts := Split(a + back, sep);
      assert parts[..|parts| - 1][|Split(front, sep)|] == part;
    }
  }

  predicate HasAt(s: string, i: nat, sub: string) {
    i + |sub| <= |s| && s[i..i+|sub|] == sub
  }

  lemma HasAtMeans(s: string, i: nat, sub: string, k: nat)
    requires HasAt(s, i, sub) && k < |sub|
    ensures s[i + k] == sub[k]
  {
    assert s[i..i+|sub|][k] == s[i + k];
  }

  lemma HasAtWithin(lead: string, mid: string, tail: string, i: nat, sub: string)
    requires HasAt(lead + mid + tail, i, sub) && |lead| <= i && i + |sub| <= |lead + mid|
    ensures HasAt(mid, i - |lead|, sub)
  {
    assert (lead + mid + tail)[i..i+|sub|] == mid[i-|lead|..i-|lead|+|sub|];
  }

  ghost predicate Contains(s: string, sub: string) {
    exists i: nat :: HasAt(s, i, sub)
  }

  function IndexFrom(s: string, c: char, i: nat): (r: Option<nat>)
    requires i <= |s|
    ensures r.Some? ==> i <= r.value < |s| && s[r.value] == c && c !in s[i..r.value]
    ensures r.None? ==> c !in s[i..]
    decreases |s| - i
  {
    if i == |s| then None
    else if s[i] == c then Some(i)
    else
      var r := IndexFrom(s, c, i + 1);
      assert s[i..] == [s[i]] + s[i+1..];
      assert r.Some? ==> s[i..r.value] == [s[i]] + s[i+1..r.value];
      r
  }
}
