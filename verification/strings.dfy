// strings.TrimSpace, strings.Trim and strings.HasPrefix as the modules here
// use them.
module Strings {
  // White space as unicode.IsSpace has it.
  predicate IsSpace(c: char) {
    c in {'\t', '\n', '\U{000B}', '\U{000C}', '\r', ' ', '\U{0085}', '\U{00A0}', '\U{1680}'}
    || '\U{2000}' <= c <= '\U{200A}'
    || c in {'\U{2028}', '\U{2029}', '\U{202F}', '\U{205F}', '\U{3000}'}
  }

  function TrimLeft(s: string, cut: char -> bool): string {
    if s == [] || !cut(s[0]) then s else TrimLeft(s[1..], cut)
  }

  function TrimRight(s: string, cut: char -> bool): string {
    if s == [] || !cut(s[|s| - 1]) then s else TrimRight(s[..|s| - 1], cut)
  }

  function Trim(s: string, cut: char -> bool): string {
    TrimRight(TrimLeft(s, cut), cut)
  }

  function TrimSpace(s: string): string {
    Trim(s, IsSpace)
  }

  lemma {:induction false} TrimLeftIs(s: string, cut: char -> bool)
    ensures var r := TrimLeft(s, cut);
      && (r == [] || !cut(r[0]))
      && |r| <= |s| && r == s[|s| - |r|..]
      && (forall i :: 0 <= i < |s| - |r| ==> cut(s[i]))
  {
    if s != [] && cut(s[0]) {
      TrimLeftIs(s[1..], cut);
      var r := TrimLeft(s, cut);
      forall i | 0 <= i < |s| - |r| ensures cut(s[i]) {
        assert i > 0 ==> s[i] == s[1..][i - 1];
      }
    }
  }

  lemma {:induction false} TrimRightIs(s: string, cut: char -> bool)
    ensures var r := TrimRight(s, cut);
      && (r == [] || !cut(r[|r| - 1]))
      && r <= s
      && (forall i :: |r| <= i < |s| ==> cut(s[i]))
  {
    if s != [] && cut(s[|s| - 1]) {
      TrimRightIs(s[..|s| - 1], cut);
      var r := TrimRight(s, cut);
      forall i | |r| <= i < |s| ensures cut(s[i]) {
        assert i < |s| - 1 ==> s[i] == s[..|s| - 1][i];
      }
    }
  }

  // What is left is the part between the cut-off ends.
  lemma TrimIs(s: string, cut: char -> bool) returns (i: nat, j: nat)
    ensures i <= j <= |s| && Trim(s, cut) == s[i..j]
    ensures i < j ==> !cut(s[i]) && !cut(s[j - 1])
    ensures s != "" && !cut(s[0]) ==> i == 0 && j > 0
  {
    var left := TrimLeft(s, cut);
    var r := TrimRight(left, cut);
    TrimLeftIs(s, cut);
    TrimRightIs(left, cut);
    i, j := |s| - |left|, |s| - |left| + |r|;
    assert r == left[..|r|];
  }

  // White space by its code points.
  predicate IsWhite(n: int) {
    || 9 <= n <= 13 || n == 32 || n == 0x85 || n == 0xA0 || n == 0x1680 || 0x2000 <= n <= 0x200A
    || n == 0x2028 || n == 0x2029 || n == 0x202F || n == 0x205F || n == 0x3000
  }

  // TrimSpace cuts white space off both ends, up to the first and the last
  // character that is none.
  lemma TrimSpaceIs(s: string) returns (i: nat, j: nat)
    ensures i <= j <= |s| && TrimSpace(s) == s[i..j]
    ensures forall k :: 0 <= k < i || j <= k < |s| ==> IsWhite(s[k] as int)
    ensures i < j ==> !IsWhite(s[i] as int) && !IsWhite(s[j - 1] as int)
  {
    var left := TrimLeft(s, IsSpace);
    var r := TrimRight(left, IsSpace);
    TrimLeftIs(s, IsSpace);
    TrimRightIs(left, IsSpace);
    i, j := |s| - |left|, |s| - |left| + |r|;
    assert r == left[..|r|];
    forall k | 0 <= k < i || j <= k < |s| ensures IsWhite(s[k] as int) {
      assert k >= j ==> s[k] == left[k - i];
      assert IsSpace(s[k]);
    }
  }

  // Nothing to trim, nothing trimmed.
  lemma TrimKeeps(s: string, cut: char -> bool)
    requires s == [] || (!cut(s[0]) && !cut(s[|s| - 1]))
    ensures Trim(s, cut) == s
  {
  }

  // Nothing is left exactly when all of it is to be cut.
  lemma TrimEmptyIff(s: string, cut: char -> bool)
    ensures Trim(s, cut) == "" <==> forall c :: c in s ==> cut(c)
  {
    var left := TrimLeft(s, cut);
    TrimLeftIs(s, cut);
    TrimRightIs(left, cut);
    if left != [] {
      assert s[|s| - |left|] == left[0];
    } else {
      forall c | c in s ensures cut(c) {
        var i :| 0 <= i < |s| && s[i] == c;
      }
    }
  }
}
