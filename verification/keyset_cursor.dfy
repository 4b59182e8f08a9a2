// sqlutil.go: the opaque token that carries a sort value and an id.
module KeysetCursor {
  import opened Wrappers
  import opened Base64Url

  const SEPARATOR: Byte := 0

  function EncodeKeysetCursor(sortVal: Bytes, id: Bytes): string {
    Encode(sortVal + [SEPARATOR] + id)
  }

  function FirstSeparator(b: Bytes): (r: Option<nat>)
    ensures r.Some? ==> r.value < |b| && b[r.value] == SEPARATOR && SEPARATOR !in b[..r.value]
    ensures r.None? ==> SEPARATOR !in b
  {
    if b == [] then None
    else if b[0] == SEPARATOR then Some(0)
    else match FirstSeparator(b[1..])
      case None => None
      case Some(i) =>
        assert b[..i + 1] == [b[0]] + b[1..][..i];
        Some(i + 1)
  }

  // None for an empty or malformed token.
  function DecodeKeysetCursor(cursor: string): Option<(Bytes, Bytes)> {
    if cursor == "" then None
    else match Decode(cursor)
      case None => None
      case Some(raw) =>
        match FirstSeparator(raw)
        case None => None
        case Some(i) => Some((raw[..i], raw[i + 1..]))
  }

  // A token reads back as what went into it exactly when the sort value does
  // not contain the separator; the id may hold anything.
  lemma DecodeKeysetIff(sortVal: Bytes, id: Bytes)
    ensures EncodeKeysetCursor(sortVal, id) != ""
    ensures DecodeKeysetCursor(EncodeKeysetCursor(sortVal, id)) == Some((sortVal, id)) <==> 0 !in sortVal
  {
    var raw := sortVal + [SEPARATOR] + id;
    DecodeEncode(raw);
    assert raw[|sortVal|] == SEPARATOR;
    if SEPARATOR !in sortVal {
      assert raw[..|sortVal|] == sortVal && raw[|sortVal| + 1..] == id;
      FirstSeparatorIs(raw, |sortVal|);
    }
  }

  lemma {:induction false} FirstSeparatorIs(b: Bytes, k: nat)
    requires k < |b| && b[k] == SEPARATOR && SEPARATOR !in b[..k]
    ensures FirstSeparator(b) == Some(k)
  {
    if k > 0 {
      assert b[..k] == [b[0]] + b[1..][..k - 1];
      FirstSeparatorIs(b[1..], k - 1);
    }
  }
}
