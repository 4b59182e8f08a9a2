// token.go of the approvals module and toolgate.go: single-use approval tokens
// as compact JWS text, and the tool gate that consumes them.
module ApprovalTokens {
  import opened Wrappers
  import opened Base64Url
  import opened Text

  datatype Claims = Claims(
    workspaceId: string, tool: string, diffHash: string,
    targetVersion: Option<int>, jti: string, exp: int)

  // The secret and the primitives the code calls: HMAC-SHA256, SHA-256 and the
  // JSON codec. An unset secret is the empty one.
  datatype Keys = Keys(
    root: Bytes,
    hmac: (Bytes, string) -> Bytes,
    marshal: Claims -> Bytes,
    unmarshal: Bytes -> Option<Claims>,
    header: Bytes)

  datatype TokenError = NoSecret | Invalid | Required | Database

  function SigningKey(k: Keys, workspaceId: string): Option<Bytes> {
    if k.root == [] then None else Some(k.hmac(k.root, workspaceId))
  }

  function SignToken(k: Keys, claims: Claims): Result<string, TokenError> {
    match SigningKey(k, claims.workspaceId)
    case None => Err(NoSecret)
    case Some(key) =>
      var input := Encode(k.header) + "." + Encode(k.marshal(claims));
      Ok(input + "." + Encode(k.hmac(key, input)))
  }

  function ParseToken(k: Keys, token: string): Result<Claims, TokenError> {
    var parts := Split(token, '.');
    if |parts| != 3 then Err(Invalid)
    else match Decode(parts[1])
      case None => Err(Invalid)
      case Some(raw) =>
        match k.unmarshal(raw)
        case None => Err(Invalid)
        case Some(claims) =>
          match Decode(parts[2])
          case None => Err(Invalid)
          case Some(given) =>
            match SigningKey(k, claims.workspaceId)
            case None => Err(Invalid)
            case Some(key) =>
              if given == k.hmac(key, parts[0] + "." + parts[1]) then Ok(claims) else Err(Invalid)
  }

  lemma JoinThree(a: string, b: string, c: string)
    ensures Join([a, b, c], '.') == a + "." + b + "." + c
  {
    assert [a, b, c][1..] == [b, c] && [b, c][1..] == [c];
    assert Join([b, c], '.') == b + "." + c;
    assert a + "." + (b + "." + c) == a + "." + b + "." + c;
  }

  // A minted token is read back as the claims it was minted from.
  lemma ParseSigned(k: Keys, claims: Claims)
    requires k.unmarshal(k.marshal(claims)) == Some(claims)
    ensures SignToken(k, claims).Ok? <==> k.root != []
    ensures SignToken(k, claims).Ok? ==> ParseToken(k, SignToken(k, claims).value) == Ok(claims)
  {
    if k.root != [] {
      var key := k.hmac(k.root, claims.workspaceId);
      var header, payload := Encode(k.header), Encode(k.marshal(claims));
      var sig := Encode(k.hmac(key, header + "." + payload));
      DecodeEncode(k.header);
      DecodeEncode(k.marshal(claims));
      DecodeEncode(k.hmac(key, header + "." + payload));
      JoinThree(header, payload, sig);
      SplitJoin([header, payload, sig], '.');
    }
  }

  // Whatever is accepted carries, as its third part, the MAC of its first two
  // under the key of the workspace it names.
  lemma AcceptedIsSigned(k: Keys, token: string)
    requires ParseToken(k, token).Ok?
    ensures k.root != []
    ensures exists header, payload, sig ::
      && token == header + "." + payload + "." + sig
      && '.' !in header && '.' !in payload && '.' !in sig
      && Decode(sig) == Some(k.hmac(k.hmac(k.root, ParseToken(k, token).value.workspaceId), header + "." + payload))
  {
    var parts := Split(token, '.');
    JoinSplit(token, '.');
    JoinThree(parts[0], parts[1], parts[2]);
    assert parts == [parts[0], parts[1], parts[2]];
    assert parts[0] in parts && parts[1] in parts && parts[2] in parts;
  }
}
