// base64.RawURLEncoding (section 5 of RFC 4648, without padding): the encoder,
// and Go's lenient decoder, which skips line breaks and ignores the unused low
// bits of the last character.
module Base64Url {
  import opened Wrappers
  import opened Sequences

  type Byte = x: int | 0 <= x < 256
  type Sextet = x: int | 0 <= x < 64
  type Bytes = seq<Byte>

  function CharOf(v: Sextet): char {
    if v < 26 then ('A' as int + v) as char
    else if v < 52 then ('a' as int + v - 26) as char
    else if v < 62 then ('0' as int + v - 52) as char
    else if v == 62 then '-'
    else '_'
  }

  function SextetOf(c: char): (r: Option<Sextet>)
    ensures r.Some? ==> CharOf(r.value) == c
  {
    if 'A' <= c <= 'Z' then Some(c as int - 'A' as int)
    else if 'a' <= c <= 'z' then Some(c as int - 'a' as int + 26)
    else if '0' <= c <= '9' then Some(c as int - '0' as int + 52)
    else if c == '-' then Some(62)
    else if c == '_' then Some(63)
    else None
  }

  lemma SextetOfChar(v: Sextet)
    ensures SextetOf(CharOf(v)) == Some(v)
    ensures CharOf(v) !in {'.', '\n', '\r', '='}
  {
  }

  // ------------------------------------------------------------ bits, bytes

  // Three bytes a, b, c as four sextets p, q, r, s, and back.
  function P(a: Byte): Sextet { a / 4 }
  function Q(a: Byte, b: Byte): Sextet { a % 4 * 16 + b / 16 }
  function R(b: Byte, c: Byte): Sextet { b % 16 * 4 + c / 64 }
  function S(c: Byte): Sextet { c % 64 }

  function A(p: Sextet, q: Sextet): Byte { p * 4 + q / 16 }
  function B(q: Sextet, r: Sextet): Byte { q % 16 * 16 + r / 4 }
  function C(r: Sextet, s: Sextet): Byte { r % 4 * 64 + s }

  lemma SextetsBack(p: Sextet, q: Sextet, r: Sextet, s: Sextet)
    ensures P(A(p, q)) == p && Q(A(p, q), B(q, r)) == q && R(B(q, r), C(r, s)) == r && S(C(r, s)) == s
    ensures Q(A(p, q), 0) == q <==> q % 16 == 0
    ensures R(B(q, r), 0) == r <==> r % 4 == 0
  {
  }

  function Quanta(b: Bytes): seq<Sextet> {
    if |b| == 0 then []
    else if |b| == 1 then [P(b[0]), Q(b[0], 0)]
    else if |b| == 2 then [P(b[0]), Q(b[0], b[1]), R(b[1], 0)]
    else [P(b[0]), Q(b[0], b[1]), R(b[1], b[2]), S(b[2])] + Quanta(b[3..])
  }

  // A lone last sextet holds no byte; Decode refuses it.
  function BytesOf(v: seq<Sextet>): Bytes {
    if |v| < 2 then []
    else if |v| == 2 then [A(v[0], v[1])]
    else if |v| == 3 then [A(v[0], v[1]), B(v[1], v[2])]
    else [A(v[0], v[1]), B(v[1], v[2]), C(v[2], v[3])] + BytesOf(v[4..])
  }

  // The bits past the last whole byte are zero.
  predicate NoSpareBits(v: seq<Sextet>) {
    && (|v| % 4 == 2 ==> v[|v| - 1] % 16 == 0)
    && (|v| % 4 == 3 ==> v[|v| - 1] % 4 == 0)
  }

  lemma Spelled<T>(v: seq<T>)
    ensures |v| == 1 ==> v == [v[0]]
    ensures |v| == 2 ==> v == [v[0], v[1]]
    ensures |v| == 3 ==> v == [v[0], v[1], v[2]]
    ensures |v| >= 4 ==> v[..4] == [v[0], v[1], v[2], v[3]] && v == v[..4] + v[4..]
    ensures |v| >= 3 ==> v == [v[0], v[1], v[2]] + v[3..]
  {
  }

  lemma DropHead<T>(head: seq<T>, rest: seq<T>)
    ensures (head + rest)[|head|..] == rest
  {
  }

  lemma BytesBack(a: Byte, b: Byte, c: Byte)
    ensures A(P(a), Q(a, b)) == a && B(Q(a, b), R(b, c)) == b && C(R(b, c), S(c)) == c
  {
  }

  lemma BytesCons(a: Byte, b: Byte, c: Byte, rest: seq<Sextet>)
    ensures BytesOf([P(a), Q(a, b), R(b, c), S(c)] + rest) == [a, b, c] + BytesOf(rest)
  {
    BytesBack(a, b, c);
    DropHead([P(a), Q(a, b), R(b, c), S(c)], rest);
  }

  lemma ShortBytes(b: Bytes)
    requires |b| < 3
    ensures BytesOf(Quanta(b)) == b
  {
    Spelled(b);
    if |b| == 1 {
      BytesBack(b[0], 0, 0);
    } else if |b| == 2 {
      BytesBack(b[0], b[1], 0);
    }
  }

  lemma {:induction false} BytesOfQuanta(b: Bytes)
    ensures BytesOf(Quanta(b)) == b
  {
    if |b| < 3 {
      ShortBytes(b);
    } else {
      BytesOfQuanta(b[3..]);
      BytesCons(b[0], b[1], b[2], Quanta(b[3..]));
      Spelled(b);
    }
  }

  lemma {:induction false} QuantaLength(b: Bytes)
    ensures |Quanta(b)| % 4 != 1
    ensures b == [] <==> Quanta(b) == []
  {
    if |b| >= 3 {
      QuantaLength(b[3..]);
    }
  }

  lemma {:induction false} QuantaOfBytes(v: seq<Sextet>)
    requires |v| % 4 != 1
    ensures Quanta(BytesOf(v)) == v <==> NoSpareBits(v)
  {
    if |v| < 4 {
      ShortQuanta(v);
    } else {
      QuantaOfBytes(v[4..]);
      QuantaStep(v);
      SameTail(v[..4], Quanta(BytesOf(v[4..])), v[4..]);
      SpareBitsOfTail(v);
    }
  }

  lemma ShortQuanta(v: seq<Sextet>)
    requires |v| in {0, 2, 3}
    ensures Quanta(BytesOf(v)) == v <==> NoSpareBits(v)
  {
    if |v| == 2 {
      SextetsBack(v[0], v[1], 0, 0);
      Spelled(v);
    } else if |v| == 3 {
      SextetsBack(v[0], v[1], v[2], 0);
      Spelled(v);
    }
  }

  lemma QuantaStep(v: seq<Sextet>)
    requires |v| % 4 != 1 && |v| >= 4
    ensures v == v[..4] + v[4..]
    ensures Quanta(BytesOf(v)) == v[..4] + Quanta(BytesOf(v[4..]))
  {
    QuantaCons(v[0], v[1], v[2], v[3], BytesOf(v[4..]));
    Spelled(v);
  }

  lemma SpareBitsOfTail(v: seq<Sextet>)
    requires |v| >= 4
    ensures NoSpareBits(v[4..]) <==> NoSpareBits(v)
  {
  }

  lemma SameTail<T>(head: seq<T>, a: seq<T>, b: seq<T>)
    ensures head + a == head + b <==> a == b
  {
    assert (head + a)[|head|..] == a && (head + b)[|head|..] == b;
  }

  lemma QuantaCons(p: Sextet, q: Sextet, r: Sextet, s: Sextet, rest: Bytes)
    ensures Quanta([A(p, q), B(q, r), C(r, s)] + rest) == [p, q, r, s] + Quanta(rest)
  {
    SextetsBack(p, q, r, s);
    DropHead([A(p, q), B(q, r), C(r, s)], rest);
  }

  // -------------------------------------------------------------- the codec

  function Text(v: seq<Sextet>): string {
    if v == [] then "" else [CharOf(v[0])] + Text(v[1..])
  }

  function Encode(b: Bytes): string {
    Text(Quanta(b))
  }

  // The characters' values, line breaks skipped; nothing if one is foreign.
  function Sextets(text: string): Option<seq<Sextet>> {
    if text == "" then Some([])
    else if text[0] == '\n' || text[0] == '\r' then Sextets(text[1..])
    else match (SextetOf(text[0]), Sextets(text[1..]))
      case (Some(v), Some(rest)) => Some([v] + rest)
      case _ => None
  }

  function Decode(text: string): Option<Bytes> {
    match Sextets(text)
    case None => None
    case Some(v) => if |v| % 4 == 1 then None else Some(BytesOf(v))
  }

  // The alphabet, in order: capitals, small letters, digits, the minus sign and
  // the underscore.
  predicate IsLetter(c: char) {
    65 <= c as int <= 90 || 97 <= c as int <= 122 || 48 <= c as int <= 57 || c as int == 45 || c as int == 95
  }

  predicate IsBreak(c: char) {
    c as int == 10 || c as int == 13
  }

  lemma AlphabetIs(v: Sextet)
    ensures CharOf(v) as int ==
      if v <= 25 then 65 + v else if v <= 51 then 97 + v - 26 else if v <= 61 then 48 + v - 52
      else if v == 62 then 45 else 95
  {
  }

  function Letters(text: string): string {
    Filter(text, c => !IsBreak(c))
  }

  // What the decoder reads: letters and line breaks, the latter ignored.
  lemma {:induction false} SextetsRead(text: string)
    ensures Sextets(text).Some? <==> forall c :: c in text ==> IsLetter(c) || IsBreak(c)
    ensures Sextets(text) == Sextets(Letters(text))
    ensures Sextets(text).Some? ==> |Sextets(text).value| == |Letters(text)|
  {
    if text != "" {
      SextetsRead(text[1..]);
      assert text == [text[0]] + text[1..];
      assert text[0] in text && (IsLetter(text[0]) <==> SextetOf(text[0]).Some?);
      assert forall c :: c in text <==> c == text[0] || c in text[1..];
    }
  }

  // A text is read exactly if it is made of letters and line breaks and its
  // letters are not one more than a multiple of four; where the breaks stand
  // makes no difference.
  lemma DecodesIff(text: string)
    ensures Decode(text).Some? <==>
      && (forall c :: c in text ==> IsLetter(c) || IsBreak(c))
      && |Letters(text)| % 4 != 1
    ensures Decode(text) == Decode(Letters(text))
  {
    SextetsRead(text);
  }

  lemma {:induction false} SextetsOfText(v: seq<Sextet>)
    ensures Sextets(Text(v)) == Some(v)
    ensures |Text(v)| == |v|
    ensures forall c :: c in Text(v) ==> c !in {'.', '\n', '\r', '='}
  {
    if v != [] {
      SextetOfChar(v[0]);
      SextetsOfText(v[1..]);
      assert Text(v)[1..] == Text(v[1..]);
      assert v == [v[0]] + v[1..];
    }
  }

  lemma {:induction false} TextOfSextets(text: string)
    requires Sextets(text).Some?
    ensures Text(Sextets(text).value) == text <==> '\n' !in text && '\r' !in text
    ensures |Sextets(text).value| <= |text|
    ensures |Sextets(text).value| == |text| ==> '\n' !in text && '\r' !in text
    decreases |text|
  {
    if text != "" {
      TextOfSextets(text[1..]);
      assert text == [text[0]] + text[1..];
      var v := Sextets(text).value;
      SextetsOfText(v);
      if text[0] != '\n' && text[0] != '\r' {
        assert v[1..] == Sextets(text[1..]).value;
        assert Text(v)[1..] == Text(v[1..]);
      } else {
        assert text[0] in text;
      }
    }
  }

  // Every byte string is read back exactly, and its text is safe to place
  // between the dots of a token.
  lemma DecodeEncode(b: Bytes)
    ensures Decode(Encode(b)) == Some(b)
    ensures '.' !in Encode(b)
    ensures b != [] <==> Encode(b) != ""
  {
    SextetsOfText(Quanta(b));
    BytesOfQuanta(b);
    QuantaLength(b);
  }

  lemma EncodeIsInjective(a: Bytes, b: Bytes)
    requires Encode(a) == Encode(b)
    ensures a == b
  {
    DecodeEncode(a);
    DecodeEncode(b);
  }

  // The decoder accepts more than the encoder writes: a text is what Encode
  // makes of the bytes it decodes to exactly when it has no line break and no
  // spare bits set.
  lemma EncodeDecodeIff(text: string)
    requires Decode(text).Some?
    ensures Encode(Decode(text).value) == text
      <==> '\n' !in text && '\r' !in text && NoSpareBits(Sextets(text).value)
  {
    var v := Sextets(text).value;
    var q := Quanta(BytesOf(v));
    QuantaOfBytes(v);
    TextOfSextets(text);
    SextetsOfText(v);
    SextetsOfText(q);
  }
}
