// Unpadded base64url (RFC 4648, sections 3.2 and 5), as base64.urlsafe_b64encode(...).rstrip("=")
// writes it and urlsafe_b64decode reads it after padding: decoding ignores spare trailing bits.
module Base64Url {
  import opened Wrappers
  import opened Text

  type Byte = b: int | 0 <= b < 256

  type Sextet = s: int | 0 <= s < 64

  // ---- Bits ------------------------------------------------------------------------------------

  function S0(a: Byte): Sextet { a / 4 }
  function S1(a: Byte, b: Byte): Sextet { a % 4 * 16 + b / 16 }
  function S2(b: Byte, c: Byte): Sextet { b % 16 * 4 + c / 64 }
  function S3(c: Byte): Sextet { c % 64 }

  function B0(p: Sextet, q: Sextet): Byte { p * 4 + q / 16 }
  function B1(q: Sextet, r: Sextet): Byte { q % 16 * 16 + r / 4 }
  function B2(r: Sextet, s: Sextet): Byte { r % 4 * 64 + s }

  function Pack(bytes: seq<Byte>): (r: seq<Sextet>)
    ensures |r| == |bytes| / 3 * 4 + (if |bytes| % 3 == 0 then 0 else |bytes| % 3 + 1)
  {
    if |bytes| == 0 then []
    else if |bytes| == 1 then [S0(bytes[0]), S1(bytes[0], 0)]
    else if |bytes| == 2 then [S0(bytes[0]), S1(bytes[0], bytes[1]), S2(bytes[1], 0)]
    else [S0(bytes[0]), S1(bytes[0], bytes[1]), S2(bytes[1], bytes[2]), S3(bytes[2])] + Pack(bytes[3..])
  }

  // None: one sextet more than a multiple of four holds no whole byte.
  function Unpack(s: seq<Sextet>): Option<seq<Byte>> {
    if |s| == 0 then Some([])
    else if |s| == 1 then None
    else if |s| == 2 then Some([B0(s[0], s[1])])
    else if |s| == 3 then Some([B0(s[0], s[1]), B1(s[1], s[2])])
    else
      var rest := Unpack(s[4..]);
      if rest.None? then None else Some([B0(s[0], s[1]), B1(s[1], s[2]), B2(s[2], s[3])] + rest.value)
  }

  // The bits past the last whole byte are zero.
  predicate Canonical(s: seq<Sextet>)
    decreases |s|
  {
    if |s| >= 4 then Canonical(s[4..])
    else |s| != 1 && (|s| == 2 ==> s[1] % 16 == 0) && (|s| == 3 ==> s[2] % 4 == 0)
  }

  lemma BytesBack(a: Byte, b: Byte, c: Byte)
    ensures B0(S0(a), S1(a, b)) == a && B1(S1(a, b), S2(b, c)) == b && B2(S2(b, c), S3(c)) == c
  {}

  lemma SextetsBack(p: Sextet, q: Sextet, r: Sextet, s: Sextet)
    ensures S0(B0(p, q)) == p && S1(B0(p, q), B1(q, r)) == q && S2(B1(q, r), B2(r, s)) == r && S3(B2(r, s)) == s
    ensures S1(B0(p, q), 0) == q <==> q % 16 == 0
    ensures S2(B1(q, r), 0) == r <==> r % 4 == 0
  {}

  lemma UnpackFour(p: Sextet, q: Sextet, r: Sextet, s: Sextet, rest: seq<Sextet>)
    requires Unpack(rest).Some?
    ensures Unpack([p, q, r, s] + rest) == Some([B0(p, q), B1(q, r), B2(r, s)] + Unpack(rest).value)
  {
    assert ([p, q, r, s] + rest)[4..] == rest;
  }

  lemma UnpackGroup(a: Byte, b: Byte, c: Byte, rest: seq<Sextet>)
    requires Unpack(rest).Some?
    ensures Unpack([S0(a), S1(a, b), S2(b, c), S3(c)] + rest) == Some([a, b, c] + Unpack(rest).value)
  {
    BytesBack(a, b, c);
    UnpackFour(S0(a), S1(a, b), S2(b, c), S3(c), rest);
  }

  lemma UnpackTwo(p: Sextet, q: Sextet, a: Byte)
    requires B0(p, q) == a
    ensures Unpack([p, q]) == Some([a])
  {}

  lemma UnpackThree(p: Sextet, q: Sextet, r: Sextet, a: Byte, b: Byte)
    requires B0(p, q) == a && B1(q, r) == b
    ensures Unpack([p, q, r]) == Some([a, b])
  {}

  lemma UnpackPackOne(a: Byte)
    ensures Unpack(Pack([a])) == Some([a])
  {
    var p, q := S0(a), S1(a, 0);
    assert B0(p, q) == a by { BytesBack(a, 0, 0); }
    UnpackTwo(p, q, a);
  }

  lemma UnpackPackTwo(a: Byte, b: Byte)
    ensures Unpack(Pack([a, b])) == Some([a, b])
  {
    var p, q, r := S0(a), S1(a, b), S2(b, 0);
    assert B0(p, q) == a && B1(q, r) == b by { BytesBack(a, b, 0); }
    UnpackThree(p, q, r, a, b);
  }

  lemma {:induction false} UnpackPack(bytes: seq<Byte>)
    ensures Unpack(Pack(bytes)) == Some(bytes)
  {
    if |bytes| == 0 {
    } else if |bytes| == 1 {
      UnpackPackOne(bytes[0]);
      assert bytes == [bytes[0]];
    } else if |bytes| == 2 {
      UnpackPackTwo(bytes[0], bytes[1]);
      assert bytes == [bytes[0], bytes[1]];
    } else {
      UnpackPack(bytes[3..]);
      UnpackGroup(bytes[0], bytes[1], bytes[2], Pack(bytes[3..]));
      assert bytes == [bytes[0], bytes[1], bytes[2]] + bytes[3..];
    }
  }

  lemma {:induction false} UnpackRefuses(s: seq<Sextet>)
    ensures Unpack(s).None? <==> |s| % 4 == 1
  {
    if |s| >= 4 {
      UnpackRefuses(s[4..]);
    }
  }

  lemma PackTail(p: Sextet, q: Sextet, r: Sextet)
    ensures Pack([B0(p, q)]) == [p, q] <==> q % 16 == 0
    ensures Pack([B0(p, q), B1(q, r)]) == [p, q, r] <==> r % 4 == 0
  {
    SextetsBack(p, q, r, 0);
    assert Pack([B0(p, q)]) == [p, S1(B0(p, q), 0)];
    assert Pack([B0(p, q), B1(q, r)]) == [p, q, S2(B1(q, r), 0)];
    assert [p, S1(B0(p, q), 0)][1] == S1(B0(p, q), 0) && [p, q][1] == q;
    assert [p, q, S2(B1(q, r), 0)][2] == S2(B1(q, r), 0) && [p, q, r][2] == r;
  }

  lemma PackGroup(p: Sextet, q: Sextet, r: Sextet, s: Sextet, rest: seq<Byte>)
    ensures Pack([B0(p, q), B1(q, r), B2(r, s)] + rest) == [p, q, r, s] + Pack(rest)
  {
    SextetsBack(p, q, r, s);
    assert ([B0(p, q), B1(q, r), B2(r, s)] + rest)[3..] == rest;
  }

  lemma {:induction false} PackUnpack(s: seq<Sextet>)
    requires Unpack(s).Some?
    ensures Pack(Unpack(s).value) == s <==> Canonical(s)
  {
    if |s| == 0 {
    } else if |s| == 2 {
      PackTail(s[0], s[1], 0);
      assert s == [s[0], s[1]];
    } else if |s| == 3 {
      PackTail(s[0], s[1], s[2]);
      assert s == [s[0], s[1], s[2]];
    } else {
      PackUnpack(s[4..]);
      var head, rest := [s[0], s[1], s[2], s[3]], Unpack(s[4..]).value;
      PackGroup(s[0], s[1], s[2], s[3], rest);
      assert s == head + s[4..];
      if head + Pack(rest) == s {
        assert (head + Pack(rest))[4..] == Pack(rest);
      }
    }
  }

  // ---- Characters ------------------------------------------------------------------------------

  function Symbol(v: Sextet): Char {
    if v < 26 then 65 + v else if v < 52 then 71 + v else if v < 62 then v - 4 else if v == 62 then 45 else 95
  }

  function Value(c: Char): Option<Sextet> {
    if 65 <= c <= 90 then Some(c - 65)
    else if 97 <= c <= 122 then Some(c - 71)
    else if 48 <= c <= 57 then Some(c + 4)
    else if c == 45 then Some(62)
    else if c == 95 then Some(63)
    else None
  }

  predicate InAlphabet(t: Text) {
    forall i :: 0 <= i < |t| ==> Value(t[i]).Some?
  }

  function Symbols(s: seq<Sextet>): (r: Text)
    ensures |r| == |s| && InAlphabet(r)
  {
    seq(|s|, i requires 0 <= i < |s| => Symbol(s[i]))
  }

  function Values(t: Text): (r: seq<Sextet>)
    requires InAlphabet(t)
    ensures |r| == |t|
  {
    seq(|t|, i requires 0 <= i < |t| => Value(t[i]).value)
  }

  function Encode(bytes: seq<Byte>): Text { Symbols(Pack(bytes)) }

  function Decode(t: Text): Option<seq<Byte>>
    requires InAlphabet(t)
  {
    Unpack(Values(t))
  }

  lemma SymbolValue(v: Sextet, c: Char)
    ensures Value(Symbol(v)) == Some(v)
    ensures Value(c).Some? ==> Symbol(Value(c).value) == c
  {}

  lemma SymbolsValues(s: seq<Sextet>, t: Text)
    requires InAlphabet(t)
    ensures Values(Symbols(s)) == s && Symbols(Values(t)) == t
  {
    forall i | 0 <= i < |s| ensures Values(Symbols(s))[i] == s[i] {
      SymbolValue(s[i], 0);
    }
    forall i | 0 <= i < |t| ensures Symbols(Values(t))[i] == t[i] {
      SymbolValue(0, t[i]);
    }
  }

  lemma DecodeEncode(bytes: seq<Byte>)
    ensures Decode(Encode(bytes)) == Some(bytes)
  {
    UnpackPack(bytes);
    SymbolsValues(Pack(bytes), []);
  }

  // Encoding inverts decoding exactly on canonical text, whose spare bits are zero; only a
  // length of one more than a multiple of four is refused.
  lemma EncodeDecode(t: Text)
    requires InAlphabet(t)
    ensures Decode(t).None? <==> |t| % 4 == 1
    ensures Decode(t).Some? ==> (Encode(Decode(t).value) == t <==> Canonical(Values(t)))
  {
    UnpackRefuses(Values(t));
    if Decode(t).Some? {
      PackUnpack(Values(t));
      SymbolsValues(Pack(Decode(t).value), t);
    }
  }

  // No two byte strings share an encoding.
  lemma EncodeIsInjective(a: seq<Byte>, b: seq<Byte>)
    requires Encode(a) == Encode(b)
    ensures a == b
  {
    DecodeEncode(a);
    DecodeEncode(b);
  }
}
