/**
 Signatures over entry hashes in two modes (runtime/audit/src/signer.rs). The cryptography itself is a
 parameter: its functions, and the assumption that what a key signs its public half verifies.
 */
module AuditSigner {
  import opened Wrappers
  import opened Hex
  import opened TextOrder

  type Digest = d: seq<byte> | |d| == 32 witness seq(32, i => 0)
  type RawSignature = d: seq<byte> | |d| == 64 witness seq(64, i => 0)

  /** SHA-256, HMAC-SHA256, and Ed25519 of section 5.1 of RFC 8032. */
  datatype Crypto = Crypto(
    hash: seq<byte> -> Digest,
    mac: (seq<byte>, seq<byte>) -> Digest,
    publicOf: Digest -> Digest,
    edSign: (Digest, seq<byte>) -> RawSignature,
    edVerify: (Digest, seq<byte>, RawSignature) -> bool)
  {
    ghost predicate Correct() {
      forall seed, message :: edVerify(publicOf(seed), message, edSign(seed, message))
    }
  }

  datatype Signer =
    | Unsigned
    | Hmac(key: seq<byte>)
    | Ed25519Signing(seed: Digest)
    | Ed25519Verifying(public: Digest)
  {
    predicate CanSign() {
      Hmac? || Ed25519Signing?
    }
  }

  function Kid(c: Crypto, public: Digest): (kid: Text)
    ensures |kid| == 16
  {
    Encode(c.hash(public))[..16]
  }

  // ---------------------------------------------------------------------------
  // The signed statement
  // ---------------------------------------------------------------------------

  const QUOTE: byte := 34
  const BACKSLASH: byte := 92
  const COLON: byte := 58

  /** One byte of a JSON string, as the serializer writes it. */
  function Escape(b: byte): (t: Text)
    ensures |t| > 0
  {
    if b == QUOTE || b == BACKSLASH then [BACKSLASH, b]
    else if b == 8 then [BACKSLASH, 98]
    else if b == 9 then [BACKSLASH, 116]
    else if b == 10 then [BACKSLASH, 110]
    else if b == 12 then [BACKSLASH, 102]
    else if b == 13 then [BACKSLASH, 114]
    else if b < 32 then [BACKSLASH, 117, 48, 48, Digit(b / 16), Digit(b % 16)]
    else [b]
  }

  /** The escapes section 3.2.2.2 of RFC 8785 asks for: two characters where JSON has them, four digits for the
      other controls, and everything else as it stands. */
  lemma EscapeIs(b: byte)
    ensures b in {8, 9, 10, 12, 13, 34, 92} ==> |Escape(b)| == 2 && Escape(b)[0] == 92
    ensures b < 32 && b !in {8, 9, 10, 12, 13} ==>
              Escape(b) == [92, 117, 48, 48, Digit(b / 16), Digit(b % 16)]
    ensures Escape(8)[1] == 'b' as int && Escape(9)[1] == 't' as int && Escape(10)[1] == 'n' as int
    ensures Escape(12)[1] == 'f' as int && Escape(13)[1] == 'r' as int && Escape(34)[1] == 34 && Escape(92)[1] == 92
    ensures b >= 32 && b != 34 && b != 92 ==> Escape(b) == [b]
  {
  }

  /** The rest of a JSON string, its closing quote, and what follows. */
  function EscapeOnto(t: Text, rest: Text): Text {
    if t == [] then [QUOTE] + rest else Escape(t[0]) + EscapeOnto(t[1..], rest)
  }

  function Member(name: Text, value: Text, rest: Text): Text {
    [QUOTE] + EscapeOnto(name, [COLON, QUOTE] + EscapeOnto(value, rest))
  }

  function Members(members: seq<(Text, Text)>): Text {
    if members == [] then [125]
    else
      Member(members[0].0, members[0].1, if |members| == 1 then [125] else [44] + Members(members[1..]))
  }

  function StatementMembers(entryHash: Text, kid: Text): seq<(Text, Text)> {
    [(Ascii("alg"), Ascii("Ed25519")), (Ascii("entry_hash"), entryHash), (Ascii("kid"), kid),
     (Ascii("spec"), Ascii("jamjet.audit.entry/v1"))]
  }

  /** `ed25519_statement`. */
  function Statement(entryHash: Text, kid: Text): Text {
    [123] + Members(StatementMembers(entryHash, kid))
  }

  /** The members stand in the order section 3.2.3 of RFC 8785 asks for. */
  lemma StatementIsSorted(entryHash: Text, kid: Text)
    ensures var m := StatementMembers(entryHash, kid);
            forall i, j | 0 <= i < j < |m| :: Before(m[i].0, m[j].0)
  {
    assert Ascii("alg")[0] == 97 && Ascii("entry_hash")[0] == 101 && Ascii("kid")[0] == 107 && Ascii("spec")[0] == 115;
  }

  lemma EscapeIsPrefixFree(x: byte, y: byte, u: Text, v: Text)
    requires Escape(x) + u == Escape(y) + v
    ensures x == y && u == v
  {
    var l, r := Escape(x) + u, Escape(y) + v;
    assert l[0] == Escape(x)[0] && r[0] == Escape(y)[0];
    if l[0] == BACKSLASH {
      assert l[1] == Escape(x)[1] && r[1] == Escape(y)[1];
      if l[1] == 117 {
        assert l[4] == Escape(x)[4] && r[4] == Escape(y)[4];
        assert l[5] == Escape(x)[5] && r[5] == Escape(y)[5];
      }
    }
    assert u == l[|Escape(x)|..] && v == r[|Escape(y)|..];
  }

  /** A quoted string says where it ends: two texts that start with one each agree on it and on the rest. */
  lemma {:induction false} QuotedEnds(a: Text, b: Text, u: Text, v: Text)
    requires EscapeOnto(a, u) == EscapeOnto(b, v)
    ensures a == b && u == v
  {
    FirstByte(a, u);
    FirstByte(b, v);
    if a == [] && b == [] {
      assert u == EscapeOnto(a, u)[1..] && v == EscapeOnto(b, v)[1..];
    } else if a != [] && b != [] {
      EscapeIsPrefixFree(a[0], b[0], EscapeOnto(a[1..], u), EscapeOnto(b[1..], v));
      QuotedEnds(a[1..], b[1..], u, v);
    }
  }

  lemma FirstByte(a: Text, u: Text)
    ensures EscapeOnto(a, u) != []
    ensures a == [] <==> EscapeOnto(a, u)[0] == QUOTE
  {
    if a != [] {
      assert EscapeOnto(a, u)[0] == Escape(a[0])[0];
    }
  }

  lemma MemberInjective(name1: Text, value1: Text, rest1: Text, name2: Text, value2: Text, rest2: Text)
    requires Member(name1, value1, rest1) == Member(name2, value2, rest2)
    ensures name1 == name2 && value1 == value2 && rest1 == rest2
  {
    var u, v := [COLON, QUOTE] + EscapeOnto(value1, rest1), [COLON, QUOTE] + EscapeOnto(value2, rest2);
    assert Member(name1, value1, rest1)[1..] == EscapeOnto(name1, u);
    assert Member(name2, value2, rest2)[1..] == EscapeOnto(name2, v);
    QuotedEnds(name1, name2, u, v);
    assert u[2..] == EscapeOnto(value1, rest1) && v[2..] == EscapeOnto(value2, rest2);
    QuotedEnds(value1, value2, rest1, rest2);
  }

  /** Members written as JSON are read back in one way. */
  lemma {:induction false} MembersInjective(m: seq<(Text, Text)>, n: seq<(Text, Text)>)
    requires Members(m) == Members(n) && |m| == |n|
    ensures m == n
  {
    if m != [] {
      var u := if |m| == 1 then [125] else [44] + Members(m[1..]);
      var v := if |n| == 1 then [125] else [44] + Members(n[1..]);
      MemberInjective(m[0].0, m[0].1, u, n[0].0, n[0].1, v);
      if |m| > 1 {
        assert u[1..] == Members(m[1..]) && v[1..] == Members(n[1..]);
        MembersInjective(m[1..], n[1..]);
      }
      assert m == [m[0]] + m[1..] && n == [n[0]] + n[1..];
    }
  }

  /** Text that JSON writes as it stands. */
  predicate Plainly(t: Text) {
    forall i | 0 <= i < |t| :: 32 <= t[i] && t[i] != QUOTE && t[i] != BACKSLASH
  }

  lemma {:induction false} PlainIsAsItStands(t: Text, rest: Text)
    requires Plainly(t)
    ensures EscapeOnto(t, rest) == t + [QUOTE] + rest
  {
    if t != [] {
      PlainIsAsItStands(t[1..], rest);
      assert t == [t[0]] + t[1..];
    }
  }

  function Quoted(t: Text): Text {
    [QUOTE] + t + [QUOTE]
  }

  function Named(name: Text, value: Text): Text {
    Quoted(name) + ([COLON] + Quoted(value))
  }

  lemma PlainMember(name: Text, value: Text, rest: Text)
    requires Plainly(name) && Plainly(value)
    ensures Member(name, value, rest) == Named(name, value) + rest
  {
    PlainIsAsItStands(value, rest);
    PlainIsAsItStands(name, [COLON, QUOTE] + EscapeOnto(value, rest));
    assert [COLON, QUOTE] + (value + [QUOTE] + rest) == [COLON] + Quoted(value) + rest;
  }

  lemma {:induction false} PlainAscii(s: string)
    requires forall i | 0 <= i < |s| :: ' ' <= s[i] <= 'z' && s[i] != '"' && s[i] != '\\'
    ensures Plainly(Ascii(s))
  {
  }

  /** The signed bytes of a hash and a key id in hexadecimal: one JSON object, its members in this order, with
      nothing between them but the punctuation. */
  lemma StatementIs(entryHash: Text, kid: Text)
    requires Plainly(entryHash) && Plainly(kid)
    ensures Statement(entryHash, kid)
            == [123] + (Named(Ascii("alg"), Ascii("Ed25519")) + ([44]
               + (Named(Ascii("entry_hash"), entryHash) + ([44]
               + (Named(Ascii("kid"), kid) + ([44]
               + (Named(Ascii("spec"), Ascii("jamjet.audit.entry/v1")) + [125])))))))
  {
    PlainAscii("alg");
    PlainAscii("Ed25519");
    PlainAscii("entry_hash");
    PlainAscii("kid");
    PlainAscii("spec");
    PlainAscii("jamjet.audit.entry/v1");
    MembersAre((Ascii("alg"), Ascii("Ed25519")), (Ascii("entry_hash"), entryHash), (Ascii("kid"), kid),
               (Ascii("spec"), Ascii("jamjet.audit.entry/v1")));
  }

  lemma MembersAre(a: (Text, Text), b: (Text, Text), c: (Text, Text), d: (Text, Text))
    requires forall m | m in [a, b, c, d] :: Plainly(m.0) && Plainly(m.1)
    ensures Members([a, b, c, d])
            == Named(a.0, a.1) + ([44] + (Named(b.0, b.1) + ([44] + (Named(c.0, c.1) + ([44] + (Named(d.0, d.1) + [125]))))))
  {
    PlainMember(d.0, d.1, [125]);
    PlainMember(c.0, c.1, [44] + Members([d]));
    PlainMember(b.0, b.1, [44] + Members([c, d]));
    PlainMember(a.0, a.1, [44] + Members([b, c, d]));
    assert [c, d][1..] == [d] && [b, c, d][1..] == [c, d] && [a, b, c, d][1..] == [b, c, d];
  }

  /** A statement names one hash and one key id: no signature can be read as covering another entry. */
  lemma StatementInjective(hash1: Text, kid1: Text, hash2: Text, kid2: Text)
    requires Statement(hash1, kid1) == Statement(hash2, kid2)
    ensures hash1 == hash2 && kid1 == kid2
  {
    var m, n := StatementMembers(hash1, kid1), StatementMembers(hash2, kid2);
    assert Statement(hash1, kid1)[1..] == Members(m) && Statement(hash2, kid2)[1..] == Members(n);
    MembersInjective(m, n);
    assert m[1] == n[1] && m[2] == n[2];
  }

  // ---------------------------------------------------------------------------
  // Sign and verify
  // ---------------------------------------------------------------------------

  function Prefix(): Text {
    Ascii("ed25519:")
  }

  function Sign(c: Crypto, signer: Signer, data: Text): Option<Text> {
    match signer
    case Unsigned => None
    case Ed25519Verifying(_) => None
    case Hmac(key) => Some(Encode(c.mac(key, data)))
    case Ed25519Signing(seed) =>
      var kid := Kid(c, c.publicOf(seed));
      Some(Prefix() + kid + [COLON] + Encode(c.edSign(seed, Statement(data, kid))))
  }

  /** The position of the first colon, or the length. */
  function FirstColon(t: Text): (k: nat)
    ensures k <= |t|
    ensures k < |t| ==> t[k] == COLON
    ensures forall i | 0 <= i < k :: t[i] != COLON
  {
    if t == [] || t[0] == COLON then 0 else 1 + FirstColon(t[1..])
  }

  function VerifyEd25519(c: Crypto, public: Digest, data: Text, signature: Text): bool {
    var kid := Kid(c, public);
    if |signature| < 8 || signature[..8] != Prefix() then false
    else
      var rest := signature[8..];
      var colon := FirstColon(rest);
      if colon == |rest| || rest[..colon] != kid then false
      else
        var raw := Decode(rest[colon + 1..]);
        raw.Some? && |raw.value| == 64 && c.edVerify(public, Statement(data, kid), raw.value)
  }

  function Verify(c: Crypto, signer: Signer, data: Text, signature: Text): bool {
    match signer
    case Unsigned => false
    case Hmac(key) => Decode(signature) == Some(c.mac(key, data))
    case Ed25519Signing(seed) => VerifyEd25519(c, c.publicOf(seed), data, signature)
    case Ed25519Verifying(public) => VerifyEd25519(c, public, data, signature)
  }

  lemma KidHasNoColon(c: Crypto, public: Digest)
    ensures forall i | 0 <= i < 16 :: Kid(c, public)[i] != COLON
  {
    EncodeIsLowerHex(c.hash(public));
  }

  /** A stored Ed25519 signature verifies exactly when it is the prefix, this key's id, a colon, and the
      hexadecimal form, in either case, of 64 bytes the key accepts for the statement. */
  lemma Ed25519VerifiesIff(c: Crypto, public: Digest, data: Text, signature: Text)
    ensures VerifyEd25519(c, public, data, signature) <==>
            exists raw: RawSignature ::
              && |signature| == 153 && signature[..25] == Ascii("ed25519:") + Kid(c, public) + [COLON]
              && Lower(signature[25..]) == Encode(raw)
              && c.edVerify(public, Statement(data, Kid(c, public)), raw)
  {
    if VerifyEd25519(c, public, data, signature) {
      VerifiedShape(c, public, data, signature);
    }
    if raw: RawSignature :| && |signature| == 153 && signature[..25] == Prefix() + Kid(c, public) + [COLON]
                            && Lower(signature[25..]) == Encode(raw)
                            && c.edVerify(public, Statement(data, Kid(c, public)), raw) {
      ShapeVerifies(c, public, data, signature, raw);
    }
  }

  lemma {:induction false} VerifiedShape(c: Crypto, public: Digest, data: Text, signature: Text)
    requires VerifyEd25519(c, public, data, signature)
    ensures exists raw: RawSignature ::
              && |signature| == 153 && signature[..25] == Prefix() + Kid(c, public) + [COLON]
              && Lower(signature[25..]) == Encode(raw)
              && c.edVerify(public, Statement(data, Kid(c, public)), raw)
  {
    var rest := signature[8..];
    var colon := FirstColon(rest);
    assert colon == |rest[..colon]| == 16;
    assert rest[17..] == signature[25..];
    var raw: RawSignature := Decode(rest[17..]).value;
    DecodeReads(signature[25..], raw);
    assert signature[..25] == signature[..8] + rest[..16] + [rest[16]];
  }

  lemma {:induction false} ShapeVerifies(c: Crypto, public: Digest, data: Text, signature: Text, raw: RawSignature)
    requires |signature| == 153 && signature[..25] == Prefix() + Kid(c, public) + [COLON]
    requires Lower(signature[25..]) == Encode(raw)
    requires c.edVerify(public, Statement(data, Kid(c, public)), raw)
    ensures VerifyEd25519(c, public, data, signature)
  {
    var kid, rest, head := Kid(c, public), signature[8..], signature[..25];
    KidHasNoColon(c, public);
    assert signature[..8] == head[..8] == Prefix();
    assert head[8..] == kid + [COLON];
    assert forall i | 0 <= i < 17 :: rest[i] == head[8..][i];
    assert forall i | 0 <= i < 16 :: rest[i] == (kid + [COLON])[i] == kid[i];
    assert rest[16] == (kid + [COLON])[16] == COLON;
    assert rest[..16] == kid && FirstColon(rest) == 16;
    assert rest[17..] == signature[25..];
    DecodeReads(signature[25..], raw);
  }

  /** A tag passes for a text exactly when it is the hexadecimal form, in either case, of the text's own MAC. */
  lemma HmacVerifiesIff(c: Crypto, key: seq<byte>, data: Text, signature: Text)
    ensures Verify(c, Hmac(key), data, signature) <==> Lower(signature) == Encode(c.mac(key, data))
    ensures Sign(c, Hmac(key), data) == Some(Encode(c.mac(key, data)))
  {
    DecodeReads(signature, c.mac(key, data));
  }

  /** So a tag that passes for one text passes for another exactly when the MAC does not tell the two apart. */
  lemma HmacCovers(c: Crypto, key: seq<byte>, one: Text, two: Text, signature: Text)
    requires Verify(c, Hmac(key), one, signature)
    ensures Verify(c, Hmac(key), two, signature) <==> c.mac(key, one) == c.mac(key, two)
  {
    HmacVerifiesIff(c, key, one, signature);
    HmacVerifiesIff(c, key, two, signature);
    if c.mac(key, one) != c.mac(key, two) && Encode(c.mac(key, one)) == Encode(c.mac(key, two)) {
      EncodeInjective(c.mac(key, one), c.mac(key, two));
    }
  }

  /** And an Ed25519 signature that passes for two texts is one the key accepts for two different statements. */
  lemma Ed25519Covers(c: Crypto, public: Digest, one: Text, two: Text, signature: Text)
    requires Verify(c, Ed25519Verifying(public), one, signature) && Verify(c, Ed25519Verifying(public), two, signature)
    ensures exists raw: RawSignature ::
              && c.edVerify(public, Statement(one, Kid(c, public)), raw)
              && c.edVerify(public, Statement(two, Kid(c, public)), raw)
    ensures one != two ==> Statement(one, Kid(c, public)) != Statement(two, Kid(c, public))
  {
    Ed25519VerifiesIff(c, public, one, signature);
    Ed25519VerifiesIff(c, public, two, signature);
    var raw: RawSignature :| Lower(signature[25..]) == Encode(raw)
                             && c.edVerify(public, Statement(one, Kid(c, public)), raw);
    var again: RawSignature :| Lower(signature[25..]) == Encode(again)
                               && c.edVerify(public, Statement(two, Kid(c, public)), again);
    EncodeInjective(raw, again);
    if one != two && Statement(one, Kid(c, public)) == Statement(two, Kid(c, public)) {
      StatementInjective(one, Kid(c, public), two, Kid(c, public));
    }
  }

  /** The key id is the first eight bytes of the public key's hash. */
  lemma KidIs(c: Crypto, public: Digest)
    ensures Decode(Kid(c, public)) == Some(c.hash(public)[..8])
  {
    EncodeConcat(c.hash(public)[..8], c.hash(public)[8..]);
    assert c.hash(public)[..8] + c.hash(public)[8..] == c.hash(public);
    assert Kid(c, public) == Encode(c.hash(public)[..8]);
    RoundTrip(c.hash(public)[..8]);
  }

  lemma {:induction false} EncodeConcat(a: seq<byte>, b: seq<byte>)
    ensures Encode(a + b) == Encode(a) + Encode(b)
  {
    if a == [] {
      assert a + b == b;
    } else {
      assert (a + b)[1..] == a[1..] + b;
      EncodeConcat(a[1..], b);
    }
  }

  /** What a signer signs, the signer and the holder of its public half verify. */
  lemma SignedVerifies(c: Crypto, signer: Signer, data: Text)
    requires c.Correct() && signer.CanSign()
    ensures Sign(c, signer, data).Some?
    ensures Verify(c, signer, data, Sign(c, signer, data).value)
    ensures signer.Ed25519Signing? ==>
              Verify(c, Ed25519Verifying(c.publicOf(signer.seed)), data, Sign(c, signer, data).value)
  {
    match signer
    case Hmac(key) => RoundTrip(c.mac(key, data));
    case Ed25519Signing(seed) =>
      var kid := Kid(c, c.publicOf(seed));
      var raw := c.edSign(seed, Statement(data, kid));
      var signature := Sign(c, signer, data).value;
      assert signature[..25] == Prefix() + kid + [COLON] && signature[25..] == Encode(raw);
      EncodeIsLowerHex(raw);
      Ed25519VerifiesIff(c, c.publicOf(seed), data, signature);
  }

  /** Without a key nothing verifies and nothing is signed; a public key signs nothing. */
  lemma KeylessSigns(c: Crypto, public: Digest, data: Text, signature: Text)
    ensures !Verify(c, Unsigned, data, signature)
    ensures Sign(c, Unsigned, data).None? && Sign(c, Ed25519Verifying(public), data).None?
  {
  }

  /** No signature of one mode passes for one of the other, whoever made it and whatever it covers. */
  lemma ModesNeverMix(c: Crypto, key: seq<byte>, public: Digest, data: Text, other: Text, signature: Text)
    requires Verify(c, Hmac(key), data, signature)
    ensures !Verify(c, Ed25519Verifying(public), other, signature)
  {
    DecodesHex(signature);
    assert Prefix()[7] == COLON && Value(COLON).None?;
    assert |signature| >= 8 ==> signature[..8][7] == signature[7];
  }

  /** A signature verifies under one key id only. */
  lemma OneKeyId(c: Crypto, one: Digest, two: Digest, data: Text, other: Text, signature: Text)
    requires VerifyEd25519(c, one, data, signature) && VerifyEd25519(c, two, other, signature)
    ensures Kid(c, one) == Kid(c, two)
  {
    Ed25519VerifiesIff(c, one, data, signature);
    Ed25519VerifiesIff(c, two, other, signature);
    assert (Prefix() + Kid(c, one) + [COLON])[8..24] == Kid(c, one);
    assert (Prefix() + Kid(c, two) + [COLON])[8..24] == Kid(c, two);
  }
}
