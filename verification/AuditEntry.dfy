/**
 Audit entries and the byte stream their content hash is taken over (runtime/audit/src/entry.rs): nineteen
 fields, each followed by one separator byte, of which three are raw and may contain that byte.
 */
module AuditEntry {
  import opened Wrappers
  import opened Hex
  import opened AuditSigner

  type Uuid = d: seq<byte> | |d| == 16 witness seq(16, i => 0)
  type Int64 = x: int | -0x8000_0000_0000_0000 <= x <= 0x7fff_ffff_ffff_ffff

  datatype ActorType = Human | Agent | System
  {
    function AsStr(): Text {
      match this
      case Human => Ascii("human")
      case Agent => Ascii("agent")
      case System => Ascii("system")
    }
  }

  /** Every hashed field but `prev_hash`. Times and the raw event stand in their stored textual form. */
  datatype Content = Content(
    id: Uuid, eventId: Uuid, executionId: Text, sequence: Int64, eventType: Text, actorId: Text,
    actorType: ActorType, toolCallHash: Option<Text>, policyDecision: Option<Text>, httpRequestId: Option<Text>,
    httpMethod: Option<Text>, httpPath: Option<Text>, ipAddress: Option<Text>, createdAt: Text, rawEvent: Text,
    tenantId: Text, expiresAt: Option<Text>, redacted: bool)

  datatype Entry = Entry(content: Content, prevHash: Option<Text>, entryHash: Option<Text>, signature: Option<Text>)

  const SEP: byte := 0x1f

  function Plain(t: Option<Text>): Text {
    if t.Some? then t.value else []
  }

  /** The low `width` bytes of the two's complement form, least significant first. */
  function LittleEndian(n: int, width: nat): (bs: seq<byte>)
    ensures |bs| == width
    decreases width
  {
    if width == 0 then [] else [n % 256] + LittleEndian(n / 256, width - 1)
  }

  function Identity(e: Content): (fields: seq<seq<byte>>) {
    [e.id, e.eventId, e.executionId, LittleEndian(e.sequence, 8)]
  }

  function Details(e: Content, prev: Option<Text>): (fields: seq<seq<byte>>) {
    [e.actorType.AsStr(), Plain(e.toolCallHash), Plain(e.policyDecision), Plain(e.httpRequestId), Plain(e.httpMethod),
     Plain(e.httpPath), Plain(e.ipAddress), e.createdAt, e.rawEvent, e.tenantId, Plain(e.expiresAt),
     [if e.redacted then 1 else 0], Plain(prev)]
  }

  /** In the order they are hashed. */
  function Fields(e: Content, prev: Option<Text>): (fields: seq<seq<byte>>) {
    Identity(e) + ([e.eventType, e.actorId] + Details(e, prev))
  }

  function Join(fields: seq<seq<byte>>): seq<byte> {
    if fields == [] then [] else fields[0] + ([SEP] + Join(fields[1..]))
  }

  function Stream(e: Content, prev: Option<Text>): seq<byte> {
    Join(Fields(e, prev))
  }

  /** The nineteen fields, one by one in the order they are hashed. */
  lemma FieldsAre(e: Content, prev: Option<Text>)
    ensures var f := Fields(e, prev);
            && |f| == 19 && f[0] == e.id && f[1] == e.eventId && f[2] == e.executionId && f[3] == LittleEndian(e.sequence, 8)
            && f[4] == e.eventType && f[5] == e.actorId && f[6] == e.actorType.AsStr()
            && f[7] == Plain(e.toolCallHash) && f[8] == Plain(e.policyDecision) && f[9] == Plain(e.httpRequestId)
            && f[10] == Plain(e.httpMethod) && f[11] == Plain(e.httpPath) && f[12] == Plain(e.ipAddress)
            && f[13] == e.createdAt && f[14] == e.rawEvent && f[15] == e.tenantId && f[16] == Plain(e.expiresAt)
            && f[17] == (if e.redacted then [1] else [0]) && f[18] == Plain(prev)
    ensures Plain(None) == [] && forall t :: Plain(Some(t)) == t
  {
    var fields, rest := Fields(e, prev), Details(e, prev);
    assert forall k | 0 <= k < 13 :: fields[6 + k] == rest[k];
  }

  /** The stream is fed to the hasher field by field. */
  method HashedBytes(e: Content, prev: Option<Text>) returns (fed: seq<byte>)
    ensures fed == Stream(e, prev)
  {
    var fields := Fields(e, prev);
    fed := [];
    for k := 0 to |fields|
      invariant fed == Join(fields[..k])
    {
      JoinPrefix(fields[..k], [fields[k]]);
      JoinOne(fields[k]);
      assert fields[..k + 1] == fields[..k] + [fields[k]];
      fed := fed + (fields[k] + [SEP]);
    }
    assert fields[..|fields|] == fields;
  }

  lemma JoinOne(f: seq<byte>)
    ensures Join([f]) == f + [SEP]
  {
    assert [f][1..] == [];
  }

  function ContentHash(c: Crypto, e: Content, prev: Option<Text>): (h: Text)
    ensures |h| == 64
  {
    Encode(c.hash(Stream(e, prev)))
  }

  // ---------------------------------------------------------------------------
  // Reading the stream back
  // ---------------------------------------------------------------------------

  predicate Free(t: seq<byte>) {
    forall i | 0 <= i < |t| :: t[i] != SEP
  }

  /** Of two fields in the same place: as wide as each other, or free of the separator. */
  predicate Alike(f: seq<byte>, g: seq<byte>) {
    |f| == |g| || (Free(f) && Free(g))
  }

  predicate AllAlike(fs: seq<seq<byte>>, gs: seq<seq<byte>>) {
    |fs| == |gs| && forall i | 0 <= i < |fs| :: Alike(fs[i], gs[i])
  }

  lemma AlikeConcat(a: seq<seq<byte>>, b: seq<seq<byte>>, c: seq<seq<byte>>, d: seq<seq<byte>>)
    requires AllAlike(a, c) && AllAlike(b, d)
    ensures AllAlike(a + b, c + d)
  {
  }

  lemma SplitConcat(a: seq<seq<byte>>, b: seq<seq<byte>>, c: seq<seq<byte>>, d: seq<seq<byte>>)
    requires a + b == c + d && |a| == |c|
    ensures a == c && b == d
  {
    assert a == (a + b)[..|a|] && c == (c + d)[..|a|];
    assert b == (a + b)[|a|..] && d == (c + d)[|a|..];
  }

  lemma FieldEnds(f: seq<byte>, g: seq<byte>, u: seq<byte>, v: seq<byte>)
    requires Alike(f, g) && f + ([SEP] + u) == g + ([SEP] + v)
    ensures f == g && u == v
  {
    var l, r := f + ([SEP] + u), g + ([SEP] + v);
    assert l[|f|] == SEP && r[|g|] == SEP;
    assert forall i | 0 <= i < |f| :: l[i] == f[i];
    assert forall i | 0 <= i < |g| :: r[i] == g[i];
    if |f| == |g| {
      assert f == l[..|f|] && g == r[..|f|];
      assert u == l[|f| + 1..] && v == r[|f| + 1..];
    }
  }

  lemma {:induction false} JoinInjective(fs: seq<seq<byte>>, gs: seq<seq<byte>>)
    requires AllAlike(fs, gs) && Join(fs) == Join(gs)
    ensures fs == gs
  {
    if fs != [] {
      FieldEnds(fs[0], gs[0], Join(fs[1..]), Join(gs[1..]));
      JoinInjective(fs[1..], gs[1..]);
      assert fs == [fs[0]] + fs[1..] && gs == [gs[0]] + gs[1..];
    }
  }

  /** Byte `k` is the digit of weight 256 to the `k`. */
  lemma {:induction false} LittleEndianIs(n: int, width: nat, k: nat)
    requires k < width
    ensures Power(k) > 0 && LittleEndian(n, width)[k] == (n / Power(k)) % 256
    decreases width
  {
    if k > 0 {
      LittleEndianIs(n / 256, width - 1, k - 1);
      DivideTwice(n, Power(k - 1));
    }
  }

  lemma DivideTwice(n: int, p: nat)
    requires p > 0
    ensures (n / 256) / p == n / (256 * p)
  {
    var q, r := n / 256, n % 256;
    var s, t := q / p, q % p;
    assert n == 256 * q + r && q == p * s + t;
    assert n == (256 * p) * s + (256 * t + r);
    assert 0 <= 256 * t + r < 256 * p;
    Quotient(256 * p, s, 256 * t + r);
  }

  lemma Quotient(d: nat, q: int, r: nat)
    requires r < d
    ensures (d * q + r) / d == q
  {
    var k := (d * q + r) / d - q;
    assert k * d == r - (d * q + r) % d;
    if k != 0 {
      MultipleIsFar(k, d);
    }
  }

  lemma {:induction false} MultipleIsFar(k: int, d: int)
    requires d > 0 && k != 0
    ensures k * d >= d || k * d <= -d
    decreases if k > 0 then k else -k
  {
    if k > 1 {
      MultipleIsFar(k - 1, d);
    } else if k < -1 {
      MultipleIsFar(k + 1, d);
    }
  }

  lemma {:induction false} LittleEndianInjective(m: int, n: int, width: nat) returns (q: int)
    requires LittleEndian(m, width) == LittleEndian(n, width)
    ensures m - n == q * Power(width)
    decreases width
  {
    if width == 0 {
      q := m - n;
    } else {
      LowByte(m, n, width);
      q := LittleEndianInjective(m / 256, n / 256, width - 1);
      Scale(m / 256 - n / 256, q, Power(width - 1));
    }
  }

  lemma LowByte(m: int, n: int, width: nat)
    requires width > 0 && LittleEndian(m, width) == LittleEndian(n, width)
    ensures m - n == 256 * (m / 256 - n / 256)
    ensures LittleEndian(m / 256, width - 1) == LittleEndian(n / 256, width - 1)
  {
    var a, b := LittleEndian(m, width), LittleEndian(n, width);
    assert a[0] == m % 256 && b[0] == n % 256;
    assert a[1..] == LittleEndian(m / 256, width - 1) && b[1..] == LittleEndian(n / 256, width - 1);
  }

  lemma Scale(d: int, q: int, p: int)
    requires d == q * p
    ensures 256 * d == q * (256 * p)
  {
  }

  function Power(width: nat): nat {
    if width == 0 then 1 else 256 * Power(width - 1)
  }

  lemma SequenceInjective(m: Int64, n: Int64)
    requires LittleEndian(m, 8) == LittleEndian(n, 8)
    ensures m == n
  {
    var q := LittleEndianInjective(m, n, 8);
    assert Power(8) == 0x1_0000_0000_0000_0000;
    assert q == 0;
  }

  predicate Clean(e: Content, prev: Option<Text>) {
    && Free(e.executionId) && Free(e.eventType) && Free(e.actorId)
    && Free(Plain(e.toolCallHash)) && Free(Plain(e.policyDecision)) && Free(Plain(e.httpRequestId))
    && Free(Plain(e.httpMethod)) && Free(Plain(e.httpPath)) && Free(Plain(e.ipAddress))
    && Free(e.createdAt) && Free(e.rawEvent) && Free(e.tenantId) && Free(Plain(e.expiresAt)) && Free(Plain(prev))
  }

  /** Equal but for absent against empty. */
  predicate SameContent(e: Content, f: Content) {
    && f == e.(toolCallHash := f.toolCallHash, policyDecision := f.policyDecision, httpRequestId := f.httpRequestId,
               httpMethod := f.httpMethod, httpPath := f.httpPath, ipAddress := f.ipAddress, expiresAt := f.expiresAt)
    && Plain(e.toolCallHash) == Plain(f.toolCallHash) && Plain(e.policyDecision) == Plain(f.policyDecision)
    && Plain(e.httpRequestId) == Plain(f.httpRequestId) && Plain(e.httpMethod) == Plain(f.httpMethod)
    && Plain(e.httpPath) == Plain(f.httpPath) && Plain(e.ipAddress) == Plain(f.ipAddress)
    && Plain(e.expiresAt) == Plain(f.expiresAt)
  }

  lemma ActorNames(a: ActorType, b: ActorType)
    ensures Free(a.AsStr())
    ensures a.AsStr() == b.AsStr() ==> a == b
  {
    assert Ascii("human")[0] == 104 && Ascii("agent")[0] == 97 && Ascii("system")[0] == 115;
    assert |Ascii("human")| == 5 && |Ascii("agent")| == 5 && |Ascii("system")| == 6;
    forall i | 0 <= i < |a.AsStr()| ensures a.AsStr()[i] != SEP {
      assert a.AsStr()[i] >= 97;
    }
  }

  lemma {:induction false} FieldsAlike(e: Content, prev: Option<Text>, f: Content, other: Option<Text>)
    requires Clean(e, prev) && Clean(f, other)
    ensures AllAlike(Fields(e, prev), Fields(f, other))
  {
    ActorNames(e.actorType, f.actorType);
    ActorNames(f.actorType, e.actorType);
    var es, fs := [e.eventType, e.actorId], [f.eventType, f.actorId];
    AlikeConcat(es, Details(e, prev), fs, Details(f, other));
    AlikeConcat(Identity(e), es + Details(e, prev), Identity(f), fs + Details(f, other));
  }

  /** The stream is injective on the hashed content, up to absent against empty, when no text field holds
      the separator; the identifiers, the sequence and the flag may, because their widths are fixed. */
  lemma StreamInjective(e: Content, prev: Option<Text>, f: Content, other: Option<Text>)
    requires Clean(e, prev) && Clean(f, other)
    ensures Stream(e, prev) == Stream(f, other) <==> SameContent(e, f) && Plain(prev) == Plain(other)
  {
    var es, fs := Fields(e, prev), Fields(f, other);
    if Stream(e, prev) == Stream(f, other) {
      FieldsAlike(e, prev, f, other);
      JoinInjective(es, fs);
      SameFields(e, prev, f, other);
    }
    if SameContent(e, f) && Plain(prev) == Plain(other) {
      assert es == fs;
    }
  }

  lemma SameFields(e: Content, prev: Option<Text>, f: Content, other: Option<Text>)
    requires Fields(e, prev) == Fields(f, other)
    ensures SameContent(e, f) && Plain(prev) == Plain(other)
  {
    var es, fs := [e.eventType, e.actorId], [f.eventType, f.actorId];
    SplitConcat(Identity(e), es + Details(e, prev), Identity(f), fs + Details(f, other));
    SplitConcat(es, Details(e, prev), fs, Details(f, other));
    assert es[0] == fs[0] && es[1] == fs[1];
    SameIdentity(e, f);
    SameDetails(e, prev, f, other);
  }

  lemma SameIdentity(e: Content, f: Content)
    requires Identity(e) == Identity(f)
    ensures e.id == f.id && e.eventId == f.eventId && e.executionId == f.executionId && e.sequence == f.sequence
  {
    var es, fs := Identity(e), Identity(f);
    assert es[0] == fs[0] && es[1] == fs[1] && es[2] == fs[2] && es[3] == fs[3];
    SequenceInjective(e.sequence, f.sequence);
  }

  lemma SameDetails(e: Content, prev: Option<Text>, f: Content, other: Option<Text>)
    requires Details(e, prev) == Details(f, other)
    ensures e.actorType == f.actorType && Plain(e.toolCallHash) == Plain(f.toolCallHash)
    ensures Plain(e.policyDecision) == Plain(f.policyDecision) && Plain(e.httpRequestId) == Plain(f.httpRequestId)
    ensures Plain(e.httpMethod) == Plain(f.httpMethod) && Plain(e.httpPath) == Plain(f.httpPath)
    ensures Plain(e.ipAddress) == Plain(f.ipAddress) && e.createdAt == f.createdAt && e.rawEvent == f.rawEvent
    ensures e.tenantId == f.tenantId && Plain(e.expiresAt) == Plain(f.expiresAt) && e.redacted == f.redacted
    ensures Plain(prev) == Plain(other)
  {
    var es, fs := Details(e, prev), Details(f, other);
    assert es[0] == fs[0] && es[1] == fs[1] && es[2] == fs[2] && es[3] == fs[3] && es[4] == fs[4] && es[5] == fs[5];
    assert es[6] == fs[6] && es[7] == fs[7] && es[8] == fs[8] && es[9] == fs[9] && es[10] == fs[10];
    assert es[11] == fs[11] && es[12] == fs[12];
    ActorNames(e.actorType, f.actorType);
    assert es[11][0] == fs[11][0];
  }

  /** Without that condition the stream does not tell entries apart: a separator moved from the actor into
      the event type gives the same bytes. */
  lemma SeparatorsCanCollide(e: Content, prev: Option<Text>)
    ensures var one := e.(eventType := [97, SEP, 98], actorId := [99]);
            var two := e.(eventType := [97], actorId := [98, SEP, 99]);
            Stream(one, prev) == Stream(two, prev) && !SameContent(one, two)
  {
    var pre, post := Identity(e), Details(e, prev);
    assert [97] + ([SEP] + [98]) == [97, SEP, 98] && [98] + ([SEP] + [99]) == [98, SEP, 99];
    JoinPrefix(pre, [[97, SEP, 98], [99]] + post);
    JoinPrefix(pre, [[97], [98, SEP, 99]] + post);
    MovedSeparator([97], [98], [99], post);
    assert [97, SEP, 98] != [97];
  }

  lemma MovedSeparator(a: seq<byte>, b: seq<byte>, c: seq<byte>, rest: seq<seq<byte>>)
    ensures Join([a + ([SEP] + b), c] + rest) == Join([a, b + ([SEP] + c)] + rest)
  {
    JoinTwo(a + ([SEP] + b), c, rest);
    JoinTwo(a, b + ([SEP] + c), rest);
    var tail := [SEP] + Join(rest);
    assert (a + ([SEP] + b)) + ([SEP] + (c + tail)) == a + ([SEP] + (b + ([SEP] + c) + tail));
  }

  lemma JoinTwo(f: seq<byte>, g: seq<byte>, rest: seq<seq<byte>>)
    ensures Join([f, g] + rest) == f + ([SEP] + (g + ([SEP] + Join(rest))))
  {
    assert ([f, g] + rest)[1..] == [g] + rest && ([g] + rest)[1..] == rest;
  }

  lemma {:induction false} JoinPrefix(fs: seq<seq<byte>>, gs: seq<seq<byte>>)
    ensures Join(fs + gs) == Join(fs) + Join(gs)
  {
    if fs == [] {
      assert fs + gs == gs;
    } else {
      assert (fs + gs)[1..] == fs[1..] + gs;
      JoinPrefix(fs[1..], gs);
    }
  }

  // ---------------------------------------------------------------------------
  // Sealing
  // ---------------------------------------------------------------------------

  function Sealed(c: Crypto, e: Content, prev: Option<Text>, signer: Signer): Entry {
    var h := ContentHash(c, e, prev);
    Entry(e, prev, Some(h), Sign(c, signer, h))
  }

  class AuditLogEntry {
    const content: Content
    var prevHash: Option<Text>
    var entryHash: Option<Text>
    var signature: Option<Text>

    function Row(): Entry
      reads this
    {
      Entry(content, prevHash, entryHash, signature)
    }

    constructor (content: Content)
      ensures Row() == Entry(content, None, None, None)
    {
      this.content := content;
      prevHash, entryHash, signature := None, None, None;
    }

    /** Sealing depends on nothing the entry was sealed with before. */
    method Seal(c: Crypto, prev: Option<Text>, signer: Signer)
      modifies this
      ensures Row() == Sealed(c, content, prev, signer)
    {
      var bytes := HashedBytes(content, prev);
      var hash := Encode(c.hash(bytes));
      signature := Sign(c, signer, hash);
      entryHash := Some(hash);
      prevHash := prev;
    }
  }
}
