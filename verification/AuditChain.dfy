/**
 The verifier of a sealed log (runtime/audit/src/chain.rs) and what its acceptance is worth: two accepted
 logs with one last hash are the same log, or hold between them two byte streams that collide.
 */
module AuditChain {
  import opened Wrappers
  import opened Hex
  import opened AuditSigner
  import opened AuditEntry

  datatype Fault = Unsealed | Unsigned | BrokenLink | HashMismatch | BadSignature

  datatype ChainError = ChainError(index: nat, fault: Fault)

  /** What the entry at `i` has to link to: nothing at the start, else its predecessor's recorded hash. */
  function LinkAt(entries: seq<Entry>, i: nat): Option<Text>
    requires i <= |entries|
  {
    if i == 0 then None else entries[i - 1].entryHash
  }

  /** The first thing wrong with the entry at `i`, in the order the verifier looks. */
  function FaultAt(c: Crypto, signer: Signer, entries: seq<Entry>, i: nat): Option<Fault>
    requires i < |entries|
  {
    var e := entries[i];
    if e.entryHash.None? then Some(Unsealed)
    else if e.signature.None? then Some(Fault.Unsigned)
    else if e.prevHash != LinkAt(entries, i) then Some(BrokenLink)
    else if ContentHash(c, e.content, e.prevHash) != e.entryHash.value then Some(HashMismatch)
    else if !Verify(c, signer, e.entryHash.value, e.signature.value) then Some(BadSignature)
    else None
  }

  predicate Accepts(c: Crypto, signer: Signer, entries: seq<Entry>) {
    forall i | 0 <= i < |entries| :: FaultAt(c, signer, entries, i).None?
  }

  /** `verify_chain`: accepts exactly the faultless logs, and otherwise names the first faulty entry and the
      first fault in it. */
  method VerifyChain(c: Crypto, entries: seq<Entry>, signer: Signer) returns (result: Result<(), ChainError>)
    ensures result.Ok? <==> Accepts(c, signer, entries)
    ensures result.Err? ==>
              && result.error.index < |entries|
              && FaultAt(c, signer, entries, result.error.index) == Some(result.error.fault)
              && forall j | 0 <= j < result.error.index :: FaultAt(c, signer, entries, j).None?
  {
    var prev: Option<Text> := None;
    for index := 0 to |entries|
      invariant prev == LinkAt(entries, index)
      invariant forall j | 0 <= j < index :: FaultAt(c, signer, entries, j).None?
    {
      var entry := entries[index];
      ghost var fault := FaultAt(c, signer, entries, index);
      if entry.entryHash.None? { return Err(ChainError(index, Unsealed)); }
      if entry.signature.None? { return Err(ChainError(index, Fault.Unsigned)); }
      if entry.prevHash != prev { return Err(ChainError(index, BrokenLink)); }
      var recomputed := ContentHash(c, entry.content, entry.prevHash);
      if recomputed != entry.entryHash.value { return Err(ChainError(index, HashMismatch)); }
      if !Verify(c, signer, entry.entryHash.value, entry.signature.value) {
        return Err(ChainError(index, BadSignature));
      }
      prev := entry.entryHash;
    }
    return Ok(());
  }

  /** `verify_entry`: the entry's own hash and signature, without its link. */
  function VerifyEntry(c: Crypto, e: Entry, signer: Signer): Option<Fault> {
    if e.entryHash.None? then Some(Unsealed)
    else if e.signature.None? then Some(Fault.Unsigned)
    else if ContentHash(c, e.content, e.prevHash) != e.entryHash.value then Some(HashMismatch)
    else if !Verify(c, signer, e.entryHash.value, e.signature.value) then Some(BadSignature)
    else None
  }

  /** A log is accepted exactly when every entry verifies on its own and links to the one before it. */
  lemma ChainIsEntriesAndLinks(c: Crypto, signer: Signer, entries: seq<Entry>)
    ensures Accepts(c, signer, entries) <==>
            forall i | 0 <= i < |entries| ::
              VerifyEntry(c, entries[i], signer).None? && entries[i].prevHash == LinkAt(entries, i)
  {
    forall i | 0 <= i < |entries|
      ensures FaultAt(c, signer, entries, i).None? <==>
              VerifyEntry(c, entries[i], signer).None? && entries[i].prevHash == LinkAt(entries, i)
    {
    }
    if Accepts(c, signer, entries) {
      forall i | 0 <= i < |entries|
        ensures VerifyEntry(c, entries[i], signer).None? && entries[i].prevHash == LinkAt(entries, i)
      {
        assert FaultAt(c, signer, entries, i).None?;
      }
    }
  }

  lemma FaultDependsOnThePast(c: Crypto, signer: Signer, entries: seq<Entry>, n: nat, i: nat)
    requires i < n <= |entries|
    ensures FaultAt(c, signer, entries[..n], i) == FaultAt(c, signer, entries, i)
  {
    assert LinkAt(entries[..n], i) == LinkAt(entries, i);
  }

  /** An entry put in the place of an accepted one, keeping its tag, verifies exactly when its hash is that of its
      content and the MAC does not tell the new hash from the old. */
  lemma KeptTagIff(c: Crypto, key: seq<byte>, entries: seq<Entry>, i: nat, e: Entry)
    requires i < |entries| && Accepts(c, Hmac(key), entries)
    requires e.signature == entries[i].signature && e.entryHash.Some?
    ensures entries[i].entryHash.Some?
    ensures VerifyEntry(c, e, Hmac(key)).None? <==>
            && ContentHash(c, e.content, e.prevHash) == e.entryHash.value
            && c.mac(key, e.entryHash.value) == c.mac(key, entries[i].entryHash.value)
    ensures Accepts(c, Hmac(key), entries[i := e]) ==>
              c.mac(key, e.entryHash.value) == c.mac(key, entries[i].entryHash.value)
  {
    assert FaultAt(c, Hmac(key), entries, i).None?;
    HmacCovers(c, key, entries[i].entryHash.value, e.entryHash.value, e.signature.value);
    if Accepts(c, Hmac(key), entries[i := e]) {
      ChainIsEntriesAndLinks(c, Hmac(key), entries[i := e]);
      assert VerifyEntry(c, entries[i := e][i], Hmac(key)).None?;
    }
  }

  /** Under Ed25519 it verifies only if the key accepts one signature for the statements of both hashes. */
  lemma KeptSignature(c: Crypto, public: Digest, entries: seq<Entry>, i: nat, e: Entry)
    requires i < |entries| && Accepts(c, Ed25519Verifying(public), entries)
    requires e.signature == entries[i].signature && VerifyEntry(c, e, Ed25519Verifying(public)).None?
    ensures entries[i].entryHash.Some? && e.entryHash.Some?
    ensures exists raw: RawSignature ::
              && c.edVerify(public, Statement(entries[i].entryHash.value, Kid(c, public)), raw)
              && c.edVerify(public, Statement(e.entryHash.value, Kid(c, public)), raw)
  {
    assert FaultAt(c, Ed25519Verifying(public), entries, i).None?;
    Ed25519Covers(c, public, entries[i].entryHash.value, e.entryHash.value, e.signature.value);
  }

  /** A verifier without a key accepts no entry. */
  lemma UnsignedAcceptsNothing(c: Crypto, entries: seq<Entry>)
    ensures Accepts(c, Signer.Unsigned, entries) <==> entries == []
  {
    if entries != [] {
      assert FaultAt(c, Signer.Unsigned, entries, 0).Some?;
    }
  }

  /** Every prefix of an accepted log is accepted, and a log is accepted exactly when a prefix is and the
      rest is faultless. */
  lemma AcceptanceIsPrefixClosed(c: Crypto, signer: Signer, entries: seq<Entry>, n: nat)
    requires n <= |entries|
    ensures Accepts(c, signer, entries) <==>
            && Accepts(c, signer, entries[..n])
            && forall i | n <= i < |entries| :: FaultAt(c, signer, entries, i).None?
  {
    forall i | 0 <= i < n ensures FaultAt(c, signer, entries[..n], i) == FaultAt(c, signer, entries, i) {
      FaultDependsOnThePast(c, signer, entries, n, i);
    }
    if Accepts(c, signer, entries[..n]) {
      forall i | 0 <= i < n ensures FaultAt(c, signer, entries, i).None? {
        assert FaultAt(c, signer, entries[..n], i).None?;
      }
    }
  }

  function LastHash(entries: seq<Entry>): Option<Text> {
    LinkAt(entries, |entries|)
  }

  predicate AllClean(entries: seq<Entry>) {
    forall i | 0 <= i < |entries| :: Clean(entries[i].content, entries[i].prevHash)
  }

  predicate SameLog(a: seq<Entry>, b: seq<Entry>) {
    && |a| == |b|
    && forall i | 0 <= i < |a| ::
         SameContent(a[i].content, b[i].content) && a[i].prevHash == b[i].prevHash && a[i].entryHash == b[i].entryHash
  }

  function StreamOf(e: Entry): seq<byte> {
    Stream(e.content, e.prevHash)
  }

  /** Two entries hashed from different bytes to the same hash. */
  predicate Collide(c: Crypto, e: Entry, f: Entry) {
    StreamOf(e) != StreamOf(f) && c.hash(StreamOf(e)) == c.hash(StreamOf(f))
  }

  /** An entry of one log and an entry of the other whose streams collide. */
  predicate LogsCollide(c: Crypto, a: seq<Entry>, b: seq<Entry>) {
    exists i, j | 0 <= i < |a| && 0 <= j < |b| :: Collide(c, a[i], b[j])
  }

  lemma {:induction false} SameHashSameEntry(c: Crypto, one: Signer, two: Signer, a: seq<Entry>, i: nat, b: seq<Entry>, j: nat)
    requires AllClean(a) && AllClean(b) && i < |a| && j < |b|
    requires FaultAt(c, one, a, i).None? && FaultAt(c, two, b, j).None? && a[i].entryHash == b[j].entryHash
    ensures || Collide(c, a[i], b[j])
            || (SameContent(a[i].content, b[j].content) && Plain(a[i].prevHash) == Plain(b[j].prevHash))
  {
    var e, f := a[i], b[j];
    EncodeInjective(c.hash(StreamOf(e)), c.hash(StreamOf(f)));
    StreamInjective(e.content, e.prevHash, f.content, f.prevHash);
  }

  /** Tamper evidence. Two accepted logs that end in the same hash are the same log: as long as each other,
      with the same hashed content, link and hash at every position. The only other way is to have found
      a collision of the hash, and then the two logs hold it. So a log whose last hash was recorded elsewhere
      cannot be altered, shortened, extended or reordered and still be accepted, short of that. */
  lemma {:induction false} LastHashDeterminesTheLog(c: Crypto, one: Signer, two: Signer, a: seq<Entry>, b: seq<Entry>)
    requires AllClean(a) && AllClean(b)
    requires Accepts(c, one, a) && Accepts(c, two, b) && LastHash(a) == LastHash(b)
    ensures SameLog(a, b) || LogsCollide(c, a, b)
    decreases |a|
  {
    SealedHasAHash(c, one, a);
    SealedHasAHash(c, two, b);
    if a != [] {
      var m, n := |a| - 1, |b| - 1;
      AcceptedLast(c, one, a);
      AcceptedLast(c, two, b);
      LastEntriesAgree(c, one, two, a, b);
      if !Collide(c, a[m], b[n]) {
        PrefixIsAccepted(c, one, a, m);
        PrefixIsAccepted(c, two, b, n);
        LastHashDeterminesTheLog(c, one, two, a[..m], b[..n]);
        if SameLog(a[..m], b[..n]) {
          SameLogExtends(a, b);
        } else {
          CollisionExtends(c, a, b, m, n);
        }
      }
    }
  }

  lemma PrefixIsAccepted(c: Crypto, signer: Signer, a: seq<Entry>, m: nat)
    requires m <= |a| && Accepts(c, signer, a) && AllClean(a)
    ensures Accepts(c, signer, a[..m]) && AllClean(a[..m])
  {
    AcceptanceIsPrefixClosed(c, signer, a, m);
    assert forall i | 0 <= i < m :: a[..m][i] == a[i];
  }

  lemma CollisionExtends(c: Crypto, a: seq<Entry>, b: seq<Entry>, m: nat, n: nat)
    requires m <= |a| && n <= |b| && LogsCollide(c, a[..m], b[..n])
    ensures LogsCollide(c, a, b)
  {
    var i, j :| 0 <= i < m && 0 <= j < n && Collide(c, a[..m][i], b[..n][j]);
    assert Collide(c, a[i], b[j]);
  }

  /** And a collision is enough: two contents whose first streams collide, sealed by anybody, are two
      different accepted logs with one last hash. */
  lemma CollisionMakesTwoLogs(c: Crypto, signer: Signer, e: Content, f: Content)
    requires c.Correct() && signer.CanSign() && Clean(e, None) && Clean(f, None)
    requires Collide(c, Sealed(c, e, None, signer), Sealed(c, f, None, signer))
    ensures var a, b := [Sealed(c, e, None, signer)], [Sealed(c, f, None, signer)];
            && Accepts(c, signer, a) && Accepts(c, signer, b) && LastHash(a) == LastHash(b)
            && LogsCollide(c, a, b) && !SameLog(a, b)
  {
    var a, b := [Sealed(c, e, None, signer)], [Sealed(c, f, None, signer)];
    SealExtendsIff(c, signer, [], e, None);
    SealExtendsIff(c, signer, [], f, None);
    assert [] + a == a && [] + b == b;
    StreamInjective(e, None, f, None);
    assert Collide(c, a[0], b[0]);
  }

  lemma SameLogExtends(a: seq<Entry>, b: seq<Entry>)
    requires |a| > 0 && |b| > 0 && SameLog(a[..|a| - 1], b[..|b| - 1])
    requires var e, f := a[|a| - 1], b[|b| - 1];
             SameContent(e.content, f.content) && e.prevHash == f.prevHash && e.entryHash == f.entryHash
    ensures SameLog(a, b)
  {
    forall i | 0 <= i < |a| - 1
      ensures SameContent(a[i].content, b[i].content) && a[i].prevHash == b[i].prevHash && a[i].entryHash == b[i].entryHash
    {
      assert a[..|a| - 1][i] == a[i] && b[..|b| - 1][i] == b[i];
    }
  }

  /** What acceptance says of the last entry alone. */
  predicate LastIsSealed(c: Crypto, signer: Signer, a: seq<Entry>) {
    && |a| > 0 && FaultAt(c, signer, a, |a| - 1).None?
    && a[|a| - 1].prevHash == LastHash(a[..|a| - 1])
    && (a[|a| - 1].prevHash.Some? ==> |a[|a| - 1].prevHash.value| == 64)
  }

  lemma AcceptedLast(c: Crypto, signer: Signer, a: seq<Entry>)
    requires |a| > 0 && Accepts(c, signer, a)
    ensures LastIsSealed(c, signer, a)
  {
    assert FaultAt(c, signer, a, |a| - 1).None?;
    LinkIsLongOrNone(c, signer, a, |a| - 1);
  }

  lemma {:induction false} LastEntriesAgree(c: Crypto, one: Signer, two: Signer, a: seq<Entry>, b: seq<Entry>)
    requires AllClean(a) && AllClean(b)
    requires LastIsSealed(c, one, a) && LastIsSealed(c, two, b) && LastHash(a) == LastHash(b)
    ensures var e, f := a[|a| - 1], b[|b| - 1];
            || Collide(c, e, f)
            || (&& SameContent(e.content, f.content) && e.prevHash == f.prevHash && e.entryHash == f.entryHash
                && LastHash(a[..|a| - 1]) == LastHash(b[..|b| - 1]))
  {
    SameHashSameEntry(c, one, two, a, |a| - 1, b, |b| - 1);
    if !Collide(c, a[|a| - 1], b[|b| - 1]) {
      SamePlainLongText(a[|a| - 1].prevHash, b[|b| - 1].prevHash);
    }
  }

  lemma SamePlainLongText(t: Option<Text>, u: Option<Text>)
    requires Plain(t) == Plain(u)
    requires (t.Some? ==> |t.value| == 64) && (u.Some? ==> |u.value| == 64)
    ensures t == u
  {
  }

  lemma SealedHasAHash(c: Crypto, signer: Signer, entries: seq<Entry>)
    requires Accepts(c, signer, entries)
    ensures LastHash(entries).None? <==> entries == []
  {
    if entries != [] {
      assert FaultAt(c, signer, entries, |entries| - 1).None?;
    }
  }

  lemma LinkIsLongOrNone(c: Crypto, signer: Signer, entries: seq<Entry>, i: nat)
    requires Accepts(c, signer, entries) && i < |entries|
    ensures entries[i].prevHash == LinkAt(entries, i)
    ensures LinkAt(entries, i).None? || |LinkAt(entries, i).value| == 64
  {
    assert FaultAt(c, signer, entries, i).None?;
    if i > 0 {
      assert FaultAt(c, signer, entries, i - 1).None?;
    }
  }

  // ---------------------------------------------------------------------------
  // Extending a log
  // ---------------------------------------------------------------------------

  /** One sealed entry more: still accepted exactly when its signer held a key and sealed it onto the last
      hash. Without a key it is the entry that is reported, and as unsigned. */
  lemma SealExtendsIff(c: Crypto, signer: Signer, entries: seq<Entry>, e: Content, head: Option<Text>)
    requires c.Correct() && Accepts(c, signer, entries)
    ensures var longer := entries + [Sealed(c, e, head, signer)];
            && (Accepts(c, signer, longer) <==> signer.CanSign() && head == LastHash(entries))
            && (!signer.CanSign() ==> FaultAt(c, signer, longer, |entries|) == Some(Fault.Unsigned))
  {
    var longer := entries + [Sealed(c, e, head, signer)];
    var n := |entries|;
    if signer.CanSign() {
      SignedVerifies(c, signer, ContentHash(c, e, head));
    }
    assert longer[..n] == entries;
    AcceptanceIsPrefixClosed(c, signer, longer, n);
    assert LinkAt(longer, n) == LastHash(entries);
    assert FaultAt(c, signer, longer, n).None? <==> signer.CanSign() && head == LastHash(entries);
  }

  /** Whoever holds only the public key accepts exactly what the signing key accepts. */
  lemma ThirdPartyAgrees(c: Crypto, seed: Digest, entries: seq<Entry>)
    ensures Accepts(c, Ed25519Signing(seed), entries) <==> Accepts(c, Ed25519Verifying(c.publicOf(seed)), entries)
  {
    forall i | 0 <= i < |entries|
      ensures FaultAt(c, Ed25519Signing(seed), entries, i) == FaultAt(c, Ed25519Verifying(c.publicOf(seed)), entries, i)
    {
    }
    var verifier := Ed25519Verifying(c.publicOf(seed));
    if Accepts(c, Ed25519Signing(seed), entries) {
      forall i | 0 <= i < |entries| ensures FaultAt(c, verifier, entries, i).None? {
        assert FaultAt(c, Ed25519Signing(seed), entries, i).None?;
      }
    }
    if Accepts(c, verifier, entries) {
      forall i | 0 <= i < |entries| ensures FaultAt(c, Ed25519Signing(seed), entries, i).None? {
        assert FaultAt(c, verifier, entries, i).None?;
      }
    }
  }
}
