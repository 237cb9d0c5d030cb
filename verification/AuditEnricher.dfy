/**
 Sealing events into the audit log (runtime/audit/src/enricher.rs). The chain lock makes one call's reading
 of the head, seal, append and advance a single step, so concurrent calls are some sequence of such
 steps; what a call does before the lock, its timestamp above all, is in its argument.
 */
module AuditEnricher {
  import opened Wrappers
  import opened Hex
  import opened TextOrder
  import opened AuditSigner
  import opened AuditEntry
  import opened AuditChain

  /** One call: the content (none when the event does not serialize), and which of its backend calls fail. The
      row id in the content is drawn at random inside the call, so that no caller chooses it. */
  datatype Call = Call(content: Option<Content>, queryFails: bool, appendFails: bool)

  /** A row the seeding query may return: `ORDER BY created_at DESC LIMIT 1`, over the stored text. */
  predicate IsLatest(rows: seq<Entry>, k: nat) {
    k < |rows| && forall j | 0 <= j < |rows| :: !Before(rows[k].content.createdAt, rows[j].content.createdAt)
  }

  /** Every row was stamped before the row appended last: then the query finds that one. */
  predicate LastIsLatest(rows: seq<Entry>) {
    forall j | 0 <= j < |rows| - 1 :: Before(rows[j].content.createdAt, rows[|rows| - 1].content.createdAt)
  }

  predicate HasId(rows: seq<Entry>, id: Uuid) {
    exists k | 0 <= k < |rows| :: rows[k].content.id == id
  }

  /** Every row the query could answer with carries the hash of the row appended last. */
  predicate LatestIsTheEnd(rows: seq<Entry>) {
    forall k | 0 <= k < |rows| :: IsLatest(rows, k) ==> rows[k].entryHash == LastHash(rows)
  }

  /** What the seeding query can answer. */
  predicate IsSeed(rows: seq<Entry>, queryFails: bool, seed: Option<Text>) {
    if queryFails || rows == [] then seed.None?
    else exists k | 0 <= k < |rows| :: IsLatest(rows, k) && seed == rows[k].entryHash
  }

  /** Seeding finds the last hash: there is nothing to find, or the query answers, and only with the end. */
  predicate SeedsRight(rows: seq<Entry>, queryFails: bool) {
    rows == [] || (!queryFails && LatestIsTheEnd(rows))
  }

  lemma RightSeed(rows: seq<Entry>, queryFails: bool, seed: Option<Text>)
    requires SeedsRight(rows, queryFails) && IsSeed(rows, queryFails, seed)
    ensures seed == LastHash(rows)
  {
    if rows != [] {
      var k :| 0 <= k < |rows| && IsLatest(rows, k) && seed == rows[k].entryHash;
    }
  }

  class AuditEnricher {
    const crypto: Crypto
    const signer: Signer
    /** The backend's table, in append order. */
    var rows: seq<Entry>
    var seeded: bool
    var head: Option<Text>
    var sealFailures: nat
    /** For the statement of conservation: the calls made, the rows found at start, and the appends the
        backend dropped because the row's id was taken. */
    ghost var calls: nat
    ghost var found: nat
    ghost var dropped: nat

    /** Nothing is lost without being counted. */
    ghost predicate Counted()
      reads this
    {
      found <= |rows| && calls == (|rows| - found) + sealFailures + dropped
    }

    ghost predicate InChain()
      reads this
    {
      && crypto.Correct() && signer.CanSign()
      && Accepts(crypto, signer, rows)
      && (seeded ==> head == LastHash(rows))
    }

    /** A process that starts over the rows another left. */
    constructor (crypto: Crypto, signer: Signer, rows: seq<Entry>)
      ensures this.crypto == crypto && this.signer == signer && this.rows == rows
      ensures !seeded && head == None && sealFailures == 0 && Counted() && dropped == 0
    {
      this.crypto, this.signer, this.rows := crypto, signer, rows;
      seeded, head, sealFailures := false, None, 0;
      calls, found, dropped := 0, |rows|, 0;
    }

    /** A failed query and an empty log both read as no hash. */
    method LatestEntryHash(queryFails: bool) returns (hash: Option<Text>)
      ensures queryFails || rows == [] ==> hash == None
      ensures !queryFails && rows != [] ==> exists k | 0 <= k < |rows| :: IsLatest(rows, k) && hash == rows[k].entryHash
    {
      if queryFails || |rows| == 0 {
        return None;
      }
      var best := 0;
      for k := 0 to |rows|
        invariant 0 <= best < |rows|
        invariant forall j | 0 <= j < k :: !Before(rows[best].content.createdAt, rows[j].content.createdAt)
      {
        ghost var was := best;
        if Before(rows[best].content.createdAt, rows[k].content.createdAt) {
          best := k;
        }
        forall j | 0 <= j < k + 1 ensures !Before(rows[best].content.createdAt, rows[j].content.createdAt) {
          var old0, now, other := rows[was].content.createdAt, rows[best].content.createdAt, rows[j].content.createdAt;
          BeforeIsOrder(now, now, now);
          BeforeIsOrder(old0, now, other);
        }
      }
      assert IsLatest(rows, best);
      return rows[best].entryHash;
    }

    /** The insert ignores a row whose id is taken, and reports success. */
    method Append(entry: Entry, fails: bool) returns (ok: bool)
      modifies this`rows, this`dropped
      ensures ok <==> !fails
      ensures if ok && !HasId(old(rows), entry.content.id) then rows == old(rows) + [entry] && dropped == old(dropped)
              else rows == old(rows) && dropped == old(dropped) + if ok then 1 else 0
    {
      ok := !fails;
      if ok {
        if HasId(rows, entry.content.id) {
          dropped := dropped + 1;
        } else {
          rows := rows + [entry];
        }
      }
    }

    /** `seal_entry` inside the lock. `from` is what the entry was sealed onto: the head, or the seed of a
        first call. An acknowledged append moves the head to the sealed hash, stored or not. */
    method SealEntry(call: Call) returns (ok: bool, ghost from: Option<Text>)
      modifies this`rows, this`dropped, this`seeded, this`head
      ensures ok <==> call.content.Some? && !call.appendFails
      ensures call.content.None? ==> seeded == old(seeded) && head == old(head)
      ensures call.content.Some? ==>
                && seeded
                && (if old(seeded) then from == old(head) else IsSeed(old(rows), call.queryFails, from))
                && head == (if ok then Sealed(crypto, call.content.value, from, signer).entryHash else from)
      ensures rows == old(rows) + if ok && !HasId(old(rows), call.content.value.id)
                                  then [Sealed(crypto, call.content.value, from, signer)] else []
      ensures dropped == old(dropped) + if ok && HasId(old(rows), call.content.value.id) then 1 else 0
    {
      from := head;
      if call.content.None? {
        ok := false;
        return;
      }
      if !seeded {
        head := LatestEntryHash(call.queryFails);
        seeded := true;
      }
      from := head;
      var entry := new AuditLogEntry(call.content.value);
      entry.Seal(crypto, head, signer);
      ok := Append(entry.Row(), call.appendFails);
      if ok {
        head := entry.entryHash;
      }
    }

    /** `try_enrich_and_append`: every failure is counted. From a log in chain whose end the seeding finds, the
        log stays in chain exactly when the call failed, its row was stored, or the row that was not stored
        has the hash of the last one that was. */
    method TryEnrichAndAppend(call: Call) returns (ok: bool, ghost from: Option<Text>)
      modifies this
      ensures old(Counted()) ==> Counted()
      ensures ok <==> call.content.Some? && !call.appendFails
      ensures found == old(found) && sealFailures == old(sealFailures) + if ok then 0 else 1
      ensures call.content.None? ==> seeded == old(seeded) && head == old(head)
      ensures call.content.Some? ==>
                && seeded
                && (if old(seeded) then from == old(head) else IsSeed(old(rows), call.queryFails, from))
                && head == (if ok then Sealed(crypto, call.content.value, from, signer).entryHash else from)
      ensures rows == old(rows) + if ok && !HasId(old(rows), call.content.value.id)
                                  then [Sealed(crypto, call.content.value, from, signer)] else []
      ensures dropped == old(dropped) + if ok && HasId(old(rows), call.content.value.id) then 1 else 0
      ensures old(InChain()) && (old(seeded) || SeedsRight(old(rows), call.queryFails)) ==>
                (InChain() <==> || !ok
                                || !HasId(old(rows), call.content.value.id)
                                || Sealed(crypto, call.content.value, LastHash(old(rows)), signer).entryHash
                                   == LastHash(old(rows)))
    {
      ghost var rows0, unseeded := rows, !seeded;
      ok, from := SealEntry(call);
      if !ok {
        sealFailures := sealFailures + 1;
      }
      calls := calls + 1;
      if old(InChain()) && call.content.Some? {
        if unseeded && SeedsRight(rows0, call.queryFails) {
          RightSeed(rows0, call.queryFails, from);
        }
        SealExtendsIff(crypto, signer, rows0, call.content.value, from);
      }
      assert rows0 + [] == rows0;
    }
  }

  predicate FreshIds(calls: seq<Call>, rows: seq<Entry>) {
    && (forall i | 0 <= i < |calls| && calls[i].content.Some? :: !HasId(rows, calls[i].content.value.id))
    && (forall i, j | 0 <= i < j < |calls| && calls[i].content.Some? && calls[j].content.Some? ::
          calls[i].content.value.id != calls[j].content.value.id)
  }

  /** Any calls in any order in which the lock admits them, any of whose appends fail, over rows the seeding
      finds the end of: the rows that were there stay where they were, and the calls are exactly the new
      rows, the counted failures and the dropped rows. As long as none was dropped, which no call with an
      unused id is, the log stays one the verifier accepts. */
  method SealAll(e: AuditEnricher, calls: seq<Call>)
    requires e.InChain() && !e.seeded && e.Counted() && e.dropped == 0
    requires SeedsRight(e.rows, false) && (e.rows == [] || forall i | 0 <= i < |calls| :: !calls[i].queryFails)
    modifies e
    ensures old(e.rows) <= e.rows
    ensures |e.rows| - |old(e.rows)| + (e.sealFailures - old(e.sealFailures)) + e.dropped == |calls|
    ensures e.dropped == 0 ==> e.InChain()
    ensures FreshIds(calls, old(e.rows)) ==> e.dropped == 0
  {
    ghost var rows0, failures0, unused := e.rows, e.sealFailures, FreshIds(calls, e.rows);
    assert calls[0..] == calls;
    for k := 0 to |calls|
      invariant rows0 <= e.rows && failures0 <= e.sealFailures
      invariant e.dropped == 0 ==> e.InChain()
      invariant e.Counted() && |e.rows| - |rows0| + (e.sealFailures - failures0) + e.dropped == k
      invariant !e.seeded ==> e.rows == rows0
      invariant unused ==> FreshIds(calls[k..], e.rows) && e.dropped == 0
    {
      ghost var before := e.rows;
      if unused { FreshNow(calls, k, before); }
      var ok, from := e.TryEnrichAndAppend(calls[k]);
      if unused { StillFresh(calls, k, before, e.rows, ok); }
    }
  }

  lemma FreshNow(calls: seq<Call>, k: nat, rows: seq<Entry>)
    requires k < |calls| && FreshIds(calls[k..], rows)
    ensures calls[k].content.Some? ==> !HasId(rows, calls[k].content.value.id)
  {
    assert calls[k..][0] == calls[k];
  }

  lemma StillFresh(calls: seq<Call>, k: nat, rows: seq<Entry>, longer: seq<Entry>, ok: bool)
    requires k < |calls| && FreshIds(calls[k..], rows)
    requires longer == rows || (|longer| == |rows| + 1 && longer[..|rows|] == rows && calls[k].content.Some?
                                && longer[|rows|].content == calls[k].content.value)
    ensures FreshIds(calls[k + 1..], longer)
  {
    var here, rest := calls[k..], calls[k + 1..];
    assert here[0] == calls[k];
    assert forall i | 0 <= i < |rest| :: rest[i] == here[i + 1];
    forall i | 0 <= i < |rest| && rest[i].content.Some? ensures !HasId(longer, rest[i].content.value.id) {
      forall q | 0 <= q < |longer| ensures longer[q].content.id != rest[i].content.value.id {
        if q < |rows| {
          assert longer[..|rows|][q] == longer[q];
          assert !HasId(rows, here[i + 1].content.value.id);
        }
      }
    }
  }

  // ---------------------------------------------------------------------------
  // Where the chain breaks
  // ---------------------------------------------------------------------------

  /** After a restart over a non-empty log the next entry verifies, whichever of the rows it may find the
      query returns, exactly when the query does not fail and every row stamped latest carries the hash of
      the row appended last. */
  lemma RestartContinuesIff(c: Crypto, signer: Signer, rows: seq<Entry>, e: Content, queryFails: bool)
    requires c.Correct() && signer.CanSign() && Accepts(c, signer, rows) && rows != []
    ensures (forall seed | IsSeed(rows, queryFails, seed) :: Accepts(c, signer, rows + [Sealed(c, e, seed, signer)]))
            <==> !queryFails && LatestIsTheEnd(rows)
  {
    SealedHasAHash(c, signer, rows);
    forall seed | IsSeed(rows, queryFails, seed)
      ensures Accepts(c, signer, rows + [Sealed(c, e, seed, signer)]) <==> seed == LastHash(rows)
    {
      SealExtendsIff(c, signer, rows, e, seed);
    }
    if queryFails {
      assert IsSeed(rows, queryFails, None);
    } else {
      forall k | 0 <= k < |rows| && IsLatest(rows, k) ensures IsSeed(rows, queryFails, rows[k].entryHash) {}
      forall seed | LatestIsTheEnd(rows) && IsSeed(rows, queryFails, seed) ensures seed == LastHash(rows) {
        RightSeed(rows, queryFails, seed);
      }
    }
  }

  predicate DistinctHashes(rows: seq<Entry>) {
    forall j, k | 0 <= j < k < |rows| :: rows[j].entryHash != rows[k].entryHash
  }

  /** When no two rows share a hash, that is: every other row was stamped before the row appended last. */
  lemma {:induction false} LatestIsTheEndIff(rows: seq<Entry>)
    requires DistinctHashes(rows) && rows != []
    ensures LatestIsTheEnd(rows) <==> LastIsLatest(rows)
  {
    var last := |rows| - 1;
    var latest := SomeLatest(rows);
    if LatestIsTheEnd(rows) {
      assert latest == last;
      forall j | 0 <= j < last ensures Before(rows[j].content.createdAt, rows[last].content.createdAt) {
        BeforeIsOrder(rows[j].content.createdAt, rows[last].content.createdAt, []);
        assert !IsLatest(rows, j);
      }
    }
    if LastIsLatest(rows) {
      forall k | 0 <= k < |rows| && IsLatest(rows, k) ensures k == last {
        assert !Before(rows[k].content.createdAt, rows[last].content.createdAt);
      }
    }
  }

  /** A latest row always exists. */
  lemma {:induction false} SomeLatest(rows: seq<Entry>) returns (k: nat)
    requires rows != []
    ensures IsLatest(rows, k)
  {
    var last := |rows| - 1;
    if last == 0 {
      k := 0;
      BeforeIsOrder(rows[0].content.createdAt, [], []);
    } else {
      k := SomeLatest(rows[..last]);
      var before := k;
      if Before(rows[k].content.createdAt, rows[last].content.createdAt) { k := last; }
      forall j | 0 <= j < |rows| ensures !Before(rows[k].content.createdAt, rows[j].content.createdAt) {
        if j < last { assert rows[..last][j] == rows[j]; }
        BeforeIsOrder(rows[k].content.createdAt, [], []);
        BeforeIsOrder(rows[before].content.createdAt, rows[k].content.createdAt, rows[j].content.createdAt);
      }
    }
  }

  /** Two entries that take the lock in the order opposite to their timestamps, the second sealed onto the
      first: what a single process writes when a call stamped earlier takes the lock later. */
  function Swapped(c: Crypto, signer: Signer, late: Content, early: Content): seq<Entry> {
    var first := Sealed(c, late, None, signer);
    [first, Sealed(c, early, first.entryHash, signer)]
  }

  /** Such a log verifies, and whatever a restarted process appends to it next does not, unless the two rows'
      streams have one hash. */
  lemma OutOfOrderStampsBreakARestart(c: Crypto, signer: Signer, late: Content, early: Content, next: Content,
                                      seed: Option<Text>)
    requires c.Correct() && signer.CanSign() && Before(early.createdAt, late.createdAt)
    requires IsSeed(Swapped(c, signer, late, early), false, seed)
    ensures var rows := Swapped(c, signer, late, early);
            && Accepts(c, signer, rows)
            && (!Accepts(c, signer, rows + [Sealed(c, next, seed, signer)]) <==>
                  c.hash(StreamOf(rows[0])) != c.hash(StreamOf(rows[1])))
  {
    var rows := Swapped(c, signer, late, early);
    SwappedVerifies(c, signer, late, early);
    SeedIsTheLater(rows, seed);
    HashesDifferIff(c, rows[0], rows[1]);
    SealExtendsIff(c, signer, rows, next, seed);
  }

  lemma SwappedVerifies(c: Crypto, signer: Signer, late: Content, early: Content)
    requires c.Correct() && signer.CanSign()
    ensures Accepts(c, signer, Swapped(c, signer, late, early))
  {
    var rows := Swapped(c, signer, late, early);
    SealExtendsIff(c, signer, [], late, None);
    assert [] + [rows[0]] == [rows[0]];
    SealExtendsIff(c, signer, [rows[0]], early, rows[0].entryHash);
    assert [rows[0]] + [rows[1]] == rows;
  }

  lemma HashesDifferIff(c: Crypto, e: Entry, f: Entry)
    requires e.entryHash == Some(Encode(c.hash(StreamOf(e)))) && f.entryHash == Some(Encode(c.hash(StreamOf(f))))
    ensures e.entryHash == f.entryHash <==> c.hash(StreamOf(e)) == c.hash(StreamOf(f))
  {
    if e.entryHash == f.entryHash {
      EncodeInjective(c.hash(StreamOf(e)), c.hash(StreamOf(f)));
    }
  }

  lemma SeedIsTheLater(rows: seq<Entry>, seed: Option<Text>)
    requires |rows| == 2 && Before(rows[1].content.createdAt, rows[0].content.createdAt)
    requires IsSeed(rows, false, seed)
    ensures seed == rows[0].entryHash
  {
    var k :| 0 <= k < |rows| && IsLatest(rows, k) && seed == rows[k].entryHash;
    assert !Before(rows[k].content.createdAt, rows[0].content.createdAt);
  }

  /** The code does this: two calls on an empty log, a restart, a third call, nothing fails. */
  method OutOfOrderRestart(c: Crypto, signer: Signer, late: Content, early: Content, next: Content)
    returns (rows: seq<Entry>, acknowledged: bool)
    requires c.Correct() && signer.CanSign() && Before(early.createdAt, late.createdAt)
    requires late.id != early.id && next.id != late.id && next.id != early.id
    requires var two := Swapped(c, signer, late, early); c.hash(StreamOf(two[0])) != c.hash(StreamOf(two[1]))
    ensures acknowledged && |rows| == 3
    ensures rows[..2] == Swapped(c, signer, late, early) && Accepts(c, signer, rows[..2])
    ensures rows[2].content == next && !Accepts(c, signer, rows)
  {
    var two, both := TwoCalls(c, signer, late, early);
    var e := new AuditEnricher(c, signer, two);
    var ok, from := e.TryEnrichAndAppend(Call(Some(next), false, false));
    OutOfOrderStampsBreakARestart(c, signer, late, early, next, from);
    rows, acknowledged := e.rows, both && ok;
    assert rows[..2] == two;
  }

  method TwoCalls(c: Crypto, signer: Signer, late: Content, early: Content)
    returns (rows: seq<Entry>, acknowledged: bool)
    requires late.id != early.id
    ensures acknowledged && rows == Swapped(c, signer, late, early)
  {
    var e := new AuditEnricher(c, signer, []);
    var ok0, from0 := e.TryEnrichAndAppend(Call(Some(late), false, false));
    var ok1, from1 := e.TryEnrichAndAppend(Call(Some(early), false, false));
    rows, acknowledged := e.rows, ok0 && ok1;
  }

  /** What the insert that ignores a taken id does to the chain. Each call draws its row's id at random, so this
      is no input a caller can send but two draws that coincide: the second row is not stored, its call is
      acknowledged, the head moves to its hash, and the entry after it is sealed onto a hash that is in no
      row. */
  method SameIdTwice(c: Crypto, signer: Signer, once: Content, again: Content, next: Content)
    returns (rows: seq<Entry>, acknowledged: bool)
    requires c.Correct() && signer.CanSign() && again.id == once.id && next.id != once.id
    requires c.hash(Stream(once, None)) != c.hash(Stream(again, Some(ContentHash(c, once, None))))
    ensures acknowledged && |rows| == 2
    ensures rows[0] == Sealed(c, once, None, signer) && rows[1].content == next
    ensures rows[1].prevHash != rows[0].entryHash && !Accepts(c, signer, rows)
  {
    var e := new AuditEnricher(c, signer, []);
    SealExtendsIff(c, signer, [], once, None);
    var ok0, from0 := e.TryEnrichAndAppend(Call(Some(once), false, false));
    assert e.rows == [Sealed(c, once, None, signer)];
    ghost var head := e.head;
    var ok1, from1 := e.TryEnrichAndAppend(Call(Some(again), false, false));
    assert from1 == head == Some(ContentHash(c, once, None));
    if ContentHash(c, once, None) == ContentHash(c, again, head) {
      EncodeInjective(c.hash(Stream(once, None)), c.hash(Stream(again, head)));
    }
    var ok2, from2 := e.TryEnrichAndAppend(Call(Some(next), false, false));
    rows, acknowledged := e.rows, ok0 && ok1 && ok2;
    assert FaultAt(c, signer, rows, 1) == Some(BrokenLink);
  }

  // ---------------------------------------------------------------------------
  // The hypotheses above can be met
  // ---------------------------------------------------------------------------

  /** A stand-in for the cryptography: the hash repeats the last byte of the link, the verifier is lenient. */
  function LinkCrypto(): Crypto {
    Crypto((x: seq<byte>) => if |x| < 2 then seq(32, i => 0) else seq(32, i => x[|x| - 2]),
           (key: seq<byte>, x: seq<byte>) => seq(32, i => 0),
           (seed: Digest) => seed,
           (seed: Digest, x: seq<byte>) => seq(64, i => 0),
           (public: Digest, x: seq<byte>, signature: RawSignature) => true)
  }

  lemma StreamEndsInItsLink(e: Content, prev: Option<Text>)
    ensures var s := Stream(e, prev);
            && |s| >= 2
            && s[|s| - 2] == (if Plain(prev) == [] then SEP else Plain(prev)[|Plain(prev)| - 1])
  {
    var fields := Fields(e, prev);
    var flag, link := fields[|fields| - 2], fields[|fields| - 1];
    assert fields == fields[..|fields| - 2] + [flag, link];
    JoinPrefix(fields[..|fields| - 2], [flag, link]);
    JoinTwo(flag, link, []);
    assert [flag, link] + [] == [flag, link];
    assert link == Plain(prev);
  }

  /** Under it a first row and a row linked to another never share a hash, whatever they hold, so for any
      two contents with the stamps and ids asked for above, both methods have an input. */
  lemma HashesCanDiffer(first: Content, second: Content)
    ensures var c := LinkCrypto();
            && c.Correct() && Hmac([]).CanSign()
            && c.hash(Stream(first, None)) != c.hash(Stream(second, Some(ContentHash(c, first, None))))
  {
    var c := LinkCrypto();
    var h := ContentHash(c, first, None);
    StreamEndsInItsLink(first, None);
    StreamEndsInItsLink(second, Some(h));
    EncodeIsLowerHex(c.hash(Stream(first, None)));
    assert c.hash(Stream(first, None))[0] == SEP;
    assert c.hash(Stream(second, Some(h)))[0] == h[63];
  }
}
