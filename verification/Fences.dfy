/**
 Lease fences: `term * 2^32 + epoch`, computed in a 64-bit signed integer.

 The term is the store's failover generation, the epoch an item's own counter. Rust's release
 arithmetic wraps, so the model writes the wrap out and says up to which term it never happens.
 */
module Fences {
  const EPOCHS: int := 0x1_0000_0000
  const TERMS: int := 0x8000_0000
  const I64: int := 0x1_0000_0000_0000_0000
  const I64_MAX: int := 0x7fff_ffff_ffff_ffff

  function Wrap(x: int): int {
    var low := x % I64;
    if low > I64_MAX then low - I64 else low
  }

  function Mint(term: int, epoch: int): int {
    Wrap(term * EPOCHS + epoch)
  }

  /** `fence_epoch`: the low 32 bits. */
  function FenceEpoch(fence: int): int {
    fence % EPOCHS
  }

  /** What a heartbeat demands before it re-attaches a lost lease. */
  function EpochAfterExpiryOf(fence: int): int {
    FenceEpoch(fence) + 1
  }

  lemma WrapIsCongruent(x: int) returns (q: int)
    ensures Wrap(x) == x + q * I64
    ensures -I64 <= 2 * Wrap(x) < I64
  {
    q := -(x / I64);
    assert x == (x / I64) * I64 + x % I64;
    if x % I64 > I64_MAX {
      q := q - 1;
    }
  }

  lemma EpochSurvivesMinting(term: int, epoch: int)
    requires 0 <= epoch < EPOCHS
    ensures FenceEpoch(Mint(term, epoch)) == epoch
  {
    var q := WrapIsCongruent(term * EPOCHS + epoch);
    var multiple := term + q * EPOCHS;
    assert Mint(term, epoch) == multiple * EPOCHS + epoch;
    RemainderOf(multiple, epoch);
  }

  lemma RemainderOf(multiple: int, epoch: int)
    requires 0 <= epoch < EPOCHS
    ensures (multiple * EPOCHS + epoch) % EPOCHS == epoch
    ensures (multiple * EPOCHS + epoch) / EPOCHS == multiple
  {
  }

  /** Two fences are equal exactly when their epochs are equal and their terms agree modulo 2^32.
      Any two different terms below 2^32 therefore never share a fence. */
  lemma SameFence(t1: int, e1: int, t2: int, e2: int)
    requires 0 <= e1 < EPOCHS && 0 <= e2 < EPOCHS
    ensures Mint(t1, e1) == Mint(t2, e2) <==> e1 == e2 && t1 % EPOCHS == t2 % EPOCHS
  {
    var q1 := WrapIsCongruent(t1 * EPOCHS + e1);
    var q2 := WrapIsCongruent(t2 * EPOCHS + e2);
    EpochSurvivesMinting(t1, e1);
    EpochSurvivesMinting(t2, e2);
    var d := (t1 - t2) + (q1 - q2) * EPOCHS;
    if Mint(t1, e1) == Mint(t2, e2) {
      assert e1 == e2;
      assert d * EPOCHS == 0;
      assert t1 == t2 + (q2 - q1) * EPOCHS;
      SameResidue(t1, t2, q2 - q1);
    }
    if e1 == e2 && t1 % EPOCHS == t2 % EPOCHS {
      // The two sums differ by a multiple of 2^64, so they wrap to one value.
      var m := t1 / EPOCHS - t2 / EPOCHS;
      assert t1 - t2 == m * EPOCHS;
      assert t1 * EPOCHS + e1 == (t2 * EPOCHS + e2) + m * I64;
      SameWrap(t2 * EPOCHS + e2, m);
    }
  }

  lemma SameResidue(a: int, b: int, q: int)
    requires a == b + q * EPOCHS
    ensures a % EPOCHS == b % EPOCHS
  {
    assert b == (b / EPOCHS) * EPOCHS + b % EPOCHS;
    RemainderOf(b / EPOCHS + q, b % EPOCHS);
  }

  lemma SameWrap(x: int, m: int)
    ensures Wrap(x + m * I64) == Wrap(x)
  {
    assert (x + m * I64) % I64 == x % I64;
  }

  /** Below 2^31 nothing wraps: fences are positive once claimed, and grow with the term first and
      the epoch second. */
  lemma FencesAreOrdered(t1: int, e1: int, t2: int, e2: int)
    requires 0 <= t1 < TERMS && 0 <= t2 < TERMS
    requires 0 <= e1 < EPOCHS && 0 <= e2 < EPOCHS
    ensures Mint(t1, e1) == t1 * EPOCHS + e1 >= 0
    ensures Mint(t1, e1) > 0 <==> t1 > 0 || e1 > 0
    ensures Mint(t1, e1) < Mint(t2, e2) <==> t1 < t2 || (t1 == t2 && e1 < e2)
  {
  }

  /** Startup accepts any non-negative 64-bit term, but the promise that a higher term makes every
      fence new holds only while the two terms stay in one window of 2^32: here the term is raised
      from 0 to 2^32 and an item's first fence comes back. */
  lemma RaisedTermCanRepeatAFence()
    ensures Mint(0, 1) == Mint(EPOCHS, 1) == 1
    ensures EPOCHS > 0
  {
    assert EPOCHS * EPOCHS + 1 == I64 + 1;
  }
}
