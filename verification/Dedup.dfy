/**
 Batch deduplication of facts (runtime/engram/src/consolidation.rs). Facts are kept, marked invalid and
 linked to the fact that replaces them; their vectors are deleted, which is what keeps a merged fact from
 being found again.
 */
module Dedup {
  import opened Wrappers

  type FactId(==, !new)

  datatype Fact = Fact(valid: bool, supersededBy: Option<FactId>)

  datatype Match = Match(id: FactId, score: real)

  const THRESHOLD: real := 0.99

  /** What the pass does not control: whether the `i`-th listed fact embeds, what the vector store answers
      over the vectors it then holds, and whether the link to the replaced fact can be written. */
  datatype World = World(embeds: nat -> bool, search: (nat, set<FactId>) -> seq<Match>, links: FactId -> bool)
  {
    /** The answers are true: a match is a stored vector, scored as the pair scores. */
    ghost predicate Faithful(listed: seq<FactId>, score: (FactId, FactId) -> real) {
      forall i, vectors, k | 0 <= i < |listed| && 0 <= k < |search(i, vectors)| ::
        search(i, vectors)[k].id in vectors && search(i, vectors)[k].score == score(listed[i], search(i, vectors)[k].id)
    }

    /** The answers are whole: every fact embeds, and every stored vector above the threshold is answered. */
    ghost predicate Complete(listed: seq<FactId>, score: (FactId, FactId) -> real) {
      && (forall i | 0 <= i < |listed| :: embeds(i))
      && forall i, vectors, x | 0 <= i < |listed| && x in vectors && score(listed[i], x) > THRESHOLD ::
           exists k | 0 <= k < |search(i, vectors)| ::
             search(i, vectors)[k].id == x && search(i, vectors)[k].score == score(listed[i], x)
    }
  }

  /** `merged` says, for each fact the pass invalidated, at which listed fact it was. Everything else about
      the pass is a statement over it. */
  ghost predicate Linked(listed: seq<FactId>, score: (FactId, FactId) -> real, merged: map<FactId, nat>) {
    forall m | m in merged ::
      && merged[m] < |listed| && listed[merged[m]] != m
      && score(listed[merged[m]], m) > THRESHOLD
      && (listed[merged[m]] in merged ==> merged[m] < merged[listed[merged[m]]])
  }

  function Replaced(fact: Fact, keeper: FactId, linked: bool): Fact {
    Fact(false, if linked then Some(keeper) else fact.supersededBy)
  }

  /** The facts after: each merged one invalid and linked to its keeper, every other one as it was. */
  ghost predicate FactsAfter(before: map<FactId, Fact>, after: map<FactId, Fact>, listed: seq<FactId>,
                             merged: map<FactId, nat>, links: FactId -> bool)
  {
    && after.Keys == before.Keys
    && forall f | f in before ::
         after[f] == if f in merged && merged[f] < |listed| then Replaced(before[f], listed[merged[f]], links(f))
                     else before[f]
  }

  /** No two listed survivors with a vector score above the threshold, the earlier against the later, among
      the first `n`. */
  ghost predicate Spread(listed: seq<FactId>, vectors: set<FactId>, score: (FactId, FactId) -> real,
                         merged: map<FactId, nat>, n: nat)
    requires n <= |listed|
  {
    forall i, x | 0 <= i < n && listed[i] !in merged && x in vectors && x !in merged && x != listed[i] ::
      score(listed[i], x) <= THRESHOLD
  }

  /** The state of the pass when links were made at listed facts below `bound` only; unfolded only where
      `PassState` is named. */
  ghost predicate PassState(listed: seq<FactId>, score: (FactId, FactId) -> real, merged: map<FactId, nat>, bound: nat,
                            links: FactId -> bool, facts0: map<FactId, Fact>, facts: map<FactId, Fact>,
                            vectors0: set<FactId>)
  {
    && Linked(listed, score, merged)
    && (forall m | m in merged :: merged[m] < bound)
    && merged.Keys <= vectors0
    && FactsAfter(facts0, facts, listed, merged, links)
  }

  ghost predicate InPass(listed: seq<FactId>, score: (FactId, FactId) -> real, merged: map<FactId, nat>, bound: nat,
                         links: FactId -> bool, facts0: map<FactId, Fact>, facts: map<FactId, Fact>,
                         vectors0: set<FactId>)
  {
    forall b | b == bound :: PassState(listed, score, merged, b, links, facts0, facts, vectors0)
  }

  lemma PassGoesOn(listed: seq<FactId>, score: (FactId, FactId) -> real, merged: map<FactId, nat>, bound: nat,
                   links: FactId -> bool, facts0: map<FactId, Fact>, facts: map<FactId, Fact>, vectors0: set<FactId>)
    requires InPass(listed, score, merged, bound, links, facts0, facts, vectors0)
    ensures InPass(listed, score, merged, bound + 1, links, facts0, facts, vectors0)
  {
    assert PassState(listed, score, merged, bound, links, facts0, facts, vectors0);
  }

  lemma PassMerges(listed: seq<FactId>, score: (FactId, FactId) -> real, merged: map<FactId, nat>, i: nat,
                   links: FactId -> bool, facts0: map<FactId, Fact>, now: map<FactId, Fact>,
                   after: map<FactId, Fact>, vectors0: set<FactId>, m: FactId)
    requires InPass(listed, score, merged, i + 1, links, facts0, now, vectors0) && i < |listed|
    requires m !in merged && listed[i] !in merged && m != listed[i] && m in vectors0
    requires score(listed[i], m) > THRESHOLD
    requires after == if m in now then now[m := Replaced(now[m], listed[i], links(m))] else now
    ensures InPass(listed, score, merged[m := i], i + 1, links, facts0, after, vectors0)
  {
    assert PassState(listed, score, merged, i + 1, links, facts0, now, vectors0);
    MergeKeepsFacts(facts0, now, after, listed, merged, links, m, i);
    LinkKeeps(listed, score, merged, m, i);
    assert merged[m := i].Keys == merged.Keys + {m};
  }

  lemma LinkKeeps(listed: seq<FactId>, score: (FactId, FactId) -> real, merged: map<FactId, nat>, m: FactId, i: nat)
    requires Linked(listed, score, merged) && i < |listed|
    requires m !in merged && listed[i] !in merged && m != listed[i] && score(listed[i], m) > THRESHOLD
    requires forall x | x in merged :: merged[x] <= i
    ensures Linked(listed, score, merged[m := i])
  {
    forall x | x in merged && listed[merged[x]] == m ensures merged[x] < i {
      assert merged[x] != i;
    }
  }

  lemma MergeKeepsFacts(before: map<FactId, Fact>, now: map<FactId, Fact>, after: map<FactId, Fact>,
                        listed: seq<FactId>, merged: map<FactId, nat>, links: FactId -> bool, m: FactId, i: nat)
    requires FactsAfter(before, now, listed, merged, links) && m !in merged && i < |listed|
    requires after == if m in now then now[m := Replaced(now[m], listed[i], links(m))] else now
    ensures FactsAfter(before, after, listed, merged[m := i], links)
  {
  }

  /** The `i`-th fact's search was whole: with its matches merged, it too stands apart. */
  lemma SpreadsOneMore(listed: seq<FactId>, vectors: set<FactId>, score: (FactId, FactId) -> real,
                       before: map<FactId, nat>, merged: map<FactId, nat>, i: nat)
    requires i < |listed| && before.Keys <= merged.Keys && Spread(listed, vectors, score, before, i)
    requires forall x | x in vectors && x !in before && score(listed[i], x) > THRESHOLD :: x == listed[i] || x in merged
    ensures Spread(listed, vectors, score, merged, i + 1)
  {
  }

  class FactStore {
    var facts: map<FactId, Fact>
    var vectors: set<FactId>

    constructor (facts: map<FactId, Fact>, vectors: set<FactId>)
      ensures this.facts == facts && this.vectors == vectors
    {
      this.facts, this.vectors := facts, vectors;
    }

    /** Marks a fact; an unknown id is no row to mark. */
    method InvalidateFact(id: FactId)
      modifies this`facts
      ensures facts == if id in old(facts) then old(facts)[id := old(facts)[id].(valid := false)] else old(facts)
    {
      if id in facts {
        facts := facts[id := facts[id].(valid := false)];
      }
    }

    method LinkFact(id: FactId, keeper: FactId, works: bool)
      modifies this`facts
      ensures facts == if works && id in old(facts)
                       then old(facts)[id := old(facts)[id].(supersededBy := Some(keeper))] else old(facts)
    {
      if works && id in facts {
        facts := facts[id := facts[id].(supersededBy := Some(keeper))];
      }
    }

    method DeleteVector(id: FactId)
      modifies this`vectors
      ensures vectors == old(vectors) - {id}
    {
      vectors := vectors - {id};
    }

    /** Merges one match into the fact in hand. */
    method Merge(id: FactId, keeper: FactId, works: bool)
      modifies this
      ensures vectors == old(vectors) - {id}
      ensures facts == if id in old(facts) then old(facts)[id := Replaced(old(facts)[id], keeper, works)] else old(facts)
    {
      InvalidateFact(id);
      DeleteVector(id);
      LinkFact(id, keeper, works);
    }

    /** The matches of the `i`-th listed fact. */
    method MergeMatches(listed: seq<FactId>, i: nat, matches: seq<Match>, w: World, score: (FactId, FactId) -> real,
                        invalidated: set<FactId>, ghost from: map<FactId, nat>, ghost facts0: map<FactId, Fact>,
                        ghost vectors0: set<FactId>)
      returns (merged: set<FactId>, ghost to: map<FactId, nat>)
      requires i < |listed| && listed[i] !in invalidated
      requires invalidated == from.Keys && vectors == vectors0 - from.Keys
      requires forall k | 0 <= k < |matches| ::
                 matches[k].id in vectors0 && matches[k].score == score(listed[i], matches[k].id)
      requires InPass(listed, score, from, i, w.links, facts0, facts, vectors0)
      modifies this
      ensures merged == to.Keys && vectors == vectors0 - to.Keys
      ensures InPass(listed, score, to, i + 1, w.links, facts0, facts, vectors0)
      ensures listed[i] !in to && from.Keys <= to.Keys
      ensures forall k | 0 <= k < |matches| && matches[k].score > THRESHOLD ::
                matches[k].id == listed[i] || matches[k].id in to
    {
      merged, to := invalidated, from;
      PassGoesOn(listed, score, from, i, w.links, facts0, facts, vectors0);
      for k := 0 to |matches|
        invariant merged == to.Keys && vectors == vectors0 - to.Keys
        invariant listed[i] !in to && from.Keys <= to.Keys
        invariant InPass(listed, score, to, i + 1, w.links, facts0, facts, vectors0)
        invariant forall j | 0 <= j < k && matches[j].score > THRESHOLD :: matches[j].id == listed[i] || matches[j].id in to
      {
        var m := matches[k];
        if m.id == listed[i] || m.id in merged {
          continue;
        }
        if m.score > THRESHOLD {
          ghost var now := facts;
          Merge(m.id, listed[i], w.links(m.id));
          PassMerges(listed, score, to, i, w.links, facts0, now, facts, vectors0, m.id);
          merged := merged + {m.id};
          to := to[m.id := i];
        }
      }
    }

    /** `op_dedup`: over any order of the listed facts, any answers and any failing embeddings or links, each
        fact is superseded at most once, by a fact it scores above the threshold with, and the count is the
        number of facts invalidated. If every search is whole, no two of the surviving facts that have a
        vector score above the threshold. */
    method OpDedup(listed: seq<FactId>, w: World, score: (FactId, FactId) -> real)
      returns (deduped: nat, ghost merged: map<FactId, nat>)
      requires w.Faithful(listed, score)
      modifies this
      ensures deduped == |merged| && merged.Keys <= old(vectors)
      ensures Linked(listed, score, merged)
      ensures vectors == old(vectors) - merged.Keys
      ensures FactsAfter(old(facts), facts, listed, merged, w.links)
      ensures forall f | f in old(facts) && f !in merged :: f in facts && facts[f] == old(facts)[f]
      ensures forall f | f in old(facts) && f in merged ::
                && f in facts && !facts[f].valid && merged[f] < |listed| && score(listed[merged[f]], f) > 0.99
                && facts[f].supersededBy == if w.links(f) then Some(listed[merged[f]]) else old(facts)[f].supersededBy
      ensures w.Complete(listed, score) ==> Spread(listed, vectors, score, merged, |listed|)
    {
      ghost var facts0, vectors0 := facts, vectors;
      var invalidated: set<FactId> := {};
      merged := map[];
      for i := 0 to |listed|
        invariant invalidated == merged.Keys && vectors == vectors0 - merged.Keys
        invariant InPass(listed, score, merged, i, w.links, facts0, facts, vectors0)
        invariant w.Complete(listed, score) ==> Spread(listed, vectors0, score, merged, i)
      {
        if listed[i] in invalidated || !w.embeds(i) {
          PassGoesOn(listed, score, merged, i, w.links, facts0, facts, vectors0);
          continue;
        }
        var matches := w.search(i, vectors);
        ghost var before := merged;
        invalidated, merged := MergeMatches(listed, i, matches, w, score, invalidated, merged, facts0, vectors0);
        if w.Complete(listed, score) {
          SpreadsOneMore(listed, vectors0, score, before, merged, i);
        }
      }
      assert PassState(listed, score, merged, |listed|, w.links, facts0, facts, vectors0);
      deduped := |invalidated|;
    }
  }

  // ---------------------------------------------------------------------------
  // Following the links
  // ---------------------------------------------------------------------------

  /** The fact a merged fact was merged into, and that one's, to the end. */
  ghost function Survivor(listed: seq<FactId>, score: (FactId, FactId) -> real, merged: map<FactId, nat>, f: FactId): FactId
    requires Linked(listed, score, merged)
    decreases if f in merged then |listed| - merged[f] else 0
  {
    if f in merged then Survivor(listed, score, merged, listed[merged[f]]) else f
  }

  /** Every chain of links ends, at a listed fact that was not merged, and after at most as many links as
      facts were listed: each link was made later in the pass than the one before it. */
  lemma {:induction false} ChainsEnd(listed: seq<FactId>, score: (FactId, FactId) -> real, merged: map<FactId, nat>, f: FactId)
    requires Linked(listed, score, merged)
    ensures var last := Survivor(listed, score, merged, f);
            && last !in merged
            && (f in merged ==> last in listed && last != f)
    decreases if f in merged then |listed| - merged[f] else 0
  {
    if f in merged {
      var keeper := listed[merged[f]];
      ChainsEnd(listed, score, merged, keeper);
    }
  }

  /** Of two listed survivors that both have a vector, neither scores above the threshold against the other
      whichever of them is searched for. */
  lemma SurvivorsStandApart(listed: seq<FactId>, vectors: set<FactId>, score: (FactId, FactId) -> real,
                            merged: map<FactId, nat>, f: FactId, g: FactId)
    requires Spread(listed, vectors, score, merged, |listed|)
    requires f in listed && g in listed && f != g && f !in merged && g !in merged && f in vectors && g in vectors
    ensures score(f, g) <= 0.99 && score(g, f) <= 0.99
  {
    var i :| 0 <= i < |listed| && listed[i] == f;
    var j :| 0 <= j < |listed| && listed[j] == g;
  }
}
