/**
 Token-budgeted context assembly in the system-prompt format with the default estimator
 (runtime/engram/src/context.rs). Texts are their bytes, as the estimator counts them.
 */
module Context {
  import opened Wrappers

  datatype Tier = Working | Conversation | Knowledge
  {
    function Priority(): nat {
      match this
      case Working => 0
      case Conversation => 1
      case Knowledge => 2
    }

    function Name(): string {
      match this
      case Working => "working"
      case Conversation => "conversation"
      case Knowledge => "knowledge"
    }
  }

  /** `date` is what the line shows: the fact's day when that is not today, else an event date it carries. */
  datatype Fact = Fact(text: string, tier: Tier, date: Option<string>)

  /** `CharTokenEstimator`. */
  function Estimate(length: nat): nat {
    (length + 3) / 4
  }

  const OVERHEAD: nat := 15

  function BudgetForFacts(budget: nat): nat {
    if budget < OVERHEAD then 0 else budget - OVERHEAD
  }

  function Cost(f: Fact): nat {
    Estimate(|f.text|) + 2
  }

  function Last(facts: seq<Fact>): Fact
    requires facts != []
  {
    facts[|facts| - 1]
  }

  function Front(facts: seq<Fact>): (r: seq<Fact>)
    requires facts != []
    ensures |r| == |facts| - 1 && facts == r + [Last(facts)]
  {
    facts[..|facts| - 1]
  }

  function TotalCost(facts: seq<Fact>): nat {
    if facts == [] then 0 else TotalCost(Front(facts)) + Cost(Last(facts))
  }

  lemma AddOne(facts: seq<Fact>, f: Fact)
    ensures facts + [f] != [] && Front(facts + [f]) == facts && Last(facts + [f]) == f
  {
  }

  // ---------------------------------------------------------------------------
  // Tier order
  // ---------------------------------------------------------------------------

  function OfTier(facts: seq<Fact>, t: Tier): (r: seq<Fact>)
    ensures |r| <= |facts|
  {
    if facts == [] then []
    else if Last(facts).tier == t then OfTier(Front(facts), t) + [Last(facts)]
    else OfTier(Front(facts), t)
  }

  lemma {:induction false} OfTierConcat(a: seq<Fact>, b: seq<Fact>, t: Tier)
    ensures OfTier(a + b, t) == OfTier(a, t) + OfTier(b, t)
  {
    if b == [] {
      assert a + b == a;
    } else {
      assert a + b == (a + Front(b)) + [Last(b)];
      AddOne(a + Front(b), Last(b));
      OfTierConcat(a, Front(b), t);
    }
  }

  lemma {:induction false} OfTierIsOfTier(facts: seq<Fact>, t: Tier)
    ensures forall i | 0 <= i < |OfTier(facts, t)| :: OfTier(facts, t)[i].tier == t
  {
    if facts != [] {
      OfTierIsOfTier(Front(facts), t);
    }
  }

  predicate AllOfTier(facts: seq<Fact>, t: Tier) {
    forall i | 0 <= i < |facts| :: facts[i].tier == t
  }

  lemma {:induction false} OfOneTier(facts: seq<Fact>, one: Tier, t: Tier)
    requires AllOfTier(facts, one)
    ensures OfTier(facts, t) == if t == one then facts else []
  {
    if facts != [] {
      OfOneTier(Front(facts), one, t);
    }
  }

  /** What a stable sort by tier leaves: each tier in its order, one after the other. */
  function TierOrder(facts: seq<Fact>): seq<Fact> {
    OfTier(facts, Working) + (OfTier(facts, Conversation) + OfTier(facts, Knowledge))
  }

  predicate SortedByTier(facts: seq<Fact>) {
    forall i, j | 0 <= i < j < |facts| :: facts[i].tier.Priority() <= facts[j].tier.Priority()
  }

  predicate SameTiers(a: seq<Fact>, b: seq<Fact>) {
    forall t: Tier :: OfTier(a, t) == OfTier(b, t)
  }

  lemma TierOrderKeepsTiers(facts: seq<Fact>)
    ensures SameTiers(TierOrder(facts), facts)
  {
    forall t: Tier ensures OfTier(TierOrder(facts), t) == OfTier(facts, t) {
      TierOfOrder(facts, t);
    }
  }

  lemma TierOfOrder(facts: seq<Fact>, t: Tier)
    ensures OfTier(TierOrder(facts), t) == OfTier(facts, t)
  {
    var w, c, k := OfTier(facts, Working), OfTier(facts, Conversation), OfTier(facts, Knowledge);
    OfTierConcat(w, c + k, t);
    OfTierConcat(c, k, t);
    OfTierTwice(facts, Working, t);
    OfTierTwice(facts, Conversation, t);
    OfTierTwice(facts, Knowledge, t);
  }

  lemma OfTierTwice(facts: seq<Fact>, one: Tier, t: Tier)
    ensures OfTier(OfTier(facts, one), t) == if t == one then OfTier(facts, one) else []
  {
    OfTierIsOfTier(facts, one);
    OfOneTier(OfTier(facts, one), one, t);
  }

  lemma TierOrderIsSorted(facts: seq<Fact>)
    ensures SortedByTier(TierOrder(facts))
  {
    OfTierIsOfTier(facts, Working);
    OfTierIsOfTier(facts, Conversation);
    OfTierIsOfTier(facts, Knowledge);
  }

  lemma {:induction false} NoneAbove(facts: seq<Fact>, t: Tier)
    requires forall i | 0 <= i < |facts| :: facts[i].tier.Priority() < t.Priority()
    ensures OfTier(facts, t) == []
  {
    if facts != [] {
      NoneAbove(Front(facts), t);
    }
  }

  /** A sorted list is its own tier order. */
  lemma {:induction false} SortedSplits(facts: seq<Fact>)
    requires SortedByTier(facts)
    ensures TierOrder(facts) == facts
  {
    if facts != [] {
      var front, last := Front(facts), Last(facts);
      SortedSplits(front);
      forall t: Tier | last.tier.Priority() < t.Priority() ensures OfTier(front, t) == [] {
        NoneAbove(front, t);
      }
      LastTier(front, last);
    }
  }

  lemma LastTier(front: seq<Fact>, last: Fact)
    requires TierOrder(front) == front
    requires forall t: Tier | last.tier.Priority() < t.Priority() :: OfTier(front, t) == []
    ensures TierOrder(front + [last]) == front + [last]
  {
    var w, c, k := OfTier(front, Working), OfTier(front, Conversation), OfTier(front, Knowledge);
    var x := [last];
    AddOne(front, last);
    match last.tier
    case Working => Append3(w, [], [], x);
    case Conversation => Append3(w, c, [], x);
    case Knowledge => Append3(w, c, k, x);
  }

  lemma Append3(w: seq<Fact>, c: seq<Fact>, k: seq<Fact>, x: seq<Fact>)
    ensures (w + (c + k)) + x == w + (c + (k + x))
    ensures k == [] ==> (w + (c + k)) + x == w + ((c + x) + k)
    ensures k == [] && c == [] ==> (w + (c + k)) + x == (w + x) + (c + k)
  {
  }

  /** The order is the only one that is sorted by tier and keeps each tier's facts as they were. */
  lemma StableSortIsUnique(facts: seq<Fact>, other: seq<Fact>)
    requires SortedByTier(other) && SameTiers(other, facts)
    ensures other == TierOrder(facts)
  {
    SortedSplits(other);
    assert OfTier(other, Working) == OfTier(facts, Working);
    assert OfTier(other, Conversation) == OfTier(facts, Conversation);
    assert OfTier(other, Knowledge) == OfTier(facts, Knowledge);
  }

  // The tiers partition the facts: their counts, costs and dates add up to the whole.

  lemma {:induction false} TierCountsAddUp(facts: seq<Fact>)
    ensures |OfTier(facts, Working)| + |OfTier(facts, Conversation)| + |OfTier(facts, Knowledge)| == |facts|
  {
    if facts != [] {
      TierCountsAddUp(Front(facts));
      LastOfTier(facts, Working);
      LastOfTier(facts, Conversation);
      LastOfTier(facts, Knowledge);
    }
  }

  lemma {:induction false} TierCostsAddUp(facts: seq<Fact>)
    ensures TotalCost(OfTier(facts, Working)) + TotalCost(OfTier(facts, Conversation)) + TotalCost(OfTier(facts, Knowledge))
         == TotalCost(facts)
  {
    if facts != [] {
      TierCostsAddUp(Front(facts));
      LastOfTier(facts, Working);
      LastOfTier(facts, Conversation);
      LastOfTier(facts, Knowledge);
    }
  }

  lemma {:induction false} TierDatesAddUp(facts: seq<Fact>)
    ensures Dated(OfTier(facts, Working)) + Dated(OfTier(facts, Conversation)) + Dated(OfTier(facts, Knowledge))
         == Dated(facts)
  {
    if facts != [] {
      TierDatesAddUp(Front(facts));
      LastOfTier(facts, Working);
      LastOfTier(facts, Conversation);
      LastOfTier(facts, Knowledge);
    }
  }

  lemma LastOfTier(facts: seq<Fact>, t: Tier)
    requires facts != []
    ensures var mine, others := OfTier(facts, t), OfTier(Front(facts), t);
            if Last(facts).tier == t
            then |mine| == 1 + |others| && TotalCost(mine) == Cost(Last(facts)) + TotalCost(others)
                 && Dated(mine) == Dated(others) + (if Last(facts).date.Some? then 1 else 0)
            else mine == others
  {
    if Last(facts).tier == t {
      AddOne(OfTier(Front(facts), t), Last(facts));
    }
  }

  function Dated(facts: seq<Fact>): (n: nat)
    ensures n <= |facts|
  {
    if facts == [] then 0 else Dated(Front(facts)) + (if Last(facts).date.Some? then 1 else 0)
  }

  /** One tier's facts, in their order. */
  method Pick(facts: seq<Fact>, t: Tier) returns (picked: seq<Fact>)
    ensures picked == OfTier(facts, t)
  {
    picked := [];
    for n := 0 to |facts|
      invariant picked == OfTier(facts[..n], t)
    {
      assert facts[..n + 1] == facts[..n] + [facts[n]];
      AddOne(facts[..n], facts[n]);
      if facts[n].tier == t {
        picked := picked + [facts[n]];
      }
    }
    assert facts[..|facts|] == facts;
  }

  /** `sort_by_tier_priority`, in place. */
  method SortByTierPriority(facts: array<Fact>)
    modifies facts
    ensures facts[..] == TierOrder(old(facts[..]))
  {
    var all := facts[..];
    var w := Pick(all, Working);
    var c := Pick(all, Conversation);
    var k := Pick(all, Knowledge);
    TierCountsAddUp(all);
    TierCostsAddUp(all);
    TierDatesAddUp(all);
    WriteBack(facts, w + (c + k));
  }

  method WriteBack(facts: array<Fact>, ordered: seq<Fact>)
    requires |ordered| == facts.Length
    modifies facts
    ensures facts[..] == ordered
  {
    for n := 0 to facts.Length
      invariant facts[..n] == ordered[..n]
    {
      facts[n] := ordered[n];
    }
  }

  // ---------------------------------------------------------------------------
  // Filling the budget
  // ---------------------------------------------------------------------------

  function Select(facts: seq<Fact>, kept: seq<bool>): (r: seq<Fact>)
    requires |kept| == |facts|
    ensures |r| <= |facts|
  {
    if facts == [] then []
    else
      var n := |facts| - 1;
      if kept[n] then Select(facts[..n], kept[..n]) + [facts[n]] else Select(facts[..n], kept[..n])
  }

  /** A fact is kept exactly when it fits beside those kept before it. */
  predicate Greedy(facts: seq<Fact>, kept: seq<bool>, budget: nat) {
    && |kept| == |facts|
    && forall k | 0 <= k < |facts| :: kept[k] <==> TotalCost(Select(facts[..k], kept[..k])) + Cost(facts[k]) <= budget
  }

  /** The state of the fill after some facts; unfolded only where `FillState` is named. */
  ghost predicate FillState(facts: seq<Fact>, kept: seq<bool>, included: seq<Fact>, tokens: nat, budget: nat) {
    Greedy(facts, kept, budget) && included == Select(facts, kept) && tokens == TotalCost(included)
  }

  ghost predicate Filled(facts: seq<Fact>, kept: seq<bool>, included: seq<Fact>, tokens: nat, budget: nat) {
    forall b | b == budget :: FillState(facts, kept, included, tokens, b)
  }

  lemma FillOne(facts: seq<Fact>, kept: seq<bool>, included: seq<Fact>, tokens: nat, budget: nat, f: Fact)
    requires Filled(facts, kept, included, tokens, budget)
    ensures var fits := tokens + Cost(f) <= budget;
            Filled(facts + [f], kept + [fits], if fits then included + [f] else included,
                   if fits then tokens + Cost(f) else tokens, budget)
  {
    assert FillState(facts, kept, included, tokens, budget);
    GreedyExtends(facts, kept, budget, f);
    TotalCostAdd(included, f);
  }

  method Fill(facts: seq<Fact>, budget: nat) returns (included: seq<Fact>, ghost kept: seq<bool>)
    ensures Greedy(facts, kept, budget) && included == Select(facts, kept)
  {
    included, kept := [], [];
    var tokenCount: nat := 0;
    for n := 0 to |facts|
      invariant Filled(facts[..n], kept, included, tokenCount, budget)
    {
      var factTokens := Estimate(|facts[n].text|) + 2;
      FillOne(facts[..n], kept, included, tokenCount, budget, facts[n]);
      assert facts[..n + 1] == facts[..n] + [facts[n]];
      var fits := tokenCount + factTokens <= budget;
      if fits {
        tokenCount := tokenCount + factTokens;
        included := included + [facts[n]];
      }
      kept := kept + [fits];
    }
    assert facts[..|facts|] == facts;
    assert FillState(facts, kept, included, tokenCount, budget);
  }

  /** The tokens charged for what was kept of the first `k` facts: a quarter of its length, rounded up, and two. */
  function Spent(facts: seq<Fact>, kept: seq<bool>, k: nat): nat
    requires k <= |facts| == |kept|
  {
    if k == 0 then 0
    else Spent(facts, kept, k - 1) + if kept[k - 1] then (|facts[k - 1].text| + 3) / 4 + 2 else 0
  }

  lemma CostStep(facts: seq<Fact>, kept: seq<bool>, k: nat)
    requires 0 < k <= |facts| == |kept|
    ensures TotalCost(Select(facts[..k], kept[..k]))
            == TotalCost(Select(facts[..k - 1], kept[..k - 1])) + if kept[k - 1] then Cost(facts[k - 1]) else 0
  {
    var some, choice := facts[..k], kept[..k];
    assert some[..k - 1] == facts[..k - 1] && choice[..k - 1] == kept[..k - 1];
    SelectCosts(some, choice);
  }

  lemma {:induction false} SpentIsTheCost(facts: seq<Fact>, kept: seq<bool>, k: nat)
    requires k <= |facts| == |kept|
    ensures Spent(facts, kept, k) == TotalCost(Select(facts[..k], kept[..k]))
  {
    if k > 0 {
      SpentIsTheCost(facts, kept, k - 1);
      CostStep(facts, kept, k);
    }
  }

  /** In numbers: a fact is kept exactly when fifteen tokens, what was spent before it and its own charge stay
      within the budget. */
  predicate KeptByTheNumbers(facts: seq<Fact>, kept: seq<bool>, budget: nat) {
    && |kept| == |facts|
    && forall k | 0 <= k < |facts| ::
         kept[k] <==> 15 + Spent(facts, kept, k) + (|facts[k].text| + 3) / 4 + 2 <= budget
  }

  lemma GreedyByTheNumbers(facts: seq<Fact>, kept: seq<bool>, budget: nat)
    requires Greedy(facts, kept, BudgetForFacts(budget))
    ensures KeptByTheNumbers(facts, kept, budget)
  {
    forall k | 0 <= k < |facts|
      ensures kept[k] <==> 15 + Spent(facts, kept, k) + (|facts[k].text| + 3) / 4 + 2 <= budget
    {
      GreedyAt(facts, kept, BudgetForFacts(budget), k);
      SpentIsTheCost(facts, kept, k);
    }
  }

  lemma TotalCostAdd(facts: seq<Fact>, f: Fact)
    ensures TotalCost(facts + [f]) == TotalCost(facts) + Cost(f)
  {
    AddOne(facts, f);
  }

  lemma {:induction false} GreedyExtends(facts: seq<Fact>, kept: seq<bool>, budget: nat, f: Fact)
    requires Greedy(facts, kept, budget)
    ensures var fits := TotalCost(Select(facts, kept)) + Cost(f) <= budget;
            && Greedy(facts + [f], kept + [fits], budget)
            && Select(facts + [f], kept + [fits]) == Select(facts, kept) + (if fits then [f] else [])
  {
    var fits := TotalCost(Select(facts, kept)) + Cost(f) <= budget;
    var more, choice := facts + [f], kept + [fits];
    assert more[..|facts|] == facts && choice[..|facts|] == kept;
    forall k | 0 <= k < |more| ensures choice[k] <==> TotalCost(Select(more[..k], choice[..k])) + Cost(more[k]) <= budget {
      if k < |facts| {
        StillGreedyAt(facts, kept, budget, f, fits, k);
      }
    }
  }

  lemma StillGreedyAt(facts: seq<Fact>, kept: seq<bool>, budget: nat, f: Fact, fits: bool, k: nat)
    requires Greedy(facts, kept, budget) && k < |facts|
    ensures var more, choice := facts + [f], kept + [fits];
            choice[k] <==> TotalCost(Select(more[..k], choice[..k])) + Cost(more[k]) <= budget
  {
    PrefixOfMore(facts, kept, f, fits, k);
    GreedyAt(facts, kept, budget, k);
  }

  lemma PrefixOfMore(facts: seq<Fact>, kept: seq<bool>, f: Fact, fits: bool, k: nat)
    requires |kept| == |facts| && k < |facts|
    ensures (facts + [f])[..k] == facts[..k] && (kept + [fits])[..k] == kept[..k]
    ensures (facts + [f])[k] == facts[k] && (kept + [fits])[k] == kept[k]
  {
  }

  lemma SelectCosts(facts: seq<Fact>, kept: seq<bool>)
    requires |kept| == |facts| && facts != []
    ensures var n := |facts| - 1;
            TotalCost(Select(facts, kept))
              == TotalCost(Select(facts[..n], kept[..n])) + (if kept[n] then Cost(facts[n]) else 0)
  {
    var n := |facts| - 1;
    AddOne(Select(facts[..n], kept[..n]), facts[n]);
  }

  lemma {:induction false} SelectGrows(facts: seq<Fact>, kept: seq<bool>, k: nat)
    requires |kept| == |facts| && k <= |facts|
    ensures TotalCost(Select(facts[..k], kept[..k])) <= TotalCost(Select(facts, kept))
  {
    if k == |facts| {
      assert facts[..k] == facts && kept[..k] == kept;
    } else {
      var n := |facts| - 1;
      var front, choice := facts[..n], kept[..n];
      SelectGrows(front, choice, k);
      assert front[..k] == facts[..k] && choice[..k] == kept[..k];
      SelectCosts(facts, kept);
    }
  }

  /** What is kept fits, nothing that was left out would still fit, and so the fill is maximal; going
      through the facts in order there is only one such choice. */
  lemma {:induction false} GreedyIsMaximal(facts: seq<Fact>, kept: seq<bool>, budget: nat)
    requires Greedy(facts, kept, budget)
    ensures TotalCost(Select(facts, kept)) <= budget
    ensures forall k | 0 <= k < |facts| && !kept[k] :: TotalCost(Select(facts, kept)) + Cost(facts[k]) > budget
  {
    GreedyFits(facts, kept, budget);
    forall k | 0 <= k < |facts| && !kept[k] ensures TotalCost(Select(facts, kept)) + Cost(facts[k]) > budget {
      SelectGrows(facts, kept, k);
    }
  }

  lemma {:induction false} GreedyFits(facts: seq<Fact>, kept: seq<bool>, budget: nat)
    requires Greedy(facts, kept, budget)
    ensures TotalCost(Select(facts, kept)) <= budget
  {
    if facts != [] {
      var n := |facts| - 1;
      GreedyPrefix(facts, kept, budget, n);
      GreedyFits(facts[..n], kept[..n], budget);
      GreedyAt(facts, kept, budget, n);
      SelectCosts(facts, kept);
    }
  }

  lemma GreedyAt(facts: seq<Fact>, kept: seq<bool>, budget: nat, n: nat)
    requires Greedy(facts, kept, budget) && n < |facts|
    ensures kept[n] <==> TotalCost(Select(facts[..n], kept[..n])) + Cost(facts[n]) <= budget
  {
  }

  lemma {:induction false} GreedyPrefix(facts: seq<Fact>, kept: seq<bool>, budget: nat, n: nat)
    requires Greedy(facts, kept, budget) && n <= |facts|
    ensures Greedy(facts[..n], kept[..n], budget)
  {
    forall k | 0 <= k < n
      ensures kept[..n][k] <==> TotalCost(Select(facts[..n][..k], kept[..n][..k])) + Cost(facts[..n][k]) <= budget
    {
      assert facts[..n][..k] == facts[..k] && kept[..n][..k] == kept[..k];
    }
  }

  lemma {:induction false} GreedyIsUnique(facts: seq<Fact>, one: seq<bool>, two: seq<bool>, budget: nat)
    requires Greedy(facts, one, budget) && Greedy(facts, two, budget)
    ensures one == two
  {
    if facts != [] {
      var n := |facts| - 1;
      GreedyPrefix(facts, one, budget, n);
      GreedyPrefix(facts, two, budget, n);
      GreedyIsUnique(facts[..n], one[..n], two[..n], budget);
      GreedyAt(facts, one, budget, n);
      GreedyAt(facts, two, budget, n);
      SameChoice(one, two, n);
    }
  }

  lemma SameChoice(one: seq<bool>, two: seq<bool>, n: nat)
    requires |one| == |two| == n + 1 && one[..n] == two[..n] && one[n] == two[n]
    ensures one == two
  {
    assert one == one[..n] + [one[n]] && two == two[..n] + [two[n]];
  }

  /** Choosing keeps the order: what is included of a sorted list is sorted. */
  lemma {:induction false} SelectKeepsOrder(facts: seq<Fact>, kept: seq<bool>)
    requires |kept| == |facts| && SortedByTier(facts)
    ensures SortedByTier(Select(facts, kept))
    ensures facts != [] ==> forall i | 0 <= i < |Select(facts, kept)| ::
              Select(facts, kept)[i].tier.Priority() <= facts[|facts| - 1].tier.Priority()
  {
    if facts != [] {
      var n := |facts| - 1;
      SelectKeepsOrder(facts[..n], kept[..n]);
      if n > 0 {
        assert facts[..n][n - 1].tier.Priority() <= facts[n].tier.Priority();
      }
    }
  }

  // ---------------------------------------------------------------------------
  // The system prompt
  // ---------------------------------------------------------------------------

  function Line(f: Fact): string {
    match f.date
    case Some(date) => "- [" + date + "] " + f.text
    case None => "- " + f.text
  }

  function Lines(facts: seq<Fact>): string {
    if facts == [] then "" else Lines(Front(facts)) + (Line(Last(facts)) + "\n")
  }

  function Section(facts: seq<Fact>, t: Tier): string {
    var mine := OfTier(facts, t);
    if mine == [] then "" else "<" + t.Name() + ">\n" + Lines(mine) + "</" + t.Name() + ">\n"
  }

  function SystemPrompt(facts: seq<Fact>): string {
    "<memory>\n" + Section(facts, Working) + Section(facts, Conversation) + Section(facts, Knowledge) + "</memory>"
  }

  /** The prompt of one fact, letter by letter. */
  lemma PromptOfOne(text: string, day: Option<string>, t: Tier)
    ensures SystemPrompt([Fact(text, t, day)])
            == "<memory>\n" + ("<" + t.Name() + ">\n" + ("- " + (if day.Some? then "[" + day.value + "] " else "") + text + "\n")
                               + "</" + t.Name() + ">\n") + "</memory>"
    ensures t.Name() == match t case Working => "working" case Conversation => "conversation" case Knowledge => "knowledge"
  {
    var f := Fact(text, t, day);
    assert Front([f]) == [] && Last([f]) == f;
    assert Line(f) == "- " + (if day.Some? then "[" + day.value + "] " else "") + text;
    assert Lines([f]) == Line(f) + "\n";
    assert OfTier([f], t) == [f];
    assert forall other: Tier | other != t :: OfTier([f], other) == [];
  }

  method JoinLines(mine: seq<Fact>) returns (body: string)
    ensures body == Lines(mine)
  {
    body := "";
    for n := 0 to |mine|
      invariant body == Lines(mine[..n])
    {
      assert mine[..n + 1] == mine[..n] + [mine[n]];
      AddOne(mine[..n], mine[n]);
      body := body + (Line(mine[n]) + "\n");
    }
    assert mine[..|mine|] == mine;
  }

  method PushSection(out: string, mine: seq<Fact>, t: Tier, ghost facts: seq<Fact>) returns (pushed: string)
    requires mine == OfTier(facts, t)
    ensures pushed == out + Section(facts, t)
  {
    if |mine| == 0 {
      return out;
    }
    var body := JoinLines(mine);
    return out + ("<" + t.Name() + ">\n" + body + "</" + t.Name() + ">\n");
  }

  method FormatSystemPrompt(facts: seq<Fact>) returns (out: string)
    ensures out == SystemPrompt(facts)
  {
    var w := Pick(facts, Working);
    var c := Pick(facts, Conversation);
    var k := Pick(facts, Knowledge);
    out := "<memory>\n";
    out := PushSection(out, w, Working, facts);
    out := PushSection(out, c, Conversation, facts);
    out := PushSection(out, k, Knowledge, facts);
    out := out + "</memory>";
  }

  // ---------------------------------------------------------------------------
  // How long it gets
  // ---------------------------------------------------------------------------

  predicate ShortDates(facts: seq<Fact>) {
    forall i | 0 <= i < |facts| && facts[i].date.Some? :: |facts[i].date.value| == 10
  }

  lemma {:induction false} LinesAreCharged(facts: seq<Fact>)
    requires ShortDates(facts)
    ensures |Lines(facts)| <= 4 * TotalCost(facts) - 5 * |facts| + 13 * Dated(facts)
  {
    if facts != [] {
      LinesAreCharged(Front(facts));
    }
  }

  lemma {:induction false} OfTierKeepsDates(facts: seq<Fact>, t: Tier)
    requires ShortDates(facts)
    ensures ShortDates(OfTier(facts, t))
  {
    if facts != [] {
      OfTierKeepsDates(Front(facts), t);
    }
  }

  function Tags(t: Tier): nat {
    match t
    case Working => 21
    case Conversation => 31
    case Knowledge => 25
  }

  lemma SectionIsCharged(facts: seq<Fact>, t: Tier)
    requires ShortDates(facts)
    ensures var mine := OfTier(facts, t);
            |Section(facts, t)| <= (if mine == [] then 0 else Tags(t)) + 4 * TotalCost(mine) - 5 * |mine| + 13 * Dated(mine)
  {
    OfTierKeepsDates(facts, t);
    LinesAreCharged(OfTier(facts, t));
    assert |t.Name()| == match t case Working => 7 case Conversation => 12 case Knowledge => 9;
  }

  /** The estimate of the whole prompt against the budget the facts were chosen under: five tokens over at
      most when no fact is dated, and nine and two for each fact when their dates have ten characters. */
  lemma {:induction false} PromptNearBudget(facts: seq<Fact>, budget: nat)
    requires ShortDates(facts) && TotalCost(facts) <= BudgetForFacts(budget)
    ensures Dated(facts) == 0 ==> Estimate(|SystemPrompt(facts)|) <= budget + 5
    ensures Estimate(|SystemPrompt(facts)|) <= budget + 9 + 2 * |facts|
  {
    SectionIsCharged(facts, Working);
    SectionIsCharged(facts, Conversation);
    SectionIsCharged(facts, Knowledge);
    TierCountsAddUp(facts);
    TierCostsAddUp(facts);
    TierDatesAddUp(facts);
    CostsSomething(facts);
    PromptLength(facts);
    var w, c, k := OfTier(facts, Working), OfTier(facts, Conversation), OfTier(facts, Knowledge);
    WithinBudget(|w|, |c|, |k|, TotalCost(facts), Dated(facts), |SystemPrompt(facts)|, budget);
  }

  lemma PromptLength(facts: seq<Fact>)
    ensures |SystemPrompt(facts)| == 18 + |Section(facts, Working)| + |Section(facts, Conversation)| + |Section(facts, Knowledge)|
  {
  }

  /** The arithmetic of it: the tags of the tiers that occur, the lines and their dates, against the fixed
      overhead and the prefix each fact was charged for. */
  lemma WithinBudget(w: nat, c: nat, k: nat, cost: nat, dated: nat, length: nat, budget: nat)
    requires dated <= w + c + k && cost <= BudgetForFacts(budget) && (w + c + k > 0 ==> cost >= 2)
    requires w + c + k == 0 ==> cost == 0
    requires length <= 18 + (if w == 0 then 0 else 21) + (if c == 0 then 0 else 31) + (if k == 0 then 0 else 25)
                       + 4 * cost - 5 * (w + c + k) + 13 * dated
    ensures dated == 0 ==> Estimate(length) <= budget + 5
    ensures Estimate(length) <= budget + 9 + 2 * (w + c + k)
  {
  }

  lemma CostsSomething(facts: seq<Fact>)
    ensures if facts == [] then TotalCost(facts) == 0 else TotalCost(facts) >= 2
  {
  }

  /** The bound is met: the empty prompt estimates to five tokens whatever the budget, zero included. */
  lemma EmptyPromptCostsFive()
    ensures Estimate(|SystemPrompt([])|) == 5
  {
    assert |SystemPrompt([])| == 18;
  }

  // ---------------------------------------------------------------------------
  // The builder
  // ---------------------------------------------------------------------------

  datatype Block = Block(text: string, tokenCount: nat, factsIncluded: nat, factsOmitted: nat,
                         tierBreakdown: map<string, nat>)

  /** The counts say, under each tier's name, how many facts of it there are; a tier with none is absent. */
  predicate Tallies(counts: map<string, nat>, facts: seq<Fact>, t: Tier) {
    && (t.Name() in counts <==> OfTier(facts, t) != [])
    && (t.Name() in counts ==> counts[t.Name()] == |OfTier(facts, t)|)
  }

  method Breakdown(included: seq<Fact>) returns (counts: map<string, nat>)
    ensures forall t: Tier :: Tallies(counts, included, t)
    ensures counts.Keys <= {Working.Name(), Conversation.Name(), Knowledge.Name()}
  {
    counts := map[];
    for n := 0 to |included|
      invariant forall t: Tier :: Tallies(counts, included[..n], t)
      invariant counts.Keys <= {Working.Name(), Conversation.Name(), Knowledge.Name()}
    {
      var name := included[n].tier.Name();
      ghost var was := counts;
      counts := counts[name := (if name in counts then counts[name] else 0) + 1];
      ghost var longer := included[..n + 1];
      assert longer == included[..n] + [included[n]];
      forall t: Tier ensures Tallies(counts, longer, t) {
        TallyOne(was, included[..n], included[n], t);
      }
    }
    assert included[..|included|] == included;
  }

  lemma TallyOne(counts: map<string, nat>, facts: seq<Fact>, f: Fact, t: Tier)
    requires Tallies(counts, facts, t)
    ensures var name := f.tier.Name();
            Tallies(counts[name := (if name in counts then counts[name] else 0) + 1], facts + [f], t)
  {
    AddOne(facts, f);
    TierNames();
  }

  lemma TierNames()
    ensures forall s: Tier, t: Tier :: s.Name() == t.Name() ==> s == t
  {
    assert |"working"| == 7 && |"conversation"| == 12 && |"knowledge"| == 9;
  }

  /** `ContextBuilder::build` from the candidates the retriever returned, best first. */
  method Build(candidates: seq<Fact>, budget: nat) returns (block: Block, ghost included: seq<Fact>, ghost kept: seq<bool>)
    ensures Greedy(TierOrder(candidates), kept, BudgetForFacts(budget))
    ensures included == Select(TierOrder(candidates), kept) && SortedByTier(included)
    ensures KeptByTheNumbers(TierOrder(candidates), kept, budget)
    ensures block.text == SystemPrompt(included) && block.tokenCount == Estimate(|block.text|)
    ensures block.factsIncluded == |included| && block.factsIncluded + block.factsOmitted == |candidates|
    ensures forall t: Tier :: Tallies(block.tierBreakdown, included, t)
    ensures ShortDates(candidates) ==> block.tokenCount <= budget + 9 + 2 * block.factsIncluded
    ensures Dated(included) == 0 ==> block.tokenCount <= budget + 5
  {
    var facts := new Fact[|candidates|](i requires 0 <= i < |candidates| => candidates[i]);
    assert facts[..] == candidates;
    SortByTierPriority(facts);
    var ordered := facts[..];
    var chosen;
    chosen, kept := Fill(ordered, BudgetForFacts(budget));
    included := chosen;
    TierOrderIsSorted(candidates);
    TierCountsAddUp(candidates);
    TierCostsAddUp(candidates);
    TierDatesAddUp(candidates);
    SelectKeepsOrder(ordered, kept);
    GreedyIsMaximal(ordered, kept, BudgetForFacts(budget));
    GreedyByTheNumbers(ordered, kept, budget);
    var counts := Breakdown(chosen);
    var text := FormatSystemPrompt(chosen);
    block := Block(text, Estimate(|text|), |chosen|, |ordered| - |chosen|, counts);
    if Dated(included) == 0 {
      UndatedIsShort(included);
      PromptNearBudget(included, budget);
    }
    if ShortDates(candidates) {
      OrderKeepsDates(candidates);
      SelectKeepsDates(ordered, kept);
      PromptNearBudget(included, budget);
    }
  }

  lemma {:induction false} UndatedIsShort(facts: seq<Fact>)
    requires Dated(facts) == 0
    ensures ShortDates(facts)
  {
    if facts != [] {
      UndatedIsShort(Front(facts));
    }
  }

  lemma OrderKeepsDates(facts: seq<Fact>)
    requires ShortDates(facts)
    ensures ShortDates(TierOrder(facts))
  {
    OfTierKeepsDates(facts, Working);
    OfTierKeepsDates(facts, Conversation);
    OfTierKeepsDates(facts, Knowledge);
  }

  lemma {:induction false} SelectKeepsDates(facts: seq<Fact>, kept: seq<bool>)
    requires |kept| == |facts| && ShortDates(facts)
    ensures ShortDates(Select(facts, kept))
  {
    if facts != [] {
      SelectKeepsDates(facts[..|facts| - 1], kept[..|facts| - 1]);
    }
  }
}
