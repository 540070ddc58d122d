// The two orders a study pass can take: a Fisher-Yates shuffle (random mode)
// and weighted sampling without replacement that favours low scores (focus
// mode). `Math.random()` is an injected sequence of draws in [0, 1), one per
// step; `Math.pow(2, e)` is an injected weighting, positive on [0, 3].

module Shuffle {
  import opened Records
  import Scoring

  datatype StudyMode = Random | Focus

  /** Every draw lies where `Math.random()` puts it: in [0, 1). */
  predicate UnitDraws(draws: seq<real>)
  {
    forall k :: 0 <= k < |draws| ==> 0.0 <= draws[k] < 1.0
  }

  /** A draw scaled to `x` stays in [0, x). */
  lemma ScaleBelow(u: real, x: real)
    requires 0.0 <= u < 1.0 && x > 0.0
    ensures 0.0 <= u * x < x
  {
  }

  // ---------------------------------------------------------------------
  // Random mode: Fisher-Yates

  /** `Math.floor(Math.random() * (i + 1))`: a position in [0, i]. */
  function SwapIndex(u: real, i: nat): (j: nat)
    requires 0.0 <= u < 1.0
    ensures j <= i
  {
    ScaleBelow(u, (i + 1) as real);
    (u * (i + 1) as real).Floor
  }

  /** The sequence with the elements at `i` and `j` exchanged. */
  function Swap<T>(s: seq<T>, i: nat, j: nat): (r: seq<T>)
    requires i < |s| && j < |s|
    ensures |r| == |s| && r[i] == s[j] && r[j] == s[i]
    ensures forall k :: 0 <= k < |s| && k != i && k != j ==> r[k] == s[k]
  {
    s[i := s[j]][j := s[i]]
  }

  lemma SwapPermutes<T>(s: seq<T>, i: nat, j: nat)
    requires i < |s| && j < |s|
    ensures |Swap(s, i, j)| == |s|
    ensures multiset(Swap(s, i, j)) == multiset(s)
  {
    var t := s[i := s[j]];
    assert multiset(t) == multiset(s) - multiset{s[i]} + multiset{s[j]};
  }

  /** The steps of the descending loop from position `i` down to 1; the step
      at `i` uses draw number `|s| - 1 - i`. */
  function FisherYatesFrom<T>(s: seq<T>, draws: seq<real>, i: nat): seq<T>
    requires i < |s| <= |draws| && UnitDraws(draws)
    decreases i
  {
    if i == 0 then s
    else FisherYatesFrom(Swap(s, i, SwapIndex(draws[|s| - 1 - i], i)), draws, i - 1)
  }

  /** The order random mode gives `s` for the given draws. */
  function FisherYates<T>(s: seq<T>, draws: seq<real>): seq<T>
    requires |s| <= |draws| && UnitDraws(draws)
  {
    if |s| == 0 then s else FisherYatesFrom(s, draws, |s| - 1)
  }

  lemma {:induction false} FisherYatesFromPermutes<T>(s: seq<T>, draws: seq<real>, i: nat)
    requires i < |s| <= |draws| && UnitDraws(draws)
    ensures |FisherYatesFrom(s, draws, i)| == |s|
    ensures multiset(FisherYatesFrom(s, draws, i)) == multiset(s)
    decreases i
  {
    if i > 0 {
      var j := SwapIndex(draws[|s| - 1 - i], i);
      SwapPermutes(s, i, j);
      FisherYatesFromPermutes(Swap(s, i, j), draws, i - 1);
    }
  }

  /** Whatever the draws, random mode reorders the cards and loses none. */
  lemma FisherYatesPermutes<T>(s: seq<T>, draws: seq<real>)
    requires |s| <= |draws| && UnitDraws(draws)
    ensures |FisherYates(s, draws)| == |s|
    ensures multiset(FisherYates(s, draws)) == multiset(s)
  {
    if |s| > 0 {
      FisherYatesFromPermutes(s, draws, |s| - 1);
    }
  }

  /** The in-place loop of `shuffleCards` in random mode. */
  method ShuffleInPlace<T>(a: array<T>, draws: seq<real>)
    requires a.Length <= |draws| && UnitDraws(draws)
    modifies a
    ensures a[..] == FisherYates(old(a[..]), draws)
  {
    var i := a.Length - 1;
    while i > 0
      invariant a.Length == 0 ==> i == -1
      invariant a.Length > 0 ==> 0 <= i < a.Length
      invariant a.Length > 0 ==> FisherYatesFrom(a[..], draws, i) == FisherYates(old(a[..]), draws)
    {
      var j := SwapIndex(draws[a.Length - 1 - i], i);
      ghost var before := a[..];
      a[i], a[j] := a[j], a[i];
      assert a[..] == Swap(before, i, j);
      i := i - 1;
    }
  }

  // ---------------------------------------------------------------------
  // Focus mode: weighted sampling without replacement

  /** A card paired with its sampling weight (`{ card, weight }`). */
  datatype Weighted<T> = Weighted(item: T, weight: real)

  predicate PositiveWeights<T>(ws: seq<Weighted<T>>)
  {
    forall k :: 0 <= k < |ws| ==> ws[k].weight > 0.0
  }

  /** The weight of `ws[i..]`. */
  function SumFrom<T>(ws: seq<Weighted<T>>, i: nat): (r: real)
    requires i <= |ws|
    ensures i == |ws| ==> r == 0.0
    decreases |ws| - i
  {
    if i == |ws| then 0.0 else ws[i].weight + SumFrom(ws, i + 1)
  }

  /** `remaining.reduce((sum, item) => sum + item.weight, 0)` */
  function TotalWeight<T>(ws: seq<Weighted<T>>): (r: real)
    ensures r == SumFrom(ws, 0)
  {
    SumFrom(ws, 0)
  }

  lemma {:induction false} SumFromPositive<T>(ws: seq<Weighted<T>>, i: nat)
    requires i < |ws| && PositiveWeights(ws)
    ensures SumFrom(ws, i) > 0.0
    decreases |ws| - i
  {
    if i + 1 < |ws| {
      SumFromPositive(ws, i + 1);
    }
  }

  /** The running weight of `ws[i..k]`: what the walk has subtracted from the
      draw once it has passed positions `i` to `k - 1`. */
  function Prefix<T>(ws: seq<Weighted<T>>, i: nat, k: nat): real
    requires i <= k <= |ws|
    decreases k - i
  {
    if k == i then 0.0 else Prefix(ws, i, k - 1) + ws[k - 1].weight
  }

  /** The running weight from `i` is the weight at `i` plus the running
      weight from `i + 1`. */
  lemma {:induction false} PrefixShift<T>(ws: seq<Weighted<T>>, i: nat, k: nat)
    requires i < k <= |ws|
    ensures Prefix(ws, i, k) == ws[i].weight + Prefix(ws, i + 1, k)
    decreases k - i
  {
    if k > i + 1 {
      PrefixShift(ws, i, k - 1);
    }
  }

  /** The walk that subtracts weights from the draw `r` until it drops to 0 or
      below, starting at position `i`: the position it stops at, which is the
      first one whose running weight reaches the draw. */
  function PickFrom<T>(ws: seq<Weighted<T>>, r: real, i: nat): (k: nat)
    requires i < |ws| && PositiveWeights(ws) && r < SumFrom(ws, i)
    ensures i <= k < |ws|
    ensures r <= Prefix(ws, i, k + 1)
    ensures forall j :: i < j <= k ==> Prefix(ws, i, j) < r
    decreases |ws| - i
  {
    var rest := r - ws[i].weight;
    if rest <= 0.0 then i
    else
      var k := PickFrom(ws, rest, i + 1);
      PrefixShift(ws, i, k + 1);
      forall j | i + 1 < j <= k
        ensures Prefix(ws, i, j) < r
      {
        PrefixShift(ws, i, j);
      }
      k
  }

  /** `remaining.splice(k, 1)` */
  function RemoveAt<T>(s: seq<T>, k: nat): (r: seq<T>)
    requires k < |s|
    ensures |r| == |s| - 1
    ensures forall j :: 0 <= j < k ==> r[j] == s[j]
    ensures forall j :: k <= j < |r| ==> r[j] == s[j + 1]
  {
    s[..k] + s[k + 1..]
  }

  lemma RemoveAtMultiset<T>(s: seq<T>, k: nat)
    requires k < |s|
    ensures multiset(RemoveAt(s, k)) + multiset{s[k]} == multiset(s)
  {
    assert s == s[..k] + [s[k]] + s[k + 1..];
  }

  lemma RemoveAtPositive<T>(ws: seq<Weighted<T>>, k: nat)
    requires k < |ws| && PositiveWeights(ws)
    ensures PositiveWeights(RemoveAt(ws, k))
  {
  }

  /** `Math.random() * totalWeight` for the draw `u`. */
  function Target<T>(ws: seq<Weighted<T>>, u: real): real
  {
    u * TotalWeight(ws)
  }

  /** The target lies below the total weight. */
  lemma DrawBelowTotal<T>(ws: seq<Weighted<T>>, u: real)
    requires |ws| > 0 && PositiveWeights(ws) && 0.0 <= u < 1.0
    ensures Target(ws, u) < SumFrom(ws, 0)
  {
    SumFromPositive(ws, 0);
    var total := SumFrom(ws, 0);
    ScaleBelow(u, total);
    calc {
      u * TotalWeight(ws);
      == u * total;
      < total;
    }
  }

  /** The items of a weighted sequence, in order. */
  function Items<T>(ws: seq<Weighted<T>>): (r: seq<T>)
    ensures |r| == |ws|
    ensures forall k :: 0 <= k < |ws| ==> r[k] == ws[k].item
  {
    seq(|ws|, k requires 0 <= k < |ws| => ws[k].item)
  }

  /** Removing a weighted item removes its item. */
  lemma ItemsRemoveAt<T>(ws: seq<Weighted<T>>, k: nat)
    requires k < |ws|
    ensures Items(RemoveAt(ws, k)) == RemoveAt(Items(ws), k)
  {
    var a, b := Items(RemoveAt(ws, k)), RemoveAt(Items(ws), k);
    assert |a| == |b|;
    forall j | 0 <= j < |a|
      ensures a[j] == b[j]
    {
      if j < k {
        assert RemoveAt(ws, k)[j] == ws[j];
        assert b[j] == Items(ws)[j];
      } else {
        assert RemoveAt(ws, k)[j] == ws[j + 1];
        assert b[j] == Items(ws)[j + 1];
      }
    }
  }

  /** The order the sampling loop produces: each round draws
      `Math.random() * totalWeight`, takes the item the walk stops at and
      removes it. */
  function Sample<T>(ws: seq<Weighted<T>>, draws: seq<real>): seq<T>
    requires PositiveWeights(ws) && |ws| <= |draws| && UnitDraws(draws)
    decreases |ws|
  {
    if |ws| == 0 then []
    else
      DrawBelowTotal(ws, draws[0]);
      var k := PickFrom(ws, Target(ws, draws[0]), 0);
      RemoveAtPositive(ws, k);
      [ws[k].item] + Sample(RemoveAt(ws, k), draws[1..])
  }

  /** One round of `Sample`: the first item drawn, then the rest. */
  lemma SampleStep<T>(ws: seq<Weighted<T>>, draws: seq<real>, k: nat)
    requires PositiveWeights(ws) && 0 < |ws| <= |draws| && UnitDraws(draws)
    requires Target(ws, draws[0]) < SumFrom(ws, 0)
    requires k == PickFrom(ws, Target(ws, draws[0]), 0)
    ensures PositiveWeights(RemoveAt(ws, k))
    ensures Sample(ws, draws) == [ws[k].item] + Sample(RemoveAt(ws, k), draws[1..])
  {
    RemoveAtPositive(ws, k);
  }

  /** Whatever the weights and draws, every item comes out exactly once. */
  lemma {:induction false} SamplePermutes<T>(ws: seq<Weighted<T>>, draws: seq<real>)
    requires PositiveWeights(ws) && |ws| <= |draws| && UnitDraws(draws)
    ensures |Sample(ws, draws)| == |ws|
    ensures multiset(Sample(ws, draws)) == multiset(Items(ws))
    decreases |ws|
  {
    if |ws| > 0 {
      DrawBelowTotal(ws, draws[0]);
      var k := PickFrom(ws, Target(ws, draws[0]), 0);
      var rest := RemoveAt(ws, k);
      SampleStep(ws, draws, k);
      var tail := Sample(rest, draws[1..]);
      SamplePermutes(rest, draws[1..]);
      ItemsRemoveAt(ws, k);
      RemoveAtMultiset(Items(ws), k);
      calc {
        multiset(Sample(ws, draws));
        multiset([ws[k].item] + tail);
        multiset{ws[k].item} + multiset(tail);
        multiset{Items(ws)[k]} + multiset(RemoveAt(Items(ws), k));
        multiset(Items(ws));
      }
    }
  }

  // ---------------------------------------------------------------------
  // Focus-mode weights

  /** `Math.pow(2, e)` stands for any weighting positive on [0, 3]. */
  ghost predicate PositiveWeighting(pow2: real -> real)
  {
    forall e :: 0.0 <= e <= 3.0 ==> pow2(e) > 0.0
  }

  /** ... and, like `Math.pow(2, e)`, increasing in the exponent. */
  ghost predicate MonotoneWeighting(pow2: real -> real)
  {
    forall e1, e2 :: 0.0 <= e1 <= e2 <= 3.0 ==> pow2(e1) <= pow2(e2)
  }

  /** `Math.min(...cards.map((c) => c.score || 0))` */
  function MinScore(cards: seq<Card>): (m: int)
    requires |cards| > 0
    ensures forall k :: 0 <= k < |cards| ==> m <= ScoreOf(cards[k])
    ensures exists k :: 0 <= k < |cards| && ScoreOf(cards[k]) == m
  {
    if |cards| == 1 then ScoreOf(cards[0])
    else
      var m := MinScore(cards[1..]);
      if ScoreOf(cards[0]) <= m then ScoreOf(cards[0]) else m
  }

  /** `Math.max(...cards.map((c) => c.score || 0))` */
  function MaxScore(cards: seq<Card>): (m: int)
    requires |cards| > 0
    ensures forall k :: 0 <= k < |cards| ==> ScoreOf(cards[k]) <= m
    ensures exists k :: 0 <= k < |cards| && ScoreOf(cards[k]) == m
  {
    if |cards| == 1 then ScoreOf(cards[0])
    else
      var m := MaxScore(cards[1..]);
      if ScoreOf(cards[0]) >= m then ScoreOf(cards[0]) else m
  }

  /** `maxScore - minScore || 1`: the score range, 1 when all scores are equal. */
  function Range(lo: int, hi: int): (r: int)
    requires lo <= hi
    ensures r >= 1
    ensures lo == hi ==> r == 1
    ensures lo < hi ==> r == hi - lo
  {
    if hi - lo == 0 then 1 else hi - lo
  }

  /** `(maxScore - score) / range * 3`: the weight exponent of a card. It lies
      in [0, 3], is 0 for the highest score and 3 for the lowest one when the
      scores are not all equal. */
  function Exponent(score: int, lo: int, hi: int): (e: real)
    requires lo <= score <= hi
    ensures 0.0 <= e <= 3.0
    ensures score == hi ==> e == 0.0
    ensures score == lo && lo < hi ==> e == 3.0
  {
    var range := Range(lo, hi) as real;
    Scoring.DivideMonotone(0.0, (hi - score) as real, range);
    Scoring.DivideMonotone((hi - score) as real, range, range);
    (hi - score) as real / range * 3.0
  }

  /** A higher score never gets a larger exponent. */
  lemma ExponentAntitone(s1: int, s2: int, lo: int, hi: int)
    requires lo <= s1 <= s2 <= hi
    ensures Exponent(s1, lo, hi) >= Exponent(s2, lo, hi)
  {
    Scoring.DivideMonotone((hi - s2) as real, (hi - s1) as real, Range(lo, hi) as real);
  }

  /** `cards.map((card) => ({ card, weight: Math.pow(2, exponent) }))` */
  function WeightCards(cards: seq<Card>, pow2: real -> real): (ws: seq<Weighted<Card>>)
    requires PositiveWeighting(pow2)
    ensures Items(ws) == cards
    ensures PositiveWeights(ws)
    ensures |cards| > 0 ==> forall k :: 0 <= k < |ws| ==>
      ws[k].weight == pow2(Exponent(ScoreOf(cards[k]), MinScore(cards), MaxScore(cards)))
  {
    if |cards| == 0 then []
    else
      var lo, hi := MinScore(cards), MaxScore(cards);
      seq(|cards|, k requires 0 <= k < |cards| => Weighted(cards[k], pow2(Exponent(ScoreOf(cards[k]), lo, hi))))
  }

  /** The order focus mode gives the cards for the given draws. */
  function WeightedOrder(cards: seq<Card>, draws: seq<real>, pow2: real -> real): seq<Card>
    requires PositiveWeighting(pow2) && |cards| <= |draws| && UnitDraws(draws)
  {
    Sample(WeightCards(cards, pow2), draws)
  }

  /** Focus mode returns every card exactly once, whatever the scores. */
  lemma WeightedOrderPermutes(cards: seq<Card>, draws: seq<real>, pow2: real -> real)
    requires PositiveWeighting(pow2) && |cards| <= |draws| && UnitDraws(draws)
    ensures |WeightedOrder(cards, draws, pow2)| == |cards|
    ensures multiset(WeightedOrder(cards, draws, pow2)) == multiset(cards)
  {
    SamplePermutes(WeightCards(cards, pow2), draws);
  }

  /** With an increasing weighting, a card never weighs less than a card with
      a higher score; the lowest score weighs `pow2(3)` and the highest `pow2(0)`
      (all cards weigh `pow2(0)` when every score is equal). */
  lemma FocusFavoursLowScores(cards: seq<Card>, pow2: real -> real, k: nat, l: nat)
    requires PositiveWeighting(pow2) && MonotoneWeighting(pow2)
    requires k < |cards| && l < |cards|
    ensures ScoreOf(cards[k]) <= ScoreOf(cards[l]) ==>
      WeightCards(cards, pow2)[k].weight >= WeightCards(cards, pow2)[l].weight
    ensures ScoreOf(cards[k]) == MaxScore(cards) ==> WeightCards(cards, pow2)[k].weight == pow2(0.0)
    ensures ScoreOf(cards[k]) == MinScore(cards) < MaxScore(cards) ==>
      WeightCards(cards, pow2)[k].weight == pow2(3.0)
  {
    var lo, hi := MinScore(cards), MaxScore(cards);
    if ScoreOf(cards[k]) <= ScoreOf(cards[l]) {
      ExponentAntitone(ScoreOf(cards[k]), ScoreOf(cards[l]), lo, hi);
    }
  }

  /** The inner `for` loop of `weightedShuffle`: subtract weights from the
      draw until it is 0 or below. With exact arithmetic it always stops inside
      `remaining`. */
  method Walk<T>(remaining: seq<Weighted<T>>, r: real) returns (i: nat)
    requires |remaining| > 0 && PositiveWeights(remaining) && r < SumFrom(remaining, 0)
    ensures i == PickFrom(remaining, r, 0)
  {
    var random := r;
    i := 0;
    while true
      invariant 0 <= i < |remaining|
      invariant random < SumFrom(remaining, i)
      invariant PickFrom(remaining, random, i) == PickFrom(remaining, r, 0)
      decreases |remaining| - i
    {
      random := random - remaining[i].weight;
      if random <= 0.0 {
        return;
      }
      i := i + 1;
    }
  }

  /** One round of the sampling loop, seen from draw `k` on. */
  lemma SampleAdvance<T>(ws: seq<Weighted<T>>, draws: seq<real>, k: nat, i: nat)
    requires PositiveWeights(ws) && 0 < |ws| && k + |ws| <= |draws| && UnitDraws(draws)
    requires Target(ws, draws[k]) < SumFrom(ws, 0)
    requires i == PickFrom(ws, Target(ws, draws[k]), 0)
    ensures PositiveWeights(RemoveAt(ws, i))
    ensures Sample(ws, draws[k..]) == [ws[i].item] + Sample(RemoveAt(ws, i), draws[k + 1..])
  {
    var rest := draws[k..];
    assert rest[0] == draws[k] && rest[1..] == draws[k + 1..];
    SampleStep(ws, rest, i);
  }

  /** The sampling loop of `weightedShuffle`: one draw per round, the item the
      walk stops at moves to the result and leaves `remaining`. */
  method SampleLoop<T>(ws: seq<Weighted<T>>, draws: seq<real>) returns (result: seq<T>)
    requires PositiveWeights(ws) && |ws| <= |draws| && UnitDraws(draws)
    ensures result == Sample(ws, draws)
  {
    result := [];
    var remaining := ws;
    var k := 0;
    assert draws[0..] == draws;
    while |remaining| > 0
      invariant PositiveWeights(remaining)
      invariant k + |remaining| == |ws|
      invariant result + Sample(remaining, draws[k..]) == Sample(ws, draws)
      decreases |remaining|
    {
      DrawBelowTotal(remaining, draws[k]);
      var i := Walk(remaining, Target(remaining, draws[k]));
      SampleAdvance(remaining, draws, k, i);
      result := result + [remaining[i].item];
      remaining := RemoveAt(remaining, i);
      k := k + 1;
    }
  }

  /** `weightedShuffle`: weigh the cards, then sample without replacement. */
  method WeightedShuffle(cards: seq<Card>, draws: seq<real>, pow2: real -> real)
    returns (result: seq<Card>)
    requires PositiveWeighting(pow2) && |cards| <= |draws| && UnitDraws(draws)
    ensures result == WeightedOrder(cards, draws, pow2)
    ensures multiset(result) == multiset(cards)
  {
    var weightedCards := WeightCards(cards, pow2);
    result := SampleLoop(weightedCards, draws);
    WeightedOrderPermutes(cards, draws, pow2);
  }

  /** The order `shuffleCards` gives the cards in the given mode. */
  function Shuffled(mode: StudyMode, cards: seq<Card>, draws: seq<real>, pow2: real -> real): seq<Card>
    requires PositiveWeighting(pow2) && |cards| <= |draws| && UnitDraws(draws)
  {
    match mode
    case Random => FisherYates(cards, draws)
    case Focus => WeightedOrder(cards, draws, pow2)
  }

  /** In either mode a shuffle is a permutation of the cards. */
  lemma ShuffledPermutes(mode: StudyMode, cards: seq<Card>, draws: seq<real>, pow2: real -> real)
    requires PositiveWeighting(pow2) && |cards| <= |draws| && UnitDraws(draws)
    ensures |Shuffled(mode, cards, draws, pow2)| == |cards|
    ensures multiset(Shuffled(mode, cards, draws, pow2)) == multiset(cards)
  {
    match mode
    case Random => FisherYatesPermutes(cards, draws);
    case Focus => WeightedOrderPermutes(cards, draws, pow2);
  }
}
