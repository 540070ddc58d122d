// The per-card score: study feedback and its delta, the topic success rate
// shown on the topic page, and the colour class and label of a score in the
// card list.

module Scoring {
  import opened Records
  import opened JsString

  /** The three answer buttons of the study view (Miss, Not yet, Good). */
  datatype Feedback = Miss | NotYet | Good

  /** The amount each button adds to a card's score. */
  function Delta(f: Feedback): (d: int)
    ensures -1 <= d <= 1
    ensures d == -1 <==> f == Miss
    ensures d == 0 <==> f == NotYet
    ensures d == 1 <==> f == Good
  {
    match f
    case Miss => -1
    case NotYet => 0
    case Good => 1
  }

  /** Keys `1`, `2` and `3` score like the Miss, Not-yet and Good buttons;
      every other key scores nothing. */
  function KeyFeedback(key: string): (f: Option<Feedback>)
    ensures f.Some? <==> key == "1" || key == "2" || key == "3"
    ensures f.Some? ==> Delta(f.value) == key[0] as int - '2' as int
  {
    if key == "1" then Some(Miss)
    else if key == "2" then Some(NotYet)
    else if key == "3" then Some(Good)
    else None
  }

  /** `card.score = (card.score || 0) + delta`: the score moves by the delta and
      no other field of the card changes (not even `updatedAt`). */
  function ApplyFeedback(c: Card, f: Feedback): (r: Card)
    ensures r.score.Some? && ScoreOf(r) == ScoreOf(c) + Delta(f)
    ensures r.id == c.id && r.topicId == c.topicId
    ensures r.question == c.question && r.answer == c.answer
    ensures r.createdAt == c.createdAt && r.updatedAt == c.updatedAt
  {
    c.(score := Some(ScoreOf(c) + Delta(f)))
  }

  /** A Miss after a Good puts the score back where it was. */
  lemma GoodThenMissRestores(c: Card)
    ensures ScoreOf(ApplyFeedback(ApplyFeedback(c, Good), Miss)) == ScoreOf(c)
  {
  }

  // ---------------------------------------------------------------------
  // Success rate of a topic

  /** The sum of the cards' scores, a missing score counting as 0. */
  function TotalScore(cards: seq<Card>): int
  {
    if |cards| == 0 then 0 else TotalScore(cards[..|cards| - 1]) + ScoreOf(cards[|cards| - 1])
  }

  /** `Math.round`: to the nearest integer, halves upwards. */
  function Round(x: real): (n: int)
    ensures n as real - 0.5 <= x < n as real + 0.5
  {
    (x + 0.5).Floor
  }

  /** `(totalScore - minPossibleScore) / range * 100` for `n` cards, with the
      range running from -10 to +10 per card, in exact arithmetic. */
  function Percent(total: int, n: nat): (p: real)
    requires n > 0
    ensures p == 50.0 + 5.0 * (total as real / n as real)
  {
    var maxPossible := n * 10;
    var minPossible := n * -10;
    var range := maxPossible - minPossible;
    var N, q := n as real, total as real / n as real;
    assert total as real == q * N;
    assert (total - minPossible) as real == (q + 10.0) * N;
    assert range as real == 20.0 * N;
    var x := (q + 10.0) / 20.0;
    assert x * (20.0 * N) == (q + 10.0) * N;
    assert ((q + 10.0) * N) / (20.0 * N) == x;
    (total - minPossible) as real / range as real * 100.0
  }

  /** The rate for `n` cards whose scores add up to `total`: the percentage,
      rounded, then clamped to 0..100. No cards give 0. */
  function Rate(total: int, n: nat): (rate: int)
    ensures 0 <= rate <= 100
    ensures n == 0 ==> rate == 0
    ensures n > 0 ==>
      var p := Percent(total, n);
      && (p < -0.5 ==> rate == 0)
      && (p >= 100.5 ==> rate == 100)
      && (-0.5 <= p < 100.5 ==> rate as real - 0.5 <= p < rate as real + 0.5)
  {
    if n == 0 then 0
    else
      var raw := Round(Percent(total, n));
      if raw < 0 then 0 else if raw > 100 then 100 else raw
  }

  /** The success rate `loadTopic` shows for a topic's cards. */
  function SuccessRate(cards: seq<Card>): (rate: int)
    ensures 0 <= rate <= 100
    ensures |cards| == 0 ==> rate == 0
  {
    Rate(TotalScore(cards), |cards|)
  }

  lemma DivideMonotone(a: real, b: real, c: real)
    requires a <= b && c > 0.0
    ensures a / c <= b / c
  {
  }

  /** A topic whose scores cancel out sits exactly in the middle: 50. */
  lemma {:induction false} BalancedIsFifty(cards: seq<Card>)
    requires |cards| > 0 && TotalScore(cards) == 0
    ensures SuccessRate(cards) == 50
  {
    var n := |cards|;
    var d := (n * 20) as real;
    assert (n * 10) as real == 0.5 * d;
    assert (n * 10) as real / d == 0.5;
    assert Percent(0, n) == 50.0;
  }

  /** An average score of +10 or more gives 100; of -10 or less gives 0. */
  lemma {:induction false} RateSaturates(total: int, n: nat)
    requires n > 0
    ensures total >= n * 10 ==> Rate(total, n) == 100
    ensures total <= n * -10 ==> Rate(total, n) == 0
  {
    var d := (n * 20) as real;
    var num := (total - n * -10) as real;
    if total >= n * 10 {
      DivideMonotone(d, num, d);
      assert d / d == 1.0;
      assert Percent(total, n) >= 100.0;
    }
    if total <= n * -10 {
      DivideMonotone(num, 0.0, d);
      assert Percent(total, n) <= 0.0;
    }
  }

  /** For a fixed number of cards, a higher total never gives a lower rate. */
  lemma {:induction false} RateMonotone(t1: int, t2: int, n: nat)
    requires t1 <= t2
    ensures Rate(t1, n) <= Rate(t2, n)
  {
    if n > 0 {
      DivideMonotone((t1 - n * -10) as real, (t2 - n * -10) as real, (n * 20) as real);
      assert Percent(t1, n) <= Percent(t2, n);
      FloorMonotone(Percent(t1, n) + 0.5, Percent(t2, n) + 0.5);
    }
  }

  lemma FloorMonotone(x: real, y: real)
    requires x <= y
    ensures x.Floor <= y.Floor
  {
  }

  /** Every card at score 0 (or with no score) gives a total of 0. */
  lemma {:induction false} ZeroScoresTotalZero(cards: seq<Card>)
    requires forall k :: 0 <= k < |cards| ==> ScoreOf(cards[k]) == 0
    ensures TotalScore(cards) == 0
  {
    if |cards| > 0 {
      ZeroScoresTotalZero(cards[..|cards| - 1]);
    }
  }

  /** A fresh topic (every score 0) shows 50. */
  lemma AllZeroIsFifty(cards: seq<Card>)
    requires |cards| > 0
    requires forall k :: 0 <= k < |cards| ==> ScoreOf(cards[k]) == 0
    ensures SuccessRate(cards) == 50
  {
    ZeroScoresTotalZero(cards);
    BalancedIsFifty(cards);
  }

  /** Scores 10 and -10 give 50; scores 20 and 20 give 100 (clamped from 150). */
  lemma TwoCardExamples(a: Card, b: Card)
    ensures ScoreOf(a) == 10 && ScoreOf(b) == -10 ==> SuccessRate([a, b]) == 50
    ensures ScoreOf(a) == 20 && ScoreOf(b) == 20 ==> SuccessRate([a, b]) == 100
  {
    assert [a, b][..1] == [a];
    assert [a][..0] == [];
    assert TotalScore([a]) == ScoreOf(a);
    assert TotalScore([a, b]) == ScoreOf(a) + ScoreOf(b);
    if ScoreOf(a) == 10 && ScoreOf(b) == -10 {
      BalancedIsFifty([a, b]);
    }
    if ScoreOf(a) == 20 && ScoreOf(b) == 20 {
      RateSaturates(40, 2);
    }
  }

  // ---------------------------------------------------------------------
  // Score badge in the card list

  datatype ScoreClass = Positive | Negative | Neutral

  /** The CSS class of a score badge. */
  function ClassOf(score: int): (c: ScoreClass)
    ensures c == Positive <==> score > 0
    ensures c == Negative <==> score < 0
    ensures c == Neutral <==> score == 0
  {
    if score > 0 then Positive else if score < 0 then Negative else Neutral
  }

  /** The badge text: the score in decimal, with `+` in front of a positive one. */
  function ScoreLabel(score: int): (s: string)
  {
    (if score > 0 then "+" else "") + IntToString(score)
  }

  lemma {:induction false} NatToStringZero(n: nat)
    ensures NatToString(n) == "0" <==> n == 0
  {
    if n >= 10 {
      assert |NatToString(n)| >= 2;
    }
  }

  /** The label's first character agrees with the badge's class. */
  lemma LabelMatchesClass(score: int)
    ensures |ScoreLabel(score)| >= 1
    ensures ScoreLabel(score)[0] == '+' <==> ClassOf(score) == Positive
    ensures ScoreLabel(score)[0] == '-' <==> ClassOf(score) == Negative
    ensures ScoreLabel(score) == "0" <==> ClassOf(score) == Neutral
  {
    var n: nat := if score < 0 then -score else score;
    NatToStringZero(n);
    assert IsDigit(NatToString(n)[0]);
  }

  /** The label is `+digits`, `-digits` or `0`. */
  lemma LabelShape(score: int)
    ensures score > 0 ==> ScoreLabel(score) == "+" + NatToString(score)
    ensures score < 0 ==> ScoreLabel(score) == "-" + NatToString(-score)
    ensures score == 0 ==> ScoreLabel(score) == "0"
  {
  }

  /** Different scores never show the same label. */
  lemma LabelInjective(a: int, b: int)
    requires ScoreLabel(a) == ScoreLabel(b)
    ensures a == b
  {
    LabelMatchesClass(a);
    LabelMatchesClass(b);
    assert ClassOf(a) == ClassOf(b);
    LabelShape(a);
    LabelShape(b);
    if a != 0 {
      var na: nat := if a > 0 then a else -a;
      var nb: nat := if b > 0 then b else -b;
      assert NatToString(na) == ScoreLabel(a)[1..];
      assert NatToString(nb) == ScoreLabel(b)[1..];
      DecimalRoundTrip(na);
      DecimalRoundTrip(nb);
      assert na == nb;
    }
  }
}
