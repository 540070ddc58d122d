// The study session: the `studyMode`, `studyCards`, `currentCardIndex` and
// `isCardFlipped` fields of the app state, and the operations of the study
// view that update them. Every `Math.random()` a shuffle calls is taken from
// a sequence of draws in [0, 1) passed by the caller.

module Study {
  import opened Records
  import opened Scoring
  import opened Shuffle
  import Store

  /** What pressing a score button does. `FlipFirst`: the card is still
      face down and nothing happens. `NoCurrentCard`: there is no card to score
      (the JavaScript throws a TypeError before changing anything).
      `Recorded(card)`: the scored card, as written to the store. */
  datatype ScoreOutcome = FlipFirst | NoCurrentCard | Recorded(card: Card)

  /** Focus mode's shuffle copied into a new array, as `weightedShuffle`
      returns a new list. */
  method FocusArray(cards: seq<Card>, draws: seq<real>, pow2: real -> real) returns (a: array<Card>)
    requires PositiveWeighting(pow2) && |cards| <= |draws| && UnitDraws(draws)
    ensures fresh(a)
    ensures a[..] == WeightedOrder(cards, draws, pow2)
  {
    var r := WeightedShuffle(cards, draws, pow2);
    a := new Card[|r|](k requires 0 <= k < |r| => r[k]);
    assert a[..] == r;
  }

  class StudySession {
    var studyMode: StudyMode
    var studyCards: array<Card>
    var currentCardIndex: nat
    var isCardFlipped: bool
    /** The weighting focus mode applies to exponents (`Math.pow(2, ·)`). */
    const pow2: real -> real

    /** The index points at a card, or is 0 when there are no cards. */
    ghost predicate Valid()
      reads this
    {
      && PositiveWeighting(pow2)
      && (currentCardIndex == 0 || currentCardIndex < studyCards.Length)
    }

    /** The initial state: random mode, no cards, index 0, face up. */
    constructor(pow2: real -> real)
      requires PositiveWeighting(pow2)
      ensures Valid()
      ensures this.pow2 == pow2
      ensures studyMode == Random && studyCards.Length == 0
      ensures currentCardIndex == 0 && !isCardFlipped
    {
      this.pow2 := pow2;
      studyMode := Random;
      studyCards := new Card[0];
      currentCardIndex := 0;
      isCardFlipped := false;
    }

    /** `shuffleCards`: Fisher–Yates in place in random mode, a fresh array
        from the weighted sampling in focus mode. */
    method ShuffleCards(draws: seq<real>)
      requires Valid() && studyCards.Length <= |draws| && UnitDraws(draws)
      modifies this, studyCards
      ensures Valid()
      ensures studyCards == old(studyCards) || fresh(studyCards)
      ensures studyMode == Random ==> studyCards == old(studyCards)
      ensures studyCards[..] == Shuffled(studyMode, old(studyCards[..]), draws, pow2)
      ensures studyCards.Length == old(studyCards.Length)
      ensures multiset(studyCards[..]) == multiset(old(studyCards[..]))
      ensures studyMode == old(studyMode) && currentCardIndex == old(currentCardIndex)
      ensures isCardFlipped == old(isCardFlipped)
    {
      ShuffledPermutes(studyMode, studyCards[..], draws, pow2);
      if studyMode == Random {
        ShuffleInPlace(studyCards, draws);
      } else {
        studyCards := FocusArray(studyCards[..], draws, pow2);
      }
    }

    /** `displayCurrentCard`: showing a card turns it face up; with no cards
        it returns before touching the flag. */
    method DisplayCurrentCard()
      modifies this
      ensures studyCards.Length > 0 ==> !isCardFlipped
      ensures studyCards.Length == 0 ==> isCardFlipped == old(isCardFlipped)
      ensures studyMode == old(studyMode) && studyCards == old(studyCards)
      ensures currentCardIndex == old(currentCardIndex)
    {
      if studyCards.Length == 0 {
        return;
      }
      isCardFlipped := false;
    }

    /** `startStudy` on the cards of the current topic: with none the session
        is left as it was; otherwise the session starts on a shuffled copy,
        at the first card, face up. */
    method StartStudy(cards: seq<Card>, draws: seq<real>)
      requires Valid() && |cards| <= |draws| && UnitDraws(draws)
      modifies this, studyCards
      ensures Valid()
      ensures studyMode == old(studyMode)
      ensures |cards| == 0 ==>
        && studyCards == old(studyCards) && studyCards[..] == old(studyCards[..])
        && currentCardIndex == old(currentCardIndex) && isCardFlipped == old(isCardFlipped)
      ensures |cards| > 0 ==>
        && studyCards[..] == Shuffled(studyMode, cards, draws, pow2)
        && multiset(studyCards[..]) == multiset(cards)
        && currentCardIndex == 0 && !isCardFlipped
    {
      if |cards| == 0 {
        return;
      }
      studyCards := new Card[|cards|](k requires 0 <= k < |cards| => cards[k]);
      assert studyCards[..] == cards;
      currentCardIndex := 0;
      isCardFlipped := false;
      ShuffleCards(draws);
      DisplayCurrentCard();
    }

    /** `flipCard`: turns the card over. */
    method FlipCard()
      modifies this
      ensures isCardFlipped == !old(isCardFlipped)
      ensures studyMode == old(studyMode) && studyCards == old(studyCards)
      ensures currentCardIndex == old(currentCardIndex)
    {
      isCardFlipped := !isCardFlipped;
    }

    /** `nextCard`: the index moves on; past the last card it wraps to 0 and
        the cards are reshuffled. The card shown is face up. */
    method NextCard(draws: seq<real>)
      requires Valid() && studyCards.Length <= |draws| && UnitDraws(draws)
      modifies this, studyCards
      ensures Valid()
      ensures studyMode == old(studyMode)
      ensures studyCards.Length == old(studyCards.Length)
      ensures multiset(studyCards[..]) == multiset(old(studyCards[..]))
      ensures old(currentCardIndex) + 1 < studyCards.Length ==>
        && currentCardIndex == old(currentCardIndex) + 1
        && studyCards == old(studyCards) && studyCards[..] == old(studyCards[..])
      ensures old(currentCardIndex) + 1 >= studyCards.Length ==>
        && currentCardIndex == 0
        && studyCards[..] == Shuffled(studyMode, old(studyCards[..]), draws, pow2)
      ensures studyCards.Length > 0 ==> !isCardFlipped
      ensures studyCards.Length == 0 ==> isCardFlipped == old(isCardFlipped)
    {
      if currentCardIndex + 1 >= studyCards.Length {
        currentCardIndex := 0;
        ShuffleCards(draws);
      } else {
        currentCardIndex := currentCardIndex + 1;
      }
      DisplayCurrentCard();
    }

    /** `recordScore`: on a face-down card nothing changes; otherwise the
        current card's score moves by the button's delta (no other field of it
        changes), the scored card is written to the store and the session
        moves on as `nextCard` does. */
    method RecordScore(f: Feedback, draws: seq<real>, store: Store.RecordStore) returns (outcome: ScoreOutcome)
      requires Valid() && studyCards.Length <= |draws| && UnitDraws(draws)
      requires store.Valid()
      modifies this, studyCards, store
      ensures Valid() && store.Valid()
      ensures store.topics == old(store.topics)
      ensures outcome.Recorded? ==> store.cards == old(store.cards)[outcome.card.id := outcome.card]
      ensures !outcome.Recorded? ==> store.cards == old(store.cards)
      ensures studyMode == old(studyMode)
      ensures !old(isCardFlipped) || old(studyCards.Length) == 0 ==>
        && outcome == (if old(isCardFlipped) then NoCurrentCard else FlipFirst)
        && studyCards == old(studyCards) && studyCards[..] == old(studyCards[..])
        && currentCardIndex == old(currentCardIndex) && isCardFlipped == old(isCardFlipped)
      ensures old(isCardFlipped) && old(studyCards.Length) > 0 ==>
        var card := ApplyFeedback(old(studyCards[currentCardIndex]), f);
        var scored := old(studyCards[..])[old(currentCardIndex) := card];
        && outcome == Recorded(card)
        && !isCardFlipped
        && (old(currentCardIndex) + 1 < studyCards.Length ==>
              currentCardIndex == old(currentCardIndex) + 1 && studyCards[..] == scored)
        && (old(currentCardIndex) + 1 >= studyCards.Length ==>
              currentCardIndex == 0 && studyCards[..] == Shuffled(studyMode, scored, draws, pow2))
    {
      if !isCardFlipped {
        return FlipFirst;
      }
      if studyCards.Length == 0 {
        return NoCurrentCard;
      }
      var card := ApplyFeedback(studyCards[currentCardIndex], f);
      studyCards[currentCardIndex] := card;
      store.PutCard(card);
      outcome := Recorded(card);
      NextCard(draws);
    }

    /** `toggleStudyMode`: random and focus swap, the cards are reshuffled in
        the new mode and the session restarts at the first card, face up. */
    method ToggleStudyMode(draws: seq<real>)
      requires Valid() && studyCards.Length <= |draws| && UnitDraws(draws)
      modifies this, studyCards
      ensures Valid()
      ensures studyMode != old(studyMode)
      ensures studyCards[..] == Shuffled(studyMode, old(studyCards[..]), draws, pow2)
      ensures multiset(studyCards[..]) == multiset(old(studyCards[..]))
      ensures currentCardIndex == 0
      ensures studyCards.Length > 0 ==> !isCardFlipped
      ensures studyCards.Length == 0 ==> isCardFlipped == old(isCardFlipped)
    {
      studyMode := if studyMode == Random then Focus else Random;
      ShuffleCards(draws);
      currentCardIndex := 0;
      DisplayCurrentCard();
    }
  }
}
