// The record store: the `topics` and `cards` object stores, each keyed by
// the record's `id`, as two maps; and the three rules the app applies to
// them: the import merge, the cascading topic delete and saving a card from
// the card form.

module Store {
  import opened Records
  import opened JsString
  import CsvImport

  /** Every record is stored under its own `id` (the stores' key path). */
  ghost predicate Keyed<T>(m: map<Id, T>, key: T -> Id)
  {
    forall k :: k in m ==> key(m[k]) == k
  }


  // ---------------------------------------------------------------------
  // Import merge
  // ---------------------------------------------------------------------

  /** The store after putting, in order, every item whose key is not yet
      present: the first item with a new key wins and nothing stored is
      overwritten. */
  function Inserted<T>(m: map<Id, T>, items: seq<T>, key: T -> Id): (r: map<Id, T>)
    ensures m.Keys <= r.Keys
    ensures forall k :: k in m ==> r[k] == m[k]
    ensures forall k :: k in r ==> k in m || exists j :: 0 <= j < |items| && key(items[j]) == k
    decreases |items|
  {
    if |items| == 0 then m
    else
      var p := Inserted(m, items[..|items| - 1], key);
      var x := items[|items| - 1];
      if key(x) in p then p else p[key(x) := x]
  }

  /** The number of insertions the merge counts (`topicsImported`,
      `cardsImported`). */
  function NewCount<T>(m: map<Id, T>, items: seq<T>, key: T -> Id): (n: nat)
    ensures n <= |items|
    decreases |items|
  {
    if |items| == 0 then 0
    else
      var p := Inserted(m, items[..|items| - 1], key);
      NewCount(m, items[..|items| - 1], key) + (if key(items[|items| - 1]) in p then 0 else 1)
  }

  /** Every item's key ends up in the store. */
  lemma {:induction false} InsertedHasAll<T>(m: map<Id, T>, items: seq<T>, key: T -> Id)
    ensures forall j :: 0 <= j < |items| ==> key(items[j]) in Inserted(m, items, key)
    decreases |items|
  {
    if |items| > 0 {
      InsertedHasAll(m, items[..|items| - 1], key);
      forall j | 0 <= j < |items| - 1
        ensures key(items[j]) in Inserted(m, items, key)
      {
        assert items[j] == items[..|items| - 1][j];
      }
    }
  }

  /** The count is exactly the number of keys the merge adds. */
  lemma {:induction false} NewCountIsGrowth<T>(m: map<Id, T>, items: seq<T>, key: T -> Id)
    ensures |Inserted(m, items, key)| == |m| + NewCount(m, items, key)
    decreases |items|
  {
    if |items| > 0 {
      NewCountIsGrowth(m, items[..|items| - 1], key);
    }
  }

  /** Nothing is counted exactly when every item's key was already stored
      (the "No new data to import" case). */
  lemma {:induction false} NothingNew<T>(m: map<Id, T>, items: seq<T>, key: T -> Id)
    ensures NewCount(m, items, key) == 0 <==> forall j :: 0 <= j < |items| ==> key(items[j]) in m
    decreases |items|
  {
    if |items| > 0 {
      var init := items[..|items| - 1];
      NothingNew(m, init, key);
      var p := Inserted(m, init, key);
      if NewCount(m, items, key) == 0 {
        assert NewCount(m, init, key) == 0;
        forall j | 0 <= j < |items|
          ensures key(items[j]) in m
        {
          if j < |items| - 1 {
            assert items[j] == init[j];
          }
        }
      }
    }
  }

  /** The first item carrying a key that was not stored is the one kept
      under that key. */
  lemma {:induction false} FirstOccurrenceWins<T>(m: map<Id, T>, items: seq<T>, key: T -> Id, j: nat)
    requires j < |items| && key(items[j]) !in m
    requires forall i :: 0 <= i < j ==> key(items[i]) != key(items[j])
    ensures key(items[j]) in Inserted(m, items, key) && Inserted(m, items, key)[key(items[j])] == items[j]
    decreases |items|
  {
    var init := items[..|items| - 1];
    InsertedHasAll(m, items, key);
    if j < |items| - 1 {
      assert items[j] == init[j];
      forall i | 0 <= i < j
        ensures key(init[i]) != key(init[j])
      {
        assert init[i] == items[i];
      }
      FirstOccurrenceWins(m, init, key, j);
      InsertedHasAll(m, init, key);
    }
  }

  /** Putting items under their own keys keeps the store keyed. */
  lemma {:induction false} InsertedKeyed<T>(m: map<Id, T>, items: seq<T>, key: T -> Id)
    requires Keyed(m, key)
    ensures Keyed(Inserted(m, items, key), key)
    decreases |items|
  {
    if |items| > 0 {
      InsertedKeyed(m, items[..|items| - 1], key);
    }
  }

  /** Merging one more item: put it when its key is absent, and count it. */
  lemma InsertStep<T>(m: map<Id, T>, items: seq<T>, key: T -> Id, i: nat)
    requires i < |items|
    ensures var p := Inserted(m, items[..i], key);
      && Inserted(m, items[..i + 1], key) == (if key(items[i]) in p then p else p[key(items[i]) := items[i]])
      && NewCount(m, items[..i + 1], key) == NewCount(m, items[..i], key) + (if key(items[i]) in p then 0 else 1)
  {
    var prefix := items[..i + 1];
    assert prefix[..|prefix| - 1] == items[..i] && prefix[|prefix| - 1] == items[i];
  }

  /** The merge loop of `importData` for one kind of record: look each item
      up by key and put it only when absent, counting the puts. */
  method InsertMissing<T>(m: map<Id, T>, items: seq<T>, key: T -> Id) returns (merged: map<Id, T>, count: nat)
    ensures merged == Inserted(m, items, key)
    ensures count == NewCount(m, items, key)
  {
    merged, count := m, 0;
    var i := 0;
    while i < |items|
      invariant 0 <= i <= |items|
      invariant merged == Inserted(m, items[..i], key)
      invariant count == NewCount(m, items[..i], key)
    {
      var x := items[i];
      InsertStep(m, items, key, i);
      if key(x) !in merged {
        merged := merged[key(x) := x];
        count := count + 1;
      }
      i := i + 1;
    }
    assert items[..i] == items;
  }

  /** The parsed file before validation: `topics` or `cards` may be
      missing (an empty list is present). */
  datatype Backup = Backup(topics: Option<seq<Topic>>, cards: Option<seq<Card>>)

  /** What `parseCSV` hands to the merge: both lists are always present. */
  function FromCsv(d: CsvImport.ImportData): (b: Backup)
    ensures b.topics == Some(d.topics) && b.cards == Some(d.cards)
  {
    Backup(Some(d.topics), Some(d.cards))
  }

  datatype ImportOutcome = InvalidFormat | Imported(topicsImported: nat, cardsImported: nat)

  // ---------------------------------------------------------------------
  // Cascading delete
  // ---------------------------------------------------------------------

  /** The cards that belong to some other topic than `topicId`. */
  function CardsOutside(cards: map<Id, Card>, topicId: Id): (r: map<Id, Card>)
    ensures forall k :: k in r <==> k in cards && cards[k].topicId != topicId
    ensures forall k :: k in r ==> r[k] == cards[k]
  {
    map k | k in cards && cards[k].topicId != topicId :: cards[k]
  }

  /** A map with exactly the keys of the other topics' cards, each with its
      stored card, is `CardsOutside`. */
  lemma OutsideByKeys(before: map<Id, Card>, after: map<Id, Card>, topicId: Id)
    requires forall k :: k in after <==> k in before && before[k].topicId != topicId
    requires forall k :: k in after ==> after[k] == before[k]
    ensures after == CardsOutside(before, topicId)
  {
  }

  /** Every card's topic is stored. */
  ghost predicate Consistent(topics: map<Id, Topic>, cards: map<Id, Card>)
  {
    forall k :: k in cards ==> cards[k].topicId in topics
  }

  /** Deleting a topic together with its cards keeps every remaining card's
      topic stored, and no remaining card refers to the deleted topic. */
  lemma CascadeConsistent(topics: map<Id, Topic>, cards: map<Id, Card>, topicId: Id)
    requires Consistent(topics, cards)
    ensures Consistent(topics - {topicId}, CardsOutside(cards, topicId))
    ensures forall k :: k in CardsOutside(cards, topicId) ==> CardsOutside(cards, topicId)[k].topicId != topicId
  {
  }

  /** Deleting only the topic record keeps a consistent store consistent
      exactly when the topic has no cards: the cascade is needed whenever it
      has some. */
  lemma CascadeNeeded(topics: map<Id, Topic>, cards: map<Id, Card>, topicId: Id)
    requires Consistent(topics, cards)
    ensures Consistent(topics - {topicId}, cards) <==> forall k :: k in cards ==> cards[k].topicId != topicId
  {
  }

  // ---------------------------------------------------------------------
  // The card form
  // ---------------------------------------------------------------------

  datatype SaveError = MissingField | NoSuchCard

  /** `saveCard`: the card the form writes. Both inputs are trimmed and must
      be non-empty. Editing a card that is not stored fails (the JavaScript
      throws assigning to `undefined`); editing a stored card replaces only
      its question, answer and `updatedAt`; a new card gets the fresh id,
      the current topic, score 0 and both stamps `now`. */
  function CardToSave(cards: map<Id, Card>, questionInput: string, answerInput: string,
                      editing: Option<Id>, topicId: Id, now: Stamp, newId: Id): (r: Result<Card, SaveError>)
    ensures Trim(questionInput) == "" || Trim(answerInput) == "" <==> r == Failure(MissingField)
    ensures r == Failure(NoSuchCard) <==>
      Trim(questionInput) != "" && Trim(answerInput) != "" && editing.Some? && editing.value !in cards
    ensures r.Success? ==>
      && r.value.question == Trim(questionInput) && IsTrimmed(r.value.question) && r.value.question != ""
      && r.value.answer == Trim(answerInput) && IsTrimmed(r.value.answer) && r.value.answer != ""
      && r.value.updatedAt == now
    ensures r.Success? && editing.Some? ==>
      var old_ := cards[editing.value];
      && r.value.id == old_.id && r.value.topicId == old_.topicId
      && r.value.score == old_.score && r.value.createdAt == old_.createdAt
    ensures r.Success? && editing.None? ==>
      && r.value.id == newId && r.value.topicId == topicId
      && r.value.score == Some(0) && r.value.createdAt == now
  {
    var question := Trim(questionInput);
    var answer := Trim(answerInput);
    if question == "" || answer == "" then Failure(MissingField)
    else if editing.Some? then
      if editing.value in cards then
        Success(cards[editing.value].(question := question, answer := answer, updatedAt := now))
      else Failure(NoSuchCard)
    else Success(Card(newId, topicId, question, answer, Some(0), now, now))
  }

  // ---------------------------------------------------------------------
  // The store
  // ---------------------------------------------------------------------

  class RecordStore {
    var topics: map<Id, Topic>
    var cards: map<Id, Card>

    ghost predicate Valid()
      reads this
    {
      Keyed(topics, TopicKey) && Keyed(cards, CardKey)
    }

    /** A freshly opened database: both stores empty. */
    constructor()
      ensures Valid() && topics == map[] && cards == map[]
    {
      topics := map[];
      cards := map[];
    }

    /** `getCardsByTopic`: the cards of one topic. */
    function CardsOfTopic(topicId: Id): (r: set<Card>)
      reads this
      ensures forall c :: c in r <==> c in cards.Values && c.topicId == topicId
    {
      set c | c in cards.Values && c.topicId == topicId
    }

    /** `deleteTopic`: each card of the topic is deleted, then the topic. */
    method DeleteTopic(topicId: Id)
      requires Valid()
      modifies this
      ensures Valid()
      ensures topics == old(topics) - {topicId}
      ensures cards == CardsOutside(old(cards), topicId)
      ensures old(Consistent(topics, cards)) ==> Consistent(topics, cards)
    {
      var pending := CardsOfTopic(topicId);
      while pending != {}
        invariant Valid() && topics == old(topics)
        invariant forall c :: c in pending ==> c.topicId == topicId && c.id in cards && cards[c.id] == c
        invariant forall k :: k in cards <==>
          k in old(cards) && (old(cards)[k].topicId != topicId || old(cards)[k] in pending)
        invariant forall k :: k in cards ==> cards[k] == old(cards)[k]
        decreases pending
      {
        var c :| c in pending;
        cards := cards - {c.id};
        pending := pending - {c};
      }
      OutsideByKeys(old(cards), cards, topicId);
      topics := topics - {topicId};
      if Consistent(old(topics), old(cards)) {
        CascadeConsistent(old(topics), old(cards), topicId);
      }
    }

    /** The merge of `importData`: data lacking either list is rejected with
        nothing changed; otherwise topics then cards are put when their id is
        absent, and the counts say how many were put. */
    method ImportData(backup: Backup) returns (outcome: ImportOutcome)
      requires Valid()
      modifies this
      ensures Valid()
      ensures backup.topics.None? || backup.cards.None? ==>
        outcome == InvalidFormat && topics == old(topics) && cards == old(cards)
      ensures backup.topics.Some? && backup.cards.Some? ==>
        && topics == Inserted(old(topics), backup.topics.value, TopicKey)
        && cards == Inserted(old(cards), backup.cards.value, CardKey)
        && outcome == Imported(NewCount(old(topics), backup.topics.value, TopicKey),
                               NewCount(old(cards), backup.cards.value, CardKey))
    {
      if backup.topics.None? || backup.cards.None? {
        return InvalidFormat;
      }
      var topicsImported, cardsImported;
      InsertedKeyed(topics, backup.topics.value, TopicKey);
      InsertedKeyed(cards, backup.cards.value, CardKey);
      topics, topicsImported := InsertMissing(topics, backup.topics.value, TopicKey);
      cards, cardsImported := InsertMissing(cards, backup.cards.value, CardKey);
      outcome := Imported(topicsImported, cardsImported);
    }

    /** `dataStore.saveCard`: the card is put under its id, replacing any
        card stored there. */
    method PutCard(card: Card)
      requires Valid()
      modifies this
      ensures Valid()
      ensures cards == old(cards)[card.id := card] && topics == old(topics)
    {
      cards := cards[card.id := card];
    }

    /** `saveCard`: the card from the form is put under its id; a rejected
        form changes nothing. */
    method SaveCard(questionInput: string, answerInput: string, editing: Option<Id>,
                    topicId: Id, now: Stamp, newId: Id) returns (r: Result<Card, SaveError>)
      requires Valid()
      modifies this
      ensures Valid()
      ensures r == CardToSave(old(cards), questionInput, answerInput, editing, topicId, now, newId)
      ensures topics == old(topics)
      ensures r.Failure? ==> cards == old(cards)
      ensures r.Success? ==> cards == old(cards)[r.value.id := r.value]
      ensures r.Success? && editing.Some? ==> r.value.id == editing.value && cards.Keys == old(cards.Keys)
    {
      r := CardToSave(cards, questionInput, answerInput, editing, topicId, now, newId);
      if r.Success? {
        PutCard(r.value);
      }
    }
  }
}
