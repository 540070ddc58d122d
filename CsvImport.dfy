// CSV import: `parseCSV` picks the file kind from its header row, then
// `parseCardsCSV` or `parseTopicsCSV` turns the data rows into records.
// `generateId()` is the id supply `nextId` (call number n returns `nextId(n)`)
// and every `new Date().toISOString()` is the instant `now`.

module CsvImport {
  import opened Records
  import opened JsString
  import opened CsvLine

  /** The records an import adds: the `{ topics, cards }` object. */
  datatype ImportData = ImportData(topics: seq<Topic>, cards: seq<Card>)

  /** Why `parseCSV` throws: fewer than two lines, a header naming no known
      column, or (topics files) a kept row shorter than its emoji column,
      where `undefined.trim()` fails. */
  datatype CsvError = NoDataRows | UnrecognizedFormat | RowTooShort

  /** The emoji of a topic created by a cards import (U+1F4E5, inbox tray). */
  const ImportedEmoji: string := "\U{1F4E5}"

  /** The emoji of an imported topic whose emoji cell is empty or missing
      (U+1F4DA, books). */
  const DefaultEmoji: string := "\U{1F4DA}"

  /** `values[idx]`: `None` stands for `undefined` (an index out of range). */
  function ValueAt(values: seq<string>, idx: int): (v: Option<string>)
    ensures v.Some? <==> 0 <= idx < |values|
    ensures v.Some? ==> v.value == values[idx]
  {
    if 0 <= idx < |values| then Some(values[idx]) else None
  }

  /** `v || ''` */
  function OrEmpty(v: Option<string>): string
  {
    match v
    case Some(s) => s
    case None => ""
  }

  /** The ids `generateId` has handed out after `n` calls. */
  function Drawn(nextId: nat -> Id, n: nat): (r: seq<Id>)
    ensures |r| == n
    ensures forall k :: 0 <= k < n ==> r[k] == nextId(k)
  {
    seq(n, k requires 0 <= k < n => nextId(k))
  }

  /** The ids of the records `xs`, in order. */
  function Ids<T>(xs: seq<T>, key: T -> Id): (r: seq<Id>)
    ensures |r| == |xs|
    ensures forall k :: 0 <= k < |xs| ==> r[k] == key(xs[k])
  {
    seq(|xs|, k requires 0 <= k < |xs| => key(xs[k]))
  }

  /** Every id of the result was drawn from the supply, each draw used once. */
  predicate IdsDrawn(data: ImportData, nextId: nat -> Id, used: nat)
  {
    multiset(Ids(data.topics, TopicKey)) + multiset(Ids(data.cards, CardKey)) == multiset(Drawn(nextId, used))
  }

  lemma DrawOne(nextId: nat -> Id, n: nat)
    ensures Drawn(nextId, n + 1) == Drawn(nextId, n) + [nextId(n)]
  {
  }

  lemma AddId<T>(xs: seq<T>, x: T, key: T -> Id)
    ensures Ids(xs + [x], key) == Ids(xs, key) + [key(x)]
  {
  }

  /** A topic made with the next id keeps the ids drawn. */
  lemma TopicDrawn(ts: seq<Topic>, cs: seq<Card>, t: Topic, nextId: nat -> Id, used: nat)
    requires IdsDrawn(ImportData(ts, cs), nextId, used) && t.id == nextId(used)
    ensures IdsDrawn(ImportData(ts + [t], cs), nextId, used + 1)
  {
    AddId(ts, t, TopicKey);
    DrawOne(nextId, used);
  }

  /** A card made with the next id keeps the ids drawn. */
  lemma CardDrawn(ts: seq<Topic>, cs: seq<Card>, c: Card, nextId: nat -> Id, used: nat)
    requires IdsDrawn(ImportData(ts, cs), nextId, used) && c.id == nextId(used)
    ensures IdsDrawn(ImportData(ts, cs + [c]), nextId, used + 1)
  {
    AddId(cs, c, CardKey);
    DrawOne(nextId, used);
  }

  // ---------------------------------------------------------------------
  // The header row

  /** `text.trim().split('\n')` */
  function Lines(text: string): (r: seq<string>)
    ensures |r| >= 1
  {
    Split(Trim(text), '\n')
  }

  /** `lines[0].split(',').map(h => h.trim().toLowerCase())` */
  function HeaderCells(line: string): (r: seq<string>)
    ensures |r| == |Split(line, ',')|
    ensures forall k :: 0 <= k < |r| ==> r[k] == ToLowerAscii(Trim(Split(line, ',')[k]))
  {
    var cells := Split(line, ',');
    seq(|cells|, k requires 0 <= k < |cells| => ToLowerAscii(Trim(cells[k])))
  }

  datatype CsvKind = CardsFile | TopicsFile

  /** A header with `question` and `answer` is a cards file, even when it
      also names `name` or `topic`; failing that, one with `name` or `topic`
      is a topics file. */
  function Detect(headers: seq<string>): (r: Option<CsvKind>)
    ensures r == Some(CardsFile) <==> "question" in headers && "answer" in headers
    ensures r == Some(TopicsFile) <==>
      !("question" in headers && "answer" in headers) && ("name" in headers || "topic" in headers)
    ensures r == None <==>
      !("question" in headers && "answer" in headers) && "name" !in headers && "topic" !in headers
  {
    if "question" in headers && "answer" in headers then Some(CardsFile)
    else if "name" in headers || "topic" in headers then Some(TopicsFile)
    else None
  }

  // ---------------------------------------------------------------------
  // Cards files

  /** The columns `parseCardsCSV` looks up (-1 when absent). */
  datatype CardColumns = CardColumns(question: int, answer: int, topic: int, topicId: int)

  /** `idx` is what `headers.indexOf(name)` gives: the first position of
      `name`, or -1 when it is absent. */
  predicate Locates(headers: seq<string>, idx: int, name: string)
  {
    && -1 <= idx < |headers|
    && (idx >= 0 <==> name in headers)
    && (idx >= 0 ==> headers[idx] == name && forall k :: 0 <= k < idx ==> headers[k] != name)
  }

  function CardColumnsOf(headers: seq<string>): (cols: CardColumns)
    ensures Locates(headers, cols.question, "question") && Locates(headers, cols.answer, "answer")
    ensures Locates(headers, cols.topic, "topic") && Locates(headers, cols.topicId, "topicid")
  {
    CardColumns(IndexOf(headers, "question"), IndexOf(headers, "answer"),
                IndexOf(headers, "topic"), IndexOf(headers, "topicid"))
  }

  function Question(cols: CardColumns, values: seq<string>): string
  {
    OrEmpty(ValueAt(values, cols.question))
  }

  function Answer(cols: CardColumns, values: seq<string>): string
  {
    OrEmpty(ValueAt(values, cols.answer))
  }

  /** A row makes a card when it has two fields or more and a non-empty
      question and answer. */
  predicate KeepCardRow(cols: CardColumns, values: seq<string>)
    ensures KeepCardRow(cols, values) ==> 0 <= cols.question < |values| && 0 <= cols.answer < |values|
  {
    |values| >= 2 && Question(cols, values) != "" && Answer(cols, values) != ""
  }

  /** The topic name of a row: its `topic` cell (`undefined` past the end of
      the row), or `Imported` when the file has no `topic` column. */
  function RowTopicName(cols: CardColumns, values: seq<string>): (r: Option<string>)
    ensures r.None? <==> cols.topic >= |values|
    ensures cols.topic < 0 ==> r == Some("Imported")
    ensures 0 <= cols.topic < |values| ==> r == Some(values[cols.topic])
  {
    if cols.topic >= 0 then ValueAt(values, cols.topic) else Some("Imported")
  }

  /** The row's own topic id: its `topicid` cell when that is non-empty. */
  function GivenTopicId(cols: CardColumns, values: seq<string>): (r: Option<Id>)
    ensures r.Some? ==> r.value != ""
  {
    if cols.topicId >= 0 then
      match ValueAt(values, cols.topicId)
      case Some(v) => if v != "" then Some(v) else None
      case None => None
    else None
  }

  /** The parsed rows among `lines[1..n]` that make a card, in file order. */
  function KeptCardRows(cols: CardColumns, lines: seq<string>, n: nat): (rows: seq<seq<string>>)
    requires 1 <= n <= |lines|
    ensures forall k :: 0 <= k < |rows| ==> KeepCardRow(cols, rows[k])
  {
    if n == 1 then []
    else
      var values := Fields(lines[n - 1]);
      KeptCardRows(cols, lines, n - 1) + (if KeepCardRow(cols, values) then [values] else [])
  }

  /** The topic names, without repetition and in order of first use, of the
      rows that carry no topic id: one created topic each. */
  function NewTopicNames(cols: CardColumns, rows: seq<seq<string>>): seq<Option<string>>
  {
    if |rows| == 0 then []
    else
      var names := NewTopicNames(cols, rows[..|rows| - 1]);
      var last := rows[|rows| - 1];
      if GivenTopicId(cols, last).None? && RowTopicName(cols, last) !in names then
        names + [RowTopicName(cols, last)]
      else names
  }

  /** No topic name is created twice. */
  lemma {:induction false} NewTopicNamesDistinct(cols: CardColumns, rows: seq<seq<string>>)
    ensures forall j, k :: 0 <= j < k < |NewTopicNames(cols, rows)| ==>
      NewTopicNames(cols, rows)[j] != NewTopicNames(cols, rows)[k]
  {
    if |rows| > 0 {
      NewTopicNamesDistinct(cols, rows[..|rows| - 1]);
    }
  }

  /** Every row without a topic id has its topic among the created ones, and
      every created topic is the topic name of such a row. */
  lemma {:induction false} NewTopicNamesExact(cols: CardColumns, rows: seq<seq<string>>, name: Option<string>)
    ensures name in NewTopicNames(cols, rows) <==>
      exists k :: 0 <= k < |rows| && GivenTopicId(cols, rows[k]).None? && RowTopicName(cols, rows[k]) == name
  {
    if |rows| > 0 {
      var init := rows[..|rows| - 1];
      NewTopicNamesExact(cols, init, name);
      if exists k :: 0 <= k < |init| && GivenTopicId(cols, init[k]).None? && RowTopicName(cols, init[k]) == name {
        var k :| 0 <= k < |init| && GivenTopicId(cols, init[k]).None? && RowTopicName(cols, init[k]) == name;
        assert rows[k] == init[k];
      }
      if exists k :: 0 <= k < |rows| && GivenTopicId(cols, rows[k]).None? && RowTopicName(cols, rows[k]) == name {
        var k :| 0 <= k < |rows| && GivenTopicId(cols, rows[k]).None? && RowTopicName(cols, rows[k]) == name;
        if k < |init| {
          assert init[k] == rows[k];
        }
      }
    }
  }

  function TopicNames(ts: seq<Topic>): (r: seq<Option<string>>)
    ensures |r| == |ts|
    ensures forall k :: 0 <= k < |ts| ==> r[k] == ts[k].name
  {
    seq(|ts|, k requires 0 <= k < |ts| => ts[k].name)
  }

  /** The id of the first topic called `name`. */
  function TopicIdFor(ts: seq<Topic>, name: Option<string>): (r: Option<Id>)
    ensures r.Some? <==> name in TopicNames(ts)
  {
    if |ts| == 0 then None
    else if ts[0].name == name then Some(ts[0].id)
    else
      assert TopicNames(ts) == [ts[0].name] + TopicNames(ts[1..]);
      TopicIdFor(ts[1..], name)
  }

  lemma {:induction false} TopicIdForAppend(ts: seq<Topic>, t: Topic, name: Option<string>)
    ensures TopicIdFor(ts + [t], name) ==
      if TopicIdFor(ts, name).Some? then TopicIdFor(ts, name)
      else if t.name == name then Some(t.id)
      else None
  {
    if |ts| > 0 {
      assert (ts + [t])[1..] == ts[1..] + [t];
      TopicIdForAppend(ts[1..], t, name);
    } else {
      assert (ts + [t])[1..] == [];
    }
  }

  /** The topic a kept row's card belongs to: its own topic id, or the created
      topic of its name. */
  predicate CardTopicOk(c: Card, ts: seq<Topic>, cols: CardColumns, values: seq<string>)
  {
    match GivenTopicId(cols, values)
    case Some(id) => c.topicId == id
    case None => TopicIdFor(ts, RowTopicName(cols, values)) == Some(c.topicId)
  }

  /** The card a kept row makes, apart from its id and topic. */
  predicate CardOfRow(c: Card, cols: CardColumns, values: seq<string>, now: Stamp)
  {
    && c.question == Question(cols, values) && c.answer == Answer(cols, values)
    && c.score == Some(0) && c.createdAt == now && c.updatedAt == now
  }

  /** Every topic a cards import creates has the import emoji and the
      import instant. */
  predicate ImportedTopics(topics: seq<Topic>, now: Stamp)
  {
    forall k :: 0 <= k < |topics| ==>
      topics[k].emoji == ImportedEmoji && topics[k].createdAt == now && topics[k].updatedAt == now
  }

  /** What `parseCardsCSV` returns for `lines` with columns `cols`: one card per
      kept row, in order; one topic per new topic name, in order of first use,
      with the import emoji; the ids drawn from the supply. */
  predicate CardsImport(cols: CardColumns, lines: seq<string>, now: Stamp, nextId: nat -> Id,
                        data: ImportData, used: nat)
    requires |lines| >= 1
  {
    var rows := KeptCardRows(cols, lines, |lines|);
    && CardsMatch(data.cards, data.topics, cols, rows, now)
    && TopicNames(data.topics) == NewTopicNames(cols, rows)
    && ImportedTopics(data.topics, now)
    && used == |data.topics| + |data.cards|
    && IdsDrawn(data, nextId, used)
  }

  lemma KeptStep(cols: CardColumns, lines: seq<string>, i: nat)
    requires 1 <= i < |lines|
    ensures KeptCardRows(cols, lines, i + 1) ==
      KeptCardRows(cols, lines, i) + (if KeepCardRow(cols, Fields(lines[i])) then [Fields(lines[i])] else [])
  {
  }

  lemma NamesStep(cols: CardColumns, rows: seq<seq<string>>, values: seq<string>)
    ensures NewTopicNames(cols, rows + [values]) ==
      if GivenTopicId(cols, values).None? && RowTopicName(cols, values) !in NewTopicNames(cols, rows) then
        NewTopicNames(cols, rows) + [RowTopicName(cols, values)]
      else NewTopicNames(cols, rows)
  {
    assert (rows + [values])[..|rows|] == rows;
  }

  /** The cards made so far match the kept rows so far. */
  predicate CardsMatch(cards: seq<Card>, topics: seq<Topic>, cols: CardColumns, rows: seq<seq<string>>, now: Stamp)
  {
    && |cards| == |rows|
    && forall k :: 0 <= k < |rows| ==>
         CardOfRow(cards[k], cols, rows[k], now) && CardTopicOk(cards[k], topics, cols, rows[k])
  }

  /** `topicMap` maps each created topic name to the id of that topic. */
  ghost predicate MapMatches(topicMap: map<Option<string>, Id>, topics: seq<Topic>)
  {
    && (forall nm :: nm in topicMap <==> TopicIdFor(topics, nm).Some?)
    && (forall nm :: nm in topicMap ==> TopicIdFor(topics, nm) == Some(topicMap[nm]))
  }

  lemma MapLookup(topicMap: map<Option<string>, Id>, topics: seq<Topic>, nm: Option<string>)
    requires MapMatches(topicMap, topics)
    ensures nm in topicMap ==> TopicIdFor(topics, nm) == Some(topicMap[nm])
    ensures nm !in topicMap ==> TopicIdFor(topics, nm) == None
  {
  }

  /** Creating a topic does not move the earlier cards. */
  lemma CardsMatchNewTopic(cards: seq<Card>, topics: seq<Topic>, cols: CardColumns, rows: seq<seq<string>>,
                           now: Stamp, t: Topic)
    requires CardsMatch(cards, topics, cols, rows, now)
    ensures CardsMatch(cards, topics + [t], cols, rows, now)
  {
    forall k | 0 <= k < |rows|
      ensures CardTopicOk(cards[k], topics + [t], cols, rows[k])
    {
      TopicIdForAppend(topics, t, RowTopicName(cols, rows[k]));
    }
  }

  lemma CardsMatchExtend(cards: seq<Card>, topics: seq<Topic>, cols: CardColumns, rows: seq<seq<string>>,
                         now: Stamp, c: Card, values: seq<string>)
    requires CardsMatch(cards, topics, cols, rows, now)
    requires CardOfRow(c, cols, values, now) && CardTopicOk(c, topics, cols, values)
    ensures CardsMatch(cards + [c], topics, cols, rows + [values], now)
  {
    assert forall k :: 0 <= k < |rows| ==> (rows + [values])[k] == rows[k] && (cards + [c])[k] == cards[k];
  }

  /** Recording a new topic in the map keeps it in step with the topics. */
  lemma MapExtend(topicMap: map<Option<string>, Id>, topics: seq<Topic>, t: Topic)
    requires MapMatches(topicMap, topics) && t.name !in topicMap
    ensures MapMatches(topicMap[t.name := t.id], topics + [t])
  {
    forall nm
      ensures TopicIdFor(topics + [t], nm) ==
        if TopicIdFor(topics, nm).Some? then TopicIdFor(topics, nm)
        else if t.name == nm then Some(t.id) else None
    {
      TopicIdForAppend(topics, t, nm);
    }
  }

  lemma NamesExtend(topics: seq<Topic>, t: Topic)
    ensures TopicNames(topics + [t]) == TopicNames(topics) + [t.name]
  {
  }

  /** Creating the topic of a row whose name has no topic yet keeps the
      loop's invariants. */
  lemma NewTopicStep(cards: seq<Card>, topics: seq<Topic>, topicMap: map<Option<string>, Id>,
                     cols: CardColumns, rows: seq<seq<string>>, values: seq<string>, now: Stamp,
                     nextId: nat -> Id, used: nat, topic: Topic)
    requires CardsMatch(cards, topics, cols, rows, now)
    requires TopicNames(topics) == NewTopicNames(cols, rows)
    requires MapMatches(topicMap, topics)
    requires IdsDrawn(ImportData(topics, cards), nextId, used)
    requires GivenTopicId(cols, values).None? && RowTopicName(cols, values) !in topicMap
    requires topic == Topic(nextId(used), RowTopicName(cols, values), ImportedEmoji, now, now)
    requires ImportedTopics(topics, now)
    ensures ImportedTopics(topics + [topic], now)
    ensures CardsMatch(cards, topics + [topic], cols, rows, now)
    ensures TopicNames(topics + [topic]) == NewTopicNames(cols, rows + [values])
    ensures MapMatches(topicMap[topic.name := topic.id], topics + [topic])
    ensures IdsDrawn(ImportData(topics + [topic], cards), nextId, used + 1)
  {
    TopicDrawn(topics, cards, topic, nextId, used);
    CardsMatchNewTopic(cards, topics, cols, rows, now, topic);
    MapExtend(topicMap, topics, topic);
    NamesExtend(topics, topic);
    NamesStep(cols, rows, values);
  }

  /** The state of the `parseCardsCSV` loop after the kept rows `rows`. */
  ghost predicate CardsLoop(cols: CardColumns, rows: seq<seq<string>>, now: Stamp, nextId: nat -> Id,
                            topics: seq<Topic>, cards: seq<Card>, topicMap: map<Option<string>, Id>, used: nat)
  {
    && CardsMatch(cards, topics, cols, rows, now)
    && TopicNames(topics) == NewTopicNames(cols, rows)
    && ImportedTopics(topics, now)
    && MapMatches(topicMap, topics)
    && used == |topics| + |cards|
    && IdsDrawn(ImportData(topics, cards), nextId, used)
  }

  /** The loop's state once the topic of the kept row `values` is settled:
      created if need be, and `tid` the id its card gets. */
  ghost predicate TopicSettled(cols: CardColumns, rows: seq<seq<string>>, values: seq<string>, now: Stamp,
                               nextId: nat -> Id, topics: seq<Topic>, cards: seq<Card>,
                               topicMap: map<Option<string>, Id>, used: nat, tid: Id)
  {
    && CardsMatch(cards, topics, cols, rows, now)
    && TopicNames(topics) == NewTopicNames(cols, rows + [values])
    && ImportedTopics(topics, now) && MapMatches(topicMap, topics)
    && used == |topics| + |cards| && IdsDrawn(ImportData(topics, cards), nextId, used)
    && (match GivenTopicId(cols, values)
        case Some(id) => tid == id
        case None => TopicIdFor(topics, RowTopicName(cols, values)) == Some(tid))
  }

  /** Adding the card of a row whose topic is settled completes the loop's
      step. */
  lemma AddCardStep(cols: CardColumns, rows: seq<seq<string>>, values: seq<string>, now: Stamp,
                    nextId: nat -> Id, topics: seq<Topic>, cards: seq<Card>,
                    topicMap: map<Option<string>, Id>, used: nat, tid: Id, card: Card)
    requires TopicSettled(cols, rows, values, now, nextId, topics, cards, topicMap, used, tid)
    requires CardOfRow(card, cols, values, now) && card.topicId == tid
    requires card.id == nextId(used)
    ensures CardsLoop(cols, rows + [values], now, nextId, topics, cards + [card], topicMap, used + 1)
  {
    assert CardTopicOk(card, topics, cols, values);
    CardDrawn(topics, cards, card, nextId, used);
    CardsMatchExtend(cards, topics, cols, rows, now, card, values);
  }

  /** A row naming a topic the map already holds: nothing is created. */
  lemma KnownTopicStep(cols: CardColumns, rows: seq<seq<string>>, values: seq<string>, now: Stamp,
                       nextId: nat -> Id, topics: seq<Topic>, cards: seq<Card>,
                       topicMap: map<Option<string>, Id>, used: nat)
    requires CardsLoop(cols, rows, now, nextId, topics, cards, topicMap, used)
    requires GivenTopicId(cols, values).None? && RowTopicName(cols, values) in topicMap
    ensures TopicSettled(cols, rows, values, now, nextId, topics, cards, topicMap, used,
                         topicMap[RowTopicName(cols, values)])
  {
    NamesStep(cols, rows, values);
    MapLookup(topicMap, topics, RowTopicName(cols, values));
  }

  /** A row with its own topic id: nothing is created. */
  lemma GivenTopicStep(cols: CardColumns, rows: seq<seq<string>>, values: seq<string>, now: Stamp,
                       nextId: nat -> Id, topics: seq<Topic>, cards: seq<Card>,
                       topicMap: map<Option<string>, Id>, used: nat)
    requires CardsLoop(cols, rows, now, nextId, topics, cards, topicMap, used)
    requires GivenTopicId(cols, values).Some?
    ensures TopicSettled(cols, rows, values, now, nextId, topics, cards, topicMap, used,
                         GivenTopicId(cols, values).value)
  {
    NamesStep(cols, rows, values);
  }

  /** A row naming a topic not yet seen: the topic is created with the next id. */
  lemma CreatedTopicStep(cols: CardColumns, rows: seq<seq<string>>, values: seq<string>, now: Stamp,
                         nextId: nat -> Id, topics: seq<Topic>, cards: seq<Card>,
                         topicMap: map<Option<string>, Id>, used: nat, topic: Topic)
    requires CardsLoop(cols, rows, now, nextId, topics, cards, topicMap, used)
    requires GivenTopicId(cols, values).None? && RowTopicName(cols, values) !in topicMap
    requires topic == Topic(nextId(used), RowTopicName(cols, values), ImportedEmoji, now, now)
    ensures TopicSettled(cols, rows, values, now, nextId, topics + [topic], cards,
                         topicMap[topic.name := topic.id], used + 1, topic.id)
  {
    NewTopicStep(cards, topics, topicMap, cols, rows, values, now, nextId, used, topic);
    MapLookup(topicMap[topic.name := topic.id], topics + [topic], topic.name);
  }

  /** The body of the `parseCardsCSV` loop for a row that makes a card: find
      or create the row's topic, then add the card. */
  method AddCardRow(cols: CardColumns, values: seq<string>, now: Stamp, nextId: nat -> Id,
                    ghost rows: seq<seq<string>>, topics: seq<Topic>, cards: seq<Card>,
                    topicMap: map<Option<string>, Id>, used: nat)
    returns (topics': seq<Topic>, cards': seq<Card>, topicMap': map<Option<string>, Id>, used': nat)
    requires KeepCardRow(cols, values)
    requires CardsLoop(cols, rows, now, nextId, topics, cards, topicMap, used)
    ensures CardsLoop(cols, rows + [values], now, nextId, topics', cards', topicMap', used')
  {
    var topicName := RowTopicName(cols, values);
    var topicId := GivenTopicId(cols, values);
    var tid: Id;
    if topicId.Some? {
      GivenTopicStep(cols, rows, values, now, nextId, topics, cards, topicMap, used);
      tid := topicId.value;
      topics', topicMap', used' := topics, topicMap, used;
    } else if topicName in topicMap {
      KnownTopicStep(cols, rows, values, now, nextId, topics, cards, topicMap, used);
      tid := topicMap[topicName];
      topics', topicMap', used' := topics, topicMap, used;
    } else {
      tid := nextId(used);
      var topic := Topic(tid, topicName, ImportedEmoji, now, now);
      CreatedTopicStep(cols, rows, values, now, nextId, topics, cards, topicMap, used, topic);
      topics' := topics + [topic];
      topicMap' := topicMap[topicName := tid];
      used' := used + 1;
    }
    var card := Card(nextId(used'), tid, Question(cols, values), Answer(cols, values), Some(0), now, now);
    AddCardStep(cols, rows, values, now, nextId, topics', cards, topicMap', used', tid, card);
    cards' := cards + [card];
    used' := used' + 1;
  }

  /** `parseCardsCSV` */
  method ParseCardsCSV(lines: seq<string>, headers: seq<string>, now: Stamp, nextId: nat -> Id)
    returns (data: ImportData, used: nat)
    requires |lines| >= 1
    ensures CardsImport(CardColumnsOf(headers), lines, now, nextId, data, used)
  {
    var cols := CardColumnsOf(headers);
    var topics: seq<Topic> := [];
    var cards: seq<Card> := [];
    var topicMap: map<Option<string>, Id> := map[];
    used := 0;
    var i := 1;
    while i < |lines|
      invariant 1 <= i <= |lines|
      invariant CardsLoop(cols, KeptCardRows(cols, lines, i), now, nextId, topics, cards, topicMap, used)
      decreases |lines| - i
    {
      ghost var rows := KeptCardRows(cols, lines, i);
      KeptStep(cols, lines, i);
      var values := ParseCSVLine(lines[i]);
      if KeepCardRow(cols, values) {
        topics, cards, topicMap, used := AddCardRow(cols, values, now, nextId, rows, topics, cards, topicMap, used);
        assert KeptCardRows(cols, lines, i + 1) == rows + [values];
      } else {
        assert KeptCardRows(cols, lines, i + 1) == rows;
      }
      i := i + 1;
    }
    data := ImportData(topics, cards);
  }

  // ---------------------------------------------------------------------
  // Topics files

  /** The columns `parseTopicsCSV` looks up: `name`, else `topic`; `emoji`,
      else `icon` (-1 when absent). */
  datatype TopicColumns = TopicColumns(name: int, emoji: int)

  function TopicColumnsOf(headers: seq<string>): (cols: TopicColumns)
    ensures Locates(headers, cols.name, if "name" in headers then "name" else "topic")
    ensures Locates(headers, cols.emoji, if "emoji" in headers then "emoji" else "icon")
  {
    TopicColumns(
      if IndexOf(headers, "name") >= 0 then IndexOf(headers, "name") else IndexOf(headers, "topic"),
      if IndexOf(headers, "emoji") >= 0 then IndexOf(headers, "emoji") else IndexOf(headers, "icon"))
  }

  function TopicName(cols: TopicColumns, values: seq<string>): string
  {
    OrEmpty(ValueAt(values, cols.name))
  }

  /** A row makes a topic when its name cell is non-empty. */
  predicate KeepTopicRow(cols: TopicColumns, values: seq<string>)
  {
    TopicName(cols, values) != ""
  }

  /** A kept row that ends before the emoji column: `undefined.trim()` throws. */
  predicate TooShort(cols: TopicColumns, values: seq<string>)
  {
    KeepTopicRow(cols, values) && cols.emoji >= 0 && ValueAt(values, cols.emoji).None?
  }

  /** `emoji.trim() || '📚'`, with the books emoji when there is no emoji column. */
  function TopicEmoji(cols: TopicColumns, values: seq<string>): (e: string)
    requires !TooShort(cols, values) && KeepTopicRow(cols, values)
    ensures |e| > 0
    ensures cols.emoji < 0 ==> e == DefaultEmoji
  {
    if cols.emoji < 0 then DefaultEmoji
    else
      var trimmed := Trim(values[cols.emoji]);
      if trimmed == "" then DefaultEmoji else trimmed
  }

  function KeptTopicRows(cols: TopicColumns, lines: seq<string>, n: nat): (rows: seq<seq<string>>)
    requires 1 <= n <= |lines|
    ensures forall k :: 0 <= k < |rows| ==> KeepTopicRow(cols, rows[k])
  {
    if n == 1 then []
    else
      var values := Fields(lines[n - 1]);
      KeptTopicRows(cols, lines, n - 1) + (if KeepTopicRow(cols, values) then [values] else [])
  }

  lemma KeptTopicStep(cols: TopicColumns, lines: seq<string>, i: nat)
    requires 1 <= i < |lines|
    ensures KeptTopicRows(cols, lines, i + 1) ==
      KeptTopicRows(cols, lines, i) + (if KeepTopicRow(cols, Fields(lines[i])) then [Fields(lines[i])] else [])
  {
  }

  /** No data row before line `n` is too short. */
  ghost predicate NoShortBefore(cols: TopicColumns, lines: seq<string>, n: nat)
    requires 1 <= n <= |lines|
  {
    n == 1 || (NoShortBefore(cols, lines, n - 1) && !TooShort(cols, Fields(lines[n - 1])))
  }

  lemma {:induction false} NoShortBeforeMeans(cols: TopicColumns, lines: seq<string>, n: nat)
    requires 1 <= n <= |lines|
    ensures NoShortBefore(cols, lines, n) <==> forall m :: 1 <= m < n ==> !TooShort(cols, Fields(lines[m]))
  {
    if n > 1 {
      NoShortBeforeMeans(cols, lines, n - 1);
    }
  }

  /** The topic a kept row makes, apart from its id. */
  predicate TopicOfRow(t: Topic, cols: TopicColumns, values: seq<string>, now: Stamp)
    requires !TooShort(cols, values) && KeepTopicRow(cols, values)
  {
    && t.name == Some(Trim(TopicName(cols, values))) && t.emoji == TopicEmoji(cols, values)
    && t.createdAt == now && t.updatedAt == now
  }

  /** The topics made so far match the kept rows so far. */
  predicate TopicsMatch(topics: seq<Topic>, cols: TopicColumns, rows: seq<seq<string>>, now: Stamp)
  {
    && |topics| == |rows|
    && forall k :: 0 <= k < |rows| ==>
         KeepTopicRow(cols, rows[k]) && !TooShort(cols, rows[k]) && TopicOfRow(topics[k], cols, rows[k], now)
  }

  lemma TopicsMatchExtend(topics: seq<Topic>, cols: TopicColumns, rows: seq<seq<string>>, now: Stamp,
                          t: Topic, values: seq<string>)
    requires TopicsMatch(topics, cols, rows, now)
    requires KeepTopicRow(cols, values) && !TooShort(cols, values) && TopicOfRow(t, cols, values, now)
    ensures TopicsMatch(topics + [t], cols, rows + [values], now)
  {
    assert forall k :: 0 <= k < |rows| ==> (rows + [values])[k] == rows[k] && (topics + [t])[k] == topics[k];
  }

  /** The state of the `parseTopicsCSV` loop after the kept rows `rows`. */
  predicate TopicsLoop(cols: TopicColumns, rows: seq<seq<string>>, now: Stamp, nextId: nat -> Id,
                       topics: seq<Topic>, used: nat)
  {
    TopicsMatch(topics, cols, rows, now) && used == |topics| && IdsDrawn(ImportData(topics, []), nextId, used)
  }

  /** Adding the topic of a kept row with its emoji keeps the loop's state. */
  lemma AddTopicStep(cols: TopicColumns, lines: seq<string>, i: nat, now: Stamp, nextId: nat -> Id,
                     topics: seq<Topic>, used: nat, topic: Topic)
    requires 1 <= i < |lines|
    requires TopicsLoop(cols, KeptTopicRows(cols, lines, i), now, nextId, topics, used)
    requires KeepTopicRow(cols, Fields(lines[i])) && !TooShort(cols, Fields(lines[i]))
    requires TopicOfRow(topic, cols, Fields(lines[i]), now) && topic.id == nextId(used)
    ensures TopicsLoop(cols, KeptTopicRows(cols, lines, i + 1), now, nextId, topics + [topic], used + 1)
    ensures NoShortBefore(cols, lines, i) ==> NoShortBefore(cols, lines, i + 1)
  {
    KeptTopicStep(cols, lines, i);
    TopicDrawn(topics, [], topic, nextId, used);
    TopicsMatchExtend(topics, cols, KeptTopicRows(cols, lines, i), now, topic, Fields(lines[i]));
  }

  /** A row with an empty name makes no topic and changes nothing. */
  lemma SkipTopicStep(cols: TopicColumns, lines: seq<string>, i: nat, now: Stamp, nextId: nat -> Id,
                      topics: seq<Topic>, used: nat)
    requires 1 <= i < |lines|
    requires TopicsLoop(cols, KeptTopicRows(cols, lines, i), now, nextId, topics, used)
    requires NoShortBefore(cols, lines, i)
    requires !KeepTopicRow(cols, Fields(lines[i]))
    ensures TopicsLoop(cols, KeptTopicRows(cols, lines, i + 1), now, nextId, topics, used)
    ensures NoShortBefore(cols, lines, i + 1)
  {
    KeptTopicStep(cols, lines, i);
  }

  /** Some data row of `lines` names a topic but ends before the emoji column. */
  predicate ShortRow(cols: TopicColumns, lines: seq<string>)
  {
    exists n :: 1 <= n < |lines| && TooShort(cols, Fields(lines[n]))
  }

  lemma ShortRowMeans(cols: TopicColumns, lines: seq<string>)
    requires |lines| >= 1
    ensures ShortRow(cols, lines) <==> !forall m :: 1 <= m < |lines| ==> !TooShort(cols, Fields(lines[m]))
  {
  }

  /** What `parseTopicsCSV` returns when no row is too short: no cards; one
      topic per row with a name, in order, with its trimmed name and its
      emoji; the ids drawn from the supply. */
  predicate TopicsImport(cols: TopicColumns, lines: seq<string>, now: Stamp, nextId: nat -> Id,
                         data: ImportData, used: nat)
    requires |lines| >= 1
  {
    data.cards == [] && TopicsLoop(cols, KeptTopicRows(cols, lines, |lines|), now, nextId, data.topics, used)
  }

  /** The body of the `parseTopicsCSV` loop: a row with a name makes a
      topic, unless it is too short, which ends the parse. */
  method AddTopicRow(cols: TopicColumns, lines: seq<string>, i: nat, now: Stamp, nextId: nat -> Id,
                     topics: seq<Topic>, used: nat)
    returns (short: bool, topics': seq<Topic>, used': nat)
    requires 1 <= i < |lines|
    requires TopicsLoop(cols, KeptTopicRows(cols, lines, i), now, nextId, topics, used)
    requires NoShortBefore(cols, lines, i)
    ensures short <==> TooShort(cols, Fields(lines[i]))
    ensures !short ==> TopicsLoop(cols, KeptTopicRows(cols, lines, i + 1), now, nextId, topics', used')
    ensures !short ==> NoShortBefore(cols, lines, i + 1)
  {
    var values := ParseCSVLine(lines[i]);
    var name := TopicName(cols, values);
    if name != "" && cols.emoji >= 0 && ValueAt(values, cols.emoji).None? {
      return true, topics, used;
    }
    if name != "" {
      var topic := Topic(nextId(used), Some(Trim(name)), TopicEmoji(cols, values), now, now);
      AddTopicStep(cols, lines, i, now, nextId, topics, used, topic);
      topics', used' := topics + [topic], used + 1;
    } else {
      SkipTopicStep(cols, lines, i, now, nextId, topics, used);
      topics', used' := topics, used;
    }
    short := false;
  }

  /** The `parseTopicsCSV` loop: stops at the first row that is too short. */
  method ScanTopicRows(cols: TopicColumns, lines: seq<string>, now: Stamp, nextId: nat -> Id)
    returns (short: bool, topics: seq<Topic>, used: nat)
    requires |lines| >= 1
    ensures short <==> !NoShortBefore(cols, lines, |lines|)
    ensures !short ==> TopicsLoop(cols, KeptTopicRows(cols, lines, |lines|), now, nextId, topics, used)
  {
    topics, used := [], 0;
    var i := 1;
    while i < |lines|
      invariant 1 <= i <= |lines|
      invariant NoShortBefore(cols, lines, i)
      invariant TopicsLoop(cols, KeptTopicRows(cols, lines, i), now, nextId, topics, used)
      decreases |lines| - i
    {
      short, topics, used := AddTopicRow(cols, lines, i, now, nextId, topics, used);
      if short {
        NoShortAfter(cols, lines, i + 1, |lines|);
        return;
      }
      i := i + 1;
    }
    short := false;
  }

  /** Once a row is too short, every later prefix has a short row. */
  lemma {:induction false} NoShortAfter(cols: TopicColumns, lines: seq<string>, i: nat, n: nat)
    requires 2 <= i <= n <= |lines| && !NoShortBefore(cols, lines, i)
    ensures !NoShortBefore(cols, lines, n)
    decreases n - i
  {
    if i < n {
      NoShortAfter(cols, lines, i + 1, n);
    }
  }

  /** `parseTopicsCSV`: one topic per row with a name, or the error of the
      first such row that is shorter than the emoji column. */
  method ParseTopicsCSV(lines: seq<string>, headers: seq<string>, now: Stamp, nextId: nat -> Id)
    returns (r: Result<ImportData, CsvError>, used: nat)
    requires |lines| >= 1
    ensures r.Failure? <==> ShortRow(TopicColumnsOf(headers), lines)
    ensures r.Failure? ==> r.error == RowTooShort
    ensures r.Success? ==> TopicsImport(TopicColumnsOf(headers), lines, now, nextId, r.value, used)
  {
    var cols := TopicColumnsOf(headers);
    var short, topics;
    short, topics, used := ScanTopicRows(cols, lines, now, nextId);
    ShortRowMeans(cols, lines);
    NoShortBeforeMeans(cols, lines, |lines|);
    if short {
      return Failure(RowTooShort), used;
    }
    r := Success(ImportData(topics, []));
  }

  // ---------------------------------------------------------------------
  // Dispatch

  /** `parseCSV`: fewer than two lines and an unknown header are errors; a
      header with `question` and `answer` makes a cards import, otherwise one
      with `name` or `topic` makes a topics import. */
  method ParseCSV(text: string, now: Stamp, nextId: nat -> Id) returns (r: Result<ImportData, CsvError>, used: nat)
    ensures |Lines(text)| < 2 ==> r == Failure(NoDataRows)
    ensures |Lines(text)| >= 2 ==>
      var headers := HeaderCells(Lines(text)[0]);
      && (Detect(headers) == None ==> r == Failure(UnrecognizedFormat))
      && (Detect(headers) == Some(CardsFile) ==>
            r.Success? && CardsImport(CardColumnsOf(headers), Lines(text), now, nextId, r.value, used))
      && (Detect(headers) == Some(TopicsFile) ==>
            && (r.Failure? <==> ShortRow(TopicColumnsOf(headers), Lines(text)))
            && (r.Failure? ==> r.error == RowTooShort)
            && (r.Success? ==> TopicsImport(TopicColumnsOf(headers), Lines(text), now, nextId, r.value, used)))
  {
    var lines := Lines(text);
    if |lines| < 2 {
      return Failure(NoDataRows), 0;
    }
    var headers := HeaderCells(lines[0]);
    match Detect(headers)
    case Some(CardsFile) =>
      var data;
      data, used := ParseCardsCSV(lines, headers, now, nextId);
      r := Success(data);
    case Some(TopicsFile) =>
      r, used := ParseTopicsCSV(lines, headers, now, nextId);
    case None =>
      r, used := Failure(UnrecognizedFormat), 0;
  }
}
