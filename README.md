# FlashMind core, modelled in Dafny

FlashMind is a flashcard web app. Topics hold cards. Each card carries a
question, an answer and an integer score. This project models the logic of
`app.js` that does not depend on the browser:

- **The study session.** The `studyMode`, `studyCards`, `currentCardIndex` and
  `isCardFlipped` fields of the app state become a class, `Study.StudySession`.
  Its methods are `startStudy`, `shuffleCards`, `displayCurrentCard`,
  `flipCard`, `recordScore`, `nextCard` and `toggleStudyMode`.
- **The two shuffles** (module `Shuffle`). Random mode uses an in-place
  Fisher–Yates loop over an `array`. Focus mode uses `weightedShuffle`: each
  card gets the weight `Math.pow(2, (max - score) / range * 3)`, then cards are
  sampled without replacement by walking the weights. `Math.random()` is a
  sequence of draws in [0, 1), one per step. `Math.pow(2, ·)` is a function
  `pow2` that is positive on [0, 3]. The ordering lemma also asks that it be
  increasing.
- **Scores** (module `Scoring`). The buttons and keys map to deltas −1, 0
  and +1. The topic success rate uses `Math.round` and clamps to 0..100,
  computed in exact rationals. The score badge has a class and a label.
- **The card preview** (`Markdown.StripMarkdown`).
- **CSV import.** `CsvLine` models the quote-aware field splitter
  `parseCSVLine`. `CsvImport` models `parseCSV`, `parseCardsCSV` and
  `parseTopicsCSV`. `generateId()` is an id supply `nextId` (call n returns
  `nextId(n)`). Every `new Date().toISOString()` is one instant `now`.
- **Record-store rules** (module `Store`). The two IndexedDB object stores
  become two maps in the class `Store.RecordStore`. The rules modelled are the
  import merge of `importData`, the cascading `deleteTopic` and the card form's
  `saveCard`.

Some JavaScript behaviour that is easy to miss is modelled on purpose:

- `recordScore` changes only `score`, not `updatedAt`. A missing score counts as 0.
- `recordScore` on a flipped card with no cards loaded throws a TypeError in
  the JavaScript. The model returns `NoCurrentCard` and changes nothing.
- Suppose a topics CSV has an emoji column. A row with a name that ends before
  that column makes `parseTopicsCSV` throw (`undefined.trim()`). The whole
  import fails with `RowTooShort`.
- Suppose a cards CSV has a `topic` column. A row that ends before that column
  gets the topic name `undefined` (`None` here). All such rows share one
  created topic.
- The import merge rejects a file only when `topics` or `cards` is missing. An
  empty list is accepted.
- Editing a card that is no longer stored throws in the JavaScript. The model
  returns `NoSuchCard`.

## Model

| member | source | states |
|---|---|---|
| Records.ScoreOf | app.js:587 | `card.score \|\| 0`: a stored score reads as itself and a missing one as 0. |
| Scoring.Delta | app.js:865-867 | Miss gives −1, Not yet gives 0, Good gives +1, each as an if-and-only-if. |
| Scoring.KeyFeedback | app.js:909-913 | Exactly the keys `1`, `2` and `3` score. The delta is the key's digit minus 2. |
| Scoring.ApplyFeedback | app.js:586-587 | The new score is the old score (missing = 0) plus the delta, and it is now present. Id, topic, question, answer, `createdAt` and `updatedAt` are unchanged. |
| Scoring.GoodThenMissRestores | app.js:587 | A Good followed by a Miss gives back the original score. |
| Scoring.Round | app.js:428 | `Math.round` gives the integer n with n − ½ ≤ x < n + ½, so halves go up. |
| Scoring.Percent | app.js:425-427 | For n cards the raw percentage is 50 plus 5 points per unit of average score, so −10 maps to 0 and +10 to 100. |
| Scoring.Rate | app.js:423-430 | The rate lies in 0..100 and is 0 for no cards. For n > 0 cards it is `Math.round` of the percentage, clamped: 0 when the percentage is below −0.5, 100 from 100.5 on, and otherwise within ½ of the percentage. |
| Scoring.SuccessRate | app.js:420-430 | A topic's rate lies in 0..100 and is 0 for a topic without cards. |
| Scoring.BalancedIsFifty | app.js:424-428 | Cards whose scores sum to 0 give exactly 50. |
| Scoring.RateSaturates | app.js:426-429 | An average of +10 or more clamps to 100. An average of −10 or less clamps to 0. |
| Scoring.RateMonotone | app.js:424-429 | For the same number of cards, a higher total never gives a lower rate. |
| Scoring.ZeroScoresTotalZero | app.js:424 | Cards all at score 0 or with no score sum to 0. |
| Scoring.AllZeroIsFifty | app.js:420-430 | A topic whose cards all have score 0 shows 50. |
| Scoring.TwoCardExamples | app.js:420-430 | Scores [10, −10] give 50. Scores [20, 20] give 100, clamped from 150. |
| Scoring.NatToStringZero | app.js:476 | The decimal rendering is `0` exactly for 0. |
| Scoring.ClassOf | app.js:465-468 | The badge class is positive iff the score is above 0, negative iff below 0 and neutral iff 0. |
| Scoring.LabelMatchesClass | app.js:465-468 | The badge label starts with `+` iff its class is positive, starts with `-` iff negative, and is `0` iff neutral. |
| Scoring.LabelShape | app.js:476 | The label is `+digits` for a positive score, `-digits` for a negative one and `0` for zero. |
| Scoring.LabelInjective | app.js:476 | Two scores with the same label are equal. |
| JsString.Lead | app.js:1143 | The count of leading white-space characters: all of them are white space and the next one is not. |
| JsString.Body | app.js:1143 | The length without trailing white space: everything after it is white space and its last character is not. |
| JsString.Trim | app.js:1143 | `trim()` is the slice between the leading and trailing white space. Both removed ends are white space, and the result neither starts nor ends with white space. |
| JsString.TrimmedIsFixed | app.js:1143 | A string with no white space at either end is its own trim. |
| JsString.TrimIdempotent | app.js:258 | Trimming twice is trimming once. |
| JsString.Split | app.js:1020 | `split` gives at least one piece and no piece contains the separator. |
| JsString.JoinSplit | app.js:1020 | Joining the pieces of `split` with the separator gives back the input. |
| JsString.SplitLength | app.js:1020 | `split` gives one piece more than there are separators. |
| JsString.ToLowerAscii | app.js:1025 | The length is kept. ASCII capitals move down by 32 and every other character is kept. |
| JsString.IndexOf | app.js:1040-1043 | `indexOf` gives −1 iff the value is absent. Otherwise it gives the first position holding the value. |
| JsString.NatToString | app.js:476 | The rendering of a number is a non-empty string of decimal digits. |
| JsString.DecimalRoundTrip | app.js:476 | Reading the digits back gives the number, so the rendering loses nothing. |
| Shuffle.ScaleBelow | app.js:520 | A draw in [0, 1) scaled by x > 0 lies in [0, x). |
| Shuffle.SwapIndex | app.js:520 | `Math.floor(Math.random() * (i + 1))` lies in [0, i]. |
| Shuffle.Swap | app.js:521 | The destructuring swap puts each of the two cards at the other's place and leaves every other place and the length as they were. |
| Shuffle.SwapPermutes | app.js:521 | Swapping two cards keeps the length and the multiset of cards. |
| Shuffle.FisherYatesFromPermutes | app.js:519-522 | The descending swap loop, run from any position, keeps the length and the multiset of cards. |
| Shuffle.FisherYatesPermutes | app.js:518-522 | For any draws, random mode gives a permutation of the cards. |
| Shuffle.ShuffleInPlace | app.js:518-522 | The in-place loop leaves the array holding the Fisher–Yates order of its old contents for those draws. |
| Shuffle.SumFromPositive | app.js:547 | A non-empty suffix of positive weights has a positive sum. |
| Shuffle.PickFrom | app.js:550-557 | With a draw below the remaining weight, the walk stops at the first position whose running weight reaches the draw. The draw is at most the running weight through k, every earlier running weight stays below it, and k lies inside `remaining`. |
| Shuffle.PrefixShift | app.js:550-552 | The running weight from i equals the weight at i plus the running weight from i + 1. This is the step the walk takes when it subtracts one weight from the draw. |
| Shuffle.RemoveAt | app.js:554 | `splice(k, 1)` gives one element fewer: the elements before k stay in place and those after k move down by one. |
| Shuffle.RemoveAtMultiset | app.js:554 | `splice(k, 1)` removes exactly one copy of the k-th element. |
| Shuffle.RemoveAtPositive | app.js:554 | Removing a card keeps every remaining weight positive. |
| Shuffle.DrawBelowTotal | app.js:547-548 | `Math.random() * totalWeight` lies below the total weight. So the walk always picks a card and the outer loop never retries. |
| Shuffle.Items | app.js:553 | The cards of the weighted list, in order. |
| Shuffle.ItemsRemoveAt | app.js:553-554 | Removing a weighted entry removes its card from the card list. |
| Shuffle.SampleStep | app.js:546-558 | One round puts the card the walk stops at first. The rest is the sampling of what remains, with the next draws. |
| Shuffle.SamplePermutes | app.js:541-560 | For any positive weights and draws, weighted sampling returns every card exactly once. This covers a single card and equal scores. |
| Shuffle.MinScore | app.js:531 | The least score of the cards, with a missing score as 0. |
| Shuffle.MaxScore | app.js:532 | The greatest score of the cards, with a missing score as 0. |
| Shuffle.Range | app.js:533 | `maxScore - minScore \|\| 1` is at least 1. It is 1 when all scores are equal and the difference otherwise. |
| Shuffle.Exponent | app.js:538 | The exponent lies in [0, 3]. It is 0 for the highest score and 3 for the lowest one when the scores differ. |
| Shuffle.ExponentAntitone | app.js:538 | A higher score never gets a larger exponent. |
| Shuffle.WeightCards | app.js:535-539 | Each card keeps its place and gets the weight `pow2` of its exponent. All weights are positive. |
| Shuffle.WeightedOrderPermutes | app.js:529-561 | Focus mode returns every card exactly once, whatever the scores. |
| Shuffle.FocusFavoursLowScores | app.js:531-538 | With an increasing `pow2`, a lower score never weighs less. The highest score weighs `pow2(0)` and the lowest weighs `pow2(3)` when the scores differ. |
| Shuffle.Walk | app.js:550-557 | The inner `for` loop stops at the position the specification walk picks. |
| Shuffle.SampleAdvance | app.js:546-558 | A round at draw k takes the picked card and continues with the next draw on what remains. |
| Shuffle.SampleLoop | app.js:541-560 | The `while` loop with `splice` and `push` returns the weighted-sampling order. |
| Shuffle.WeightedShuffle | app.js:529-561 | `weightedShuffle` returns the focus-mode order, a permutation of its input. |
| Shuffle.ShuffledPermutes | app.js:516-527 | In either mode a shuffle keeps the length and the multiset of cards. |
| Study.StudySession.constructor | app.js:135-144 | The initial state is random mode, no cards, index 0 and not flipped. |
| Study.FocusArray | app.js:523-525 | Focus mode puts a new array holding the weighted shuffle of the cards in place of the study list. |
| Study.StudySession.ShuffleCards | app.js:516-527 | The cards become their shuffle in the current mode, in place in random mode. Length and multiset are kept, and mode, index and flip are unchanged. |
| Study.StudySession.DisplayCurrentCard | app.js:563-567 | With cards, the card shows unflipped. With none, the call returns before touching the flag. |
| Study.StudySession.StartStudy | app.js:500-514 | With no cards the session is left as it was. Otherwise the cards are a shuffled copy of the topic's cards (a permutation), the index is 0 and the card is unflipped. |
| Study.StudySession.FlipCard | app.js:575-578 | The flip flag inverts. Nothing else changes. |
| Study.StudySession.NextCard | app.js:594-605 | The index moves on. Past the last card it wraps to 0 and the cards are reshuffled. The multiset is kept and the card shown is unflipped. |
| Study.StudySession.RecordScore | app.js:580-592 | An unflipped card changes nothing. Otherwise only the current card's score moves by the delta, the scored card is put in the card store under its id (topics unchanged), and then `nextCard` runs on the updated cards. With no card loaded nothing changes. |
| Study.StudySession.ToggleStudyMode | app.js:623-633 | The mode switches, the cards are reshuffled in the new mode (same multiset), the index is 0 and the card is unflipped. |
| Markdown.RemoveMarkup | app.js:256 | No markup character `#*_`~[]` is left, and the result is no longer than the input. |
| Markdown.NewlinesToSpaces | app.js:257 | Every line feed becomes a space and every other character is kept. |
| Markdown.StripMarkdown | app.js:253-259 | The preview has no markup, no line feed and no white space at either end. |
| Markdown.RemoveMarkupAppend | app.js:256 | Removing markup distributes over concatenation. |
| Markdown.RemoveMarkupPlain | app.js:256 | Text without markup is left as it is. |
| Markdown.RemoveMarkupChar | app.js:256 | A single markup character is deleted and any other single character is kept. With distribution over concatenation this fixes the result on every input. |
| Markdown.RemoveMarkupKeeps | app.js:256 | Every character that is not markup occurs in the result exactly as often as in the input. Markup occurs zero times. |
| Markdown.NewlinesToSpacesAppend | app.js:257 | Replacing line feeds distributes over concatenation. |
| Markdown.StripDeletesMarkup | app.js:253-259 | Deleting one markup character anywhere in the text leaves the preview unchanged. |
| Markdown.StripNewlineIsSpace | app.js:253-259 | A line feed anywhere in the text gives the same preview as a space there. |
| Markdown.StripPlain | app.js:253-259 | Text that is plain, on one line and trimmed is its own preview. |
| Markdown.StripIdempotent | app.js:253-259 | Stripping a preview again changes nothing. |
| CsvLine.ScanFrom | app.js:1126-1143 | The state machine only appends fields: the fields already pushed stay a prefix, and at least one more follows. |
| CsvLine.ParseCSVLine | app.js:1121-1146 | The loop returns exactly the fields of the state machine. |
| CsvLine.ScanTrimmed | app.js:1136-1143 | Every field pushed is trimmed. |
| CsvLine.FieldsShape | app.js:1121-1146 | A line always gives at least one field, and every field is trimmed. |
| CsvLine.QuoteParityStep | app.js:1129-1135 | Reading one more character adds one to the quote count exactly when it is `"`. |
| CsvLine.ScanCount | app.js:1126-1143 | The quoted state is the parity of the quotes read so far. So each comma outside quotes adds exactly one field. |
| CsvLine.FieldCount | app.js:1121-1146 | The field count is the number of commas outside quotes plus 1. |
| CsvLine.ScanNoQuote | app.js:1136-1143 | Without quote characters, scanning gives the trimmed pieces of a split on commas. |
| CsvLine.NoQuoteIsSplit | app.js:1121-1146 | A line without `"` gives `line.split(',')` with each piece trimmed. |
| CsvLine.TrimKeepsQuotes | app.js:1137-1143 | `trim()` keeps every `"` of a field. |
| CsvLine.ScanQuotes | app.js:1126-1143 | From any state, the `"` in the fields are those already read plus one per `""` escape still to be consumed inside quotes. |
| CsvLine.FieldQuotes | app.js:1121-1146 | For every line, the number of `"` across all fields equals the number of `""` escapes consumed inside quotes. Each doubled quote gives one `"` and no other quote character is emitted. |
| CsvLine.EscapesBound | app.js:1129-1135 | Each escape uses two of the line's quote characters. |
| CsvLine.EscapesNone | app.js:1129-1135 | A line without a `""` pair consumes no escape. |
| CsvLine.NoEscapeNoQuoteChar | app.js:1129-1135 | A line without a `""` pair gives fields without `"`: its quote characters only open and close quoted stretches. |
| CsvLine.ExampleSpaces | app.js:1121-1146 | `a, b ,c` gives `a`, `b`, `c`. |
| CsvLine.ExampleQuotedComma | app.js:1121-1146 | `"x,y",z` gives `x,y` and `z`: a quoted comma stays in its field. |
| CsvLine.ExampleDoubledQuote | app.js:1121-1146 | `"a""b",c` gives `a"b` and `c`: a doubled quote inside quotes gives one `"`. |
| CsvImport.ValueAt | app.js:1053-1056 | `values[idx]` is defined exactly for an index inside the row, and it is that cell. |
| CsvImport.Drawn | app.js:229-231 | After n calls the id supply has handed out `nextId(0)` to `nextId(n-1)`, in order. |
| CsvImport.TopicDrawn | app.js:1063-1071 | A topic made with the next id keeps every id drawn and each draw used once. |
| CsvImport.CardDrawn | app.js:1078-1087 | A card made with the next id keeps every id drawn and each draw used once. |
| CsvImport.Lines | app.js:1020 | `text.trim().split('\n')` has at least one line. |
| CsvImport.HeaderCells | app.js:1025 | One header cell per comma-separated piece of the first line, each trimmed and lower-cased. |
| CsvImport.Detect | app.js:1028-1036 | A cards file iff the header has `question` and `answer`. A topics file iff it does not but has `name` or `topic`. No format iff it has neither pair nor `name` nor `topic`. |
| CsvImport.CardColumnsOf | app.js:1040-1043 | Each column index is what `indexOf` gives: the first header cell with that name, or −1 iff there is none. |
| CsvImport.KeepCardRow | app.js:1049-1058 | A kept row has its question and answer cells inside the row. |
| CsvImport.RowTopicName | app.js:1055 | The topic name is `undefined` (`None`) iff the topic column lies past the end of the row. Without a topic column it is `Imported`. Otherwise it is that cell. |
| CsvImport.GivenTopicId | app.js:1056-1061 | A row's own topic id, when used, is non-empty. An empty cell counts as none. |
| CsvImport.KeptCardRows | app.js:1049-1058 | Every row kept for a card has two fields or more and a non-empty question and answer. |
| CsvImport.NewTopicNamesDistinct | app.js:1062-1072 | No topic name is created twice. |
| CsvImport.NewTopicNamesExact | app.js:1061-1072 | A topic name is created iff some kept row without a topic id carries it. |
| CsvImport.TopicNames | app.js:1066 | The names of the created topics, in order. |
| CsvImport.TopicIdFor | app.js:1062-1074 | A created topic for a name exists iff that name is among the created names. |
| CsvImport.TopicIdForAppend | app.js:1071-1074 | Creating a topic never changes the topic an earlier name maps to. |
| CsvImport.AddTopicStep | app.js:1106-1115 | Adding the topic of a kept row keeps the loop's state. |
| CsvImport.SkipTopicStep | app.js:1106 | A row with an empty name changes nothing. |
| CsvImport.AddCardStep | app.js:1078-1087 | Adding the card of a kept row, once its topic is settled, keeps the loop's state. |
| CsvImport.KnownTopicStep | app.js:1073-1075 | A row naming a topic already in `topicMap` creates nothing and reuses that topic's id. |
| CsvImport.GivenTopicStep | app.js:1056-1061 | A row with its own topic id creates nothing and uses that id. |
| CsvImport.CreatedTopicStep | app.js:1062-1072 | A row naming a new topic creates it with the next id, and `topicMap` records it. |
| CsvImport.AddCardRow | app.js:1053-1087 | One kept row settles its topic (own id, mapped, or newly created), then adds its card. |
| CsvImport.ParseCardsCSV | app.js:1039-1091 | There is one card per kept row, in order, with score 0. Its topic is the row's own topic id, or else the one created topic of its name (default `Imported`). Topics are created one per distinct name, in order of first use, with the inbox emoji. Every id is drawn once from the supply. |
| CsvImport.TopicColumnsOf | app.js:1094-1095 | The name column is the first `name` cell when there is one and the first `topic` cell otherwise (−1 iff neither). The emoji column is likewise the first `emoji` cell, else the first `icon` cell. |
| CsvImport.TopicEmoji | app.js:1104-1111 | A kept row's emoji is never empty, and it is the books emoji when the file has no emoji column. |
| CsvImport.KeptTopicRows | app.js:1099-1106 | Every row kept for a topic has a non-empty name cell. |
| CsvImport.NoShortBeforeMeans | app.js:1099-1111 | No earlier row threw iff no earlier row is too short. |
| CsvImport.AddTopicRow | app.js:1100-1115 | The row is reported too short exactly when it has a name but no emoji cell. Otherwise it adds its topic or is skipped. |
| CsvImport.ScanTopicRows | app.js:1099-1116 | The loop stops iff some row is too short. Otherwise it has one topic per kept row. |
| CsvImport.NoShortAfter | app.js:1099-1111 | Once one row is too short, the parse fails whatever follows. |
| CsvImport.ShortRowMeans | app.js:1111 | A short row exists iff not every row is free of one. |
| CsvImport.ParseTopicsCSV | app.js:1093-1119 | The parse fails (`RowTooShort`) iff some row has a name but ends before the emoji column. Otherwise there are no cards and one topic per row with a name, in order. Each has the trimmed name and its emoji (books when empty or absent), and every id is drawn once. |
| CsvImport.ParseCSV | app.js:1019-1037 | Fewer than two lines is `NoDataRows`. A header with `question` and `answer` is a cards import, even when it also names `name` or `topic`. Failing that, `name` or `topic` makes a topics import, which fails with `RowTooShort` iff a named row lacks the emoji cell. Anything else is `UnrecognizedFormat`. |
| Store.Inserted | app.js:986-1002 | The merge keeps every stored key and value (it never overwrites). Every new key comes from an item. |
| Store.InsertedHasAll | app.js:986-1002 | After the merge every item's id is stored. |
| Store.NewCountIsGrowth | app.js:983-1002 | The counted insertions are exactly the number of keys the merge adds. |
| Store.NewCount | app.js:983-1002 | The merge never counts more insertions than there are items. |
| Store.NothingNew | app.js:1006-1007 | Nothing is counted iff every item's id was already stored. |
| Store.FirstOccurrenceWins | app.js:986-1002 | The first item with an id that was not stored is the one kept under that id. |
| Store.InsertedKeyed | app.js:990-999 | Putting records keeps every record stored under its own id. |
| Store.InsertMissing | app.js:986-1002 | The look-up-then-put loop builds the merged store and counts the puts. |
| Store.FromCsv | app.js:971-972 | A CSV import always carries both lists. |
| Store.CardsOutside | app.js:96-103 | The cards that remain are exactly those of other topics, unchanged. |
| Store.CascadeConsistent | app.js:96-103 | Deleting a topic with its cards keeps every remaining card's topic stored. |
| Store.CascadeNeeded | app.js:96-103 | In a consistent store, deleting only the topic record keeps the store consistent iff no card belongs to that topic. |
| Store.CardToSave | app.js:753-778 | An empty trimmed question or answer is rejected. Editing a card that is not stored fails. An edit replaces only the question, answer and `updatedAt`. A new card gets the fresh id, the current topic, score 0 and both stamps `now`. |
| Store.RecordStore.constructor | app.js:37-63 | A freshly created database has both stores empty. |
| Store.RecordStore.CardsOfTopic | app.js:106-116 | `getCardsByTopic` gives exactly the stored cards of that topic. |
| Store.RecordStore.DeleteTopic | app.js:96-103 | Only that topic and exactly its cards are removed, and consistency is preserved. |
| Store.RecordStore.ImportData | app.js:978-1002 | Data lacking `topics` or `cards` is rejected with nothing changed. Otherwise both stores become the merge and the counts are the numbers of insertions. |
| Store.RecordStore.PutCard | app.js:122-124 | `dataStore.saveCard` puts the card under its id, replacing any card there, and leaves the topics unchanged. |
| Store.RecordStore.SaveCard | app.js:753-778 | The card the form produces is put under its id, and an edit adds no key. A rejected form changes nothing. |

## Left out

- The DOM, event wiring, modals, toasts, the theme, the service worker and the
  iOS touch handling: user-interface plumbing with no logic of its own.
- IndexedDB transactions, promises and `await` ordering. The stores are two
  maps updated in sequence. Failures of the database itself are not modelled.
- `renderMarkdown` and `escapeHtml`: the first wraps the external `marked`
  library and the second uses the DOM.
- `exportData` and the JSON path of `importData` (`file.text`, `JSON.parse`).
  A parsed backup is a `Store.Backup` whose lists may be missing.
- `generateId`, `Date` and `Math.random` as concrete sources. They are an id
  supply, one instant `now` and a sequence of draws in [0, 1).
- Shuffle.WeightCards: `Math.pow(2, ·)` is any function positive on [0, 3]
  (increasing for `Shuffle.FocusFavoursLowScores`), not the floating-point
  power of two.
- Shuffle.Walk: exact arithmetic is used. With floats the walk can fail to
  pick a card and the outer loop retries. That cannot happen here.
- The statistical quality of the shuffles (uniformity, bias) is not a property
  of any single run.
- Records.Card: scores are unbounded integers. JavaScript keeps them as
  doubles, which are exact only up to 2^53; a change of ±1 per answer does not
  reach that bound in practice.
- Scoring.Rate: the success rate is computed in exact rationals. Float
  rounding of values that lie exactly on a half is not modelled.
- JsString.ToLowerAscii: only ASCII letters are lowered. This is exact for the
  header keywords the parser looks for, but a non-ASCII header cell is
  lowered differently than by JavaScript.
- Strings are sequences of Unicode code points, not UTF-16 code units.
- Markdown.StripMarkdown takes a string. The `text || ''` guard for
  `undefined` is not modelled.
- Store.RecordStore.SaveCard: `state.currentTopicId` is a given id. The case
  where no topic is open is not modelled, because the card form is only
  reachable from a topic page.
- Store.RecordStore.DeleteTopic: `getCardsByTopic` returns cards in index
  order. The model deletes them in an unspecified order, since the result is
  the same.
- The `topics` and `cards` lists of a parsed JSON backup are assumed to be
  lists of well-formed records. Other JSON shapes are not modelled.
- `scripts/generate-icons.js` draws icons on a canvas and writes files. It has
  no logic worth verifying.
