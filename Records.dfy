// The two persisted record kinds of the flashcard app (topics and cards) and
// the small wrapper types the rest of the model shares.

module Records {

  datatype Option<+T> = None | Some(value: T)

  datatype Result<+R, +E> = Success(value: R) | Failure(error: E)

  /** Record identifiers, as produced by the app's id generator. */
  type Id = string

  /** ISO-8601 timestamps; the model never interprets them. */
  type Stamp = string

  /** A topic record. `name` is `None` where the JavaScript value is `undefined`
      (a cards CSV row shorter than its `topic` column). */
  datatype Topic = Topic(id: Id, name: Option<string>, emoji: string, createdAt: Stamp, updatedAt: Stamp)

  /** A flashcard record. `score` is `None` for a record that carries no score
      (an older backup), which every reader treats as 0. */
  datatype Card = Card(id: Id, topicId: Id, question: string, answer: string,
                       score: Option<int>, createdAt: Stamp, updatedAt: Stamp)

  /** The key path of both object stores: a record's `id`. */
  function TopicKey(t: Topic): Id { t.id }
  function CardKey(c: Card): Id { c.id }

  /** `card.score || 0`: a missing score reads as 0. */
  function ScoreOf(c: Card): (s: int)
    ensures c.score.Some? ==> s == c.score.value
    ensures c.score.None? ==> s == 0
  {
    match c.score
    case Some(v) => v
    case None => 0
  }
}
