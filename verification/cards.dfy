/**
  The stored flash card and the due-time arithmetic shared by both
  schedulers.

  Instants are integer seconds on one time line; `ZeroTime` is Go's zero
  `time.Time`, the instant a card that was never recalled carries.
 */
module Cards {

  type Instant = int

  /** The zero `time.Time`: the `LastRecalledAt` of a card that was never recalled. */
  const ZeroTime: Instant := 0

  /** One interval unit: 24 hours. */
  const SecondsPerDay: int := 24 * 3600

  /** A card as persisted in the card bucket. */
  datatype Card = Card(
    name: string,
    recalls: nat,
    ef: real,
    interval: nat,
    exerciseType: string,
    exerciseDefinition: string,
    lastRecalledAt: Instant)

  /** The bucket key of a card is its name. */
  function Key(c: Card): (k: string)
    ensures k == c.name
  {
    c.name
  }

  /** The instant a card next becomes due: its last recall plus `interval` days. */
  function NextRecallTime(c: Card): (t: Instant)
    ensures t >= c.lastRecalledAt
    ensures t == c.lastRecalledAt <==> c.interval == 0
    ensures (t - c.lastRecalledAt) % SecondsPerDay == 0
    ensures (t - c.lastRecalledAt) / SecondsPerDay == c.interval
  {
    c.lastRecalledAt + SecondsPerDay * c.interval
  }

  /** A longer interval never makes a card due earlier. */
  lemma NextRecallTimeMonotone(c: Card, d: Card)
    requires c.lastRecalledAt == d.lastRecalledAt
    requires c.interval <= d.interval
    ensures NextRecallTime(c) <= NextRecallTime(d)
    ensures c.interval < d.interval ==> NextRecallTime(c) + SecondsPerDay <= NextRecallTime(d)
  {
  }
}
