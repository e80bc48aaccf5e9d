/** The rows that travel from Bronze to Silver. Timestamps are microseconds since the epoch, in UTC. */
module Rows {
  import opened Collections

  const MICROS_PER_DAY: int := 86_400_000_000
  const MICROS_PER_MINUTE: int := 60_000_000

  const UI := "UI"
  const CUSTOMER_SUCCESS := "CUSTOMER_SUCCESS"
  const LEGAL := "LEGAL"
  const UNKNOWN := "UNKNOWN"

  /** The event columns; every one of them is nullable in Bronze. */
  datatype Event = Event(
    eventId: Option<string>,
    userId: Option<string>,
    writerId: Option<string>,
    source: Option<string>,
    requestedAt: Option<int>)

  const NULL_EVENT := Event(None, None, None, None, None)

  type byte = b: int | 0 <= b < 256

  datatype Row = Row(
    event: Event,
    schemaId: Option<int>,
    topic: string,
    partition: nat,
    offset: nat,
    ingestedAt: int,
    decodeError: Option<string>,
    rawValue: Raw)

  /** raw_value: the bytes of the Kafka record, or a whole row written as JSON. */
  datatype Raw = Payload(bytes: Option<seq<byte>>) | RowAsJson(row: Row)

  /** to_date: the UTC calendar day; null stays null. */
  function EventDate(e: Event): Option<int> {
    match e.requestedAt
    case None => None
    case Some(t) => Some(t / MICROS_PER_DAY)
  }

  /** A date is the day of the request in UTC, counted from the epoch, also before it. */
  lemma EventDateIsTheUtcDay(e: Event, d: int)
    ensures EventDate(e) == Some(d) <==>
              e.requestedAt.Some? && d * 86_400_000_000 <= e.requestedAt.value < (d + 1) * 86_400_000_000
  {
  }

  predicate IsBlank(c: char) {
    c == ' '
  }

  predicate Blank(s: string) {
    All(IsBlank, s)
  }

  /** Spark's trim removes spaces, and nothing else, from both ends. */
  function Trim(s: string): string {
    Strip(IsBlank, s)
  }

  lemma TrimmedAwayIffBlank(s: string)
    ensures Trim(s) == "" <==> Blank(s)
    ensures Blank(s) <==> forall i :: 0 <= i < |s| ==> s[i] == ' '
  {
    StrippedAwayIffAll(IsBlank, s);
  }
}
