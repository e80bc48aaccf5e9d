/** From Kafka records to Bronze rows: split by writer schema, decode each part, and reunite. */
module Decoding {
  import opened Collections
  import opened Rows

  datatype Record = Record(topic: string, partition: nat, offset: nat, value: Option<seq<byte>>)

  datatype Outcome<+T> = Success(value: T) | Raised

  /** The Avro library: what each writer schema makes of a payload, nulls if it cannot be read. */
  type Parser = (int, seq<byte>) -> Event

  /** The schemas the registry knows, and whether their fields have the expected types. */
  type Registry = map<int, bool>

  const MAX_INT: int := 0x7fff_ffff

  function BigEndian(b: seq<byte>): int {
    if b == [] then 0 else 256 * BigEndian(b[..|b| - 1]) + b[|b| - 1]
  }

  /** The Confluent frame: a zero byte and a four-byte schema id. An id that does not fit a signed int
      becomes null in the cast, like a missing frame. */
  function SchemaIdOf(value: Option<seq<byte>>): Option<int> {
    match value
    case None => None
    case Some(v) =>
      if |v| >= 5 && v[0] == 0 && BigEndian(v[1..5]) <= MAX_INT then Some(BigEndian(v[1..5])) else None
  }

  function HasId(id: Option<int>): Record -> bool {
    (r: Record) => SchemaIdOf(r.value) == id
  }

  function HasIdIn(ids: set<Option<int>>): Record -> bool {
    (r: Record) => SchemaIdOf(r.value) in ids
  }

  function SchemaIds(batch: seq<Record>): set<Option<int>> {
    set r | r in batch :: SchemaIdOf(r.value)
  }

  const BAD_FRAME := "invalid_confluent_frame"
  const BAD_PAYLOAD := "invalid_avro_payload"
  const BAD_SCHEMA := "schema_type_mismatch"

  function Problem(id: Option<int>, registry: Registry): Option<string> {
    match id
    case None => Some(BAD_FRAME)
    case Some(n) => if n in registry && registry[n] then None else Some(BAD_SCHEMA)
  }

  /** The select of one part: the event columns, or nulls if the whole part has a problem. */
  function DecodeRecord(id: Option<int>, problem: Option<string>, parse: Parser, at: int, r: Record): Row {
    if problem.Some? || id.None? || r.value.None? || |r.value.value| < 5 then
      Row(NULL_EVENT, id, r.topic, r.partition, r.offset, at, problem, Payload(r.value))
    else
      var event := parse(id.value, r.value.value[5..]);
      Row(event, id, r.topic, r.partition, r.offset, at,
          if event.eventId.None? then Some(BAD_PAYLOAD) else None, Payload(r.value))
  }

  function DecodeAs(id: Option<int>, problem: Option<string>, parse: Parser, at: int): Record -> Row {
    (r: Record) => DecodeRecord(id, problem, parse, at, r)
  }

  /** What becomes of one record, whatever the rest of its batch. */
  function DecodeRow(registry: Registry, parse: Parser, at: int): Record -> Row {
    (r: Record) => DecodeRecord(SchemaIdOf(r.value), Problem(SchemaIdOf(r.value), registry), parse, at, r)
  }

  predicate Resolvable(id: Option<int>, registry: Registry) {
    id.Some? ==> id.value in registry
  }

  function Flatten<T>(frames: seq<seq<T>>): seq<T> {
    if frames == [] then [] else Flatten(frames[..|frames| - 1]) + frames[|frames| - 1]
  }

  lemma {:induction false} FilterOneMore(batch: seq<Record>, ids: set<Option<int>>, id: Option<int>)
    requires id !in ids
    ensures multiset(Filter(HasIdIn(ids + {id}), batch))
         == multiset(Filter(HasIdIn(ids), batch) + Filter(HasId(id), batch))
    decreases |batch|
  {
    if batch != [] {
      FilterOneMore(batch[..|batch| - 1], ids, id);
    }
  }

  lemma PartIsDecoded(batch: seq<Record>, id: Option<int>, registry: Registry, parse: Parser, at: int)
    ensures Map(DecodeAs(id, Problem(id, registry), parse, at), Filter(HasId(id), batch))
         == Map(DecodeRow(registry, parse, at), Filter(HasId(id), batch))
  {
    FilterMembers(HasId(id), batch);
    var part := Filter(HasId(id), batch);
    forall i | 0 <= i < |part|
      ensures DecodeAs(id, Problem(id, registry), parse, at)(part[i]) == DecodeRow(registry, parse, at)(part[i])
    {
      assert part[i] in part;
    }
  }

  lemma OneMorePart(batch: seq<Record>, ids: set<Option<int>>, id: Option<int>, registry: Registry, parse: Parser,
                    at: int, frames: seq<seq<Row>>)
    requires id !in ids
    requires multiset(Flatten(frames)) == multiset(Map(DecodeRow(registry, parse, at), Filter(HasIdIn(ids), batch)))
    ensures
      var part := Map(DecodeRow(registry, parse, at), Filter(HasId(id), batch));
      multiset(Flatten(frames + [part]))
          == multiset(Map(DecodeRow(registry, parse, at), Filter(HasIdIn(ids + {id}), batch)))
  {
    var f := DecodeRow(registry, parse, at);
    var done, next := Filter(HasIdIn(ids), batch), Filter(HasId(id), batch);
    FilterOneMore(batch, ids, id);
    MapKeepsMultiset(f, Filter(HasIdIn(ids + {id}), batch), done + next);
    MapConcat(f, done, next);
    assert (frames + [Map(f, next)])[..|frames|] == frames;
  }

  /** `decode`: None for an empty batch, Raised if the registry does not know a schema. The schema ids
      are collected in an arbitrary order. */
  method Decode(batch: seq<Record>, registry: Registry, parse: Parser, at: int) returns (r: Outcome<Option<seq<Row>>>)
    ensures r.Raised? <==> exists id :: id in SchemaIds(batch) && !Resolvable(id, registry)
    ensures r.Success? ==> (r.value.None? <==> batch == [])
    // Nothing is lost and nothing is invented: the rows are the records, each decoded on its own.
    ensures r.Success? && r.value.Some? ==>
              multiset(r.value.value) == multiset(Map(DecodeRow(registry, parse, at), batch))
  {
    var left := SchemaIds(batch);
    var frames: seq<seq<Row>> := [];
    ghost var done: set<Option<int>> := {};
    FilterNone(HasIdIn({}), batch);
    assert forall i :: 0 <= i < |batch| ==> SchemaIdOf(batch[i].value) in SchemaIds(batch);
    while left != {}
      invariant done !! left && done + left == SchemaIds(batch)
      invariant forall id :: id in done ==> Resolvable(id, registry)
      invariant frames == [] <==> done == {}
      invariant multiset(Flatten(frames)) == multiset(Map(DecodeRow(registry, parse, at), Filter(HasIdIn(done), batch)))
      decreases left
    {
      var id :| id in left;
      if !Resolvable(id, registry) {
        return Raised;
      }
      var part := Filter(HasId(id), batch);
      PartIsDecoded(batch, id, registry, parse, at);
      OneMorePart(batch, done, id, registry, parse, at, frames);
      frames := frames + [Map(DecodeAs(id, Problem(id, registry), parse, at), part)];
      left, done := left - {id}, done + {id};
    }
    if frames == [] {
      return Success(None);
    }
    assert done == SchemaIds(batch);
    FilterAll(HasIdIn(done), batch);
    return Success(Some(Flatten(frames)));
  }

  /** What a producer writes in front of a payload. */
  function Frame(id: nat, payload: seq<byte>): seq<byte>
    requires id < 0x1_0000_0000
  {
    [0, id / 0x100_0000, id / 0x1_0000 % 0x100, id / 0x100 % 0x100, id % 0x100] + payload
  }

  lemma BigEndianOfFour(h: seq<byte>)
    requires |h| == 4
    ensures BigEndian(h) == 0x100_0000 * (h[0] as int) + 0x1_0000 * (h[1] as int) + 0x100 * (h[2] as int) + h[3] as int
  {
    var b0: int, b1: int, b2: int, b3: int := h[0], h[1], h[2], h[3];
    assert h[..3] == [h[0], h[1], h[2]] && h[..3][..2] == [h[0], h[1]];
    assert h[..3][..2][..1] == [h[0]] && h[..3][..2][..1][..0] == [];
    assert BigEndian(h[..3][..2][..1]) == b0;
    assert BigEndian(h[..3][..2]) == 256 * b0 + b1;
    assert BigEndian(h[..3]) == 256 * (256 * b0 + b1) + b2;
  }

  /** A record that cannot be decoded still becomes a row, keeping its bytes and its coordinates, and the row
      says what was wrong: with the frame, with the schema, or with the payload. */
  lemma MalformedRecordsAreKept(r: Record, registry: Registry, parse: Parser, at: int)
    ensures
      var id, row := SchemaIdOf(r.value), DecodeRow(registry, parse, at)(r);
      && row.topic == r.topic && row.partition == r.partition && row.offset == r.offset
      && row.rawValue == Payload(r.value) && row.schemaId == id && row.ingestedAt == at
      && (row.decodeError == Some("invalid_confluent_frame") <==> id.None?)
      && (row.decodeError == Some("schema_type_mismatch") <==>
            id.Some? && !(id.value in registry && registry[id.value]))
      && (row.decodeError == Some("invalid_avro_payload") <==>
            && id.Some? && id.value in registry && registry[id.value]
            && parse(id.value, r.value.value[5..]).eventId.None?)
      && (row.decodeError.None? <==>
            && id.Some? && id.value in registry && registry[id.value]
            && parse(id.value, r.value.value[5..]).eventId.Some?)
      // A payload without an event id keeps the columns it has.
      && row.event == if id.Some? && id.value in registry && registry[id.value]
                      then parse(id.value, r.value.value[5..]) else Event(None, None, None, None, None)
  {
  }

  /** The schema id is the number in the four bytes after a zero byte; a shorter value, another first byte, or
      a number that is no signed int is no frame. */
  lemma SchemaIdIsInTheFrame(v: seq<byte>)
    ensures SchemaIdOf(None) == None
    ensures SchemaIdOf(Some(v)).Some? <==> |v| >= 5 && v[0] == 0 && v[1] < 0x80
    ensures SchemaIdOf(Some(v)).Some? ==>
              SchemaIdOf(Some(v)).value
              == 0x100_0000 * (v[1] as int) + 0x1_0000 * (v[2] as int) + 0x100 * (v[3] as int) + v[4] as int
  {
    if |v| >= 5 {
      var h := v[1..5];
      BigEndianOfFour(h);
    }
  }

  lemma DigitsOf(n: nat)
    ensures n == 0x100_0000 * (n / 0x100_0000) + 0x1_0000 * (n / 0x1_0000 % 0x100)
                 + 0x100 * (n / 0x100 % 0x100) + n % 0x100
  {
    var a, b, c := n / 0x100, n / 0x1_0000, n / 0x100_0000;
    assert n == 0x100 * a + n % 0x100;
    assert a == 0x100 * b + a % 0x100 by {
      assert b == a / 0x100;
    }
    assert b == 0x100 * c + b % 0x100 by {
      assert c == b / 0x100;
    }
  }

  /** Framing and reading back: every schema id up to the largest signed int is recovered, larger ones
      are read as if the frame were invalid. */
  lemma FrameRoundTrip(id: nat, payload: seq<byte>)
    requires id < 0x1_0000_0000
    ensures SchemaIdOf(Some(Frame(id, payload))) == if id <= MAX_INT then Some(id) else None
    ensures Frame(id, payload)[5..] == payload
  {
    var f := Frame(id, payload);
    assert f[1..5] == [id / 0x100_0000, id / 0x1_0000 % 0x100, id / 0x100 % 0x100, id % 0x100];
    BigEndianOfFour(f[1..5]);
    DigitsOf(id);
  }
}
