/** The UPSERT that keeps the earliest unsubscribe request of every (reader, writer) pair. */
module Subscriptions {
  import opened Collections

  datatype Event = Event(eventId: string, userId: string, writerId: string, source: string, requestedAt: int)

  datatype Key = Key(userId: string, writerId: string)

  datatype Status = SUBSCRIBED | UNSUBSCRIBED

  datatype Subscription = Subscription(
    status: Status,
    unsubscribedAt: Option<int>,
    source: Option<string>,
    eventId: Option<string>,
    updatedAt: int)

  datatype Outcome = Created | Updated | Unchanged

  /** One call that reached the database, at the database's time `now`. */
  datatype Delivery = Delivery(event: Event, now: int)

  type Rows = map<Key, Subscription>

  function KeyOf(e: Event): Key {
    Key(e.userId, e.writerId)
  }

  function Written(d: Delivery): Subscription {
    Subscription(UNSUBSCRIBED, Some(d.event.requestedAt), Some(d.event.source), Some(d.event.eventId), d.now)
  }

  /** INSERT ... ON CONFLICT DO UPDATE ... WHERE unsubscribed_at IS NULL OR EXCLUDED.unsubscribed_at is earlier. */
  function Upsert(row: Option<Subscription>, d: Delivery): (Subscription, Outcome) {
    match row
    case None => (Written(d), Created)
    case Some(stored) =>
      if stored.unsubscribedAt.None? || d.event.requestedAt < stored.unsubscribedAt.value then (Written(d), Updated)
      else (stored, Unchanged)
  }

  /** The row holds this request, field by field. */
  predicate Stores(row: Subscription, d: Delivery) {
    && row.status == UNSUBSCRIBED
    && row.unsubscribedAt == Some(d.event.requestedAt)
    && row.source == Some(d.event.source)
    && row.eventId == Some(d.event.eventId)
    && row.updatedAt == d.now
  }

  /** The condition under which a request at time `t` replaces what is stored. */
  predicate GivesWay(row: Option<Subscription>, t: int) {
    row.None? || row.value.unsubscribedAt.None? || t < row.value.unsubscribedAt.value
  }

  function ApplyOne(rows: Rows, d: Delivery): Rows {
    rows[KeyOf(d.event) := Upsert(Lookup(rows, KeyOf(d.event)), d).0]
  }

  function Apply(rows: Rows, ds: seq<Delivery>): Rows {
    if ds == [] then rows else ApplyOne(Apply(rows, ds[..|ds| - 1]), ds[|ds| - 1])
  }

  datatype UnsubscribeResult = UnsubscribeResult(
    userId: string, writerId: string, status: Status, unsubscribedAt: Option<int>, source: Option<string>,
        outcome: Outcome)

  class Repository {
    var rows: Rows

    constructor (rows: Rows)
      ensures this.rows == rows
    {
      this.rows := rows;
    }

    /** `unsubscribe`: the upsert and, if it returned no row, the select in the same transaction, which
        still holds the row lock. The select always finds a row, so its error branch cannot be reached. */
    method Unsubscribe(d: Delivery) returns (r: UnsubscribeResult)
      modifies this
      ensures rows == ApplyOne(old(rows), d)
      // One row is concerned, and it is created, replaced or left alone.
      ensures
        var k := Key(d.event.userId, d.event.writerId);
        && k in rows && rows == old(rows)[k := rows[k]]
        && (r.outcome.Created? <==> k !in old(rows))
        && (r.outcome.Updated? <==>
              && k in old(rows)
              && (old(rows)[k].unsubscribedAt.None? || d.event.requestedAt < old(rows)[k].unsubscribedAt.value))
        && (if r.outcome.Unchanged? then rows == old(rows) else Stores(rows[k], d))
        && r.userId == d.event.userId && r.writerId == d.event.writerId
        && r.status == rows[k].status && r.unsubscribedAt == rows[k].unsubscribedAt && r.source == rows[k].source
      ensures r.outcome == Upsert(Lookup(old(rows), KeyOf(d.event)), d).1
      ensures r.outcome != Unchanged ==> r.source == Some(d.event.source)
      ensures r.unsubscribedAt.Some? ==> r.unsubscribedAt.value <= d.event.requestedAt
      ensures r.outcome != Unchanged ==> r.unsubscribedAt == Some(d.event.requestedAt) && r.status == UNSUBSCRIBED
      // The answer can be a success and the reader still subscribed, in exactly this case.
      ensures r.status == SUBSCRIBED <==> IsShielded(Lookup(old(rows), KeyOf(d.event)), d.event.requestedAt)
    {
      var k := KeyOf(d.event);
      var outcome;
      if k !in rows {
        rows, outcome := rows[k := Written(d)], Created;
      } else if rows[k].unsubscribedAt.None? || d.event.requestedAt < rows[k].unsubscribedAt.value {
        rows, outcome := rows[k := Written(d)], Updated;
      } else {
        outcome := Unchanged;
      }
      var row := rows[k];
      assert rows == ApplyOne(old(rows), d);
      return UnsubscribeResult(d.event.userId, d.event.writerId, row.status, row.unsubscribedAt, row.source, outcome);
    }
  }

  /******* One key at a time *******/

  function ForKey(k: Key): Delivery -> bool {
    (d: Delivery) => KeyOf(d.event) == k
  }

  /** What becomes of one row under the deliveries for its key. */
  function Fold(row: Option<Subscription>, ds: seq<Delivery>): Option<Subscription> {
    if ds == [] then row else Some(Upsert(Fold(row, ds[..|ds| - 1]), ds[|ds| - 1]).0)
  }

  /** Deliveries for other keys do not matter. */
  lemma {:induction false} RowsAreIndependent(rows: Rows, ds: seq<Delivery>, k: Key)
    ensures Lookup(Apply(rows, ds), k) == Fold(Lookup(rows, k), Filter(ForKey(k), ds))
    decreases |ds|
  {
    if ds != [] {
      var before, d := ds[..|ds| - 1], ds[|ds| - 1];
      RowsAreIndependent(rows, before, k);
      var mine := Filter(ForKey(k), before);
      assert (mine + [d])[..|mine|] == mine;
    }
  }

  /** The first of the deliveries that carry the earliest request. */
  ghost predicate IsFirstEarliest(ds: seq<Delivery>, i: nat) {
    && i < |ds|
    && (forall j :: 0 <= j < |ds| ==> ds[i].event.requestedAt <= ds[j].event.requestedAt)
    && (forall j :: 0 <= j < i ==> ds[i].event.requestedAt < ds[j].event.requestedAt)
  }

  /** What the deliveries leave of a row: the first earliest of them, unless the row resists it. */
  lemma {:induction false} FoldIsFirstEarliest(row: Option<Subscription>, ds: seq<Delivery>) returns (i: nat)
    requires ds != []
    ensures IsFirstEarliest(ds, i)
    ensures Fold(row, ds) == if GivesWay(row, ds[i].event.requestedAt) then Some(Written(ds[i])) else row
    decreases |ds|
  {
    var before, d := ds[..|ds| - 1], ds[|ds| - 1];
    if before == [] {
      i := 0;
    } else {
      i := FoldIsFirstEarliest(row, before);
      if d.event.requestedAt < before[i].event.requestedAt {
        i := |ds| - 1;
      }
    }
  }

  lemma FirstEarliestIsUnique(ds: seq<Delivery>, i: nat, j: nat)
    requires IsFirstEarliest(ds, i) && IsFirstEarliest(ds, j)
    ensures i == j
  {
    assert ds[i].event.requestedAt <= ds[j].event.requestedAt <= ds[i].event.requestedAt;
  }

  /******* The upsert as a fold *******/

  /** After any deliveries to any table, repeats included, the row of a key is what its first earliest
      delivery wrote, unless the table already had a row with a time that is no later. */
  lemma RowIsFirstEarliest(rows: Rows, ds: seq<Delivery>, k: Key, i: nat)
    requires IsFirstEarliest(Filter(ForKey(k), ds), i)
    ensures
      var d := Filter(ForKey(k), ds)[i];
      var resists := k in rows && rows[k].unsubscribedAt.Some?
                     && rows[k].unsubscribedAt.value <= d.event.requestedAt;
      k in Apply(rows, ds) && if resists then Apply(rows, ds)[k] == rows[k] else Stores(Apply(rows, ds)[k], d)
  {
    var mine := Filter(ForKey(k), ds);
    RowsAreIndependent(rows, ds, k);
    var j := FoldIsFirstEarliest(Lookup(rows, k), mine);
    FirstEarliestIsUnique(mine, i, j);
  }

  /** The outcome of the last of these deliveries, all for the key of this row. */
  function LastOutcome(row: Option<Subscription>, ds: seq<Delivery>): Outcome
    requires ds != []
  {
    Upsert(Fold(row, ds[..|ds| - 1]), ds[|ds| - 1]).1
  }

  /** `created` for the first delivery if there was no row, `updated` exactly at a new strict minimum,
      `unchanged` otherwise, and then the row is left alone. */
  lemma OutcomesTellTheMinimum(row: Option<Subscription>, ds: seq<Delivery>)
    requires ds != []
    ensures
      var before, d := ds[..|ds| - 1], ds[|ds| - 1];
      var t, outcome := d.event.requestedAt, LastOutcome(row, ds);
      && (outcome.Created? <==> row.None? && before == [])
      && (outcome.Updated? <==>
            && (row.Some? || before != [])
            && GivesWay(row, t) && forall b :: b in before ==> t < b.event.requestedAt)
      && (outcome.Unchanged? <==> !GivesWay(row, t) || exists b :: b in before && b.event.requestedAt <= t)
      && (outcome.Unchanged? ==> Fold(row, ds) == Fold(row, before))
  {
    var before, d := ds[..|ds| - 1], ds[|ds| - 1];
    if before != [] {
      var i := FoldIsFirstEarliest(row, before);
      assert before[i] in before;
      forall b | b in before ensures before[i].event.requestedAt <= b.event.requestedAt {
      }
    }
  }

  /** A redelivery, at whatever time, is `unchanged` and leaves the table as it is. */
  lemma RedeliveryIsUnchanged(rows: Rows, ds: seq<Delivery>, d: Delivery)
    requires exists b :: b in ds && b.event == d.event
    ensures ApplyOne(Apply(rows, ds), d) == Apply(rows, ds)
    ensures Upsert(Lookup(Apply(rows, ds), KeyOf(d.event)), d).1 == Unchanged
  {
    var k := KeyOf(d.event);
    var mine := Filter(ForKey(k), ds);
    RowsAreIndependent(rows, ds, k);
    FilterMembers(ForKey(k), ds);
    var b :| b in ds && b.event == d.event;
    assert b in mine;
    var i := FoldIsFirstEarliest(Lookup(rows, k), mine);
  }

  /******* When an accepted request leaves the reader subscribed *******/

  /** The schema lets a SUBSCRIBED row carry a time; the upsert leaves such a row alone if the request is
      not earlier. */
  predicate IsShielded(row: Option<Subscription>, t: int) {
    && row.Some? && row.value.status == SUBSCRIBED
    && row.value.unsubscribedAt.Some? && row.value.unsubscribedAt.value <= t
  }

  /** After some delivery for the key its row exists, and it is UNSUBSCRIBED unless it was SUBSCRIBED with
      a time no later than every one of the requests. */
  lemma UnsubscribedUnlessShielded(rows: Rows, ds: seq<Delivery>, k: Key)
    requires exists d :: d in ds && KeyOf(d.event) == k
    ensures k in Apply(rows, ds)
    ensures Apply(rows, ds)[k].status == SUBSCRIBED <==>
              forall d :: d in ds && KeyOf(d.event) == k ==> IsShielded(Lookup(rows, k), d.event.requestedAt)
  {
    var mine := Filter(ForKey(k), ds);
    FilterMembers(ForKey(k), ds);
    RowsAreIndependent(rows, ds, k);
    var d :| d in ds && KeyOf(d.event) == k;
    assert d in mine;
    var i := FoldIsFirstEarliest(Lookup(rows, k), mine);
    assert mine[i] in mine;
    forall e | e in mine ensures mine[i].event.requestedAt <= e.event.requestedAt {
    }
  }

  /** The constraint of the schema: an unsubscribe has a time. */
  predicate SchemaHolds(rows: Rows) {
    forall k :: k in rows ==> rows[k].status == UNSUBSCRIBED ==> rows[k].unsubscribedAt.Some?
  }

  /** No deliveries violate it. */
  lemma {:induction false} SchemaIsKept(rows: Rows, ds: seq<Delivery>)
    requires SchemaHolds(rows)
    ensures SchemaHolds(Apply(rows, ds))
    decreases |ds|
  {
    if ds != [] {
      SchemaIsKept(rows, ds[..|ds| - 1]);
    }
  }

  /** A SUBSCRIBED row with this time, as the schema allows it. */
  function ShieldAt(t: int): Subscription {
    Subscription(SUBSCRIBED, Some(t), None, None, 0)
  }

  lemma {:induction false} EarliestRequest(ds: seq<Delivery>) returns (t: int)
    ensures forall d :: d in ds ==> t <= d.event.requestedAt
    decreases |ds|
  {
    t := 0;
    if ds != [] {
      var u := EarliestRequest(ds[..|ds| - 1]);
      t := if u <= ds[|ds| - 1].event.requestedAt then u else ds[|ds| - 1].event.requestedAt;
    }
  }

  /** Such rows exist: whatever requests there will be for a key, the schema allows a table in which every one
      of them is answered with success and changes nothing, the reader staying subscribed. */
  lemma EveryHistoryHasAShield(ds: seq<Delivery>, k: Key) returns (rows: Rows)
    ensures SchemaHolds(rows) && k in rows && rows[k].status == SUBSCRIBED
    ensures k in Apply(rows, ds) && Apply(rows, ds)[k] == rows[k]
    ensures forall d :: d in ds && KeyOf(d.event) == k ==> Upsert(Lookup(rows, k), d).1 == Unchanged
  {
    var t := EarliestRequest(ds);
    rows := map[k := ShieldAt(t)];
    FilterMembers(ForKey(k), ds);
    RowsAreIndependent(rows, ds, k);
    ShieldHolds(t, Filter(ForKey(k), ds));
  }

  lemma {:induction false} ShieldHolds(t: int, ds: seq<Delivery>)
    requires forall d :: d in ds ==> t <= d.event.requestedAt
    ensures Fold(Some(ShieldAt(t)), ds) == Some(ShieldAt(t))
    decreases |ds|
  {
    if ds != [] {
      ShieldHolds(t, ds[..|ds| - 1]);
    }
  }

  /******* Convergence *******/

  function EventsOf(ds: seq<Delivery>): set<Event> {
    set d | d in ds :: d.event
  }

  lemma SameKeyEvents(ds: seq<Delivery>, es: seq<Delivery>, k: Key)
    requires EventsOf(ds) == EventsOf(es)
    ensures EventsOf(Filter(ForKey(k), ds)) <= EventsOf(Filter(ForKey(k), es))
  {
    FilterMembers(ForKey(k), ds);
    FilterMembers(ForKey(k), es);
    forall e | e in EventsOf(Filter(ForKey(k), ds)) ensures e in EventsOf(Filter(ForKey(k), es)) {
      assert e in EventsOf(es);
      var d :| d in es && d.event == e;
      assert d in Filter(ForKey(k), es);
    }
  }

  /** No two different requests of one reader and writer carry the same time. */
  ghost predicate TimesAreDistinct(events: set<Event>) {
    forall a, b :: a in events && b in events && KeyOf(a) == KeyOf(b) && a.requestedAt == b.requestedAt ==> a == b
  }

  /** Everything but the bookkeeping time of the last write. */
  function Facts(row: Option<Subscription>): Option<Subscription> {
    if row.None? then None else Some(row.value.(updatedAt := 0))
  }

  function State(row: Option<Subscription>): Option<(Status, Option<int>)> {
    if row.None? then None else Some((row.value.status, row.value.unsubscribedAt))
  }

  /** Any two histories that apply the same set of events to the same table, in any order, interleaving
      and number of repetitions, reach the same status and time for every key; and the same source and
      event id too if no two requests of a key are simultaneous. */
  lemma HistoriesConverge(rows: Rows, ds: seq<Delivery>, es: seq<Delivery>, k: Key)
    requires EventsOf(ds) == EventsOf(es)
    ensures State(Lookup(Apply(rows, ds), k)) == State(Lookup(Apply(rows, es), k))
    ensures TimesAreDistinct(EventsOf(ds)) ==>
              Facts(Lookup(Apply(rows, ds), k)) == Facts(Lookup(Apply(rows, es), k))
  {
    var mine, theirs := Filter(ForKey(k), ds), Filter(ForKey(k), es);
    RowsAreIndependent(rows, ds, k);
    RowsAreIndependent(rows, es, k);
    SameKeyEvents(ds, es, k);
    SameKeyEvents(es, ds, k);
    FilterMembers(ForKey(k), ds);
    assert EventsOf(mine) <= EventsOf(ds);
    FoldsConverge(Lookup(rows, k), mine, theirs, k);
  }

  lemma SameEarliest(ds: seq<Delivery>, es: seq<Delivery>, i: nat, j: nat)
    requires EventsOf(ds) == EventsOf(es) && IsFirstEarliest(ds, i) && IsFirstEarliest(es, j)
    ensures ds[i].event.requestedAt <= es[j].event.requestedAt
  {
    assert es[j] in es;
    assert es[j].event in EventsOf(ds);
    var d :| d in ds && d.event == es[j].event;
  }

  /** Convergence for one key. */
  lemma FoldsConverge(row: Option<Subscription>, ds: seq<Delivery>, es: seq<Delivery>, k: Key)
    requires EventsOf(ds) == EventsOf(es)
    requires forall e :: e in EventsOf(ds) ==> KeyOf(e) == k
    ensures State(Fold(row, ds)) == State(Fold(row, es))
    ensures TimesAreDistinct(EventsOf(ds)) ==> Facts(Fold(row, ds)) == Facts(Fold(row, es))
  {
    assert forall d :: d in ds ==> d.event in EventsOf(ds);
    assert forall d :: d in es ==> d.event in EventsOf(es);
    if ds != [] {
      assert ds[0].event in EventsOf(es);
      assert es != [];
      var i := FoldIsFirstEarliest(row, ds);
      var j := FoldIsFirstEarliest(row, es);
      SameEarliest(ds, es, i, j);
      SameEarliest(es, ds, j, i);
      assert ds[i].event in EventsOf(ds) && es[j].event in EventsOf(ds);
    }
  }

  /** With simultaneous requests the order does decide: whichever is applied first names the source. */
  lemma TiesGoToTheFirst(a: Delivery, b: Delivery)
    requires KeyOf(a.event) == KeyOf(b.event) && a.event.requestedAt == b.event.requestedAt
    ensures
      var k := Key(a.event.userId, a.event.writerId);
      && k in Apply(map[], [a, b]) && Stores(Apply(map[], [a, b])[k], a)
      && k in Apply(map[], [b, a]) && Stores(Apply(map[], [b, a])[k], b)
  {
    assert [a, b][..1] == [a] && [b, a][..1] == [b];
    assert [a][..0] == [] && [b][..0] == [];
    assert Apply(map[], [a]) == ApplyOne(map[], a) && Apply(map[], [b]) == ApplyOne(map[], b);
  }
}
