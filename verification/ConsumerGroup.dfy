/**
 Any number of consumer processes over the partitions of the source topics, with crashes, rebalances,
 redelivery, retention, and calls that take effect but report an error.

 Partitions of both topics are numbered together. Nothing here says that a partition has one owner:
 a process that lost it may go on with the message in its hands and commit it.
 */
module ConsumerGroup {
  import opened Collections
  import opened Reports
  import opened Delivery
  import opened Consumer
  import opened Subscriptions

  datatype Place = Place(partition: nat, offset: nat)

  datatype Stage =
    | Calling(attempt: nat)
    | Parking
    | Resolved

  datatype Hand = Hand(place: Place, stage: Stage)

  /** One process: where it reads, the message it is busy with, and its dead-letter producer. */
  datatype Member = Member(
    positions: map<nat, nat>,
    hand: Option<Hand>,
    waiting: multiset<Place>, // letters without a delivery report
    failures: nat,            // the producer's counter of failed deliveries
    running: bool)            // an exception has not yet ended the loop

  const FRESH := Member(map[], None, multiset{}, 0, true)

  /** After an exception only the final flush of `close` is still to come. */
  function Ended(m: Member): Member {
    m.(positions := map[], hand := None, running := false)
  }

  /** What the owner of a dead-letter producer could see after a flush: the flush returned zero, and the
      failure counter has not moved. */
  predicate IsClean(before: Member, after: Member) {
    |after.waiting| == 0 && after.failures == before.failures
  }

  datatype State = State(
    log: seq<seq<Payload<Event>>>,
    low: seq<nat>,                  // older messages are gone
    committed: seq<nat>,
    members: map<nat, Member>,
    accepted: set<Place>,           // answered with success
    handed: set<Place>,             // given to the dead-letter producer
    confirmed: set<Place>,          // acknowledged by the dead-letter topic
    base: Rows,                     // the subscriptions before the first message
    applied: seq<Subscriptions.Delivery>,
    rows: Rows)

  datatype Step =
    | Produce(partition: nat, payload: Payload<Event>)
    | Expire(partition: nat, low: nat)
    | Join(id: nat)
    | Assign(id: nat, partition: nat)
    | Revoke(id: nat, partition: nat)
    | Poll(id: nat, partition: nat)
    | CallService(id: nat, call: Call, now: int)
    | ParkMessage(id: nat, reports: seq<Report<Place>>)
    | FlushLetters(id: nat, reports: seq<Report<Place>>) // late callbacks, and the flush of `close`
    | CommitOffset(id: nat)
    | Crash(id: nat)

  function Max(a: nat, b: nat): nat {
    if a >= b then a else b
  }

  predicate HasHand(s: State, id: nat) {
    id in s.members && s.members[id].hand.Some?
  }

  predicate Exists(s: State, place: Place) {
    place.partition < |s.log| && place.offset < |s.log[place.partition]|
  }

  function PayloadAt(s: State, place: Place): Payload<Event>
    requires Exists(s, place)
  {
    s.log[place.partition][place.offset]
  }

  /** Where a poll of this member on this partition would read. */
  function NextOffset(s: State, id: nat, partition: nat): nat
    requires id in s.members && partition in s.members[id].positions && partition < |s.low|
  {
    Max(s.members[id].positions[partition], s.low[partition])
  }

  predicate Shaped(s: State) {
    |s.low| == |s.committed| == |s.log|
  }

  ghost predicate Enabled(s: State, step: Step) {
    Shaped(s) &&
    match step
    case Produce(p, _) => p < |s.log|
    case Expire(p, low) => p < |s.log| && s.low[p] <= low <= |s.log[p]|
    case Join(id) => id !in s.members
    case Assign(id, p) => id in s.members && s.members[id].running && p < |s.log|
    case Revoke(id, p) => id in s.members && p in s.members[id].positions
    case Poll(id, p) =>
      && id in s.members && s.members[id].hand.None? && p in s.members[id].positions && p < |s.log|
      && NextOffset(s, id, p) < |s.log[p]|
    case CallService(id, call, _) =>
      && HasHand(s, id) && s.members[id].hand.value.stage.Calling?
      && Exists(s, s.members[id].hand.value.place) && PayloadAt(s, s.members[id].hand.value.place).Decodable?
      // The service answers with success only after its upsert is committed.
      && (Judge(call.http) == Delivery.Accepted ==> call.applied)
    case ParkMessage(id, reports) =>
      && HasHand(s, id) && s.members[id].hand.value.stage.Parking?
      && IsReportable(reports, s.members[id].waiting + multiset{s.members[id].hand.value.place})
    case FlushLetters(id, reports) => id in s.members && IsReportable(reports, s.members[id].waiting)
    case CommitOffset(id) =>
      HasHand(s, id) && s.members[id].hand.value.stage.Resolved? && s.members[id].hand.value.place.partition < |s.log|
    case Crash(id) => id in s.members
  }

  function SetMember(s: State, id: nat, m: Member): State {
    s.(members := s.members[id := m])
  }

  /** Callbacks of a flush: the queue shrinks, failures are counted, acknowledged letters are confirmed. */
  function WithReports(s: State, id: nat, reports: seq<Report<Place>>): State
    requires id in s.members
  {
    var m := s.members[id];
    SetMember(s, id, m.(waiting := m.waiting - Reported(reports), failures := m.failures + Failures(reports))).(
      confirmed := s.confirmed + set place | place in Acknowledged(reports))
  }

  function SetStage(s: State, id: nat, stage: Stage): State
    requires HasHand(s, id)
  {
    var m := s.members[id];
    SetMember(s, id, m.(hand := Some(m.hand.value.(stage := stage))))
  }

  ghost function NextPoll(s: State, id: nat, p: nat): State
    requires Enabled(s, Poll(id, p))
  {
    var o := NextOffset(s, id, p);
    var m := s.members[id];
    match s.log[p][o]
    case Tombstone => SetMember(s, id, Ended(m))
    case Undecodable =>
      SetMember(s, id, m.(positions := m.positions[p := o + 1], hand := Some(Hand(Place(p, o), Parking))))
    case Decodable(_) =>
      SetMember(s, id, m.(positions := m.positions[p := o + 1], hand := Some(Hand(Place(p, o), Calling(1)))))
  }

  ghost function NextCall(s: State, id: nat, call: Call, now: int, maxAttempts: int): State
    requires Enabled(s, CallService(id, call, now))
  {
    var Hand(place, Calling(attempt)) := s.members[id].hand.value;
    var delivery := Subscriptions.Delivery(PayloadAt(s, place).event, now);
    var s' := if call.applied then s.(applied := s.applied + [delivery], rows := ApplyOne(s.rows, delivery)) else s;
    match Decide(attempt, maxAttempts, Judge(call.http))
    case Done => SetStage(s', id, Resolved).(accepted := s.accepted + {place})
    case Park(_) => SetStage(s', id, Parking)
    case Again => SetStage(s', id, Calling(attempt + 1))
    case Raise => SetMember(s', id, Ended(s'.members[id]))
  }

  ghost function Next(s: State, step: Step, maxAttempts: int): State
    requires Enabled(s, step)
  {
    match step
    case Produce(p, payload) => s.(log := s.log[p := s.log[p] + [payload]])
    case Expire(p, low) => s.(low := s.low[p := low])
    case Join(id) => SetMember(s, id, FRESH)
    case Assign(id, p) =>
      // The committed offset, or the earliest message if there is none or it is gone.
      var m := s.members[id];
      SetMember(s, id, m.(positions := m.positions[p := Max(s.committed[p], s.low[p])]))
    case Revoke(id, p) =>
      var m := s.members[id];
      SetMember(s, id, m.(positions := m.positions - {p}))
    case Poll(id, p) => NextPoll(s, id, p)
    case CallService(id, call, now) => NextCall(s, id, call, now, maxAttempts)
    case ParkMessage(id, reports) =>
      var m := s.members[id];
      var place := m.hand.value.place;
      var s' := SetStage(SetMember(s, id, m.(waiting := m.waiting + multiset{place})), id, Resolved);
      WithReports(s', id, reports).(handed := s.handed + {place})
    case FlushLetters(id, reports) => WithReports(s, id, reports)
    case CommitOffset(id) =>
      var m := s.members[id];
      var place := m.hand.value.place;
      SetMember(s, id, m.(hand := None)).(committed := s.committed[place.partition := place.offset + 1])
    case Crash(id) => s.(members := s.members - {id})
  }

  function Initial(partitions: nat, rows: Rows): State {
    State(seq(partitions, _ => []), seq(partitions, _ => 0), seq(partitions, _ => 0), map[], {}, {}, {}, rows, [], rows)
  }

  ghost function Execute(s: State, steps: seq<Step>, maxAttempts: int): State {
    if steps == [] then s else
      var s' := Execute(s, steps[..|steps| - 1], maxAttempts);
      if Enabled(s', steps[|steps| - 1]) then Next(s', steps[|steps| - 1], maxAttempts) else s'
  }

  /** A process that is given a partition goes on where the last commit left off, or at the oldest message that
      is left if retention has come further; what others hold in their hands makes no difference. */
  lemma ANewProcessResumes(s: State, id: nat, partition: nat, maxAttempts: int)
    requires Shaped(s) && id !in s.members && partition < |s.log|
    ensures
      var s' := Execute(s, [Join(id), Assign(id, partition)], maxAttempts);
      && id in s'.members && s'.members[id].positions.Keys == {partition}
      && s' == s.(members := s.members[id := s'.members[id]])
      && NextOffset(s', id, partition)
         == (if s.low[partition] <= s.committed[partition] then s.committed[partition] else s.low[partition])
  {
    var both := [Join(id), Assign(id, partition)];
    assert both[..1] == [Join(id)] && both[..1][..0] == [];
    assert Execute(s, both[..1], maxAttempts) == Next(s, Join(id), maxAttempts);
  }

  /******* What every step keeps *******/

  predicate IsCommitted(s: State, place: Place) {
    place.partition < |s.committed| && place.offset < s.committed[place.partition]
  }

  predicate IsExpired(s: State, place: Place) {
    place.partition < |s.low| && place.offset < s.low[place.partition]
  }

  /** Accepted, handed over, or removed by retention before anyone read it. */
  predicate IsResolved(s: State, place: Place) {
    place in s.accepted || place in s.handed || IsExpired(s, place)
  }

  ghost predicate ResolvedBelow(s: State, partition: nat, offset: nat) {
    forall o :: 0 <= o < offset ==> IsResolved(s, Place(partition, o))
  }

  ghost predicate HandIsSound(s: State, h: Hand) {
    && Exists(s, h.place) && !PayloadAt(s, h.place).Tombstone?
    && ResolvedBelow(s, h.place.partition, h.place.offset)
    && (h.stage.Resolved? ==> IsResolved(s, h.place))
  }

  /** Everything before a position is resolved, save the message in hand. */
  ghost predicate PositionIsSound(s: State, m: Member, p: nat)
    requires p in m.positions
  {
    forall o :: 0 <= o < m.positions[p] ==>
        IsResolved(s, Place(p, o)) || (m.hand.Some? && m.hand.value.place == Place(p, o))
  }

  ghost predicate MemberIsSound(s: State, m: Member) {
    && (m.hand.Some? ==> HandIsSound(s, m.hand.value))
    && forall p :: p in m.positions ==> PositionIsSound(s, m, p)
  }

  ghost predicate MembersAreSound(s: State) {
    forall id :: id in s.members ==> MemberIsSound(s, s.members[id])
  }

  ghost predicate CommittedIsSound(s: State) {
    forall p :: 0 <= p < |s.committed| ==> ResolvedBelow(s, p, s.committed[p])
  }

  ghost predicate Applied(s: State, e: Event) {
    exists d :: d in s.applied && d.event == e
  }

  /** Success was only ever reported for events that decode and that the database has applied. */
  ghost predicate AcceptedIsApplied(s: State) {
    forall place :: place in s.accepted ==>
      Exists(s, place) && PayloadAt(s, place).Decodable? && Applied(s, PayloadAt(s, place).event)
  }

  /** Only events of the topics reach the database. */
  ghost predicate AppliedIsProduced(s: State) {
    forall d :: d in s.applied ==> exists place :: Exists(s, place) && PayloadAt(s, place) == Decodable(d.event)
  }

  /** Only records with a value are ever given to the dead-letter producer, and only those are confirmed. */
  ghost predicate HandedIsReadable(s: State) {
    && (forall place :: place in s.handed ==> Exists(s, place) && !PayloadAt(s, place).Tombstone?)
    && s.confirmed <= s.handed
    && forall id, place :: id in s.members && place in s.members[id].waiting ==> place in s.handed
  }

  ghost predicate Inv(s: State) {
    && Shaped(s) && MembersAreSound(s) && CommittedIsSound(s)
    && AcceptedIsApplied(s) && AppliedIsProduced(s) && HandedIsReadable(s)
    && s.rows == Apply(s.base, s.applied)
  }

  /** The log only grows, and what is resolved stays resolved. */
  ghost predicate Grows(s: State, s': State) {
    && |s.log| == |s'.log| && (forall p :: 0 <= p < |s.log| ==> s.log[p] <= s'.log[p])
    && s.accepted <= s'.accepted && s.handed <= s'.handed && s.confirmed <= s'.confirmed
    && |s.low| == |s'.low| && (forall p :: 0 <= p < |s.low| ==> s.low[p] <= s'.low[p])
  }

  lemma GrowthKeepsMember(s: State, s': State, m: Member)
    requires Grows(s, s') && MemberIsSound(s, m)
    ensures MemberIsSound(s', m)
  {
    assert forall place :: IsResolved(s, place) ==> IsResolved(s', place);
    forall p | p in m.positions ensures PositionIsSound(s', m, p) {
      assert PositionIsSound(s, m, p);
    }
  }

  lemma CallGrows(s: State, id: nat, call: Call, now: int, maxAttempts: int)
    requires Enabled(s, CallService(id, call, now))
    ensures Grows(s, NextCall(s, id, call, now, maxAttempts))
  {
    match Decide(s.members[id].hand.value.stage.attempt, maxAttempts, Judge(call.http))
    case Done =>
    case Park(_) =>
    case Again =>
    case Raise =>
  }

  lemma NextGrows(s: State, step: Step, maxAttempts: int)
    requires Enabled(s, step)
    ensures Grows(s, Next(s, step, maxAttempts))
  {
    match step {
      case Produce(_, _) =>
      case Expire(_, _) =>
      case Join(_) =>
      case Assign(_, _) =>
      case Revoke(_, _) =>
      case Poll(id, p) =>
        assert Grows(s, NextPoll(s, id, p));
      case CallService(id, call, now) =>
        CallGrows(s, id, call, now, maxAttempts);
      case ParkMessage(_, _) =>
      case FlushLetters(_, _) =>
      case CommitOffset(_) =>
      case Crash(_) =>
    }
  }

  lemma GrowthKeepsResolved(s: State, s': State, p: nat, offset: nat)
    requires Grows(s, s') && ResolvedBelow(s, p, offset)
    ensures ResolvedBelow(s', p, offset)
  {
    forall o | 0 <= o < offset ensures IsResolved(s', Place(p, o)) {
      assert IsResolved(s, Place(p, o));
    }
  }

  lemma AssignIsSound(s: State, id: nat, p: nat, maxAttempts: int)
    requires Inv(s) && Enabled(s, Assign(id, p))
    ensures MemberIsSound(s, Next(s, Assign(id, p), maxAttempts).members[id])
  {
    var m, m' := s.members[id], Next(s, Assign(id, p), maxAttempts).members[id];
    assert MemberIsSound(s, m);
    assert ResolvedBelow(s, p, s.committed[p]);
    forall q | q in m'.positions ensures PositionIsSound(s, m', q) {
      if q != p {
        assert PositionIsSound(s, m, q);
      }
    }
  }

  /** What a delivery leaves alone. */
  predicate SameElsewhere(s: State, s': State) {
    s'.log == s.log && s'.low == s.low && s'.committed == s.committed && s'.handed == s.handed
        && s'.confirmed == s.confirmed
  }

  /** The process holds a decodable message and is about to make this attempt. */
  predicate IsCalling(s: State, id: nat, place: Place, attempt: nat) {
    && Shaped(s) && HasHand(s, id) && s.members[id].hand.value == Hand(place, Calling(attempt))
    && Exists(s, place) && PayloadAt(s, place).Decodable?
  }

  /** The message in hand reaches another stage; the process reads on from where it was. */
  predicate HandMoves(s: State, s': State, id: nat, stage: Stage) {
    && HasHand(s, id) && HasHand(s', id)
    && s'.members[id].hand.value == s.members[id].hand.value.(stage := stage)
    && s'.members[id].positions == s.members[id].positions
  }

  lemma OneCall(s: State, id: nat, place: Place, attempt: nat, call: Call, now: int, maxAttempts: int)
    requires IsCalling(s, id, place, attempt) && (Judge(call.http) == Delivery.Accepted ==> call.applied)
    ensures Enabled(s, CallService(id, call, now))
    ensures
      var s' := Next(s, CallService(id, call, now), maxAttempts);
      && SameElsewhere(s, s') && id in s'.members && Shaped(s')
      && s'.members[id].waiting == s.members[id].waiting
      && match Decide(attempt, maxAttempts, Judge(call.http))
         case Done => s'.accepted == s.accepted + {place} && HandMoves(s, s', id, Resolved)
         case Park(_) => s'.accepted == s.accepted && HandMoves(s, s', id, Parking)
         case Again => s'.accepted == s.accepted && HandMoves(s, s', id, Calling(attempt + 1))
         case Raise => s'.accepted == s.accepted && s'.members[id].hand == None && s'.members[id].positions == map[]
  {
    match Decide(attempt, maxAttempts, Judge(call.http))
    case Done =>
    case Park(_) =>
    case Again =>
    case Raise =>
  }

  lemma PollTakesHand(s: State, id: nat, p: nat)
    requires Enabled(s, Poll(id, p)) && !s.log[p][NextOffset(s, id, p)].Tombstone?
    ensures
      var m, o := s.members[id], NextOffset(s, id, p);
      var s' := NextPoll(s, id, p);
      && s'.members.Keys == s.members.Keys && s'.log == s.log && HasHand(s', id)
      && s'.members[id].positions == m.positions[p := o + 1]
      && s'.members[id].hand.value.place == Place(p, o)
      && s'.members[id].hand.value.stage == (if s.log[p][o].Decodable? then Calling(1) else Parking)
  {
  }

  lemma PollIsSound(s: State, id: nat, p: nat, maxAttempts: int)
    requires Inv(s) && Enabled(s, Poll(id, p))
    ensures MemberIsSound(s, Next(s, Poll(id, p), maxAttempts).members[id])
  {
    if !s.log[p][NextOffset(s, id, p)].Tombstone? {
      PollTakesHand(s, id, p);
      var m, m' := s.members[id], NextPoll(s, id, p).members[id];
      assert MemberIsSound(s, m) && PositionIsSound(s, m, p);
      forall o | 0 <= o < NextOffset(s, id, p) ensures IsResolved(s, Place(p, o)) {
        assert o < m.positions[p] ==> IsResolved(s, Place(p, o));
      }
      forall q | q in m'.positions ensures PositionIsSound(s, m', q) {
        if q != p {
          assert PositionIsSound(s, m, q);
        }
      }
    }
  }

  /** Steps that only move the message in hand from one stage to the next. */
  lemma StageIsSound(s: State, s': State, id: nat)
    requires HasHand(s, id) && HasHand(s', id) && MemberIsSound(s, s.members[id]) && Grows(s, s')
    requires s'.members[id].positions == s.members[id].positions
    requires s'.members[id].hand.value.place == s.members[id].hand.value.place
    requires s'.members[id].hand.value.stage.Resolved? ==> IsResolved(s', s.members[id].hand.value.place)
    ensures MemberIsSound(s', s'.members[id])
  {
    var m, m' := s.members[id], s'.members[id];
    GrowthKeepsMember(s, s', m);
    forall q | q in m'.positions ensures PositionIsSound(s', m', q) {
      assert PositionIsSound(s', m, q);
    }
  }

  lemma CommitIsSound(s: State, id: nat, maxAttempts: int)
    requires Inv(s) && Enabled(s, CommitOffset(id))
    ensures MemberIsSound(s, Next(s, CommitOffset(id), maxAttempts).members[id])
    ensures CommittedIsSound(Next(s, CommitOffset(id), maxAttempts))
  {
    var s' := Next(s, CommitOffset(id), maxAttempts);
    var m, m' := s.members[id], s'.members[id];
    assert MemberIsSound(s, m) && HandIsSound(s, m.hand.value);
    forall q | q in m'.positions ensures PositionIsSound(s, m', q) {
      assert PositionIsSound(s, m, q);
    }
    GrowthKeepsResolved(s, s', m.hand.value.place.partition, m.hand.value.place.offset);
    forall p | 0 <= p < |s'.committed| ensures ResolvedBelow(s', p, s'.committed[p]) {
      GrowthKeepsResolved(s, s', p, s.committed[p]);
    }
  }

  lemma RevokeIsSound(s: State, id: nat, p: nat, maxAttempts: int)
    requires Inv(s) && Enabled(s, Revoke(id, p))
    ensures MemberIsSound(s, Next(s, Revoke(id, p), maxAttempts).members[id])
  {
    var m, m' := s.members[id], Next(s, Revoke(id, p), maxAttempts).members[id];
    assert MemberIsSound(s, m);
    forall q | q in m'.positions ensures PositionIsSound(s, m', q) {
      assert PositionIsSound(s, m, q);
    }
  }

  lemma CallIsSound(s: State, id: nat, call: Call, now: int, maxAttempts: int)
    requires Inv(s) && Enabled(s, CallService(id, call, now))
    ensures
      var s' := Next(s, CallService(id, call, now), maxAttempts);
      MemberIsSound(s', s'.members[id])
  {
    var s' := Next(s, CallService(id, call, now), maxAttempts);
    NextGrows(s, CallService(id, call, now), maxAttempts);
    var Hand(place, Calling(attempt)) := s.members[id].hand.value;
    OneCall(s, id, place, attempt, call, now, maxAttempts);
    assert MemberIsSound(s, s.members[id]);
    if HasHand(s', id) {
      StageIsSound(s, s', id);
    }
  }

  lemma ParkIsSound(s: State, id: nat, reports: seq<Report<Place>>, maxAttempts: int)
    requires Inv(s) && Enabled(s, ParkMessage(id, reports))
    ensures
      var s' := Next(s, ParkMessage(id, reports), maxAttempts);
      MemberIsSound(s', s'.members[id])
  {
    var s' := Next(s, ParkMessage(id, reports), maxAttempts);
    NextGrows(s, ParkMessage(id, reports), maxAttempts);
    assert MemberIsSound(s, s.members[id]);
    StageIsSound(s, s', id);
  }

  lemma FlushIsSound(s: State, id: nat, reports: seq<Report<Place>>, maxAttempts: int)
    requires Inv(s) && Enabled(s, FlushLetters(id, reports))
    ensures
      var s' := Next(s, FlushLetters(id, reports), maxAttempts);
      MemberIsSound(s', s'.members[id])
  {
    var s' := Next(s, FlushLetters(id, reports), maxAttempts);
    NextGrows(s, FlushLetters(id, reports), maxAttempts);
    var m := s.members[id];
    assert MemberIsSound(s, m);
    GrowthKeepsMember(s, s', m);
    forall q | q in m.positions ensures PositionIsSound(s', s'.members[id], q) {
      assert PositionIsSound(s', m, q);
    }
  }

  lemma ActingMemberIsSound(s: State, step: Step, maxAttempts: int)
    requires Inv(s) && Enabled(s, step) && !step.Produce? && !step.Expire?
    ensures
      var s' := Next(s, step, maxAttempts);
      step.id in s'.members ==> MemberIsSound(s', s'.members[step.id])
  {
    var s' := Next(s, step, maxAttempts);
    NextGrows(s, step, maxAttempts);
    match step {
      case Join(_) =>
      case Assign(id, p) =>
        AssignIsSound(s, id, p, maxAttempts);
        GrowthKeepsMember(s, s', s'.members[id]);
      case Revoke(id, p) =>
        RevokeIsSound(s, id, p, maxAttempts);
        GrowthKeepsMember(s, s', s'.members[id]);
      case Poll(id, p) =>
        PollIsSound(s, id, p, maxAttempts);
        GrowthKeepsMember(s, s', s'.members[id]);
      case CallService(id, call, now) =>
        CallIsSound(s, id, call, now, maxAttempts);
      case ParkMessage(id, reports) =>
        ParkIsSound(s, id, reports, maxAttempts);
      case FlushLetters(id, reports) =>
        FlushIsSound(s, id, reports, maxAttempts);
      case CommitOffset(id) =>
        CommitIsSound(s, id, maxAttempts);
        GrowthKeepsMember(s, s', s'.members[id]);
      case Crash(_) =>
    }
  }

  predicate SameMember(s: State, s': State, id: nat) {
    id in s'.members ==> id in s.members && s'.members[id] == s.members[id]
  }

  lemma PollLeavesOthers(s: State, other: nat, p: nat, id: nat)
    requires Enabled(s, Poll(other, p)) && other != id
    ensures SameMember(s, NextPoll(s, other, p), id)
  {
  }

  lemma CallLeavesOthers(s: State, other: nat, call: Call, now: int, maxAttempts: int, id: nat)
    requires Enabled(s, CallService(other, call, now)) && other != id
    ensures SameMember(s, NextCall(s, other, call, now, maxAttempts), id)
  {
    match Decide(s.members[other].hand.value.stage.attempt, maxAttempts, Judge(call.http))
    case Done =>
    case Park(_) =>
    case Again =>
    case Raise =>
  }

  lemma OthersStay(s: State, step: Step, maxAttempts: int, id: nat)
    requires Enabled(s, step) && id in Next(s, step, maxAttempts).members
    requires step.Produce? || step.Expire? || step.id != id
    ensures id in s.members && Next(s, step, maxAttempts).members[id] == s.members[id]
  {
    match step {
      case Produce(_, _) =>
      case Expire(_, _) =>
      case Join(_) =>
      case Assign(_, _) =>
      case Revoke(_, _) =>
      case Poll(other, p) =>
        PollLeavesOthers(s, other, p, id);
      case CallService(other, call, now) =>
        CallLeavesOthers(s, other, call, now, maxAttempts, id);
      case ParkMessage(_, _) =>
      case FlushLetters(_, _) =>
      case CommitOffset(_) =>
      case Crash(_) =>
    }
  }

  lemma NextKeepsMembers(s: State, step: Step, maxAttempts: int)
    requires Inv(s) && Enabled(s, step)
    ensures MembersAreSound(Next(s, step, maxAttempts))
  {
    var s' := Next(s, step, maxAttempts);
    NextGrows(s, step, maxAttempts);
    forall id | id in s'.members ensures MemberIsSound(s', s'.members[id]) {
      if step.Produce? || step.Expire? || step.id != id {
        OthersStay(s, step, maxAttempts, id);
        assert MemberIsSound(s, s.members[id]);
        GrowthKeepsMember(s, s', s.members[id]);
      } else {
        ActingMemberIsSound(s, step, maxAttempts);
      }
    }
  }

  lemma NextKeepsCommitted(s: State, step: Step, maxAttempts: int)
    requires Inv(s) && Enabled(s, step)
    ensures CommittedIsSound(Next(s, step, maxAttempts))
  {
    var s' := Next(s, step, maxAttempts);
    NextGrows(s, step, maxAttempts);
    if step.CommitOffset? {
      CommitIsSound(s, step.id, maxAttempts);
    } else {
      forall p | 0 <= p < |s'.committed| ensures ResolvedBelow(s', p, s'.committed[p]) {
        GrowthKeepsResolved(s, s', p, s.committed[p]);
      }
    }
  }

  lemma PayloadsStay(s: State, s': State, place: Place)
    requires Grows(s, s') && Exists(s, place)
    ensures Exists(s', place) && PayloadAt(s', place) == PayloadAt(s, place)
  {
  }

  lemma CallAndDatabase(s: State, id: nat, call: Call, now: int, maxAttempts: int)
    requires Enabled(s, CallService(id, call, now))
    ensures
      var s' := NextCall(s, id, call, now, maxAttempts);
      var place := s.members[id].hand.value.place;
      var d := Subscriptions.Delivery(PayloadAt(s, place).event, now);
      && s'.base == s.base && s'.accepted <= s.accepted + {place} && (s'.accepted != s.accepted ==> call.applied)
      && s'.applied == (if call.applied then s.applied + [d] else s.applied)
      && s'.rows == (if call.applied then ApplyOne(s.rows, d) else s.rows)
  {
    match Decide(s.members[id].hand.value.stage.attempt, maxAttempts, Judge(call.http))
    case Done =>
    case Park(_) =>
    case Again =>
    case Raise =>
  }

  predicate SameDatabase(s: State, s': State) {
    s'.base == s.base && s'.applied == s.applied && s'.rows == s.rows && s'.accepted == s.accepted
  }

  lemma OthersAndDatabase(s: State, step: Step, maxAttempts: int)
    requires Enabled(s, step) && !step.CallService?
    ensures SameDatabase(s, Next(s, step, maxAttempts))
  {
    match step {
      case Produce(_, _) =>
      case Expire(_, _) =>
      case Join(_) =>
      case Assign(_, _) =>
      case Revoke(_, _) =>
      case Poll(id, p) =>
        assert SameDatabase(s, NextPoll(s, id, p));
      case ParkMessage(_, _) =>
      case FlushLetters(_, _) =>
      case CommitOffset(_) =>
      case Crash(_) =>
    }
  }

  /** A step either leaves the database alone or applies the event in the caller's hand. */
  lemma NextDatabase(s: State, step: Step, maxAttempts: int)
    requires Enabled(s, step)
    ensures
      var s' := Next(s, step, maxAttempts);
      s'.base == s.base &&
      if s'.applied == s.applied then s'.rows == s.rows && s'.accepted == s.accepted else
        && step.CallService?
        && var place := s.members[step.id].hand.value.place;
           var d := Subscriptions.Delivery(PayloadAt(s, place).event, step.now);
           && s'.applied == s.applied + [d] && s'.rows == ApplyOne(s.rows, d) && s'.accepted <= s.accepted + {place}
  {
    if step.CallService? {
      CallAndDatabase(s, step.id, step.call, step.now, maxAttempts);
    } else {
      OthersAndDatabase(s, step, maxAttempts);
    }
  }

  lemma NextKeepsAccepted(s: State, step: Step, maxAttempts: int)
    requires AcceptedIsApplied(s) && Enabled(s, step)
    ensures AcceptedIsApplied(Next(s, step, maxAttempts))
  {
    var s' := Next(s, step, maxAttempts);
    NextGrows(s, step, maxAttempts);
    NextDatabase(s, step, maxAttempts);
    forall place | place in s'.accepted
      ensures Exists(s', place) && PayloadAt(s', place).Decodable? && Applied(s', PayloadAt(s', place).event)
    {
      if place in s.accepted {
        PayloadsStay(s, s', place);
        var d :| d in s.applied && d.event == PayloadAt(s, place).event;
        assert d in s'.applied;
      } else {
        PayloadsStay(s, s', place);
        assert s'.applied[|s.applied|] in s'.applied;
      }
    }
  }

  lemma NextKeepsProduced(s: State, step: Step, maxAttempts: int)
    requires AppliedIsProduced(s) && Enabled(s, step)
    ensures AppliedIsProduced(Next(s, step, maxAttempts))
  {
    var s' := Next(s, step, maxAttempts);
    NextGrows(s, step, maxAttempts);
    NextDatabase(s, step, maxAttempts);
    forall d | d in s'.applied ensures exists place :: Exists(s', place) && PayloadAt(s', place) == Decodable(d.event) {
      if d in s.applied {
        var place :| Exists(s, place) && PayloadAt(s, place) == Decodable(d.event);
        PayloadsStay(s, s', place);
      } else {
        PayloadsStay(s, s', s.members[step.id].hand.value.place);
      }
    }
  }

  lemma NextKeepsDatabase(s: State, step: Step, maxAttempts: int)
    requires Inv(s) && Enabled(s, step)
    ensures
      var s' := Next(s, step, maxAttempts);
      AcceptedIsApplied(s') && AppliedIsProduced(s') && s'.rows == Apply(s'.base, s'.applied)
  {
    var s' := Next(s, step, maxAttempts);
    NextKeepsAccepted(s, step, maxAttempts);
    NextKeepsProduced(s, step, maxAttempts);
    NextDatabase(s, step, maxAttempts);
    if s'.applied != s.applied {
      assert s'.applied[..|s.applied|] == s.applied;
    }
  }

  /** A step hands over at most the message in the acting member's hand. */
  lemma NextHanded(s: State, step: Step, maxAttempts: int)
    requires Enabled(s, step)
    ensures
      var s' := Next(s, step, maxAttempts);
      && (if step.ParkMessage? then s'.handed == s.handed + {s.members[step.id].hand.value.place}
          else s'.handed == s.handed)
      && (if step.ParkMessage? || step.FlushLetters? then
            s'.confirmed == s.confirmed + set place | place in Acknowledged(step.reports)
          else s'.confirmed == s.confirmed)
  {
  }

  function WaitingOf(s: State, id: nat): multiset<Place> {
    if id in s.members then s.members[id].waiting else multiset{}
  }

  /** And it puts no other letter in line. */
  lemma NextWaiting(s: State, step: Step, maxAttempts: int, id: nat)
    requires Enabled(s, step) && id in Next(s, step, maxAttempts).members
    ensures
      var waiting := Next(s, step, maxAttempts).members[id].waiting;
      waiting <= WaitingOf(s, id) +
        if step.ParkMessage? && step.id == id then multiset{s.members[id].hand.value.place} else multiset{}
  {
    if step.Produce? || step.Expire? || step.id != id {
      OthersStay(s, step, maxAttempts, id);
    } else {
      match step {
        case Join(_) =>
        case Assign(_, _) =>
        case Revoke(_, _) =>
        case Poll(_, p) =>
          assert NextPoll(s, id, p).members[id].waiting == s.members[id].waiting;
        case CallService(_, call, now) =>
          var Hand(place, Calling(attempt)) := s.members[id].hand.value;
          OneCall(s, id, place, attempt, call, now, maxAttempts);
        case ParkMessage(_, _) =>
        case FlushLetters(_, _) =>
        case CommitOffset(_) =>
        case Crash(_) =>
      }
    }
  }

  lemma NextKeepsWaiting(s: State, step: Step, maxAttempts: int, id: nat, place: Place)
    requires HandedIsReadable(s) && Enabled(s, step) && id in Next(s, step, maxAttempts).members
    requires place in Next(s, step, maxAttempts).members[id].waiting
    ensures place in Next(s, step, maxAttempts).handed
  {
    NextHanded(s, step, maxAttempts);
    NextWaiting(s, step, maxAttempts, id);
  }

  /** Reports are about letters of the acting member's producer. */
  lemma ReportsAreAboutLetters(s: State, step: Step, maxAttempts: int, place: Place)
    requires HandedIsReadable(s) && Enabled(s, step) && (step.ParkMessage? || step.FlushLetters?)
    requires place in Acknowledged(step.reports)
    ensures place in Next(s, step, maxAttempts).handed
  {
    NextHanded(s, step, maxAttempts);
    ReportsAreSplit(step.reports);
    assert place in Reported(step.reports);
  }

  lemma NextKeepsHanded(s: State, step: Step, maxAttempts: int)
    requires Inv(s) && Enabled(s, step)
    ensures HandedIsReadable(Next(s, step, maxAttempts))
  {
    var s' := Next(s, step, maxAttempts);
    NextGrows(s, step, maxAttempts);
    NextHanded(s, step, maxAttempts);
    forall place | place in s'.handed ensures Exists(s', place) && !PayloadAt(s', place).Tombstone? {
      if place !in s.handed {
        assert MemberIsSound(s, s.members[step.id]);
      }
      PayloadsStay(s, s', place);
    }
    forall place | place in s'.confirmed ensures place in s'.handed {
      if place !in s.confirmed {
        ReportsAreAboutLetters(s, step, maxAttempts, place);
      }
    }
    forall id, place | id in s'.members && place in s'.members[id].waiting ensures place in s'.handed {
      NextKeepsWaiting(s, step, maxAttempts, id, place);
    }
  }

  lemma NextKeepsShape(s: State, step: Step, maxAttempts: int)
    requires Enabled(s, step)
    ensures Shaped(Next(s, step, maxAttempts))
  {
    match step {
      case Produce(_, _) =>
      case Expire(_, _) =>
      case Join(_) =>
      case Assign(_, _) =>
      case Revoke(_, _) =>
      case Poll(id, p) =>
        assert Shaped(NextPoll(s, id, p));
      case CallService(id, call, now) =>
        var Hand(place, Calling(attempt)) := s.members[id].hand.value;
        OneCall(s, id, place, attempt, call, now, maxAttempts);
      case ParkMessage(_, _) =>
      case FlushLetters(_, _) =>
      case CommitOffset(_) =>
      case Crash(_) =>
    }
  }

  lemma NextKeepsInv(s: State, step: Step, maxAttempts: int)
    requires Inv(s) && Enabled(s, step)
    ensures Inv(Next(s, step, maxAttempts))
  {
    NextKeepsShape(s, step, maxAttempts);
    NextKeepsMembers(s, step, maxAttempts);
    NextKeepsCommitted(s, step, maxAttempts);
    NextKeepsDatabase(s, step, maxAttempts);
    NextKeepsHanded(s, step, maxAttempts);
  }

  lemma InitiallySound(partitions: nat, rows: Rows)
    ensures Inv(Initial(partitions, rows))
  {
  }

  lemma {:induction false} RunKeepsInv(s: State, steps: seq<Step>, maxAttempts: int)
    requires Inv(s)
    ensures Inv(Execute(s, steps, maxAttempts)) && Execute(s, steps, maxAttempts).base == s.base
    decreases |steps|
  {
    if steps != [] {
      RunKeepsInv(s, steps[..|steps| - 1], maxAttempts);
      var s', step := Execute(s, steps[..|steps| - 1], maxAttempts), steps[|steps| - 1];
      if Enabled(s', step) {
        NextKeepsInv(s', step, maxAttempts);
        NextDatabase(s', step, maxAttempts);
      }
    }
  }

  /** A state that some run from some table leads to. */
  ghost predicate Reachable(s: State, maxAttempts: int) {
    exists partitions, rows, steps :: s == Execute(Initial(partitions, rows), steps, maxAttempts)
  }

  lemma ReachableIsSound(s: State, maxAttempts: int)
    requires Reachable(s, maxAttempts)
    ensures Inv(s)
  {
    var partitions, rows, steps :| s == Execute(Initial(partitions, rows), steps, maxAttempts);
    InitiallySound(partitions, rows);
    RunKeepsInv(Initial(partitions, rows), steps, maxAttempts);
  }

  /******* The theorems *******/

  /** Over all runs, every offset below a committed one was accepted by the service, handed to the
      dead-letter producer, or had already been removed by retention. */
  lemma CommittedOffsetsAreResolved(s: State, maxAttempts: int, place: Place)
    requires Reachable(s, maxAttempts) && IsCommitted(s, place)
    ensures IsResolved(s, place)
  {
    ReachableIsSound(s, maxAttempts);
    CommittedPlaceIsResolved(s, place);
  }

  lemma CommittedPlaceIsResolved(s: State, place: Place)
    requires CommittedIsSound(s) && IsCommitted(s, place)
    ensures IsResolved(s, place)
  {
    assert ResolvedBelow(s, place.partition, s.committed[place.partition]);
  }

  /** Success means applied; and what does not decode is never accepted. */
  lemma AcceptedMeansApplied(s: State, maxAttempts: int, place: Place)
    requires Reachable(s, maxAttempts) && place in s.accepted
    ensures Exists(s, place) && PayloadAt(s, place).Decodable? && Applied(s, PayloadAt(s, place).event)
  {
    ReachableIsSound(s, maxAttempts);
  }

  /** Whatever was dropped, parked or expired, the table is what one pass over the applied events makes of
      the table of the beginning, in any order; and only events of the topics are applied. */
  lemma TableIsOnePassOverTheApplied(s: State, maxAttempts: int, onePass: seq<Subscriptions.Delivery>, k: Key)
    requires Reachable(s, maxAttempts) && EventsOf(onePass) == EventsOf(s.applied)
    ensures Subscriptions.State(Lookup(s.rows, k)) == Subscriptions.State(Lookup(Apply(s.base, onePass), k))
    ensures TimesAreDistinct(EventsOf(onePass)) ==> Facts(Lookup(s.rows, k)) == Facts(Lookup(Apply(s.base, onePass), k))
    ensures forall e :: e in EventsOf(onePass) ==>
            exists place :: Exists(s, place) && PayloadAt(s, place) == Decodable(e)
  {
    ReachableIsSound(s, maxAttempts);
    HistoriesConverge(s.base, s.applied, onePass, k);
  }

  /** These deliveries mention every decodable event of the topics, and nothing else. */
  ghost predicate CoversTheTopics(s: State, ds: seq<Subscriptions.Delivery>) {
    forall e :: e in EventsOf(ds) <==> exists place :: Exists(s, place) && PayloadAt(s, place) == Decodable(e)
  }

  ghost predicate FullyCommitted(s: State) {
    forall p :: 0 <= p < |s.log| ==> p < |s.committed| && s.committed[p] >= |s.log[p]|
  }

  predicate NothingExpired(s: State) {
    forall p :: 0 <= p < |s.low| ==> s.low[p] == 0
  }

  /** Every parked event was applied all the same, by the call that reported an error or by another copy. */
  ghost predicate ParkedAreApplied(s: State) {
    forall place :: place in s.handed && Exists(s, place) && PayloadAt(s, place).Decodable? ==>
      Applied(s, PayloadAt(s, place).event)
  }

  /** When everything is committed and nothing expired, the events applied are those of the topics exactly
      if no event was parked for good. */
  lemma AllAppliedIffNoneParked(s: State, maxAttempts: int)
    requires Reachable(s, maxAttempts) && FullyCommitted(s) && NothingExpired(s)
    ensures CoversTheTopics(s, s.applied) <==> ParkedAreApplied(s)
  {
    ReachableIsSound(s, maxAttempts);
    if ParkedAreApplied(s) {
      forall e, place | Exists(s, place) && PayloadAt(s, place) == Decodable(e) ensures e in EventsOf(s.applied) {
        CommittedOffsetsAreResolved(s, maxAttempts, place);
        assert Applied(s, e);
      }
    }
    if CoversTheTopics(s, s.applied) {
      forall place | place in s.handed && Exists(s, place) && PayloadAt(s, place).Decodable?
        ensures Applied(s, PayloadAt(s, place).event)
      {
        assert PayloadAt(s, place) == Decodable(PayloadAt(s, place).event);
        assert PayloadAt(s, place).event in EventsOf(s.applied);
      }
    }
  }

  /** At-least-once delivery converges: then the table agrees with a single pass over the topics, in any
      order, whatever crashes, rebalances, replays and lost answers there were on the way. */
  lemma DeliveryConverges(s: State, maxAttempts: int, onePass: seq<Subscriptions.Delivery>, k: Key)
    requires Reachable(s, maxAttempts) && FullyCommitted(s) && NothingExpired(s) && ParkedAreApplied(s)
    requires CoversTheTopics(s, onePass)
    ensures Subscriptions.State(Lookup(s.rows, k)) == Subscriptions.State(Lookup(Apply(s.base, onePass), k))
    ensures TimesAreDistinct(EventsOf(onePass)) ==> Facts(Lookup(s.rows, k)) == Facts(Lookup(Apply(s.base, onePass), k))
  {
    AllAppliedIffNoneParked(s, maxAttempts);
    assert forall e :: e in EventsOf(s.applied) <==> e in EventsOf(onePass);
    TableIsOnePassOverTheApplied(s, maxAttempts, onePass, k);
  }

  /******* `deliver` as steps *******/

  /** The first `n` calls of one delivery, made at these times of the database. */
  function CallSteps(id: nat, calls: seq<Call>, times: seq<int>, n: nat): seq<Step>
    requires n <= |calls| && n <= |times|
  {
    if n == 0 then [] else CallSteps(id, calls, times, n - 1) + [CallService(id, calls[n - 1], times[n - 1])]
  }

  predicate SuccessIsApplied(calls: seq<Call>) {
    forall k :: 0 <= k < |calls| && Judge(calls[k].http) == Delivery.Accepted ==> calls[k].applied
  }

  /** A process that goes on reads and waits for letters as before. */
  predicate SameProcess(s: State, s': State, id: nat) {
    && id in s.members && id in s'.members
    && s'.members[id].waiting == s.members[id].waiting && s'.members[id].positions == s.members[id].positions
  }

  predicate IsRetried(s: State, s': State, id: nat, place: Place, attempt: nat) {
    && SameElsewhere(s, s') && s'.accepted == s.accepted && IsCalling(s', id, place, attempt)
    && SameProcess(s, s', id)
  }

  lemma TransientCall(s: State, id: nat, place: Place, n: nat, call: Call, now: int, maxAttempts: int)
    requires IsCalling(s, id, place, n) && n < maxAttempts && Judge(call.http) == TransientError
    ensures Enabled(s, CallService(id, call, now))
    ensures IsRetried(s, Next(s, CallService(id, call, now), maxAttempts), id, place, n + 1)
  {
    OneCall(s, id, place, n, call, now, maxAttempts);
  }

  lemma {:induction false} TransientCalls(s: State, id: nat, place: Place, calls: seq<Call>, times: seq<int>, n: nat,
                                          maxAttempts: int)
    requires IsCalling(s, id, place, 1) && n < maxAttempts <= |calls| && |calls| == |times|
    requires forall k :: 0 <= k < n ==> Judge(calls[k].http) == TransientError
    ensures IsRetried(s, Execute(s, CallSteps(id, calls, times, n), maxAttempts), id, place, n + 1)
    decreases n
  {
    if n > 0 {
      TransientCalls(s, id, place, calls, times, n - 1, maxAttempts);
      var before := CallSteps(id, calls, times, n - 1);
      var step := CallService(id, calls[n - 1], times[n - 1]);
      TransientCall(Execute(s, before, maxAttempts), id, place, n, calls[n - 1], times[n - 1], maxAttempts);
      ExecuteSnoc(s, before, step, maxAttempts);
    }
  }

  lemma ExecuteSnoc(s: State, steps: seq<Step>, step: Step, maxAttempts: int)
    requires Enabled(Execute(s, steps, maxAttempts), step)
    ensures Execute(s, steps + [step], maxAttempts) == Next(Execute(s, steps, maxAttempts), step, maxAttempts)
  {
    assert (steps + [step])[..|steps|] == steps;
  }

  lemma ExecuteOne(s: State, step: Step, maxAttempts: int)
    requires Enabled(s, step)
    ensures Execute(s, [step], maxAttempts) == Next(s, step, maxAttempts)
  {
    ExecuteSnoc(s, [], step, maxAttempts);
    assert [] + [step] == [step];
  }

  /** What the process holds after a delivery, by the last answer. */
  function HandAfter(place: Place, last: Verdict): Option<Hand> {
    match last
    case Accepted => Some(Hand(place, Resolved))
    case Unexpected => None
    case _ => Some(Hand(place, Parking))
  }

  predicate IsDelivered(s: State, s': State, id: nat, place: Place, last: Verdict) {
    && SameElsewhere(s, s') && id in s'.members && s'.members[id].hand == HandAfter(place, last)
    && (last != Unexpected ==> SameProcess(s, s', id))
    && s'.accepted == s.accepted + (if last == Delivery.Accepted then {place} else {})
  }

  lemma LastCall(s: State, id: nat, place: Place, n: nat, call: Call, now: int, maxAttempts: int)
    requires IsCalling(s, id, place, n) && n <= maxAttempts && (Judge(call.http) == TransientError ==> n == maxAttempts)
    requires Judge(call.http) == Delivery.Accepted ==> call.applied
    ensures Enabled(s, CallService(id, call, now))
    ensures IsDelivered(s, Next(s, CallService(id, call, now), maxAttempts), id, place, Judge(call.http))
  {
    OneCall(s, id, place, n, call, now, maxAttempts);
  }

  lemma DeliveredAfterRetries(s: State, s1: State, s2: State, id: nat, place: Place, n: nat, last: Verdict)
    requires IsRetried(s, s1, id, place, n) && IsDelivered(s1, s2, id, place, last)
    ensures IsDelivered(s, s2, id, place, last)
  {
  }

  lemma LastCallOfRun(s: State, before: seq<Step>, id: nat, place: Place, n: nat, call: Call, now: int,
                      maxAttempts: int)
    requires IsRetried(s, Execute(s, before, maxAttempts), id, place, n) && n <= maxAttempts
    requires Judge(call.http) == TransientError ==> n == maxAttempts
    requires Judge(call.http) == Delivery.Accepted ==> call.applied
    ensures IsDelivered(s, Execute(s, before + [CallService(id, call, now)], maxAttempts), id, place, Judge(call.http))
  {
    var s1 := Execute(s, before, maxAttempts);
    LastCall(s1, id, place, n, call, now, maxAttempts);
    ExecuteSnoc(s, before, CallService(id, call, now), maxAttempts);
    DeliveredAfterRetries(s, s1, Next(s1, CallService(id, call, now), maxAttempts), id, place, n, Judge(call.http));
  }

  lemma DeliverRun(s: State, id: nat, place: Place, n: nat, calls: seq<Call>, times: seq<int>, maxAttempts: int)
    requires IsCalling(s, id, place, 1) && 1 <= n <= maxAttempts <= |calls| && |calls| == |times|
    requires forall k :: 0 <= k < n - 1 ==> Judge(calls[k].http) == TransientError
    requires Judge(calls[n - 1].http) == TransientError ==> n == maxAttempts
    requires Judge(calls[n - 1].http) == Delivery.Accepted ==> calls[n - 1].applied
    ensures IsDelivered(s, Execute(s, CallSteps(id, calls, times, n), maxAttempts), id, place, Judge(calls[n - 1].http))
  {
    TransientCalls(s, id, place, calls, times, n - 1, maxAttempts);
    LastCallOfRun(s, CallSteps(id, calls, times, n - 1), id, place, n, calls[n - 1], times[n - 1], maxAttempts);
  }

  /** The retry loop is a run of this state machine: it makes the same calls, and ends with the message
      accepted, about to be parked, or the process ended, just as the last answer says. */
  lemma DeliverIsARun(s: State, id: nat, place: Place, settings: Settings, calls: seq<Call>, times: seq<int>)
    requires IsCalling(s, id, place, 1)
    requires Acceptable(settings) && settings.maxAttempts <= |calls| == |times| && SuccessIsApplied(calls)
    ensures
      var n := CallsMade(calls, settings.maxAttempts);
      IsDelivered(s, Execute(s, CallSteps(id, calls, times, n), settings.maxAttempts), id, place,
          Judge(calls[n - 1].http))
  {
    DeliverRun(s, id, place, CallsMade(calls, settings.maxAttempts), calls, times, settings.maxAttempts);
  }

  lemma ExecuteThree(s: State, a: Step, b: Step, c: Step, maxAttempts: int)
    requires Enabled(s, a) && Enabled(Next(s, a, maxAttempts), b)
    requires Enabled(Next(Next(s, a, maxAttempts), b, maxAttempts), c)
    ensures Execute(s, [a, b, c], maxAttempts) == Next(Next(Next(s, a, maxAttempts), b, maxAttempts), c, maxAttempts)
  {
    var steps := [a, b, c];
    assert steps[..2] == [a, b] && steps[..2][..1] == [a] && steps[..2][..1][..0] == [];
    assert Execute(s, steps[..2][..1], maxAttempts) == Next(s, a, maxAttempts);
    assert Execute(s, steps[..2], maxAttempts) == Next(Next(s, a, maxAttempts), b, maxAttempts);
  }

  /******* The dead-letter flush *******/

  /** Stored for good: in the database or acknowledged by the dead-letter topic. */
  ghost predicate Durable(s: State, place: Place) {
    place in s.confirmed
        || (Exists(s, place) && PayloadAt(s, place).Decodable? && Applied(s, PayloadAt(s, place).event))
  }

  /** What is committed and still retained is durable. */
  ghost predicate CommittedAreDurable(s: State) {
    forall place :: IsCommitted(s, place) && !IsExpired(s, place) ==> Durable(s, place)
  }

  ghost predicate ParkIsClean(s: State, step: Step, maxAttempts: int)
    requires Enabled(s, step)
  {
    step.ParkMessage? ==> IsClean(s.members[step.id], Next(s, step, maxAttempts).members[step.id])
  }

  /** In this run every flush of `park` returned zero and counted no failure. */
  ghost predicate EveryParkIsClean(s: State, steps: seq<Step>, maxAttempts: int) {
    steps != [] ==>
      && EveryParkIsClean(s, steps[..|steps| - 1], maxAttempts)
      && var s' := Execute(s, steps[..|steps| - 1], maxAttempts);
         Enabled(s', steps[|steps| - 1]) ==> ParkIsClean(s', steps[|steps| - 1], maxAttempts)
  }

  /** Nothing is waiting anywhere, and everything handed over is acknowledged. */
  ghost predicate LettersAreSettled(s: State) {
    s.handed <= s.confirmed && forall id :: id in s.members ==> s.members[id].waiting == multiset{}
  }

  lemma ParkedMember(s: State, id: nat, reports: seq<Report<Place>>, maxAttempts: int)
    requires Enabled(s, ParkMessage(id, reports)) && s.members[id].waiting == multiset{}
    ensures
      var m', place := Next(s, ParkMessage(id, reports), maxAttempts).members[id], s.members[id].hand.value.place;
      && IsReportable(reports, multiset{place})
      && m'.waiting == multiset{place} - Reported(reports) && m'.failures == s.members[id].failures + Failures(reports)
  {
    var place := s.members[id].hand.value.place;
    assert s.members[id].waiting + multiset{place} == multiset{place};
  }

  /** With nothing waiting before, the flush is clean exactly if the letter itself is acknowledged. */
  lemma CleanMeansAcknowledged(s: State, id: nat, reports: seq<Report<Place>>, maxAttempts: int)
    requires Enabled(s, ParkMessage(id, reports)) && s.members[id].waiting == multiset{}
    ensures ParkIsClean(s, ParkMessage(id, reports), maxAttempts) <==>
            s.members[id].hand.value.place in Acknowledged(reports)
  {
    ParkedMember(s, id, reports, maxAttempts);
    OneMessageIsAcknowledged(reports, s.members[id].hand.value.place);
  }

  lemma CleanParkKeepsSettled(s: State, step: Step, maxAttempts: int)
    requires Inv(s) && LettersAreSettled(s) && Enabled(s, step) && ParkIsClean(s, step, maxAttempts)
    ensures LettersAreSettled(Next(s, step, maxAttempts))
  {
    var s' := Next(s, step, maxAttempts);
    NextHanded(s, step, maxAttempts);
    if step.ParkMessage? {
      CleanMeansAcknowledged(s, step.id, step.reports, maxAttempts);
    }
    forall id | id in s'.members ensures s'.members[id].waiting == multiset{} {
      NextWaiting(s, step, maxAttempts, id);
      if step.ParkMessage? && step.id == id {
        assert |s'.members[id].waiting| == 0;
      } else {
        assert s'.members[id].waiting <= WaitingOf(s, id);
      }
    }
  }

  lemma {:induction false} CleanRunIsSettled(s: State, steps: seq<Step>, maxAttempts: int)
    requires Inv(s) && LettersAreSettled(s) && EveryParkIsClean(s, steps, maxAttempts)
    ensures LettersAreSettled(Execute(s, steps, maxAttempts))
    decreases |steps|
  {
    if steps != [] {
      CleanRunIsSettled(s, steps[..|steps| - 1], maxAttempts);
      RunKeepsInv(s, steps[..|steps| - 1], maxAttempts);
      var s' := Execute(s, steps[..|steps| - 1], maxAttempts);
      if Enabled(s', steps[|steps| - 1]) {
        CleanParkKeepsSettled(s', steps[|steps| - 1], maxAttempts);
      }
    }
  }

  lemma SettledMeansDurable(s: State)
    requires Inv(s) && s.handed <= s.confirmed
    ensures CommittedAreDurable(s)
  {
    forall place | IsCommitted(s, place) && !IsExpired(s, place) ensures Durable(s, place) {
      CommittedPlaceIsResolved(s, place);
    }
  }

  /** If every flush of `park` is clean, what is committed is durable, over all runs. */
  lemma CommittedIsDurable(partitions: nat, rows: Rows, steps: seq<Step>, maxAttempts: int)
    requires EveryParkIsClean(Initial(partitions, rows), steps, maxAttempts)
    ensures CommittedAreDurable(Execute(Initial(partitions, rows), steps, maxAttempts))
  {
    InitiallySound(partitions, rows);
    RunKeepsInv(Initial(partitions, rows), steps, maxAttempts);
    CleanRunIsSettled(Initial(partitions, rows), steps, maxAttempts);
    SettledMeansDurable(Execute(Initial(partitions, rows), steps, maxAttempts));
  }

  /** Parking, committing, and the end of the process. */
  function LastTurn(id: nat, reports: seq<Report<Place>>): seq<Step> {
    [ParkMessage(id, reports), CommitOffset(id), Crash(id)]
  }

  lemma AfterPark(s: State, id: nat, reports: seq<Report<Place>>)
    requires Enabled(s, ParkMessage(id, reports))
    ensures
      var s', place := Next(s, ParkMessage(id, reports), 1), s.members[id].hand.value.place;
      && s'.log == s.log && s'.low == s.low && s'.applied == s.applied && s'.committed == s.committed
      && s'.members.Keys == s.members.Keys && (forall i :: i in s.members && i != id ==> s'.members[i] == s.members[i])
      && s'.members[id].hand == Some(Hand(place, Resolved))
      && s'.confirmed == s.confirmed + (set letter | letter in Acknowledged(reports))
      && s'.handed == s.handed + {place} && s'.accepted == s.accepted
      && forall maxAttempts :: Next(s, ParkMessage(id, reports), maxAttempts) == s'
  {
  }

  lemma AfterCommit(s: State, id: nat, maxAttempts: int)
    requires Enabled(s, CommitOffset(id))
    ensures
      var s', place := Next(s, CommitOffset(id), maxAttempts), s.members[id].hand.value.place;
      && s'.log == s.log && s'.low == s.low && s'.applied == s.applied
      && s'.committed == s.committed[place.partition := place.offset + 1]
      && s'.members.Keys == s.members.Keys && (forall i :: i in s.members && i != id ==> s'.members[i] == s.members[i])
      && s'.confirmed == s.confirmed && s'.handed == s.handed && s'.accepted == s.accepted
  {
  }

  /** What the last turn leaves behind. */
  predicate IsAfterTurn(s: State, s': State, place: Place, acknowledged: set<Place>)
    requires place.partition < |s.committed|
  {
    && s'.log == s.log && s'.low == s.low && s'.applied == s.applied
    && s'.committed == s.committed[place.partition := place.offset + 1]
    && s'.confirmed == s.confirmed + acknowledged && s'.handed == s.handed + {place} && s'.accepted == s.accepted
  }

  lemma ParkedHandIsInTheLog(s: State, id: nat, reports: seq<Report<Place>>)
    requires Inv(s) && Enabled(s, ParkMessage(id, reports))
    ensures s.members[id].hand.value.place.partition < |s.log| == |s.committed|
  {
    assert MemberIsSound(s, s.members[id]);
  }

  lemma ParkThenCommit(s: State, id: nat, reports: seq<Report<Place>>, maxAttempts: int)
    requires Enabled(s, ParkMessage(id, reports)) && s.members[id].hand.value.place.partition < |s.log|
    ensures Enabled(Next(s, ParkMessage(id, reports), maxAttempts), CommitOffset(id))
  {
  }

  lemma CommitThenCrash(s: State, id: nat, maxAttempts: int)
    requires Enabled(s, CommitOffset(id))
    ensures Enabled(Next(s, CommitOffset(id), maxAttempts), Crash(id))
  {
  }

  lemma AfterCrash(s: State, id: nat, maxAttempts: int)
    requires Enabled(s, Crash(id))
    ensures Next(s, Crash(id), maxAttempts) == s.(members := s.members - {id})
  {
  }

  lemma AfterTheLastTurn(s: State, id: nat, reports: seq<Report<Place>>, maxAttempts: int)
    requires Inv(s) && Enabled(s, ParkMessage(id, reports))
    ensures s.members[id].hand.value.place.partition < |s.committed|
    ensures
      var s' := Execute(s, LastTurn(id, reports), maxAttempts);
      && s'.members.Keys == s.members.Keys - {id}
      && IsAfterTurn(s, s', s.members[id].hand.value.place, set letter | letter in Acknowledged(reports))
  {
    var s1 := Next(s, ParkMessage(id, reports), maxAttempts);
    ParkedHandIsInTheLog(s, id, reports);
    ParkThenCommit(s, id, reports, maxAttempts);
    CommitThenCrash(s1, id, maxAttempts);
    AfterPark(s, id, reports);
    AfterCommit(s1, id, maxAttempts);
    AfterCrash(Next(s1, CommitOffset(id), maxAttempts), id, maxAttempts);
    ExecuteThree(s, ParkMessage(id, reports), CommitOffset(id), Crash(id), maxAttempts);
  }

  /** The message is durable afterwards if it was before or its letter is acknowledged. */
  lemma DurableAfterTurn(s: State, s': State, place: Place, acknowledged: set<Place>)
    requires place.partition < |s.committed| && IsAfterTurn(s, s', place, acknowledged)
    ensures Durable(s', place) <==> Durable(s, place) || place in acknowledged
    ensures IsCommitted(s', place) && (IsExpired(s', place) <==> IsExpired(s, place))
  {
  }

  /** One more turn from a state in which all letters are settled. */
  lemma LastTurnDecides(s: State, id: nat, reports: seq<Report<Place>>, maxAttempts: int)
    requires Inv(s) && LettersAreSettled(s) && Enabled(s, ParkMessage(id, reports))
    requires !IsExpired(s, s.members[id].hand.value.place)
    ensures
      CommittedAreDurable(Execute(s, LastTurn(id, reports), maxAttempts))
      <==> ParkIsClean(s, ParkMessage(id, reports), maxAttempts) || Durable(s, s.members[id].hand.value.place)
  {
    var place := s.members[id].hand.value.place;
    CleanMeansAcknowledged(s, id, reports, maxAttempts);
    AfterTheLastTurn(s, id, reports, maxAttempts);
    RunKeepsInv(s, LastTurn(id, reports), maxAttempts);
    DurableAfterTurn(s, Execute(s, LastTurn(id, reports), maxAttempts), place,
        set letter | letter in Acknowledged(reports));
    if Durable(Execute(s, LastTurn(id, reports), maxAttempts), place) {
      OneMoreIsDurable(s, Execute(s, LastTurn(id, reports), maxAttempts), place);
    }
  }

  lemma OneMoreIsDurable(s: State, s': State, place: Place)
    requires s.handed <= s.confirmed && s.confirmed <= s'.confirmed
    requires Inv(s') && s'.handed == s.handed + {place} && Durable(s', place)
    ensures CommittedAreDurable(s')
  {
    forall other | IsCommitted(s', other) && !IsExpired(s', other) ensures Durable(s', other) {
      CommittedPlaceIsResolved(s', other);
    }
  }

  /** And a clean flush is what it takes. After any run with clean flushes only, let a process park one more
      retained message, commit it and end: then everything committed is durable if and only if that flush
      was clean too, or the message was durable already. It is unclean in two ways: the flush leaves the
      letter waiting, or it returns zero and the broker has refused the letter. */
  lemma CleanFlushIsWhatItTakes(partitions: nat, rows: Rows, steps: seq<Step>, maxAttempts: int,
                                id: nat, reports: seq<Report<Place>>)
    requires EveryParkIsClean(Initial(partitions, rows), steps, maxAttempts)
    requires
      var s := Execute(Initial(partitions, rows), steps, maxAttempts);
      Enabled(s, ParkMessage(id, reports)) && !IsExpired(s, s.members[id].hand.value.place)
    ensures
      var s := Execute(Initial(partitions, rows), steps, maxAttempts);
      CommittedAreDurable(Execute(s, LastTurn(id, reports), maxAttempts))
      <==> ParkIsClean(s, ParkMessage(id, reports), maxAttempts) || Durable(s, s.members[id].hand.value.place)
  {
    InitiallySound(partitions, rows);
    RunKeepsInv(Initial(partitions, rows), steps, maxAttempts);
    CleanRunIsSettled(Initial(partitions, rows), steps, maxAttempts);
    LastTurnDecides(Execute(Initial(partitions, rows), steps, maxAttempts), id, reports, maxAttempts);
  }

  lemma {:induction false} ExecuteConcat(s: State, steps: seq<Step>, later: seq<Step>, maxAttempts: int)
    ensures Execute(s, steps + later, maxAttempts) == Execute(Execute(s, steps, maxAttempts), later, maxAttempts)
    decreases |later|
  {
    if later == [] {
      assert steps + later == steps;
    } else {
      assert (steps + later)[..|steps + later| - 1] == steps + later[..|later| - 1];
      ExecuteConcat(s, steps, later[..|later| - 1], maxAttempts);
    }
  }

  function ReadOne(payload: Payload<Event>): seq<Step> {
    [Produce(0, payload), Join(0), Assign(0, 0), Poll(0, 0)]
  }

  /** The reports of a flush that ends with nothing left but a refused letter, or with the letter left. */
  function BadReports(refused: bool): seq<Report<Place>> {
    if refused then [Report(Place(0, 0), false)] else []
  }

  /** The states of a process that reads the first record. */
  function ReadingAt(n: nat, payload: Payload<Event>): State {
    State(
      if n == 0 then [[]] else [[payload]], [0], [0],
      if n <= 1 then map[]
      else if n == 2 then map[0 := FRESH]
      else if n == 3 then map[0 := FRESH.(positions := map[0 := 0])]
      else map[0 := FRESH.(positions := map[0 := 1], hand := Some(Hand(Place(0, 0), Parking)))],
      {}, {}, {}, map[], [], map[])
  }

  /** The fourth step depends on the record; here it does not decode. */
  lemma ReadingStep(n: nat, payload: Payload<Event>, maxAttempts: int)
    requires n < 4 && (n == 3 ==> payload.Undecodable?)
    ensures Enabled(ReadingAt(n, payload), ReadOne(payload)[n])
    ensures Next(ReadingAt(n, payload), ReadOne(payload)[n], maxAttempts) == ReadingAt(n + 1, payload)
  {
    if n == 0 {
      var empty: seq<Payload<Event>> := [];
      var one: seq<Payload<Event>> := [payload];
      assert empty + [payload] == one;
      assert [empty][0 := one] == [one];
    } else if n == 3 {
      assert map[0 := 0][0 := 1] == map[0 := 1];
    }
  }

  lemma {:induction false} ReadingRun(n: nat, payload: Payload<Event>, maxAttempts: int)
    requires n <= 4 && (n == 4 ==> payload.Undecodable?)
    ensures Execute(Initial(1, map[]), ReadOne(payload)[..n], maxAttempts) == ReadingAt(n, payload)
  {
    if n == 0 {
      assert Initial(1, map[]) == ReadingAt(0, payload);
    } else {
      ReadingRun(n - 1, payload, maxAttempts);
      ReadingStep(n - 1, payload, maxAttempts);
      assert ReadOne(payload)[..n][..n - 1] == ReadOne(payload)[..n - 1];
    }
  }

  lemma BadFlush(refused: bool, maxAttempts: int)
    ensures
      var read, reports := ReadingAt(4, Undecodable), BadReports(refused);
      && Enabled(read, ParkMessage(0, reports)) && Acknowledged(reports) == multiset{}
      && |Next(read, ParkMessage(0, reports), maxAttempts).members[0].waiting| == (if refused then 0 else 1)
  {
    var read, reports := ReadingAt(4, Undecodable), BadReports(refused);
    var queue := read.members[0].waiting + multiset{Place(0, 0)};
    assert queue == multiset{Place(0, 0)};
    if refused {
      assert reports[1..] == [];
      assert Reported(reports) == multiset{Place(0, 0)} + multiset{};
      assert queue - Reported(reports) == multiset{};
    } else {
      assert queue - Reported(reports) == queue;
    }
  }

  /** Both ways of losing a committed letter are reachable: the flush leaves it waiting, or the flush
      returns zero after the broker has refused it. No process is left that remembers it. */
  lemma UnconfirmedLettersAreCommitted(maxAttempts: int, refused: bool)
    ensures
      var read := Execute(Initial(1, map[]), ReadOne(Undecodable), maxAttempts);
      var park := ParkMessage(0, BadReports(refused));
      var s := Execute(Initial(1, map[]), ReadOne(Undecodable) + LastTurn(0, BadReports(refused)), maxAttempts);
      && Enabled(read, park)
      && |Next(read, park, maxAttempts).members[0].waiting| == (if refused then 0 else 1)
      && IsCommitted(s, Place(0, 0)) && !IsExpired(s, Place(0, 0)) && s.members == map[]
      && Exists(s, Place(0, 0)) && !Durable(s, Place(0, 0))
  {
    ReadingRun(4, Undecodable, maxAttempts);
    assert ReadOne(Undecodable)[..4] == ReadOne(Undecodable);
    var read := ReadingAt(4, Undecodable);
    InitiallySound(1, map[]);
    RunKeepsInv(Initial(1, map[]), ReadOne(Undecodable), maxAttempts);
    BadFlush(refused, maxAttempts);
    AfterTheLastTurn(read, 0, BadReports(refused), maxAttempts);
    ExecuteConcat(Initial(1, map[]), ReadOne(Undecodable), LastTurn(0, BadReports(refused)), maxAttempts);
  }
}
