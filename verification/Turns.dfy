/**
 The loop of one process as steps of the consumer group, and what can hold up the queue: which records a
 turn gets past, for whatever the service, the dead-letter producer and the broker answer.
 */
module Turns {
  import opened Collections
  import opened Reports
  import opened Delivery
  import opened Subscriptions
  import opened ConsumerGroup
  import C = Consumer

  /** What the client's poll returned and the environment did during the turn: the times at which the database
      applied the calls, and the delivery reports that came in during the flush of `park`. */
  datatype Answer = Answer(poll: C.Poll<Event>, times: seq<int>, reports: seq<Report<Place>>)

  function PlaceOf(a: Answer): Place
    requires a.poll.Message?
  {
    Place(a.poll.partition, a.poll.offset)
  }

  function CommitSteps(id: nat, a: Answer): seq<Step>
    requires a.poll.Message?
  {
    [if a.poll.commitFails then Crash(id) else CommitOffset(id)]
  }

  function ParkSteps(id: nat, a: Answer): seq<Step>
    requires a.poll.Message?
  {
    if a.poll.queueFull then [Crash(id)] else [ParkMessage(id, a.reports)] + CommitSteps(id, a)
  }

  function ResolutionSteps(id: nat, a: Answer, last: Verdict): seq<Step>
    requires a.poll.Message?
  {
    match last
    case Accepted => CommitSteps(id, a)
    case Unexpected => []
    case _ => ParkSteps(id, a)
  }

  function LastVerdict(a: Answer, maxAttempts: int): Verdict
    requires a.poll.Message? && 1 <= maxAttempts <= |a.poll.calls|
  {
    Judge(a.poll.calls[CallsMade(a.poll.calls, maxAttempts) - 1].http)
  }

  /** What follows the poll in one turn. */
  function HandlingSteps(id: nat, a: Answer, maxAttempts: int): seq<Step>
    requires a.poll.Message? && 1 <= maxAttempts <= |a.poll.calls| == |a.times|
  {
    match a.poll.payload
    case Tombstone => []
    case Undecodable => ParkSteps(id, a)
    case Decodable(_) =>
      CallSteps(id, a.poll.calls, a.times, CallsMade(a.poll.calls, maxAttempts))
      + ResolutionSteps(id, a, LastVerdict(a, maxAttempts))
  }

  function TurnSteps(id: nat, a: Answer, maxAttempts: int): seq<Step>
    requires a.poll.Message? && 1 <= maxAttempts <= |a.poll.calls| == |a.times|
  {
    [Poll(id, a.poll.partition)] + HandlingSteps(id, a, maxAttempts)
  }

  /** The answer is one this process can get here. */
  ghost predicate Fits(s: State, id: nat, a: Answer, maxAttempts: int) {
    && a.poll.Message? && Enabled(s, Poll(id, a.poll.partition))
    && a.poll.offset == NextOffset(s, id, a.poll.partition) && a.poll.payload == PayloadAt(s, PlaceOf(a))
    && 1 <= maxAttempts <= |a.poll.calls| == |a.times| && SuccessIsApplied(a.poll.calls)
    && IsReportable(a.reports, s.members[id].waiting + multiset{PlaceOf(a)})
  }

  /******* What the effects of a process amount to *******/

  function AcceptedIn(effects: seq<C.Effect>): set<Place> {
    set e | e in effects && e.AcceptedByService? :: Place(e.partition, e.offset)
  }

  function HandedIn(effects: seq<C.Effect>): set<Place> {
    set e | e in effects && e.HandedToDlq? :: Place(e.partition, e.offset)
  }

  function CommittedBy(committed: seq<nat>, effects: seq<C.Effect>): seq<nat> {
    if effects == [] then committed else
      var before, e := CommittedBy(committed, effects[..|effects| - 1]), effects[|effects| - 1];
      if e.Committed? && e.partition < |before| then before[e.partition := e.offset + 1] else before
  }

  predicate IsAfter(s: State, s': State, effects: seq<C.Effect>) {
    && s'.log == s.log && s'.low == s.low
    && s'.accepted == s.accepted + AcceptedIn(effects) && s'.handed == s.handed + HandedIn(effects)
    && s'.committed == CommittedBy(s.committed, effects)
  }

  lemma {:induction false} CommittedByConcat(committed: seq<nat>, a: seq<C.Effect>, b: seq<C.Effect>)
    ensures CommittedBy(committed, a + b) == CommittedBy(CommittedBy(committed, a), b)
    decreases |b|
  {
    if b == [] {
      assert a + b == a;
    } else {
      assert (a + b)[..|a + b| - 1] == a + b[..|b| - 1];
      CommittedByConcat(committed, a, b[..|b| - 1]);
    }
  }

  lemma IsAfterBoth(s: State, s1: State, s2: State, a: seq<C.Effect>, b: seq<C.Effect>)
    requires IsAfter(s, s1, a) && IsAfter(s1, s2, b)
    ensures IsAfter(s, s2, a + b)
  {
    CommittedByConcat(s.committed, a, b);
    assert AcceptedIn(a + b) == AcceptedIn(a) + AcceptedIn(b);
    assert HandedIn(a + b) == HandedIn(a) + HandedIn(b);
  }

  lemma NothingDone(s: State)
    ensures IsAfter(s, s, [])
  {
    assert AcceptedIn([]) == {} && HandedIn([]) == {};
  }

  /** Which parts of the state one turn can change, without a word about processes. */
  predicate IsAfterTurnOf(s: State, s': State, place: Place, accepted: bool, handed: bool, committed: bool) {
    && s'.log == s.log && s'.low == s.low && place.partition < |s.committed|
    && s'.accepted == s.accepted + (if accepted then {place} else {})
    && s'.handed == s.handed + (if handed then {place} else {})
    && s'.committed == if committed then s.committed[place.partition := place.offset + 1] else s.committed
  }

  lemma EffectsOfTurn(s: State, s': State, a: Answer, maxAttempts: int)
    requires a.poll.Message? && 1 <= maxAttempts <= |a.poll.calls|
    requires
      var r := C.ResolutionOf(a.poll, maxAttempts);
      IsAfterTurnOf(s, s', PlaceOf(a), r.Some? && r.value.AcceptedByService?, r.Some? && r.value.HandedToDlq?,
                    C.GoesOn(a.poll, maxAttempts))
    ensures IsAfter(s, s', C.TurnOf(a.poll, maxAttempts))
  {
    var received, done := C.Received(a.poll.partition, a.poll.offset), C.Committed(a.poll.partition, a.poll.offset);
    OtherEffect(s, received);
    match C.ResolutionOf(a.poll, maxAttempts)
    case None =>
      assert C.TurnOf(a.poll, maxAttempts) == [received];
    case Some(e) =>
      OtherEffect(s, e);
      IsAfterBoth(s, s, WithResolution(s, e), [received], [e]);
      if a.poll.commitFails {
        assert C.TurnOf(a.poll, maxAttempts) == [received] + [e];
      } else {
        CommitEffect(WithResolution(s, e), a.poll.partition, a.poll.offset);
        IsAfterBoth(s, WithResolution(s, e), s', [received] + [e], [done]);
        assert C.TurnOf(a.poll, maxAttempts) == [received] + [e] + [done];
      }
  }

  function WithResolution(s: State, e: C.Effect): State {
    match e
    case AcceptedByService(p, o) => s.(accepted := s.accepted + {Place(p, o)})
    case HandedToDlq(p, o) => s.(handed := s.handed + {Place(p, o)})
    case _ => s
  }

  lemma OtherEffect(s: State, e: C.Effect)
    requires !e.Committed?
    ensures IsAfter(s, WithResolution(s, e), [e])
  {
    assert [e][..0] == [] && e in [e];
    assert AcceptedIn([e]) == if e.AcceptedByService? then {Place(e.partition, e.offset)} else {};
    assert HandedIn([e]) == if e.HandedToDlq? then {Place(e.partition, e.offset)} else {};
  }

  lemma CommitEffect(s: State, p: nat, o: nat)
    requires p < |s.committed|
    ensures IsAfter(s, s.(committed := s.committed[p := o + 1]), [C.Committed(p, o)])
  {
    assert [C.Committed(p, o)][..0] == [];
    assert AcceptedIn([C.Committed(p, o)]) == {} && HandedIn([C.Committed(p, o)]) == {};
  }

  /******* One turn *******/

  /** The process holds this message in this stage; nothing else has happened. */
  predicate Holds(s: State, s1: State, id: nat, place: Place, stage: Stage) {
    && SameElsewhere(s, s1) && s1.accepted == s.accepted && Shaped(s1) && Exists(s1, place)
    && HasHand(s1, id) && s1.members[id].hand.value == Hand(place, stage)
  }

  lemma PollRun(s: State, id: nat, p: nat, maxAttempts: int)
    requires Enabled(s, Poll(id, p)) && !s.log[p][NextOffset(s, id, p)].Tombstone?
    ensures
      var s1, o := Execute(s, [Poll(id, p)], maxAttempts), NextOffset(s, id, p);
      && Holds(s, s1, id, Place(p, o), if s.log[p][o].Decodable? then Calling(1) else Parking)
      && s1.members[id].waiting == s.members[id].waiting
      && p in s1.members[id].positions && s1.members[id].positions[p] == o + 1
  {
    ExecuteOne(s, Poll(id, p), maxAttempts);
    PollTakesHand(s, id, p);
  }

  lemma TombstoneRun(s: State, id: nat, p: nat, maxAttempts: int)
    requires Enabled(s, Poll(id, p)) && s.log[p][NextOffset(s, id, p)].Tombstone?
    ensures
      var s1, o := Execute(s, [Poll(id, p)], maxAttempts), NextOffset(s, id, p);
      IsAfterTurnOf(s, s1, Place(p, o), false, false, false)
  {
    ExecuteOne(s, Poll(id, p), maxAttempts);
  }

  /** Ready to poll again, from where it was reading. */
  predicate GoesOnReading(s: State, s': State, id: nat) {
    && id in s.members && id in s'.members && s'.members[id].hand.None?
    && s'.members[id].positions == s.members[id].positions
  }

  lemma CrashRun(s: State, id: nat, place: Place, maxAttempts: int)
    requires Shaped(s) && id in s.members && place.partition < |s.log|
    ensures IsAfterTurnOf(s, Execute(s, [Crash(id)], maxAttempts), place, false, false, false)
  {
    ExecuteOne(s, Crash(id), maxAttempts);
  }

  /** The message in hand, in this stage. */
  predicate IsHolding(s: State, id: nat, place: Place, stage: Stage) {
    && Shaped(s) && HasHand(s, id) && s.members[id].hand.value == Hand(place, stage) && place.partition < |s.log|
  }

  lemma CommitRun(s: State, id: nat, a: Answer, maxAttempts: int)
    requires a.poll.Message? && IsHolding(s, id, PlaceOf(a), Resolved)
    ensures
      var s' := Execute(s, CommitSteps(id, a), maxAttempts);
      && IsAfterTurnOf(s, s', PlaceOf(a), false, false, !a.poll.commitFails)
      && (!a.poll.commitFails ==> GoesOnReading(s, s', id))
  {
    if a.poll.commitFails {
      CrashRun(s, id, PlaceOf(a), maxAttempts);
    } else {
      ExecuteOne(s, CommitOffset(id), maxAttempts);
    }
  }

  lemma ParkedRun(s: State, id: nat, a: Answer, maxAttempts: int)
    requires a.poll.Message? && IsHolding(s, id, PlaceOf(a), Parking)
    requires IsReportable(a.reports, s.members[id].waiting + multiset{PlaceOf(a)})
    ensures
      var s' := Execute(s, [ParkMessage(id, a.reports)], maxAttempts);
      && IsAfterTurnOf(s, s', PlaceOf(a), false, true, false) && IsHolding(s', id, PlaceOf(a), Resolved)
      && s'.members[id].positions == s.members[id].positions
  {
    ExecuteOne(s, ParkMessage(id, a.reports), maxAttempts);
    AfterPark(s, id, a.reports);
  }

  lemma BothParts(s: State, s1: State, s2: State, place: Place, accepted: bool, handed: bool, handed2: bool,
                  committed: bool)
    requires IsAfterTurnOf(s, s1, place, accepted, handed, false)
    requires IsAfterTurnOf(s1, s2, place, false, handed2, committed)
    ensures IsAfterTurnOf(s, s2, place, accepted, handed || handed2, committed)
  {
  }

  lemma ParkRun(s: State, id: nat, a: Answer, maxAttempts: int)
    requires a.poll.Message? && IsHolding(s, id, PlaceOf(a), Parking)
    requires IsReportable(a.reports, s.members[id].waiting + multiset{PlaceOf(a)})
    ensures
      var s', goesOn := Execute(s, ParkSteps(id, a), maxAttempts), !a.poll.queueFull && !a.poll.commitFails;
      && IsAfterTurnOf(s, s', PlaceOf(a), false, !a.poll.queueFull, goesOn)
      && (goesOn ==> GoesOnReading(s, s', id))
  {
    if a.poll.queueFull {
      CrashRun(s, id, PlaceOf(a), maxAttempts);
    } else {
      var park := [ParkMessage(id, a.reports)];
      var s1 := Execute(s, park, maxAttempts);
      ParkedRun(s, id, a, maxAttempts);
      CommitRun(s1, id, a, maxAttempts);
      ExecuteConcat(s, park, CommitSteps(id, a), maxAttempts);
      BothParts(s, s1, Execute(s1, CommitSteps(id, a), maxAttempts), PlaceOf(a), false, true, false,
                !a.poll.commitFails);
    }
  }

  /** What follows the last answer of the service. */
  lemma ResolutionRun(s: State, s2: State, id: nat, a: Answer, last: Verdict, maxAttempts: int)
    requires a.poll.Message? && Shaped(s) && PlaceOf(a).partition < |s.log| && id in s.members
    requires IsDelivered(s, s2, id, PlaceOf(a), last)
    requires IsReportable(a.reports, s.members[id].waiting + multiset{PlaceOf(a)})
    ensures
      var s' := Execute(s2, ResolutionSteps(id, a, last), maxAttempts);
      var handed := last != Delivery.Accepted && last != Unexpected && !a.poll.queueFull;
      var goesOn := (last == Delivery.Accepted || handed) && !a.poll.commitFails;
      && IsAfterTurnOf(s, s', PlaceOf(a), last == Delivery.Accepted, handed, goesOn)
      && (goesOn ==> GoesOnReading(s, s', id))
  {
    var s' := Execute(s2, ResolutionSteps(id, a, last), maxAttempts);
    if last == Delivery.Accepted {
      CommitRun(s2, id, a, maxAttempts);
      BothParts(s, s2, s', PlaceOf(a), true, false, false, !a.poll.commitFails);
    } else if last != Unexpected {
      ParkRun(s2, id, a, maxAttempts);
      BothParts(s, s2, s', PlaceOf(a), false, false, !a.poll.queueFull, !a.poll.queueFull && !a.poll.commitFails);
    }
  }

  lemma DecodableRun(s: State, id: nat, a: Answer, maxAttempts: int)
    requires a.poll.Message? && 1 <= maxAttempts <= |a.poll.calls| == |a.times| && SuccessIsApplied(a.poll.calls)
    requires a.poll.payload.Decodable? && IsCalling(s, id, PlaceOf(a), 1)
    requires IsReportable(a.reports, s.members[id].waiting + multiset{PlaceOf(a)})
    ensures
      var s', last := Execute(s, HandlingSteps(id, a, maxAttempts), maxAttempts), LastVerdict(a, maxAttempts);
      var handed := last != Delivery.Accepted && last != Unexpected && !a.poll.queueFull;
      var goesOn := (last == Delivery.Accepted || handed) && !a.poll.commitFails;
      && IsAfterTurnOf(s, s', PlaceOf(a), last == Delivery.Accepted, handed, goesOn)
      && (goesOn ==> GoesOnReading(s, s', id))
  {
    var n, last := CallsMade(a.poll.calls, maxAttempts), LastVerdict(a, maxAttempts);
    var calls := CallSteps(id, a.poll.calls, a.times, n);
    DeliverRun(s, id, PlaceOf(a), n, a.poll.calls, a.times, maxAttempts);
    ResolutionRun(s, Execute(s, calls, maxAttempts), id, a, last, maxAttempts);
    ExecuteConcat(s, calls, ResolutionSteps(id, a, last), maxAttempts);
  }

  /** Where a turn that goes well leaves the process. */
  predicate IsNext(s: State, id: nat, place: Place) {
    && id in s.members && s.members[id].hand.None?
    && place.partition in s.members[id].positions && s.members[id].positions[place.partition] == place.offset + 1
  }

  lemma AfterPoll(s: State, s1: State, s2: State, id: nat, place: Place, stage: Stage, accepted: bool, handed: bool,
                  committed: bool)
    requires Holds(s, s1, id, place, stage) && IsAfterTurnOf(s1, s2, place, accepted, handed, committed)
    ensures IsAfterTurnOf(s, s2, place, accepted, handed, committed)
  {
  }

  lemma TurnRun(s: State, id: nat, a: Answer, maxAttempts: int)
    requires Fits(s, id, a, maxAttempts)
    ensures
      var s' := Execute(s, TurnSteps(id, a, maxAttempts), maxAttempts);
      var r := C.ResolutionOf(a.poll, maxAttempts);
      && IsAfterTurnOf(s, s', PlaceOf(a), r.Some? && r.value.AcceptedByService?, r.Some? && r.value.HandedToDlq?,
                       C.GoesOn(a.poll, maxAttempts))
      && (C.GoesOn(a.poll, maxAttempts) ==> IsNext(s', id, PlaceOf(a)))
  {
    var p, poll := a.poll.partition, [Poll(id, a.poll.partition)];
    var s1, r := Execute(s, poll, maxAttempts), C.ResolutionOf(a.poll, maxAttempts);
    var s' := Execute(s1, HandlingSteps(id, a, maxAttempts), maxAttempts);
    ExecuteConcat(s, poll, HandlingSteps(id, a, maxAttempts), maxAttempts);
    if a.poll.payload.Tombstone? {
      TombstoneRun(s, id, p, maxAttempts);
    } else {
      PollRun(s, id, p, maxAttempts);
      if a.poll.payload.Decodable? {
        DecodableRun(s1, id, a, maxAttempts);
        AfterPoll(s, s1, s', id, PlaceOf(a), Calling(1), r.Some? && r.value.AcceptedByService?,
                  r.Some? && r.value.HandedToDlq?, C.GoesOn(a.poll, maxAttempts));
      } else {
        ParkRun(s1, id, a, maxAttempts);
        AfterPoll(s, s1, s', id, PlaceOf(a), Parking, false, !a.poll.queueFull, C.GoesOn(a.poll, maxAttempts));
      }
    }
  }

  /** A turn of the loop is a run of the consumer group: what the process notes in its effects is what happens
      to the accepted and parked messages and to the committed offsets. */
  lemma TurnIsARun(s: State, id: nat, a: Answer, maxAttempts: int)
    requires Fits(s, id, a, maxAttempts)
    ensures
      var s' := Execute(s, TurnSteps(id, a, maxAttempts), maxAttempts);
      && IsAfter(s, s', C.TurnOf(a.poll, maxAttempts))
      && (C.GoesOn(a.poll, maxAttempts) ==> IsNext(s', id, PlaceOf(a)))
  {
    TurnRun(s, id, a, maxAttempts);
    EffectsOfTurn(s, Execute(s, TurnSteps(id, a, maxAttempts), maxAttempts), a, maxAttempts);
  }

  /******* Whole loops *******/

  function PollsOf(answers: seq<Answer>): (polls: seq<C.Poll<Event>>) {
    seq(|answers|, i requires 0 <= i < |answers| => answers[i].poll)
  }

  /** One round of the loop, unless an earlier one has ended the process. */
  ghost predicate IsRound(s: State, s': State, id: nat, answers: seq<Answer>, i: nat, maxAttempts: int)
    requires C.EnoughAnswers(PollsOf(answers), maxAttempts) && i < |answers|
  {
    if answers[i].poll.Message? && C.AllGoOn(PollsOf(answers), i, maxAttempts) then
      Fits(s, id, answers[i], maxAttempts) && s' == Execute(s, TurnSteps(id, answers[i], maxAttempts), maxAttempts)
    else s' == s
  }

  /** The loop of one process from state to state, as long as no other one comes in between. */
  lemma {:induction false} LoopIsARun(states: seq<State>, id: nat, answers: seq<Answer>, n: nat, maxAttempts: int)
    requires C.EnoughAnswers(PollsOf(answers), maxAttempts) && n <= |answers| && |states| == |answers| + 1
    requires forall i :: 0 <= i < n ==> IsRound(states[i], states[i + 1], id, answers, i, maxAttempts)
    ensures IsAfter(states[0], states[n], C.LoopOf(PollsOf(answers), n, maxAttempts))
    decreases n
  {
    if n == 0 {
      NothingDone(states[0]);
    } else {
      LoopIsARun(states, id, answers, n - 1, maxAttempts);
      NothingDone(states[n - 1]);
      assert IsRound(states[n - 1], states[n], id, answers, n - 1, maxAttempts);
      var before, polls := C.LoopOf(PollsOf(answers), n - 1, maxAttempts), PollsOf(answers);
      if C.AllGoOn(polls, n - 1, maxAttempts) {
        if answers[n - 1].poll.Message? {
          TurnIsARun(states[n - 1], id, answers[n - 1], maxAttempts);
        }
        IsAfterBoth(states[0], states[n - 1], states[n], before, C.TurnOf(answers[n - 1].poll, maxAttempts));
      } else {
        assert before + [] == before;
      }
    }
  }

  /******* What holds up the queue *******/

  /** One turn commits the message it reads exactly if none of its calls raises: that is, with room in the
      dead-letter queue and a broker that takes the commit, exactly if the record has a value and, if it
      decodes, the last answer of the service was not a success with an unreadable body. Refusals, timeouts
      and server errors of any number do not hold up the queue, and neither do bytes that do not decode. */
  lemma ATurnCommitsUnlessItRaises(s: State, id: nat, a: Answer, maxAttempts: int)
    requires Fits(s, id, a, maxAttempts)
    ensures
      var s' := Execute(s, TurnSteps(id, a, maxAttempts), maxAttempts);
      && (IsCommitted(s', PlaceOf(a)) <==> C.GoesOn(a.poll, maxAttempts) || IsCommitted(s, PlaceOf(a)))
      && s'.committed
         == if C.GoesOn(a.poll, maxAttempts) then s.committed[a.poll.partition := a.poll.offset + 1] else s.committed
    ensures
      !a.poll.queueFull && !a.poll.commitFails ==>
        (C.GoesOn(a.poll, maxAttempts) <==>
         || a.poll.payload.Undecodable?
         || (a.poll.payload.Decodable? && !IsUnreadable(a.poll.calls[CallsMade(a.poll.calls, maxAttempts) - 1].http)))
  {
    TurnRun(s, id, a, maxAttempts);
  }

  /** A tombstone is never committed, by any process, as long as it is retained. */
  lemma TombstonesAreNeverCommitted(s: State, maxAttempts: int, place: Place)
    requires Reachable(s, maxAttempts)
    requires Exists(s, place) && PayloadAt(s, place).Tombstone? && !IsExpired(s, place)
    ensures !IsCommitted(s, place)
  {
    if IsCommitted(s, place) {
      CommittedOffsetsAreResolved(s, maxAttempts, place);
      ReachableIsSound(s, maxAttempts);
    }
  }

  predicate NothingExpires(steps: seq<Step>) {
    forall i :: 0 <= i < |steps| ==> !steps[i].Expire?
  }

  lemma {:induction false} RetainedStaysRetained(s: State, steps: seq<Step>, maxAttempts: int)
    requires Inv(s) && NothingExpires(steps)
    ensures
      var s' := Execute(s, steps, maxAttempts);
      s'.low == s.low && |s'.log| == |s.log| && forall p :: 0 <= p < |s.log| ==> s.log[p] <= s'.log[p]
    decreases |steps|
  {
    if steps != [] {
      RetainedStaysRetained(s, steps[..|steps| - 1], maxAttempts);
      var s' := Execute(s, steps[..|steps| - 1], maxAttempts);
      if Enabled(s', steps[|steps| - 1]) {
        NextGrows(s', steps[|steps| - 1], maxAttempts);
      }
    }
  }

  /** What the environment can do for a record: the service answers 200 at once, and nothing fails. */
  function GoodAnswer(place: Place, payload: C.Payload<Event>, maxAttempts: nat): Answer {
    var calls := seq(maxAttempts, _ => Call(Status(200, true), true));
    Answer(C.Message(place.partition, place.offset, payload, calls, false, false), seq(maxAttempts, _ => 0), [])
  }

  lemma {:induction false} CallsExpireNothing(id: nat, calls: seq<Call>, times: seq<int>, n: nat)
    requires n <= |calls| && n <= |times|
    ensures NothingExpires(CallSteps(id, calls, times, n))
    decreases n
  {
    if n > 0 {
      CallsExpireNothing(id, calls, times, n - 1);
    }
  }

  lemma TurnsExpireNothing(id: nat, a: Answer, maxAttempts: int)
    requires a.poll.Message? && 1 <= maxAttempts <= |a.poll.calls| == |a.times|
    ensures NothingExpires(TurnSteps(id, a, maxAttempts))
  {
    CallsExpireNothing(id, a.poll.calls, a.times, CallsMade(a.poll.calls, maxAttempts));
  }

  /** Whatever the service answers, a tombstone holds up the queue, and it is the only kind of record to do so:
      from any reachable state in which a process is about to read a record, some continuation commits it
      exactly if the record has a value. */
  lemma OnlyTombstonesHoldUpTheQueue(s: State, maxAttempts: int, id: nat, p: nat)
    requires Reachable(s, maxAttempts) && Enabled(s, Poll(id, p)) && 1 <= maxAttempts
    ensures
      var place := Place(p, NextOffset(s, id, p));
      (exists later :: NothingExpires(later) && IsCommitted(Execute(s, later, maxAttempts), place))
      <==> !PayloadAt(s, place).Tombstone?
  {
    ReachableIsSound(s, maxAttempts);
    var place := Place(p, NextOffset(s, id, p));
    if !PayloadAt(s, place).Tombstone? {
      var a := GoodAnswer(place, PayloadAt(s, place), maxAttempts);
      ATurnCommitsUnlessItRaises(s, id, a, maxAttempts);
      TurnsExpireNothing(id, a, maxAttempts);
    } else {
      forall later | NothingExpires(later) ensures !IsCommitted(Execute(s, later, maxAttempts), place) {
        TombstoneStays(s, later, maxAttempts, place);
      }
    }
  }

  lemma TombstoneStays(s: State, later: seq<Step>, maxAttempts: int, place: Place)
    requires Inv(s) && NothingExpires(later)
    requires Exists(s, place) && PayloadAt(s, place).Tombstone? && !IsExpired(s, place)
    ensures !IsCommitted(Execute(s, later, maxAttempts), place)
  {
    RunKeepsInv(s, later, maxAttempts);
    RetainedStaysRetained(s, later, maxAttempts);
    var s' := Execute(s, later, maxAttempts);
    if IsCommitted(s', place) {
      CommittedPlaceIsResolved(s', place);
    }
  }

  /******* Answers that cannot be read *******/

  ghost predicate IsUnreadableFor(s: State, step: Step, place: Place)
    requires Enabled(s, step)
  {
    step.CallService? && s.members[step.id].hand.value.place == place ==> IsUnreadable(step.call.http)
  }

  /** In this run every answer about this record is a success whose body cannot be read. */
  ghost predicate EveryAnswerIsUnreadable(s: State, steps: seq<Step>, maxAttempts: int, place: Place) {
    steps != [] ==>
      && EveryAnswerIsUnreadable(s, steps[..|steps| - 1], maxAttempts, place)
      && var s' := Execute(s, steps[..|steps| - 1], maxAttempts);
         Enabled(s', steps[|steps| - 1]) ==> IsUnreadableFor(s', steps[|steps| - 1], place)
  }

  predicate IsCallingAbout(s: State, id: nat, place: Place) {
    HasHand(s, id) && s.members[id].hand.value.place == place ==> s.members[id].hand.value.stage.Calling?
  }

  /** Nobody has got beyond calling the service about this record. */
  ghost predicate IsStuck(s: State, place: Place) {
    place !in s.accepted && place !in s.handed && forall id :: id in s.members ==> IsCallingAbout(s, id, place)
  }

  lemma AbsentIsStuck(s: State, place: Place)
    requires Inv(s) && !Exists(s, place)
    ensures IsStuck(s, place)
  {
    forall id | id in s.members ensures IsCallingAbout(s, id, place) {
      assert MemberIsSound(s, s.members[id]);
    }
  }

  lemma CallStaysStuck(s: State, id: nat, call: Call, now: int, maxAttempts: int, place: Place)
    requires Enabled(s, CallService(id, call, now)) && IsUnreadableFor(s, CallService(id, call, now), place)
    ensures
      var s' := Next(s, CallService(id, call, now), maxAttempts);
      IsCallingAbout(s', id, place) && (place in s'.accepted ==> place in s.accepted)
  {
    var Hand(hand, Calling(attempt)) := s.members[id].hand.value;
    OneCall(s, id, hand, attempt, call, now, maxAttempts);
  }

  lemma ActingStaysStuck(s: State, step: Step, maxAttempts: int, place: Place)
    requires Enabled(s, step) && !step.Produce? && !step.Expire? && IsUnreadableFor(s, step, place)
    requires Exists(s, place) && PayloadAt(s, place).Decodable?
    requires step.id in s.members ==> IsCallingAbout(s, step.id, place)
    ensures IsCallingAbout(Next(s, step, maxAttempts), step.id, place)
  {
    match step {
      case Join(_) =>
      case Assign(_, _) =>
      case Revoke(_, _) =>
      case Poll(id, p) =>
        if !s.log[p][NextOffset(s, id, p)].Tombstone? {
          PollTakesHand(s, id, p);
        }
      case CallService(id, call, now) =>
        CallStaysStuck(s, id, call, now, maxAttempts, place);
      case ParkMessage(_, _) =>
      case FlushLetters(_, _) =>
      case CommitOffset(_) =>
      case Crash(_) =>
    }
  }

  lemma AcceptedStaysStuck(s: State, step: Step, maxAttempts: int, place: Place)
    requires Enabled(s, step) && IsUnreadableFor(s, step, place) && IsStuck(s, place)
    ensures
      var s' := Next(s, step, maxAttempts);
      place !in s'.accepted && place !in s'.handed
  {
    NextHanded(s, step, maxAttempts);
    if step.CallService? {
      CallStaysStuck(s, step.id, step.call, step.now, maxAttempts, place);
    } else {
      OthersAndDatabase(s, step, maxAttempts);
      if step.ParkMessage? {
        assert IsCallingAbout(s, step.id, place);
      }
    }
  }

  lemma NextStaysStuck(s: State, step: Step, maxAttempts: int, place: Place)
    requires Enabled(s, step) && IsUnreadableFor(s, step, place) && IsStuck(s, place)
    requires Exists(s, place) && PayloadAt(s, place).Decodable?
    ensures IsStuck(Next(s, step, maxAttempts), place)
  {
    var s' := Next(s, step, maxAttempts);
    AcceptedStaysStuck(s, step, maxAttempts, place);
    forall id | id in s'.members ensures IsCallingAbout(s', id, place) {
      if step.Produce? || step.Expire? || step.id != id {
        OthersStay(s, step, maxAttempts, id);
        assert IsCallingAbout(s, id, place);
      } else {
        ActingStaysStuck(s, step, maxAttempts, place);
      }
    }
  }

  /** A record that does not exist yet cannot be asked about, so this holds from the beginning. */
  ghost predicate IsStuckIfDecodable(s: State, place: Place) {
    Exists(s, place) && PayloadAt(s, place).Decodable? ==> IsStuck(s, place)
  }

  lemma ProducedIsStuck(s: State, step: Step, maxAttempts: int, place: Place)
    requires Inv(s) && Enabled(s, step) && !Exists(s, place)
    ensures IsStuckIfDecodable(Next(s, step, maxAttempts), place)
  {
    if step.Produce? {
      AbsentIsStuck(s, place);
      var s' := Next(s, step, maxAttempts);
      forall id | id in s'.members ensures IsCallingAbout(s', id, place) {
        assert IsCallingAbout(s, id, place);
      }
    }
  }

  lemma {:induction false} RunStaysStuck(s: State, steps: seq<Step>, maxAttempts: int, place: Place)
    requires Inv(s) && IsStuckIfDecodable(s, place) && EveryAnswerIsUnreadable(s, steps, maxAttempts, place)
    ensures IsStuckIfDecodable(Execute(s, steps, maxAttempts), place)
    decreases |steps|
  {
    if steps != [] {
      var before, step := steps[..|steps| - 1], steps[|steps| - 1];
      RunStaysStuck(s, before, maxAttempts, place);
      RunKeepsInv(s, before, maxAttempts);
      var s1 := Execute(s, before, maxAttempts);
      if Enabled(s1, step) {
        OneStepStaysStuck(s1, step, maxAttempts, place);
      }
    }
  }

  lemma OneStepStaysStuck(s: State, step: Step, maxAttempts: int, place: Place)
    requires Inv(s) && Enabled(s, step) && IsStuckIfDecodable(s, place) && IsUnreadableFor(s, step, place)
    ensures IsStuckIfDecodable(Next(s, step, maxAttempts), place)
  {
    if Exists(s, place) {
      NextGrows(s, step, maxAttempts);
      PayloadsStay(s, Next(s, step, maxAttempts), place);
      if PayloadAt(s, place).Decodable? {
        NextStaysStuck(s, step, maxAttempts, place);
      }
    } else {
      ProducedIsStuck(s, step, maxAttempts, place);
    }
  }

  /** An event can hold up the queue as well: over all runs in which every answer about it is a success with an
      unreadable body, it is never committed, by any process, as long as it is retained. */
  lemma UnreadableAnswersAreNeverCommitted(partitions: nat, rows: Rows, steps: seq<Step>, maxAttempts: int,
                                           place: Place)
    requires EveryAnswerIsUnreadable(Initial(partitions, rows), steps, maxAttempts, place)
    requires
      var s := Execute(Initial(partitions, rows), steps, maxAttempts);
      Exists(s, place) && PayloadAt(s, place).Decodable? && !IsExpired(s, place)
    ensures !IsCommitted(Execute(Initial(partitions, rows), steps, maxAttempts), place)
  {
    InitiallySound(partitions, rows);
    StuckIsNotCommitted(Initial(partitions, rows), steps, maxAttempts, place);
  }

  lemma StuckIsNotCommitted(s: State, steps: seq<Step>, maxAttempts: int, place: Place)
    requires Inv(s) && IsStuckIfDecodable(s, place) && EveryAnswerIsUnreadable(s, steps, maxAttempts, place)
    requires
      var s' := Execute(s, steps, maxAttempts);
      Exists(s', place) && PayloadAt(s', place).Decodable? && !IsExpired(s', place)
    ensures !IsCommitted(Execute(s, steps, maxAttempts), place)
  {
    RunStaysStuck(s, steps, maxAttempts, place);
    RunKeepsInv(s, steps, maxAttempts);
    var s' := Execute(s, steps, maxAttempts);
    if IsCommitted(s', place) {
      CommittedPlaceIsResolved(s', place);
    }
  }

  /******* Both are reachable *******/

  /** The process has been assigned the partition and is about to read its first record. */
  lemma ReadyToRead(payload: C.Payload<Event>, maxAttempts: int)
    ensures
      var s := Execute(Initial(1, map[]), ReadOne(payload)[..3], maxAttempts);
      && Inv(s) && s == ReadingAt(3, payload)
      && Enabled(s, Poll(0, 0)) && NextOffset(s, 0, 0) == 0
      && Exists(s, Place(0, 0)) && PayloadAt(s, Place(0, 0)) == payload && !IsExpired(s, Place(0, 0))
  {
    ReadingRun(3, payload, maxAttempts);
    InitiallySound(1, map[]);
    RunKeepsInv(Initial(1, map[]), ReadOne(payload)[..3], maxAttempts);
  }

  /** A run after which a tombstone holds up its partition, whatever happens next. */
  lemma ATombstoneHoldsUpAQueue(maxAttempts: int)
    ensures
      var s := Execute(Initial(1, map[]), ReadOne(C.Tombstone)[..3], maxAttempts);
      && Enabled(s, Poll(0, 0)) && NextOffset(s, 0, 0) == 0
      && forall later :: NothingExpires(later) ==> !IsCommitted(Execute(s, later, maxAttempts), Place(0, 0))
  {
    ReadyToRead(C.Tombstone, maxAttempts);
    var s := ReadingAt(3, C.Tombstone);
    forall later | NothingExpires(later) ensures !IsCommitted(Execute(s, later, maxAttempts), Place(0, 0)) {
      TombstoneStays(s, later, maxAttempts, Place(0, 0));
    }
  }

  const UNREADABLE: Call := Call(Status(200, false), true)

  /** And one after which an event does, for as long as the body of every success is unreadable. */
  lemma AnEventHoldsUpAQueue(e: Event, now: int, maxAttempts: int)
    ensures
      var s := Execute(Initial(1, map[]), ReadOne(C.Decodable(e))[..3], maxAttempts);
      && Enabled(s, Poll(0, 0)) && NextOffset(s, 0, 0) == 0
      && Enabled(Next(s, Poll(0, 0), maxAttempts), CallService(0, UNREADABLE, now))
      && forall later :: NothingExpires(later) && EveryAnswerIsUnreadable(s, later, maxAttempts, Place(0, 0)) ==>
           !IsCommitted(Execute(s, later, maxAttempts), Place(0, 0))
  {
    ReadyToRead(C.Decodable(e), maxAttempts);
    var s := ReadingAt(3, C.Decodable(e));
    PollTakesHand(s, 0, 0);
    assert IsStuck(s, Place(0, 0));
    forall later | NothingExpires(later) && EveryAnswerIsUnreadable(s, later, maxAttempts, Place(0, 0))
      ensures !IsCommitted(Execute(s, later, maxAttempts), Place(0, 0))
    {
      RetainedStaysRetained(s, later, maxAttempts);
      StuckIsNotCommitted(s, later, maxAttempts, Place(0, 0));
    }
  }
}
