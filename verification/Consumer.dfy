/** The loop of one consumer process: poll, resolve, commit, one message at a time. */
module Consumer {
  import opened Collections
  import opened Delivery

  /** What the value of a record holds. A null value is not expected by the code and stops the process. */
  datatype Payload<+E> = Tombstone | Undecodable | Decodable(event: E)

  /** One answer of the client's poll, with everything the environment does while it is handled. */
  datatype Poll<+E> =
    | Nothing
    | ClientError
    | Message(partition: nat, offset: nat, payload: Payload<E>, calls: seq<Call>,
              queueFull: bool, commitFails: bool)

  datatype Effect =
    | Received(partition: nat, offset: nat)
    | AcceptedByService(partition: nat, offset: nat)
    | HandedToDlq(partition: nat, offset: nat)
    | Committed(partition: nat, offset: nat)

  predicate Resolves(e: Effect, partition: nat, offset: nat) {
    e == AcceptedByService(partition, offset) || e == HandedToDlq(partition, offset)
  }

  /** Every commit directly follows the resolution of the very message it commits. */
  predicate CommitsFollowResolution(effects: seq<Effect>) {
    forall i :: 0 <= i < |effects| && effects[i].Committed? ==>
      i > 0 && Resolves(effects[i - 1], effects[i].partition, effects[i].offset)
  }

  /** What becomes of a message: None if an exception ends the process before it is resolved. */
  function ResolutionOf<E>(poll: Poll<E>, maxAttempts: int): Option<Effect>
    requires poll.Message? && 1 <= maxAttempts <= |poll.calls|
  {
    var parked := if poll.queueFull then None else Some(HandedToDlq(poll.partition, poll.offset));
    match poll.payload
    case Tombstone => None
    case Undecodable => parked
    case Decodable(_) =>
      match Judge(poll.calls[CallsMade(poll.calls, maxAttempts) - 1].http)
      case Accepted => Some(AcceptedByService(poll.partition, poll.offset))
      case Unexpected => None
      case _ => parked
  }

  /** The letter that is written about a message: the reason and the number of attempts of its deciding answer,
      or none at all if there was nothing to deliver. */
  function LetterOf<E>(poll: Poll<E>, maxAttempts: int): Letter
    requires poll.Message? && 1 <= maxAttempts <= |poll.calls|
  {
    if poll.payload.Decodable? then
      var n := CallsMade(poll.calls, maxAttempts);
      Letter(poll.partition, poll.offset, ReasonFor(poll.calls[n - 1]), n)
    else Letter(poll.partition, poll.offset, DeserializationFailed, 0)
  }

  /** The letters of one turn: one exactly if the message is handed over. */
  function LettersOf<E>(poll: Poll<E>, maxAttempts: int): seq<Letter>
    requires poll.Message? ==> 1 <= maxAttempts <= |poll.calls|
  {
    if poll.Message? && ResolutionOf(poll, maxAttempts) == Some(HandedToDlq(poll.partition, poll.offset)) then
      [LetterOf(poll, maxAttempts)]
    else []
  }

  /** A letter names its message. Bytes that do not decode are parked without an attempt; an event is parked as
      refused if its last answer is one of the request's own faults, and as exhausted only after the whole
      budget, each of its answers a timeout, a throttle, a server error or none at all. */
  lemma LettersSayWhy<E>(poll: Poll<E>, maxAttempts: int)
    requires poll.Message? && 1 <= maxAttempts <= |poll.calls|
    requires LettersOf(poll, maxAttempts) != []
    ensures
      var letter := LettersOf(poll, maxAttempts)[0];
      && |LettersOf(poll, maxAttempts)| == 1 && !poll.queueFull
      && letter.partition == poll.partition && letter.offset == poll.offset
      && (poll.payload.Undecodable? ==> letter.reason == DeserializationFailed && letter.attempts == 0)
      && (!poll.payload.Undecodable? ==>
            && poll.payload.Decodable? && 1 <= letter.attempts <= maxAttempts
            && (forall k :: 0 <= k < letter.attempts - 1 ==> IsTransient(poll.calls[k].http))
            && (if IsTransient(poll.calls[letter.attempts - 1].http) then
                  letter.reason == TransientExhausted && letter.attempts == maxAttempts
                else
                  letter.reason == RejectedPermanently && IsRefusal(poll.calls[letter.attempts - 1].http)))
  {
  }

  predicate IsTransient(h: Http) {
    h.NoResponse? || h.code == 408 || h.code == 429 || h.code >= 500
  }

  predicate IsRefusal(h: Http) {
    h.Status? && !(200 <= h.code < 300) && h.code < 500 && h.code != 408 && h.code != 429
  }

  /** A message is accepted exactly if it decodes and its deciding answer is a success that can be read. */
  lemma OnlyReadableSuccessIsAccepted<E>(poll: Poll<E>, maxAttempts: int)
    requires poll.Message? && 1 <= maxAttempts <= |poll.calls|
    ensures
      var last := poll.calls[CallsMade(poll.calls, maxAttempts) - 1].http;
      && (ResolutionOf(poll, maxAttempts) == Some(AcceptedByService(poll.partition, poll.offset)) <==>
            poll.payload.Decodable? && last.Status? && 200 <= last.code < 300 && last.readable)
      && (ResolutionOf(poll, maxAttempts).None? <==>
            || poll.payload.Tombstone?
            || (poll.payload.Undecodable? && poll.queueFull)
            || (poll.payload.Decodable? && IsUnreadable(last))
            || (poll.payload.Decodable? && (IsTransient(last) || IsRefusal(last)) && poll.queueFull))
  {
  }

  /** What one turn does: receive, resolve, commit; an exception cuts it short. */
  function TurnOf<E>(poll: Poll<E>, maxAttempts: int): seq<Effect>
    requires poll.Message? ==> 1 <= maxAttempts <= |poll.calls|
  {
    if !poll.Message? then [] else
      [Received(poll.partition, poll.offset)] +
      match ResolutionOf(poll, maxAttempts)
      case None => []
      case Some(e) => if poll.commitFails then [e] else [e, Committed(poll.partition, poll.offset)]
  }

  /** The process survives the turn. */
  predicate GoesOn<E>(poll: Poll<E>, maxAttempts: int)
    requires poll.Message? ==> 1 <= maxAttempts <= |poll.calls|
  {
    poll.Message? ==> ResolutionOf(poll, maxAttempts).Some? && !poll.commitFails
  }

  /** The service is asked often enough in this account of the environment. */
  predicate EnoughAnswers<E>(polls: seq<Poll<E>>, maxAttempts: int) {
    forall i :: 0 <= i < |polls| && polls[i].Message? ==> 1 <= maxAttempts <= |polls[i].calls|
  }

  /** No exception ends the loop during the first n polls. */
  predicate AllGoOn<E>(polls: seq<Poll<E>>, n: nat, maxAttempts: int)
    requires EnoughAnswers(polls, maxAttempts) && n <= |polls|
  {
    forall i :: 0 <= i < n ==> GoesOn(polls[i], maxAttempts)
  }

  /** What the loop does with the first n polls, until an exception ends it. */
  function LoopOf<E>(polls: seq<Poll<E>>, n: nat, maxAttempts: int): seq<Effect>
    requires EnoughAnswers(polls, maxAttempts) && n <= |polls|
  {
    if n == 0 then [] else
      LoopOf(polls, n - 1, maxAttempts)
      + if AllGoOn(polls, n - 1, maxAttempts) then TurnOf(polls[n - 1], maxAttempts) else []
  }

  /** The letters the loop writes meanwhile. */
  function LettersOfLoop<E>(polls: seq<Poll<E>>, n: nat, maxAttempts: int): seq<Letter>
    requires EnoughAnswers(polls, maxAttempts) && n <= |polls|
  {
    if n == 0 then [] else
      LettersOfLoop(polls, n - 1, maxAttempts)
      + if AllGoOn(polls, n - 1, maxAttempts) then LettersOf(polls[n - 1], maxAttempts) else []
  }

  /** The loop, one poll later. */
  lemma LoopStep<E>(polls: seq<Poll<E>>, i: nat, maxAttempts: int)
    requires EnoughAnswers(polls, maxAttempts) && i < |polls|
    ensures AllGoOn(polls, i, maxAttempts) ==>
              && LoopOf(polls, i + 1, maxAttempts) == LoopOf(polls, i, maxAttempts) + TurnOf(polls[i], maxAttempts)
              && LettersOfLoop(polls, i + 1, maxAttempts)
              == LettersOfLoop(polls, i, maxAttempts) + LettersOf(polls[i], maxAttempts)
              && (AllGoOn(polls, i + 1, maxAttempts) <==> GoesOn(polls[i], maxAttempts))
    ensures !AllGoOn(polls, i, maxAttempts) ==>
              && LoopOf(polls, i + 1, maxAttempts) == LoopOf(polls, i, maxAttempts)
              && LettersOfLoop(polls, i + 1, maxAttempts) == LettersOfLoop(polls, i, maxAttempts)
  {
  }

  function IsHandOver(): Effect -> bool {
    (e: Effect) => e.HandedToDlq?
  }

  /** The message a letter is about, as it is handed over. */
  function HandOverOf(): Letter -> Effect {
    (letter: Letter) => HandedToDlq(letter.partition, letter.offset)
  }

  lemma HandOversAmong(received: Effect, e: Effect, done: Effect)
    requires received.Received? && done.Committed?
    ensures Filter(IsHandOver(), [received]) == []
    ensures Filter(IsHandOver(), [received, e]) == if e.HandedToDlq? then [e] else []
    ensures Filter(IsHandOver(), [received, e, done]) == if e.HandedToDlq? then [e] else []
  {
    var p := IsHandOver();
    FilterSnoc(p, [], received);
    assert [] + [received] == [received];
    FilterSnoc(p, [received], e);
    assert [received] + [e] == [received, e];
    FilterSnoc(p, [received, e], done);
    assert [received, e] + [done] == [received, e, done];
  }

  /** What a turn hands over is what its letter is about. */
  lemma TurnHandsOverItsLetters<E>(poll: Poll<E>, maxAttempts: int)
    requires poll.Message? ==> 1 <= maxAttempts <= |poll.calls|
    ensures Filter(IsHandOver(), TurnOf(poll, maxAttempts)) == Map(HandOverOf(), LettersOf(poll, maxAttempts))
  {
    if poll.Message? {
      var received, done := Received(poll.partition, poll.offset), Committed(poll.partition, poll.offset);
      match ResolutionOf(poll, maxAttempts)
      case None =>
        HandOversAmong(received, done, done);
        assert TurnOf(poll, maxAttempts) == [received];
      case Some(e) =>
        HandOversAmong(received, e, done);
        assert TurnOf(poll, maxAttempts) == if poll.commitFails then [received, e] else [received, e, done];
        LetterNamesItsMessage(poll, maxAttempts, e);
    }
  }

  lemma LetterNamesItsMessage<E>(poll: Poll<E>, maxAttempts: int, e: Effect)
    requires poll.Message? && 1 <= maxAttempts <= |poll.calls| && ResolutionOf(poll, maxAttempts) == Some(e)
    ensures Map(HandOverOf(), LettersOf(poll, maxAttempts)) == if e.HandedToDlq? then [e] else []
  {
  }

  /** The letters of a loop are, in order, those of the messages it hands over, one each. */
  lemma {:induction false} LoopHandsOverItsLetters<E>(polls: seq<Poll<E>>, n: nat, maxAttempts: int)
    requires EnoughAnswers(polls, maxAttempts) && n <= |polls|
    ensures Filter(IsHandOver(), LoopOf(polls, n, maxAttempts))
         == Map(HandOverOf(), LettersOfLoop(polls, n, maxAttempts))
    decreases n
  {
    if n > 0 {
      LoopHandsOverItsLetters(polls, n - 1, maxAttempts);
      LoopStep(polls, n - 1, maxAttempts);
      var before, letters := LoopOf(polls, n - 1, maxAttempts), LettersOfLoop(polls, n - 1, maxAttempts);
      if AllGoOn(polls, n - 1, maxAttempts) {
        var turn, written := TurnOf(polls[n - 1], maxAttempts), LettersOf(polls[n - 1], maxAttempts);
        TurnHandsOverItsLetters(polls[n - 1], maxAttempts);
        HandOversAdd(before, turn, letters, written);
      }
    }
  }

  lemma HandOversAdd(before: seq<Effect>, turn: seq<Effect>, letters: seq<Letter>, written: seq<Letter>)
    requires Filter(IsHandOver(), before) == Map(HandOverOf(), letters)
    requires Filter(IsHandOver(), turn) == Map(HandOverOf(), written)
    ensures Filter(IsHandOver(), before + turn) == Map(HandOverOf(), letters + written)
  {
    FilterConcat(IsHandOver(), before, turn);
    MapConcat(HandOverOf(), letters, written);
  }

  /** A turn that raises is the last one. */
  lemma {:induction false} LoopStopped<E>(polls: seq<Poll<E>>, i: nat, n: nat, maxAttempts: int)
    requires EnoughAnswers(polls, maxAttempts) && i < n <= |polls|
    requires AllGoOn(polls, i, maxAttempts) && !GoesOn(polls[i], maxAttempts)
    ensures LoopOf(polls, n, maxAttempts) == LoopOf(polls, i, maxAttempts) + TurnOf(polls[i], maxAttempts)
    ensures LettersOfLoop(polls, n, maxAttempts)
         == LettersOfLoop(polls, i, maxAttempts) + LettersOf(polls[i], maxAttempts)
    ensures !AllGoOn(polls, n, maxAttempts)
    decreases n
  {
    if i + 1 < n {
      LoopStopped(polls, i, n - 1, maxAttempts);
    }
  }

  /** Nothing has raised during the first i polls, and `done` and `letters` are what they led to. */
  predicate SoFar<E>(polls: seq<Poll<E>>, i: nat, maxAttempts: int, done: seq<Effect>, letters: seq<Letter>)
    requires EnoughAnswers(polls, maxAttempts) && i <= |polls|
  {
    && AllGoOn(polls, i, maxAttempts)
    && done == LoopOf(polls, i, maxAttempts) && letters == LettersOfLoop(polls, i, maxAttempts)
  }

  lemma OneMoreTurn<E>(polls: seq<Poll<E>>, i: nat, maxAttempts: int, done: seq<Effect>, letters: seq<Letter>)
    requires EnoughAnswers(polls, maxAttempts) && i < |polls| && SoFar(polls, i, maxAttempts, done, letters)
    ensures
      var allDone, allLetters := done + TurnOf(polls[i], maxAttempts), letters + LettersOf(polls[i], maxAttempts);
      if GoesOn(polls[i], maxAttempts) then SoFar(polls, i + 1, maxAttempts, allDone, allLetters)
      else
        && allDone == LoopOf(polls, |polls|, maxAttempts) && allLetters == LettersOfLoop(polls, |polls|, maxAttempts)
        && !AllGoOn(polls, |polls|, maxAttempts)
  {
    LoopStep(polls, i, maxAttempts);
    if !GoesOn(polls[i], maxAttempts) {
      LoopStopped(polls, i, |polls|, maxAttempts);
    }
  }

  lemma Appended<T>(s: seq<T>, t: seq<T>, u: seq<T>)
    ensures s + t + u == s + (t + u)
  {
  }

  function IsReceipt(): Effect -> bool {
    (e: Effect) => e.Received?
  }

  function IsCommit(): Effect -> bool {
    (e: Effect) => e.Committed?
  }

  class Worker<E> {
    const settings: Settings
    var receivedCount: nat
    var processedCount: nat
    var failedCount: nat
    var effects: seq<Effect> // everything this process has done so far, in order

    predicate Valid()
      reads this
    {
      && Acceptable(settings)
      && receivedCount == |Filter(IsReceipt(), effects)|
      && processedCount == |Filter(IsCommit(), effects)|
      && CommitsFollowResolution(effects)
    }

    constructor (settings: Settings)
      requires Acceptable(settings)
      ensures Valid() && this.settings == settings && effects == []
      ensures receivedCount == processedCount == failedCount == 0
    {
      this.settings := settings;
      receivedCount, processedCount, failedCount, effects := 0, 0, 0, [];
    }

    method Receive(partition: nat, offset: nat, undecodable: bool)
      requires Valid()
      modifies this`effects, this`receivedCount, this`failedCount
      ensures Valid() && effects == old(effects) + [Received(partition, offset)]
      ensures receivedCount == old(receivedCount) + 1
      ensures failedCount == old(failedCount) + (if undecodable then 1 else 0)
    {
      FilterSnoc(IsReceipt(), effects, Received(partition, offset));
      FilterSnoc(IsCommit(), effects, Received(partition, offset));
      effects := effects + [Received(partition, offset)];
      receivedCount := receivedCount + 1;
      if undecodable {
        failedCount := failedCount + 1;
      }
    }

    method Record(e: Effect)
      requires Valid() && !e.Committed? && !e.Received?
      modifies this`effects
      ensures Valid() && effects == old(effects) + [e]
    {
      FilterSnoc(IsReceipt(), effects, e);
      FilterSnoc(IsCommit(), effects, e);
      effects := effects + [e];
    }

    /** `commit`: the counter grows only once the broker has accepted. */
    method Commit(partition: nat, offset: nat, fails: bool) returns (ok: bool)
      requires Valid() && effects != [] && Resolves(effects[|effects| - 1], partition, offset)
      modifies this`effects, this`processedCount
      ensures Valid() && (ok <==> !fails)
      ensures effects == if ok then old(effects) + [Committed(partition, offset)] else old(effects)
      ensures processedCount == old(processedCount) + (if ok then 1 else 0)
    {
      if fails {
        return false;
      }
      FilterSnoc(IsReceipt(), effects, Committed(partition, offset));
      FilterSnoc(IsCommit(), effects, Committed(partition, offset));
      effects := effects + [Committed(partition, offset)];
      processedCount := processedCount + 1;
      return true;
    }

    /** Hand the message to the service or to the dead-letter queue. */
    method Resolve(poll: Poll<E>, dlq: DeadLetters) returns (resolution: Option<Effect>)
      requires Acceptable(settings) && dlq.Valid() && poll.Message?
      requires settings.maxAttempts <= |poll.calls|
      modifies dlq
      ensures dlq.Valid()
      ensures resolution == ResolutionOf(poll, settings.maxAttempts)
      ensures resolution.Some? ==> Resolves(resolution.value, poll.partition, poll.offset)
      ensures dlq.handed == old(dlq.handed) + LettersOf(poll, settings.maxAttempts)
      ensures poll.payload.Undecodable? ==>
                dlq.handed == old(dlq.handed)
                  + if poll.queueFull then [] else [Letter(poll.partition, poll.offset, DeserializationFailed, 0)]
      ensures !poll.payload.Decodable? && resolution.Some? ==> resolution.value.HandedToDlq?
      ensures poll.payload.Tombstone? ==> resolution.None?
    {
      if poll.payload.Tombstone? {
        return None;
      }
      if poll.payload.Undecodable? {
        var letter := Letter(poll.partition, poll.offset, DeserializationFailed, 0);
        var ok, left, reports := dlq.Park(letter, poll.queueFull);
        return if ok then Some(HandedToDlq(poll.partition, poll.offset)) else None;
      }
      var result, made, pauses :=
        Deliver(settings, poll.calls, poll.partition, poll.offset, dlq, poll.queueFull);
      match result
      case Delivered => return Some(AcceptedByService(poll.partition, poll.offset));
      case Parked => return Some(HandedToDlq(poll.partition, poll.offset));
      case Raised => return None;
    }

    /** Note the resolution, then commit. */
    method Conclude(e: Effect, poll: Poll<E>) returns (alive: bool, done: seq<Effect>)
      requires Valid() && poll.Message? && Resolves(e, poll.partition, poll.offset)
      modifies this`effects, this`processedCount
      ensures Valid() && effects == old(effects) + done && (alive <==> !poll.commitFails)
      ensures done == if alive then [e, Committed(poll.partition, poll.offset)] else [e]
      ensures processedCount == old(processedCount) + (if alive then 1 else 0)
    {
      Record(e);
      alive := Commit(poll.partition, poll.offset, poll.commitFails);
      done := if alive then [e, Committed(poll.partition, poll.offset)] else [e];
    }

    /** One turn of the loop; false means that an exception ended the process. */
    method Handle(poll: Poll<E>, dlq: DeadLetters) returns (alive: bool, turn: seq<Effect>)
      requires Valid() && dlq.Valid()
      requires poll.Message? ==> settings.maxAttempts <= |poll.calls|
      modifies this`receivedCount, this`processedCount, this`failedCount, this`effects, dlq
      ensures Valid() && dlq.Valid()
      ensures effects == old(effects) + turn && IsTurn(poll, alive, turn)
      ensures turn == TurnOf(poll, settings.maxAttempts) && (alive <==> GoesOn(poll, settings.maxAttempts))
      ensures dlq.handed == old(dlq.handed) + LettersOf(poll, settings.maxAttempts)
      ensures receivedCount == old(receivedCount) + (if poll.Message? then 1 else 0)
      ensures processedCount == old(processedCount) + (if poll.Message? && alive then 1 else 0)
      ensures failedCount == old(failedCount) + (if poll.Message? && poll.payload.Undecodable? then 1 else 0)
    {
      if !poll.Message? {
        return true, [];
      }
      Receive(poll.partition, poll.offset, poll.payload.Undecodable?);
      var resolution := Resolve(poll, dlq);
      if resolution.None? {
        return false, [Received(poll.partition, poll.offset)];
      }
      var done;
      alive, done := Conclude(resolution.value, poll);
      turn := [Received(poll.partition, poll.offset)] + done;
    }

    /** The loop of `main` over everything the client's poll returns until shutdown or an exception. */
    method Run(polls: seq<Poll<E>>, dlq: DeadLetters) returns (alive: bool)
      requires Valid() && dlq.Valid()
      requires EnoughAnswers(polls, settings.maxAttempts)
      modifies this`receivedCount, this`processedCount, this`failedCount, this`effects, dlq
      ensures Valid() && dlq.Valid()
      // The turns one after the other, up to the first one that raises.
      ensures effects == old(effects) + LoopOf(polls, |polls|, settings.maxAttempts)
      ensures alive <==> AllGoOn(polls, |polls|, settings.maxAttempts)
      ensures dlq.handed == old(dlq.handed) + LettersOfLoop(polls, |polls|, settings.maxAttempts)
      // At most the message in hand is received and not committed, and none if the loop ended normally.
      ensures 0 <= (receivedCount - processedCount) - (old(receivedCount) - old(processedCount)) <= 1
      ensures alive ==> receivedCount - processedCount == old(receivedCount) - old(processedCount)
    {
      ghost var behind := receivedCount - processedCount;
      ghost var before, handed := effects, dlq.handed;
      ghost var done: seq<Effect>, letters: seq<Letter>, max := [], [], settings.maxAttempts;
      for i := 0 to |polls|
        invariant Valid() && dlq.Valid()
        invariant SoFar(polls, i, max, done, letters)
        invariant effects == before + done && dlq.handed == handed + letters
        invariant receivedCount - processedCount == behind
      {
        var ok, turn := Handle(polls[i], dlq);
        OneMoreTurn(polls, i, max, done, letters);
        ghost var written := LettersOf(polls[i], max);
        Appended(before, done, turn);
        Appended(handed, letters, written);
        done, letters := done + turn, letters + written;
        if !ok {
          return false;
        }
      }
      return true;
    }
  }

  /** What one turn does: receive, resolve, commit, in this order and about one message; an exception
      cuts it short. Bytes that cannot be decoded are only ever handed to the dead-letter queue. */
  predicate IsTurn<E>(poll: Poll<E>, alive: bool, turn: seq<Effect>) {
    if !poll.Message? then alive && turn == [] else
      && 1 <= |turn| <= 3
      && turn[0] == Received(poll.partition, poll.offset)
      && (|turn| >= 2 ==> Resolves(turn[1], poll.partition, poll.offset))
      && (|turn| >= 2 && !poll.payload.Decodable? ==> turn[1].HandedToDlq?)
      && (|turn| == 3 ==> turn[2] == Committed(poll.partition, poll.offset))
      && (alive <==> |turn| == 3)
      && (poll.payload.Tombstone? ==> |turn| == 1)
  }
}
