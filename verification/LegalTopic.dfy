/**
 How often the rows of a Legal file end up in the topic. Every attempt at a file gives the client new event
 ids, so neither Kafka nor Silver can tell that two of them are the same row. What the broker stores of an
 attempt that failed is its own affair: it may refuse an event, store it and say so, or store it without
 anyone learning of it, even after the job has ended.
 */
module LegalTopic {
  import opened Collections
  import opened LegalParsing
  import opened LegalProtocol

  function OfRow(m: Message): Sent -> bool {
    (x: Sent) => x.message == m
  }

  predicate AreStored(s: State, attempt: nat, messages: seq<Message>) {
    forall m :: m in messages ==> Sent(attempt, m) in s.stored
  }

  /** Each event is stored at most once, and only if it was given to the client. */
  ghost predicate TopicIsSound(s: State) {
    && Distinct(s.stored)
    && (forall x :: x in s.stored ==> x in s.published && x !in s.outstanding)
    && (forall x :: x in s.outstanding ==> x in s.published)
  }

  ghost predicate CurrentIsStored(s: State, files: Files, iso: IsoParser) {
    match s.job
    case Sending(_, _, _, _, _, acks, _) => forall m :: m in acks ==> Sent(s.attempts, m) in s.stored
    case Confirmed(name, _, _) => name in files && AreStored(s, s.attempts, MessagesOf(name, files[name].rows, iso))
    case RejectsWritten(name, _, _) =>
      name in files && AreStored(s, s.attempts, MessagesOf(name, files[name].rows, iso))
    case _ => true
  }

  /** The attempt that finished a file stored it, and was the last one. */
  ghost predicate FileIsStored(s: State, name: string, files: Files, iso: IsoParser) {
    && name in files && name in s.finishedBy
    && AreStored(s, s.finishedBy[name], MessagesOf(name, files[name].rows, iso))
    && forall x :: x in s.published && x.message.batch == name ==> x.attempt <= s.finishedBy[name]
  }

  ghost predicate FinishedAreStored(s: State, files: Files, iso: IsoParser) {
    forall name :: name in s.processed ==> FileIsStored(s, name, files, iso)
  }

  ghost predicate StorageIsSound(s: State, files: Files, iso: IsoParser) {
    TopicIsSound(s) && CurrentIsStored(s, files, iso) && FinishedAreStored(s, files, iso)
  }

  ghost predicate AllSound(s: State, files: Files, iso: IsoParser) {
    Inv(s, files, iso) && PublicationIsSound(s, files, iso) && StorageIsSound(s, files, iso)
  }

  /** Nothing but these five steps concerns the topic. */
  predicate ConcernsTopic(step: Step) {
    step.Store? || step.Lose? || step.Open? || step.ReadRow? || step.Copy?
  }

  predicate SameTopic(s: State, s': State) {
    s'.stored == s.stored && s'.outstanding == s.outstanding
  }

  lemma OtherStepsStoreNothing(s: State, step: Step, files: Files, iso: IsoParser)
    requires Enabled(s, step, files) && !ConcernsTopic(step)
    ensures SameTopic(s, Next(s, step, files, iso))
  {
    match step {
      case Upload(_) =>
      case Start(_) =>
      case Report(m, delivered) =>
        assert SameTopic(s, NextReport(s, m, delivered));
      case Confirm =>
      case WriteRejects =>
      case Delete =>
      case Stop =>
      case Crash =>
    }
  }

  lemma GrowthKeepsStored(s: State, s': State, files: Files, iso: IsoParser)
    requires FinishedAreStored(s, files, iso) && s.stored <= s'.stored && SamePublication(s, s')
    ensures FinishedAreStored(s', files, iso)
  {
    forall name | name in s'.processed ensures FileIsStored(s', name, files, iso) {
      assert FileIsStored(s, name, files, iso);
    }
  }

  lemma ReportKeepsStored(s: State, m: Message, delivered: bool, files: Files, iso: IsoParser)
    requires s.job.Sending? && CurrentIsStored(s, files, iso) && (delivered ==> Sent(s.attempts, m) in s.stored)
    ensures CurrentIsStored(NextReport(s, m, delivered), files, iso)
  {
  }

  lemma ConfirmKeepsStored(s: State, files: Files, iso: IsoParser)
    requires Inv(s, files, iso) && CurrentIsStored(s, files, iso) && Enabled(s, Confirm, files)
    ensures CurrentIsStored(Next(s, Confirm, files, iso), files, iso)
  {
    CheckIsExact(s, files, iso);
    var messages := MessagesOf(s.job.name, files[s.job.name].rows, iso);
    forall m | m in messages ensures Sent(s.attempts, m) in s.stored {
      assert m in multiset(messages);
    }
  }

  lemma OtherStepsKeepStored(s: State, step: Step, files: Files, iso: IsoParser)
    requires AllSound(s, files, iso) && Enabled(s, step, files) && !ConcernsTopic(step)
    ensures StorageIsSound(Next(s, step, files, iso), files, iso)
  {
    OtherStepsStoreNothing(s, step, files, iso);
    OtherStepsPublishNothing(s, step, files, iso);
    GrowthKeepsStored(s, Next(s, step, files, iso), files, iso);
    if step.Report? {
      ReportKeepsStored(s, step.message, step.delivered, files, iso);
    } else if step.Confirm? {
      ConfirmKeepsStored(s, files, iso);
    }
  }

  lemma StoreKeepsStored(s: State, x: Sent, files: Files, iso: IsoParser)
    requires AllSound(s, files, iso) && Enabled(s, Store(x), files)
    ensures StorageIsSound(Next(s, Store(x), files, iso), files, iso)
  {
    var s' := Next(s, Store(x), files, iso);
    assert x !in s.stored;
    assert forall y :: y in s.stored ==> y in s'.stored;
    GrowthKeepsStored(s, s', files, iso);
  }

  lemma LoseKeepsStored(s: State, x: Sent, files: Files, iso: IsoParser)
    requires AllSound(s, files, iso) && Enabled(s, Lose(x), files)
    ensures StorageIsSound(Next(s, Lose(x), files, iso), files, iso)
  {
    GrowthKeepsStored(s, Next(s, Lose(x), files, iso), files, iso);
  }

  lemma OpenKeepsStored(s: State, files: Files, iso: IsoParser)
    requires AllSound(s, files, iso) && Enabled(s, Open, files)
    ensures StorageIsSound(Next(s, Open, files, iso), files, iso)
  {
    var s' := Next(s, Open, files, iso);
    forall name | name in s'.processed ensures FileIsStored(s', name, files, iso) {
      assert FileIsStored(s, name, files, iso);
    }
  }

  lemma SentRowKeepsStored(s: State, event: LegalEvent, files: Files, iso: IsoParser)
    requires AllSound(s, files, iso) && s.job.Sending? && Enabled(s, ReadRow, files)
    requires BuildEvent(files[s.job.name].rows[s.job.read], s.job.name, iso) == Built(event)
    ensures StorageIsSound(NextRow(s, files, iso), files, iso)
  {
    SentRowIsNew(s, event, files, iso);
    var s' := NextRow(s, files, iso);
    forall name | name in s'.processed ensures FileIsStored(s', name, files, iso) {
      assert FileIsStored(s, name, files, iso) && name != s.job.name;
    }
  }

  lemma ReadRowKeepsStored(s: State, files: Files, iso: IsoParser)
    requires AllSound(s, files, iso) && Enabled(s, ReadRow, files)
    ensures StorageIsSound(NextRow(s, files, iso), files, iso)
  {
    match BuildEvent(files[s.job.name].rows[s.job.read], s.job.name, iso)
    case Failed(_) =>
      GrowthKeepsStored(s, NextRow(s, files, iso), files, iso);
    case Built(event) =>
      SentRowKeepsStored(s, event, files, iso);
  }

  lemma CopyKeepsStored(s: State, files: Files, iso: IsoParser)
    requires AllSound(s, files, iso) && Enabled(s, Copy, files)
    ensures StorageIsSound(Next(s, Copy, files, iso), files, iso)
  {
    var s' := Next(s, Copy, files, iso);
    forall name | name in s'.processed ensures FileIsStored(s', name, files, iso) {
      if name != s.job.name {
        assert FileIsStored(s, name, files, iso);
      }
    }
  }

  lemma NextKeepsStorage(s: State, step: Step, files: Files, iso: IsoParser)
    requires AllSound(s, files, iso) && Enabled(s, step, files)
    ensures StorageIsSound(Next(s, step, files, iso), files, iso)
  {
    match step {
      case Store(x) =>
        StoreKeepsStored(s, x, files, iso);
      case Lose(x) =>
        LoseKeepsStored(s, x, files, iso);
      case Open =>
        OpenKeepsStored(s, files, iso);
      case ReadRow =>
        ReadRowKeepsStored(s, files, iso);
      case Copy =>
        CopyKeepsStored(s, files, iso);
      case _ =>
        OtherStepsKeepStored(s, step, files, iso);
    }
  }

  lemma {:induction false} RunKeepsAllSound(s: State, steps: seq<Step>, files: Files, iso: IsoParser)
    requires AllSound(s, files, iso)
    ensures AllSound(Execute(s, steps, files, iso), files, iso)
    decreases |steps|
  {
    if steps != [] {
      var before := steps[..|steps| - 1];
      RunKeepsAllSound(s, before, files, iso);
      var s' := Execute(s, before, files, iso);
      if Enabled(s', steps[|steps| - 1], files) {
        NextKeepsInv(s', steps[|steps| - 1], files, iso);
        NextKeepsPublication(s', steps[|steps| - 1], files, iso);
        NextKeepsStorage(s', steps[|steps| - 1], files, iso);
      }
    }
  }

  /******* How often a row is in the topic *******/

  /** The topic holds one event for each of these rows. */
  ghost predicate AreSingle(s: State, messages: seq<Message>) {
    forall m :: m in messages ==> |Filter(OfRow(m), s.stored)| == 1
  }

  /** No event of the file is stored that another attempt sent. */
  ghost predicate OnlyBy(s: State, name: string, attempt: nat) {
    forall x :: x in s.stored && x.message.batch == name ==> x.attempt == attempt
  }

  /** In a topic without repetitions, a row whose event is stored is there once exactly if there is no other. */
  lemma CountOfRow(stored: seq<Sent>, x: Sent)
    requires Distinct(stored) && x in stored
    ensures |Filter(OfRow(x.message), stored)| >= 1
    ensures |Filter(OfRow(x.message), stored)| == 1 <==> forall y :: y in stored && y.message == x.message ==> y == x
  {
    var mine := Filter(OfRow(x.message), stored);
    FilterMembers(OfRow(x.message), stored);
    FilterKeepsApart(OfRow(x.message), stored);
    assert x in mine;
    if |mine| == 1 {
      assert mine[0] == x;
    } else {
      assert mine[0] != mine[1];
      var y := if mine[0] == x then mine[1] else mine[0];
      assert y in mine && y != x;
    }
  }

  /** How often the rows of a processed file are in the topic, over any history: each valid row at least once,
      under an id of the attempt that finished the file, and no other row. Each is there once if and only if
      no other attempt's event for it was stored, whatever was handed to the client. */
  lemma RowsAreStoredOnceIffNoOtherAttemptStored(steps: seq<Step>, files: Files, iso: IsoParser, name: string)
    requires name in Execute(INITIAL, steps, files, iso).processed
    ensures
      var s := Execute(INITIAL, steps, files, iso);
      && name in files && name in s.finishedBy
      && var rows, last := MessagesOf(name, files[name].rows, iso), s.finishedBy[name];
         && AreStored(s, last, rows)
         && (forall x :: x in s.stored && x.message.batch == name ==> x.message in rows)
         && (forall m :: m in rows ==> |Filter(OfRow(m), s.stored)| >= 1)
         && (forall m :: m in rows ==> (|Filter(OfRow(m), s.stored)| == 1 <==>
               forall x :: x in s.stored && x.message == m ==> x.attempt == last))
         && (AreSingle(s, rows) <==> OnlyBy(s, name, last))
  {
    RunKeepsAllSound(INITIAL, steps, files, iso);
    RowsOfFinished(Execute(INITIAL, steps, files, iso), files, iso, name);
  }

  lemma RowsOfFinished(s: State, files: Files, iso: IsoParser, name: string)
    requires AllSound(s, files, iso) && name in s.processed
    ensures name in files && name in s.finishedBy
    ensures
      var rows, last := MessagesOf(name, files[name].rows, iso), s.finishedBy[name];
      && AreStored(s, last, rows)
      && (forall x :: x in s.stored && x.message.batch == name ==> x.message in rows && x.attempt <= last)
      && (forall m :: m in rows ==> |Filter(OfRow(m), s.stored)| >= 1)
      && (forall m :: m in rows ==> (|Filter(OfRow(m), s.stored)| == 1 <==>
            forall x :: x in s.stored && x.message == m ==> x.attempt == last))
      && (AreSingle(s, rows) <==> OnlyBy(s, name, last))
  {
    assert FileIsStored(s, name, files, iso);
    var rows, last := MessagesOf(name, files[name].rows, iso), s.finishedBy[name];
    RowsAreSplit(name, files[name].rows, iso);
    forall m | m in rows
      ensures |Filter(OfRow(m), s.stored)| >= 1
      ensures |Filter(OfRow(m), s.stored)| == 1 <==> forall x :: x in s.stored && x.message == m ==> x.attempt == last
    {
      CountOfRow(s.stored, Sent(last, m));
      assert forall x :: x in s.stored && x.message == m ==> (x == Sent(last, m) <==> x.attempt == last);
    }
  }

  /******* What an attempt must find *******/

  /** After a state, the topic only grows, and what is new in it or may still get into it is of later attempts. */
  ghost predicate NewIsLater(s: State, s': State) {
    && s.stored <= s'.stored
    && forall x :: x in s'.stored || x in s'.outstanding ==>
         x in s.stored || x in s.outstanding || s.attempts < x.attempt
  }

  lemma NextKeepsNewIsLater(s: State, s1: State, step: Step, files: Files, iso: IsoParser)
    requires NewIsLater(s, s1) && LaterAttempts(s, s1) && Enabled(s1, step, files)
    ensures NewIsLater(s, Next(s1, step, files, iso))
  {
    if !ConcernsTopic(step) {
      OtherStepsStoreNothing(s1, step, files, iso);
    }
  }

  lemma {:induction false} RunKeepsNewIsLater(s: State, later: seq<Step>, files: Files, iso: IsoParser)
    requires s.job.Idle? || s.job.Scanning?
    ensures NewIsLater(s, Execute(s, later, files, iso))
    decreases |later|
  {
    if later != [] {
      var before := later[..|later| - 1];
      RunKeepsNewIsLater(s, before, files, iso);
      RunKeepsLater(s, before, files, iso);
      var s1 := Execute(s, before, files, iso);
      if Enabled(s1, later[|later| - 1], files) {
        NextKeepsNewIsLater(s, s1, later[|later| - 1], files, iso);
      }
    }
  }

  /** If a job has ended before a file was finished, but an event of the file was stored, then once the file
      is processed the topic holds that row at least twice. */
  lemma StoredRowsOfUnfinishedFilesAreRepeated(steps: seq<Step>, later: seq<Step>, files: Files, iso: IsoParser,
                                               name: string, x: Sent)
    requires
      var s := Execute(INITIAL, steps, files, iso);
      s.job.Idle? && name !in s.processed && x in s.stored && x.message.batch == name
    requires name in Execute(Execute(INITIAL, steps, files, iso), later, files, iso).processed
    ensures |Filter(OfRow(x.message), Execute(Execute(INITIAL, steps, files, iso), later, files, iso).stored)| >= 2
  {
    RunKeepsAllSound(INITIAL, steps, files, iso);
    var s := Execute(INITIAL, steps, files, iso);
    RunKeepsAllSound(s, later, files, iso);
    RunKeepsLater(s, later, files, iso);
    RunKeepsNewIsLater(s, later, files, iso);
    EarlierEventIsAnother(s, Execute(s, later, files, iso), files, iso, name, x);
  }

  lemma EarlierEventIsAnother(s: State, s': State, files: Files, iso: IsoParser, name: string, x: Sent)
    requires AllSound(s, files, iso) && AllSound(s', files, iso) && s.stored <= s'.stored
    requires x in s.stored && x.message.batch == name && name in s'.processed
    requires name in s'.finishedBy && s.attempts < s'.finishedBy[name]
    ensures name in files && !AreSingle(s', MessagesOf(name, files[name].rows, iso))
    ensures |Filter(OfRow(x.message), s'.stored)| >= 2
  {
    RowsOfFinished(s', files, iso, name);
    assert x in s'.stored && x.attempt <= s.attempts;
  }

  /** No event of the file is in the topic, and none can get there any more. */
  ghost predicate NoTraceOf(s: State, name: string) {
    forall x :: x in s.stored || x in s.outstanding ==> x.message.batch != name
  }

  predicate IsFinishedBy(s: State, name: string, attempt: nat) {
    name in s.processed && name in s.finishedBy && s.finishedBy[name] == attempt
  }

  lemma CleanStartSuffices(s: State, later: seq<Step>, files: Files, iso: IsoParser, name: string)
    requires AllSound(s, files, iso) && s.job.Scanning? && name in files && NoTraceOf(s, name)
    requires IsFinishedBy(Execute(s, later, files, iso), name, s.attempts + 1)
    ensures AreSingle(Execute(s, later, files, iso), MessagesOf(name, files[name].rows, iso))
  {
    RunKeepsAllSound(s, later, files, iso);
    RunKeepsNewIsLater(s, later, files, iso);
    RowsOfFinished(Execute(s, later, files, iso), files, iso, name);
  }

  function Fate(x: Sent, kept: bool): Step {
    if kept then Store(x) else Lose(x)
  }

  /** What one attempt does about a row if all goes well, or (not `kept`) if the broker refuses its event. */
  function RowSteps(attempt: nat, name: string, row: CsvRow, line: nat, kept: bool, iso: IsoParser): seq<Step> {
    match BuildEvent(row, name, iso)
    case Failed(_) => [ReadRow]
    case Built(event) =>
      var m := Message(name, line, event);
      [ReadRow, Fate(Sent(attempt, m), kept), Report(m, kept)]
  }

  function RowsSteps(attempt: nat, name: string, rows: seq<CsvRow>, kept: bool, iso: IsoParser): seq<Step> {
    if rows == [] then [] else
      var last := |rows| - 1;
      RowsSteps(attempt, name, rows[..last], kept, iso)
      + RowSteps(attempt, name, rows[last], last + FIRST_LINE, kept, iso)
  }

  lemma RowsStepsGrow(attempt: nat, name: string, rows: seq<CsvRow>, n: nat, kept: bool, iso: IsoParser)
    requires 1 <= n <= |rows|
    ensures RowsSteps(attempt, name, rows[..n], kept, iso)
            == RowsSteps(attempt, name, rows[..n - 1], kept, iso)
               + RowSteps(attempt, name, rows[n - 1], n - 1 + FIRST_LINE, kept, iso)
  {
    assert rows[..n][..n - 1] == rows[..n - 1];
  }

  /** From s to s' the job has read n more rows and sent these messages, and every fate is known. */
  predicate HasRead(s: State, s': State, n: nat, messages: seq<Message>, kept: bool) {
    && s.job.Sending? && s'.job.Sending?
    && s'.job.name == s.job.name && s'.job.todo == s.job.todo && s'.job.deliveredBefore == s.job.deliveredBefore
    && s'.job.read == s.job.read + n && s'.inFlight == s.inFlight && s'.attempts == s.attempts
    && s'.inbox == s.inbox && s'.processed == s.processed
    && s'.deliveredCount == s.deliveredCount + (if kept then |messages| else 0)
    && s'.published == s.published + Map(Stamp(s.attempts), messages)
    && s'.stored == s.stored + (if kept then Map(Stamp(s.attempts), messages) else [])
  }

  lemma ExecuteThree(s: State, a: Step, b: Step, c: Step, files: Files, iso: IsoParser)
    requires Enabled(s, a, files) && Enabled(Next(s, a, files, iso), b, files)
    requires Enabled(Next(Next(s, a, files, iso), b, files, iso), c, files)
    ensures Execute(s, [a, b, c], files, iso)
            == Next(Next(Next(s, a, files, iso), b, files, iso), c, files, iso)
  {
    assert Execute(s, [], files, iso) == s;
    ExecuteSnoc(s, [], a, files, iso);
    ExecuteSnoc(s, [a], b, files, iso);
    ExecuteSnoc(s, [a, b], c, files, iso);
    assert [] + [a] == [a] && [a] + [b] == [a, b] && [a, b] + [c] == [a, b, c];
  }

  lemma SentRowSteps(s: State, m: Message, kept: bool, files: Files, iso: IsoParser)
    requires s.job.Sending? && Enabled(s, ReadRow, files)
    requires BuildEvent(files[s.job.name].rows[s.job.read], s.job.name, iso) == Built(m.event)
    requires m == Message(s.job.name, s.job.read + FIRST_LINE, m.event)
    ensures
      var s1, fate := Next(s, ReadRow, files, iso), Fate(Sent(s.attempts, m), kept);
      && Enabled(s1, fate, files)
      && var s2 := Next(s1, fate, files, iso);
         && Enabled(s2, Report(m, kept), files)
         && HasRead(s, Next(s2, Report(m, kept), files, iso), 1, [m], kept)
  {
    var s1, x := NextRow(s, files, iso), Sent(s.attempts, m);
    assert x in s1.outstanding && m in s1.inFlight;
    assert s1.inFlight - multiset{m} == s.inFlight;
    assert Map(Stamp(s.attempts), [m]) == [x];
  }

  lemma SentRowRun(s: State, event: LegalEvent, kept: bool, files: Files, iso: IsoParser)
    requires s.job.Sending? && Enabled(s, ReadRow, files)
    requires BuildEvent(files[s.job.name].rows[s.job.read], s.job.name, iso) == Built(event)
    ensures
      var m := Message(s.job.name, s.job.read + FIRST_LINE, event);
      var steps := RowSteps(s.attempts, s.job.name, files[s.job.name].rows[s.job.read], m.line, kept, iso);
      HasRead(s, Execute(s, steps, files, iso), 1, [m], kept)
  {
    var m := Message(s.job.name, s.job.read + FIRST_LINE, event);
    SentRowSteps(s, m, kept, files, iso);
    ExecuteThree(s, ReadRow, Fate(Sent(s.attempts, m), kept), Report(m, kept), files, iso);
  }

  lemma RejectedRowRun(s: State, kept: bool, files: Files, iso: IsoParser)
    requires s.job.Sending? && Enabled(s, ReadRow, files)
    requires BuildEvent(files[s.job.name].rows[s.job.read], s.job.name, iso).Failed?
    ensures HasRead(s, Execute(s, [ReadRow], files, iso), 1, [], kept)
  {
    ExecuteSnoc(s, [], ReadRow, files, iso);
  }

  lemma HasReadMore(s: State, s1: State, s2: State, n: nat, a: seq<Message>, b: seq<Message>, kept: bool)
    requires HasRead(s, s1, n, a, kept) && HasRead(s1, s2, 1, b, kept)
    ensures HasRead(s, s2, n + 1, a + b, kept)
  {
    MapConcat(Stamp(s.attempts), a, b);
  }

  lemma OneMoreRowRun(s: State, s1: State, n: nat, kept: bool, files: Files, iso: IsoParser)
    requires s.job.Sending? && s.job.name in files && s.job.read == 0 && 1 <= n <= |files[s.job.name].rows|
    requires HasRead(s, s1, n - 1, MessagesOf(s.job.name, files[s.job.name].rows[..n - 1], iso), kept)
    ensures
      var rows := files[s.job.name].rows;
      var steps := RowSteps(s.attempts, s.job.name, rows[n - 1], n - 1 + FIRST_LINE, kept, iso);
      HasRead(s, Execute(s1, steps, files, iso), n, MessagesOf(s.job.name, rows[..n], iso), kept)
  {
    var name, rows := s.job.name, files[s.job.name].rows;
    var steps := RowSteps(s.attempts, name, rows[n - 1], n - 1 + FIRST_LINE, kept, iso);
    var s2, done := Execute(s1, steps, files, iso), MessagesOf(name, rows[..n - 1], iso);
    OneMoreRow(name, rows, iso, n - 1);
    match BuildEvent(rows[n - 1], name, iso)
    case Failed(_) =>
      RejectedRowRun(s1, kept, files, iso);
      HasReadMore(s, s1, s2, n - 1, done, [], kept);
    case Built(event) =>
      SentRowRun(s1, event, kept, files, iso);
      HasReadMore(s, s1, s2, n - 1, done, [Message(name, n - 1 + FIRST_LINE, event)], kept);
  }

  /** An attempt can read the first n rows and learn the fate of every event of theirs. */
  lemma {:induction false} RowsRun(s: State, n: nat, kept: bool, files: Files, iso: IsoParser)
    requires s.job.Sending? && s.job.name in files && s.job.read == 0 && n <= |files[s.job.name].rows|
    ensures
      var rows := files[s.job.name].rows[..n];
      HasRead(s, Execute(s, RowsSteps(s.attempts, s.job.name, rows, kept, iso), files, iso), n,
              MessagesOf(s.job.name, rows, iso), kept)
    decreases n
  {
    var name, all := s.job.name, files[s.job.name].rows;
    if n == 0 {
      assert all[..0] == [];
    } else {
      RowsRun(s, n - 1, kept, files, iso);
      var before := RowsSteps(s.attempts, name, all[..n - 1], kept, iso);
      OneMoreRowRun(s, Execute(s, before, files, iso), n, kept, files, iso);
      RowsStepsGrow(s.attempts, name, all, n, kept, iso);
      ExecuteConcat(s, before, RowSteps(s.attempts, name, all[n - 1], n - 1 + FIRST_LINE, kept, iso), files, iso);
    }
  }

  /** A whole attempt up to its check. */
  function AttemptSteps(attempt: nat, name: string, rows: seq<CsvRow>, kept: bool, iso: IsoParser): seq<Step> {
    [Open] + RowsSteps(attempt, name, rows, kept, iso)
  }

  predicate IsBeforeCheck(s: State, s': State, name: string, messages: seq<Message>, kept: bool) {
    && s'.job.Sending? && s'.job.name == name && s'.attempts == s.attempts + 1
    && s'.inFlight == multiset{} && s'.inbox == s.inbox && s'.processed == s.processed
    && s'.deliveredCount - s'.job.deliveredBefore == (if kept then |messages| else 0)
    && s'.published == s.published + Map(Stamp(s.attempts + 1), messages)
    && s'.stored == s.stored + (if kept then Map(Stamp(s.attempts + 1), messages) else [])
  }

  predicate IsOpened(s: State, s1: State, name: string) {
    && s1.job.Sending? && s1.job.name == name && s1.job.read == 0 && s1.job.deliveredBefore == s1.deliveredCount
    && s1.attempts == s.attempts + 1 && s1.inFlight == s.inFlight && s1.inbox == s.inbox
    && s1.processed == s.processed && s1.published == s.published && s1.stored == s.stored
  }

  lemma OpenRun(s: State, files: Files, iso: IsoParser, name: string)
    requires Enabled(s, Open, files) && s.job.todo[0] == name && name !in s.processed
    ensures IsOpened(s, Execute(s, [Open], files, iso), name)
  {
    ExecuteSnoc(s, [], Open, files, iso);
    assert [] + [Open] == [Open];
  }

  lemma ReadAfterOpen(s: State, s1: State, s2: State, name: string, n: nat, messages: seq<Message>, kept: bool)
    requires IsOpened(s, s1, name) && HasRead(s1, s2, n, messages, kept) && s.inFlight == multiset{}
    ensures IsBeforeCheck(s, s2, name, messages, kept) && s2.job.read == n
  {
  }

  lemma AttemptRun(s: State, kept: bool, files: Files, iso: IsoParser, name: string)
    requires Enabled(s, Open, files) && s.job.todo[0] == name && name !in s.processed && name in files
    requires s.inFlight == multiset{}
    ensures
      var rows := files[name].rows;
      var s' := Execute(s, AttemptSteps(s.attempts + 1, name, rows, kept, iso), files, iso);
      IsBeforeCheck(s, s', name, MessagesOf(name, rows, iso), kept) && s'.job.read == |rows|
  {
    var s1, rows := Execute(s, [Open], files, iso), files[name].rows;
    OpenRun(s, files, iso, name);
    RowsRun(s1, |rows|, kept, files, iso);
    assert rows[..|rows|] == rows;
    ExecuteConcat(s, [Open], RowsSteps(s1.attempts, name, rows, kept, iso), files, iso);
    ReadAfterOpen(s, s1, Execute(s1, RowsSteps(s1.attempts, name, rows, kept, iso), files, iso), name, |rows|,
                  MessagesOf(name, rows, iso), kept);
  }

  const FINISH: seq<Step> := [Confirm, WriteRejects, Copy]

  lemma FinishRun(s: State, files: Files, iso: IsoParser)
    requires Inv(s, files, iso) && s.job.Sending? && s.inFlight == multiset{} && s.job.read == |files[s.job.name].rows|
    requires !files[s.job.name].broken
    requires s.deliveredCount - s.job.deliveredBefore == |MessagesOf(s.job.name, files[s.job.name].rows, iso)|
    ensures
      var s', name := Execute(s, FINISH, files, iso), s.job.name;
      && name in s'.processed && name in s'.finishedBy && s'.finishedBy[name] == s.attempts
      && s'.stored == s.stored && s'.published == s.published
  {
    assert files[s.job.name].rows[..s.job.read] == files[s.job.name].rows;
    RowsAreSplit(s.job.name, files[s.job.name].rows, iso);
    ExecuteThree(s, Confirm, WriteRejects, Copy, files, iso);
  }

  function FullAttempt(attempt: nat, name: string, rows: seq<CsvRow>, iso: IsoParser): seq<Step> {
    AttemptSteps(attempt, name, rows, true, iso) + FINISH
  }

  /** A readable file can be finished by the attempt that is about to begin, whatever the topic holds. */
  lemma FullAttemptRun(s: State, files: Files, iso: IsoParser, name: string, attempt: nat)
    requires Inv(s, files, iso) && Enabled(s, Open, files) && s.job.todo[0] == name && name !in s.processed
    requires name in files && !files[name].broken && attempt == s.attempts + 1
    ensures
      var rows := files[name].rows;
      var s' := Execute(s, FullAttempt(attempt, name, rows, iso), files, iso);
      IsFinishedBy(s', name, attempt) && s'.stored == s.stored + Map(Stamp(attempt), MessagesOf(name, rows, iso))
  {
    var steps := AttemptSteps(attempt, name, files[name].rows, true, iso);
    AttemptRun(s, true, files, iso, name);
    RunKeepsInv(s, steps, files, iso);
    FinishRun(Execute(s, steps, files, iso), files, iso);
    ExecuteConcat(s, steps, FINISH, files, iso);
  }

  /** From a state with a trace, an attempt can finish the file although its rows will not be single. */
  lemma StoredTraceIsRepeated(s: State, files: Files, iso: IsoParser, name: string, attempt: nat, x: Sent)
    requires AllSound(s, files, iso) && Enabled(s, Open, files) && s.job.todo[0] == name && name !in s.processed
    requires name in files && !files[name].broken && attempt == s.attempts + 1
    requires x in s.stored && x.message.batch == name
    ensures
      var s' := Execute(s, FullAttempt(attempt, name, files[name].rows, iso), files, iso);
      IsFinishedBy(s', name, attempt) && !AreSingle(s', MessagesOf(name, files[name].rows, iso))
  {
    var steps := FullAttempt(attempt, name, files[name].rows, iso);
    FullAttemptRun(s, files, iso, name, attempt);
    RunKeepsAllSound(s, steps, files, iso);
    EarlierEventIsAnother(s, Execute(s, steps, files, iso), files, iso, name, x);
  }

  lemma StoreRun(s: State, files: Files, iso: IsoParser, x: Sent)
    requires AllSound(s, files, iso) && x in s.outstanding
    ensures
      var s1 := Execute(s, [Store(x)], files, iso);
      && AllSound(s1, files, iso) && x in s1.stored
      && s1.job == s.job && s1.processed == s.processed && s1.attempts == s.attempts
  {
    ExecuteSnoc(s, [], Store(x), files, iso);
    assert [] + [Store(x)] == [Store(x)];
    RunKeepsAllSound(s, [Store(x)], files, iso);
  }

  lemma OutstandingTraceIsRepeated(s: State, files: Files, iso: IsoParser, name: string, attempt: nat, x: Sent)
    requires AllSound(s, files, iso) && Enabled(s, Open, files) && s.job.todo[0] == name && name !in s.processed
    requires name in files && !files[name].broken && attempt == s.attempts + 1
    requires x in s.outstanding && x.message.batch == name
    ensures
      var s' := Execute(s, [Store(x)] + FullAttempt(attempt, name, files[name].rows, iso), files, iso);
      IsFinishedBy(s', name, attempt) && !AreSingle(s', MessagesOf(name, files[name].rows, iso))
  {
    StoreRun(s, files, iso, x);
    StoredTraceIsRepeated(Execute(s, [Store(x)], files, iso), files, iso, name, attempt, x);
    ExecuteConcat(s, [Store(x)], FullAttempt(attempt, name, files[name].rows, iso), files, iso);
  }

  lemma TraceIsRepeated(s: State, files: Files, iso: IsoParser, name: string) returns (later: seq<Step>)
    requires AllSound(s, files, iso) && Enabled(s, Open, files) && s.job.todo[0] == name && name !in s.processed
    requires name in files && !files[name].broken && !NoTraceOf(s, name)
    ensures
      var s' := Execute(s, later, files, iso);
      IsFinishedBy(s', name, s.attempts + 1) && !AreSingle(s', MessagesOf(name, files[name].rows, iso))
  {
    var x :| (x in s.stored || x in s.outstanding) && x.message.batch == name;
    later := FullAttempt(s.attempts + 1, name, files[name].rows, iso);
    if x in s.stored {
      StoredTraceIsRepeated(s, files, iso, name, s.attempts + 1, x);
    } else {
      OutstandingTraceIsRepeated(s, files, iso, name, s.attempts + 1, x);
      later := [Store(x)] + later;
    }
  }

  /** However the attempt that is about to begin goes on to finish the file, its rows are single. */
  ghost predicate EveryFinishIsSingle(s: State, name: string, files: Files, iso: IsoParser)
    requires name in files
  {
    forall later :: IsFinishedBy(Execute(s, later, files, iso), name, s.attempts + 1) ==>
      AreSingle(Execute(s, later, files, iso), MessagesOf(name, files[name].rows, iso))
  }

  lemma CleanStartDecides(s: State, files: Files, iso: IsoParser, name: string)
    requires AllSound(s, files, iso) && Enabled(s, Open, files) && s.job.todo[0] == name && name !in s.processed
    requires name in files && !files[name].broken
    ensures NoTraceOf(s, name) <==> EveryFinishIsSingle(s, name, files, iso)
  {
    if NoTraceOf(s, name) {
      forall later | IsFinishedBy(Execute(s, later, files, iso), name, s.attempts + 1)
        ensures AreSingle(Execute(s, later, files, iso), MessagesOf(name, files[name].rows, iso))
      {
        CleanStartSuffices(s, later, files, iso, name);
      }
    } else {
      var later := TraceIsRepeated(s, files, iso, name);
    }
  }

  /** What an attempt at a readable file must find for each row to become one event. When the file is about to
      be opened, every way in which this attempt may go on to finish it leaves each valid row in the topic
      once, if and only if the topic holds no event of the file and the broker cannot come to store one of an
      earlier attempt. */
  lemma CleanStartIsWhatItTakes(steps: seq<Step>, files: Files, iso: IsoParser, name: string)
    requires
      var s := Execute(INITIAL, steps, files, iso);
      Enabled(s, Open, files) && s.job.todo[0] == name && name !in s.processed
    requires name in files && !files[name].broken
    ensures
      var s := Execute(INITIAL, steps, files, iso);
      NoTraceOf(s, name) <==> EveryFinishIsSingle(s, name, files, iso)
  {
    RunKeepsAllSound(INITIAL, steps, files, iso);
    CleanStartDecides(Execute(INITIAL, steps, files, iso), files, iso, name);
  }

  /** A job that gets as far as the check of a file and ends there. */
  function FailedAttempt(name: string, rows: seq<CsvRow>, kept: bool, iso: IsoParser): seq<Step> {
    [Upload(name), Start([name])] + (AttemptSteps(1, name, rows, kept, iso) + [Crash])
  }

  /** And another one that finishes it. */
  function TwoAttempts(name: string, rows: seq<CsvRow>, kept: bool, iso: IsoParser): seq<Step> {
    FailedAttempt(name, rows, kept, iso) + ([Start([name])] + FullAttempt(2, name, rows, iso))
  }

  /** The state in which a job has listed this one file. */
  predicate IsListed(s: State, name: string) {
    s.job == Scanning([name]) && s.inFlight == multiset{} && s.inbox == {name}
  }

  lemma StartRun(s: State, files: Files, iso: IsoParser, name: string)
    requires s.job.Idle? && s.inbox == {name}
    ensures
      var s' := Execute(s, [Start([name])], files, iso);
      && IsListed(s', name) && s'.attempts == s.attempts && s'.processed == s.processed
      && s'.published == s.published && s'.stored == s.stored
  {
    ExecuteSnoc(s, [], Start([name]), files, iso);
    assert [] + [Start([name])] == [Start([name])];
  }

  lemma UploadRun(files: Files, iso: IsoParser, name: string)
    requires name in files
    ensures
      var s := Execute(INITIAL, [Upload(name), Start([name])], files, iso);
      IsListed(s, name) && s.attempts == 0 && s.processed == map[] && s.published == [] && s.stored == []
  {
    ExecuteSnoc(INITIAL, [], Upload(name), files, iso);
    assert [] + [Upload(name)] == [Upload(name)];
    StartRun(Execute(INITIAL, [Upload(name)], files, iso), files, iso, name);
    ExecuteConcat(INITIAL, [Upload(name)], [Start([name])], files, iso);
    assert [Upload(name)] + [Start([name])] == [Upload(name), Start([name])];
  }

  /** What such a job leaves behind. */
  predicate HasFailed(s: State, name: string, messages: seq<Message>, kept: bool) {
    && s.job.Idle? && s.inbox == {name} && s.attempts == 1 && s.processed == map[]
    && s.published == Map(Stamp(1), messages)
    && s.stored == if kept then Map(Stamp(1), messages) else []
  }

  lemma CrashRun(s: State, files: Files, iso: IsoParser)
    ensures
      var s' := Execute(s, [Crash], files, iso);
      && s'.job.Idle? && s'.inbox == s.inbox && s'.attempts == s.attempts && s'.processed == s.processed
      && s'.published == s.published && s'.stored == s.stored
  {
    ExecuteSnoc(s, [], Crash, files, iso);
    assert [] + [Crash] == [Crash];
  }

  lemma FailRun(s: State, files: Files, iso: IsoParser, name: string, kept: bool)
    requires name in files && IsListed(s, name)
    requires s.attempts == 0 && s.processed == map[] && s.published == [] && s.stored == []
    ensures
      var rows := files[name].rows;
      HasFailed(Execute(s, AttemptSteps(1, name, rows, kept, iso) + [Crash], files, iso), name,
                MessagesOf(name, rows, iso), kept)
  {
    var steps := AttemptSteps(1, name, files[name].rows, kept, iso);
    AttemptRun(s, kept, files, iso, name);
    CrashRun(Execute(s, steps, files, iso), files, iso);
    ExecuteConcat(s, steps, [Crash], files, iso);
  }

  lemma FailedAttemptRun(files: Files, iso: IsoParser, name: string, kept: bool)
    requires name in files
    ensures
      var s := Execute(INITIAL, FailedAttempt(name, files[name].rows, kept, iso), files, iso);
      HasFailed(s, name, MessagesOf(name, files[name].rows, iso), kept)
  {
    var begin := [Upload(name), Start([name])];
    UploadRun(files, iso, name);
    FailRun(Execute(INITIAL, begin, files, iso), files, iso, name, kept);
    ExecuteConcat(INITIAL, begin, AttemptSteps(1, name, files[name].rows, kept, iso) + [Crash], files, iso);
  }

  /** The topic holds more than one event for each of these rows. */
  ghost predicate AreRepeated(s: State, messages: seq<Message>) {
    forall m :: m in messages ==> |Filter(OfRow(m), s.stored)| >= 2
  }

  ghost predicate HasFate(s: State, messages: seq<Message>, kept: bool) {
    if kept then AreRepeated(s, messages) else AreSingle(s, messages)
  }

  /** What a failed attempt leaves in the topic decides, and both ways are open for every readable file with a
      usable row. If the broker stored what the attempt sent, each row is in the topic more than once after the
      next attempt; if it refused everything, once, although rows were handed to the client again. */
  lemma BothFatesArePossible(files: Files, iso: IsoParser, name: string, kept: bool)
    requires name in files && !files[name].broken && MessagesOf(name, files[name].rows, iso) != []
    ensures
      var s := Execute(INITIAL, TwoAttempts(name, files[name].rows, kept, iso), files, iso);
      var rows := MessagesOf(name, files[name].rows, iso);
      && name in s.processed
      && HasFate(s, rows, kept)
      && |Filter(OfFile(name), s.published)| > |rows|
  {
    var rows, first := files[name].rows, FailedAttempt(name, files[name].rows, kept, iso);
    var again := [Start([name])] + FullAttempt(2, name, rows, iso);
    FailedAttemptRun(files, iso, name, kept);
    ExecuteConcat(INITIAL, first, again, files, iso);
    SecondAttempt(first, files, iso, name, kept);
  }

  lemma SecondAttempt(first: seq<Step>, files: Files, iso: IsoParser, name: string, kept: bool)
    requires name in files && !files[name].broken && MessagesOf(name, files[name].rows, iso) != []
    requires HasFailed(Execute(INITIAL, first, files, iso), name, MessagesOf(name, files[name].rows, iso), kept)
    ensures
      var again := [Start([name])] + FullAttempt(2, name, files[name].rows, iso);
      var s' := Execute(Execute(INITIAL, first, files, iso), again, files, iso);
      && name in s'.processed
      && HasFate(s', MessagesOf(name, files[name].rows, iso), kept)
      && |Filter(OfFile(name), s'.published)| > |MessagesOf(name, files[name].rows, iso)|
  {
    RunKeepsAllSound(INITIAL, first, files, iso);
    var s, messages := Execute(INITIAL, first, files, iso), MessagesOf(name, files[name].rows, iso);
    var again := [Start([name])] + FullAttempt(2, name, files[name].rows, iso);
    SecondRun(s, files, iso, name, messages, kept);
    var x := Sent(1, messages[0]);
    assert x == Map(Stamp(1), messages)[0];
    RowsAreSplit(name, files[name].rows, iso);
    assert messages[0] in messages && x in s.published;
    InterruptedFilesAreHandedOverAgain(first, again, files, iso, name, x);
  }

  lemma SecondRun(s: State, files: Files, iso: IsoParser, name: string, messages: seq<Message>, kept: bool)
    requires AllSound(s, files, iso) && HasFailed(s, name, messages, kept)
    requires name in files && !files[name].broken && messages == MessagesOf(name, files[name].rows, iso) != []
    ensures
      var s' := Execute(s, [Start([name])] + FullAttempt(2, name, files[name].rows, iso), files, iso);
      name in s'.processed && HasFate(s', messages, kept)
  {
    var start, full := [Start([name])], FullAttempt(2, name, files[name].rows, iso);
    StartRun(s, files, iso, name);
    RunKeepsAllSound(s, start, files, iso);
    FullAttemptRun(Execute(s, start, files, iso), files, iso, name, 2);
    RunKeepsAllSound(Execute(s, start, files, iso), full, files, iso);
    SingleAfterSecond(Execute(Execute(s, start, files, iso), full, files, iso), files, iso, name, messages, kept);
    ExecuteConcat(s, start, full, files, iso);
  }

  lemma SingleAfterSecond(s: State, files: Files, iso: IsoParser, name: string, messages: seq<Message>, kept: bool)
    requires AllSound(s, files, iso) && name in s.processed && name in s.finishedBy && s.finishedBy[name] == 2
    requires name in files && messages == MessagesOf(name, files[name].rows, iso) != []
    requires s.stored == (if kept then Map(Stamp(1), messages) else []) + Map(Stamp(2), messages)
    ensures HasFate(s, messages, kept)
  {
    RowsOfFinished(s, files, iso, name);
    if kept {
      forall m | m in messages ensures |Filter(OfRow(m), s.stored)| >= 2 {
        FirstTryIsStored(s.stored, messages, m);
        assert Sent(1, m).attempt != 2;
      }
    } else {
      assert s.stored == Map(Stamp(2), messages);
    }
  }

  lemma FirstTryIsStored(stored: seq<Sent>, messages: seq<Message>, m: Message)
    requires stored == Map(Stamp(1), messages) + Map(Stamp(2), messages) && m in messages
    ensures Sent(1, m) in stored
  {
    var i :| 0 <= i < |messages| && messages[i] == m;
    assert stored[i] == Sent(1, m);
  }
}
