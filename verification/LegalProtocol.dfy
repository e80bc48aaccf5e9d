/**
 Legal ingestion over all crash histories: one job at a time, which may die between any two of its
 steps and be started again. Files are identified by their names and do not change once uploaded.

 The three areas of the bucket are separate maps here, which is what the key-space lemma allows.
 */
module LegalProtocol {
  import opened Collections
  import opened LegalParsing

  type Files = map<string, File>

  datatype Job =
    | Idle
    | Scanning(todo: seq<string>)
    | Sending(name: string, todo: seq<string>, read: nat, rejects: seq<Reject>, deliveredBefore: nat,
              acks: multiset<Message>, fails: multiset<Message>)
    | Confirmed(name: string, todo: seq<string>, rejects: seq<Reject>)
    | RejectsWritten(name: string, todo: seq<string>, rejects: seq<Reject>)
    | Copied(name: string, todo: seq<string>)

  /** One event given to the Kafka client. Every attempt at a file generates its event ids anew, so the id of
      an event is the attempt together with the line. */
  datatype Sent = Sent(attempt: nat, message: Message)

  datatype State = State(
    inbox: set<string>,
    processed: Files,
    rejects: map<string, seq<Reject>>,
    attempts: nat,               // attempts at any files so far; the last one may be under way
    finishedBy: map<string, nat>, // the attempt that finished a processed file
    published: seq<Sent>,        // given to the Kafka client, by any run
    outstanding: set<Sent>,      // of these, what the broker may still store, also after the run has ended
    stored: seq<Sent>,           // and what the topic holds
    acked: set<Message>,         // acknowledged by Kafka to the run that sent them
    inFlight: multiset<Message>, // the client queue of the running job
    deliveredCount: nat,
    job: Job)

  datatype Step =
    | Upload(name: string)
    | Start(todo: seq<string>)
    | Open                          // take the next file, or skip it
    | ReadRow
    | Store(event: Sent)            // the broker stores an event
    | Lose(event: Sent)             // or will not: it refused it, or never got it
    | Report(message: Message, delivered: bool)
    | Confirm                       // the flush left nothing and the counts agree
    | WriteRejects
    | Copy
    | Delete
    | Stop                          // no file left
    | Crash                         // an exception, or the end of the process

  predicate Enabled(s: State, step: Step, files: Files) {
    match step
    case Upload(name) => name in files
    case Start(todo) => s.job.Idle? && Distinct(todo) && Elements(todo) == s.inbox
    case Open => s.job.Scanning? && s.job.todo != []
    case ReadRow => s.job.Sending? && s.job.name in files && s.job.read < |files[s.job.name].rows|
    case Store(event) => event in s.outstanding
    case Lose(event) => event in s.outstanding
    case Report(message, delivered) =>
      // Success is reported only for what is stored; a failure may be reported for an event that is stored,
      // or will be, all the same.
      s.job.Sending? && message in s.inFlight && (delivered ==> Sent(s.attempts, message) in s.stored)
    case Confirm =>
      && s.job.Sending? && s.job.name in files && !files[s.job.name].broken
      && s.job.read == |files[s.job.name].rows|
      && |s.inFlight| == 0
      && s.deliveredCount - s.job.deliveredBefore == s.job.read - |s.job.rejects|
    case WriteRejects => s.job.Confirmed?
    case Copy => s.job.RejectsWritten? && s.job.name in files
    case Delete => s.job.Copied?
    case Stop => s.job.Scanning? && s.job.todo == []
    case Crash => true
  }

  function NextRow(s: State, files: Files, iso: IsoParser): State
    requires Enabled(s, ReadRow, files)
  {
    var row := files[s.job.name].rows[s.job.read];
    var line := s.job.read + FIRST_LINE;
    match BuildEvent(row, s.job.name, iso)
    case Failed(error) =>
      s.(job := s.job.(read := s.job.read + 1, rejects := s.job.rejects + [Reject(line, row, error)]))
    case Built(event) =>
      var m := Message(s.job.name, line, event);
      s.(job := s.job.(read := s.job.read + 1), published := s.published + [Sent(s.attempts, m)],
         outstanding := s.outstanding + {Sent(s.attempts, m)}, inFlight := s.inFlight + multiset{m})
  }

  function NextReport(s: State, m: Message, delivered: bool): State
    requires s.job.Sending?
  {
    var s' := s.(inFlight := s.inFlight - multiset{m});
    if delivered then
      s'.(acked := s.acked + {m}, deliveredCount := s.deliveredCount + 1,
          job := s.job.(acks := s.job.acks + multiset{m}))
    else
      s'.(job := s.job.(fails := s.job.fails + multiset{m}))
  }

  function Next(s: State, step: Step, files: Files, iso: IsoParser): State
    requires Enabled(s, step, files)
  {
    match step
    case Upload(name) => s.(inbox := s.inbox + {name})
    case Start(todo) => s.(job := Scanning(todo), inFlight := multiset{}, deliveredCount := 0)
    case Open =>
      var name, rest := s.job.todo[0], s.job.todo[1..];
      if name in s.processed then s.(job := Scanning(rest))
      else s.(job := Sending(name, rest, 0, [], s.deliveredCount, multiset{}, multiset{}), attempts := s.attempts + 1)
    case ReadRow => NextRow(s, files, iso)
    case Store(x) => s.(stored := s.stored + [x], outstanding := s.outstanding - {x})
    case Lose(x) => s.(outstanding := s.outstanding - {x})
    case Report(m, delivered) => NextReport(s, m, delivered)
    case Confirm => s.(job := Confirmed(s.job.name, s.job.todo, s.job.rejects))
    case WriteRejects =>
      var written := if s.job.rejects == [] then s.rejects else s.rejects[s.job.name := s.job.rejects];
      s.(rejects := written, job := RejectsWritten(s.job.name, s.job.todo, s.job.rejects))
    case Copy =>
      s.(processed := s.processed[s.job.name := files[s.job.name]],
          finishedBy := s.finishedBy[s.job.name := s.attempts],
         job := Copied(s.job.name, s.job.todo))
    case Delete => s.(inbox := s.inbox - {s.job.name}, job := Scanning(s.job.todo))
    case Stop => s.(job := Idle)
    case Crash => s.(job := Idle, inFlight := multiset{})
  }

  const INITIAL: State := State({}, map[], map[], 0, map[], [], {}, [], {}, multiset{}, 0, Idle)

  function Execute(s: State, steps: seq<Step>, files: Files, iso: IsoParser): State {
    if steps == [] then s else
      var s' := Execute(s, steps[..|steps| - 1], files, iso);
      if Enabled(s', steps[|steps| - 1], files) then Next(s', steps[|steps| - 1], files, iso) else s'
  }

  lemma ExecuteSnoc(s: State, steps: seq<Step>, step: Step, files: Files, iso: IsoParser)
    requires Enabled(Execute(s, steps, files, iso), step, files)
    ensures Execute(s, steps + [step], files, iso) == Next(Execute(s, steps, files, iso), step, files, iso)
  {
    assert (steps + [step])[..|steps|] == steps;
  }

  lemma {:induction false} ExecuteConcat(s: State, steps: seq<Step>, later: seq<Step>, files: Files, iso: IsoParser)
    ensures Execute(s, steps + later, files, iso) == Execute(Execute(s, steps, files, iso), later, files, iso)
    decreases |later|
  {
    if later == [] {
      assert steps + later == steps;
    } else {
      assert (steps + later)[..|steps + later| - 1] == steps + later[..|later| - 1];
      ExecuteConcat(s, steps, later[..|later| - 1], files, iso);
    }
  }

  /******* What every step keeps *******/

  ghost predicate AllAcked(s: State, name: string, files: Files, iso: IsoParser)
    requires name in files
  {
    forall m :: m in MessagesOf(name, files[name].rows, iso) ==> m in s.acked
  }

  /** The reject file of this name, if there is any, holds exactly the unusable rows. */
  ghost predicate RejectsAreExact(s: State, name: string, files: Files, iso: IsoParser)
    requires name in files
  {
    var rejects := RejectsOf(name, files[name].rows, iso);
    if rejects == [] then name !in s.rejects else name in s.rejects && s.rejects[name] == rejects
  }

  ghost predicate IsComplete(s: State, name: string, files: Files, iso: IsoParser) {
    name in files && AllAcked(s, name, files, iso) && RejectsAreExact(s, name, files, iso)
  }

  ghost predicate ProcessedIsComplete(s: State, files: Files, iso: IsoParser) {
    forall name :: name in s.processed ==> IsComplete(s, name, files, iso) && s.processed[name] == files[name]
  }

  ghost predicate RejectFilesAreTrue(s: State, files: Files, iso: IsoParser) {
    forall name :: name in s.rejects ==>
      name in files && s.rejects[name] == RejectsOf(name, files[name].rows, iso) && s.rejects[name] != []
  }

  /** Queue, confirmations and failures account for what this attempt has sent, and the counters for the
      confirmations. */
  ghost predicate SendingIsSound(s: State, files: Files, iso: IsoParser)
    requires s.job.Sending?
  {
    && s.job.name in files && s.job.name !in s.processed
    && s.job.read <= |files[s.job.name].rows|
    && s.job.rejects == RejectsOf(s.job.name, files[s.job.name].rows[..s.job.read], iso)
    && s.inFlight + s.job.acks + s.job.fails
        == multiset(MessagesOf(s.job.name, files[s.job.name].rows[..s.job.read], iso))
    && s.deliveredCount == s.job.deliveredBefore + |s.job.acks|
    && (forall m :: m in s.job.acks ==> m in s.acked)
  }

  ghost predicate JobIsSound(s: State, files: Files, iso: IsoParser) {
    match s.job
    case Idle => true
    case Scanning(todo) => Elements(todo) <= files.Keys
    case Sending(_, todo, _, _, _, _, _) => Elements(todo) <= files.Keys && SendingIsSound(s, files, iso)
    case Confirmed(name, todo, rejects) =>
      && Elements(todo) <= files.Keys
      && name in files && name !in s.processed && AllAcked(s, name, files, iso)
      && rejects == RejectsOf(name, files[name].rows, iso)
    case RejectsWritten(name, todo, _) => Elements(todo) <= files.Keys && name !in s.processed
         && IsComplete(s, name, files, iso)
    case Copied(name, todo) => Elements(todo) <= files.Keys && name in s.processed
  }

  ghost predicate Inv(s: State, files: Files, iso: IsoParser) {
    && s.inbox <= files.Keys
    && ProcessedIsComplete(s, files, iso)
    && RejectFilesAreTrue(s, files, iso)
    && (!s.job.Sending? ==> s.inFlight == multiset{})
    && JobIsSound(s, files, iso)
  }

  lemma RejectedRowKeepsSending(s: State, error: RowError, files: Files, iso: IsoParser)
    requires s.job.Sending? && SendingIsSound(s, files, iso) && Enabled(s, ReadRow, files)
    requires BuildEvent(files[s.job.name].rows[s.job.read], s.job.name, iso) == Failed(error)
    ensures SendingIsSound(NextRow(s, files, iso), files, iso)
  {
    OneMoreRow(s.job.name, files[s.job.name].rows, iso, s.job.read);
  }

  lemma SentRowKeepsSending(s: State, event: LegalEvent, files: Files, iso: IsoParser)
    requires s.job.Sending? && SendingIsSound(s, files, iso) && Enabled(s, ReadRow, files)
    requires BuildEvent(files[s.job.name].rows[s.job.read], s.job.name, iso) == Built(event)
    ensures SendingIsSound(NextRow(s, files, iso), files, iso)
  {
    var rows := files[s.job.name].rows;
    OneMoreRow(s.job.name, rows, iso, s.job.read);
    var m, sent := Message(s.job.name, s.job.read + FIRST_LINE, event), MessagesOf(s.job.name, rows[..s.job.read], iso);
    var s' := NextRow(s, files, iso);
    assert s'.inFlight + s'.job.acks + s'.job.fails == multiset(sent + [m]) by {
      assert s.inFlight + multiset{m} + s.job.acks + s.job.fails == s.inFlight + s.job.acks + s.job.fails + multiset{m};
    }
  }

  lemma ReadRowKeepsSending(s: State, files: Files, iso: IsoParser)
    requires s.job.Sending? && SendingIsSound(s, files, iso) && Enabled(s, ReadRow, files)
    ensures SendingIsSound(Next(s, ReadRow, files, iso), files, iso)
  {
    match BuildEvent(files[s.job.name].rows[s.job.read], s.job.name, iso)
    case Failed(error) =>
      RejectedRowKeepsSending(s, error, files, iso);
    case Built(event) =>
      SentRowKeepsSending(s, event, files, iso);
  }

  lemma ReportKeepsSending(s: State, m: Message, delivered: bool, files: Files, iso: IsoParser)
    requires s.job.Sending? && SendingIsSound(s, files, iso) && m in s.inFlight
    ensures SendingIsSound(NextReport(s, m, delivered), files, iso)
  {
    var sent := s.inFlight + s.job.acks + s.job.fails;
    assert (s.inFlight - multiset{m}) + (s.job.acks + multiset{m}) + s.job.fails == sent;
    assert (s.inFlight - multiset{m}) + s.job.acks + (s.job.fails + multiset{m}) == sent;
  }

  /** The check before a file is finished, on counters alone, passes exactly when every valid row of the
      file was confirmed. */
  lemma CheckIsExact(s: State, files: Files, iso: IsoParser)
    requires s.job.Sending? && SendingIsSound(s, files, iso)
    requires s.job.read == |files[s.job.name].rows| && |s.inFlight| == 0
    ensures
      var messages := MessagesOf(s.job.name, files[s.job.name].rows, iso);
      && (s.deliveredCount - s.job.deliveredBefore == s.job.read - |s.job.rejects| <==>
          s.job.acks == multiset(messages))
      && (s.job.acks == multiset(messages) ==> AllAcked(s, s.job.name, files, iso))
  {
    var rows := files[s.job.name].rows;
    var messages := MessagesOf(s.job.name, rows, iso);
    assert rows[..s.job.read] == rows;
    RowsAreSplit(s.job.name, rows, iso);
    assert s.inFlight == multiset{};
    assert s.job.acks + s.job.fails == multiset(messages);
    assert |s.job.acks| + |s.job.fails| == |messages| by {
      assert |s.job.acks + s.job.fails| == |messages|;
    }
    if |s.job.fails| == 0 {
      assert s.job.fails == multiset{};
    }
    if s.job.acks == multiset(messages) {
      forall m | m in messages ensures m in s.acked {
        assert m in multiset(messages);
      }
    }
  }

  lemma WriteKeepsRejects(s: State, files: Files, iso: IsoParser)
    requires Inv(s, files, iso) && s.job.Confirmed?
    ensures
      var s' := Next(s, WriteRejects, files, iso);
      RejectFilesAreTrue(s', files, iso) && RejectsAreExact(s', s.job.name, files, iso)
          && ProcessedIsComplete(s', files, iso)
  {
    var s' := Next(s, WriteRejects, files, iso);
    forall name | name in s'.processed ensures IsComplete(s', name, files, iso) {
      assert IsComplete(s, name, files, iso) && name != s.job.name;
    }
  }

  lemma GrowthKeepsComplete(s: State, s': State, files: Files, iso: IsoParser)
    requires ProcessedIsComplete(s, files, iso)
    requires s'.processed == s.processed && s'.rejects == s.rejects && s.acked <= s'.acked
    ensures ProcessedIsComplete(s', files, iso)
  {
    forall name | name in s'.processed ensures IsComplete(s', name, files, iso) {
      assert IsComplete(s, name, files, iso);
    }
  }

  lemma CopyKeepsProcessed(s: State, files: Files, iso: IsoParser)
    requires Inv(s, files, iso) && Enabled(s, Copy, files)
    ensures ProcessedIsComplete(Next(s, Copy, files, iso), files, iso)
  {
    var s' := Next(s, Copy, files, iso);
    forall name | name in s'.processed ensures IsComplete(s', name, files, iso) && s'.processed[name] == files[name] {
      assert IsComplete(s, name, files, iso);
    }
  }

  /** Only two steps write under processed or rejects. */
  lemma OtherStepsWriteNothing(s: State, step: Step, files: Files, iso: IsoParser)
    requires Enabled(s, step, files) && !step.WriteRejects? && !step.Copy?
    ensures
      var s' := Next(s, step, files, iso);
      && s'.processed == s.processed && s'.rejects == s.rejects && s.acked <= s'.acked
      && (s.inbox <= files.Keys ==> s'.inbox <= files.Keys)
  {
    match step {
      case Upload(_) =>
      case Start(_) =>
      case Open =>
      case ReadRow =>
        assert NextRow(s, files, iso).acked == s.acked;
      case Store(_) =>
      case Lose(_) =>
      case Report(m, delivered) =>
        assert NextReport(s, m, delivered).processed == s.processed;
      case Confirm =>
      case Delete =>
      case Stop =>
      case Crash =>
    }
  }

  lemma NextKeepsAreas(s: State, step: Step, files: Files, iso: IsoParser)
    requires Inv(s, files, iso) && Enabled(s, step, files)
    ensures
      var s' := Next(s, step, files, iso);
      s'.inbox <= files.Keys && ProcessedIsComplete(s', files, iso) && RejectFilesAreTrue(s', files, iso)
  {
    if step.WriteRejects? {
      WriteKeepsRejects(s, files, iso);
    } else if step.Copy? {
      CopyKeepsProcessed(s, files, iso);
    } else {
      OtherStepsWriteNothing(s, step, files, iso);
      GrowthKeepsComplete(s, Next(s, step, files, iso), files, iso);
    }
  }

  lemma OpenKeepsJob(s: State, files: Files, iso: IsoParser)
    requires Inv(s, files, iso) && Enabled(s, Open, files)
    ensures JobIsSound(Next(s, Open, files, iso), files, iso)
  {
    assert s.job.todo[0] in Elements(s.job.todo) && Elements(s.job.todo[1..]) <= Elements(s.job.todo);
    assert s.job.todo[0] in files;
    assert files[s.job.todo[0]].rows[..0] == [];
  }

  lemma ConfirmKeepsJob(s: State, files: Files, iso: IsoParser)
    requires Inv(s, files, iso) && Enabled(s, Confirm, files)
    ensures JobIsSound(Next(s, Confirm, files, iso), files, iso)
  {
    CheckIsExact(s, files, iso);
    assert files[s.job.name].rows[..s.job.read] == files[s.job.name].rows;
    assert AllAcked(Next(s, Confirm, files, iso), s.job.name, files, iso);
  }

  lemma SendingKeepsJob(s: State, step: Step, files: Files, iso: IsoParser)
    requires Inv(s, files, iso) && Enabled(s, step, files) && (step.ReadRow? || step.Report?)
    ensures JobIsSound(Next(s, step, files, iso), files, iso)
  {
    if step.ReadRow? {
      ReadRowKeepsSending(s, files, iso);
    } else {
      ReportKeepsSending(s, step.message, step.delivered, files, iso);
    }
  }

  lemma NextKeepsJob(s: State, step: Step, files: Files, iso: IsoParser)
    requires Inv(s, files, iso) && Enabled(s, step, files)
    requires !step.Open? && !step.Confirm? && !step.ReadRow? && !step.Report?
    ensures JobIsSound(Next(s, step, files, iso), files, iso)
  {
    if step.WriteRejects? {
      WriteKeepsRejects(s, files, iso);
    }
  }

  lemma NextKeepsInv(s: State, step: Step, files: Files, iso: IsoParser)
    requires Inv(s, files, iso) && Enabled(s, step, files)
    ensures Inv(Next(s, step, files, iso), files, iso)
  {
    NextKeepsAreas(s, step, files, iso);
    if step.Open? {
      OpenKeepsJob(s, files, iso);
    } else if step.Confirm? {
      ConfirmKeepsJob(s, files, iso);
    } else if step.ReadRow? || step.Report? {
      SendingKeepsJob(s, step, files, iso);
    } else {
      NextKeepsJob(s, step, files, iso);
    }
  }

  lemma {:induction false} RunKeepsInv(s: State, steps: seq<Step>, files: Files, iso: IsoParser)
    requires Inv(s, files, iso)
    ensures Inv(Execute(s, steps, files, iso), files, iso)
    decreases |steps|
  {
    if steps != [] {
      RunKeepsInv(s, steps[..|steps| - 1], files, iso);
      var s' := Execute(s, steps[..|steps| - 1], files, iso);
      if Enabled(s', steps[|steps| - 1], files) {
        NextKeepsInv(s', steps[|steps| - 1], files, iso);
      }
    }
  }

  /******* The theorems *******/

  /** Whenever a file is under processed, Kafka has acknowledged an event for every valid row of it, and
      the reject file holds exactly the other rows, under their line numbers. */
  lemma ProcessedFilesAreComplete(steps: seq<Step>, files: Files, iso: IsoParser, name: string)
    requires name in Execute(INITIAL, steps, files, iso).processed
    ensures IsComplete(Execute(INITIAL, steps, files, iso), name, files, iso)
  {
    RunKeepsInv(INITIAL, steps, files, iso);
  }

  function OfFile(name: string): Sent -> bool {
    (x: Sent) => x.message.batch == name
  }

  /** From then on the name is finished for good: no event is published for it again, neither the
      processed object nor the reject file changes, even when a crash left the file in both places or
      the name is uploaded anew. */
  lemma {:induction false} ProcessedFilesAreFinal(s: State, later: seq<Step>, files: Files, iso: IsoParser,
                                                  name: string)
    requires Inv(s, files, iso) && name in s.processed
    ensures
      var s' := Execute(s, later, files, iso);
      && name in s'.processed && s'.processed[name] == s.processed[name]
      && Filter(OfFile(name), s'.published) == Filter(OfFile(name), s.published)
      && (name in s'.rejects <==> name in s.rejects)
      && (name in s.rejects ==> s'.rejects[name] == s.rejects[name])
    decreases |later|
  {
    if later != [] {
      var before, step := later[..|later| - 1], later[|later| - 1];
      ProcessedFilesAreFinal(s, before, files, iso, name);
      RunKeepsInv(s, before, files, iso);
      var s1 := Execute(s, before, files, iso);
      if Enabled(s1, step, files) {
        StepLeavesProcessedAlone(s1, step, files, iso, name);
      }
    }
  }

  lemma RowOfAnotherFile(s: State, files: Files, iso: IsoParser, name: string)
    requires Enabled(s, ReadRow, files) && s.job.name != name
    ensures
      var s' := NextRow(s, files, iso);
      && s'.processed == s.processed && s'.rejects == s.rejects
      && Filter(OfFile(name), s'.published) == Filter(OfFile(name), s.published)
  {
    var s' := NextRow(s, files, iso);
    if s'.published != s.published {
      FilterSnoc(OfFile(name), s.published, s'.published[|s.published|]);
    }
  }

  lemma OtherStepsHandOverNothing(s: State, step: Step, files: Files, iso: IsoParser)
    requires Enabled(s, step, files) && !step.ReadRow?
    ensures Next(s, step, files, iso).published == s.published
  {
    if !step.Open? && !step.Copy? {
      OtherStepsPublishNothing(s, step, files, iso);
    }
  }

  lemma StepLeavesProcessedAlone(s: State, step: Step, files: Files, iso: IsoParser, name: string)
    requires Inv(s, files, iso) && name in s.processed && Enabled(s, step, files)
    ensures
      var s' := Next(s, step, files, iso);
      && name in s'.processed && s'.processed[name] == s.processed[name]
      && Filter(OfFile(name), s'.published) == Filter(OfFile(name), s.published)
      && (name in s'.rejects <==> name in s.rejects)
      && (name in s.rejects ==> s'.rejects[name] == s.rejects[name])
  {
    if step.ReadRow? {
      RowOfAnotherFile(s, files, iso, name);
    } else {
      OtherStepsHandOverNothing(s, step, files, iso);
      if step.WriteRejects? || step.Copy? {
        assert s.job.name != name;
      } else {
        OtherStepsWriteNothing(s, step, files, iso);
      }
    }
  }

  /** The same, from the first upload on: any history, then any further history. */
  lemma ProcessedOnceAndForAll(earlier: seq<Step>, later: seq<Step>, files: Files, iso: IsoParser, name: string)
    requires name in Execute(INITIAL, earlier, files, iso).processed
    ensures
      var s := Execute(INITIAL, earlier, files, iso);
      var s' := Execute(s, later, files, iso);
      && name in files && name in s'.processed && s'.processed[name] == files[name]
      && Filter(OfFile(name), s'.published) == Filter(OfFile(name), s.published)
      && IsComplete(s', name, files, iso)
  {
    RunKeepsInv(INITIAL, earlier, files, iso);
    var s := Execute(INITIAL, earlier, files, iso);
    ProcessedFilesAreFinal(s, later, files, iso, name);
    RunKeepsInv(s, later, files, iso);
  }

  /******* How often a row is handed to the Kafka client *******/

  function OfAttempt(name: string, attempt: nat): Sent -> bool {
    (x: Sent) => x.message.batch == name && x.attempt == attempt
  }

  function Stamp(attempt: nat): Message -> Sent {
    (m: Message) => Sent(attempt, m)
  }

  /** This attempt has published exactly these rows of the file, in order. */
  predicate HasPublished(s: State, name: string, attempt: nat, messages: seq<Message>) {
    Filter(OfAttempt(name, attempt), s.published) == Map(Stamp(attempt), messages)
  }

  /** What the attempt under way has published so far. */
  ghost predicate CurrentIsSound(s: State, files: Files, iso: IsoParser) {
    match s.job
    case Idle => true
    case Scanning(_) => true
    case Sending(name, _, read, _, _, _, _) =>
      && name in files && read <= |files[name].rows|
      && HasPublished(s, name, s.attempts, MessagesOf(name, files[name].rows[..read], iso))
    case Confirmed(name, _, _) => name in files
         && HasPublished(s, name, s.attempts, MessagesOf(name, files[name].rows, iso))
    case RejectsWritten(name, _, _) => name in files
         && HasPublished(s, name, s.attempts, MessagesOf(name, files[name].rows, iso))
    case Copied(_, _) => true
  }

  ghost predicate FinishedIsSound(s: State, files: Files, iso: IsoParser) {
    forall name :: name in s.processed ==>
      && name in files && name in s.finishedBy && s.finishedBy[name] <= s.attempts
      && HasPublished(s, name, s.finishedBy[name], MessagesOf(name, files[name].rows, iso))
  }

  /** Every event is that of a usable row, of an attempt that has begun, and no two have the same id. */
  ghost predicate PublishedIsSound(s: State, files: Files, iso: IsoParser) {
    && Distinct(s.published)
    && forall x :: x in s.published ==>
         && x.attempt <= s.attempts && x.message.batch in files
         && x.message in MessagesOf(x.message.batch, files[x.message.batch].rows, iso)
  }

  ghost predicate PublicationIsSound(s: State, files: Files, iso: IsoParser) {
    CurrentIsSound(s, files, iso) && FinishedIsSound(s, files, iso) && PublishedIsSound(s, files, iso)
  }

  /** Steps that publish nothing and finish nothing leave these facts alone. */
  predicate SamePublication(s: State, s': State) {
    && s'.published == s.published && s'.attempts == s.attempts
    && s'.processed == s.processed && s'.finishedBy == s.finishedBy
  }

  lemma OtherStepsPublishNothing(s: State, step: Step, files: Files, iso: IsoParser)
    requires Enabled(s, step, files) && !step.Open? && !step.ReadRow? && !step.Copy?
    ensures SamePublication(s, Next(s, step, files, iso))
  {
    match step {
      case Upload(_) =>
      case Start(_) =>
      case Store(_) =>
      case Lose(_) =>
      case Report(m, delivered) =>
        assert SamePublication(s, NextReport(s, m, delivered));
      case Confirm =>
      case WriteRejects =>
      case Delete =>
      case Stop =>
      case Crash =>
    }
  }

  lemma OtherStepsKeepPublication(s: State, step: Step, files: Files, iso: IsoParser)
    requires PublicationIsSound(s, files, iso) && Enabled(s, step, files) && !step.Open? && !step.ReadRow?
             && !step.Copy?
    ensures PublicationIsSound(Next(s, step, files, iso), files, iso)
  {
    OtherStepsPublishNothing(s, step, files, iso);
    if step.Confirm? {
      assert files[s.job.name].rows[..s.job.read] == files[s.job.name].rows;
    }
    var s' := Next(s, step, files, iso);
    assert FinishedIsSound(s', files, iso) by {
      forall name | name in s'.processed
        ensures name in files && name in s'.finishedBy && s'.finishedBy[name] <= s'.attempts
        ensures HasPublished(s', name, s'.finishedBy[name], MessagesOf(name, files[name].rows, iso))
      {
        assert HasPublished(s, name, s.finishedBy[name], MessagesOf(name, files[name].rows, iso));
      }
    }
  }

  lemma OpenKeepsPublication(s: State, files: Files, iso: IsoParser)
    requires Inv(s, files, iso) && PublicationIsSound(s, files, iso) && Enabled(s, Open, files)
    ensures PublicationIsSound(Next(s, Open, files, iso), files, iso)
  {
    var s' := Next(s, Open, files, iso);
    var name := s.job.todo[0];
    assert name in Elements(s.job.todo);
    if s'.job.Sending? {
      assert files[name].rows[..0] == [];
      FilterNone(OfAttempt(name, s'.attempts), s.published);
      assert HasPublished(s', name, s'.attempts, []);
    }
    forall other | other in s'.processed
      ensures HasPublished(s', other, s'.finishedBy[other], MessagesOf(other, files[other].rows, iso))
    {
      assert HasPublished(s, other, s.finishedBy[other], MessagesOf(other, files[other].rows, iso));
    }
  }

  /** A usable row is published, as an event not published before. */
  lemma SentRowIsNew(s: State, event: LegalEvent, files: Files, iso: IsoParser)
    requires PublicationIsSound(s, files, iso) && s.job.Sending? && Enabled(s, ReadRow, files)
    requires BuildEvent(files[s.job.name].rows[s.job.read], s.job.name, iso) == Built(event)
    ensures
      var rows, m := files[s.job.name].rows, Message(s.job.name, s.job.read + FIRST_LINE, event);
      && MessagesOf(s.job.name, rows[..s.job.read + 1], iso) == MessagesOf(s.job.name, rows[..s.job.read], iso) + [m]
      && m in MessagesOf(s.job.name, rows, iso) && Sent(s.attempts, m) !in s.published
  {
    var rows, name, read := files[s.job.name].rows, s.job.name, s.job.read;
    var m := Message(name, read + FIRST_LINE, event);
    OneMoreRow(name, rows, iso, read);
    MessagesGrow(name, rows, iso, read + 1);
    assert m in MessagesOf(name, rows[..read + 1], iso);
    RowsAreSplit(name, rows[..read], iso);
    LaterLinesAreNew(s.published, name, s.attempts, MessagesOf(name, rows[..read], iso), m);
  }

  lemma LaterLinesAreNew(published: seq<Sent>, name: string, attempt: nat, done: seq<Message>, m: Message)
    requires Filter(OfAttempt(name, attempt), published) == Map(Stamp(attempt), done)
    requires m.batch == name && forall d :: d in done ==> d.line < m.line
    ensures Sent(attempt, m) !in published
  {
    var mine := Filter(OfAttempt(name, attempt), published);
    FilterMembers(OfAttempt(name, attempt), published);
    forall x | x in mine ensures x.message.line < m.line {
      var i :| 0 <= i < |mine| && mine[i] == x;
      assert done[i] in done;
    }
  }

  /** Publishing an event of one file changes nothing for an attempt at another one. */
  lemma OtherFilesStay(s: State, published: seq<Sent>, x: Sent, name: string, attempt: nat, messages: seq<Message>)
    requires HasPublished(s, name, attempt, messages) && published == s.published + [x] && x.message.batch != name
    ensures Filter(OfAttempt(name, attempt), published) == Map(Stamp(attempt), messages)
  {
    FilterSnoc(OfAttempt(name, attempt), s.published, x);
  }

  lemma CurrentGrows(s: State, x: Sent, name: string, messages: seq<Message>)
    requires HasPublished(s, name, x.attempt, messages) && x.message.batch == name
    ensures HasPublished(s.(published := s.published + [x]), name, x.attempt, messages + [x.message])
  {
    FilterSnoc(OfAttempt(name, x.attempt), s.published, x);
    MapConcat(Stamp(x.attempt), messages, [x.message]);
    assert Map(Stamp(x.attempt), [x.message]) == [x];
  }

  lemma SentRowKeepsPublication(s: State, event: LegalEvent, files: Files, iso: IsoParser)
    requires Inv(s, files, iso) && PublicationIsSound(s, files, iso) && Enabled(s, ReadRow, files)
    requires BuildEvent(files[s.job.name].rows[s.job.read], s.job.name, iso) == Built(event)
    ensures PublicationIsSound(NextRow(s, files, iso), files, iso)
  {
    var s', name := NextRow(s, files, iso), s.job.name;
    var x := Sent(s.attempts, Message(name, s.job.read + FIRST_LINE, event));
    SentRowIsNew(s, event, files, iso);
    CurrentGrows(s, x, name, MessagesOf(name, files[name].rows[..s.job.read], iso));
    forall other | other in s'.processed
      ensures HasPublished(s', other, s'.finishedBy[other], MessagesOf(other, files[other].rows, iso))
    {
      assert HasPublished(s, other, s.finishedBy[other], MessagesOf(other, files[other].rows, iso));
      OtherFilesStay(s, s'.published, x, other, s.finishedBy[other], MessagesOf(other, files[other].rows, iso));
    }
  }

  lemma ReadRowKeepsPublication(s: State, files: Files, iso: IsoParser)
    requires Inv(s, files, iso) && PublicationIsSound(s, files, iso) && Enabled(s, ReadRow, files)
    ensures PublicationIsSound(Next(s, ReadRow, files, iso), files, iso)
  {
    match BuildEvent(files[s.job.name].rows[s.job.read], s.job.name, iso)
    case Failed(error) =>
      OneMoreRow(s.job.name, files[s.job.name].rows, iso, s.job.read);
      var s' := NextRow(s, files, iso);
      forall other | other in s'.processed
        ensures HasPublished(s', other, s'.finishedBy[other], MessagesOf(other, files[other].rows, iso))
      {
        assert HasPublished(s, other, s.finishedBy[other], MessagesOf(other, files[other].rows, iso));
      }
    case Built(event) =>
      SentRowKeepsPublication(s, event, files, iso);
  }

  lemma CopyKeepsPublication(s: State, files: Files, iso: IsoParser)
    requires Inv(s, files, iso) && PublicationIsSound(s, files, iso) && Enabled(s, Copy, files)
    ensures PublicationIsSound(Next(s, Copy, files, iso), files, iso)
  {
    var s' := Next(s, Copy, files, iso);
    forall name | name in s'.processed
      ensures name in files && name in s'.finishedBy && s'.finishedBy[name] <= s'.attempts
      ensures HasPublished(s', name, s'.finishedBy[name], MessagesOf(name, files[name].rows, iso))
    {
      if name != s.job.name {
        assert HasPublished(s, name, s.finishedBy[name], MessagesOf(name, files[name].rows, iso));
      }
    }
  }

  lemma NextKeepsPublication(s: State, step: Step, files: Files, iso: IsoParser)
    requires Inv(s, files, iso) && PublicationIsSound(s, files, iso) && Enabled(s, step, files)
    ensures PublicationIsSound(Next(s, step, files, iso), files, iso)
  {
    if step.Open? {
      OpenKeepsPublication(s, files, iso);
    } else if step.ReadRow? {
      ReadRowKeepsPublication(s, files, iso);
    } else if step.Copy? {
      CopyKeepsPublication(s, files, iso);
    } else {
      OtherStepsKeepPublication(s, step, files, iso);
    }
  }

  lemma {:induction false} RunKeepsPublication(s: State, steps: seq<Step>, files: Files, iso: IsoParser)
    requires Inv(s, files, iso) && PublicationIsSound(s, files, iso)
    ensures PublicationIsSound(Execute(s, steps, files, iso), files, iso)
    decreases |steps|
  {
    if steps != [] {
      var before := steps[..|steps| - 1];
      RunKeepsPublication(s, before, files, iso);
      RunKeepsInv(s, before, files, iso);
      var s' := Execute(s, before, files, iso);
      if Enabled(s', steps[|steps| - 1], files) {
        NextKeepsPublication(s', steps[|steps| - 1], files, iso);
      }
    }
  }

  /** How often the rows of a processed file were handed to the Kafka client: the attempt that finished the
      file gave it each of them, under ids of its own, so each was given once exactly if no other attempt gave
      it any row of the file; and a row that another attempt gave it was given at least twice. What of this
      reaches the topic is another question (`LegalTopic`). */
  lemma RowsAreHandedOverOnceIffNoOtherAttemptDid(steps: seq<Step>, files: Files, iso: IsoParser, name: string)
    requires name in Execute(INITIAL, steps, files, iso).processed
    ensures
      var s := Execute(INITIAL, steps, files, iso);
      && name in files && name in s.finishedBy
      && var rows, last := MessagesOf(name, files[name].rows, iso), s.finishedBy[name];
         var all := Filter(OfFile(name), s.published);
         && HasPublished(s, name, last, rows) && Distinct(all)
         && (|all| == |rows| <==> forall x :: x in all ==> x.attempt == last)
         && (forall x :: x in all ==> Sent(last, x.message) in all)
  {
    RunKeepsInv(INITIAL, steps, files, iso);
    RunKeepsPublication(INITIAL, steps, files, iso);
    var s := Execute(INITIAL, steps, files, iso);
    var rows, last := MessagesOf(name, files[name].rows, iso), s.finishedBy[name];
    var all := Filter(OfFile(name), s.published);
    AttemptIsPartOfFile(s.published, name, last);
    FilterKeepsApart(OfFile(name), s.published);
    FilterMembers(OfFile(name), s.published);
    FilterMembers(OfAttempt(name, last), s.published);
    forall x | x in all ensures Sent(last, x.message) in all {
      var i :| 0 <= i < |rows| && rows[i] == x.message;
      assert Map(Stamp(last), rows)[i] in Filter(OfAttempt(name, last), s.published);
    }
  }

  lemma {:induction false} FilterKeepsApart(p: Sent -> bool, s: seq<Sent>)
    requires Distinct(s)
    ensures Distinct(Filter(p, s))
    decreases |s|
  {
    if s != [] {
      var u, x := s[..|s| - 1], s[|s| - 1];
      FilterKeepsApart(p, u);
      FilterMembers(p, u);
      var f := Filter(p, u);
      forall i | 0 <= i < |f| ensures f[i] != x {
        assert f[i] in f;
        var j :| 0 <= j < |u| && u[j] == f[i];
        assert s[j] != s[|u|];
      }
    }
  }

  lemma {:induction false} AttemptIsPartOfFile(published: seq<Sent>, name: string, last: nat)
    ensures
      var all, mine := Filter(OfFile(name), published), Filter(OfAttempt(name, last), published);
      |mine| <= |all| && (|mine| == |all| <==> forall x :: x in all ==> x.attempt == last)
    decreases |published|
  {
    if published != [] {
      var before, x := published[..|published| - 1], published[|published| - 1];
      AttemptIsPartOfFile(before, name, last);
      var all := Filter(OfFile(name), before);
      assert forall y :: y in all + [x] <==> y in all || y == x;
    }
  }

  /** Attempts are numbered on, events are never taken back, and what is finished later is finished by a
      later attempt. */
  ghost predicate LaterAttempts(s: State, s': State) {
    && s.published <= s'.published && s.attempts <= s'.attempts
    && (s'.job.Sending? || s'.job.Confirmed? || s'.job.RejectsWritten? ==> s.attempts < s'.attempts)
    && forall name :: name in s'.processed && name !in s.processed ==>
         name in s'.finishedBy && s.attempts < s'.finishedBy[name]
  }

  lemma NextKeepsLater(s: State, s1: State, step: Step, files: Files, iso: IsoParser)
    requires LaterAttempts(s, s1) && Enabled(s1, step, files)
    ensures LaterAttempts(s, Next(s1, step, files, iso))
  {
    if !step.Open? && !step.ReadRow? && !step.Copy? {
      OtherStepsPublishNothing(s1, step, files, iso);
    }
  }

  lemma {:induction false} RunKeepsLater(s: State, later: seq<Step>, files: Files, iso: IsoParser)
    requires s.job.Idle? || s.job.Scanning?
    ensures LaterAttempts(s, Execute(s, later, files, iso))
    decreases |later|
  {
    if later != [] {
      RunKeepsLater(s, later[..|later| - 1], files, iso);
      var s1 := Execute(s, later[..|later| - 1], files, iso);
      if Enabled(s1, later[|later| - 1], files) {
        NextKeepsLater(s, s1, later[|later| - 1], files, iso);
      }
    }
  }

  /** If a job has ended before a file was finished, but after an event of the file was given to the client,
      the file cannot become processed without being handed over again in full. */
  lemma InterruptedFilesAreHandedOverAgain(steps: seq<Step>, later: seq<Step>, files: Files, iso: IsoParser,
                                          name: string, x: Sent)
    requires
      var s := Execute(INITIAL, steps, files, iso);
      s.job.Idle? && name !in s.processed && x in s.published && x.message.batch == name
    requires name in Execute(Execute(INITIAL, steps, files, iso), later, files, iso).processed
    ensures
      var s' := Execute(Execute(INITIAL, steps, files, iso), later, files, iso);
      && name in files && name in s'.finishedBy && x.attempt < s'.finishedBy[name]
      && |Filter(OfFile(name), s'.published)| > |MessagesOf(name, files[name].rows, iso)|
  {
    RunKeepsInv(INITIAL, steps, files, iso);
    RunKeepsPublication(INITIAL, steps, files, iso);
    var s := Execute(INITIAL, steps, files, iso);
    RunKeepsPublication(s, later, files, iso);
    RunKeepsLater(s, later, files, iso);
    var s' := Execute(s, later, files, iso);
    AttemptIsPartOfFile(s'.published, name, s'.finishedBy[name]);
    FilterMembers(OfFile(name), s'.published);
    assert x in s'.published;
    assert HasPublished(s', name, s'.finishedBy[name], MessagesOf(name, files[name].rows, iso));
  }
}
