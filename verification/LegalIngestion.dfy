/** One run of the Legal ingestion job: publish every valid row of a file, and finish the file only if
    Kafka confirmed all of them. */
module LegalIngestion {
  import opened Collections
  import opened Prefixes
  import opened LegalParsing
  import opened LandingZone
  import opened Producer
  import opened Reports

  type LegalProducer = UnsubscribeProducer<Message>

  /** The body of the row loop; None if the queue stayed full. */
  method HandleRow(name: string, row: CsvRow, line: nat, iso: IsoParser, producer: LegalProducer, timeout: nat)
    returns (ok: bool, rejects: seq<Reject>)
    requires producer.Valid()
    modifies producer
    ensures producer.Valid()
    ensures old(producer.delivered) <= producer.delivered && old(producer.undelivered) <= producer.undelivered
    ensures ok ==> match BuildEvent(row, name, iso)
                   case Failed(error) =>
                     rejects == [Reject(line, row, error)] && producer.Sent() == old(producer.Sent())
                   case Built(event) =>
                     rejects == [] && producer.Sent() == old(producer.Sent()) + multiset{Message(name, line, event)}
  {
    match BuildEvent(row, name, iso)
    case Failed(error) =>
      return true, [Reject(line, row, error)];
    case Built(event) =>
      ok := producer.Enqueue(Message(name, line, event), timeout);
      rejects := [];
  }

  /** `process_batch`: send the valid rows, collect the others. Raises when the queue stays full or the
      file cannot be read to its end. */
  method ProcessBatch(name: string, file: File, iso: IsoParser, producer: LegalProducer, timeout: nat)
    returns (ok: bool, rowsRead: nat, rejects: seq<Reject>)
    requires producer.Valid()
    modifies producer
    ensures producer.Valid()
    ensures old(producer.delivered) <= producer.delivered && old(producer.undelivered) <= producer.undelivered
    ensures ok ==> !file.broken && rowsRead == |file.rows| && rejects == RejectsOf(name, file.rows, iso)
    ensures ok ==> producer.Sent() == old(producer.Sent()) + multiset(MessagesOf(name, file.rows, iso))
  {
    rowsRead, rejects := 0, [];
    for i := 0 to |file.rows|
      invariant producer.Valid() && rowsRead == i && rejects == RejectsOf(name, file.rows[..i], iso)
      invariant old(producer.delivered) <= producer.delivered && old(producer.undelivered) <= producer.undelivered
      invariant producer.Sent() == old(producer.Sent()) + multiset(MessagesOf(name, file.rows[..i], iso))
    {
      OneMoreRow(name, file.rows, iso, i);
      rowsRead := rowsRead + 1;
      var sent, rejected := HandleRow(name, file.rows[i], i + FIRST_LINE, iso, producer, timeout);
      if !sent {
        return false, rowsRead, rejects;
      }
      rejects := rejects + rejected;
    }
    assert file.rows[..|file.rows|] == file.rows;
    return !file.broken, rowsRead, rejects;
  }

  /** Kafka confirmed exactly these messages since the state described by the first three bags. */
  ghost predicate AllConfirmed(delivered: multiset<Message>, undelivered: multiset<Message>, messages: seq<Message>,
                               delivered': multiset<Message>, undelivered': multiset<Message>)
  {
    delivered' == delivered + multiset(messages) && undelivered' == undelivered
  }

  /** With an empty queue before and after, comparing counters is comparing messages: the difference of
      the delivered count equals the number of messages sent exactly when each of them was confirmed. */
  lemma CountsDecide(delivered: multiset<Message>, undelivered: multiset<Message>, messages: seq<Message>,
                     delivered': multiset<Message>, undelivered': multiset<Message>)
    requires delivered <= delivered' && undelivered <= undelivered'
    requires delivered' + undelivered' == delivered + undelivered + multiset(messages)
    ensures |delivered'| - |delivered| == |messages| <==>
              AllConfirmed(delivered, undelivered, messages, delivered', undelivered')
  {
    assert |delivered' + undelivered'| == |delivered + undelivered + multiset(messages)|;
    assert |delivered'| + |undelivered'| == |delivered| + |undelivered| + |messages|;
    assert undelivered' == undelivered + (undelivered' - undelivered);
    if |delivered'| - |delivered| == |messages| {
      assert |undelivered' - undelivered| == 0;
      assert undelivered' == undelivered;
      Cancel(delivered', delivered + multiset(messages), undelivered);
    }
  }

  lemma Cancel<T>(a: multiset<T>, b: multiset<T>, c: multiset<T>)
    requires a + c == b + c
    ensures a == b
  {
    assert a == (a + c) - c && b == (b + c) - c;
  }

  datatype FileResult = FileDone(rows: nat, sent: nat, rejected: nat) | FileRaised

  /** The body of the file loop in `main` for a file that is not yet processed. `landed` of the writes to
      the store survive. */
  method IngestFile(name: string, zones: Zones, iso: IsoParser, producer: LegalProducer, timeout: nat, landed: nat)
    returns (r: FileResult)
    requires Accepted(zones.z) && SlashFree(name) && InboxKey(zones.z, name) in zones.bucket
    requires zones.bucket[InboxKey(zones.z, name)].BatchFile?
    requires producer.Valid() && producer.inFlight == multiset{}
    modifies zones, producer
    ensures producer.Valid()
    ensures old(producer.delivered) <= producer.delivered
    ensures
      var file := old(zones.bucket)[InboxKey(zones.z, name)].file;
      var messages, rejects := MessagesOf(name, file.rows, iso), RejectsOf(name, file.rows, iso);
      // Done: everything confirmed, nothing in flight, and the three writes made.
      && (r.FileDone? ==>
            && producer.inFlight == multiset{}
            && producer.delivered == old(producer.delivered) + multiset(messages)
            && producer.undelivered == old(producer.undelivered)
            && r == FileDone(|file.rows|, |messages|, |rejects|)
            && zones.bucket == Finished(old(zones.bucket), zones.z, name, rejects, STORE_WRITES))
      // Raised: the store was not touched, or everything was confirmed before it was.
      && (r.FileRaised? ==>
            || zones.bucket == old(zones.bucket)
            || (multiset(messages) <= producer.delivered
                && zones.bucket == Finished(old(zones.bucket), zones.z, name, rejects, landed)))
  {
    var file := zones.bucket[InboxKey(zones.z, name)].file;
    var deliveredBefore := producer.deliveredCount;
    ghost var d0, u0 := producer.delivered, producer.undelivered;
    var ok, rowsRead, rejects := ProcessBatch(name, file, iso, producer, timeout);
    if !ok {
      var _ := FlushSome(producer);
      return FileRaised;
    }
    var stillQueued := FlushSome(producer);
    var delivered := producer.deliveredCount - deliveredBefore;
    var expected := rowsRead - |rejects|;
    ghost var messages := MessagesOf(name, file.rows, iso);
    RowsAreSplit(name, file.rows, iso);
    if stillQueued > 0 || delivered != expected {
      var _ := FlushSome(producer);
      return FileRaised;
    }
    assert producer.inFlight == multiset{};
    assert producer.Sent() == producer.delivered + producer.undelivered;
    assert old(producer.Sent()) == d0 + u0;
    CountsDecide(d0, u0, messages, producer.delivered, producer.undelivered);
    FinishFile(name, zones, rejects, landed);
    if landed < STORE_WRITES {
      var _ := FlushSome(producer);
      return FileRaised;
    }
    return FileDone(rowsRead, delivered, |rejects|);
  }

  method FlushSome(producer: LegalProducer) returns (stillQueued: nat)
    requires producer.Valid()
    modifies producer
    ensures producer.Valid() && producer.Sent() == old(producer.Sent())
    ensures old(producer.delivered) <= producer.delivered && old(producer.undelivered) <= producer.undelivered
    ensures stillQueued == |producer.inFlight|
  {
    var reports := AnyReports(producer.inFlight);
    stillQueued := producer.Flush(reports);
  }

  method FinishFile(name: string, zones: Zones, rejects: seq<Reject>, landed: nat)
    requires Accepted(zones.z) && SlashFree(name) && InboxKey(zones.z, name) in zones.bucket
    modifies zones
    ensures zones.bucket == Finished(old(zones.bucket), zones.z, name, rejects, landed)
  {
    if landed == 0 {
      return;
    }
    if rejects != [] {
      zones.WriteRejects(name, rejects);
    }
    zones.MarkProcessed(name, landed - 1);
  }

  /** Every file waiting in the inbox is a CSV file. */
  ghost predicate InboxHoldsFiles(bucket: Bucket, z: Zone) {
    forall key :: key in bucket && IsListed(z, key) ==> bucket[key].BatchFile?
  }

  ghost predicate ProcessedIsKept(before: Bucket, after: Bucket, z: Zone) {
    forall name :: SlashFree(name) && ProcessedKey(z, name) in before ==>
      ProcessedKey(z, name) in after && after[ProcessedKey(z, name)] == before[ProcessedKey(z, name)]
  }

  /** Every file of the inbox is still there as it was, or has been moved as it was. */
  ghost predicate NothingIsLost(before: Bucket, after: Bucket, z: Zone) {
    forall name :: SlashFree(name) && InboxKey(z, name) in before ==>
      (IsInTheInbox(before, after, z, name) || IsMoved(before, after, z, name))
  }

  predicate IsInTheInbox(before: Bucket, after: Bucket, z: Zone, name: string)
    requires InboxKey(z, name) in before
  {
    InboxKey(z, name) in after && after[InboxKey(z, name)] == before[InboxKey(z, name)]
  }

  predicate IsMoved(before: Bucket, after: Bucket, z: Zone, name: string)
    requires InboxKey(z, name) in before
  {
    ProcessedKey(z, name) in after && after[ProcessedKey(z, name)] == before[InboxKey(z, name)]
  }

  /** Wherever finishing a file is cut, every file stays in the inbox or is moved, and no processed object is
      overwritten. */
  lemma CutFinishingLosesNothing(bucket: Bucket, z: Zone, name: string, rejects: seq<Reject>, landed: nat)
    requires Accepted(z) && SlashFree(name) && InboxKey(z, name) in bucket && ProcessedKey(z, name) !in bucket
    ensures
      var after := Finished(bucket, z, name, rejects, landed);
      NothingIsLost(bucket, after, z) && ProcessedIsKept(bucket, after, z)
  {
    var after := Finished(bucket, z, name, rejects, landed);
    forall other | SlashFree(other)
      ensures InboxKey(z, other) in bucket ==> IsInTheInbox(bucket, after, z, other) || IsMoved(bucket, after, z, other)
      ensures ProcessedKey(z, other) in bucket ==>
                ProcessedKey(z, other) in after && after[ProcessedKey(z, other)] == bucket[ProcessedKey(z, other)]
    {
      KeySpacesAreSeparate(z, name, other);
      KeySpacesAreSeparate(z, other, name);
    }
  }

  lemma LosesNothingInTwoSteps(b0: Bucket, b1: Bucket, b2: Bucket, z: Zone)
    requires NothingIsLost(b0, b1, z) && ProcessedIsKept(b0, b1, z)
    requires NothingIsLost(b1, b2, z) && ProcessedIsKept(b1, b2, z)
    ensures NothingIsLost(b0, b2, z) && ProcessedIsKept(b0, b2, z)
  {
    forall name | SlashFree(name) && InboxKey(z, name) in b0
      ensures IsInTheInbox(b0, b2, z, name) || IsMoved(b0, b2, z, name)
    {
      assert IsInTheInbox(b0, b1, z, name) || IsMoved(b0, b1, z, name);
      if IsInTheInbox(b0, b1, z, name) {
        assert IsInTheInbox(b1, b2, z, name) || IsMoved(b1, b2, z, name);
      }
    }
  }

  /** What the loop promises about the store wherever it stops, counted from its beginning. */
  ghost predicate IsSafe(before: Bucket, after: Bucket, z: Zone) {
    NothingIsLost(before, after, z) && ProcessedIsKept(before, after, z)
  }

  lemma OneMoreFileIsSafe(b0: Bucket, before: Bucket, after: Bucket, z: Zone, name: string, rejects: seq<Reject>,
                          landed: nat)
    requires Accepted(z) && SlashFree(name) && InboxKey(z, name) in before && ProcessedKey(z, name) !in before
    requires IsSafe(b0, before, z) && (after == before || after == Finished(before, z, name, rejects, landed))
    ensures IsSafe(b0, after, z)
  {
    if after != before {
      CutFinishingLosesNothing(before, z, name, rejects, landed);
      LosesNothingInTwoSteps(b0, before, after, z);
    }
  }

  lemma FinishingKeepsFiles(bucket: Bucket, z: Zone, name: string, rejects: seq<Reject>)
    requires Accepted(z) && IsBatchName(name) && InboxKey(z, name) in bucket && InboxHoldsFiles(bucket, z)
    ensures InboxHoldsFiles(Finished(bucket, z, name, rejects, STORE_WRITES), z)
  {
    FinishingMovesOneFile(bucket, z, name, rejects);
    OnlyInboxFilesAreListed(z, name);
    var after := Finished(bucket, z, name, rejects, STORE_WRITES);
    forall key | key in after && IsListed(z, key) ensures after[key].BatchFile? {
      assert key !in {InboxKey(z, name), ProcessedKey(z, name), RejectKey(z, name)};
    }
  }

  lemma ListedNamesAreInTheInbox(bucket: Bucket, z: Zone, name: string)
    requires name in Batches(bucket, z)
    ensures IsBatchName(name) && InboxKey(z, name) in bucket && IsListed(z, InboxKey(z, name))
  {
    var key :| key in bucket && IsListed(z, key) && key[|z.inbox|..] == name;
    assert key == z.inbox + name;
  }

  /** A file of the loop that is not yet processed; `b0` is the store when the loop began. */
  method HandleFile(name: string, zones: Zones, iso: IsoParser, producer: LegalProducer, timeout: nat,
                    ghost b0: Bucket) returns (done: bool)
    requires Accepted(zones.z) && InboxHoldsFiles(zones.bucket, zones.z) && IsSafe(b0, zones.bucket, zones.z)
    requires name in Batches(zones.bucket, zones.z) && ProcessedKey(zones.z, name) !in zones.bucket
    requires producer.Valid() && producer.inFlight == multiset{}
    modifies zones, producer
    ensures producer.Valid() && IsSafe(b0, zones.bucket, zones.z)
    ensures done ==> producer.inFlight == multiset{} && InboxHoldsFiles(zones.bucket, zones.z)
    ensures done ==> ProcessedKey(zones.z, name) in zones.bucket
    ensures done ==> Batches(zones.bucket, zones.z) == Batches(old(zones.bucket), zones.z) - {name}
    ensures done ==> ProcessedIsKept(old(zones.bucket), zones.bucket, zones.z)
  {
    ghost var before, z := zones.bucket, zones.z;
    ListedNamesAreInTheInbox(before, z, name);
    var landed: nat := *;
    var r := IngestFile(name, zones, iso, producer, timeout, landed);
    ghost var rejects := RejectsOf(name, before[InboxKey(z, name)].file.rows, iso);
    if r.FileRaised? {
      OneMoreFileIsSafe(b0, before, zones.bucket, z, name, rejects, landed);
    } else {
      OneMoreFileIsSafe(b0, before, zones.bucket, z, name, rejects, STORE_WRITES);
      FinishingMovesOneFile(before, z, name, rejects);
      FinishingKeepsFiles(before, z, name, rejects);
      CutFinishingLosesNothing(before, z, name, rejects, STORE_WRITES);
    }
    done := r.FileDone?;
  }

  /** The file loop of `main`. If it ends without an exception, every file that was listed is under processed
      and no message is in flight. However it ends, no file is lost and no object under processed changed. */
  method Run(zones: Zones, iso: IsoParser, producer: LegalProducer, timeout: nat) returns (ok: bool, filesDone: nat)
    requires Accepted(zones.z) && InboxHoldsFiles(zones.bucket, zones.z)
    requires producer.Valid() && producer.inFlight == multiset{}
    modifies zones, producer
    ensures producer.Valid()
    ensures NothingIsLost(old(zones.bucket), zones.bucket, zones.z)
    ensures ProcessedIsKept(old(zones.bucket), zones.bucket, zones.z)
    ensures ok ==> producer.inFlight == multiset{}
    ensures ok ==> forall name :: name in Batches(old(zones.bucket), zones.z) ==>
            ProcessedKey(zones.z, name) in zones.bucket
  {
    var names := zones.ListBatches();
    ghost var z, b0 := zones.z, zones.bucket;
    filesDone := 0;
    for i := 0 to |names|
      invariant producer.Valid() && producer.inFlight == multiset{}
      invariant InboxHoldsFiles(zones.bucket, z) && IsSafe(b0, zones.bucket, z)
      invariant forall j :: i <= j < |names| ==> names[j] in Batches(zones.bucket, z)
      invariant forall j :: 0 <= j < |names| ==> SlashFree(names[j])
      invariant forall j :: 0 <= j < i ==> ProcessedKey(z, names[j]) in zones.bucket
    {
      var name := names[i];
      ListedNamesAreInTheInbox(zones.bucket, z, name);
      var processed := zones.AlreadyProcessed(name);
      if !processed {
        var done := HandleFile(name, zones, iso, producer, timeout, b0);
        if !done {
          return false, filesDone;
        }
        filesDone := filesDone + 1;
      }
    }
    forall name | name in Batches(b0, z) ensures ProcessedKey(z, name) in zones.bucket {
      assert name in Elements(names);
    }
    return true, filesDone;
  }
}
