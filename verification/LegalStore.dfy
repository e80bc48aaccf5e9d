/**
 The bucket behind the three areas of the Legal protocol. Inbox, processed and rejects are separate maps
 there; here they are keys of one bucket, and the writes to it are the steps of the protocol because the key
 spaces do not overlap.
 */
module LegalStore {
  import opened Collections
  import opened Prefixes
  import opened LegalParsing
  import opened LandingZone
  import P = LegalProtocol

  ghost predicate InboxAgrees(bucket: Bucket, z: Zone, s: P.State, files: P.Files, name: string) {
    && (InboxKey(z, name) in bucket <==> name in s.inbox)
    && (name in s.inbox ==> name in files && bucket[InboxKey(z, name)] == BatchFile(files[name]))
  }

  ghost predicate ProcessedAgrees(bucket: Bucket, z: Zone, s: P.State, name: string) {
    && (ProcessedKey(z, name) in bucket <==> name in s.processed)
    && (name in s.processed ==> bucket[ProcessedKey(z, name)] == BatchFile(s.processed[name]))
  }

  ghost predicate RejectsAgree(bucket: Bucket, z: Zone, s: P.State, name: string) {
    && (RejectKey(z, name) in bucket <==> name in s.rejects)
    && (name in s.rejects ==> bucket[RejectKey(z, name)] == RejectFile(name, s.rejects[name]))
  }

  /** The bucket holds what the protocol state says, for every name that can be listed. */
  ghost predicate Represents(bucket: Bucket, z: Zone, s: P.State, files: P.Files) {
    forall name :: IsBatchName(name) ==>
      InboxAgrees(bucket, z, s, files, name) && ProcessedAgrees(bucket, z, s, name) && RejectsAgree(bucket, z, s, name)
  }

  /** Writing the reject object is the step `WriteRejects`: no inbox or processed object is touched, and no
      other file's rejects. */
  lemma WriteRejectsIsAStep(bucket: Bucket, z: Zone, s: P.State, files: P.Files, iso: IsoParser)
    requires Accepted(z) && Represents(bucket, z, s, files) && s.job.Confirmed? && IsBatchName(s.job.name)
    ensures Represents(WithRejects(bucket, z, s.job.name, s.job.rejects), z, P.Next(s, P.WriteRejects, files, iso),
            files)
  {
    var bucket', s' := WithRejects(bucket, z, s.job.name, s.job.rejects), P.Next(s, P.WriteRejects, files, iso);
    forall name | IsBatchName(name)
      ensures InboxAgrees(bucket', z, s', files, name) && ProcessedAgrees(bucket', z, s', name)
      ensures RejectsAgree(bucket', z, s', name)
    {
      KeySpacesAreSeparate(z, name, s.job.name);
      assert InboxAgrees(bucket, z, s, files, name) && ProcessedAgrees(bucket, z, s, name);
      assert RejectsAgree(bucket, z, s, name);
    }
  }

  /** The copy, first half of the move, is the step `Copy`. */
  lemma CopyIsAStep(bucket: Bucket, z: Zone, s: P.State, files: P.Files, iso: IsoParser)
    requires Accepted(z) && Represents(bucket, z, s, files) && s.job.RejectsWritten? && IsBatchName(s.job.name)
    requires s.job.name in s.inbox
    ensures InboxKey(z, s.job.name) in bucket && P.Enabled(s, P.Copy, files)
    ensures Represents(WithCopy(bucket, z, s.job.name), z, P.Next(s, P.Copy, files, iso), files)
  {
    assert InboxAgrees(bucket, z, s, files, s.job.name);
    var bucket', s' := WithCopy(bucket, z, s.job.name), P.Next(s, P.Copy, files, iso);
    forall name | IsBatchName(name)
      ensures InboxAgrees(bucket', z, s', files, name) && ProcessedAgrees(bucket', z, s', name)
      ensures RejectsAgree(bucket', z, s', name)
    {
      KeySpacesAreSeparate(z, name, s.job.name);
      KeySpacesAreSeparate(z, s.job.name, name);
      assert InboxAgrees(bucket, z, s, files, name) && ProcessedAgrees(bucket, z, s, name);
      assert RejectsAgree(bucket, z, s, name);
    }
  }

  /** The delete, second half of the move, is the step `Delete`. */
  lemma DeleteIsAStep(bucket: Bucket, z: Zone, s: P.State, files: P.Files, iso: IsoParser)
    requires Accepted(z) && Represents(bucket, z, s, files) && s.job.Copied? && IsBatchName(s.job.name)
    ensures Represents(WithoutInbox(bucket, z, s.job.name), z, P.Next(s, P.Delete, files, iso), files)
  {
    var bucket', s' := WithoutInbox(bucket, z, s.job.name), P.Next(s, P.Delete, files, iso);
    forall name | IsBatchName(name)
      ensures InboxAgrees(bucket', z, s', files, name) && ProcessedAgrees(bucket', z, s', name)
      ensures RejectsAgree(bucket', z, s', name)
    {
      KeySpacesAreSeparate(z, s.job.name, name);
      assert InboxAgrees(bucket, z, s, files, name) && ProcessedAgrees(bucket, z, s, name);
      assert RejectsAgree(bucket, z, s, name);
    }
  }

  /** The writes that finish a file, in their order. */
  function FinishingSteps(landed: nat): seq<P.Step> {
    if landed == 0 then [] else
      FinishingSteps(landed - 1)
      + [if landed == 1 then P.WriteRejects else if landed == 2 then P.Copy else P.Delete]
  }

  /** The job after that many of its last three steps. */
  lemma JobWhileFinishing(s: P.State, files: P.Files, iso: IsoParser, landed: nat)
    requires s.job.Confirmed? && s.job.name in files && landed <= 2
    ensures
      var s', name := P.Execute(s, FinishingSteps(landed), files, iso), s.job.name;
      && s'.inbox == s.inbox
      && (landed == 0 ==> s' == s)
      && (landed == 1 ==> s'.job == P.RejectsWritten(name, s.job.todo, s.job.rejects))
      && (landed == 2 ==> s'.job == P.Copied(name, s.job.todo))
  {
    if landed >= 1 {
      JobWhileFinishing(s, files, iso, landed - 1);
      P.ExecuteSnoc(s, FinishingSteps(landed - 1), if landed == 1 then P.WriteRejects else P.Copy, files, iso);
    }
  }

  /** Finishing a confirmed file, cut after any of its writes, is a run of the protocol: what the bucket then
      holds is what the protocol says after as many steps. */
  lemma {:induction false} FinishingIsARun(bucket: Bucket, z: Zone, s: P.State, files: P.Files, iso: IsoParser,
                                           landed: nat)
    requires Accepted(z) && Represents(bucket, z, s, files) && s.job.Confirmed? && IsBatchName(s.job.name)
    requires s.job.name in s.inbox && landed <= STORE_WRITES
    ensures InboxKey(z, s.job.name) in bucket && s.job.name in files
    ensures Represents(Finished(bucket, z, s.job.name, s.job.rejects, landed), z,
                       P.Execute(s, FinishingSteps(landed), files, iso), files)
    decreases landed
  {
    assert InboxAgrees(bucket, z, s, files, s.job.name);
    if landed >= 1 {
      FinishingIsARun(bucket, z, s, files, iso, landed - 1);
      JobWhileFinishing(s, files, iso, landed - 1);
      var s' := P.Execute(s, FinishingSteps(landed - 1), files, iso);
      var b' := Finished(bucket, z, s.job.name, s.job.rejects, landed - 1);
      if landed == 1 {
        WriteRejectsIsAStep(b', z, s', files, iso);
        P.ExecuteSnoc(s, FinishingSteps(0), P.WriteRejects, files, iso);
      } else if landed == 2 {
        CopyIsAStep(b', z, s', files, iso);
        P.ExecuteSnoc(s, FinishingSteps(1), P.Copy, files, iso);
      } else {
        DeleteIsAStep(b', z, s', files, iso);
        P.ExecuteSnoc(s, FinishingSteps(2), P.Delete, files, iso);
      }
    }
  }

  /** The listing of the inbox is the protocol's inbox, and the processed check is its processed area. */
  lemma ListingIsTheInbox(bucket: Bucket, z: Zone, s: P.State, files: P.Files)
    requires Accepted(z) && Represents(bucket, z, s, files)
    ensures forall name :: name in Batches(bucket, z) <==> name in s.inbox && IsBatchName(name)
  {
    forall name ensures name in Batches(bucket, z) <==> name in s.inbox && IsBatchName(name) {
      if name in Batches(bucket, z) {
        var key :| key in bucket && IsListed(z, key) && key[|z.inbox|..] == name;
        assert key == InboxKey(z, name);
        assert InboxAgrees(bucket, z, s, files, name);
      }
      if name in s.inbox && IsBatchName(name) {
        assert InboxAgrees(bucket, z, s, files, name);
        OnlyInboxFilesAreListed(z, name);
        assert InboxKey(z, name)[|z.inbox|..] == name;
      }
    }
  }
}
