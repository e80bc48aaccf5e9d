/** The landing zone inside the bucket: listing, the processed check, reject files, and the move that is
    a copy followed by a delete. */
module LandingZone {
  import opened Collections
  import opened Prefixes
  import opened LegalParsing

  datatype Object =
    | BatchFile(file: File)
    | RejectFile(name: string, rejects: seq<Reject>)
    | OtherObject

  type Bucket = map<string, Object>

  function KeysWithPrefix(bucket: Bucket, prefix: string): set<string> {
    set key | key in bucket && prefix <= key
  }

  /** The batches waiting in the inbox. */
  function Batches(bucket: Bucket, z: Zone): set<string> {
    set key | key in bucket && IsListed(z, key) :: key[|z.inbox|..]
  }

  function WithRejects(bucket: Bucket, z: Zone, name: string, rejects: seq<Reject>): Bucket {
    if rejects == [] then bucket else bucket[RejectKey(z, name) := RejectFile(name, rejects)]
  }

  function WithCopy(bucket: Bucket, z: Zone, name: string): Bucket
    requires InboxKey(z, name) in bucket
  {
    bucket[ProcessedKey(z, name) := bucket[InboxKey(z, name)]]
  }

  function WithoutInbox(bucket: Bucket, z: Zone, name: string): Bucket {
    bucket - {InboxKey(z, name)}
  }

  const STORE_WRITES: nat := 3

  /** The bucket after the first `landed` of the three writes that finish a file. */
  function Finished(bucket: Bucket, z: Zone, name: string, rejects: seq<Reject>, landed: nat): Bucket
    requires InboxKey(z, name) in bucket
  {
    if landed == 0 then bucket else
      var b1 := WithRejects(bucket, z, name, rejects);
      if landed == 1 then b1 else
        var b2 := WithCopy(b1, z, name);
        if landed == 2 then b2 else WithoutInbox(b2, z, name)
  }

  /** Listing depends on the listed keys alone. */
  lemma ListedKeysDecide(bucket: Bucket, z: Zone, after: Bucket, name: string)
    requires forall key :: IsListed(z, key) ==> (key in after <==> key in bucket && key != InboxKey(z, name))
    ensures Batches(after, z) == Batches(bucket, z) - {name}
  {
    forall n ensures n in Batches(after, z) <==> n in Batches(bucket, z) - {name} {
      if n in Batches(after, z) {
        var key :| key in after && IsListed(z, key) && key[|z.inbox|..] == n;
        assert key == z.inbox + n;
      }
      if n in Batches(bucket, z) - {name} {
        var key :| key in bucket && IsListed(z, key) && key[|z.inbox|..] == n;
        assert InboxKey(z, name)[|z.inbox|..] == name;
        assert key in after;
      }
    }
  }

  /** Finishing a file touches its own three keys only: the file ends up under processed as it was, the
      rejects beside it, and every other object is as before. */
  lemma FinishingMovesOneFile(bucket: Bucket, z: Zone, name: string, rejects: seq<Reject>)
    requires Accepted(z) && SlashFree(name) && InboxKey(z, name) in bucket
    ensures
      var after := Finished(bucket, z, name, rejects, STORE_WRITES);
      var waiting, done, rejected := z.inbox + name, z.processed + name, z.rejects + name + ".rejects.csv";
      && waiting in bucket && waiting !in after
      && done in after && after[done] == bucket[waiting]
      && (rejects != [] ==> rejected in after && after[rejected] == RejectFile(name, rejects))
      && (rejects == [] && rejected in bucket ==> rejected in after && after[rejected] == bucket[rejected])
      && (rejects == [] && rejected !in bucket ==> rejected !in after)
      && (forall key :: key !in {waiting, done, rejected} ==>
            (key in after <==> key in bucket) && (key in after ==> after[key] == bucket[key]))
      && Batches(after, z) == Batches(bucket, z) - {name}
  {
    KeySpacesAreSeparate(z, name, name);
    OnlyInboxFilesAreListed(z, name);
    assert RejectKey(z, name) == z.rejects + name + ".rejects.csv";
    ListedKeysDecide(bucket, z, Finished(bucket, z, name, rejects, STORE_WRITES), name);
  }

  class Zones {
    const z: Zone
    var bucket: Bucket

    constructor (z: Zone)
      requires Accepted(z)
      ensures this.z == z && bucket == map[]
    {
      this.z := z;
      bucket := map[];
    }

    /** `list_keys`, in some order. */
    method ListKeys(prefix: string) returns (keys: seq<string>)
      ensures Distinct(keys) && Elements(keys) == KeysWithPrefix(bucket, prefix)
    {
      keys := [];
      var left := KeysWithPrefix(bucket, prefix);
      while left != {}
        invariant Distinct(keys) && Elements(keys) !! left && Elements(keys) + left == KeysWithPrefix(bucket, prefix)
        decreases left
      {
        var key :| key in left;
        assert Elements(keys + [key]) == Elements(keys) + {key};
        keys := keys + [key];
        left := left - {key};
      }
    }

    /** `list_batches`: the CSV files directly inside the inbox, each once. */
    method ListBatches() returns (names: seq<string>)
      ensures Distinct(names) && Elements(names) == Batches(bucket, z)
    {
      var keys := ListKeys(z.inbox);
      names := [];
      for i := 0 to |keys|
        invariant Distinct(names)
        invariant forall n :: n in names <==> exists j :: 0 <= j < i && IsListed(z, keys[j]) && keys[j] == z.inbox + n
      {
        var key := keys[i];
        assert key in Elements(keys);
        var name := key[|z.inbox|..];
        assert key == z.inbox + name;
        if IsBatchName(name) {
          assert name !in names by {
            assert forall j :: 0 <= j < i ==> keys[j] != keys[i];
          }
          names := names + [name];
        }
      }
      forall n ensures n in names <==> n in Batches(bucket, z) {
        if n in names {
          var j :| 0 <= j < |keys| && IsListed(z, keys[j]) && keys[j] == z.inbox + n;
          assert keys[j] in Elements(keys);
        }
        if n in Batches(bucket, z) {
          var key :| key in bucket && IsListed(z, key) && key[|z.inbox|..] == n;
          assert key in Elements(keys) && key == z.inbox + n;
          var j :| 0 <= j < |keys| && keys[j] == key;
        }
      }
    }

    /** `already_processed`: an exact key, not a mere prefix of one. */
    method AlreadyProcessed(name: string) returns (yes: bool)
      ensures yes <==> ProcessedKey(z, name) in bucket
      ensures yes <==> z.processed + name in bucket
    {
      var keys := ListKeys(ProcessedKey(z, name));
      assert ProcessedKey(z, name) in KeysWithPrefix(bucket, ProcessedKey(z, name)) <==>
             ProcessedKey(z, name) in bucket;
      yes := ProcessedKey(z, name) in keys;
      assert yes <==> ProcessedKey(z, name) in Elements(keys);
    }

    method WriteRejects(name: string, rejects: seq<Reject>)
      modifies this
      ensures bucket == old(bucket)[RejectKey(z, name) := RejectFile(name, rejects)]
    {
      bucket := bucket[RejectKey(z, name) := RejectFile(name, rejects)];
    }

    /** `move`: copy first, delete second; `landed` of the two survive. */
    method MarkProcessed(name: string, landed: nat)
      requires InboxKey(z, name) in bucket
      modifies this
      ensures bucket == if landed == 0 then old(bucket)
                        else if landed == 1 then WithCopy(old(bucket), z, name)
                        else WithoutInbox(WithCopy(old(bucket), z, name), z, name)
    {
      if landed == 0 {
        return;
      }
      bucket := bucket[ProcessedKey(z, name) := bucket[InboxKey(z, name)]];
      if landed == 1 {
        return;
      }
      bucket := bucket - {InboxKey(z, name)};
    }
  }
}
