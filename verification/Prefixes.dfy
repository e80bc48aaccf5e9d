/** Where the Legal files live: prefixes of one bucket, and why they never run into each other. */
module Prefixes {
  import opened Collections

  predicate SlashFree(s: string) {
    '/' !in s
  }

  predicate IsSlash(c: char) {
    c == '/'
  }

  /** strip("/"). */
  function StripSlashes(s: string): string {
    Strip(IsSlash, s)
  }

  /** `as_prefix`: inner slashes are kept, outer ones replaced by one at the end. */
  function AsPrefix(value: string): string {
    if StripSlashes(value) == "" then "" else StripSlashes(value) + "/"
  }

  /** A setting is its inner part, one slash added: whatever slashes are around it, and no others. */
  lemma OuterSlashesAreReplaced(a: string, t: string, b: string)
    requires All(IsSlash, a) && All(IsSlash, b) && t != "" && t[0] != '/' && t[|t| - 1] != '/'
    ensures AsPrefix(a + t + b) == t + "/" && AsPrefix(a) == ""
  {
    StripsToTheMiddle(IsSlash, a, t, b);
    StrippedAwayIffAll(IsSlash, a);
  }

  predicate IsPrefixKey(prefix: string) {
    prefix != "" && prefix[|prefix| - 1] == '/'
  }

  /** Normalising a prefix twice is normalising it once, and what is not empty ends with a slash. */
  lemma AsPrefixIsIdempotent(value: string)
    ensures AsPrefix(AsPrefix(value)) == AsPrefix(value)
    ensures AsPrefix(value) != "" ==> IsPrefixKey(AsPrefix(value))
  {
    StrippedEnds(IsSlash, value);
    var t := StripSlashes(value);
    if t != "" {
      var p := t + "/";
      assert p[0] == t[0] && p[..|p| - 1] == t;
      assert StripSlashes(p) == StripSlashes(t) == t;
    }
  }

  lemma NoSlashBeyondThePrefix(p: string, name: string, p': string, name': string)
    requires IsPrefixKey(p') && SlashFree(name) && p + name == p' + name'
    ensures |p'| <= |p|
  {
    var key := p + name;
    assert key[|p'| - 1] == p'[|p'| - 1];
    assert forall i :: |p| <= i < |key| ==> key[i] == name[i - |p|] && name[i - |p|] in name;
  }

  /** A key determines the prefix and the slash-free name it was made of. */
  lemma KeysAreUnambiguous(p: string, name: string, p': string, name': string)
    requires IsPrefixKey(p) && IsPrefixKey(p') && SlashFree(name) && SlashFree(name')
    requires p + name == p' + name'
    ensures p == p' && name == name'
  {
    NoSlashBeyondThePrefix(p, name, p', name');
    NoSlashBeyondThePrefix(p', name', p, name);
    assert (p + name)[..|p|] == p && (p' + name')[..|p'|] == p';
    assert (p + name)[|p|..] == name && (p' + name')[|p'|..] == name';
  }

  function Lower(c: char): char {
    if 'A' <= c <= 'Z' then (c as int + 32) as char else c
  }

  predicate IsCsvName(name: string) {
    |name| >= 4 && Map(Lower, name[|name| - 4..]) == ".csv"
  }

  /** The names `list_batches` reports. */
  predicate IsBatchName(name: string) {
    SlashFree(name) && IsCsvName(name)
  }

  const REJECT_SUFFIX := ".rejects.csv"

  /** The three prefixes of one landing zone; the settings refuse empty and equal ones. */
  datatype Zone = Zone(inbox: string, processed: string, rejects: string)

  predicate Accepted(z: Zone) {
    && IsPrefixKey(z.inbox) && IsPrefixKey(z.processed) && IsPrefixKey(z.rejects)
    && z.inbox != z.processed && z.inbox != z.rejects && z.processed != z.rejects
  }

  datatype Configured = Configured(zone: Zone) | Refused

  /** The settings validator: three different, non-empty places after normalisation. */
  function Configure(inbox: string, processed: string, rejects: string): (r: Configured)
    ensures r.Configured? ==> Accepted(r.zone)
    ensures r.Configured? ==>
              && r.zone.inbox == StripSlashes(inbox) + "/" && r.zone.processed == StripSlashes(processed) + "/"
              && r.zone.rejects == StripSlashes(rejects) + "/"
    ensures r.Refused? <==>
              || StripSlashes(inbox) == "" || StripSlashes(processed) == "" || StripSlashes(rejects) == ""
              || StripSlashes(inbox) == StripSlashes(processed) || StripSlashes(inbox) == StripSlashes(rejects)
              || StripSlashes(processed) == StripSlashes(rejects)
  {
    var z := Zone(AsPrefix(inbox), AsPrefix(processed), AsPrefix(rejects));
    AsPrefixIsIdempotent(inbox);
    AsPrefixIsIdempotent(processed);
    AsPrefixIsIdempotent(rejects);
    SuffixCancels(StripSlashes(inbox), StripSlashes(processed));
    SuffixCancels(StripSlashes(inbox), StripSlashes(rejects));
    SuffixCancels(StripSlashes(processed), StripSlashes(rejects));
    if z.inbox == "" || z.processed == "" || z.rejects == "" then Refused
    else if |{z.inbox, z.processed, z.rejects}| != 3 then SizeOfThree(z); Refused
    else SizeOfThree(z); Configured(z)
  }

  predicate IsPlain(t: string) {
    t != "" && t[0] != '/' && t[|t| - 1] != '/'
  }

  /** Three different prefixes written with one slash at the end are accepted as they are. */
  lemma NormalPrefixesAreAccepted(t: string, u: string, v: string)
    requires IsPlain(t) && IsPlain(u) && IsPlain(v) && t != u && t != v && u != v
    ensures Configure(t + "/", u + "/", v + "/") == Configured(Zone(t + "/", u + "/", v + "/"))
  {
    StripsToTheMiddle(IsSlash, "", t, "/");
    StripsToTheMiddle(IsSlash, "", u, "/");
    StripsToTheMiddle(IsSlash, "", v, "/");
    assert "" + t + "/" == t + "/" && "" + u + "/" == u + "/" && "" + v + "/" == v + "/";
  }

  /** As the deployed ones are. */
  lemma DefaultsAreAccepted()
    ensures Configure("legal_inbox/", "legal_processed/", "legal_rejects/")
            == Configured(Zone("legal_inbox/", "legal_processed/", "legal_rejects/"))
  {
    assert "legal_inbox"[6] != "legal_processed"[6] && "legal_inbox"[6] != "legal_rejects"[6];
    assert |"legal_processed"| != |"legal_rejects"|;
    NormalPrefixesAreAccepted("legal_inbox", "legal_processed", "legal_rejects");
    assert "legal_inbox" + "/" == "legal_inbox/" && "legal_processed" + "/" == "legal_processed/";
    assert "legal_rejects" + "/" == "legal_rejects/";
  }

  lemma SuffixCancels(s: string, t: string)
    ensures s + "/" == t + "/" <==> s == t
  {
    assert (s + "/")[..|s|] == s && (t + "/")[..|t|] == t;
  }

  lemma SizeOfThree(z: Zone)
    ensures |{z.inbox, z.processed, z.rejects}| == 3 <==>
              z.inbox != z.processed && z.inbox != z.rejects && z.processed != z.rejects
  {
    if z.inbox == z.processed {
      assert {z.inbox, z.processed, z.rejects} == {z.inbox, z.rejects};
    } else if z.inbox == z.rejects || z.processed == z.rejects {
      assert {z.inbox, z.processed, z.rejects} == {z.inbox, z.processed};
    }
  }

  function InboxKey(z: Zone, name: string): string {
    z.inbox + name
  }

  function ProcessedKey(z: Zone, name: string): string {
    z.processed + name
  }

  function RejectKey(z: Zone, name: string): string {
    z.rejects + (name + REJECT_SUFFIX)
  }

  lemma RejectNamesAreSlashFree(name: string)
    requires SlashFree(name)
    ensures SlashFree(name + REJECT_SUFFIX)
  {
    assert SlashFree(REJECT_SUFFIX);
  }

  /** Inbox, processed and reject keys never coincide, not even when the prefixes are nested in each other
      or the names contain the reject suffix; and within one place the key determines the name. */
  lemma KeySpacesAreSeparate(z: Zone, a: string, b: string)
    requires Accepted(z) && SlashFree(a) && SlashFree(b)
    ensures InboxKey(z, a) != ProcessedKey(z, b)
    ensures InboxKey(z, a) != RejectKey(z, b)
    ensures ProcessedKey(z, a) != RejectKey(z, b)
    ensures InboxKey(z, a) == InboxKey(z, b) ==> a == b
    ensures ProcessedKey(z, a) == ProcessedKey(z, b) ==> a == b
    ensures RejectKey(z, a) == RejectKey(z, b) ==> a == b
  {
    RejectNamesAreSlashFree(a);
    RejectNamesAreSlashFree(b);
    if InboxKey(z, a) == ProcessedKey(z, b) {
      KeysAreUnambiguous(z.inbox, a, z.processed, b);
    }
    if InboxKey(z, a) == RejectKey(z, b) {
      KeysAreUnambiguous(z.inbox, a, z.rejects, b + REJECT_SUFFIX);
    }
    if ProcessedKey(z, a) == RejectKey(z, b) {
      KeysAreUnambiguous(z.processed, a, z.rejects, b + REJECT_SUFFIX);
    }
    if RejectKey(z, a) == RejectKey(z, b) {
      KeysAreUnambiguous(z.rejects, a + REJECT_SUFFIX, z.rejects, b + REJECT_SUFFIX);
      assert (a + REJECT_SUFFIX)[..|a|] == a && (b + REJECT_SUFFIX)[..|b|] == b;
    }
    if InboxKey(z, a) == InboxKey(z, b) {
      KeysAreUnambiguous(z.inbox, a, z.inbox, b);
    }
    if ProcessedKey(z, a) == ProcessedKey(z, b) {
      KeysAreUnambiguous(z.processed, a, z.processed, b);
    }
  }

  /** The filter of `list_batches` on one key of the bucket. */
  predicate IsListed(z: Zone, key: string) {
    z.inbox <= key && IsBatchName(key[|z.inbox|..])
  }

  /** A batch is a CSV file directly inside the inbox: the rest of its key has no slash and ends in `.csv`, in
      upper or lower case. */
  lemma BatchesAreCsvFiles(z: Zone, rest: string)
    ensures IsListed(z, z.inbox + rest) <==>
              && '/' !in rest && |rest| >= 4 && rest[|rest| - 4] == '.'
              && rest[|rest| - 3] in {'c', 'C'} && rest[|rest| - 2] in {'s', 'S'} && rest[|rest| - 1] in {'v', 'V'}
  {
    assert (z.inbox + rest)[|z.inbox|..] == rest;
    if |rest| >= 4 {
      var tail := rest[|rest| - 4..];
      assert tail == [rest[|rest| - 4], rest[|rest| - 3], rest[|rest| - 2], rest[|rest| - 1]];
      assert Map(Lower, tail) == [Lower(tail[0]), Lower(tail[1]), Lower(tail[2]), Lower(tail[3])];
      LowerOf('.', tail[0]);
      LowerOf('c', tail[1]);
      LowerOf('s', tail[2]);
      LowerOf('v', tail[3]);
    }
  }

  lemma LowerOf(low: char, c: char)
    requires low in {'.', 'c', 's', 'v'}
    ensures Lower(c) == low <==>
              c == low || (low == 'c' && c == 'C') || (low == 's' && c == 'S') || (low == 'v' && c == 'V')
  {
  }

  /** Nothing that was moved or rejected is ever listed as a batch. */
  lemma OnlyInboxFilesAreListed(z: Zone, name: string)
    requires Accepted(z) && SlashFree(name)
    ensures !IsListed(z, ProcessedKey(z, name)) && !IsListed(z, RejectKey(z, name))
    ensures IsListed(z, InboxKey(z, name)) <==> IsCsvName(name)
  {
    RejectNamesAreSlashFree(name);
    assert InboxKey(z, name)[|z.inbox|..] == name;
    if IsListed(z, ProcessedKey(z, name)) {
      var rest := ProcessedKey(z, name)[|z.inbox|..];
      assert z.inbox + rest == ProcessedKey(z, name);
      KeysAreUnambiguous(z.inbox, rest, z.processed, name);
    }
    if IsListed(z, RejectKey(z, name)) {
      var rest := RejectKey(z, name)[|z.inbox|..];
      assert z.inbox + rest == RejectKey(z, name);
      KeysAreUnambiguous(z.inbox, rest, z.rejects, name + REJECT_SUFFIX);
    }
  }
}
