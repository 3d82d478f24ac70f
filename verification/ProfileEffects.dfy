/** What the registry of local profiles stores, call by call. */
module ProfileEffects {
  import opened Wrappers
  import opened Utf16
  import opened ProfileLabels
  import opened ProfileIds
  import opened LocalProfiles
  import opened LocalProfileTheorems
  import opened LocalProfileRegistries

  // ---- calls that are carried out ----

  /** An accepted update gives the named profile its new label and switch, where given, and leaves all else as it is. */
  lemma WhatAnUpdateStores(rules: Rules, s: State, id: Text, name: Option<Text>, autoStart: Option<bool>, discovered: seq<Candidate>)
    requires Valid(rules, s) && Apply(rules, s, Call(Update(id, name, autoStart), discovered)).accepted
    ensures var merged := ReadMerged(rules, s, discovered).stored;
            var after := Apply(rules, s, Call(Update(id, name, autoStart), discovered)).stored;
            && after.ignored == merged.ignored && |after.records| == |merged.records| && id in Ids(after.records)
            && forall i :: 0 <= i < |merged.records| ==>
                 && (merged.records[i].profileId != id ==> after.records[i] == merged.records[i])
                 && (merged.records[i].profileId == id ==>
                       && after.records[i].profileId == id
                       && after.records[i].name == (if name.Some? then name.value else merged.records[i].name)
                       && after.records[i].autoStart == (if autoStart.Some? then autoStart.value else merged.records[i].autoStart))
  {
    var merged := ReadMerged(rules, s, discovered).stored;
    ReadingAppends(rules, s, discovered);
    ApplyKeeps(rules, s, Call(Update(id, name, autoStart), discovered));
    FindFinds(merged.records, id);
    var k := FindAt(merged.records, id);
    assert Apply(rules, s, Call(Update(id, name, autoStart), discovered)).stored.records[k].profileId == id;
  }

  /** An accepted add puts the new profile last and lifts its tombstone, if it had one. */
  lemma WhatAnAddStores(rules: Rules, s: State, id: Text, name: Text, on: bool, discovered: seq<Candidate>)
    requires Valid(rules, s) && Apply(rules, s, Call(Add(id, name, on), discovered)).accepted
    ensures var merged := ReadMerged(rules, s, discovered).stored;
            var after := Apply(rules, s, Call(Add(id, name, on), discovered)).stored;
            && after.records == merged.records + [Record(id, name, on)]
            && forall x :: x in after.ignored <==> x in merged.ignored && x != id
  {
    var merged := ReadMerged(rules, s, discovered).stored;
    ApplyKeeps(rules, s, Call(Add(id, name, on), discovered));
    WithoutIs(merged.ignored, id);
  }

  /** An accepted removal takes the profile off the list, where the others keep their places, and leaves a tombstone. */
  lemma WhatARemovalStores(rules: Rules, s: State, id: Text, discovered: seq<Candidate>)
    requires Valid(rules, s) && Apply(rules, s, Call(Remove(id), discovered)).accepted
    ensures var merged := ReadMerged(rules, s, discovered).stored;
            var after := Apply(rules, s, Call(Remove(id), discovered)).stored;
            && after.ignored == merged.ignored + [id]
            && exists at :: 0 <= at < |merged.records| && merged.records[at].profileId == id
                            && after.records == merged.records[..at] + merged.records[at + 1..]
  {
    var merged := ReadMerged(rules, s, discovered).stored;
    ReadingAppends(rules, s, discovered);
    ApplyKeeps(rules, s, Call(Remove(id), discovered));
    FindFinds(merged.records, id);
    var at := FindAt(merged.records, id);
    if id in merged.ignored { ApartIds(merged, id); }
    WithoutIdAt(merged.records, at);
  }

  lemma {:induction false} WithoutIdAt(records: seq<Record>, at: nat)
    requires at < |records| && DistinctIds(records)
    ensures WithoutId(records, records[at].profileId) == records[..at] + records[at + 1..]
  {
    if at > 0 {
      WithoutIdAt(records[1..], at - 1);
      assert records[..at] == [records[0]] + records[1..][..at - 1];
      assert records[0].profileId != records[at].profileId;
    } else {
      WithoutIdAbsent(records[1..], records[0].profileId);
    }
  }

  lemma {:induction false} WithoutIdAbsent(records: seq<Record>, id: Text)
    requires forall i :: 0 <= i < |records| ==> records[i].profileId != id
    ensures WithoutId(records, id) == records
  {
    if records != [] { WithoutIdAbsent(records[1..], id); }
  }

  /** The label a profile is added with: what is left of the given one, or the one derived from its id; off unless asked. */
  lemma WhatIsAdded(s: State, id: Text, title: Option<Text>, autoStart: Option<bool>, discovered: seq<Candidate>)
    requires Valid(RULES, s) && Apply(RULES, s, Call(AddOf(id, title, autoStart), discovered)).accepted
    ensures var merged := ReadMerged(RULES, s, discovered).stored;
            Apply(RULES, s, Call(AddOf(id, title, autoStart), discovered)).stored.records ==
            merged.records + [Record(id, SafeLabel(title, DerivedLabel(id)), autoStart == Some(true))]
  {
    WhatAnAddStores(RULES, s, id, Or(Given(title), DerivedLabel(id)), Or(autoStart, false), discovered);
  }

  /** The label a profile is updated to: what is left of the given one; a blank one changes nothing. */
  lemma WhatIsUpdated(s: State, id: Text, title: Option<Text>, autoStart: Option<bool>, discovered: seq<Candidate>, i: nat)
    requires Valid(RULES, s) && Apply(RULES, s, Call(UpdateOf(id, title, autoStart), discovered)).accepted
    requires i < |ReadMerged(RULES, s, discovered).stored.records|
    requires ReadMerged(RULES, s, discovered).stored.records[i].profileId == id
    ensures var before := ReadMerged(RULES, s, discovered).stored.records[i];
            var after := Apply(RULES, s, Call(UpdateOf(id, title, autoStart), discovered)).stored;
            && |after.records| > i
            && after.records[i] == Record(id, SafeLabel(title, before.name), if autoStart.Some? then autoStart.value else before.autoStart)
  {
    WhatAnUpdateStores(RULES, s, id, Given(title), autoStart, discovered);
  }

  // ---- discovery ----

  /** The first candidate that is a good record of some profile. */
  ghost predicate IsFirst(rules: Rules, discovered: seq<Candidate>, k: nat) {
    && k < |discovered| && discovered[k].Shaped? && Good(rules, discovered[k].record)
    && forall j :: 0 <= j < k && discovered[j].Shaped? && Good(rules, discovered[j].record) ==>
         discovered[j].record.profileId != discovered[k].record.profileId
  }

  /** What a merge adds stems from discovery: a first candidate, switched off, that was neither listed nor removed. */
  ghost predicate Stems(rules: Rules, records: seq<Record>, ignored: seq<Text>, discovered: seq<Candidate>, r: Record) {
    && r.profileId !in Ids(records) && r.profileId !in ignored && r.profileId != rules.standard.profileId
    && exists k: nat :: IsFirst(rules, discovered, k) && r == discovered[k].record.(autoStart := false)
  }

  lemma StemsLater(rules: Rules, records: seq<Record>, ignored: seq<Text>, discovered: seq<Candidate>, r: Record)
    requires discovered != [] && Stems(rules, records, ignored, discovered[1..], r)
    requires discovered[0].Shaped? && Good(rules, discovered[0].record) ==> discovered[0].record.profileId != r.profileId
    ensures Stems(rules, records, ignored, discovered, r)
  {
    var rest := discovered[1..];
    var k: nat :| IsFirst(rules, rest, k) && r == rest[k].record.(autoStart := false);
    forall j | 0 <= j < k + 1 && discovered[j].Shaped? && Good(rules, discovered[j].record)
      ensures discovered[j].record.profileId != discovered[k + 1].record.profileId
    {
      if j > 0 { assert rest[j - 1] == discovered[j]; }
    }
    assert IsFirst(rules, discovered, k + 1);
  }

  lemma {:induction false} MergedStems(rules: Rules, records: seq<Record>, ignored: seq<Text>, discovered: seq<Candidate>, i: nat)
    requires RecordsOk(rules, records) && Apart(records, ignored)
    requires |records| <= i < |Merge(rules, records, ignored, discovered)|
    ensures Stems(rules, records, ignored, discovered, Merge(rules, records, ignored, discovered)[i])
    decreases |discovered|
  {
    var merged := Merge(rules, records, ignored, discovered);
    if discovered != [] {
      if Skipped(rules, records, ignored, discovered[0]) {
        MergedStems(rules, records, ignored, discovered[1..], i);
        SkippedIsOther(rules, records, ignored, discovered, merged[i]);
        StemsLater(rules, records, ignored, discovered, merged[i]);
      } else if |records| < MAX_PROFILES {
        var found := DecodeRecord(rules, discovered[0]).value.(autoStart := false);
        AppendKeeps(rules, records, found, ignored);
        MergeAppends(rules, records + [found], ignored, discovered[1..]);
        if i == |records| {
          assert merged[i] == found;
          assert IsFirst(rules, discovered, 0);
        } else {
          MergedStems(rules, records + [found], ignored, discovered[1..], i);
          IdsAppend(records, found);
          StemsBefore(rules, records, found, ignored, discovered[1..], merged[i]);
          StemsLater(rules, records, ignored, discovered, merged[i]);
        }
      }
    }
  }

  lemma StemsBefore(rules: Rules, records: seq<Record>, found: Record, ignored: seq<Text>, discovered: seq<Candidate>, r: Record)
    requires Stems(rules, records + [found], ignored, discovered, r)
    ensures Stems(rules, records, ignored, discovered, r) && r.profileId != found.profileId
  {
    IdsAppend(records, found);
  }

  lemma SkippedIsOther(rules: Rules, records: seq<Record>, ignored: seq<Text>, discovered: seq<Candidate>, r: Record)
    requires discovered != [] && Skipped(rules, records, ignored, discovered[0])
    requires r.profileId !in Ids(records) && r.profileId !in ignored && r.profileId != rules.standard.profileId
    ensures discovered[0].Shaped? && Good(rules, discovered[0].record) ==> discovered[0].record.profileId != r.profileId
  {
  }

  /**
   Discovery in full: what a read lists beyond the stored profiles are first good candidates, switched off; and every
   good candidate that was not removed is listed afterwards, unless the registry is full.
   */
  lemma DiscoveredProfilesAreListed(rules: Rules, s: State, discovered: seq<Candidate>, k: nat, i: nat)
    requires Valid(rules, s) && k < |discovered|
    ensures var listed := ReadMerged(rules, s, discovered).stored.records;
            && s.records <= listed
            && (|s.records| <= i < |listed| ==> Stems(rules, s.records, s.ignored, discovered, listed[i]))
            && (discovered[k].Shaped? && Good(rules, discovered[k].record) && discovered[k].record.profileId !in s.ignored ==>
                  discovered[k].record.profileId in Ids(listed) || |listed| == MAX_PROFILES)
  {
    ReadingAppends(rules, s, discovered);
    var listed := ReadMerged(rules, s, discovered).stored.records;
    MergeSaturates(rules, s.records, s.ignored, discovered);
    if |s.records| <= i < |listed| { MergedStems(rules, s.records, s.ignored, discovered, i); }
    if |listed| < MAX_PROFILES { assert Skipped(rules, listed, s.ignored, discovered[k]); }
    assert listed[0].profileId in Ids(listed);
  }

  // ---- reading what was stored ----

  function FirstAt(records: seq<Record>, id: Text): (n: nat)
    ensures n <= |records|
  {
    if records == [] || records[0].profileId == id then 0 else 1 + FirstAt(records[1..], id)
  }

  /** The first record of each new id, in order. */
  ghost predicate Picked(kept: seq<Record>, rest: seq<Record>, d: seq<Record>) {
    && kept <= d
    && (forall k :: |kept| <= k < |d| ==>
          && d[k].profileId !in Ids(kept)
          && FirstAt(rest, d[k].profileId) < |rest| && rest[FirstAt(rest, d[k].profileId)] == d[k])
    && (forall k, l :: |kept| <= k < l < |d| ==> FirstAt(rest, d[k].profileId) < FirstAt(rest, d[l].profileId))
    && (forall i :: 0 <= i < |rest| ==> rest[i].profileId in Ids(d))
  }

  lemma PickedSkip(kept: seq<Record>, rest: seq<Record>, d: seq<Record>)
    requires rest != [] && rest[0].profileId in Ids(kept) && Picked(kept, rest[1..], d)
    ensures Picked(kept, rest, d)
  {
    assert forall k :: |kept| <= k < |d| ==> FirstAt(rest, d[k].profileId) == 1 + FirstAt(rest[1..], d[k].profileId);
    forall i | 0 <= i < |rest| ensures rest[i].profileId in Ids(d) {
      if i > 0 { assert rest[i] == rest[1..][i - 1]; } else { IdsGrow(kept, d); }
    }
  }

  lemma IdsGrow(a: seq<Record>, b: seq<Record>)
    requires a <= b
    ensures Ids(a) <= Ids(b)
  {
    assert forall i :: 0 <= i < |a| ==> b[i] == a[i];
  }

  lemma PickedTake(kept: seq<Record>, rest: seq<Record>, d: seq<Record>)
    requires rest != [] && rest[0].profileId !in Ids(kept) && Picked(kept + [rest[0]], rest[1..], d)
    ensures Picked(kept, rest, d)
  {
    IdsAppend(kept, rest[0]);
    var n := |kept|;
    assert d[n] == (kept + [rest[0]])[n] == rest[0];
    assert kept <= kept + [rest[0]];
    forall k | n < k < |d| ensures FirstAt(rest, d[k].profileId) == 1 + FirstAt(rest[1..], d[k].profileId) {
      assert d[k].profileId !in Ids(kept + [rest[0]]);
    }
    forall i | 0 <= i < |rest| ensures rest[i].profileId in Ids(d) {
      if i > 0 { assert rest[i] == rest[1..][i - 1]; } else { assert d[n].profileId in Ids(d); }
    }
  }

  lemma {:induction false} DedupePicks(kept: seq<Record>, rest: seq<Record>)
    ensures Picked(kept, rest, Dedupe(kept, rest))
    decreases |rest|
  {
    if rest != [] {
      if rest[0].profileId in Ids(kept) {
        DedupePicks(kept, rest[1..]);
        PickedSkip(kept, rest, Dedupe(kept, rest));
      } else {
        DedupePicks(kept + [rest[0]], rest[1..]);
        PickedTake(kept, rest, Dedupe(kept, rest));
      }
    }
  }

  lemma {:induction false} UniqueMembers(standard: Text, kept: seq<Text>, rest: seq<Text>)
    ensures forall x :: x in Unique(standard, kept, rest) <==> x in kept || (x in rest && x != standard)
    decreases |rest|
  {
    if rest != [] {
      assert rest == [rest[0]] + rest[1..];
      if rest[0] == standard || rest[0] in kept {
        UniqueMembers(standard, kept, rest[1..]);
      } else {
        UniqueMembers(standard, kept + [rest[0]], rest[1..]);
      }
    }
  }

  /**
   A stored state is read if it has at most 64 profiles and 64 tombstones and all of them are good: the default profile
   comes first, then the first record of each other id in order, and every tombstone but the default's stays.
   */
  lemma WhatIsDecoded(rules: Rules, s: State)
    ensures DecodeState(rules, s).Some? <==>
            && |s.records| <= MAX_PROFILES && |s.ignored| <= MAX_PROFILES
            && (forall i :: 0 <= i < |s.records| ==> s.records[i].profileId in rules.ids && s.records[i].name in rules.names)
            && forall i :: 0 <= i < |s.ignored| ==> s.ignored[i] in rules.ids
    ensures DecodeState(rules, s).Some? ==>
              var d := DecodeState(rules, s).value;
              && Picked([rules.standard], s.records, d.records)
              && forall x :: x in d.ignored <==> x in s.ignored && x != rules.standard.profileId
  {
    DedupePicks([rules.standard], s.records);
    UniqueMembers(rules.standard.profileId, [], s.ignored);
  }

  /** A store that cannot be read counts as the default profile alone. */
  lemma UnreadableIsDefault(rules: Rules, stored: State)
    requires DecodeState(rules, stored).None?
    ensures Current(rules, stored) == State([rules.standard], [])
  {
  }
}
