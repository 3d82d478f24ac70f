/** What the profile registry keeps over every sequence of operations, whatever discovery returns. */
module LocalProfileTheorems {
  import opened Wrappers
  import opened Utf16
  import opened ProfileLabels
  import opened LocalProfiles

  // ---- the invariant ----

  ghost predicate DistinctIds(records: seq<Record>) {
    forall i, j :: 0 <= i < j < |records| ==> records[i].profileId != records[j].profileId
  }

  ghost predicate Distinct(ids: seq<Text>) {
    forall i, j :: 0 <= i < j < |ids| ==> ids[i] != ids[j]
  }

  ghost predicate Apart(records: seq<Record>, ignored: seq<Text>) {
    forall i :: 0 <= i < |records| ==> records[i].profileId !in ignored
  }

  ghost predicate RecordsOk(rules: Rules, records: seq<Record>) {
    0 < |records| <= MAX_PROFILES && records[0] == rules.standard && DistinctIds(records) && AllGood(rules, records)
  }

  ghost predicate IgnoredOk(rules: Rules, ignored: seq<Text>) {
    |ignored| <= MAX_PROFILES && Distinct(ignored) && AllValid(rules, ignored) && rules.standard.profileId !in ignored
  }

  /** Default first and unique, distinct ids, at most 64 of each, and no profile both listed and ignored. */
  ghost predicate Valid(rules: Rules, s: State) {
    RecordsOk(rules, s.records) && IgnoredOk(rules, s.ignored) && Apart(s.records, s.ignored)
  }

  lemma StandardAloneIsValid(rules: Rules)
    requires Good(rules, rules.standard)
    ensures Valid(rules, State([rules.standard], []))
  {
  }

  // ---- a valid state decodes to itself ----

  lemma IdsAppend(records: seq<Record>, r: Record)
    ensures Ids(records + [r]) == Ids(records) + {r.profileId}
  {
    assert forall i :: 0 <= i < |records| ==> records[i] == (records + [r])[i];
    assert (records + [r])[|records|] == r;
  }

  lemma {:induction false} DedupeKeeps(kept: seq<Record>, rest: seq<Record>)
    requires DistinctIds(kept + rest)
    ensures Dedupe(kept, rest) == kept + rest
    decreases |rest|
  {
    if rest == [] {
      assert kept + rest == kept;
    } else {
      var all := kept + rest;
      assert rest[0].profileId !in Ids(kept) by {
        forall i | 0 <= i < |kept| ensures kept[i].profileId != rest[0].profileId {
          assert all[i] == kept[i] && all[|kept|] == rest[0];
        }
      }
      assert kept + [rest[0]] + rest[1..] == all;
      DedupeKeeps(kept + [rest[0]], rest[1..]);
    }
  }

  lemma {:induction false} UniqueKeeps(standard: Text, kept: seq<Text>, rest: seq<Text>)
    requires Distinct(kept + rest) && standard !in rest
    ensures Unique(standard, kept, rest) == kept + rest
    decreases |rest|
  {
    if rest == [] {
      assert kept + rest == kept;
    } else {
      var all := kept + rest;
      assert rest[0] !in kept by {
        forall i | 0 <= i < |kept| ensures kept[i] != rest[0] { assert all[i] == kept[i] && all[|kept|] == rest[0]; }
      }
      assert kept + [rest[0]] + rest[1..] == all;
      UniqueKeeps(standard, kept + [rest[0]], rest[1..]);
    }
  }

  /** The decoder adds the default in front; the one the records start with is then a duplicate. */
  lemma DedupeDefault(rules: Rules, records: seq<Record>)
    requires RecordsOk(rules, records)
    ensures Dedupe([rules.standard], records) == records
  {
    var rest := records[1..];
    assert [rules.standard][0].profileId in Ids([rules.standard]);
    assert [rules.standard] + rest == records;
    DedupeKeeps([rules.standard], rest);
  }

  /** What is stored reads back unchanged. */
  lemma DecodeIsIdentity(rules: Rules, s: State)
    requires Valid(rules, s)
    ensures DecodeState(rules, s) == Some(s)
  {
    DedupeDefault(rules, s.records);
    assert [] + s.ignored == s.ignored;
    UniqueKeeps(rules.standard.profileId, [], s.ignored);
  }

  // ---- merging ----

  lemma AppendKeeps(rules: Rules, records: seq<Record>, r: Record, ignored: seq<Text>)
    requires RecordsOk(rules, records) && Apart(records, ignored) && |records| < MAX_PROFILES
    requires Good(rules, r) && r.profileId !in Ids(records) && r.profileId !in ignored
    ensures RecordsOk(rules, records + [r]) && Apart(records + [r], ignored)
  {
    var all := records + [r];
    forall i, j | 0 <= i < j < |all| ensures all[i].profileId != all[j].profileId {
      if j == |records| { assert records[i].profileId in Ids(records); }
    }
  }

  ghost predicate AllOff(records: seq<Record>, from: nat) {
    forall i :: from <= i < |records| ==> !records[i].autoStart
  }

  /** Discovery only appends, and what it appends is switched off. */
  lemma {:induction false} MergeAppends(rules: Rules, records: seq<Record>, ignored: seq<Text>, discovered: seq<Candidate>)
    requires RecordsOk(rules, records) && Apart(records, ignored)
    ensures var r := Merge(rules, records, ignored, discovered);
            RecordsOk(rules, r) && Apart(r, ignored) && records <= r && AllOff(r, |records|)
    decreases |discovered|
  {
    if discovered != [] {
      if Skipped(rules, records, ignored, discovered[0]) {
        MergeAppends(rules, records, ignored, discovered[1..]);
      } else if |records| < MAX_PROFILES {
        var r := DecodeRecord(rules, discovered[0]).value.(autoStart := false);
        AppendKeeps(rules, records, r, ignored);
        MergeAppends(rules, records + [r], ignored, discovered[1..]);
      }
    }
  }

  ghost predicate AllSkipped(rules: Rules, records: seq<Record>, ignored: seq<Text>, discovered: seq<Candidate>) {
    forall i :: 0 <= i < |discovered| ==> Skipped(rules, records, ignored, discovered[i])
  }

  lemma SkippedStays(rules: Rules, records: seq<Record>, more: seq<Record>, ignored: seq<Text>, candidate: Candidate)
    requires records <= more && Skipped(rules, records, ignored, candidate)
    ensures Skipped(rules, more, ignored, candidate)
  {
    assert forall i :: 0 <= i < |records| ==> more[i] == records[i];
    assert Ids(records) <= Ids(more);
  }

  /** After a merge every candidate is dealt with, unless the registry is full. */
  lemma {:induction false} MergeSaturates(rules: Rules, records: seq<Record>, ignored: seq<Text>, discovered: seq<Candidate>)
    requires RecordsOk(rules, records) && Apart(records, ignored)
    ensures var r := Merge(rules, records, ignored, discovered); |r| == MAX_PROFILES || AllSkipped(rules, r, ignored, discovered)
    decreases |discovered|
  {
    if discovered != [] {
      var r, rest := Merge(rules, records, ignored, discovered), discovered[1..];
      MergeAppends(rules, records, ignored, discovered);
      if Skipped(rules, records, ignored, discovered[0]) {
        MergeSaturates(rules, records, ignored, rest);
        SkippedStays(rules, records, r, ignored, discovered[0]);
      } else if |records| < MAX_PROFILES {
        var found := DecodeRecord(rules, discovered[0]).value.(autoStart := false);
        AppendKeeps(rules, records, found, ignored);
        IdsAppend(records, found);
        MergeSaturates(rules, records + [found], ignored, rest);
        MergeAppends(rules, records + [found], ignored, rest);
        SkippedStays(rules, records + [found], r, ignored, discovered[0]);
      }
      if |r| < MAX_PROFILES {
        forall i | 0 <= i < |discovered| ensures Skipped(rules, r, ignored, discovered[i]) {
          if i > 0 { assert Skipped(rules, r, ignored, rest[i - 1]); }
        }
      }
    }
  }

  lemma {:induction false} MergeNothingNew(rules: Rules, records: seq<Record>, ignored: seq<Text>, discovered: seq<Candidate>)
    requires |records| == MAX_PROFILES || AllSkipped(rules, records, ignored, discovered)
    ensures Merge(rules, records, ignored, discovered) == records
    decreases |discovered|
  {
    if discovered != [] && Skipped(rules, records, ignored, discovered[0]) {
      MergeNothingNew(rules, records, ignored, discovered[1..]);
    }
  }

  // ---- reading ----

  /** A read never fails, keeps every record and every tombstone, and leaves in the store what it returns. */
  lemma ReadingAppends(rules: Rules, s: State, discovered: seq<Candidate>)
    requires Valid(rules, s)
    ensures var reading := ReadMerged(rules, s, discovered);
            && reading.merged == Some(reading.stored) && Valid(rules, reading.stored)
            && s.records <= reading.stored.records && AllOff(reading.stored.records, |s.records|)
            && reading.stored.ignored == s.ignored
            && reading.stored.records == Merge(rules, s.records, s.ignored, discovered)
            && (reading.wrote <==> reading.stored != s)
  {
    DecodeIsIdentity(rules, s);
    MergeAppends(rules, s.records, s.ignored, discovered);
    DecodeIsIdentity(rules, State(Merge(rules, s.records, s.ignored, discovered), s.ignored));
  }

  /** A second read with the same discovery writes nothing. */
  lemma SecondReadWritesNothing(rules: Rules, s: State, discovered: seq<Candidate>)
    requires Valid(rules, s)
    ensures var once := ReadMerged(rules, s, discovered).stored;
            ReadMerged(rules, once, discovered) == Reading(Some(once), once, false)
  {
    var once := ReadMerged(rules, s, discovered).stored;
    ReadingAppends(rules, s, discovered);
    MergeSaturates(rules, s.records, s.ignored, discovered);
    MergeNothingNew(rules, once.records, once.ignored, discovered);
    ReadingAppends(rules, once, discovered);
  }

  // ---- operations ----

  lemma {:induction false} FindFinds(records: seq<Record>, id: Text)
    ensures Find(records, id).Some? <==> id in Ids(records)
    ensures Find(records, id).Some? ==> Find(records, id).value in records && Find(records, id).value.profileId == id
  {
    if records != [] {
      FindFinds(records[1..], id);
      assert records == [records[0]] + records[1..];
      assert Ids(records) == {records[0].profileId} + Ids(records[1..]) by { IdsCons(records); }
    }
  }

  lemma IdsCons(records: seq<Record>)
    requires records != []
    ensures Ids(records) == {records[0].profileId} + Ids(records[1..])
  {
    assert forall i :: 0 <= i < |records| - 1 ==> records[1..][i] == records[i + 1];
    assert forall i :: 0 < i < |records| ==> records[i] == records[1..][i - 1];
  }

  lemma {:induction false} WithoutIs(s: seq<Text>, x: Text)
    ensures |Without(s, x)| <= |s| && x !in Without(s, x)
    ensures forall i :: 0 <= i < |Without(s, x)| ==> Without(s, x)[i] in s
    ensures forall y :: y in s && y != x ==> y in Without(s, x)
    ensures Distinct(s) ==> Distinct(Without(s, x))
  {
    if s != [] {
      WithoutIs(s[1..], x);
      assert s == [s[0]] + s[1..];
      if Distinct(s) {
        assert Distinct(s[1..]);
        assert s[0] !in s[1..];
      }
    }
  }

  /** Filtering drops exactly the records with the id. */
  lemma {:induction false} WithoutIdIs(records: seq<Record>, id: Text)
    ensures |WithoutId(records, id)| <= |records|
    ensures forall r :: r in WithoutId(records, id) <==> r in records && r.profileId != id
  {
    if records != [] {
      WithoutIdIs(records[1..], id);
      assert records == [records[0]] + records[1..];
    }
  }

  lemma {:induction false} WithoutIdDistinct(records: seq<Record>, id: Text)
    requires DistinctIds(records)
    ensures DistinctIds(WithoutId(records, id))
  {
    if records != [] {
      var rest := records[1..];
      WithoutIdDistinct(rest, id);
      WithoutIdIs(rest, id);
      var kept := WithoutId(rest, id);
      forall j | 0 <= j < |kept| ensures kept[j].profileId != records[0].profileId { assert kept[j] in rest; }
    }
  }

  lemma AddKeeps(rules: Rules, s: State, r: Record)
    requires Valid(rules, s) && r.profileId !in Ids(s.records) && |s.records| < MAX_PROFILES && r.profileId in rules.ids
    ensures var wanted := State(s.records + [r], Without(s.ignored, r.profileId));
            if r.name in rules.names then Valid(rules, wanted) else DecodeState(rules, wanted).None?
  {
    var wanted := State(s.records + [r], Without(s.ignored, r.profileId));
    WithoutIs(s.ignored, r.profileId);
    if r.name in rules.names {
      AppendKeeps(rules, s.records, r, wanted.ignored);
    } else {
      assert !Good(rules, wanted.records[|s.records|]);
    }
  }

  lemma UpdateKeeps(rules: Rules, s: State, k: nat, r: Record)
    requires Valid(rules, s) && 0 < k < |s.records| && s.records[k].profileId == r.profileId
    ensures var wanted := s.(records := Replaced(s.records, r));
            if r.name in rules.names then Valid(rules, wanted) else DecodeState(rules, wanted).None?
    ensures Replaced(s.records, r) == s.records[k := r]
  {
    var wanted := s.(records := Replaced(s.records, r));
    assert wanted.records[k] == r;
    assert Replaced(s.records, r) == s.records[k := r];
    if r.name in rules.names {
      assert Good(rules, s.records[k]);
    } else {
      assert !Good(rules, wanted.records[k]);
    }
  }

  lemma RemoveKeeps(rules: Rules, s: State, id: Text)
    requires Valid(rules, s) && id in rules.ids && id != rules.standard.profileId && id !in s.ignored
    ensures var wanted := State(WithoutId(s.records, id), s.ignored + [id]);
            if |s.ignored| < MAX_PROFILES then Valid(rules, wanted) else DecodeState(rules, wanted).None?
  {
    var records, ignored := WithoutId(s.records, id), s.ignored + [id];
    WithoutIdIs(s.records, id);
    WithoutIdDistinct(s.records, id);
    forall i | 0 <= i < |records| ensures Good(rules, records[i]) && records[i].profileId !in ignored {
      assert records[i] in s.records;
    }
    assert records[0] == rules.standard;
  }

  lemma {:induction false} FindAt(records: seq<Record>, id: Text) returns (k: nat)
    requires Find(records, id).Some?
    ensures k < |records| && records[k].profileId == id && Find(records, id) == Some(records[k])
  {
    if records[0].profileId == id {
      k := 0;
    } else {
      k := FindAt(records[1..], id);
      k := k + 1;
    }
  }

  // ---- one call ----

  /** When an admitted operation is carried out, by what a caller can see before the call. */
  ghost predicate Accepted(rules: Rules, s: State, op: Operation) {
    match op
    case List => true
    case Get(id) => id in Ids(s.records)
    case Add(id, name, _) => id !in Ids(s.records) && |s.records| < MAX_PROFILES && name in rules.names
    case Update(id, newName, _) => id in Ids(s.records) && (newName.Some? ==> newName.value in rules.names)
    case Remove(id) => id in Ids(s.records) && |s.ignored| < MAX_PROFILES
  }

  /** An operation that writes keeps the state valid, or the store refuses the write. */
  lemma WantedKeeps(rules: Rules, s: State, op: Operation)
    requires Valid(rules, s) && Admitted(rules, op) && Wanted(s, op).Some?
    ensures if Accepted(rules, s, op) then Valid(rules, Wanted(s, op).value)
            else DecodeState(rules, Wanted(s, op).value).None?
  {
    match op
    case List =>
    case Get(id) => FindFinds(s.records, id);
    case Add(id, name, on) =>
      FindFinds(s.records, id);
      AddKeeps(rules, s, Record(id, name, on));
    case Update(id, _, _) =>
      FindFinds(s.records, id);
      var k := FindAt(s.records, id);
      UpdateKeeps(rules, s, k, Updated(op, s.records[k]));
      assert Good(rules, s.records[k]);
    case Remove(id) =>
      FindFinds(s.records, id);
      RemoveKeeps(rules, s, id);
  }

  lemma WantedOnlyIf(rules: Rules, s: State, op: Operation)
    requires Accepted(rules, s, op)
    ensures Wanted(s, op).Some?
  {
    if !op.List? { FindFinds(s.records, op.id); }
  }

  /** A call is carried out exactly when it should be; otherwise it leaves at most what its read merged. */
  lemma ApplyKeeps(rules: Rules, s: State, call: Call)
    requires Valid(rules, s)
    ensures var merged := ReadMerged(rules, s, call.discovered).stored;
            var r := Apply(rules, s, call);
            && Valid(rules, r.stored)
            && (r.accepted <==> Admitted(rules, call.operation) && Accepted(rules, merged, call.operation))
            && (r.accepted ==> Some(r.stored) == Wanted(merged, call.operation))
            && (!r.accepted ==> r.stored == if Admitted(rules, call.operation) then merged else s)
  {
    var merged := ReadMerged(rules, s, call.discovered).stored;
    ReadingAppends(rules, s, call.discovered);
    if Accepted(rules, merged, call.operation) { WantedOnlyIf(rules, merged, call.operation); }
    var wanted := Wanted(merged, call.operation);
    if Admitted(rules, call.operation) && wanted.Some? {
      WantedKeeps(rules, merged, call.operation);
      if Valid(rules, wanted.value) { DecodeIsIdentity(rules, wanted.value); }
    }
  }

  lemma UpdateAccepted(rules: Rules, s: State, id: Text, name: Option<Text>, autoStart: Option<bool>, discovered: seq<Candidate>)
    requires Valid(rules, s)
    ensures Apply(rules, s, Call(Update(id, name, autoStart), discovered)).accepted <==>
            && id in rules.ids && id != rules.standard.profileId
            && id in Ids(ReadMerged(rules, s, discovered).stored.records) && (name.Some? ==> name.value in rules.names)
  {
    ApplyKeeps(rules, s, Call(Update(id, name, autoStart), discovered));
  }

  lemma RemoveAccepted(rules: Rules, s: State, id: Text, discovered: seq<Candidate>)
    requires Valid(rules, s)
    ensures Apply(rules, s, Call(Remove(id), discovered)).accepted <==>
            && id in rules.ids && id != rules.standard.profileId
            && id in Ids(ReadMerged(rules, s, discovered).stored.records) && |s.ignored| < MAX_PROFILES
  {
    ReadingAppends(rules, s, discovered);
    ApplyKeeps(rules, s, Call(Remove(id), discovered));
  }

  ghost predicate Names(op: Operation, id: Text) {
    (op.Add? || op.Update? || op.Remove?) && op.id == id
  }

  lemma WantedTouches(s: State, op: Operation, r: Record)
    requires Wanted(s, op).Some? && !Names(op, r.profileId)
    ensures r in Wanted(s, op).value.records <==> r in s.records
    ensures r.profileId in Wanted(s, op).value.ignored <==> r.profileId in s.ignored
  {
    match op
    case List =>
    case Get(_) =>
    case Add(id, name, on) => WithoutIs(s.ignored, id);
    case Update(id, _, _) =>
      var updated := Updated(op, Find(s.records, id).value);
      ReplacedTouches(s.records, updated, r);
    case Remove(id) => WithoutIdIs(s.records, id);
  }

  lemma ReplacedTouches(records: seq<Record>, updated: Record, r: Record)
    requires r.profileId != updated.profileId
    ensures r in Replaced(records, updated) <==> r in records
  {
    var after := Replaced(records, updated);
    if r in records {
      var i :| 0 <= i < |records| && records[i] == r;
      assert after[i] == r;
    }
    if r in after {
      var i :| 0 <= i < |after| && after[i] == r;
      assert records[i] == r;
    }
  }

  /**
   A call changes only the profile it names: discovery never alters or drops a record, and never adds one that is
   switched on.
   */
  lemma OnlyTheNamedProfileChanges(rules: Rules, s: State, call: Call, r: Record)
    requires Valid(rules, s) && !Names(call.operation, r.profileId)
    ensures var after := Apply(rules, s, call).stored;
            && (r in s.records ==> r in after.records)
            && (r in after.records ==> r in s.records || !r.autoStart)
            && (r.profileId in after.ignored <==> r.profileId in s.ignored)
  {
    var merged := ReadMerged(rules, s, call.discovered).stored;
    ReadingAppends(rules, s, call.discovered);
    ApplyKeeps(rules, s, call);
    if Wanted(merged, call.operation).Some? { WantedTouches(merged, call.operation, r); }
    assert r in merged.records && r !in s.records ==> !r.autoStart;
  }

  // ---- every run ----

  /** Whatever is called and whatever is discovered, the store stays valid. */
  lemma {:induction false} RunKeepsValid(rules: Rules, s: State, calls: seq<Call>)
    requires Valid(rules, s)
    ensures Valid(rules, Run(rules, s, calls))
    decreases |calls|
  {
    if calls != [] {
      ApplyKeeps(rules, s, calls[0]);
      RunKeepsValid(rules, Apply(rules, s, calls[0]).stored, calls[1..]);
    }
  }

  /** Some call of the run is an add of the profile that is carried out. */
  ghost predicate AddsAgain(rules: Rules, s: State, calls: seq<Call>, id: Text)
    decreases |calls|
  {
    && calls != []
    && ((calls[0].operation.Add? && calls[0].operation.id == id && Apply(rules, s, calls[0]).accepted)
        || AddsAgain(rules, Apply(rules, s, calls[0]).stored, calls[1..], id))
  }

  /** A removed profile is out of the list, and every other one is kept. */
  lemma RemoveHides(rules: Rules, s: State, call: Call)
    requires Valid(rules, s) && call.operation.Remove? && Apply(rules, s, call).accepted
    ensures var after := Apply(rules, s, call).stored;
            call.operation.id in after.ignored && call.operation.id !in Ids(after.records)
  {
    ApplyKeeps(rules, s, call);
    ApartIds(Apply(rules, s, call).stored, call.operation.id);
  }

  /** A profile that was removed is listed again by a call if and only if the call is an add of it that succeeds. */
  lemma ListedAgainOnlyByAdd(rules: Rules, s: State, call: Call, id: Text)
    requires Valid(rules, s) && id in s.ignored
    ensures id in Ids(Apply(rules, s, call).stored.records) <==>
            call.operation.Add? && call.operation.id == id && Apply(rules, s, call).accepted
  {
    ApplyKeeps(rules, s, call);
    var after := Apply(rules, s, call).stored;
    if call.operation.Add? && call.operation.id == id && Apply(rules, s, call).accepted {
      var n := |ReadMerged(rules, s, call.discovered).stored.records|;
      assert after.records[n].profileId == id;
    } else {
      StaysIgnored(rules, s, call, id);
      ApartIds(after, id);
    }
  }

  lemma ApartIds(s: State, id: Text)
    requires Apart(s.records, s.ignored) && id in s.ignored
    ensures id !in Ids(s.records)
  {
  }

  lemma StaysIgnored(rules: Rules, s: State, call: Call, id: Text)
    requires Valid(rules, s) && id in s.ignored
    requires !(call.operation.Add? && call.operation.id == id && Apply(rules, s, call).accepted)
    ensures id in Apply(rules, s, call).stored.ignored
  {
    ReadingAppends(rules, s, call.discovered);
    ApplyKeeps(rules, s, call);
    if !Names(call.operation, id) {
      OnlyTheNamedProfileChanges(rules, s, call, Record(id, [], true));
    }
  }

  /** A removed profile never reappears, however often it is discovered, until it is added again. */
  lemma {:induction false} RemovedStaysRemoved(rules: Rules, s: State, calls: seq<Call>, id: Text)
    requires Valid(rules, s) && id in s.ignored && !AddsAgain(rules, s, calls, id)
    ensures id in Run(rules, s, calls).ignored && id !in Ids(Run(rules, s, calls).records)
    decreases |calls|
  {
    if calls == [] {
      ApartIds(s, id);
    } else {
      ApplyKeeps(rules, s, calls[0]);
      StaysIgnored(rules, s, calls[0], id);
      RemovedStaysRemoved(rules, Apply(rules, s, calls[0]).stored, calls[1..], id);
    }
  }
}
