/** The registry as the application calls it: concrete ids and labels, and the loops and writes of the source. */
module LocalProfileRegistries {
  import opened Wrappers
  import opened Utf16
  import opened ProfileLabels
  import opened ProfileIds
  import opened LocalProfiles
  import opened LocalProfileTheorems

  const FRESH := State([DEFAULT], [])

  lemma FreshIsValid()
    ensures Valid(RULES, FRESH)
  {
    DefaultIdIsValid();
    DefaultNameIsGood();
    StandardAloneIsValid(RULES);
  }

  /**
   From the default store, after any calls with any discovery: default first and unique, distinct ids, at most 64
   profiles and 64 tombstones, no profile both listed and removed; and what is stored reads back unchanged.
   */
  lemma RegistryStaysValid(calls: seq<Call>)
    ensures Valid(RULES, Run(RULES, FRESH, calls))
    ensures DecodeState(RULES, Run(RULES, FRESH, calls)) == Some(Run(RULES, FRESH, calls))
  {
    FreshIsValid();
    RunKeepsValid(RULES, FRESH, calls);
    DecodeIsIdentity(RULES, Run(RULES, FRESH, calls));
  }

  /**
   From the default store, after any calls: once a removal has succeeded the profile stays out of the list, over any
   further calls and whatever is discovered, until an add of it succeeds.
   */
  lemma RemovedStaysOut(before: seq<Call>, removal: Call, after: seq<Call>)
    requires removal.operation.Remove? && Apply(RULES, Run(RULES, FRESH, before), removal).accepted
    requires !AddsAgain(RULES, Apply(RULES, Run(RULES, FRESH, before), removal).stored, after, removal.operation.id)
    ensures var removed := Apply(RULES, Run(RULES, FRESH, before), removal).stored;
            removal.operation.id !in Ids(Run(RULES, removed, after).records)
  {
    var s := Run(RULES, FRESH, before);
    RegistryStaysValid(before);
    ApplyKeeps(RULES, s, removal);
    RemoveHides(RULES, s, removal);
    RemovedStaysRemoved(RULES, Apply(RULES, s, removal).stored, after, removal.operation.id);
  }

  // ---- labels in calls ----

  /** What is left of a label given by a caller. */
  function Given(title: Option<Text>): Option<Text> {
    if title.None? || Cut(Squeeze(title.value)) == [] then None else Some(Cut(Squeeze(title.value)))
  }

  function AddOf(id: Text, title: Option<Text>, autoStart: Option<bool>): Operation {
    Add(id, Or(Given(title), DerivedLabel(id)), Or(autoStart, false))
  }

  function UpdateOf(id: Text, title: Option<Text>, autoStart: Option<bool>): Operation {
    Update(id, Given(title), autoStart)
  }

  /** The cut at 128 code units falls right after a space. */
  predicate CutAtSpace(title: Option<Text>) {
    && title.Some?
    && |Squeeze(title.value)| > MAX_LABEL && Squeeze(title.value)[MAX_LABEL - 1] == SPACE
  }

  lemma GivenIsGood(title: Option<Text>)
    requires Given(title).Some?
    ensures GoodLabel(Given(title).value) <==> !CutAtSpace(title)
  {
    CleanLabelIsGood(title.value, []);
    SqueezeIsTidy(title.value);
  }

  lemma AddedNameIsGood(id: Text, title: Option<Text>)
    requires ValidId(id)
    ensures Or(Given(title), DerivedLabel(id)) in RULES.names <==> !CutAtSpace(title)
  {
    if Given(title).Some? {
      GivenIsGood(title);
    } else {
      ValidIsGraphic(id);
      DerivedLabelIsGood(id);
      if title.Some? { SqueezeIsTidy(title.value); }
    }
  }

  /** An add is carried out exactly for a new, valid id when there is room and the label is not cut at a space. */
  lemma WhenAddIsAccepted(s: State, id: Text, title: Option<Text>, autoStart: Option<bool>, discovered: seq<Candidate>)
    requires Valid(RULES, s)
    ensures var merged := ReadMerged(RULES, s, discovered).stored;
            Apply(RULES, s, Call(AddOf(id, title, autoStart), discovered)).accepted <==>
              && ValidId(id) && id != DEFAULT_ID && id !in Ids(merged.records) && |merged.records| < MAX_PROFILES
              && !CutAtSpace(title)
  {
    ApplyKeeps(RULES, s, Call(AddOf(id, title, autoStart), discovered));
    if ValidId(id) { AddedNameIsGood(id, title); }
  }

  /** An update is carried out exactly for a listed id other than the default's whose label is not cut at a space. */
  lemma WhenUpdateIsAccepted(s: State, id: Text, title: Option<Text>, autoStart: Option<bool>, discovered: seq<Candidate>)
    requires Valid(RULES, s)
    ensures var merged := ReadMerged(RULES, s, discovered).stored;
            Apply(RULES, s, Call(UpdateOf(id, title, autoStart), discovered)).accepted <==>
              ValidId(id) && id != DEFAULT_ID && id in Ids(merged.records) && !CutAtSpace(title)
  {
    UpdateAccepted(RULES, s, id, Given(title), autoStart, discovered);
    UpdatedNameIsGood(title);
  }

  lemma UpdatedNameIsGood(title: Option<Text>)
    ensures (Given(title).Some? ==> Given(title).value in RULES.names) <==> !CutAtSpace(title)
  {
    if Given(title).Some? { GivenIsGood(title); } else if title.Some? { SqueezeIsTidy(title.value); }
  }

  /** A removal is carried out exactly for a listed id other than the default's while there is room for a tombstone. */
  lemma WhenRemoveIsAccepted(s: State, id: Text, discovered: seq<Candidate>)
    requires Valid(RULES, s)
    ensures var merged := ReadMerged(RULES, s, discovered).stored;
            Apply(RULES, s, Call(Remove(id), discovered)).accepted <==>
              ValidId(id) && id != DEFAULT_ID && id in Ids(merged.records) && |s.ignored| < MAX_PROFILES
  {
    RemoveAccepted(RULES, s, id, discovered);
  }

  // ---- the loops of the source ----

  predicate IsGood(r: Record) {
    ValidId(r.profileId) && GoodLabel(r.name)
  }

  lemma GoodIs(r: Record)
    ensures IsGood(r) <==> Good(RULES, r)
  {
  }

  method DecodeCandidate(candidate: Candidate) returns (r: Option<Record>)
    ensures r == DecodeRecord(RULES, candidate)
  {
    if candidate.Malformed? { return None; }
    GoodIs(candidate.record);
    if !IsGood(candidate.record) { return None; }
    r := Some(if candidate.record.profileId == DEFAULT_ID then DEFAULT else candidate.record);
  }

  /** decodeLocalProfileState: every record is decoded, then duplicates are dropped behind the default. */
  method DecodeStored(s: State) returns (r: Option<State>)
    ensures r == DecodeState(RULES, s)
  {
    if |s.records| > MAX_PROFILES || |s.ignored| > MAX_PROFILES { return None; }
    var ok := AllDecode(s);
    if !ok { return None; }
    var deduped, seen, i := [DEFAULT], {DEFAULT_ID}, 0;
    assert s.records[0..] == s.records && [] + [DEFAULT] == [DEFAULT];
    IdsAppend([], DEFAULT);
    while i < |s.records|
      invariant 0 <= i <= |s.records| && seen == Ids(deduped)
      invariant Dedupe([DEFAULT], s.records) == Dedupe(deduped, s.records[i..])
    {
      var record := s.records[i];
      assert s.records[i..][1..] == s.records[i + 1..];
      if record.profileId !in seen {
        IdsAppend(deduped, record);
        seen, deduped := seen + {record.profileId}, deduped + [record];
      }
      i := i + 1;
    }
    r := Some(State(deduped, Unique(DEFAULT_ID, [], s.ignored)));
  }

  method AllDecode(s: State) returns (ok: bool)
    ensures ok <==> AllGood(RULES, s.records) && AllValid(RULES, s.ignored)
  {
    ok := RecordsDecode(RULES, s.records);
    if !ok { return; }
    var i := 0;
    while i < |s.ignored|
      invariant 0 <= i <= |s.ignored| && forall j :: 0 <= j < i ==> s.ignored[j] in RULES.ids
    {
      if !ValidId(s.ignored[i]) { return false; }
      i := i + 1;
    }
  }

  method RecordsDecode(ghost rules: Rules, records: seq<Record>) returns (ok: bool)
    requires rules == RULES
    ensures ok <==> AllGood(rules, records)
  {
    var i := 0;
    while i < |records|
      invariant 0 <= i <= |records| && forall j :: 0 <= j < i ==> Good(rules, records[j])
    {
      GoodIs(records[i]);
      if !IsGood(records[i]) { return false; }
      i := i + 1;
    }
    ok := true;
  }

  /** The loop of readMerged. */
  method MergeDiscovered(current: State, discovered: seq<Candidate>) returns (records: seq<Record>)
    ensures records == Merge(RULES, current.records, current.ignored, discovered)
  {
    records := current.records;
    var seen := Ids(records);
    var i := 0;
    ghost var goal := Merge(RULES, current.records, current.ignored, discovered);
    assert discovered[0..] == discovered;
    while i < |discovered|
      invariant 0 <= i <= |discovered| && seen == Ids(records)
      invariant goal == Merge(RULES, records, current.ignored, discovered[i..])
    {
      var decoded := DecodeCandidate(discovered[i]);
      assert discovered[i..][0] == discovered[i] && discovered[i..][1..] == discovered[i + 1..];
      i := i + 1;
      if decoded.None? { continue; }
      var record := decoded.value;
      if record.profileId == DEFAULT_ID || record.profileId in seen || record.profileId in current.ignored { continue; }
      if |records| >= MAX_PROFILES { return; }
      IdsAppend(records, record.(autoStart := false));
      seen, records := seen + {record.profileId}, records + [record.(autoStart := false)];
    }
  }

  method IsEditable(id: Text) returns (ok: bool)
    ensures ok <==> id in RULES.ids && id != RULES.standard.profileId
  {
    ok := ValidId(id) && id != DEFAULT_ID;
  }

  method NameFor(title: Option<Text>, fallback: Text) returns (name: Text)
    ensures name == Or(Given(title), fallback)
  {
    name := CleanLabel(title, fallback);
  }

  /** A call that was admitted and read: its outcome by what it wants to write. */
  lemma ApplyWrites(rules: Rules, s: State, call: Call, merged: State, stored: State)
    requires Admitted(rules, call.operation) && !call.operation.List? && !call.operation.Get?
    requires ReadMerged(rules, s, call.discovered).merged == Some(merged)
    requires ReadMerged(rules, s, call.discovered).stored == stored
    ensures Wanted(merged, call.operation).None? ==> Apply(rules, s, call) == Outcome(stored, false)
    ensures Wanted(merged, call.operation).Some? ==>
              var wanted := Wanted(merged, call.operation).value;
              Apply(rules, s, call) == Outcome(Write(rules, stored, wanted), DecodeState(rules, wanted).Some?)
  {
  }

  class LocalProfileRegistry {
    /** What the store holds. */
    var stored: State

    constructor ()
      ensures stored == FRESH && Valid(RULES, stored)
    {
      stored := FRESH;
      FreshIsValid();
    }

    method WriteState(value: State) returns (ok: bool)
      modifies this
      ensures stored == Write(RULES, old(stored), value)
      ensures ok <==> DecodeState(RULES, value).Some?
    {
      var decoded := DecodeStored(value);
      ok := decoded.Some?;
      if ok { stored := decoded.value; }
    }

    method ReadMergedState(discovered: seq<Candidate>) returns (merged: Option<State>)
      modifies this
      ensures var reading := ReadMerged(RULES, old(stored), discovered);
              merged == reading.merged && stored == reading.stored
    {
      var decoded := DecodeStored(stored);
      var current := if decoded.None? then FRESH else decoded.value;
      var records := MergeDiscovered(current, discovered);
      merged := DecodeStored(State(records, current.ignored));
      if merged.Some? && merged.value != current {
        var ok := WriteState(merged.value);
        if !ok { merged := None; }
      }
    }

    method AddProfile(id: Text, title: Option<Text>, autoStart: Option<bool>, discovered: seq<Candidate>) returns (ok: bool)
      modifies this
      ensures Outcome(stored, ok) == Apply(RULES, old(stored), Call(AddOf(id, title, autoStart), discovered))
    {
      var editable := IsEditable(id);
      if !editable { return false; }
      var merged := ReadMergedState(discovered);
      if merged.None? { return false; }
      ApplyWrites(RULES, old(stored), Call(AddOf(id, title, autoStart), discovered), merged.value, stored);
      if Find(merged.value.records, id).Some? || |merged.value.records| >= MAX_PROFILES { return false; }
      var name := NameFor(title, DerivedLabel(id));
      var record := Record(id, name, Or(autoStart, false));
      var wanted := State(merged.value.records + [record], Without(merged.value.ignored, id));
      assert Wanted(merged.value, AddOf(id, title, autoStart)) == Some(wanted);
      ok := WriteState(wanted);
    }

    method UpdateProfile(id: Text, title: Option<Text>, autoStart: Option<bool>, discovered: seq<Candidate>) returns (ok: bool)
      modifies this
      ensures Outcome(stored, ok) == Apply(RULES, old(stored), Call(UpdateOf(id, title, autoStart), discovered))
    {
      var editable := IsEditable(id);
      if !editable { return false; }
      var merged := ReadMergedState(discovered);
      if merged.None? { return false; }
      ApplyWrites(RULES, old(stored), Call(UpdateOf(id, title, autoStart), discovered), merged.value, stored);
      var current := Find(merged.value.records, id);
      if current.None? { return false; }
      var name := NameFor(title, current.value.name);
      var updated := Record(id, name, Or(autoStart, current.value.autoStart));
      ok := WriteState(merged.value.(records := Replaced(merged.value.records, updated)));
    }

    method RemoveProfile(id: Text, discovered: seq<Candidate>) returns (ok: bool)
      modifies this
      ensures Outcome(stored, ok) == Apply(RULES, old(stored), Call(Remove(id), discovered))
    {
      var editable := IsEditable(id);
      if !editable { return false; }
      var merged := ReadMergedState(discovered);
      if merged.None? { return false; }
      ApplyWrites(RULES, old(stored), Call(Remove(id), discovered), merged.value, stored);
      if Find(merged.value.records, id).None? { return false; }
      var ignored := merged.value.ignored;
      var wanted := State(WithoutId(merged.value.records, id), if id in ignored then ignored else ignored + [id]);
      assert Wanted(merged.value, Remove(id)) == Some(wanted);
      ok := WriteState(wanted);
    }
  }
}
