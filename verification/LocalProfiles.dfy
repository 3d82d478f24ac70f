/**
 The registry of local profiles (apps/desktop/src/local-profiles.ts) over its store (apps/desktop/src/stores.ts):
 decoding, merging with discovered profiles, and the operations that read the store, merge, and write it back.
 */
module LocalProfiles {
  import opened Wrappers
  import opened Utf16
  import opened ProfileLabels
  import opened ProfileIds

  const MAX_PROFILES := 64

  datatype Record = Record(profileId: Text, name: Text, autoStart: bool)

  /** A discovered value: either not of the shape of a record, or a record that may still be refused. */
  datatype Candidate = Malformed | Shaped(record: Record)

  datatype State = State(records: seq<Record>, ignored: seq<Text>)

  /** The ids and labels that decode, and the record of the default profile. */
  datatype Rules = Rules(ids: iset<Text>, names: iset<Text>, standard: Record)

  const DEFAULT := Record(DEFAULT_ID, DEFAULT_NAME, true)

  ghost const RULES := Rules((iset id: Text | ValidId(id)), (iset name: Text | GoodLabel(name)), DEFAULT)

  // ---- decoding ----

  ghost predicate Good(rules: Rules, r: Record) {
    r.profileId in rules.ids && r.name in rules.names
  }

  ghost function DecodeRecord(rules: Rules, candidate: Candidate): Option<Record> {
    if candidate.Malformed? || !Good(rules, candidate.record) then None
    else if candidate.record.profileId == rules.standard.profileId then Some(rules.standard)
    else Some(candidate.record)
  }

  function Ids(records: seq<Record>): set<Text> {
    set i | 0 <= i < |records| :: records[i].profileId
  }

  ghost predicate AllGood(rules: Rules, records: seq<Record>) {
    forall i :: 0 <= i < |records| ==> Good(rules, records[i])
  }

  ghost predicate AllValid(rules: Rules, ids: seq<Text>) {
    forall i :: 0 <= i < |ids| ==> ids[i] in rules.ids
  }

  function Dedupe(kept: seq<Record>, rest: seq<Record>): seq<Record>
    decreases |rest|
  {
    if rest == [] then kept
    else if rest[0].profileId in Ids(kept) then Dedupe(kept, rest[1..])
    else Dedupe(kept + [rest[0]], rest[1..])
  }

  function Unique(standard: Text, kept: seq<Text>, rest: seq<Text>): seq<Text>
    decreases |rest|
  {
    if rest == [] then kept
    else if rest[0] == standard || rest[0] in kept then Unique(standard, kept, rest[1..])
    else Unique(standard, kept + [rest[0]], rest[1..])
  }

  ghost function DecodeState(rules: Rules, s: State): Option<State> {
    if |s.records| > MAX_PROFILES || |s.ignored| > MAX_PROFILES || !AllGood(rules, s.records) || !AllValid(rules, s.ignored)
    then None
    else Some(State(Dedupe([rules.standard], s.records), Unique(rules.standard.profileId, [], s.ignored)))
  }

  // ---- merging ----

  ghost predicate Skipped(rules: Rules, records: seq<Record>, ignored: seq<Text>, candidate: Candidate) {
    var decoded := DecodeRecord(rules, candidate);
    || decoded.None? || decoded.value.profileId == rules.standard.profileId
    || decoded.value.profileId in Ids(records) || decoded.value.profileId in ignored
  }

  /** Discovered profiles are appended in order, switched off, until the registry is full. */
  ghost function Merge(rules: Rules, records: seq<Record>, ignored: seq<Text>, discovered: seq<Candidate>): seq<Record>
    decreases |discovered|
  {
    if discovered == [] then records
    else if Skipped(rules, records, ignored, discovered[0]) then Merge(rules, records, ignored, discovered[1..])
    else if |records| >= MAX_PROFILES then records
    else
      var found := DecodeRecord(rules, discovered[0]).value.(autoStart := false);
      Merge(rules, records + [found], ignored, discovered[1..])
  }

  ghost function Current(rules: Rules, stored: State): State {
    if DecodeState(rules, stored).None? then State([rules.standard], []) else DecodeState(rules, stored).value
  }

  ghost function Write(rules: Rules, stored: State, value: State): State {
    if DecodeState(rules, value).None? then stored else DecodeState(rules, value).value
  }

  /** The outcome of readMerged; without a state it throws. */
  datatype Reading = Reading(merged: Option<State>, stored: State, wrote: bool)

  ghost function ReadMerged(rules: Rules, stored: State, discovered: seq<Candidate>): Reading {
    var current := Current(rules, stored);
    var merged := DecodeState(rules, State(Merge(rules, current.records, current.ignored, discovered), current.ignored));
    if merged.None? then Reading(None, stored, false)
    else if merged.value == current then Reading(merged, stored, false)
    else if DecodeState(rules, merged.value).None? then Reading(None, stored, false)
    else Reading(merged, Write(rules, stored, merged.value), true)
  }

  // ---- operations ----

  /** An operation whose label has been cleaned; nothing is left of a blank label. */
  datatype Operation =
    | List
    | Get(id: Text)
    | Add(id: Text, name: Text, on: bool)
    | Update(id: Text, newName: Option<Text>, autoStart: Option<bool>)
    | Remove(id: Text)

  /** A call together with what discovery returns to it; a discovery that fails returns nothing. */
  datatype Call = Call(operation: Operation, discovered: seq<Candidate>)

  datatype Outcome = Outcome(stored: State, accepted: bool)

  function Find(records: seq<Record>, id: Text): Option<Record> {
    if records == [] then None else if records[0].profileId == id then Some(records[0]) else Find(records[1..], id)
  }

  function Without(s: seq<Text>, x: Text): seq<Text> {
    if s == [] then [] else if s[0] == x then Without(s[1..], x) else [s[0]] + Without(s[1..], x)
  }

  function WithoutId(records: seq<Record>, id: Text): seq<Record> {
    if records == [] then []
    else if records[0].profileId == id then WithoutId(records[1..], id)
    else [records[0]] + WithoutId(records[1..], id)
  }

  function Replaced(records: seq<Record>, updated: Record): (r: seq<Record>)
    ensures |r| == |records|
    ensures forall i :: 0 <= i < |r| ==> r[i] == if records[i].profileId == updated.profileId then updated else records[i]
  {
    if records == [] then []
    else [if records[0].profileId == updated.profileId then updated else records[0]] + Replaced(records[1..], updated)
  }

  function Or<T>(value: Option<T>, fallback: T): T {
    if value.Some? then value.value else fallback
  }

  function Updated(op: Operation, current: Record): Record
    requires op.Update?
  {
    Record(op.id, Or(op.newName, current.name), Or(op.autoStart, current.autoStart))
  }

  /** The state an operation wants to write on top of the merged one, or nothing when it refuses. */
  function Wanted(merged: State, op: Operation): Option<State> {
    match op
    case List => Some(merged)
    case Get(id) => if Find(merged.records, id).None? then None else Some(merged)
    case Add(id, name, on) =>
      if Find(merged.records, id).Some? || |merged.records| >= MAX_PROFILES then None
      else Some(State(merged.records + [Record(id, name, on)], Without(merged.ignored, id)))
    case Update(id, _, _) =>
      var current := Find(merged.records, id);
      if current.None? then None else Some(merged.(records := Replaced(merged.records, Updated(op, current.value))))
    case Remove(id) =>
      if Find(merged.records, id).None? then None
      else Some(State(WithoutId(merged.records, id), if id in merged.ignored then merged.ignored else merged.ignored + [id]))
  }

  /** The checks made before anything is read. */
  ghost predicate Admitted(rules: Rules, op: Operation) {
    op.List? || (op.id in rules.ids && (op.Get? || op.id != rules.standard.profileId))
  }

  ghost function Apply(rules: Rules, stored: State, call: Call): Outcome {
    if !Admitted(rules, call.operation) then Outcome(stored, false) else
    var reading := ReadMerged(rules, stored, call.discovered);
    if reading.merged.None? then Outcome(reading.stored, false) else
    var wanted := Wanted(reading.merged.value, call.operation);
    if wanted.None? then Outcome(reading.stored, false)
    else if call.operation.List? || call.operation.Get? then Outcome(reading.stored, true)
    else Outcome(Write(rules, reading.stored, wanted.value), DecodeState(rules, wanted.value).Some?)
  }

  ghost function Run(rules: Rules, stored: State, calls: seq<Call>): State
    decreases |calls|
  {
    if calls == [] then stored else Run(rules, Apply(rules, stored, calls[0]).stored, calls[1..])
  }
}
