/** Calls that the profile registry refuses although nothing is wrong with their ids. */
module ProfileExamples {
  import opened Wrappers
  import opened Utf16
  import opened ProfileLabels
  import opened ProfileIds
  import opened LocalProfiles
  import opened LocalProfileTheorems
  import opened LocalProfileRegistries

  // ---- a label that is cut behind a space ----

  function Letters(n: nat): (r: Text)
    ensures |r| == n && forall i :: 0 <= i < n ==> r[i] == 0x61
  {
    seq(n, i requires 0 <= i < n => 0x61)
  }

  /** 127 letters, a space and one more letter. */
  function LongTitle(): Text {
    Letters(127) + [SPACE] + Letters(1)
  }

  lemma LongTitleIsCut()
    ensures CutAtSpace(Some(LongTitle()))
  {
    var t := LongTitle();
    assert t[127] == SPACE && |t| == 129;
    forall i | 0 <= i < |t| && i != 127 ensures t[i] == 0x61 { }
    assert Tidy(t);
    SqueezeTidy(t);
  }

  /** The title makes an add fail that would succeed without it. */
  lemma LongTitleIsRefused(id: Text)
    requires ValidId(id) && id != DEFAULT_ID
    ensures Apply(RULES, FRESH, Call(AddOf(id, None, None), [])).accepted
    ensures !Apply(RULES, FRESH, Call(AddOf(id, Some(LongTitle()), None), [])).accepted
  {
    FreshIsValid();
    LongTitleIsCut();
    WhenAddIsAccepted(FRESH, id, None, None, []);
    WhenAddIsAccepted(FRESH, id, Some(LongTitle()), None, []);
    ReadingNothing(RULES, FRESH);
    assert Ids([DEFAULT]) == {DEFAULT_ID};
  }

  lemma ReadingNothing(rules: Rules, s: State)
    requires Valid(rules, s)
    ensures ReadMerged(rules, s, []).stored == s
  {
    ReadingAppends(rules, s, []);
  }

  // ---- a full list of removed profiles ----

  /** The ids xaa, xab and so on. */
  function IdOf(i: nat): Text
    requires i <= 64
  {
    [0x78, 0x61 + i / 8, 0x61 + i % 8]
  }

  lemma IdsAreValid(i: nat)
    requires i <= 64
    ensures ValidId(IdOf(i)) && IdOf(i) != DEFAULT_ID
  {
    BaseWithoutDot(IdOf(i));
  }

  lemma IdsDiffer(i: nat, j: nat)
    requires i <= 64 && j <= 64 && IdOf(i) == IdOf(j)
    ensures i == j
  {
    assert IdOf(i)[1] == IdOf(j)[1] && IdOf(i)[2] == IdOf(j)[2];
  }

  function Removed(k: nat): (r: seq<Text>)
    requires k <= 64
    ensures |r| == k && forall i :: 0 <= i < k ==> r[i] == IdOf(i)
  {
    seq(k, i requires 0 <= i < k => IdOf(i))
  }

  /** A profile is added and removed again. */
  function Round(i: nat): seq<Call>
    requires i <= 64
  {
    [Call(AddOf(IdOf(i), None, None), []), Call(Remove(IdOf(i)), [])]
  }

  function Rounds(k: nat): seq<Call>
    requires k <= 64
  {
    if k == 0 then [] else Rounds(k - 1) + Round(k - 1)
  }

  /** An add and a removal leave nothing but a tombstone. */
  lemma AddThenRemove(rules: Rules, ignored: seq<Text>, id: Text, name: Text, on: bool)
    requires var s := State([rules.standard], ignored); Valid(rules, s) && |ignored| < MAX_PROFILES
    requires id in rules.ids && name in rules.names && id != rules.standard.profileId && id !in ignored
    ensures var s := State([rules.standard], ignored);
            var added := Apply(rules, s, Call(Add(id, name, on), [])).stored;
            && added == State([rules.standard, Record(id, name, on)], ignored) && Valid(rules, added)
            && Apply(rules, added, Call(Remove(id), [])).stored == State([rules.standard], ignored + [id])
  {
    var s := State([rules.standard], ignored);
    var add, remove := Call(Add(id, name, on), []), Call(Remove(id), []);
    ReadingNothing(rules, s);
    ApplyKeeps(rules, s, add);
    assert Ids(s.records) == {rules.standard.profileId};
    WithoutAbsent(ignored, id);
    FindFinds(s.records, id);
    var added := State([rules.standard, Record(id, name, on)], ignored);
    assert [rules.standard] + [Record(id, name, on)] == added.records;
    ReadingNothing(rules, added);
    ApplyKeeps(rules, added, remove);
    assert added.records[1].profileId == id;
    FindFinds(added.records, id);
    WithoutSecond(rules.standard, Record(id, name, on));
  }

  lemma {:induction false} WithoutAbsent(s: seq<Text>, x: Text)
    requires x !in s
    ensures Without(s, x) == s
  {
    if s != [] { WithoutAbsent(s[1..], x); }
  }

  lemma WithoutSecond(a: Record, b: Record)
    requires a.profileId != b.profileId
    ensures WithoutId([a, b], b.profileId) == [a]
  {
    assert [a, b][1..] == [b] && [b][1..] == [];
    assert WithoutId([b], b.profileId) == [];
  }

  lemma {:induction false} RunAppends(rules: Rules, s: State, first: seq<Call>, rest: seq<Call>)
    ensures Run(rules, s, first + rest) == Run(rules, Run(rules, s, first), rest)
    decreases |first|
  {
    if first == [] {
      assert first + rest == rest;
    } else {
      assert (first + rest)[1..] == first[1..] + rest;
      RunAppends(rules, Apply(rules, s, first[0]).stored, first[1..], rest);
    }
  }

  lemma RunTwo(rules: Rules, s: State, a: Call, b: Call)
    ensures Run(rules, s, [a, b]) == Apply(rules, Apply(rules, s, a).stored, b).stored
  {
    var next := Apply(rules, s, a).stored;
    assert [a, b][1..] == [b] && [b][1..] == [];
    assert Run(rules, next, [b]) == Run(rules, Apply(rules, next, b).stored, []);
  }

  /** The add without a title, as the registry carries it out. */
  lemma NamesAreGood(i: nat)
    requires i <= 64
    ensures IdOf(i) in RULES.ids && DerivedLabel(IdOf(i)) in RULES.names && IdOf(i) != RULES.standard.profileId
    ensures AddOf(IdOf(i), None, None) == Add(IdOf(i), DerivedLabel(IdOf(i)), false)
  {
    IdsAreValid(i);
    ValidIsGraphic(IdOf(i));
    DerivedLabelIsGood(IdOf(i));
  }

  lemma NotRemovedYet(i: nat)
    requires i <= 64
    ensures IdOf(i) !in Removed(i)
  {
    forall j | 0 <= j < i ensures Removed(i)[j] != IdOf(i) { if IdOf(j) == IdOf(i) { IdsDiffer(j, i); } }
  }

  lemma OneRound(rules: Rules, i: nat)
    requires i < 64 && Valid(rules, State([rules.standard], Removed(i))) && IdOf(i) in rules.ids
    requires DerivedLabel(IdOf(i)) in rules.names && IdOf(i) != rules.standard.profileId
    ensures Run(rules, State([rules.standard], Removed(i)), Round(i)) == State([rules.standard], Removed(i + 1))
  {
    NotRemovedYet(i);
    RoundLeavesATombstone(rules, Removed(i), IdOf(i), DerivedLabel(IdOf(i)));
    RoundIs(i);
    assert Removed(i + 1) == Removed(i) + [IdOf(i)];
  }

  lemma RoundIs(i: nat)
    requires i <= 64
    ensures Round(i) == [Call(Add(IdOf(i), DerivedLabel(IdOf(i)), false), []), Call(Remove(IdOf(i)), [])]
  {
  }

  lemma RoundLeavesATombstone(rules: Rules, ignored: seq<Text>, id: Text, name: Text)
    requires var s := State([rules.standard], ignored); Valid(rules, s) && |ignored| < MAX_PROFILES
    requires id in rules.ids && name in rules.names && id != rules.standard.profileId && id !in ignored
    ensures Run(rules, State([rules.standard], ignored), [Call(Add(id, name, false), []), Call(Remove(id), [])])
            == State([rules.standard], ignored + [id])
  {
    AddThenRemove(rules, ignored, id, name, false);
    RunTwo(rules, State([rules.standard], ignored), Call(Add(id, name, false), []), Call(Remove(id), []));
  }

  lemma {:induction false} RoundsRemove(k: nat)
    requires k <= 64
    ensures Run(RULES, FRESH, Rounds(k)) == State([DEFAULT], Removed(k))
  {
    if k == 0 {
      assert Removed(0) == [];
    } else {
      RoundsRemove(k - 1);
      RegistryStaysValid(Rounds(k - 1));
      RunAppends(RULES, FRESH, Rounds(k - 1), Round(k - 1));
      NamesAreGood(k - 1);
      OneRound(RULES, k - 1);
    }
  }

  /** After 64 profiles were added and removed, a 65th can be added but not removed. */
  lemma SixtyFifthRemovalIsRefused()
    ensures var s := Run(RULES, FRESH, Rounds(64));
            var added := Apply(RULES, s, Call(AddOf(IdOf(64), None, None), []));
            added.accepted && !Apply(RULES, added.stored, Call(Remove(IdOf(64)), [])).accepted
  {
    var s := Run(RULES, FRESH, Rounds(64));
    RoundsRemove(64);
    RegistryStaysValid(Rounds(64));
    NamesAreGood(64);
    NotRemovedYet(64);
    LastRound(RULES, Removed(64), IdOf(64), DerivedLabel(IdOf(64)));
  }

  lemma LastRound(rules: Rules, ignored: seq<Text>, id: Text, name: Text)
    requires var s := State([rules.standard], ignored); Valid(rules, s) && |ignored| == MAX_PROFILES
    requires id in rules.ids && name in rules.names && id != rules.standard.profileId && id !in ignored
    ensures var added := Apply(rules, State([rules.standard], ignored), Call(Add(id, name, false), []));
            added.accepted && !Apply(rules, added.stored, Call(Remove(id), [])).accepted
  {
    var s := State([rules.standard], ignored);
    var add := Call(Add(id, name, false), []);
    ReadingNothing(rules, s);
    ApplyKeeps(rules, s, add);
    assert Ids(s.records) == {rules.standard.profileId};
    WithoutAbsent(ignored, id);
    FindFinds(s.records, id);
    RemoveAccepted(rules, Apply(rules, s, add).stored, id, []);
  }
}
