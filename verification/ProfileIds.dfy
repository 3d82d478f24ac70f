/** The ids of local profiles, as packages/protocol/src/desktop-ipc.ts decodes them. */
module ProfileIds {
  import opened Utf16
  import opened ProfileLabels

  predicate IsAlphanumeric(u: Unit) {
    0x61 <= u <= 0x7A || 0x30 <= u <= 0x39
  }

  function Base(id: Text): Text {
    if id == [] || id[0] == 0x2E then [] else [id[0]] + Base(id[1..])
  }

  /** con, prn, aux, nul, com0 to com9 and lpt0 to lpt9. */
  predicate IsReserved(base: Text) {
    || base == [0x63, 0x6F, 0x6E] || base == [0x70, 0x72, 0x6E] || base == [0x61, 0x75, 0x78] || base == [0x6E, 0x75, 0x6C]
    || (|base| == 4 && (base[..3] == [0x63, 0x6F, 0x6D] || base[..3] == [0x6C, 0x70, 0x74]) && 0x30 <= base[3] <= 0x39)
  }

  predicate ValidId(id: Text) {
    && 1 <= |id| <= 64 && IsAlphanumeric(id[0]) && id[|id| - 1] != 0x2E && !IsReserved(Base(id))
    && forall i :: 0 <= i < |id| ==> IsAlphanumeric(id[i]) || IsSeparator(id[i])
  }

  /** The id "default" and its label "Default". */
  const DEFAULT_ID: Text := [0x64, 0x65, 0x66, 0x61, 0x75, 0x6C, 0x74]
  const DEFAULT_NAME: Text := [0x44, 0x65, 0x66, 0x61, 0x75, 0x6C, 0x74]

  lemma {:induction false} BaseWithoutDot(id: Text)
    requires 0x2E !in id
    ensures Base(id) == id
  {
    if id != [] { BaseWithoutDot(id[1..]); }
  }

  lemma DefaultIdIsValid()
    ensures ValidId(DEFAULT_ID)
  {
    BaseWithoutDot(DEFAULT_ID);
  }

  lemma DefaultNameIsGood()
    ensures GoodLabel(DEFAULT_NAME)
  {
    GraphicIsTidy(DEFAULT_NAME);
    GoodLabelsAreTidy(DEFAULT_NAME);
  }

  lemma ValidIsGraphic(id: Text)
    requires ValidId(id)
    ensures Graphic(id)
  {
  }
}
