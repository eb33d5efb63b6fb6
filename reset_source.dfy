/** Classification of the reset cause recorded in the RCC control/status
    register (RCC_CSR) of the STM32U5.

    The seven reset flags are single bits of RCC_CSR whose positions are
    fixed by the device header, which is not part of this model. They are
    therefore a parameter `Masks`; `Masks.WellFormed` says that each is one
    bit and that no two share a bit, which is all the classifier relies on.

    A 32-bit register value is represented by the set of positions (0 to 31)
    of its 1 bits: bitwise AND is set intersection, OR is union and NOT is
    the complement within the 32 positions. */
module ResetSource {

  /** The seven reset flags, from the highest priority to the lowest. */
  datatype Flag = LPWR | WWDG | IWDG | SFT | BOR | PIN | OBL

  /** Position of a flag in the order the classifier tests them (0 first). */
  function Rank(f: Flag): (r: nat)
    ensures r < 7
  {
    match f
    case LPWR => 0
    case WWDG => 1
    case IWDG => 2
    case SFT => 3
    case BOR => 4
    case PIN => 5
    case OBL => 6
  }

  /** `g` is tested before `f`. */
  predicate Higher(g: Flag, f: Flag) {
    Rank(g) < Rank(f)
  }

  /** The label the classifier picks: one flag, or no flag at all. */
  datatype Label = Source(flag: Flag) | Unknown

  /** The text logged for a label. It only documents the log output, which
      is not otherwise part of this model. */
  function LabelText(l: Label): string {
    match l
    case Source(LPWR) => "LPWRRSTF"
    case Source(WWDG) => "WWDGRSTF: Windowing Watchdog"
    case Source(IWDG) => "IWDGRSTF: Independent Watchdog"
    case Source(SFT) => "SFTRSTF: Software"
    case Source(BOR) => "BORRSTF: Brownout"
    case Source(PIN) => "PINRSTF: NSRT Pin"
    case Source(OBL) => "OBLRSTF: Option Byte Load"
    case Unknown => "Unknown"
  }

  /** A bit position of a 32-bit word. */
  type Bit = b: nat | b < 32

  /** A 32-bit word, as the set of the positions of its 1 bits. */
  type Word = set<Bit>

  /** The word with no bit set (the C constant 0). */
  const Zero: Word := {}

  /** Bitwise NOT of a word. */
  function Not(x: Word): (r: Word)
    ensures forall b: Bit :: b in r <==> b !in x
  {
    set b: Bit | b !in x
  }

  /** Exactly one bit of `x` is set. */
  predicate SingleBit(x: Word) {
    |x| == 1
  }

  /** The RCC_CSR_*RSTF_Msk constants of the seven flags. */
  datatype Masks = Masks(lpwr: Word, wwdg: Word, iwdg: Word, sft: Word,
                         bor: Word, pin: Word, obl: Word)
  {
    function Of(f: Flag): Word {
      match f
      case LPWR => lpwr
      case WWDG => wwdg
      case IWDG => iwdg
      case SFT => sft
      case BOR => bor
      case PIN => pin
      case OBL => obl
    }

    /** The union (bitwise OR) of the seven masks. */
    function All(): Word {
      lpwr + wwdg + iwdg + sft + bor + pin + obl
    }

    /** Seven distinct single-bit masks. */
    predicate WellFormed() {
      (forall f :: SingleBit(Of(f))) &&
      (forall f, g :: f != g ==> Of(f) * Of(g) == Zero)
    }
  }

  /** Flag `f` is set in the register value `flags`. */
  predicate IsSet(m: Masks, flags: Word, f: Flag) {
    flags * m.Of(f) != Zero
  }

  /** The register value kept after masking: no bit outside the seven
      flags survives, every bit inside them is kept as it was, and so each
      flag is set in the result exactly when it was set before. */
  function Masked(m: Masks, raw: Word): (r: Word)
    ensures r * Not(m.All()) == Zero
    ensures r * m.All() == raw * m.All()
    ensures forall f :: IsSet(m, r, f) <==> IsSet(m, raw, f)
  {
    raw * m.All()
  }

  /** The label chosen by the strict-priority test of the flags. The label is
      Unknown exactly when none of the seven flags is set. */
  function ResetLabel(m: Masks, flags: Word): (l: Label)
    ensures l == Unknown <==> forall f :: !IsSet(m, flags, f)
  {
    var l :=
      if flags * m.lpwr != Zero then Source(LPWR)
      else if flags * m.wwdg != Zero then Source(WWDG)
      else if flags * m.iwdg != Zero then Source(IWDG)
      else if flags * m.sft != Zero then Source(SFT)
      else if flags * m.bor != Zero then Source(BOR)
      else if flags * m.pin != Zero then Source(PIN)
      else if flags * m.obl != Zero then Source(OBL)
      else Unknown;
    assert l.Source? ==> IsSet(m, flags, l.flag);
    l
  }

  /** The classifier reports Unknown exactly when the masked value is zero. */
  lemma UnknownIffMaskedZero(m: Masks, raw: Word)
    ensures ResetLabel(m, raw) == Unknown <==> Masked(m, raw) == Zero
  {
  }

  /** Strict priority: a flag's label is chosen exactly when that flag is set
      and every flag tested before it is clear. */
  lemma LabelPriority(m: Masks, flags: Word, f: Flag)
    ensures ResetLabel(m, flags) == Source(f) <==>
            IsSet(m, flags, f) && forall g :: Higher(g, f) ==> !IsSet(m, flags, g)
  {
    if ResetLabel(m, flags) == Source(f) {
      forall g | Higher(g, f) ensures !IsSet(m, flags, g) {
      }
    }
    if IsSet(m, flags, f) && forall g :: Higher(g, f) ==> !IsSet(m, flags, g) {
      match f
      case LPWR =>
      case WWDG =>
        assert Higher(LPWR, f);
      case IWDG =>
        assert Higher(LPWR, f) && Higher(WWDG, f);
      case SFT =>
        assert Higher(LPWR, f) && Higher(WWDG, f) && Higher(IWDG, f);
      case BOR =>
        assert Higher(LPWR, f) && Higher(WWDG, f) && Higher(IWDG, f) && Higher(SFT, f);
      case PIN =>
        assert Higher(LPWR, f) && Higher(WWDG, f) && Higher(IWDG, f) && Higher(SFT, f);
        assert Higher(BOR, f);
      case OBL =>
        assert Higher(LPWR, f) && Higher(WWDG, f) && Higher(IWDG, f) && Higher(SFT, f);
        assert Higher(BOR, f) && Higher(PIN, f);
    }
  }

  /** Bits outside the seven flags never influence the label: two register
      values that agree on the flags get the same label. */
  lemma LabelIgnoresOtherBits(m: Masks, a: Word, b: Word)
    requires a * m.All() == b * m.All()
    ensures ResetLabel(m, a) == ResetLabel(m, b)
  {
    forall f ensures IsSet(m, a, f) <==> IsSet(m, b, f) {
      assert a * m.Of(f) == (a * m.All()) * m.Of(f);
      assert b * m.Of(f) == (b * m.All()) * m.Of(f);
    }
    assert IsSet(m, a, LPWR) == IsSet(m, b, LPWR);
    assert IsSet(m, a, WWDG) == IsSet(m, b, WWDG);
    assert IsSet(m, a, IWDG) == IsSet(m, b, IWDG);
    assert IsSet(m, a, SFT) == IsSet(m, b, SFT);
    assert IsSet(m, a, BOR) == IsSet(m, b, BOR);
    assert IsSet(m, a, PIN) == IsSet(m, b, PIN);
  }

  /** Classifying the masked value gives the label of the raw value. */
  lemma LabelOfMasked(m: Masks, raw: Word)
    ensures ResetLabel(m, Masked(m, raw)) == ResetLabel(m, raw)
  {
  }

  /** Masking again changes nothing, so a second classification of the kept
      value leaves it as it is and picks the same label. */
  lemma MaskIdempotent(m: Masks, raw: Word)
    ensures Masked(m, Masked(m, raw)) == Masked(m, raw)
    ensures ResetLabel(m, Masked(m, Masked(m, raw))) == ResetLabel(m, Masked(m, raw))
  {
  }

  /** With seven distinct single-bit masks, a register holding only flag `f`
      is labelled `f`: every label other than Unknown is reachable. */
  lemma SingleFlagLabel(m: Masks, f: Flag)
    requires m.WellFormed()
    ensures ResetLabel(m, m.Of(f)) == Source(f)
  {
    forall g | Higher(g, f) ensures !IsSet(m, m.Of(f), g) {
      assert g != f;
    }
    assert m.Of(f) * m.Of(f) == m.Of(f) != Zero;
    LabelPriority(m, m.Of(f), f);
  }
}
