/** `format_effect` and `get_skill_type`: the readable text of one skill
    effect, and the colour class of a skill. */
module Effects {
  import opened Wrappers
  import opened PyStr
  import opened Tables

  /** EFFECT_TYPES: the labels of the known effect types. */
  const EffectTypes: map<int, string> := map[
    0 := "No Effect",
    1 := "Speed +",
    2 := "Stamina +",
    3 := "Power +",
    4 := "Guts +",
    5 := "Wit +",
    9 := "Stamina Recovery",
    10 := "Start Delay x",
    14 := "Set Start Delay",
    21 := "Current Speed +",
    22 := "Current Speed + (w/ decel)",
    27 := "Target Speed +",
    28 := "Lane Move Speed +",
    31 := "Acceleration +",
    35 := "Change Lane",
    37 := "Activate Random Gold",
    42 := "Extend Evolved Duration"
  ]

  /** `EFFECT_TYPES.get(t, default)`. */
  function EffectTypeName(t: int, default: string): string {
    if t in EffectTypes then EffectTypes[t] else default
  }

  /** The five stat-buff effect types. */
  predicate IsStatBuff(t: int) {
    1 <= t <= 5
  }

  /** The speed effect types, whose modifier is stored times 10000. */
  predicate IsSpeed(t: int) {
    t == 21 || t == 22 || t == 27
  }

  /** `format_effect`: one effect as text, the modifier scaled by type. */
  function FormatEffect(e: Effect): string {
    var t, m := e.effectType, e.modifier;
    var name := EffectTypeName(t, "Effect " + IntToStr(t));
    if IsStatBuff(t) then name + IntToStr(m)
    else if t == 9 then "Recover " + FormatFixed(m, 2, 0) + "% Stamina"
    else if IsSpeed(t) then name + FormatFixed(m, 4, 2) + "m/s"
    else if t == 31 then name + FormatFixed(m, 4, 4)
    else if t == 10 then "Start Delay x" + IntToStr(m)
    else name + " (" + IntToStr(m) + ")"
  }

  // ---------------------------------------------------------------------
  // What format_effect promises, branch by branch
  // ---------------------------------------------------------------------

  /** A stat buff is its label followed by the raw modifier, which reads back
      exactly. */
  lemma StatBuffText(e: Effect)
    requires IsStatBuff(e.effectType)
    ensures var name := EffectTypes[e.effectType];
            var s := FormatEffect(e);
            |name| <= |s| && s[..|name|] == name && ParseInt(s[|name|..]) == Some(e.modifier)
  {
    var name := EffectTypes[e.effectType];
    var s := FormatEffect(e);
    assert s == name + IntToStr(e.modifier);
    assert s[|name|..] == IntToStr(e.modifier);
    ParseIntRoundTrip(e.modifier);
  }

  /** An acceleration is its label and the modifier over 10000 with exactly
      four decimals, which reads back to the modifier itself. */
  lemma AccelerationText(e: Effect)
    requires e.effectType == 31
    ensures var name := "Acceleration +";
            var s := FormatEffect(e);
            |name| <= |s| && s[..|name|] == name && ParseFixed(s[|name|..], 4) == Some(e.modifier)
  {
    var s := FormatEffect(e);
    assert s == "Acceleration +" + FormatFixed(e.modifier, 4, 4);
    assert s[|"Acceleration +"|..] == FormatFixed(e.modifier, 4, 4);
    FormatFixedExact(e.modifier, 4);
  }

  /** `:.0f` of a whole number of percent prints that number. */
  lemma FormatWholeHundredths(k: int)
    ensures FormatFixed(100 * k, 2, 0) == IntToStr(k)
  {
    var a: nat := if k < 0 then -k else k;
    assert (if 100 * k < 0 then -(100 * k) else 100 * k) == a * 100;
    RoundHalfEvenMultiple(a, 100);
  }

  /** Stamina recovery prints the modifier over 100 as a whole percentage:
      exactly when the modifier is a multiple of 100, and otherwise rounded
      to within half a percent. */
  lemma RecoveryText(e: Effect)
    requires e.effectType == 9
    ensures e.modifier % 100 == 0 ==>
              FormatEffect(e) == "Recover " + IntToStr(e.modifier / 100) + "% Stamina"
    ensures exists v: int ::
              FormatEffect(e) == "Recover " + FormatFixed(e.modifier, 2, 0) + "% Stamina" &&
              ParseFixed(FormatFixed(e.modifier, 2, 0), 0) == Some(v) &&
              -50 <= 100 * v - e.modifier <= 50
  {
    var m := e.modifier;
    if m % 100 == 0 {
      FormatWholeHundredths(m / 100);
      assert 100 * (m / 100) == m;
    }
    var v := FormatFixedNear(m, 2, 0);
  }

  /** A speed effect prints the modifier over 10000 with two decimals,
      rounded to within half a hundredth. */
  lemma SpeedText(e: Effect)
    requires IsSpeed(e.effectType)
    ensures exists v: int ::
              FormatEffect(e) == EffectTypes[e.effectType] + FormatFixed(e.modifier, 4, 2) + "m/s" &&
              ParseFixed(FormatFixed(e.modifier, 4, 2), 2) == Some(v) &&
              -50 <= 100 * v - e.modifier <= 50
  {
    var v := FormatFixedNear(e.modifier, 4, 2);
  }

  /** The remaining known types print their label and the raw modifier in
      parentheses; unknown types print "Effect" and the type number instead
      of a label. */
  lemma OtherText(e: Effect)
    requires !IsStatBuff(e.effectType) && !IsSpeed(e.effectType)
    requires e.effectType != 9 && e.effectType != 10 && e.effectType != 31
    ensures e.effectType in EffectTypes ==>
              FormatEffect(e) == EffectTypes[e.effectType] + " (" + IntToStr(e.modifier) + ")"
    ensures e.effectType !in EffectTypes ==>
              FormatEffect(e) == "Effect " + IntToStr(e.effectType) + " (" + IntToStr(e.modifier) + ")"
  {
  }

  /** The start-delay multiplier prints the raw modifier after its label. */
  lemma StartDelayText(e: Effect)
    requires e.effectType == 10
    ensures FormatEffect(e) == EffectTypes[10] + IntToStr(e.modifier)
  {
  }

  // ---------------------------------------------------------------------
  // get_skill_type
  // ---------------------------------------------------------------------

  /** The colour classes of a skill. */
  datatype SkillColor = Green | Blue | Unique | Inherited | Gold | White {
    /** The class as the JSON output spells it. */
    function Label(): string {
      match this
      case Green => "green"
      case Blue => "blue"
      case Unique => "unique"
      case Inherited => "inherited"
      case Gold => "gold"
      case White => "white"
    }
  }

  predicate HasStatBuff(effects: seq<Effect>) {
    exists i :: 0 <= i < |effects| && IsStatBuff(effects[i].effectType)
  }

  predicate HasNegativeModifier(effects: seq<Effect>) {
    exists i :: 0 <= i < |effects| && effects[i].modifier < 0
  }

  /** `len(sid) == 6 and sid.startswith(a or b)` on `sid = str(skill_id)`. */
  predicate SixDigitsStartingWith(sid: string, a: string, b: string) {
    |sid| == 6 && (StartsWith(sid, a) || StartsWith(sid, b))
  }

  /** `get_skill_type`: stat buffs first, then debuffs, then the two ID
      families; None when none applies. */
  function SkillTypeOf(skillId: int, effects: seq<Effect>): Option<SkillColor> {
    var sid := IntToStr(skillId);
    if HasStatBuff(effects) then Some(Green)
    else if HasNegativeModifier(effects) then Some(Blue)
    else if SixDigitsStartingWith(sid, "10", "11") then Some(Unique)
    else if SixDigitsStartingWith(sid, "90", "91") then Some(Inherited)
    else None
  }

  /** A six-character `str(id)` starts with the two digits of `p` exactly
      when `id` lies in `[p * 10000, (p + 1) * 10000)`. */
  lemma SixDigitPrefix(id: int, p: nat)
    requires 10 <= p < 100
    ensures (|IntToStr(id)| == 6 && StartsWith(IntToStr(id), NatToStr(p)))
            <==> p * 10000 <= id < (p + 1) * 10000
  {
    if p * 10000 <= id < (p + 1) * 10000 {
      InRangeHasPrefix(id, p);
    }
    if |IntToStr(id)| == 6 && StartsWith(IntToStr(id), NatToStr(p)) {
      PrefixInRange(id, p);
    }
  }

  /** An ID in the range prints as six characters starting with `p`. */
  lemma InRangeHasPrefix(id: int, p: nat)
    requires 10 <= p < 100
    requires p * 10000 <= id < (p + 1) * 10000
    ensures |IntToStr(id)| == 6 && StartsWith(IntToStr(id), NatToStr(p))
  {
    NatToStrLength(p, 1);
    var n: nat := id;
    NatToStrLength(n, 5);
    NatToStrSplit(n, 4);
    DivModUnique(n, 10000, p, n - p * 10000);
    assert NatToStr(n)[..2] == NatToStr(p);
  }

  /** An ID printing as six characters that start with `p` lies in the range. */
  lemma PrefixInRange(id: int, p: nat)
    requires 10 <= p < 100
    requires |IntToStr(id)| == 6 && StartsWith(IntToStr(id), NatToStr(p))
    ensures p * 10000 <= id < (p + 1) * 10000
  {
    NatToStrLength(p, 1);
    var sp := NatToStr(p);
    assert IsDigit(sp[0]) && IntToStr(id)[..2][0] == IntToStr(id)[0];
    var n: nat := id;
    NatToStrBounds(n);
    NatToStrSplit(n, 4);
    var q := n / 10000;
    NatToStrLength(q, 1) by {
      DivModUnique(n, 10000, n / 10000, n % 10000);
    }
    assert NatToStr(q) == sp;
    NatToStrValue(q);
    NatToStrValue(p);
    DivModUnique(n, 10000, n / 10000, n % 10000);
  }

  /** The skill types in the order they are tested: green and blue come from
      the effects alone, and the two ID families are the arithmetic ranges
      100000..119999 and 900000..919999. */
  lemma SkillTypePriority(skillId: int, effects: seq<Effect>)
    ensures var r := SkillTypeOf(skillId, effects);
            var base := !HasStatBuff(effects) && !HasNegativeModifier(effects);
            && (r == Some(Green) <==> HasStatBuff(effects))
            && (r == Some(Blue) <==> !HasStatBuff(effects) && HasNegativeModifier(effects))
            && (r == Some(Unique) <==> base && 100000 <= skillId < 120000)
            && (r == Some(Inherited) <==> base && 900000 <= skillId < 920000)
            && (r == None <==> base && !(100000 <= skillId < 120000) && !(900000 <= skillId < 920000))
  {
    SixDigitPrefix(skillId, 10);
    SixDigitPrefix(skillId, 11);
    SixDigitPrefix(skillId, 90);
    SixDigitPrefix(skillId, 91);
    assert NatToStr(10) == "10" && NatToStr(11) == "11";
    assert NatToStr(90) == "90" && NatToStr(91) == "91";
  }

  /** The documented classifications: 100061 and 110061 are unique, 900061
      and 910061 inherited, and 200601 neither. */
  lemma ClassificationExamples()
    ensures SkillTypeOf(100061, []) == Some(Unique) && SkillTypeOf(110061, []) == Some(Unique)
    ensures SkillTypeOf(900061, []) == Some(Inherited) && SkillTypeOf(910061, []) == Some(Inherited)
    ensures SkillTypeOf(200601, []) == None
  {
    SkillTypePriority(100061, []);
    SkillTypePriority(110061, []);
    SkillTypePriority(900061, []);
    SkillTypePriority(910061, []);
    SkillTypePriority(200601, []);
  }
}
