/** `get_skill_details`: what the skill_data table says about one skill,
    made readable. Only the first alternative is described. */
module Skills {
  import opened Wrappers
  import opened PyStr
  import opened Tables
  import opened Condition
  import opened Effects

  /** The rarity label: 1-3 white, 4-5 gold, 6 unique. */
  function RarityName(rarity: int): (s: string)
    ensures s == "Gold" <==> rarity == 4 || rarity == 5
    ensures s == "Unique" <==> rarity == 6
    ensures s == "White" <==> 1 <= rarity <= 3
    ensures !(1 <= rarity <= 6) ==> s == "Rarity " + IntToStr(rarity)
  {
    if 1 <= rarity <= 3 then "White"
    else if rarity == 4 || rarity == 5 then "Gold"
    else if rarity == 6 then "Unique"
    else
      var s := "Rarity " + IntToStr(rarity);
      assert s[0] == 'R';
      s
  }

  /** One entry of the "effects" list of the details. */
  datatype EffectInfo = EffectInfo(effectType: int, typeName: string, modifier: int, readable: string)

  /** "duration_base_ms" and "duration_per_1000m". */
  datatype Duration = Duration(baseMs: int, per1000m: string)

  /** The keys that come from the first alternative. */
  datatype AltDetails = AltDetails(
    condition: string,
    conditionReadable: string,
    duration: Option<Duration>,
    effects: seq<EffectInfo>,
    skillType: SkillColor,
    summary: string)

  /** The details dict: "rarity" always, the rest only when the skill has an
      alternative. */
  datatype SkillDetails = SkillDetails(rarity: string, alt: Option<AltDetails>)

  function EffectInfoOf(e: Effect): EffectInfo {
    EffectInfo(e.effectType, EffectTypeName(e.effectType, "Unknown"), e.modifier, FormatEffect(e))
  }

  function EffectInfos(effects: seq<Effect>): (infos: seq<EffectInfo>)
    ensures |infos| == |effects|
    ensures forall i :: 0 <= i < |effects| ==> infos[i] == EffectInfoOf(effects[i])
  {
    seq(|effects|, i requires 0 <= i < |effects| => EffectInfoOf(effects[i]))
  }

  function Readables(infos: seq<EffectInfo>): (r: seq<string>)
    ensures |r| == |infos|
    ensures forall i :: 0 <= i < |infos| ==> r[i] == infos[i].readable
  {
    seq(|infos|, i requires 0 <= i < |infos| => infos[i].readable)
  }

  /** The skill type when `get_skill_type` has none: from the rarity label. */
  function FallbackType(rarityLabel: string): SkillColor {
    if rarityLabel == "Gold" then Gold
    else if rarityLabel == "Unique" then Unique
    else White
  }

  /** `"{condition_readable} → {effects_summary}"`. */
  function Summary(conditionReadable: string, infos: seq<EffectInfo>): string {
    conditionReadable + " → " + Join(Readables(infos), ", ")
  }

  function DurationOf(baseDuration: int): Option<Duration> {
    if baseDuration != 0 then Some(Duration(baseDuration, FormatFixed(baseDuration, 3, 1) + "s"))
    else None
  }

  /** The details of one alternative, or the error its condition raises. */
  function AltDetailsOf(skillId: int, alt: Alternative, rarityLabel: string): Result<AltDetails, ParseError> {
    match ConditionText(alt.condition)
    case Err(e) => Err(e)
    case Ok(readable) =>
      var infos := EffectInfos(alt.effects);
      var skillType := SkillTypeOf(skillId, alt.effects).GetOr(FallbackType(rarityLabel));
      Ok(AltDetails(alt.condition, readable, DurationOf(alt.baseDuration), infos, skillType, Summary(readable, infos)))
  }

  /** The details of a skill; None when skill_data has no entry for it. */
  function DetailsOf(skillData: map<string, SkillEntry>, skillId: int): Result<Option<SkillDetails>, ParseError> {
    var key := IntToStr(skillId);
    if key !in skillData then Ok(None)
    else
      var entry := skillData[key];
      var rarityLabel := RarityName(entry.rarity);
      if entry.alternatives == [] then Ok(Some(SkillDetails(rarityLabel, None)))
      else
        match AltDetailsOf(skillId, entry.alternatives[0], rarityLabel)
        case Err(e) => Err(e)
        case Ok(a) => Ok(Some(SkillDetails(rarityLabel, Some(a))))
  }

  /** The loop of `get_skill_details` that fills the effect list. */
  method ListEffects(effects: seq<Effect>) returns (infos: seq<EffectInfo>)
    ensures infos == EffectInfos(effects)
  {
    infos := [];
    var i := 0;
    while i < |effects|
      invariant 0 <= i <= |effects|
      invariant infos == EffectInfos(effects[..i])
    {
      infos := infos + [EffectInfoOf(effects[i])];
      i := i + 1;
    }
    assert effects[..i] == effects;
  }

  /** `get_skill_details`. */
  method GetSkillDetails(skillData: map<string, SkillEntry>, skillId: int)
    returns (r: Result<Option<SkillDetails>, ParseError>)
    ensures r == DetailsOf(skillData, skillId)
  {
    var key := IntToStr(skillId);
    if key !in skillData {
      return Ok(None);
    }
    var entry := skillData[key];
    var rarity := RarityName(entry.rarity);
    if entry.alternatives == [] {
      return Ok(Some(SkillDetails(rarity, None)));
    }
    var alt := entry.alternatives[0];
    var readable := ParseCondition(alt.condition);
    if readable.Err? {
      return Err(readable.error);
    }
    var duration := None;
    if alt.baseDuration != 0 {
      duration := Some(Duration(alt.baseDuration, FormatFixed(alt.baseDuration, 3, 1) + "s"));
    }
    var infos := ListEffects(alt.effects);
    var skillType := SkillTypeOf(skillId, alt.effects);
    var color;
    if skillType.Some? {
      color := skillType.value;
    } else if rarity == "Gold" {
      color := Gold;
    } else if rarity == "Unique" {
      color := Unique;
    } else {
      color := White;
    }
    var summary := readable.value + " → " + Join(Readables(infos), ", ");
    r := Ok(Some(SkillDetails(rarity, Some(AltDetails(alt.condition, readable.value, duration, infos, color, summary)))));
  }

  // ---------------------------------------------------------------------
  // Properties
  // ---------------------------------------------------------------------

  /** A skill without a skill_data entry has no details, and a skill with an
      entry always has some (or raises from its condition). */
  lemma DetailsPresence(skillData: map<string, SkillEntry>, skillId: int)
    ensures DetailsOf(skillData, skillId) == Ok(None) <==> IntToStr(skillId) !in skillData
  {
  }

  /** Only the first alternative is looked at: entries that agree on the
      rarity and the first alternative give the same details. */
  lemma FirstAlternativeOnly(skillId: int, e1: SkillEntry, e2: SkillEntry)
    requires e1.rarity == e2.rarity
    requires |e1.alternatives| > 0 && |e2.alternatives| > 0
    requires e1.alternatives[0] == e2.alternatives[0]
    ensures DetailsOf(map[IntToStr(skillId) := e1], skillId) == DetailsOf(map[IntToStr(skillId) := e2], skillId)
  {
  }

  /** The details list one effect per effect of the first alternative, in
      order, each with its raw type and modifier, its label (or "Unknown")
      and its readable text. */
  lemma EffectsListed(skillData: map<string, SkillEntry>, skillId: int)
    requires DetailsOf(skillData, skillId).Ok? && DetailsOf(skillData, skillId).value.Some?
    requires DetailsOf(skillData, skillId).value.value.alt.Some?
    ensures var key := IntToStr(skillId);
            key in skillData && |skillData[key].alternatives| > 0 &&
            var effects := skillData[key].alternatives[0].effects;
            var infos := DetailsOf(skillData, skillId).value.value.alt.value.effects;
            |infos| == |effects| &&
            forall i :: 0 <= i < |effects| ==>
              && infos[i].effectType == effects[i].effectType
              && infos[i].modifier == effects[i].modifier
              && infos[i].typeName == (if effects[i].effectType in EffectTypes then EffectTypes[effects[i].effectType] else "Unknown")
              && infos[i].readable == FormatEffect(effects[i])
  {
  }

  /** The skill type is `get_skill_type`'s answer when it has one, and
      otherwise follows the raw rarity: 4-5 gold, 6 unique, anything else
      white. */
  lemma SkillTypeFallback(skillId: int, alt: Alternative, rarity: int)
    requires AltDetailsOf(skillId, alt, RarityName(rarity)).Ok?
    ensures var t := AltDetailsOf(skillId, alt, RarityName(rarity)).value.skillType;
            match SkillTypeOf(skillId, alt.effects)
            case Some(c) => t == c
            case None => t == (if rarity == 4 || rarity == 5 then Gold else if rarity == 6 then Unique else White)
  {
  }

  /** The duration appears exactly when baseDuration is non-zero, and its
      text is baseDuration / 1000 with one decimal, rounded to within half a
      tenth of a second; exact for whole tenths. */
  lemma DurationText(baseDuration: int)
    ensures DurationOf(baseDuration).Some? <==> baseDuration != 0
    ensures baseDuration != 0 ==>
              exists v: int ::
                DurationOf(baseDuration).value.per1000m == FormatFixed(baseDuration, 3, 1) + "s" &&
                ParseFixed(FormatFixed(baseDuration, 3, 1), 1) == Some(v) &&
                -50 <= 100 * v - baseDuration <= 50 &&
                (baseDuration % 100 == 0 ==> v == baseDuration / 100)
  {
    if baseDuration != 0 {
      var v := FormatFixedNear(baseDuration, 3, 1);
      assert DurationOf(baseDuration).value.per1000m == FormatFixed(baseDuration, 3, 1) + "s";
    }
  }

  /** A condition that raises makes the details raise, whatever else the
      entry holds. */
  lemma ConditionErrorPropagates(skillData: map<string, SkillEntry>, skillId: int)
    requires IntToStr(skillId) in skillData
    requires |skillData[IntToStr(skillId)].alternatives| > 0
    requires ConditionText(skillData[IntToStr(skillId)].alternatives[0].condition).Err?
    ensures DetailsOf(skillData, skillId) == Err(ConditionText(skillData[IntToStr(skillId)].alternatives[0].condition).error)
  {
  }
}
