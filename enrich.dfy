/** `enrich_character`: adds English names to one character record and to
    the records nested in it. The record is a `Character` object whose
    fields are the keys the enrichment reads or writes; nested records are
    values held in its sequence fields. An ID of 0 stands for a falsy or
    missing ID. */
module Enrich {
  import opened Wrappers
  import opened PyStr
  import opened Tables
  import opened Condition
  import opened Effects
  import opened Skills
  import opened Resolvers

  /** `if name: entry[key] = name`: the value when truthy, else no key. */
  function IfTruthy(o: Option<string>): (r: Option<string>)
    ensures r.Some? <==> Truthy(o)
    ensures r.Some? ==> r == o
  {
    if Truthy(o) then o else None
  }

  /** `d.update(info)` for one key: the new value when `info` has the key. */
  function Merge<T>(current: Option<T>, update: Option<T>): Option<T> {
    if update.Some? then update else current
  }

  // ---------------------------------------------------------------------
  // Star levels
  // ---------------------------------------------------------------------

  /** The last two characters of `str(id)` (the whole string if shorter). */
  function LastTwo(s: string): string {
    if |s| >= 2 then s[|s| - 2..] else s
  }

  /** `int(str(id)[-2:])`, on the string as the source computes it. */
  function StarLevel(sparkId: int): Option<int> {
    ParseInt(LastTwo(IntToStr(sparkId)))
  }

  /** The same star level on the number: the last two decimal digits, or
      the ID itself when it is negative with a single digit (`"-7"`). */
  function StarDigits(sparkId: int): int {
    if sparkId >= 0 then sparkId % 100
    else if sparkId > -10 then sparkId
    else (-sparkId) % 100
  }

  /** The "stars" key: the star level when it lies in 1..3. */
  function StarsOf(sparkId: int): Option<int> {
    var v := StarDigits(sparkId);
    if 1 <= v <= 3 then Some(v) else None
  }

  /** `int()` never fails on the last two characters of `str(id)`, and reads
      the star level off them. */
  lemma StarLevelValue(sparkId: int)
    ensures StarLevel(sparkId) == Some(StarDigits(sparkId))
  {
    if sparkId >= 0 {
      LastTwoDigitsValue(sparkId);
      ParseDigits(LastTwo(NatToStr(sparkId)));
    } else {
      var n: nat := -sparkId;
      var s := IntToStr(sparkId);
      if n < 10 {
        assert NatToStr(n) == [DigitChar(n)];
        assert s[1..] == NatToStr(n);
        ParseNegative(s);
      } else {
        var digits := NatToStr(n);
        assert |digits| >= 2;
        assert LastTwo(s) == digits[|digits| - 2..];
        LastTwoDigitsValue(n);
        ParseDigits(LastTwo(digits));
      }
    }
  }

  /** What the loops below compute for the "stars" key is `StarsOf`. */
  lemma StarsFromLevel(sparkId: int)
    ensures var level := StarLevel(sparkId);
            (if level.Some? && 1 <= level.value <= 3 then Some(level.value) else None) == StarsOf(sparkId)
  {
    StarLevelValue(sparkId);
  }

  /** Stars are present exactly when `id % 100` is 1, 2 or 3, and then equal it. */
  lemma StarsValue(sparkId: int)
    requires sparkId >= 0
    ensures StarsOf(sparkId).Some? <==> 1 <= sparkId % 100 <= 3
    ensures StarsOf(sparkId).Some? ==> StarsOf(sparkId).value == sparkId % 100
  {
  }

  // ---------------------------------------------------------------------
  // Skills
  // ---------------------------------------------------------------------

  /** The keys a skill gets from `get_skill_details`; the inner options are
      JSON nulls (the details of a skill without alternatives). */
  datatype SkillFields = SkillFields(
    rarity: string,
    skillType: Option<string>,
    condition: Option<string>,
    effects: seq<EffectInfo>,
    duration: Option<string>,
    summary: Option<string>)

  /** One entry of "skill_array". */
  datatype Skill = Skill(skillId: int, nameEn: Option<string>, fields: Option<SkillFields>)

  /** The keys copied from the details into the skill. */
  function FieldsOf(d: SkillDetails): (f: SkillFields)
    ensures f.rarity == d.rarity
    ensures d.alt.None? ==> f == SkillFields(d.rarity, None, None, [], None, None)
    ensures d.alt.Some? ==>
              && f.skillType == Some(d.alt.value.skillType.Label())
              && f.condition == Some(d.alt.value.conditionReadable)
              && f.effects == d.alt.value.effects
              && f.summary == Some(d.alt.value.summary)
              && (f.duration.Some? <==> d.alt.value.duration.Some?)
  {
    match d.alt
    case None => SkillFields(d.rarity, None, None, [], None, None)
    case Some(a) =>
      var duration := if a.duration.Some? then Some(a.duration.value.per1000m) else None;
      SkillFields(d.rarity, Some(a.skillType.Label()), Some(a.conditionReadable), a.effects, duration, Some(a.summary))
  }

  /** The skill after its name is set: the step before the details. */
  function NamedSkill(t: Tables, s: Skill): Skill {
    var name := IfTruthy(SkillName(t, s.skillId));
    s.(nameEn := Merge(s.nameEn, name))
  }

  /** One skill enriched, or the error its details raise. */
  function SkillEnriched(t: Tables, s: Skill): Result<Skill, ParseError> {
    if s.skillId == 0 then Ok(s)
    else
      var named := NamedSkill(t, s);
      match DetailsOf(t.skillData, s.skillId)
      case Err(e) => Err(e)
      case Ok(None) => Ok(named)
      case Ok(Some(d)) => Ok(named.(fields := Some(FieldsOf(d))))
  }

  /** The skill list after the loop, and the error that stopped it, if any. */
  datatype SkillsOutcome = SkillsOutcome(skills: seq<Skill>, error: Option<ParseError>)

  /** The loop over a list with step `enrich`: the skills before the failing
      one are enriched, the failing one has only `name` applied, and the rest
      are untouched. */
  function EnrichedList(enrich: Skill -> Result<Skill, ParseError>, name: Skill -> Skill, ss: seq<Skill>): (o: SkillsOutcome)
    ensures |o.skills| == |ss|
  {
    if ss == [] then SkillsOutcome([], None)
    else
      var last := ss[|ss| - 1];
      var before := EnrichedList(enrich, name, ss[..|ss| - 1]);
      if before.error.Some? then SkillsOutcome(before.skills + [last], before.error)
      else
        match enrich(last)
        case Err(e) => SkillsOutcome(before.skills + [name(last)], Some(e))
        case Ok(s) => SkillsOutcome(before.skills + [s], None)
  }

  function Enricher(t: Tables): Skill -> Result<Skill, ParseError> {
    s => SkillEnriched(t, s)
  }

  function Namer(t: Tables): Skill -> Skill {
    s => NamedSkill(t, s)
  }

  /** The skill list after the skill loop of `enrich_character`. */
  function EnrichedSkills(t: Tables, ss: seq<Skill>): SkillsOutcome {
    EnrichedList(Enricher(t), Namer(t), ss)
  }

  /** Once the loop has stopped at an error, the later skills are left as
      they are. */
  lemma {:induction false} ListErrorPersists(enrich: Skill -> Result<Skill, ParseError>, name: Skill -> Skill, ss: seq<Skill>, k: nat)
    requires k <= |ss| && EnrichedList(enrich, name, ss[..k]).error.Some?
    ensures EnrichedList(enrich, name, ss) ==
              SkillsOutcome(EnrichedList(enrich, name, ss[..k]).skills + ss[k..], EnrichedList(enrich, name, ss[..k]).error)
  {
    if k == |ss| {
      assert ss[..k] == ss;
    } else {
      var init := ss[..|ss| - 1];
      assert init[..k] == ss[..k];
      ListErrorPersists(enrich, name, init, k);
      assert ss[k..] == init[k..] + [ss[|ss| - 1]];
    }
  }

  /** Replacing the first element after a prefix. */
  lemma ReplaceAfter<T>(xs: seq<T>, prefix: seq<T>, ss: seq<T>, i: nat, y: T)
    requires |prefix| == i < |ss| && xs == prefix + ss[i..]
    ensures xs[i := y] == prefix + [y] + ss[i + 1..]
  {
    assert ss[i..] == [ss[i]] + ss[i + 1..];
  }

  /** A successful step extends the clean prefix by one skill. */
  lemma ListStepOk(enrich: Skill -> Result<Skill, ParseError>, name: Skill -> Skill, ss: seq<Skill>, i: nat,
                   skills: seq<Skill>, v: Skill)
    requires i < |ss| && EnrichedList(enrich, name, ss[..i]).error.None?
    requires skills == EnrichedList(enrich, name, ss[..i]).skills + ss[i..]
    requires enrich(ss[i]) == Ok(v)
    ensures EnrichedList(enrich, name, ss[..i + 1]).error.None?
    ensures skills[i := v] == EnrichedList(enrich, name, ss[..i + 1]).skills + ss[i + 1..]
  {
    assert ss[..i + 1][..i] == ss[..i];
  }

  /** A failing step ends the loop with the named skill in its place. */
  lemma ListStepErr(enrich: Skill -> Result<Skill, ParseError>, name: Skill -> Skill, ss: seq<Skill>, i: nat)
    requires i < |ss| && EnrichedList(enrich, name, ss[..i]).error.None?
    requires enrich(ss[i]).Err?
    ensures EnrichedList(enrich, name, ss) ==
              SkillsOutcome(EnrichedList(enrich, name, ss[..i]).skills + [name(ss[i])] + ss[i + 1..], Some(enrich(ss[i]).error))
  {
    assert ss[..i + 1][..i] == ss[..i];
    ListErrorPersists(enrich, name, ss, i + 1);
  }

  /** The body of the skill loop for one skill: the skill with its name set,
      and then either the enriched skill or the error of its details. */
  method EnrichSkill(t: Tables, s: Skill) returns (named: Skill, r: Result<Skill, ParseError>)
    ensures named == Namer(t)(s) && r == Enricher(t)(s)
  {
    named := s;
    var name := SkillName(t, s.skillId);
    if Truthy(name) {
      named := s.(nameEn := name);
    }
    if s.skillId == 0 {
      return named, Ok(s);
    }
    var details := GetSkillDetails(t.skillData, s.skillId);
    if details.Err? {
      return named, Err(details.error);
    }
    if details.value.Some? {
      return named, Ok(named.(fields := Some(FieldsOf(details.value.value))));
    }
    return named, Ok(named);
  }

  /** The skill loop: each skill is replaced by its enriched version; the
      first error stops the loop. */
  method EnrichSkillList(t: Tables, ss: seq<Skill>) returns (o: SkillsOutcome)
    ensures o == EnrichedSkills(t, ss)
  {
    ghost var enrich, name := Enricher(t), Namer(t);
    var skills := ss;
    var i := 0;
    while i < |ss|
      invariant 0 <= i <= |ss|
      invariant EnrichedList(enrich, name, ss[..i]).error.None?
      invariant skills == EnrichedList(enrich, name, ss[..i]).skills + ss[i..]
    {
      var named, r := EnrichSkill(t, ss[i]);
      if r.Err? {
        ListStepErr(enrich, name, ss, i);
        ReplaceAfter(skills, EnrichedList(enrich, name, ss[..i]).skills, ss, i, named);
        return SkillsOutcome(skills[i := named], Some(r.error));
      }
      ListStepOk(enrich, name, ss, i, skills, r.value);
      skills := skills[i := r.value];
      i := i + 1;
    }
    assert ss[..i] == ss;
    return SkillsOutcome(skills, None);
  }

  /** A skill whose ID is falsy is left as it is. */
  lemma SkillWithoutIdUntouched(t: Tables, s: Skill)
    requires s.skillId == 0
    ensures SkillEnriched(t, s) == Ok(s)
  {
  }

  /** Each enriched skill keeps its ID, gets the resolved name when there is
      one, and gets the details' keys exactly when skill_data has the skill. */
  lemma SkillEnrichedFields(t: Tables, s: Skill)
    requires s.skillId != 0 && SkillEnriched(t, s).Ok?
    ensures var r := SkillEnriched(t, s).value;
            && r.skillId == s.skillId
            && (Truthy(SkillName(t, s.skillId)) ==> r.nameEn == SkillName(t, s.skillId))
            && (!Truthy(SkillName(t, s.skillId)) ==> r.nameEn == s.nameEn)
            && (r.fields == s.fields <== IntToStr(s.skillId) !in t.skillData)
            && (IntToStr(s.skillId) in t.skillData ==>
                  r.fields.Some? && r.fields.value == FieldsOf(DetailsOf(t.skillData, s.skillId).value.value))
  {
  }

  /** Enriching an enriched skill changes nothing. */
  lemma SkillEnrichedIdempotent(t: Tables, s: Skill)
    requires SkillEnriched(t, s).Ok?
    ensures SkillEnriched(t, SkillEnriched(t, s).value) == SkillEnriched(t, s)
  {
  }

  // ---------------------------------------------------------------------
  // Sparks and factors
  // ---------------------------------------------------------------------

  /** One entry of "spark_array_enriched". */
  datatype SparkEntry = SparkEntry(sparkId: int, nameEn: Option<string>, stars: Option<int>)

  function SparkEntryOf(t: Tables, sparkId: int): SparkEntry {
    SparkEntry(sparkId, SparkName(t, sparkId), StarsOf(sparkId))
  }

  /** The entries built from "factor_id_array", one per ID. */
  function SparkEntries(t: Tables, ids: seq<int>): (r: seq<SparkEntry>)
    ensures |r| == |ids|
    ensures forall i :: 0 <= i < |ids| ==> r[i] == SparkEntryOf(t, ids[i])
  {
    seq(|ids|, i requires 0 <= i < |ids| => SparkEntryOf(t, ids[i]))
  }

  /** The loop over "factor_id_array". */
  method BuildSparkEntries(t: Tables, ids: seq<int>) returns (r: seq<SparkEntry>)
    ensures r == SparkEntries(t, ids)
  {
    ghost var spec := SparkEntries(t, ids);
    r := [];
    var i := 0;
    while i < |ids|
      invariant 0 <= i <= |ids|
      invariant r == spec[..i]
    {
      var entry := BuildSparkEntry(t, ids[i], spec[i]);
      r := r + [entry];
      i := i + 1;
    }
  }

  /** The body of that loop: one factor ID's entry. */
  method BuildSparkEntry(t: Tables, sparkId: int, ghost spec: SparkEntry) returns (e: SparkEntry)
    requires spec == SparkEntryOf(t, sparkId)
    ensures e == spec
  {
    var name := GetSparkName(t, sparkId);
    var starLevel := StarLevel(sparkId);
    var stars := None;
    if starLevel.Some? && 1 <= starLevel.value <= 3 {
      stars := Some(starLevel.value);
    }
    StarsFromLevel(sparkId);
    e := SparkEntry(sparkId, name, stars);
  }

  /** The spark entries list every factor ID once, in order, with its name
      when it resolves (never an empty one) and stars exactly for star levels
      1..3. */
  lemma SparkEntriesShape(t: Tables, ids: seq<int>)
    requires forall i :: 0 <= i < |ids| ==> ids[i] >= 0
    ensures var r := SparkEntries(t, ids);
            |r| == |ids| &&
            forall i :: 0 <= i < |ids| ==>
              && r[i].sparkId == ids[i]
              && r[i].nameEn == SparkName(t, ids[i])
              && (r[i].nameEn.Some? ==> r[i].nameEn.value != "")
              && (r[i].stars.Some? <==> 1 <= ids[i] % 100 <= 3)
              && (r[i].stars.Some? ==> r[i].stars.value == ids[i] % 100)
  {
    forall i | 0 <= i < |ids|
      ensures StarsOf(ids[i]).Some? <==> 1 <= ids[i] % 100 <= 3
      ensures StarsOf(ids[i]).Some? ==> StarsOf(ids[i]).value == ids[i] % 100
    {
      StarsValue(ids[i]);
    }
  }

  /** One entry of a "factor_info_array". */
  datatype Factor = Factor(factorId: int, nameEn: Option<string>, stars: Option<int>)

  /** A top-level factor: its name only. */
  function TopFactor(t: Tables, f: Factor): Factor {
    if f.factorId == 0 then f
    else f.(nameEn := Merge(f.nameEn, SparkName(t, f.factorId)))
  }

  /** A parent's factor: its name and its stars. */
  function ParentFactor(t: Tables, f: Factor): Factor {
    if f.factorId == 0 then f
    else
      var named := f.(nameEn := Merge(f.nameEn, SparkName(t, f.factorId)));
      named.(stars := Merge(named.stars, StarsOf(f.factorId)))
  }

  function TopFactors(t: Tables, fs: seq<Factor>): (r: seq<Factor>)
    ensures |r| == |fs|
    ensures forall i :: 0 <= i < |fs| ==> r[i] == TopFactor(t, fs[i])
  {
    seq(|fs|, i requires 0 <= i < |fs| => TopFactor(t, fs[i]))
  }

  function ParentFactors(t: Tables, fs: seq<Factor>): (r: seq<Factor>)
    ensures |r| == |fs|
    ensures forall i :: 0 <= i < |fs| ==> r[i] == ParentFactor(t, fs[i])
  {
    seq(|fs|, i requires 0 <= i < |fs| => ParentFactor(t, fs[i]))
  }

  /** The loop over the top-level "factor_info_array". */
  method EnrichTopFactors(t: Tables, fs: seq<Factor>) returns (r: seq<Factor>)
    ensures r == TopFactors(t, fs)
  {
    r := fs;
    var i := 0;
    while i < |fs|
      invariant 0 <= i <= |fs| && |r| == |fs|
      invariant forall j :: 0 <= j < i ==> r[j] == TopFactor(t, fs[j])
      invariant forall j :: i <= j < |fs| ==> r[j] == fs[j]
    {
      var f := r[i];
      if f.factorId != 0 {
        var name := GetSparkName(t, f.factorId);
        if name.Some? {
          r := r[i := f.(nameEn := name)];
        }
      }
      i := i + 1;
    }
  }

  /** The loop over a parent's "factor_info_array". */
  method EnrichParentFactors(t: Tables, fs: seq<Factor>) returns (r: seq<Factor>)
    ensures r == ParentFactors(t, fs)
  {
    ghost var spec := ParentFactors(t, fs);
    r := fs;
    var i := 0;
    while i < |fs|
      invariant 0 <= i <= |fs| && |r| == |fs|
      invariant forall j :: 0 <= j < i ==> r[j] == spec[j]
      invariant forall j :: i <= j < |fs| ==> r[j] == fs[j]
    {
      var f := r[i];
      if f.factorId != 0 {
        f := EnrichParentFactor(t, f, spec[i]);
        r := r[i := f];
      }
      i := i + 1;
    }
  }

  /** The body of that loop for a factor with an ID. */
  method EnrichParentFactor(t: Tables, f: Factor, ghost spec: Factor) returns (g: Factor)
    requires spec == ParentFactor(t, f) && f.factorId != 0
    ensures g == spec
  {
    g := f;
    var name := GetSparkName(t, g.factorId);
    if name.Some? {
      g := g.(nameEn := name);
    }
    var starLevel := StarLevel(g.factorId);
    if starLevel.Some? && 1 <= starLevel.value <= 3 {
      g := g.(stars := Some(starLevel.value));
    }
    StarsFromLevel(g.factorId);
  }

  /** Top-level factors never gain stars; parents' factors gain them for
      star levels 1..3. */
  lemma FactorStars(t: Tables, f: Factor)
    requires f.factorId > 0
    ensures TopFactor(t, f).stars == f.stars
    ensures TopFactor(t, f).nameEn == ParentFactor(t, f).nameEn
    ensures 1 <= f.factorId % 100 <= 3 ==> ParentFactor(t, f).stars == Some(f.factorId % 100)
    ensures !(1 <= f.factorId % 100 <= 3) ==> ParentFactor(t, f).stars == f.stars
  {
    StarsValue(f.factorId);
  }

  // ---------------------------------------------------------------------
  // Wins, nicknames and support cards
  // ---------------------------------------------------------------------

  /** One entry of "win_saddle_array_enriched". */
  datatype WinEntry = WinEntry(saddleId: int, raceNameEn: Option<string>)

  function WinEntries(t: Tables, ids: seq<int>): (r: seq<WinEntry>)
    ensures |r| == |ids|
    ensures forall i :: 0 <= i < |ids| ==> r[i] == WinEntry(ids[i], IfTruthy(RaceTitleName(t, ids[i])))
  {
    seq(|ids|, i requires 0 <= i < |ids| => WinEntry(ids[i], IfTruthy(RaceTitleName(t, ids[i]))))
  }

  /** One entry of "nickname_array_enriched". */
  datatype NickEntry = NickEntry(nicknameId: int, nicknameNameEn: Option<string>)

  function NickEntries(t: Tables, ids: seq<int>): (r: seq<NickEntry>)
    ensures |r| == |ids|
    ensures forall i :: 0 <= i < |ids| ==> r[i] == NickEntry(ids[i], IfTruthy(NicknameName(t, ids[i])))
  {
    seq(|ids|, i requires 0 <= i < |ids| => NickEntry(ids[i], IfTruthy(NicknameName(t, ids[i]))))
  }

  method BuildWinEntries(t: Tables, ids: seq<int>) returns (r: seq<WinEntry>)
    ensures r == WinEntries(t, ids)
  {
    r := [];
    var i := 0;
    while i < |ids|
      invariant 0 <= i <= |ids|
      invariant r == WinEntries(t, ids[..i])
    {
      var name := RaceTitleName(t, ids[i]);
      var entry := WinEntry(ids[i], None);
      if Truthy(name) {
        entry := entry.(raceNameEn := name);
      }
      r := r + [entry];
      i := i + 1;
    }
    assert ids[..i] == ids;
  }

  method BuildNickEntries(t: Tables, ids: seq<int>) returns (r: seq<NickEntry>)
    ensures r == NickEntries(t, ids)
  {
    r := [];
    var i := 0;
    while i < |ids|
      invariant 0 <= i <= |ids|
      invariant r == NickEntries(t, ids[..i])
    {
      var name := NicknameName(t, ids[i]);
      var entry := NickEntry(ids[i], None);
      if Truthy(name) {
        entry := entry.(nicknameNameEn := name);
      }
      r := r + [entry];
      i := i + 1;
    }
    assert ids[..i] == ids;
  }

  /** One entry of "support_card_list": its ID and the keys the
      enrichment may set. */
  datatype Support = Support(supportCardId: int, info: SupportInfo)

  function MergeSupport(current: SupportInfo, update: SupportInfo): SupportInfo {
    SupportInfo(Merge(current.name, update.name), Merge(current.title, update.title),
                Merge(current.chara, update.chara), Merge(current.cardType, update.cardType))
  }

  function SupportEnriched(t: Tables, s: Support): Support {
    if s.supportCardId == 0 then s
    else s.(info := MergeSupport(s.info, SupportCardInfo(t, s.supportCardId)))
  }

  function Supports(t: Tables, ss: seq<Support>): (r: seq<Support>)
    ensures |r| == |ss|
    ensures forall i :: 0 <= i < |ss| ==> r[i] == SupportEnriched(t, ss[i])
  {
    seq(|ss|, i requires 0 <= i < |ss| => SupportEnriched(t, ss[i]))
  }

  method EnrichSupports(t: Tables, ss: seq<Support>) returns (r: seq<Support>)
    ensures r == Supports(t, ss)
  {
    r := ss;
    var i := 0;
    while i < |ss|
      invariant 0 <= i <= |ss| && |r| == |ss|
      invariant forall j :: 0 <= j < i ==> r[j] == SupportEnriched(t, ss[j])
      invariant forall j :: i <= j < |ss| ==> r[j] == ss[j]
    {
      var s := r[i];
      if s.supportCardId != 0 {
        var info := SupportCardInfo(t, s.supportCardId);
        r := r[i := s.(info := MergeSupport(s.info, info))];
      }
      i := i + 1;
    }
  }

  /** A support card keeps the values it had for the keys its entry lacks,
      and takes the table's values for the keys it has. */
  lemma SupportKeys(t: Tables, s: Support)
    requires s.supportCardId != 0
    ensures var key := IntToStr(s.supportCardId);
            var r := SupportEnriched(t, s).info;
            && (key in t.supportcardnames && t.supportcardnames[key].name.Some? ==> r.name == t.supportcardnames[key].name)
            && (key in t.supportcardnames && t.supportcardnames[key].title.Some? ==> r.title == t.supportcardnames[key].title)
            && (key in t.supportcardnames && t.supportcardnames[key].chara.Some? ==> r.chara == t.supportcardnames[key].chara)
            && (key !in t.supportcardnames ==> r.name == s.info.name && r.title == s.info.title && r.chara == s.info.chara)
            && (key[0] in SupportCardTypes ==> r.cardType == Some(SupportCardTypes[key[0]]))
            && (key[0] !in SupportCardTypes ==> r.cardType == s.info.cardType)
  {
  }

  // ---------------------------------------------------------------------
  // Characters and parents
  // ---------------------------------------------------------------------

  function MergeChara(current: CharaInfo, update: CharaInfo): CharaInfo {
    CharaInfo(Merge(current.charaName, update.charaName), Merge(current.costumeName, update.costumeName),
              Merge(current.cardName, update.cardName))
  }

  /** The character keys after `if card_id: char.update(get_chara_info(...))`. */
  function CharaEnriched(t: Tables, cardId: int, current: CharaInfo): CharaInfo
    requires cardId != 0 ==> CharaNamesPresent(t, cardId)
  {
    if cardId == 0 then current else MergeChara(current, CharaInfoOf(t, cardId))
  }

  /** One entry of "succession_chara_array". */
  datatype Parent = Parent(cardId: int, chara: CharaInfo, factors: seq<Factor>)

  /** The records `get_chara_info` reads for the parents have name lists. */
  predicate ParentsUsable(t: Tables, ps: seq<Parent>) {
    forall i :: 0 <= i < |ps| && ps[i].cardId != 0 ==> CharaNamesPresent(t, ps[i].cardId)
  }

  function ParentEnriched(t: Tables, p: Parent): Parent
    requires p.cardId != 0 ==> CharaNamesPresent(t, p.cardId)
  {
    if p.cardId == 0 then p
    else Parent(p.cardId, MergeChara(p.chara, CharaInfoOf(t, p.cardId)), ParentFactors(t, p.factors))
  }

  function Parents(t: Tables, ps: seq<Parent>): (r: seq<Parent>)
    requires ParentsUsable(t, ps)
    ensures |r| == |ps|
    ensures forall i :: 0 <= i < |ps| ==> r[i] == ParentEnriched(t, ps[i])
  {
    seq(|ps|, i requires 0 <= i < |ps| && ParentsUsable(t, ps) => ParentEnriched(t, ps[i]))
  }

  method EnrichParents(t: Tables, ps: seq<Parent>) returns (r: seq<Parent>)
    requires ParentsUsable(t, ps)
    ensures r == Parents(t, ps)
  {
    r := ps;
    var i := 0;
    while i < |ps|
      invariant 0 <= i <= |ps| && |r| == |ps|
      invariant forall j :: 0 <= j < i ==> r[j] == ParentEnriched(t, ps[j])
      invariant forall j :: i <= j < |ps| ==> r[j] == ps[j]
    {
      var p := r[i];
      if p.cardId != 0 {
        var info := CharaInfoOf(t, p.cardId);
        var factors := EnrichParentFactors(t, p.factors);
        r := r[i := Parent(p.cardId, MergeChara(p.chara, info), factors)];
      }
      i := i + 1;
    }
  }

  /** A parent with a falsy card ID is skipped entirely, its factors
      included. */
  lemma ParentWithoutCardSkipped(t: Tables, p: Parent)
    requires p.cardId == 0
    ensures ParentEnriched(t, p) == p
  {
  }

  /** An enriched parent has the character's keys and its factors carry
      names and stars, one factor per original factor. */
  lemma ParentEnrichedShape(t: Tables, p: Parent)
    requires p.cardId != 0 && CharaNamesPresent(t, p.cardId)
    ensures var r := ParentEnriched(t, p);
            && r.cardId == p.cardId
            && (CharaInfoOf(t, p.cardId).charaName.Some? ==> r.chara.charaName == CharaInfoOf(t, p.cardId).charaName)
            && (CharaInfoOf(t, p.cardId).cardName.Some? ==> r.chara.cardName == CharaInfoOf(t, p.cardId).cardName)
            && |r.factors| == |p.factors|
            && forall i :: 0 <= i < |p.factors| ==> r.factors[i] == ParentFactor(t, p.factors[i])
  {
  }

  // ---------------------------------------------------------------------
  // The character record
  // ---------------------------------------------------------------------

  /** A character record: the IDs it carries and the English keys the
      enrichment adds. */
  class Character {
    var cardId: int
    var chara: CharaInfo
    var raceClothId: int
    var raceClothNameEn: Option<string>
    var skills: seq<Skill>
    var factorIds: seq<int>
    var sparkArrayEnriched: Option<seq<SparkEntry>>
    var factorInfos: seq<Factor>
    var winSaddleIds: seq<int>
    var winSaddleEnriched: Option<seq<WinEntry>>
    var nicknameIds: seq<int>
    var nicknameEnriched: Option<seq<NickEntry>>
    var supports: seq<Support>
    var parents: seq<Parent>

    /** A record as read from the input, before any enrichment. */
    constructor (cardId: int, raceClothId: int, skills: seq<Skill>, factorIds: seq<int>, factorInfos: seq<Factor>,
                 winSaddleIds: seq<int>, nicknameIds: seq<int>, supports: seq<Support>, parents: seq<Parent>)
      ensures this.cardId == cardId && this.raceClothId == raceClothId && this.skills == skills
      ensures this.factorIds == factorIds && this.factorInfos == factorInfos
      ensures this.winSaddleIds == winSaddleIds && this.nicknameIds == nicknameIds
      ensures this.supports == supports && this.parents == parents
      ensures chara == CharaInfo(None, None, None) && raceClothNameEn.None?
      ensures sparkArrayEnriched.None? && winSaddleEnriched.None? && nicknameEnriched.None?
    {
      this.cardId := cardId;
      this.chara := CharaInfo(None, None, None);
      this.raceClothId := raceClothId;
      this.raceClothNameEn := None;
      this.skills := skills;
      this.factorIds := factorIds;
      this.sparkArrayEnriched := None;
      this.factorInfos := factorInfos;
      this.winSaddleIds := winSaddleIds;
      this.winSaddleEnriched := None;
      this.nicknameIds := nicknameIds;
      this.nicknameEnriched := None;
      this.supports := supports;
      this.parents := parents;
    }

    /** The character records the enrichment reads have name lists. */
    predicate Usable(t: Tables)
      reads this
    {
      (cardId != 0 ==> CharaNamesPresent(t, cardId)) && ParentsUsable(t, parents)
    }

    /** `enrich_character`. On an error from a skill's condition the record
        keeps what was done before it; otherwise every key is enriched. */
    method EnrichCharacter(t: Tables) returns (error: Option<ParseError>)
      requires Usable(t)
      modifies this
      ensures cardId == old(cardId) && raceClothId == old(raceClothId) && factorIds == old(factorIds)
      ensures winSaddleIds == old(winSaddleIds) && nicknameIds == old(nicknameIds)
      ensures chara == CharaEnriched(t, cardId, old(chara))
      ensures raceClothNameEn == (if raceClothId == 0 then old(raceClothNameEn)
                                  else Merge(old(raceClothNameEn), IfTruthy(RaceClothName(t, raceClothId))))
      ensures var o := EnrichedSkills(t, old(skills)); skills == o.skills && error == o.error
      ensures error.Some? ==>
                && sparkArrayEnriched == old(sparkArrayEnriched) && factorInfos == old(factorInfos)
                && winSaddleEnriched == old(winSaddleEnriched) && nicknameEnriched == old(nicknameEnriched)
                && supports == old(supports) && parents == old(parents)
      ensures error.None? ==>
                && sparkArrayEnriched == (if factorIds == [] then old(sparkArrayEnriched) else Some(SparkEntries(t, factorIds)))
                && factorInfos == TopFactors(t, old(factorInfos))
                && winSaddleEnriched == (if winSaddleIds == [] then old(winSaddleEnriched) else Some(WinEntries(t, winSaddleIds)))
                && nicknameEnriched == (if nicknameIds == [] then old(nicknameEnriched) else Some(NickEntries(t, nicknameIds)))
                && supports == Supports(t, old(supports))
                && ParentsUsable(t, old(parents)) && parents == Parents(t, old(parents))
    {
      EnrichCard(t);
      error := EnrichSkills(t);
      if error.None? {
        EnrichLists(t);
      }
    }

    /** The card and outfit keys of the record itself. */
    method EnrichCard(t: Tables)
      requires Usable(t)
      modifies this
      ensures unchanged(this`cardId, this`raceClothId, this`skills, this`factorIds, this`sparkArrayEnriched)
      ensures unchanged(this`factorInfos, this`winSaddleIds, this`winSaddleEnriched, this`nicknameIds)
      ensures unchanged(this`nicknameEnriched, this`supports, this`parents)
      ensures chara == CharaEnriched(t, cardId, old(chara))
      ensures raceClothNameEn == (if raceClothId == 0 then old(raceClothNameEn)
                                  else Merge(old(raceClothNameEn), IfTruthy(RaceClothName(t, raceClothId))))
    {
      if cardId != 0 {
        var info := CharaInfoOf(t, cardId);
        chara := MergeChara(chara, info);
      }
      if raceClothId != 0 {
        var clothName := RaceClothName(t, raceClothId);
        if Truthy(clothName) {
          raceClothNameEn := clothName;
        }
      }
    }

    /** The skill loop over the record's "skill_array". */
    method EnrichSkills(t: Tables) returns (error: Option<ParseError>)
      modifies this
      ensures var o := EnrichedSkills(t, old(skills)); skills == o.skills && error == o.error
      ensures unchanged(this`cardId, this`chara, this`raceClothId, this`raceClothNameEn, this`factorIds)
      ensures unchanged(this`sparkArrayEnriched, this`factorInfos, this`winSaddleIds, this`winSaddleEnriched)
      ensures unchanged(this`nicknameIds, this`nicknameEnriched, this`supports, this`parents)
    {
      var outcome := EnrichSkillList(t, skills);
      skills := outcome.skills;
      error := outcome.error;
    }

    /** Everything after the skill loop: sparks, factors, wins, nicknames,
        support cards and parents. */
    method EnrichLists(t: Tables)
      requires ParentsUsable(t, parents)
      modifies this
      ensures unchanged(this`cardId, this`chara, this`raceClothId, this`raceClothNameEn, this`skills)
      ensures unchanged(this`factorIds, this`winSaddleIds, this`nicknameIds)
      ensures sparkArrayEnriched == (if factorIds == [] then old(sparkArrayEnriched) else Some(SparkEntries(t, factorIds)))
      ensures factorInfos == TopFactors(t, old(factorInfos))
      ensures winSaddleEnriched == (if winSaddleIds == [] then old(winSaddleEnriched) else Some(WinEntries(t, winSaddleIds)))
      ensures nicknameEnriched == (if nicknameIds == [] then old(nicknameEnriched) else Some(NickEntries(t, nicknameIds)))
      ensures supports == Supports(t, old(supports))
      ensures ParentsUsable(t, old(parents)) && parents == Parents(t, old(parents))
    {
      EnrichSparks(t);
      EnrichTitles(t);
      EnrichSupportsAndParents(t);
    }

    /** "spark_array_enriched" and the top-level "factor_info_array". */
    method EnrichSparks(t: Tables)
      modifies this
      ensures unchanged(this`cardId, this`chara, this`raceClothId, this`raceClothNameEn, this`skills)
      ensures unchanged(this`factorIds, this`winSaddleIds, this`winSaddleEnriched, this`nicknameIds)
      ensures unchanged(this`nicknameEnriched, this`supports, this`parents)
      ensures sparkArrayEnriched == (if factorIds == [] then old(sparkArrayEnriched) else Some(SparkEntries(t, factorIds)))
      ensures factorInfos == TopFactors(t, old(factorInfos))
    {
      var sparks := BuildSparkEntries(t, factorIds);
      if sparks != [] {
        sparkArrayEnriched := Some(sparks);
      }
      factorInfos := EnrichTopFactors(t, factorInfos);
    }

    /** "win_saddle_array_enriched" and "nickname_array_enriched". */
    method EnrichTitles(t: Tables)
      modifies this
      ensures unchanged(this`cardId, this`chara, this`raceClothId, this`raceClothNameEn, this`skills)
      ensures unchanged(this`factorIds, this`sparkArrayEnriched, this`factorInfos, this`winSaddleIds)
      ensures unchanged(this`nicknameIds, this`supports, this`parents)
      ensures winSaddleEnriched == (if winSaddleIds == [] then old(winSaddleEnriched) else Some(WinEntries(t, winSaddleIds)))
      ensures nicknameEnriched == (if nicknameIds == [] then old(nicknameEnriched) else Some(NickEntries(t, nicknameIds)))
    {
      if winSaddleIds != [] {
        var wins := BuildWinEntries(t, winSaddleIds);
        winSaddleEnriched := Some(wins);
      }
      if nicknameIds != [] {
        var nicks := BuildNickEntries(t, nicknameIds);
        nicknameEnriched := Some(nicks);
      }
    }

    /** "support_card_list" and "succession_chara_array". */
    method EnrichSupportsAndParents(t: Tables)
      requires ParentsUsable(t, parents)
      modifies this
      ensures unchanged(this`cardId, this`chara, this`raceClothId, this`raceClothNameEn, this`skills)
      ensures unchanged(this`factorIds, this`sparkArrayEnriched, this`factorInfos, this`winSaddleIds)
      ensures unchanged(this`winSaddleEnriched, this`nicknameIds, this`nicknameEnriched)
      ensures supports == Supports(t, old(supports))
      ensures ParentsUsable(t, old(parents)) && parents == Parents(t, old(parents))
    {
      supports := EnrichSupports(t, supports);
      parents := EnrichParents(t, parents);
    }
  }

  // ---------------------------------------------------------------------
  // Enriching twice
  // ---------------------------------------------------------------------

  /** Enriching an enriched record again changes none of the keys: each
      step only writes values computed from IDs it does not change. */
  lemma EnrichmentIdempotent(t: Tables, cardId: int, c: CharaInfo, fs: seq<Factor>, ss: seq<Support>, ps: seq<Parent>)
    requires cardId != 0 ==> CharaNamesPresent(t, cardId)
    requires ParentsUsable(t, ps)
    ensures CharaEnriched(t, cardId, CharaEnriched(t, cardId, c)) == CharaEnriched(t, cardId, c)
    ensures TopFactors(t, TopFactors(t, fs)) == TopFactors(t, fs)
    ensures Supports(t, Supports(t, ss)) == Supports(t, ss)
    ensures ParentsUsable(t, Parents(t, ps)) && Parents(t, Parents(t, ps)) == Parents(t, ps)
  {
    var once := Parents(t, ps);
    assert ParentsUsable(t, once);
    forall i | 0 <= i < |ps|
      ensures ParentEnriched(t, once[i]) == once[i]
    {
      var p := ps[i];
      if p.cardId != 0 {
        var q := once[i];
        assert ParentFactors(t, q.factors) == q.factors;
      }
    }
  }

  /** Running the loop again over a clean result changes nothing, when its
      step is idempotent. */
  lemma {:induction false} ListIdempotent(enrich: Skill -> Result<Skill, ParseError>, name: Skill -> Skill, ss: seq<Skill>)
    requires forall s :: enrich(s).Ok? ==> enrich(enrich(s).value) == enrich(s)
    requires EnrichedList(enrich, name, ss).error.None?
    ensures EnrichedList(enrich, name, EnrichedList(enrich, name, ss).skills) == EnrichedList(enrich, name, ss)
  {
    if ss != [] {
      var init := ss[..|ss| - 1];
      ListIdempotent(enrich, name, init);
      var once := EnrichedList(enrich, name, ss).skills;
      assert once[..|once| - 1] == EnrichedList(enrich, name, init).skills;
    }
  }

  /** Enriching the skill list again, after a clean run, changes nothing. */
  lemma SkillsIdempotent(t: Tables, ss: seq<Skill>)
    requires EnrichedSkills(t, ss).error.None?
    ensures EnrichedSkills(t, EnrichedSkills(t, ss).skills) == EnrichedSkills(t, ss)
  {
    var enrich := Enricher(t);
    forall s | enrich(s).Ok?
      ensures enrich(enrich(s).value) == enrich(s)
    {
      SkillEnrichedIdempotent(t, s);
    }
    ListIdempotent(enrich, Namer(t), ss);
  }
}
