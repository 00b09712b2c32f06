/** The reference tables the enricher reads, injected as immutable maps keyed
    by the decimal string of an ID. A table that is missing or failed to load
    is the empty map, which is what `data.get(name, {})` yields. */
module Tables {
  import opened Wrappers

  /** A skill-name entry: a JSON list of names, or some other JSON value. */
  datatype NameEntry = NameList(names: seq<string>) | NotAList

  /** One effect of a skill alternative; a missing key reads as 0. */
  datatype Effect = Effect(effectType: int, modifier: int)

  /** One activation variant of a skill; missing keys read as "", 0 and []. */
  datatype Alternative = Alternative(condition: string, baseDuration: int, effects: seq<Effect>)

  /** A (non-empty) skill_data record; a missing rarity reads as 0. */
  datatype SkillEntry = SkillEntry(rarity: int, alternatives: seq<Alternative>)

  /** A character record of umas_global / umas_full: its name list
      (native, English) and its outfit labels keyed by full card ID. A missing
      "name" key reads as ["", ""]. */
  datatype Uma = Uma(name: seq<string>, outfits: map<string, string>)

  /** A supportcardnames entry: up to three optional fields. */
  datatype CardNames = CardNames(name: Option<string>, title: Option<string>, chara: Option<string>)

  datatype Tables = Tables(
    skillsGlobal: map<string, NameEntry>,
    skillsJp: map<string, NameEntry>,
    skillData: map<string, SkillEntry>,
    umasGlobal: map<string, Uma>,
    umasFull: map<string, Uma>,
    sparknames: map<string, string>,
    racenames: map<string, string>,
    outfitnames: map<string, string>,
    supportcardnames: map<string, CardNames>,
    racetitles: map<string, string>,
    nicknames: map<string, string>)

  /** What `load_all_data` yields when the data directory is absent. */
  const NoTables := Tables(map[], map[], map[], map[], map[], map[], map[], map[], map[], map[], map[])

  /** Every character record has at least one name, as `names[0]` needs. */
  predicate UmaNamesPresent(umas: map<string, Uma>) {
    forall k :: k in umas ==> |umas[k].name| > 0
  }
}
