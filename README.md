# Uma parent viewer: name enrichment and reference tables

This project is a Dafny model of the core of the uma-parent-viewer tools.
They take the character records exported from the game, with their
skills, sparks (inheritance factors), race wins, epithets, support cards and
parents. Each record gets English names and readable skill descriptions,
looked up in reference tables. The tables themselves are generated from the
community translation dump (a dict of numbered text categories).

The model covers two source files.

- `enrich_data.py`:
  - the skill-condition parser (`parse_condition`);
  - effect formatting (`format_effect`) and the colour classifier (`get_skill_type`);
  - skill details (`get_skill_details`);
  - the name resolvers (skill, spark, race title, nickname, outfit, support card, character);
  - the record enrichment (`enrich_character`);
  - the constant maps `EFFECT_TYPES`, `CONDITION_TERMS` and `SUPPORT_CARD_TYPES`.
- `generate_data.py`:
  - the terminology rewriter (`apply_corrections`) and its two correction tables;
  - the six `generate_*` table transforms.

The reference tables are an injected value (`Tables.Tables`), one map per
JSON file. A table that is missing is the empty map. Every resolver is
therefore a function of an ID and the tables.

Modules:

| file | module | content |
|---|---|---|
| `wrappers.dfy` | `Wrappers` | `Option`, `Result` |
| `pystr.dfy` | `PyStr` | Python string semantics the code relies on: `str(int)`, `int(str)`, `in`, `find`, `split`, `strip`, `replace`, `title`, `join`, `:.Nf` formatting |
| `tables.dfy` | `Tables` | the reference tables and their entry shapes |
| `condition.dfy` | `Condition` | `parse_condition` |
| `condition_examples.dfy` | `ConditionExamples` | worked conditions |
| `effects.dfy` | `Effects` | `format_effect`, `get_skill_type` |
| `skills.dfy` | `Skills` | `get_skill_details` |
| `resolvers.dfy` | `Resolvers` | the name resolvers |
| `enrich.dfy` | `Enrich` | `enrich_character`, with the record as the class `Character` |
| `corrections.dfy` | `Corrections` | `apply_corrections`, `SPARK_NAME_CORRECTIONS`, `NICKNAME_CORRECTIONS` |
| `corrections_examples.dfy` | `CorrectionsExamples` | a second pass over the whole spark-name table |
| `generate.dfy` | `Generate` | the `generate_*` transforms |

The code's loops are methods (`ParseCondition`, `GetSparkName`,
`ApplyCorrections`, `GenerateSparknames`, ...). Each is proved equal to a
specification function, and the properties are lemmas about those
functions. The record that `enrich_character` mutates in place is a class.
Its `EnrichCharacter` method states the whole new state, including what is
left when a skill condition raises part-way through.

Where the documentation and the code disagree, the model follows the code:

- A condition clause with the key `always` is kept as title-cased text (`always==1` gives `Always==1`), not dropped.
- A skill whose details have no alternatives gets the keys `skill_type`, `condition`, `duration` and `summary` set to null, and `effects` set to the empty list. The keys are not omitted.

The specification functions carry no contract of their own; the rows for
the methods and lemmas about them state what they promise:
`Condition.ConditionText` (enrich_data.py:119-211) through
`Condition.ParseCondition` and the clause lemmas; `Effects.FormatEffect`
(enrich_data.py:214-235) through `Effects.StatBuffText` to
`Effects.OtherText`; `Effects.SkillTypeOf` (enrich_data.py:238-269) through
`Effects.SkillTypePriority`; `Corrections.Corrected`
(generate_data.py:135-147) through `Corrections.ApplyCorrections` and the
correction lemmas. The constant tables are transcribed entry for entry:
`Effects.EffectTypes` (enrich_data.py:35-53), `Condition.ConditionTerms`
(enrich_data.py:56-69), `Resolvers.SupportCardTypes`
(enrich_data.py:440-448), `Corrections.SparkNameCorrections`
(generate_data.py:54-127, split into its commented groups, in order) and
`Corrections.NicknameCorrections` (generate_data.py:129-132).

## Model

| member | source | states |
|---|---|---|
| Condition.ParseCondition | enrich_data.py:119-211 | the parser computes `ConditionText`: "Always" for the empty condition, otherwise the non-blank clauses' texts joined by " & ", or the first error raised |
| Condition.RenderClauses | enrich_data.py:126-129 | the clause loop strips each clause, skips blank ones, renders the rest in order and stops at the first error |
| Condition.RenderTerm | enrich_data.py:132-209 | the operator loop, with its `break`, its `continue` for `always` and its `for...else`, yields the clause's text or its error |
| Condition.ClausesStep | enrich_data.py:126-136 | one more clause: a blank one adds nothing, a rendered one appends its text, a raising one makes the whole list raise |
| Condition.ClausesErrorPersists | enrich_data.py:166 | once a clause raises, the clauses after it are never rendered |
| Condition.ClausesAppend | enrich_data.py:124-129 | the parts of a concatenation are the parts of each half in order; the first error wins |
| Condition.BlankClausesContributeNothing | enrich_data.py:127-129 | clauses that are blank once stripped contribute no part |
| Condition.AlwaysWhenNothingToSay | enrich_data.py:121-129 | a condition whose `&`-clauses are all blank reads "Always" |
| Condition.ScanSkipsAbsent | enrich_data.py:132-133 | operators that do not occur in the clause are passed over |
| Condition.SkipOnlyForAlways | enrich_data.py:200-201 | the rules ask to continue the operator loop exactly for the key `always` |
| Condition.FirstOperatorDecides | enrich_data.py:132-136 | the first listed operator that occurs anywhere in the clause splits it at its first occurrence, and for a key other than `always` that split alone decides the text or the error |
| Condition.ScanStopsAt | enrich_data.py:133-206 | at an occurring operator with a key other than `always`, the scan ends with that operator's rendering |
| Condition.ClauseOfParts | enrich_data.py:132-136 | `key op value` with no earlier operator occurring renders by the rule for that key and that operator |
| Condition.SplitOfParts | enrich_data.py:134-136 | `key op value` splits back into exactly `key` and `value` |
| Condition.AlwaysSkipped | enrich_data.py:200-201 | an operator that splits off the key `always` hands the scan to the next operator |
| Condition.AlwaysClauseIsKept | enrich_data.py:200-209 | a clause whose key is `always` under every occurring operator runs the loop out and is kept as the title-cased bare clause |
| Condition.ScanRunsOut | enrich_data.py:207-209 | when no operator yields a text, the clause is title-cased with underscores as spaces |
| Condition.FlagFallsThrough | enrich_data.py:177-205 | `is_lastspurt` and `is_finalcorner` with a value other than "1" get the generic rendering |
| Condition.StripAll | enrich_data.py:127 | every clause is replaced by its stripped form, one for one |
| ConditionExamples.PhaseAndLastSpurt | enrich_data.py:121-211 | `phase==2&is_lastspurt=1` reads "Final Leg & Last Spurt" |
| ConditionExamples.PhaseClause | enrich_data.py:139-143 | `phase==2` reads "Final Leg" |
| ConditionExamples.LastSpurtClause | enrich_data.py:177-178 | `is_lastspurt=1` reads "Last Spurt", found at the last operator `=` |
| ConditionExamples.PhaseFromClause | enrich_data.py:139-145 | `phase>=1` reads "Middle Leg+" |
| ConditionExamples.OrderRateClause | enrich_data.py:162-168 | `order_rate>=70` reads "Back 30%" |
| ConditionExamples.OrderTopClause | enrich_data.py:155-161 | `order<=3` reads "Top 3" |
| ConditionExamples.CornerClause | enrich_data.py:172-176 | `corner=0` reads "Not in corner" |
| ConditionExamples.AlwaysClause | enrich_data.py:200-209 | `always==1` reads "Always==1": the clause is not dropped |
| ConditionExamples.AlwaysScan | enrich_data.py:132-209 | in `always==1` both `==` and `=` split off the key `always`, so the scan runs out |
| ConditionExamples.BadOrderRateClause | enrich_data.py:166 | `order_rate>=abc` raises the ValueError of `int("abc")` |
| ConditionExamples.OrderRateNotANumber | enrich_data.py:164-166 | an `order_rate>=` value that `int()` rejects makes the rule raise |
| Effects.StatBuffText | enrich_data.py:222-223 | a stat buff prints its label followed by the raw modifier, which reads back exactly |
| Effects.RecoveryText | enrich_data.py:224-225 | stamina recovery prints the modifier over 100 as a whole percentage: exact for multiples of 100, otherwise within half a percent |
| Effects.SpeedText | enrich_data.py:226-228 | a speed effect prints the modifier over 10000 with two decimals, within half a hundredth, followed by "m/s" |
| Effects.AccelerationText | enrich_data.py:229-231 | acceleration prints the modifier over 10000 with four decimals, which read back to the modifier itself |
| Effects.StartDelayText | enrich_data.py:232-233 | the start delay prints "Start Delay x" and the raw modifier |
| Effects.OtherText | enrich_data.py:219-235 | other known types print their label and the modifier in parentheses; unknown types print "Effect" and the type number |
| Effects.FormatWholeHundredths | enrich_data.py:225 | `:.0f` of a whole number of percent prints that number |
| Effects.SkillTypePriority | enrich_data.py:249-269 | green iff some effect is a stat buff; blue iff none is and some modifier is negative; otherwise unique iff the ID is in 100000..119999, inherited iff it is in 900000..919999, else none |
| Effects.SixDigitPrefix | enrich_data.py:261-266 | a six-character `str(id)` starts with the two digits `p` iff the ID lies in `[p*10000, (p+1)*10000)` |
| Effects.InRangeHasPrefix | enrich_data.py:261-266 | an ID in that range prints as six characters starting with `p` |
| Effects.PrefixInRange | enrich_data.py:261-266 | an ID printing as six characters starting with `p` lies in that range |
| Effects.ClassificationExamples | test_enricher.py:197-216 | 100061 and 110061 are unique, 900061 and 910061 inherited, 200601 neither |
| Skills.GetSkillDetails | enrich_data.py:272-332 | the details method computes `DetailsOf`: none without an entry, the rarity label alone without alternatives, else the first alternative's details or its condition's error |
| Skills.ListEffects | enrich_data.py:306-315 | the effect loop lists one entry per effect, in order |
| Skills.RarityName | enrich_data.py:284-285 | "White" exactly for rarities 1 to 3, "Gold" exactly for 4 and 5, "Unique" exactly for 6, and "Rarity " followed by the number for any other rarity |
| Skills.EffectInfos | enrich_data.py:308-315 | one entry per effect, each that effect's entry |
| Skills.Readables | enrich_data.py:329 | the readable texts of the entries, one for one |
| Skills.DetailsPresence | enrich_data.py:274-278 | the details are absent exactly when skill_data has no entry for the ID |
| Skills.FirstAlternativeOnly | enrich_data.py:288-290 | entries that agree on rarity and first alternative give the same details |
| Skills.EffectsListed | enrich_data.py:306-315 | the details list the first alternative's effects in order, each with its raw type and modifier, its label or "Unknown", and its readable text |
| Skills.SkillTypeFallback | enrich_data.py:318-326 | the skill type is `get_skill_type`'s answer when it has one, else gold for rarity 4-5, unique for 6 and white otherwise |
| Skills.DurationText | enrich_data.py:298-303 | the duration is present iff baseDuration is non-zero; its text is baseDuration/1000 with one decimal, within half a tenth, exact for whole tenths |
| Skills.ConditionErrorPropagates | enrich_data.py:295 | a condition that raises makes the details raise |
| Resolvers.SkillName | enrich_data.py:335-354 | the first Global name when the Global list is non-empty, else the second JP name when the JP list has two, else none |
| Resolvers.SkillNameGlobalWins | enrich_data.py:343-346 | the JP table is not consulted when the Global table has a usable entry |
| Resolvers.GetSparkName | enrich_data.py:357-436 | the spark method computes `SparkName`, the four tiers in order with each miss falling through |
| Resolvers.GetUniqueName | enrich_data.py:381-392 | the unique-skill block computes the unique tier |
| Resolvers.GetSkillTierName | enrich_data.py:398-418 | the skill-spark block computes the skill tier |
| Resolvers.GetGroupName | enrich_data.py:403-418 | the two loops of the skill tier compute the group's name |
| Resolvers.FindWhite | enrich_data.py:404-407 | the first loop finds the first rarity-1 candidate |
| Resolvers.FindNamed | enrich_data.py:414-418 | the fallback loop finds the first candidate with a name |
| Resolvers.FirstWhite | enrich_data.py:404-411 | the answer is a rarity-1 candidate digit with none before it, or no candidate in 1..9 is rarity 1 |
| Resolvers.FirstNamed | enrich_data.py:414-418 | the answer is the non-empty name of the first named candidate, or no candidate has a name |
| Resolvers.SparkName | enrich_data.py:357-436 | a resolved spark name is never empty |
| Resolvers.UniqueRangeHasEightDigits | enrich_data.py:381-383 | the range test already forces eight digits, so the length check is redundant |
| Resolvers.UniqueCandidateArithmetic | enrich_data.py:384-389 | the string slices are arithmetic: middle is `(id/1000)%1000`, variant is `(id/100)%10` |
| Resolvers.VariantDigit | enrich_data.py:385 | `int(str(id)[5])` is `(id/100)%10` for eight-digit IDs |
| Resolvers.MiddleDigits | enrich_data.py:384 | `int(str(id)[2:5])` is `(id/1000)%1000` for eight-digit IDs |
| Resolvers.DigitsRoundTrip | enrich_data.py:384 | `k` zero-padded digits of `x` read back as `x % 10^k` |
| Resolvers.UniqueTierName | enrich_data.py:384-392 | the unique tier names the skill `110001 + middle` for variant 2 and `100001 + middle` otherwise, when that name is truthy |
| Resolvers.UniqueTierIgnoresStars | enrich_data.py:381-392 | unique-spark IDs that differ only in the star digits get the same name when the tier resolves |
| Resolvers.UniqueTierMissFallsThrough | enrich_data.py:381-436 | a unique-tier miss drops straight to the sparknames table |
| Resolvers.SkillTierChoice | enrich_data.py:398-418 | the skill tier gives the first rarity-1 candidate's name when it has one; when that candidate is missing or nameless it gives the name of the first named candidate of any rarity; any answer is some candidate's name, and with no named candidate there is none |
| Resolvers.FirstNamedIs | enrich_data.py:414-418 | the fallback scan returns the name of the named candidate that has no named candidate before it |
| Resolvers.SkillTierIgnoresStars | enrich_data.py:398-418 | a skill-tier answer depends only on `id/100` |
| Resolvers.SkillTierMissFallsThrough | enrich_data.py:398-436 | a skill-tier miss tries the race table, whose range contains the skill range, and then the sparknames table |
| Resolvers.UniqueSparkBaseOutfit | test_enricher.py:59-87 | sparks 10060101..10060103 are named after skill 100061 |
| Resolvers.UniqueSparkAltOutfit | test_enricher.py:64-68 | sparks 10060201..10060203 are named after skill 110061 |
| Resolvers.SkillSparkExample | test_enricher.py:99-119 | sparks 2004901..2004903 are named after the white skill 200491 |
| Resolvers.RaceTitleName | enrich_data.py:451-457 | present iff the racetitles table has the decimal ID, with its value |
| Resolvers.NicknameName | enrich_data.py:460-466 | present iff the nicknames table has the decimal ID, with its value |
| Resolvers.RaceClothName | enrich_data.py:469-475 | present iff the outfitnames table has the decimal ID, with its value |
| Resolvers.LookupsSeparate | enrich_data.py:451-475 | updating one ID's entry leaves every other ID's lookup unchanged |
| Resolvers.SupportCardInfo | enrich_data.py:478-507 | each name key is present iff the card's entry has it, with its value; the type is `SUPPORT_CARD_TYPES` of the first character of the ID |
| Resolvers.SupportTypeFromLeadingDigit | enrich_data.py:501-505 | the card type is the type of the ID's leading decimal digit |
| Resolvers.LeadingDigit | enrich_data.py:503 | the first character of `str(n)` is the digit `n / 10^k` for `10^k <= n < 10^(k+1)` |
| Resolvers.QuotientIsDigit | enrich_data.py:503 | helper for `LeadingDigit`: a number between `p` and `10p` has a one-digit quotient by `p` |
| Resolvers.DisplayName | enrich_data.py:528 | the display name is `names[1]` when it exists and is non-empty, else `names[0]` |
| Resolvers.CharaInfoOf | enrich_data.py:510-549 | a character in umas_global is read from that record, otherwise one in umas_full from that one: the display name of its name list, and the outfit label filed under the full card ID, present exactly when the record has one; the character name is absent iff neither table has the character; the costume and card name come together, the card name being costume, space, character name |
| Resolvers.CharaGlobalFirst | enrich_data.py:525-536 | umas_full is not consulted for a character that umas_global has |
| Resolvers.CharaSharedName | enrich_data.py:520 | cards of the same character (same `card_id // 100`) get the same character name |
| Resolvers.NothingResolvesWithoutTables | enrich_data.py:335-549 | with every table empty, no resolver finds anything |
| Resolvers.NoGroupNameWithoutTables | enrich_data.py:414-418 | with every table empty, no candidate of a skill group has a name |
| Enrich.Character.EnrichCharacter | enrich_data.py:552-665 | the whole new record: character and outfit keys; the skill list of `EnrichedSkills`; on a raised error nothing after the skills changes; otherwise the spark, win and nickname lists (set only when the source array is non-empty), top factors with names, support cards and parents |
| Enrich.Character.EnrichCard | enrich_data.py:555-566 | the character keys are updated from `get_chara_info` for a truthy card ID; the outfit name is set when it is truthy |
| Enrich.Character.EnrichSkills | enrich_data.py:569-585 | the skill list becomes `EnrichedSkills`, with the error that stopped it |
| Enrich.Character.EnrichLists | enrich_data.py:587-663 | the lists after the skill loop, each a function of the old record |
| Enrich.Character.EnrichSparks | enrich_data.py:587-610 | sparks and top-level factors |
| Enrich.Character.EnrichTitles | enrich_data.py:612-634 | win and nickname lists, set only for a non-empty array |
| Enrich.Character.EnrichSupportsAndParents | enrich_data.py:636-663 | support cards and parents |
| Enrich.Character.constructor | enrich_data.py:552 | a record as read, without any English key |
| Enrich.EnrichSkillList | enrich_data.py:570-585 | the skill loop replaces each skill by its enriched form until a condition raises; the raising skill keeps its name and the later skills are untouched |
| Enrich.EnrichSkill | enrich_data.py:571-585 | one skill: its name first, then its details or the error they raise |
| Enrich.EnrichedList | enrich_data.py:570-585 | the loop's result has as many skills as its input |
| Enrich.ListErrorPersists | enrich_data.py:570-585 | once the loop stops at an error, the later skills are unchanged and the error stays |
| Enrich.ListStepOk | enrich_data.py:570-585 | a successful step extends the enriched prefix by one skill |
| Enrich.ListStepErr | enrich_data.py:570-585 | a failing step ends the loop with the named skill in its place |
| Enrich.SkillWithoutIdUntouched | enrich_data.py:572 | a skill with a falsy ID is left as it is |
| Enrich.SkillEnrichedFields | enrich_data.py:572-585 | an enriched skill keeps its ID, gets its name when that is truthy, and gets the detail keys when there are details |
| Enrich.SkillEnrichedIdempotent | enrich_data.py:572-585 | enriching an enriched skill again changes nothing |
| Enrich.SkillsIdempotent | enrich_data.py:569-585 | running the skill loop again after a clean run changes nothing |
| Enrich.ListIdempotent | enrich_data.py:570-585 | the loop is idempotent whenever its step is |
| Enrich.FieldsOf | enrich_data.py:579-585 | the detail keys copied into a skill: the rarity always, the others null without an alternative |
| Enrich.IfTruthy | enrich_data.py:593-594 | a key is written exactly when the value is truthy, and then with that value |
| Enrich.StarLevelValue | enrich_data.py:596 | `int(str(id)[-2:])` never raises and reads the last two decimal digits, with the sign for one-digit negative IDs |
| Enrich.StarsFromLevel | enrich_data.py:596-598 | the stars the loops compute are `StarsOf` |
| Enrich.StarsValue | enrich_data.py:596-598 | for a non-negative ID, stars are present iff `id % 100` is 1..3, and then equal it |
| Enrich.BuildSparkEntries | enrich_data.py:588-599 | the spark loop builds `SparkEntries` |
| Enrich.BuildSparkEntry | enrich_data.py:591-598 | one spark entry: the ID, its name when truthy, its stars when 1..3 |
| Enrich.SparkEntries | enrich_data.py:588-599 | one entry per factor ID, in order |
| Enrich.SparkEntriesShape | enrich_data.py:588-601 | one entry per factor ID in order, each with the original ID, the resolved name when there is one (never empty) and stars exactly for star levels 1..3 |
| Enrich.EnrichTopFactors | enrich_data.py:604-610 | the top-level factor loop names each factor with a truthy ID |
| Enrich.EnrichParentFactors | enrich_data.py:653-663 | the parent factor loop names each factor with a truthy ID and adds its stars |
| Enrich.EnrichParentFactor | enrich_data.py:655-663 | one parent factor with its name and stars |
| Enrich.TopFactors | enrich_data.py:604-610 | one factor per factor, each with its name only |
| Enrich.ParentFactors | enrich_data.py:653-663 | one factor per factor, each with its name and stars |
| Enrich.FactorStars | enrich_data.py:604-663 | top-level factors keep their stars; parents' factors get the same name and gain stars for star levels 1..3 |
| Enrich.WinEntries | enrich_data.py:615-621 | one win entry per saddle ID, in order, with the truthy race title |
| Enrich.NickEntries | enrich_data.py:627-633 | one nickname entry per nickname ID, in order, with the truthy nickname |
| Enrich.BuildWinEntries | enrich_data.py:615-621 | the win loop builds `WinEntries` |
| Enrich.BuildNickEntries | enrich_data.py:627-633 | the nickname loop builds `NickEntries` |
| Enrich.Supports | enrich_data.py:637-642 | one support per support, each updated from `get_support_card_info` when its ID is truthy |
| Enrich.EnrichSupports | enrich_data.py:637-642 | the support loop computes `Supports` |
| Enrich.SupportKeys | enrich_data.py:640-642 | a support card takes the table's values for the keys the entry has and keeps its own for the others; the type follows the first digit |
| Enrich.Parents | enrich_data.py:645-663 | one parent per parent, each enriched |
| Enrich.EnrichParents | enrich_data.py:645-663 | the parent loop computes `Parents` |
| Enrich.ParentWithoutCardSkipped | enrich_data.py:647-648 | a parent with a falsy card ID is skipped entirely, its factors included |
| Enrich.ParentEnrichedShape | enrich_data.py:648-663 | an enriched parent keeps its card ID, takes the character's names, and has one named and starred factor per factor |
| Enrich.EnrichmentIdempotent | enrich_data.py:552-665 | enriching again changes none of the character, factor, support and parent keys |
| Corrections.ApplyCorrections | generate_data.py:135-147 | the method computes `Corrected`: an empty name as it is, an exact key its value, anything else the partial pass in insertion order |
| Corrections.KeyIndex | generate_data.py:140 | the position of the first entry whose key is the name, or none when no key is |
| Corrections.EmptyNameUnchanged | generate_data.py:137-138 | a falsy name is returned unchanged |
| Corrections.ExactKeyWins | generate_data.py:140-141 | a name that is a key gets the mapped value, without a partial pass |
| Corrections.ReplaceAllAppend | generate_data.py:144-146 | the partial pass over a concatenated table is the pass over the first part followed by the pass over the second; each replacement acts on the previous result |
| Corrections.NoKeyNoChange | generate_data.py:143-147 | a name in which no key occurs is returned unchanged |
| Corrections.ContainsSelf | generate_data.py:140-145 | helper for `NoKeyNoChange`: a string occurs in itself |
| Corrections.ReplaceNotShorter | generate_data.py:146 | replacing by something at least as long never shortens |
| Corrections.ReplaceGrows | generate_data.py:146 | replacing an occurring substring by something longer lengthens the string |
| Corrections.SecondPassChanges | generate_data.py:135-147 | a longer replacement containing its key is not idempotent: a second pass changes the result again |
| Corrections.RunnerRecurs | generate_data.py:135-147 | the entry "Runner" to "Front Runner" is such an entry: as a table of its own, two passes over "Runner" do not give "Front Runner" |
| CorrectionsExamples.SparkRunnerTwice | generate_data.py:54-147 | over the whole spark-name table, "Runner" becomes "Front Runner" (an exact key), and a second pass makes that "Front Front Runner" (the key "Runner" occurs in it, and no other key does) |
| Corrections.NicknameKeysExact | generate_data.py:129-132 | both nickname corrections are exact keys mapping to the Global terms |
| Generate.CategoryOf | generate_data.py:162 | a category is the dump's entry when present, else empty |
| Generate.CorrectEntry | generate_data.py:166-170 | one iteration writes the corrected value and counts it when it changed |
| Generate.MapStep | generate_data.py:170 | writing one more key extends the mapped result by that key |
| Generate.CountStep | generate_data.py:168-169 | the count goes up exactly when the value changed |
| Generate.CorrectInto | generate_data.py:166-170 | writing a corrected category over a result, counting changed values |
| Generate.CorrectLoop | generate_data.py:166-170 | the loop writes every corrected entry and counts the changed ones |
| Generate.GenerateSparknames | generate_data.py:160-173 | category 147 with every value corrected, and the number of values the correction changed |
| Generate.GenerateRacenames | generate_data.py:176-186 | category 36 with every value corrected |
| Generate.GenerateOutfitnames | generate_data.py:189-193 | category 14 as it is, or empty when absent |
| Generate.GenerateNicknames | generate_data.py:235-258 | category 151 corrected, overridden by category 130 corrected |
| Generate.GenerateRacetitles | generate_data.py:222-232 | category 111 with every title cleaned |
| Generate.CleanLoop | generate_data.py:227-229 | the loop writes every cleaned title |
| Generate.GenerateSupportcardnames | generate_data.py:196-219 | one entry per ID of categories 75, 76 and 77 |
| Generate.CorrectedTableShape | generate_data.py:160-186 | the spark and race tables keep the category's keys; each value is corrected, and values in which no key occurs are copied unchanged |
| Generate.CorrectedCountBounds | generate_data.py:164-169 | the corrected count is at most the entry count, and zero exactly when the table equals its category |
| Generate.SubsetCard | generate_data.py:168-169 | helper for `CorrectedCountBounds`: a subset is no larger than its superset |
| Generate.NicknamesMerge | generate_data.py:242-255 | the nickname keys are the union of 151 and 130; an ID of 130 takes its corrected 130 value, any other its corrected 151 value |
| Generate.CleanTitleShape | generate_data.py:228 | a cleaned title holds no newline and neither starts nor ends with whitespace |
| Generate.CleanTitleIdempotent | generate_data.py:228 | cleaning a cleaned title changes nothing |
| Generate.RacetitlesClean | generate_data.py:224-229 | the race title table keeps category 111's keys and every value is clean |
| Generate.SupportCardNamesShape | generate_data.py:201-216 | the keys are the union of 75, 76 and 77; each field is present iff its category has the ID, with that category's value |
| Generate.GeneratedSupportCardInfo | generate_data.py:196-219 | `get_support_card_info` on a generated table reads each field from its category, or none |
| PyStr.ParseIntRoundTrip | enrich_data.py:596 | `int(str(i))` is `i` |
| PyStr.ParseNegative | enrich_data.py:596 | `int()` of a minus sign and digits is the negated digits' value |
| PyStr.IntToStrInjective | enrich_data.py:340 | distinct IDs have distinct decimal keys |
| PyStr.FormatFixedRoundTrip | enrich_data.py:224-231 | the `:.Nf` text of `m / 10^scale` reads back as the round-half-even value at that precision |
| PyStr.FormatFixedExact | enrich_data.py:231 | at full precision the `:.Nf` text reads back as the modifier itself |
| PyStr.FormatFixedNear | enrich_data.py:224-228 | two places fewer than the scale read back within half a unit of the last place |
| PyStr.RoundHalfEven | enrich_data.py:225 | the rounded quotient is the floor or one more |
| PyStr.RoundHalfEvenBound | enrich_data.py:225 | the rounded quotient is within half a divisor of the exact value |
| PyStr.TitleIdempotent | enrich_data.py:204-209 | title-casing twice is title-casing once |
| PyStr.SplitJoin | enrich_data.py:126 | joining the pieces of a split with the separator gives back the string |

## Left out

- File and network I/O, and process control, are not part of this model: `load_json`, `load_all_data`, `enrich_data`, `main` and the stdout reconfigure in `enrich_data.py`; `download_text_data`, `save_json`, `main` and the pip-install fallback in `generate_data.py`; the whole of `run_extractor.py` and `diagnose_encoding.py`. The tables are an injected value, and a missing table is the empty map.
- The `print` of the entry counts in the `generate_*` functions is not modelled. `corrected_count` is returned as a value.
- Python floats are not modelled. `:.0f`, `:.2f` and `:.1f` are modelled as round-half-even on the exact decimal value. On binary doubles this agrees except where a tie is not representable. The contracts therefore claim an exact string only where the value is exact (a multiple of the scale step, or the four decimals of acceleration), and otherwise a value within half a unit.
- `str.title` is modelled with ASCII letters as the only cased characters: a non-ASCII letter neither changes case nor starts a new word. `strip` uses the full whitespace set of `str.isspace`.
- PyStr.ParseInt: accepts only the ASCII digits 0-9 (with sign, surrounding whitespace and underscores between digits). Python's `int()` also accepts other Unicode decimal digits, such as full-width ones, so an `order_rate` value written with them raises in the model where the source renders it.
- JSON shape errors are not modelled: values of the wrong type, and `.get` defaults for keys of the wrong type. A falsy or missing ID is the ID 0, and an empty dict entry in `skill_data` is an absent entry.
- Resolvers.CharaInfoOf: requires that the character records it reads have a non-empty `name` list (`CharaNamesPresent`). The code would raise IndexError on `names[0]` for an empty list.
- Keys of the nested records other than the ones the enrichment reads or writes are not modelled.
- The in-place updates of the nested dicts (skills, factors, supports, parents) are modelled as values: aliasing between records is not captured.
- The order of dict keys is not modelled, except where it changes a result: the correction tables are sequences in insertion order. The sorted iteration of `generate_supportcardnames` only fixes key order, which a map does not record.
- Corrections.Corrected: is not idempotent, and no idempotence is claimed. `SecondPassChanges` and `RunnerRecurs` show why for the entry ("Runner", "Front Runner") on its own, and `SparkRunnerTwice` shows it on the whole spark-name table ("Runner" becomes "Front Runner", which becomes "Front Front Runner").
- Generate.CorrectInto: also computes the changed count for the race name and nickname tables, where the source does not count; the model ignores it there.
- Enrich.StarsValue: holds without a proof body; its content is the definition of `StarsOf` on non-negative IDs.
