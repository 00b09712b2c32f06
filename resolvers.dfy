/** The name resolvers: skill names, spark names, race titles, nicknames,
    outfits, support cards and characters, each a function of an ID and the
    reference tables. Tables are keyed by `str(id)`. */
module Resolvers {
  import opened Wrappers
  import opened PyStr
  import opened Tables

  /** Python truthiness of an optional string: present and non-empty. */
  predicate Truthy(o: Option<string>) {
    o.Some? && o.value != ""
  }

  // ---------------------------------------------------------------------
  // get_skill_name
  // ---------------------------------------------------------------------

  /** `get_skill_name`: the first Global name, else the second JP name. */
  function SkillName(t: Tables, skillId: int): (r: Option<string>)
    ensures var key := IntToStr(skillId);
            var global := key in t.skillsGlobal && t.skillsGlobal[key].NameList? && |t.skillsGlobal[key].names| > 0;
            var jp := key in t.skillsJp && t.skillsJp[key].NameList? && |t.skillsJp[key].names| > 1;
            && (global ==> r == Some(t.skillsGlobal[key].names[0]))
            && (!global && jp ==> r == Some(t.skillsJp[key].names[1]))
            && (!global && !jp ==> r == None)
  {
    var key := IntToStr(skillId);
    var global := if key in t.skillsGlobal then t.skillsGlobal[key] else NotAList;
    if global.NameList? && |global.names| > 0 then Some(global.names[0])
    else
      var jp := if key in t.skillsJp then t.skillsJp[key] else NotAList;
      if jp.NameList? && |jp.names| > 1 then Some(jp.names[1])
      else None
  }

  /** The JP table is consulted only when the Global table has no usable
      list: changing it changes nothing for a skill with a Global name. */
  lemma SkillNameGlobalWins(t: Tables, jp: map<string, NameEntry>, skillId: int)
    requires var key := IntToStr(skillId);
             key in t.skillsGlobal && t.skillsGlobal[key].NameList? && |t.skillsGlobal[key].names| > 0
    ensures SkillName(t.(skillsJp := jp), skillId) == SkillName(t, skillId)
  {
  }

  // ---------------------------------------------------------------------
  // get_spark_name
  // ---------------------------------------------------------------------

  /** The unique-skill candidate of an 8-digit spark `10XXXVZZ`: the
      character index XXX is added to 110001 for outfit variant 2 and to 100001
      otherwise, read from the decimal string as the source does. */
  function UniqueCandidate(sparkId: nat): int
    requires |NatToStr(sparkId)| == 8
  {
    var s := NatToStr(sparkId);
    var middle := DigitsValue(s[2..5]);
    var variant := DigitVal(s[5]);
    if variant == 2 then 110001 + middle else 100001 + middle
  }

  /** The first tier: unique skill sparks. */
  function UniqueTier(t: Tables, sparkId: int): Option<string> {
    if 10000000 <= sparkId < 20000000 && |NatToStr(sparkId)| == 8 then
      var name := SkillName(t, UniqueCandidate(sparkId));
      if Truthy(name) then name else None
    else None
  }

  /** `skill_data.get(str(id), {}).get("rarity") == 1`. */
  predicate IsWhite(t: Tables, skillId: int) {
    var key := IntToStr(skillId);
    key in t.skillData && t.skillData[key].rarity == 1
  }

  /** The candidate `base + d` of the skill tier is white. */
  predicate WhiteAt(t: Tables, base: int, d: int) {
    IsWhite(t, base + d)
  }

  /** The skill name of the candidate `base + d` of the skill tier. */
  function NameAt(t: Tables, base: int, d: int): Option<string> {
    SkillName(t, base + d)
  }

  /** No candidate among digits `from..d-1` has a (non-empty) name. */
  predicate NoneNamedBelow(t: Tables, base: int, from: int, d: int) {
    forall d' :: from <= d' < d ==> !Truthy(NameAt(t, base, d'))
  }

  /** The first digit `d` in `from..9` whose candidate is white. */
  function FirstWhite(t: Tables, base: int, from: nat): (r: Option<nat>)
    requires 1 <= from <= 10
    ensures r.Some? ==> from <= r.value <= 9 && WhiteAt(t, base, r.value)
    ensures forall d :: from <= d <= 9 && (r.None? || d < r.value) ==> !WhiteAt(t, base, d)
    decreases 10 - from
  {
    if from == 10 then None
    else if WhiteAt(t, base, from) then Some(from)
    else FirstWhite(t, base, from + 1)
  }

  /** The name of the first digit `d` in `from..9` whose candidate has a
      (non-empty) skill name. */
  function FirstNamed(t: Tables, base: int, from: nat): (r: Option<string>)
    requires 1 <= from <= 10
    ensures r.Some? ==>
              r.value != "" &&
              exists d :: from <= d <= 9 && NameAt(t, base, d) == r && NoneNamedBelow(t, base, from, d)
    ensures r.None? ==> NoneNamedBelow(t, base, from, 10)
    decreases 10 - from
  {
    if from == 10 then None
    else
      var name := NameAt(t, base, from);
      if Truthy(name) then
        assert NoneNamedBelow(t, base, from, from);
        name
      else
        var r := FirstNamed(t, base, from + 1);
        assert r.Some? ==> exists d :: from <= d <= 9 && NameAt(t, base, d) == r && NoneNamedBelow(t, base, from, d);
        r
  }

  /** The second tier: skill sparks `200XXYY`, named after the white skill of
      group `200XX0`, else after any named skill of the group. */
  function SkillTier(t: Tables, sparkId: int): Option<string> {
    if 2000000 <= sparkId < 3000000 then GroupName(t, (sparkId / 100) * 10)
    else None
  }

  /** The name the skill tier gives the group of candidates `base + 1..9`. */
  function GroupName(t: Tables, base: int): Option<string> {
    var name := WhiteName(t, base, FirstWhite(t, base, 1));
    if name.Some? then name else FirstNamed(t, base, 1)
  }

  /** The (non-empty) name of the white candidate, when there is one. */
  function WhiteName(t: Tables, base: int, white: Option<nat>): Option<string> {
    if white.Some? && Truthy(NameAt(t, base, white.value)) then NameAt(t, base, white.value) else None
  }

  /** The third tier: race sparks, named by race `1000 + program % 1000`. */
  function RaceTier(t: Tables, sparkId: int): Option<string> {
    if 1000000 <= sparkId < 10000000 then
      var key := IntToStr(1000 + (sparkId / 100) % 1000);
      if key in t.racenames && t.racenames[key] != "" then Some(t.racenames[key]) else None
    else None
  }

  /** The last resort: the sparknames table. */
  function SparkTableTier(t: Tables, sparkId: int): Option<string> {
    var key := IntToStr(sparkId);
    if key in t.sparknames && t.sparknames[key] != "" then Some(t.sparknames[key]) else None
  }

  /** `get_spark_name`: the tiers in order, each miss falling through. */
  function SparkName(t: Tables, sparkId: int): (r: Option<string>)
    ensures r.Some? ==> r.value != ""
  {
    var unique := UniqueTier(t, sparkId);
    if unique.Some? then unique
    else
      var skill := SkillTier(t, sparkId);
      if skill.Some? then skill
      else
        var race := RaceTier(t, sparkId);
        if race.Some? then race
        else SparkTableTier(t, sparkId)
  }

  /** The first loop of the skill tier: the first white candidate. */
  method FindWhite(t: Tables, base: int) returns (r: Option<nat>)
    ensures r == FirstWhite(t, base, 1)
  {
    var digit := 1;
    while digit < 10
      invariant 1 <= digit <= 10
      invariant FirstWhite(t, base, 1) == FirstWhite(t, base, digit)
    {
      if IsWhite(t, base + digit) {
        return Some(digit);
      }
      digit := digit + 1;
    }
    return None;
  }

  /** The second loop of the skill tier: the first named candidate. */
  method FindNamed(t: Tables, base: int) returns (r: Option<string>)
    ensures r == FirstNamed(t, base, 1)
  {
    var digit := 1;
    while digit < 10
      invariant 1 <= digit <= 10
      invariant FirstNamed(t, base, 1) == FirstNamed(t, base, digit)
    {
      var name := SkillName(t, base + digit);
      if Truthy(name) {
        return name;
      }
      digit := digit + 1;
    }
    return None;
  }

  /** `get_spark_name`, tier by tier. */
  method GetSparkName(t: Tables, sparkId: int) returns (r: Option<string>)
    ensures r == SparkName(t, sparkId)
  {
    r := GetUniqueName(t, sparkId);
    if r.Some? {
      return;
    }
    r := GetSkillTierName(t, sparkId);
    if r.Some? {
      return;
    }
    if 1000000 <= sparkId < 10000000 {
      var key := IntToStr(1000 + (sparkId / 100) % 1000);
      if key in t.racenames && t.racenames[key] != "" {
        return Some(t.racenames[key]);
      }
    }
    var key := IntToStr(sparkId);
    if key in t.sparknames && t.sparknames[key] != "" {
      return Some(t.sparknames[key]);
    }
    return None;
  }

  /** The unique-skill block of `get_spark_name`. */
  method GetUniqueName(t: Tables, sparkId: int) returns (r: Option<string>)
    ensures r == UniqueTier(t, sparkId)
  {
    r := None;
    if 10000000 <= sparkId < 20000000 {
      var s := NatToStr(sparkId);
      if |s| == 8 {
        var middle := DigitsValue(s[2..5]);
        var variant := DigitVal(s[5]);
        var skillId := if variant == 2 then 110001 + middle else 100001 + middle;
        var name := SkillName(t, skillId);
        if Truthy(name) {
          r := name;
        }
      }
    }
  }

  /** The skill-spark block of `get_spark_name`. */
  method GetSkillTierName(t: Tables, sparkId: int) returns (r: Option<string>)
    ensures r == SkillTier(t, sparkId)
  {
    r := None;
    if 2000000 <= sparkId < 3000000 {
      r := GetGroupName(t, (sparkId / 100) * 10);
    }
  }

  /** The two loops of the skill tier for one group. */
  method GetGroupName(t: Tables, base: int) returns (r: Option<string>)
    ensures r == GroupName(t, base)
  {
    var white := FindWhite(t, base);
    r := None;
    if white.Some? {
      var name := SkillName(t, base + white.value);
      if Truthy(name) {
        r := name;
      }
    }
    assert r == WhiteName(t, base, white);
    if r.Some? {
      return;
    }
    r := FindNamed(t, base);
  }

  // --- digit arithmetic of the unique tier --------------------------------

  /** On the unique tier's range the decimal string always has 8 digits,
      so the source's length check never fails. */
  lemma UniqueRangeHasEightDigits(sparkId: int)
    requires 10000000 <= sparkId < 20000000
    ensures |NatToStr(sparkId)| == 8
  {
    NatToStrLength(sparkId, 7);
  }

  /** The value of `k` zero-padded digits read back. */
  lemma DigitsRoundTrip(x: nat, k: nat)
    ensures DigitsValue(Digits(x, k)) == x % Pow10(k)
  {
    DigitsValueOfDigits(x, k);
  }

  /** Slicing the decimal string is arithmetic: `int(s[2:5])` is
      `(id // 1000) % 1000` and `int(s[5])` is `(id // 100) % 10`. */
  lemma UniqueCandidateArithmetic(sparkId: int)
    requires 10000000 <= sparkId < 20000000
    ensures |NatToStr(sparkId)| == 8 &&
            UniqueCandidate(sparkId) ==
              (if (sparkId / 100) % 10 == 2 then 110001 else 100001) + (sparkId / 1000) % 1000
  {
    VariantDigit(sparkId);
    MiddleDigits(sparkId);
  }

  /** `int(str(id)[5]) == (id // 100) % 10` for 8-digit ids. */
  lemma VariantDigit(n: nat)
    requires 10000000 <= n < 20000000
    ensures |NatToStr(n)| == 8 && DigitVal(NatToStr(n)[5]) == (n / 100) % 10
  {
    UniqueRangeHasEightDigits(n);
    assert Pow10(2) == 100;
    NatToStrSplit(n, 2);
    var q := n / 100;
    assert |NatToStr(q)| == 6 by {
      DivModUnique(n, 100, q, n % 100);
      assert Pow10(5) == 100000;
      NatToStrLength(q, 5);
    }
    assert NatToStr(q) == NatToStr(q / 10) + [DigitChar(q % 10)];
    assert NatToStr(n)[5] == NatToStr(q)[5];
  }

  /** `int(str(id)[2:5]) == (id // 1000) % 1000` for 8-digit ids. */
  lemma MiddleDigits(n: nat)
    requires 10000000 <= n < 20000000
    ensures |NatToStr(n)| == 8 && DigitsValue(NatToStr(n)[2..5]) == (n / 1000) % 1000
  {
    UniqueRangeHasEightDigits(n);
    var s := NatToStr(n);
    NatToStrSplit(n, 3);
    var q := n / 1000;
    assert |NatToStr(q)| == 5 by {
      DivModUnique(n, 1000, q, n % 1000);
      NatToStrLength(q, 4);
    }
    assert s[..5] == NatToStr(q);
    NatToStrSplit(q, 3);
    assert |NatToStr(q / 1000)| == 2 by {
      DivModUnique(q, 1000, q / 1000, q % 1000);
      NatToStrLength(q / 1000, 1);
    }
    assert NatToStr(q)[2..] == Digits(q, 3);
    assert s[2..5] == Digits(q, 3);
    DigitsValueOfDigits(q, 3);
  }

  /** Spark IDs that differ only in their last two digits (the star level)
      pick the same unique candidate, so a unique spark has the same name at
      every star level. */
  lemma UniqueTierIgnoresStars(t: Tables, a: int, b: int)
    requires 10000000 <= a < 20000000 && 10000000 <= b < 20000000
    requires a / 100 == b / 100
    requires UniqueTier(t, a).Some?
    ensures SparkName(t, a) == SparkName(t, b) == UniqueTier(t, a)
  {
    UniqueCandidateArithmetic(a);
    UniqueCandidateArithmetic(b);
    assert a / 1000 == (a / 100) / 10 && b / 1000 == (b / 100) / 10 by {
      DivModStep(a, 100);
      DivModStep(b, 100);
    }
  }

  /** The unique tier's answer, in arithmetic terms. */
  lemma UniqueTierName(t: Tables, sparkId: int)
    requires 10000000 <= sparkId < 20000000
    ensures var c := (if (sparkId / 100) % 10 == 2 then 110001 else 100001) + (sparkId / 1000) % 1000;
            Truthy(SkillName(t, c)) ==> SparkName(t, sparkId) == SkillName(t, c)
  {
    UniqueCandidateArithmetic(sparkId);
  }

  // --- the skill tier -------------------------------------------------------

  /** The skill tier, in terms of the candidates `(id // 100) * 10 + d`:
      the first white candidate's name when it has one, otherwise the first
      named candidate of any rarity. */
  lemma SkillTierChoice(t: Tables, sparkId: int)
    requires 2000000 <= sparkId < 3000000
    ensures var base := (sparkId / 100) * 10;
            forall d :: 1 <= d <= 9 && WhiteAt(t, base, d) && Truthy(NameAt(t, base, d)) &&
                        (forall d' :: 1 <= d' < d ==> !WhiteAt(t, base, d')) ==>
                          SkillTier(t, sparkId) == NameAt(t, base, d)
    ensures var base := (sparkId / 100) * 10;
            SkillTier(t, sparkId).Some? ==>
              (exists d :: 1 <= d <= 9 && NameAt(t, base, d) == SkillTier(t, sparkId))
    ensures var base := (sparkId / 100) * 10;
            forall d :: 1 <= d <= 9 && Truthy(NameAt(t, base, d)) && NoneNamedBelow(t, base, 1, d) &&
                        (forall w :: 1 <= w <= 9 && WhiteAt(t, base, w) &&
                                     (forall w' :: 1 <= w' < w ==> !WhiteAt(t, base, w')) ==>
                                       !Truthy(NameAt(t, base, w))) ==>
                          SkillTier(t, sparkId) == NameAt(t, base, d)
    ensures var base := (sparkId / 100) * 10;
            NoneNamedBelow(t, base, 1, 10) ==> SkillTier(t, sparkId) == None
  {
    var base := (sparkId / 100) * 10;
    forall d | 1 <= d <= 9 && WhiteAt(t, base, d) && Truthy(NameAt(t, base, d)) &&
               (forall d' :: 1 <= d' < d ==> !WhiteAt(t, base, d'))
      ensures SkillTier(t, sparkId) == NameAt(t, base, d)
    {
      var w := FirstWhite(t, base, 1);
      assert w.Some? && w.value == d;
    }
    forall d | 1 <= d <= 9 && Truthy(NameAt(t, base, d)) && NoneNamedBelow(t, base, 1, d) &&
               (forall w :: 1 <= w <= 9 && WhiteAt(t, base, w) &&
                            (forall w' :: 1 <= w' < w ==> !WhiteAt(t, base, w')) ==>
                              !Truthy(NameAt(t, base, w)))
      ensures SkillTier(t, sparkId) == NameAt(t, base, d)
    {
      var w := FirstWhite(t, base, 1);
      assert WhiteName(t, base, w) == None by {
        if w.Some? {
          assert !Truthy(NameAt(t, base, w.value));
        }
      }
      FirstNamedIs(t, base, 1, d);
    }
  }

  /** `FirstNamed` finds the named candidate that has none named before it. */
  lemma {:induction false} FirstNamedIs(t: Tables, base: int, from: nat, d: nat)
    requires 1 <= from <= d <= 9 && Truthy(NameAt(t, base, d)) && NoneNamedBelow(t, base, from, d)
    ensures FirstNamed(t, base, from) == NameAt(t, base, d)
    decreases d - from
  {
    if from < d {
      assert !Truthy(NameAt(t, base, from));
      FirstNamedIs(t, base, from + 1, d);
    }
  }

  /** A skill-tier answer depends only on `id // 100`: the star level does
      not matter. */
  lemma SkillTierIgnoresStars(t: Tables, a: int, b: int)
    requires 2000000 <= a < 3000000 && 2000000 <= b < 3000000 && a / 100 == b / 100
    ensures SkillTier(t, a) == SkillTier(t, b)
  {
  }

  /** A miss in the skill tier is not final: the skill range lies inside
      the race range, so the race table is tried next, then the sparknames
      table. */
  lemma SkillTierMissFallsThrough(t: Tables, sparkId: int)
    requires 2000000 <= sparkId < 3000000 && SkillTier(t, sparkId).None?
    ensures SparkName(t, sparkId) == if RaceTier(t, sparkId).Some? then RaceTier(t, sparkId) else SparkTableTier(t, sparkId)
  {
  }

  /** A miss in the unique tier falls straight to the sparknames table: the
      skill and race tiers do not cover its range. */
  lemma UniqueTierMissFallsThrough(t: Tables, sparkId: int)
    requires 10000000 <= sparkId < 20000000 && UniqueTier(t, sparkId).None?
    ensures SparkName(t, sparkId) == SparkTableTier(t, sparkId)
  {
  }

  // --- the documented spark examples ---------------------------------------

  /** Spark `10060100 + stars` (character 060, base outfit) is named after
      unique skill 100061 at every star level. */
  lemma UniqueSparkBaseOutfit(t: Tables, sparkId: int, skillId: int)
    requires 10060101 <= sparkId <= 10060103 && skillId == 100061
    requires Truthy(SkillName(t, skillId))
    ensures SparkName(t, sparkId) == SkillName(t, skillId)
  {
    assert sparkId / 100 == 100601 && sparkId / 1000 == 10060;
    assert (sparkId / 100) % 10 == 1 && (sparkId / 1000) % 1000 == 60;
    UniqueTierName(t, sparkId);
  }

  /** Spark `10060200 + stars` (character 060, alternate outfit) is named
      after unique skill 110061 at every star level. */
  lemma UniqueSparkAltOutfit(t: Tables, sparkId: int, skillId: int)
    requires 10060201 <= sparkId <= 10060203 && skillId == 110061
    requires Truthy(SkillName(t, skillId))
    ensures SparkName(t, sparkId) == SkillName(t, skillId)
  {
    assert sparkId / 100 == 100602 && sparkId / 1000 == 10060;
    assert (sparkId / 100) % 10 == 2 && (sparkId / 1000) % 1000 == 60;
    UniqueTierName(t, sparkId);
  }

  /** Spark `2004900 + stars` is named after skill 200491 when that is
      the group's white skill, at every star level. */
  lemma SkillSparkExample(t: Tables, stars: int)
    requires 1 <= stars <= 3
    requires IsWhite(t, 200491) && Truthy(SkillName(t, 200491))
    ensures SparkName(t, 2004900 + stars) == SkillName(t, 200491)
  {
    var id := 2004900 + stars;
    assert (id / 100) * 10 == 200490;
    SkillTierChoice(t, id);
    assert WhiteAt(t, 200490, 1) && NameAt(t, 200490, 1) == SkillName(t, 200491);
  }

  // ---------------------------------------------------------------------
  // The single-table lookups
  // ---------------------------------------------------------------------

  /** `get_race_title_name`. */
  function RaceTitleName(t: Tables, saddleId: int): (r: Option<string>)
    ensures r.Some? <==> IntToStr(saddleId) in t.racetitles
    ensures r.Some? ==> r.value == t.racetitles[IntToStr(saddleId)]
  {
    var key := IntToStr(saddleId);
    if key in t.racetitles then Some(t.racetitles[key]) else None
  }

  /** `get_nickname_name`. */
  function NicknameName(t: Tables, nicknameId: int): (r: Option<string>)
    ensures r.Some? <==> IntToStr(nicknameId) in t.nicknames
    ensures r.Some? ==> r.value == t.nicknames[IntToStr(nicknameId)]
  {
    var key := IntToStr(nicknameId);
    if key in t.nicknames then Some(t.nicknames[key]) else None
  }

  /** `get_race_cloth_name`. */
  function RaceClothName(t: Tables, raceClothId: int): (r: Option<string>)
    ensures r.Some? <==> IntToStr(raceClothId) in t.outfitnames
    ensures r.Some? ==> r.value == t.outfitnames[IntToStr(raceClothId)]
  {
    var key := IntToStr(raceClothId);
    if key in t.outfitnames then Some(t.outfitnames[key]) else None
  }

  /** Distinct IDs read distinct entries: updating the table at one ID does
      not change the lookup of another. */
  lemma LookupsSeparate(t: Tables, a: int, b: int, v: string)
    requires a != b
    ensures RaceTitleName(t.(racetitles := t.racetitles[IntToStr(b) := v]), a) == RaceTitleName(t, a)
    ensures NicknameName(t.(nicknames := t.nicknames[IntToStr(b) := v]), a) == NicknameName(t, a)
    ensures RaceClothName(t.(outfitnames := t.outfitnames[IntToStr(b) := v]), a) == RaceClothName(t, a)
  {
    IntToStrInjective(a, b);
  }

  // ---------------------------------------------------------------------
  // get_support_card_info
  // ---------------------------------------------------------------------

  /** SUPPORT_CARD_TYPES, keyed by the first character of the ID. */
  const SupportCardTypes: map<char, string> := map[
    '1' := "Speed",
    '2' := "Stamina",
    '3' := "Power",
    '4' := "Guts",
    '5' := "Wit",
    '6' := "Friend",
    '7' := "Group"
  ]

  /** The keys of the support card dict; each is present or absent. */
  datatype SupportInfo = SupportInfo(
    name: Option<string>,
    title: Option<string>,
    chara: Option<string>,
    cardType: Option<string>)

  /** `get_support_card_info`. */
  function SupportCardInfo(t: Tables, supportCardId: int): (r: SupportInfo)
    ensures var key := IntToStr(supportCardId);
            && (key in t.supportcardnames ==>
                  r.name == t.supportcardnames[key].name && r.title == t.supportcardnames[key].title &&
                  r.chara == t.supportcardnames[key].chara)
            && (key !in t.supportcardnames ==> r.name.None? && r.title.None? && r.chara.None?)
            && (r.cardType.Some? <==> key[0] in SupportCardTypes)
            && (r.cardType.Some? ==> r.cardType.value == SupportCardTypes[key[0]])
  {
    var key := IntToStr(supportCardId);
    var entry := if key in t.supportcardnames then t.supportcardnames[key] else CardNames(None, None, None);
    var cardType := if key[0] in SupportCardTypes then Some(SupportCardTypes[key[0]]) else None;
    SupportInfo(entry.name, entry.title, entry.chara, cardType)
  }

  /** The card type is the type of the ID's leading decimal digit. */
  lemma SupportTypeFromLeadingDigit(t: Tables, supportCardId: int, k: nat)
    requires Pow10(k) <= supportCardId < Pow10(k + 1)
    ensures var lead := supportCardId / Pow10(k);
            1 <= lead <= 9 &&
            SupportCardInfo(t, supportCardId).cardType ==
              if 1 <= lead <= 7 then Some(SupportCardTypes[DigitChar(lead)]) else None
  {
    LeadingDigit(supportCardId, k);
  }

  /** The first character of `str(n)` is the digit `n // 10**k` when `n`
      has `k + 1` digits. */
  lemma LeadingDigit(n: nat, k: nat)
    requires Pow10(k) <= n < Pow10(k + 1)
    ensures 1 <= n / Pow10(k) <= 9 && NatToStr(n)[0] == DigitChar(n / Pow10(k))
  {
    var p := Pow10(k);
    assert Pow10(k + 1) == 10 * p;
    QuotientIsDigit(n, p);
    var lead := n / p;
    NatToStrSplit(n, k);
    assert NatToStr(lead) == [DigitChar(lead)];
    assert NatToStr(n)[0] == NatToStr(lead)[0];
  }

  /** A number between `p` and `10 * p` has a one-digit quotient by `p`. */
  lemma QuotientIsDigit(n: nat, p: nat)
    requires 0 < p <= n < 10 * p
    ensures 1 <= n / p <= 9
  {
    var q := n / p;
    assert n == q * p + n % p;
  }

  // ---------------------------------------------------------------------
  // get_chara_info
  // ---------------------------------------------------------------------

  /** The keys of the character dict; each is present or absent. */
  datatype CharaInfo = CharaInfo(charaName: Option<string>, costumeName: Option<string>, cardName: Option<string>)

  /** The character of a card: `str(card_id // 100)`. */
  function CharaKey(cardId: int): string {
    IntToStr(cardId / 100)
  }

  /** `names[1] if len(names) > 1 and names[1] else names[0]`. */
  function DisplayName(names: seq<string>): (s: string)
    requires |names| > 0
    ensures |names| > 1 && names[1] != "" ==> s == names[1]
    ensures !(|names| > 1 && names[1] != "") ==> s == names[0]
  {
    if |names| > 1 && names[1] != "" then names[1] else names[0]
  }

  /** The entries `get_chara_info` reads, having the name list it indexes. */
  predicate CharaNamesPresent(t: Tables, cardId: int) {
    var k := CharaKey(cardId);
    (k in t.umasGlobal ==> |t.umasGlobal[k].name| > 0) &&
    (k !in t.umasGlobal && k in t.umasFull ==> |t.umasFull[k].name| > 0)
  }

  /** The character info from one character record. */
  function CharaFrom(uma: Uma, cardId: int): CharaInfo
    requires |uma.name| > 0
  {
    var name := DisplayName(uma.name);
    var card := IntToStr(cardId);
    if card in uma.outfits then CharaInfo(Some(name), Some(uma.outfits[card]), Some(uma.outfits[card] + " " + name))
    else CharaInfo(Some(name), None, None)
  }

  /** `info` is what the record `uma` says of the card: its display name,
      and the outfit label filed under the full card ID when there is one. */
  predicate ReadFrom(info: CharaInfo, uma: Uma, cardId: int)
    requires |uma.name| > 0
  {
    var card := IntToStr(cardId);
    info.charaName == Some(DisplayName(uma.name)) &&
    (info.costumeName.Some? <==> card in uma.outfits) &&
    (info.costumeName.Some? ==> info.costumeName.value == uma.outfits[card])
  }

  /** `get_chara_info`: the Global record when there is one, else the full
      record, else nothing. */
  function CharaInfoOf(t: Tables, cardId: int): (r: CharaInfo)
    requires CharaNamesPresent(t, cardId)
    ensures var k := CharaKey(cardId); k in t.umasGlobal ==> ReadFrom(r, t.umasGlobal[k], cardId)
    ensures var k := CharaKey(cardId); k !in t.umasGlobal && k in t.umasFull ==> ReadFrom(r, t.umasFull[k], cardId)
    ensures r.charaName.None? <==> CharaKey(cardId) !in t.umasGlobal && CharaKey(cardId) !in t.umasFull
    ensures r.cardName.Some? <==> r.costumeName.Some?
    ensures r.cardName.Some? ==> r.charaName.Some? && r.cardName.value == r.costumeName.value + " " + r.charaName.value
  {
    var k := CharaKey(cardId);
    if k in t.umasGlobal then CharaFrom(t.umasGlobal[k], cardId)
    else if k in t.umasFull then CharaFrom(t.umasFull[k], cardId)
    else CharaInfo(None, None, None)
  }

  /** umas_full is consulted only for a character missing from umas_global:
      for any other character it can be replaced by anything. */
  lemma CharaGlobalFirst(t: Tables, full: map<string, Uma>, cardId: int)
    requires CharaNamesPresent(t, cardId) && CharaKey(cardId) in t.umasGlobal
    ensures CharaNamesPresent(t.(umasFull := full), cardId)
    ensures CharaInfoOf(t.(umasFull := full), cardId) == CharaInfoOf(t, cardId)
  {
  }

  /** The names of every card of one character agree. */
  lemma CharaSharedName(t: Tables, a: int, b: int)
    requires CharaNamesPresent(t, a) && CharaNamesPresent(t, b) && a / 100 == b / 100
    ensures CharaInfoOf(t, a).charaName == CharaInfoOf(t, b).charaName
  {
  }

  // ---------------------------------------------------------------------
  // Empty tables
  // ---------------------------------------------------------------------

  /** With no data loaded, nothing resolves. */
  lemma NothingResolvesWithoutTables(id: int)
    ensures SkillName(NoTables, id) == None && SparkName(NoTables, id) == None
    ensures RaceTitleName(NoTables, id) == None && NicknameName(NoTables, id) == None
    ensures RaceClothName(NoTables, id) == None
    ensures CharaInfoOf(NoTables, id) == CharaInfo(None, None, None)
    ensures var s := SupportCardInfo(NoTables, id); s.name.None? && s.title.None? && s.chara.None?
  {
    NoGroupNameWithoutTables((id / 100) * 10, 1);
  }

  /** With no data loaded, no candidate of a skill group has a name. */
  lemma {:induction false} NoGroupNameWithoutTables(base: int, from: nat)
    requires 1 <= from <= 10
    ensures FirstNamed(NoTables, base, from) == None
    decreases 10 - from
  {
    if from < 10 {
      NoGroupNameWithoutTables(base, from + 1);
    }
  }
}
