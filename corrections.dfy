/** `apply_corrections` and the two correction tables: rewriting community
    translations into the official Global terms. */
module Corrections {
  import opened Wrappers
  import opened PyStr

  /** A correction dict: (wrong, right) pairs in insertion order, which is
      the order the partial pass applies them in. */
  type Table = seq<(string, string)>

  /** SPARK_NAME_CORRECTIONS, applied to spark and race names: the groups
      below in this order. */
  const SparkNameCorrections: Table :=
    RunningStyles + TrackConditions + StyleSkills + Debuffs + CommonSkills + SparkNames + StatNames

  /** Running style aptitudes. */
  const RunningStyles: Table := [
    ("Runner", "Front Runner"),
    ("Leader", "Pace Chaser"),
    ("Betweener", "Late Surger"),
    ("Chaser", "End Closer")
  ]

  /** Track condition skills. */
  const TrackConditions: Table := [
    ("Bad Track Condition \U{25CB}", "Wet Conditions \U{25CB}"),
    ("Bad Track Condition \U{25CE}", "Wet Conditions \U{25CE}"),
    ("Bad Track Condition \U{00D7}", "Wet Conditions \U{00D7}")
  ]

  /** Running style specific skills: "Frontrunner", then the corner,
      straight and tricks skills of each style. */
  const StyleSkills: Table :=
    [("Frontrunner", "Early Lead")] + RunnerSkills + LeaderSkills + BetweenerSkills + ChaserSkills

  const RunnerSkills: Table := [
    ("Runner's Corners \U{25CB}", "Front Runner Corners \U{25CB}"),
    ("Runner's Corners \U{25CE}", "Front Runner Corners \U{25CE}"),
    ("Runner's Straights \U{25CB}", "Front Runner Straightaways \U{25CB}"),
    ("Runner's Straights \U{25CE}", "Front Runner Straightaways \U{25CE}"),
    ("Runner's Tricks \U{25CB}", "Front Runner Savvy \U{25CB}"),
    ("Runner's Tricks \U{25CE}", "Front Runner Savvy \U{25CE}")
  ]

  const LeaderSkills: Table := [
    ("Leader's Corners \U{25CB}", "Pace Chaser Corners \U{25CB}"),
    ("Leader's Corners \U{25CE}", "Pace Chaser Corners \U{25CE}"),
    ("Leader's Straights \U{25CB}", "Pace Chaser Straightaways \U{25CB}"),
    ("Leader's Straights \U{25CE}", "Pace Chaser Straightaways \U{25CE}"),
    ("Leader's Tricks \U{25CB}", "Pace Chaser Savvy \U{25CB}"),
    ("Leader's Tricks \U{25CE}", "Pace Chaser Savvy \U{25CE}")
  ]

  const BetweenerSkills: Table := [
    ("Betweener's Corners \U{25CB}", "Late Surger Corners \U{25CB}"),
    ("Betweener's Corners \U{25CE}", "Late Surger Corners \U{25CE}"),
    ("Betweener's Straights \U{25CB}", "Late Surger Straightaways \U{25CB}"),
    ("Betweener's Straights \U{25CE}", "Late Surger Straightaways \U{25CE}"),
    ("Betweener's Tricks \U{25CB}", "Late Surger Savvy \U{25CB}"),
    ("Betweener's Tricks \U{25CE}", "Late Surger Savvy \U{25CE}")
  ]

  const ChaserSkills: Table := [
    ("Chaser's Corners \U{25CB}", "End Closer Corners \U{25CB}"),
    ("Chaser's Corners \U{25CE}", "End Closer Corners \U{25CE}"),
    ("Chaser's Straights \U{25CB}", "End Closer Straightaways \U{25CB}"),
    ("Chaser's Straights \U{25CE}", "End Closer Straightaways \U{25CE}"),
    ("Chaser's Tricks \U{25CB}", "End Closer Savvy \U{25CB}"),
    ("Chaser's Tricks \U{25CE}", "End Closer Savvy \U{25CE}")
  ]

  /** Debuff skills, against each running style in turn. */
  const Debuffs: Table := RunnerDebuffs + LeaderDebuffs + BetweenerDebuffs + ChaserDebuffs

  const RunnerDebuffs: Table := [
    ("Frantic Runners", "Frenzied Front Runners"),
    ("Restrained Runners", "Subdued Front Runners"),
    ("Panicked Runners", "Flustered Front Runners"),
    ("Faltering Runners", "Hesitant Front Runners")
  ]

  const LeaderDebuffs: Table := [
    ("Frantic Leaders", "Frenzied Pace Chasers"),
    ("Restrained Leaders", "Subdued Pace Chasers"),
    ("Panicked Leaders", "Flustered Pace Chasers"),
    ("Faltering Leaders", "Hesitant Pace Chasers")
  ]

  const BetweenerDebuffs: Table := [
    ("Frantic Betweeners", "Frenzied Late Surgers"),
    ("Restrained Betweeners", "Subdued Late Surgers"),
    ("Panicked Betweeners", "Flustered Late Surgers"),
    ("Faltering Betweeners", "Hesitant Late Surgers")
  ]

  const ChaserDebuffs: Table := [
    ("Frantic Chasers", "Frenzied End Closers"),
    ("Restrained Chasers", "Subdued End Closers"),
    ("Panicked Chasers", "Flustered End Closers"),
    ("Faltering Chasers", "Hesitant End Closers")
  ]

  /** Common skill name differences. */
  const CommonSkills: Table := [
    ("Position Swiper", "Position Pilfer"),
    ("100K Horsepower", "1,500,000 CC"),
    ("1M Horsepower", "15,000,000 CC"),
    ("Blue Rose Chaser", "Blue Rose Closer"),
    ("Backup Belly", "Extra Tank"),
    ("Big Strides", "Furious Feat"),
    ("Autumn Girl \U{25CB}", "Fall Runner \U{25CB}"),
    ("Autumn Girl \U{25CE}", "Fall Runner \U{25CE}"),
    ("Autumn Girl \U{00D7}", "Fall Runner \U{00D7}")
  ]

  /** Spark names where the community translation diverges from Global. */
  const SparkNames: Table := [
    ("Hold Your Tail High", "Tail Held High")
  ]

  /** The stat name. */
  const StatNames: Table := [
    ("Wisdom", "Wit")
  ]

  /** NICKNAME_CORRECTIONS, applied to nicknames. */
  const NicknameCorrections: Table := [
    ("Int Bonus", "Wit Bonus"),
    ("Int Cap Up", "Wit Cap Up")
  ]

  /** The position of `key` among the table's keys, if it is one. */
  function KeyIndex(c: Table, key: string): (r: Option<nat>)
    ensures r.Some? ==> r.value < |c| && c[r.value].0 == key && forall j :: 0 <= j < r.value ==> c[j].0 != key
    ensures r.None? ==> forall j :: 0 <= j < |c| ==> c[j].0 != key
  {
    if c == [] then None
    else if c[0].0 == key then Some(0)
    else match KeyIndex(c[1..], key)
      case Some(i) => Some(i + 1)
      case None => None
  }

  /** One iteration of the partial pass: `if wrong in s: s = s.replace(wrong, right)`. */
  function ReplaceStep(s: string, wrong: string, right: string): string {
    if Contains(s, wrong) then Replace(s, wrong, right) else s
  }

  /** The partial pass over the first entries of the table, each acting on
      the result of the ones before. */
  function ReplaceAll(s: string, c: Table): string
    decreases |c|
  {
    if c == [] then s
    else ReplaceStep(ReplaceAll(s, c[..|c| - 1]), c[|c| - 1].0, c[|c| - 1].1)
  }

  /** `apply_corrections`: an empty name as it is, an exact key its value,
      anything else the partial pass. */
  function Corrected(name: string, c: Table): string {
    if name == "" then name
    else match KeyIndex(c, name)
      case Some(i) => c[i].1
      case None => ReplaceAll(name, c)
  }

  /** `apply_corrections`, with its replacement loop. */
  method ApplyCorrections(name: string, c: Table) returns (r: string)
    ensures r == Corrected(name, c)
  {
    if name == "" {
      return name;
    }
    var exact := KeyIndex(c, name);
    if exact.Some? {
      return c[exact.value].1;
    }
    r := name;
    var i := 0;
    while i < |c|
      invariant 0 <= i <= |c|
      invariant r == ReplaceAll(name, c[..i])
    {
      var (wrong, right) := c[i];
      if Contains(r, wrong) {
        r := Replace(r, wrong, right);
      }
      assert c[..i + 1][..i] == c[..i];
      i := i + 1;
    }
    assert c[..i] == c;
  }

  // ---------------------------------------------------------------------
  // Properties
  // ---------------------------------------------------------------------

  /** An empty name is returned as it is. */
  lemma EmptyNameUnchanged(c: Table)
    ensures Corrected("", c) == ""
  {
  }

  /** A name that is a key gets that key's value, with no partial pass. */
  lemma ExactKeyWins(name: string, c: Table, i: nat)
    requires name != "" && i < |c| && c[i].0 == name
    requires forall j :: 0 <= j < i ==> c[j].0 != name
    ensures Corrected(name, c) == c[i].1
  {
  }

  /** The partial pass over a concatenated table is the pass over the first
      part followed by the pass over the second. */
  lemma {:induction false} ReplaceAllAppend(s: string, a: Table, b: Table)
    ensures ReplaceAll(s, a + b) == ReplaceAll(ReplaceAll(s, a), b)
  {
    if b == [] {
      assert a + b == a;
    } else {
      var b' := b[..|b| - 1];
      assert (a + b)[..|a + b| - 1] == a + b';
      assert (a + b)[|a + b| - 1] == b[|b| - 1];
      ReplaceAllAppend(s, a, b');
    }
  }

  /** A string occurs in itself. */
  lemma ContainsSelf(s: string)
    ensures Contains(s, s)
  {
    assert OccursAt(s, s, 0);
  }

  /** A name in which no key occurs is returned unchanged. */
  lemma {:induction false} NoKeyNoChange(name: string, c: Table)
    requires forall i :: 0 <= i < |c| ==> !Contains(name, c[i].0)
    ensures ReplaceAll(name, c) == name
    ensures Corrected(name, c) == name
  {
    if c != [] {
      NoKeyNoChange(name, c[..|c| - 1]);
      assert !Contains(name, c[|c| - 1].0);
    }
    ContainsSelf(name);
  }

  /** Replacing by something at least as long never shortens. */
  lemma {:induction false} ReplaceNotShorter(s: string, pat: string, rep: string)
    requires pat != [] && |rep| >= |pat|
    ensures |Replace(s, pat, rep)| >= |s|
    decreases |s|
  {
    if |s| >= |pat| {
      if s[..|pat|] == pat {
        ReplaceNotShorter(s[|pat|..], pat, rep);
      } else {
        ReplaceNotShorter(s[1..], pat, rep);
      }
    }
  }

  /** Replacing an occurring substring by something longer lengthens. */
  lemma {:induction false} ReplaceGrows(s: string, pat: string, rep: string)
    requires pat != [] && |rep| > |pat| && Contains(s, pat)
    ensures |Replace(s, pat, rep)| > |s|
    decreases |s|
  {
    ContainsIff(s, pat);
    var j: nat :| OccursAt(s, pat, j);
    if s[..|pat|] == pat {
      ReplaceNotShorter(s[|pat|..], pat, rep);
    } else {
      assert s[0..|pat|] == s[..|pat|];
      assert j > 0;
      assert s[1..][j - 1..j - 1 + |pat|] == s[j..j + |pat|];
      assert OccursAt(s[1..], pat, j - 1);
      ContainsIff(s[1..], pat);
      ReplaceGrows(s[1..], pat, rep);
    }
  }

  /** A one-entry table whose replacement contains its key, and is longer,
      is not idempotent: the key maps to the replacement, which a second
      pass changes again. */
  lemma SecondPassChanges(c: Table, wrong: string, right: string)
    requires c == [(wrong, right)] && wrong != ""
    requires |right| > |wrong| && Contains(right, wrong)
    ensures Corrected(wrong, c) == right
    ensures Corrected(Corrected(wrong, c), c) != Corrected(wrong, c)
  {
    assert right != wrong;
    assert KeyIndex(c, right) == None;
    assert c[..|c| - 1] == [];
    assert ReplaceAll(right, c) == Replace(right, wrong, right);
    ReplaceGrows(right, wrong, right);
  }

  /** The real entry ("Runner", "Front Runner") is such an entry. */
  lemma RunnerRecurs(wrong: string, right: string)
    requires wrong == "Runner" && right == "Front Runner"
    ensures SparkNameCorrections[0] == (wrong, right)
    ensures Corrected(Corrected(wrong, [(wrong, right)]), [(wrong, right)]) != right
  {
    assert right[6..] == wrong;
    assert OccursAt(right, wrong, 6);
    ContainsIff(right, wrong);
    SecondPassChanges([(wrong, right)], wrong, right);
  }

  /** Both nickname keys are exact names, so they map to their Global terms. */
  lemma NicknameKeysExact(a: string, b: string)
    requires a == "Int Bonus" && b == "Int Cap Up"
    ensures Corrected(a, NicknameCorrections) == "Wit Bonus"
    ensures Corrected(b, NicknameCorrections) == "Wit Cap Up"
  {
    ExactKeyWins(a, NicknameCorrections, 0);
    assert a != b;
    ExactKeyWins(b, NicknameCorrections, 1);
  }
}
