/** The second pass of `apply_corrections` over the whole spark-name table:
    "Runner" becomes "Front Runner", which a second pass turns into "Front
    Front Runner". */
module CorrectionsExamples {
  import opened Wrappers
  import opened PyStr
  import opened Corrections

  /** A key holding a character the name lacks does not occur in it. */
  lemma AbsentChar(s: string, key: string, x: char)
    requires x in key && x !in s
    ensures !Contains(s, key)
  {
    ContainsIff(s, key);
  }

  /** A table each of whose keys holds `x` or `y`, neither of which is in
      the name `s` nor in the name `t`, or else is `other`, which does not
      occur in `s` and is not `t`, leaves `s` unchanged and has no key `t`. */
  lemma {:induction false} ForeignKeysBut(s: string, t: string, c: Table, x: char, y: char, other: string)
    requires x !in s && y !in s && x !in t && y !in t && !Contains(s, other) && other != t
    requires forall e :: e in c ==> x in e.0 || y in e.0 || e.0 == other
    ensures ReplaceAll(s, c) == s
    ensures forall j :: 0 <= j < |c| ==> c[j].0 != t
  {
    forall i | 0 <= i < |c|
      ensures !Contains(s, c[i].0) && c[i].0 != t
    {
      assert c[i] in c;
      if x in c[i].0 {
        AbsentChar(s, c[i].0, x);
      } else if y in c[i].0 {
        AbsentChar(s, c[i].0, y);
      }
    }
    NoKeyNoChange(s, c);
  }

  /** The same with no exception. */
  lemma ForeignKeys(s: string, t: string, c: Table, x: char, y: char)
    requires x !in s && y !in s && x !in t && y !in t
    requires forall e :: e in c ==> x in e.0 || y in e.0
    ensures ReplaceAll(s, c) == s
    ensures forall j :: 0 <= j < |c| ==> c[j].0 != t
  {
    AbsentChar(s, [x], x);
    ForeignKeysBut(s, t, c, x, y, [x]);
  }

  /** Replacing in `p + pat`, where the pattern's first character is not
      in `p`, replaces the trailing occurrence only. */
  lemma {:induction false} ReplaceTrailing(p: string, pat: string, rep: string)
    requires pat != [] && pat[0] !in p
    ensures Replace(p + pat, pat, rep) == p + rep
    decreases |p|
  {
    var s := p + pat;
    if p == [] {
      assert s == pat && s[..|pat|] == pat && s[|pat|..] == [];
      assert Replace(s, pat, rep) == rep + Replace([], pat, rep);
    } else {
      assert s[..|pat|] != pat by {
        assert s[..|pat|][0] == p[0] != pat[0];
      }
      assert s[1..] == p[1..] + pat;
      assert Replace(s, pat, rep) == [p[0]] + Replace(p[1..] + pat, pat, rep);
      ReplaceTrailing(p[1..], pat, rep);
      assert p + rep == [p[0]] + (p[1..] + rep);
    }
  }

  /** "Frontrunner" does not occur in "Front Front Runner", although each
      of its characters does. */
  lemma FrontrunnerAbsent(s: string, key: string)
    requires s == "Front Front Runner" && key == "Frontrunner"
    ensures !Contains(s, key)
  {
    forall j: nat | j + |key| <= |s|
      ensures !OccursAt(s, key, j)
    {
      assert s[j..j + |key|][0] == s[j] && s[j..j + |key|][5] == s[j + 5];
      assert j == 0 || j == 1 || j == 2 || j == 3 || j == 4 || j == 5 || j == 6 || j == 7;
      assert s[j] != 'F' || s[j + 5] != 'r';
    }
    ContainsIff(s, key);
  }

  /** No key of `c` is `t`. */
  predicate NotAKey(c: Table, t: string) {
    forall j :: 0 <= j < |c| ==> c[j].0 != t
  }

  /** Passes over consecutive parts of a table, the first taking `s` to
      `s2` and the second leaving `s2` as it is, neither having the key `t`. */
  lemma PassAppend(s: string, s2: string, t: string, a: Table, b: Table)
    requires ReplaceAll(s, a) == s2 && ReplaceAll(s2, b) == s2 && NotAKey(a, t) && NotAKey(b, t)
    ensures ReplaceAll(s, a + b) == s2 && NotAKey(a + b, t)
  {
    ReplaceAllAppend(s, a, b);
  }

  /** A one-entry pass over `p + pat`, where the pattern's first character
      is not in `p`, replaces the trailing pattern. */
  lemma SingleEntryPass(s: string, s2: string, p: string, pat: string, rep: string, c: Table)
    requires s == p + pat && s2 == p + rep && c == [(pat, rep)] && pat != [] && pat[0] !in p
    ensures ReplaceAll(s, c) == s2
  {
    assert c[..0] == [];
    assert s[|p|..|p| + |pat|] == pat;
    assert OccursAt(s, pat, |p|);
    ContainsIff(s, pat);
    ReplaceTrailing(p, pat, rep);
  }

  /** The first entry ("Runner", "Front Runner") turns "Front Runner" into
      "Front Front Runner". */
  lemma RunnerEntryPass(s: string, s2: string)
    requires s == "Front Runner" && s2 == "Front Front Runner"
    ensures ReplaceAll(s, RunningStyles[..1]) == s2 && NotAKey(RunningStyles[..1], s)
  {
    assert RunningStyles[..1] == [("Runner", "Front Runner")];
    SingleEntryPass(s, s2, "Front ", "Runner", "Front Runner", RunningStyles[..1]);
  }

  /** The other running styles leave "Front Front Runner" as it is. */
  lemma LaterStylesPass(s: string, s2: string)
    requires s == "Front Runner" && s2 == "Front Front Runner"
    ensures ReplaceAll(s2, RunningStyles[1..]) == s2 && NotAKey(RunningStyles[1..], s)
  {
    ForeignKeys(s2, s, RunningStyles[1..], 'a', 'B');
  }

  /** The running-style group takes "Front Runner" to "Front Front Runner". */
  lemma RunningStylesPass(s: string, s2: string)
    requires s == "Front Runner" && s2 == "Front Front Runner"
    ensures ReplaceAll(s, RunningStyles) == s2 && NotAKey(RunningStyles, s)
  {
    RunnerEntryPass(s, s2);
    LaterStylesPass(s, s2);
    PassAppend(s, s2, s, RunningStyles[..1], RunningStyles[1..]);
    assert RunningStyles[..1] + RunningStyles[1..] == RunningStyles;
  }

  /** "Frontrunner", the first style skill, does not occur in "Front Front
      Runner". */
  lemma FrontrunnerPass(s: string, s2: string)
    requires s == "Front Runner" && s2 == "Front Front Runner"
    ensures ReplaceAll(s2, [("Frontrunner", "Early Lead")]) == s2
    ensures NotAKey([("Frontrunner", "Early Lead")], s)
  {
    assert [("Frontrunner", "Early Lead")][..0] == [];
    FrontrunnerAbsent(s2, "Frontrunner");
  }

  /** The front-runner skills each end in an "s" word. */
  lemma RunnerSkillsPass(s: string, s2: string)
    requires s == "Front Runner" && s2 == "Front Front Runner"
    ensures ReplaceAll(s2, RunnerSkills) == s2 && NotAKey(RunnerSkills, s)
  {
    ForeignKeys(s2, s, RunnerSkills, 's', 's');
  }

  /** The pace-chaser skills each end in an "s" word. */
  lemma LeaderSkillsPass(s: string, s2: string)
    requires s == "Front Runner" && s2 == "Front Front Runner"
    ensures ReplaceAll(s2, LeaderSkills) == s2 && NotAKey(LeaderSkills, s)
  {
    ForeignKeys(s2, s, LeaderSkills, 's', 's');
  }

  /** The late-surger skills each end in an "s" word. */
  lemma BetweenerSkillsPass(s: string, s2: string)
    requires s == "Front Runner" && s2 == "Front Front Runner"
    ensures ReplaceAll(s2, BetweenerSkills) == s2 && NotAKey(BetweenerSkills, s)
  {
    ForeignKeys(s2, s, BetweenerSkills, 's', 's');
  }

  /** The end-closer skills each end in an "s" word. */
  lemma ChaserSkillsPass(s: string, s2: string)
    requires s == "Front Runner" && s2 == "Front Front Runner"
    ensures ReplaceAll(s2, ChaserSkills) == s2 && NotAKey(ChaserSkills, s)
  {
    ForeignKeys(s2, s, ChaserSkills, 's', 's');
  }

  /** The style-skill group leaves "Front Front Runner" as it is: its first
      key does not occur there, and every other one holds an "s". */
  lemma StyleSkillsPass(s: string, s2: string)
    requires s == "Front Runner" && s2 == "Front Front Runner"
    ensures ReplaceAll(s2, StyleSkills) == s2 && NotAKey(StyleSkills, s)
  {
    var first: Table := [("Frontrunner", "Early Lead")];
    FrontrunnerPass(s, s2);
    RunnerSkillsPass(s, s2);
    PassAppend(s2, s2, s, first, RunnerSkills);
    LeaderSkillsPass(s, s2);
    PassAppend(s2, s2, s, first + RunnerSkills, LeaderSkills);
    BetweenerSkillsPass(s, s2);
    PassAppend(s2, s2, s, first + RunnerSkills + LeaderSkills, BetweenerSkills);
    ChaserSkillsPass(s, s2);
    PassAppend(s2, s2, s, first + RunnerSkills + LeaderSkills + BetweenerSkills, ChaserSkills);
  }

  /** The track-condition keys each hold an "a". */
  lemma TrackConditionsPass(s: string, s2: string)
    requires s == "Front Runner" && s2 == "Front Front Runner"
    ensures ReplaceAll(s2, TrackConditions) == s2 && NotAKey(TrackConditions, s)
  {
    ForeignKeys(s2, s, TrackConditions, 'a', 'a');
  }

  /** The debuffs against front runners each end in an "s". */
  lemma RunnerDebuffsPass(s: string, s2: string)
    requires s == "Front Runner" && s2 == "Front Front Runner"
    ensures ReplaceAll(s2, RunnerDebuffs) == s2 && NotAKey(RunnerDebuffs, s)
  {
    ForeignKeys(s2, s, RunnerDebuffs, 's', 's');
  }

  /** The debuffs against pace chasers each end in an "s". */
  lemma LeaderDebuffsPass(s: string, s2: string)
    requires s == "Front Runner" && s2 == "Front Front Runner"
    ensures ReplaceAll(s2, LeaderDebuffs) == s2 && NotAKey(LeaderDebuffs, s)
  {
    ForeignKeys(s2, s, LeaderDebuffs, 's', 's');
  }

  /** The debuffs against late surgers each end in an "s". */
  lemma BetweenerDebuffsPass(s: string, s2: string)
    requires s == "Front Runner" && s2 == "Front Front Runner"
    ensures ReplaceAll(s2, BetweenerDebuffs) == s2 && NotAKey(BetweenerDebuffs, s)
  {
    ForeignKeys(s2, s, BetweenerDebuffs, 's', 's');
  }

  /** The debuffs against end closers each end in an "s". */
  lemma ChaserDebuffsPass(s: string, s2: string)
    requires s == "Front Runner" && s2 == "Front Front Runner"
    ensures ReplaceAll(s2, ChaserDebuffs) == s2 && NotAKey(ChaserDebuffs, s)
  {
    ForeignKeys(s2, s, ChaserDebuffs, 's', 's');
  }

  /** The debuff group leaves "Front Front Runner" as it is. */
  lemma DebuffsPass(s: string, s2: string)
    requires s == "Front Runner" && s2 == "Front Front Runner"
    ensures ReplaceAll(s2, Debuffs) == s2 && NotAKey(Debuffs, s)
  {
    RunnerDebuffsPass(s, s2);
    LeaderDebuffsPass(s, s2);
    PassAppend(s2, s2, s, RunnerDebuffs, LeaderDebuffs);
    BetweenerDebuffsPass(s, s2);
    PassAppend(s2, s2, s, RunnerDebuffs + LeaderDebuffs, BetweenerDebuffs);
    ChaserDebuffsPass(s, s2);
    PassAppend(s2, s2, s, RunnerDebuffs + LeaderDebuffs + BetweenerDebuffs, ChaserDebuffs);
  }

  /** The common-skill keys each hold an "s" or an "l". */
  lemma CommonSkillsPass(s: string, s2: string)
    requires s == "Front Runner" && s2 == "Front Front Runner"
    ensures ReplaceAll(s2, CommonSkills) == s2 && NotAKey(CommonSkills, s)
  {
    ForeignKeys(s2, s, CommonSkills, 's', 'l');
  }

  /** "Hold Your Tail High" holds an "l". */
  lemma SparkNamesPass(s: string, s2: string)
    requires s == "Front Runner" && s2 == "Front Front Runner"
    ensures ReplaceAll(s2, SparkNames) == s2 && NotAKey(SparkNames, s)
  {
    ForeignKeys(s2, s, SparkNames, 'l', 'l');
  }

  /** "Wisdom" holds an "s". */
  lemma StatNamesPass(s: string, s2: string)
    requires s == "Front Runner" && s2 == "Front Front Runner"
    ensures ReplaceAll(s2, StatNames) == s2 && NotAKey(StatNames, s)
  {
    ForeignKeys(s2, s, StatNames, 's', 's');
  }

  /** The spark-name table is not idempotent on "Runner": the first pass
      gives "Front Runner" (an exact key) and the second "Front Front
      Runner" (the key "Runner" occurs in it, and no other key does). */
  lemma SparkRunnerTwice(name: string)
    requires name == "Runner"
    ensures Corrected(name, SparkNameCorrections) == "Front Runner"
    ensures Corrected(Corrected(name, SparkNameCorrections), SparkNameCorrections) == "Front Front Runner"
  {
    assert SparkNameCorrections[0] == ("Runner", "Front Runner");
    assert KeyIndex(SparkNameCorrections, name) == Some(0);
    var s := "Front Runner";
    var s2 := "Front Front Runner";
    RunningStylesPass(s, s2);
    TrackConditionsPass(s, s2);
    PassAppend(s, s2, s, RunningStyles, TrackConditions);
    StyleSkillsPass(s, s2);
    PassAppend(s, s2, s, RunningStyles + TrackConditions, StyleSkills);
    DebuffsPass(s, s2);
    PassAppend(s, s2, s, RunningStyles + TrackConditions + StyleSkills, Debuffs);
    CommonSkillsPass(s, s2);
    PassAppend(s, s2, s, RunningStyles + TrackConditions + StyleSkills + Debuffs, CommonSkills);
    SparkNamesPass(s, s2);
    PassAppend(s, s2, s, RunningStyles + TrackConditions + StyleSkills + Debuffs + CommonSkills, SparkNames);
    StatNamesPass(s, s2);
    PassAppend(s, s2, s, RunningStyles + TrackConditions + StyleSkills + Debuffs + CommonSkills + SparkNames, StatNames);
    assert KeyIndex(SparkNameCorrections, s) == None;
  }
}
