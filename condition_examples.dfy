/** Worked conditions for `parse_condition`. Each example is stated for a
    parameter equal to the literal, and the facts it needs (where the
    operator sits, what strip and the rules give) are small lemmas of their
    own. */
module ConditionExamples {
  import opened Wrappers
  import opened PyStr
  import opened Condition

  /** A key and a value with no whitespace at their ends are what strip
      leaves of them. */
  lemma Unpadded(key: string, value: string)
    requires key != [] && !IsSpace(key[0]) && !IsSpace(key[|key| - 1])
    requires value != [] && !IsSpace(value[0]) && !IsSpace(value[|value| - 1])
    ensures Strip(key) == key && Strip(value) == value
  {
  }

  // --- "phase==2" -------------------------------------------------------

  lemma PhaseShape(t: string)
    requires t == "phase==2"
    ensures t == "phase" + Operators[2] + "2"
    ensures forall m :: 0 <= m < 2 ==> !Contains(t, Operators[m])
  {
    NotContains(t, ">=");
    NotContains(t, "<=");
  }

  lemma PhaseRule(key: string, value: string)
    requires key == "phase" && value == "2"
    ensures RenderClause(key, Operators[2], value) == Ok(Text("Final Leg"))
  {
  }

  /** `phase==2` names the phase. */
  lemma PhaseClause(t: string)
    requires t == "phase==2"
    ensures ClauseText(t) == Ok("Final Leg")
  {
    var key, value := "phase", "2";
    PhaseShape(t);
    PhaseRule(key, value);
    Unpadded(key, value);
    ClauseOfParts(key, 2, value);
  }

  // --- "is_lastspurt=1" -------------------------------------------------

  lemma LastSpurtShape(t: string)
    requires t == "is_lastspurt=1"
    ensures t == "is_lastspurt" + Operators[6] + "1"
    ensures forall m :: 0 <= m < 6 ==> !Contains(t, Operators[m])
  {
    NotContains(t, ">=");
    NotContains(t, "<=");
    assert t[..12] == "is_lastspurt" && t[13..] == "1" && t[12..14] == "=1";
    NotContainsExcept(t, "==", 12);
    NotContains(t, "!=");
    NotContains(t, ">");
    NotContains(t, "<");
  }

  lemma LastSpurtRule(key: string, value: string)
    requires key == "is_lastspurt" && value == "1"
    ensures RenderClause(key, Operators[6], value) == Ok(Text("Last Spurt"))
  {
  }

  /** `=` is found last, after the six longer or different operators. */
  lemma LastSpurtClause(t: string)
    requires t == "is_lastspurt=1"
    ensures ClauseText(t) == Ok("Last Spurt")
  {
    var key, value := "is_lastspurt", "1";
    LastSpurtShape(t);
    LastSpurtRule(key, value);
    Unpadded(key, value);
    ClauseOfParts(key, 6, value);
  }

  // --- a two-clause condition -------------------------------------------

  lemma TwoClauseSplit(c: string, a: string, b: string)
    requires c == "phase==2&is_lastspurt=1" && a == "phase==2" && b == "is_lastspurt=1"
    ensures Split(c, '&') == [a, b]
  {
    assert c == a + ['&'] + b;
    assert '&' !in a && '&' !in b;
    SplitFirstSeparator(a, b, '&');
    SplitNoSeparator(b, '&');
  }

  lemma TwoClauseStrip(a: string, b: string)
    requires a == "phase==2" && b == "is_lastspurt=1"
    ensures StripAll([a, b]) == [a, b]
  {
    assert Strip(a) == a && Strip(b) == b;
  }

  lemma TwoClauseParts(render: string -> Result<string, ParseError>, a: string, b: string, x: string, y: string)
    requires render(a) == Ok(x) && render(b) == Ok(y)
    requires a != "" && b != ""
    ensures Clauses(render, [a, b]) == Ok([x, y])
  {
    assert [a][..0] == [];
    assert Clauses(render, []) == Ok([]);
    assert [] + [x] == [x];
    assert Clauses(render, [a]) == Ok([x]);
    assert [a, b][..1] == [a];
    assert [x] + [y] == [x, y];
  }

  /** A condition of two non-blank clauses is their texts joined by " & ". */
  lemma TwoClauses(c: string, a: string, b: string, x: string, y: string)
    requires c != "" && Split(c, '&') == [a, b] && StripAll([a, b]) == [a, b]
    requires a != "" && b != "" && ClauseText(a) == Ok(x) && ClauseText(b) == Ok(y)
    ensures ConditionText(c) == Ok(x + " & " + y)
  {
    TwoClauseParts(ClauseText, a, b, x, y);
    JoinTwo(x, y, " & ");
  }

  /** Clauses are rendered in order and joined with " & ". */
  lemma PhaseAndLastSpurt(c: string)
    requires c == "phase==2&is_lastspurt=1"
    ensures ConditionText(c) == Ok("Final Leg & Last Spurt")
  {
    var a, b := "phase==2", "is_lastspurt=1";
    TwoClauseSplit(c, a, b);
    TwoClauseStrip(a, b);
    PhaseClause(a);
    LastSpurtClause(b);
    TwoClauses(c, a, b, "Final Leg", "Last Spurt");
    JoinedText("Final Leg", "Last Spurt");
  }

  lemma JoinedText(x: string, y: string)
    requires x == "Final Leg" && y == "Last Spurt"
    ensures x + " & " + y == "Final Leg & Last Spurt"
  {
  }

  lemma JoinTwo(x: string, y: string, sep: string)
    ensures Join([x, y], sep) == x + sep + y
  {
    assert [x, y][1..] == [y];
  }

  // --- "always==1" --------------------------------------------------------

  lemma AlwaysShape(t: string)
    requires t == "always==1"
    ensures forall m :: 0 <= m < |Operators| && m != 2 && m != 6 ==> !Contains(t, Operators[m])
    ensures Contains(t, "==") && SplitAt(t, "==").0 == "always"
    ensures Contains(t, "=") && SplitAt(t, "=").0 == "always"
    ensures !Contains(t, "_")
  {
    AlwaysOtherOperators(t);
    AlwaysSplits(t);
  }

  lemma AlwaysOtherOperators(t: string)
    requires t == "always==1"
    ensures forall m :: 0 <= m < |Operators| && m != 2 && m != 6 ==> !Contains(t, Operators[m])
    ensures !Contains(t, "_")
  {
    NotContains(t, ">=");
    NotContains(t, "<=");
    NotContains(t, "!=");
    NotContains(t, ">");
    NotContains(t, "<");
    NotContains(t, "_");
  }

  lemma AlwaysSplits(t: string)
    requires t == "always==1"
    ensures Contains(t, "==") && SplitAt(t, "==").0 == "always"
    ensures Contains(t, "=") && SplitAt(t, "=").0 == "always"
  {
    AlwaysFinds(t);
    assert t[..6] == "always";
    AlwaysKey("always");
  }

  lemma AlwaysFinds(t: string)
    requires t == "always==1"
    ensures Find(t, "==") == 6 && Find(t, "=") == 6
  {
    assert t[6..8] == "==" && t[6..7] == "=";
    FindAt(t, "==", 6);
    FindAt(t, "=", 6);
  }

  lemma AlwaysKey(k: string)
    requires k == "always"
    ensures Strip(k) == k
  {
  }

  lemma AlwaysTitle(t: string)
    requires t == "always==1"
    ensures Title(t) == "Always==1"
  {
    forall i | 0 <= i < |t|
      ensures Title(t)[i] == "Always==1"[i]
    {
      TitleAt(t, false, i);
    }
  }

  /** The `always` key does not drop its clause: the clause comes out
      title-cased, operator and value included. */
  lemma AlwaysClause(t: string)
    requires t == "always==1"
    ensures ClauseText(t) == Ok("Always==1")
  {
    AlwaysShape(t);
    AlwaysScan(t);
    ReplaceAbsent(t, "_", " ");
    AlwaysTitle(t);
  }

  /** A clause in which only `==` and `=` occur, each splitting off the key
      `always`, is kept whole: no operator ends the scan. */
  lemma AlwaysScan(t: string)
    requires forall m :: 0 <= m < |Operators| && m != 2 && m != 6 ==> !Contains(t, Operators[m])
    requires Contains(t, "==") && SplitAt(t, "==").0 == "always"
    requires Contains(t, "=") && SplitAt(t, "=").0 == "always"
    ensures ClauseText(t) == Ok(BareClause(t))
  {
    assert Operators[2] == "==" && Operators[6] == "=";
    ScanSkipsAbsent(t, 0, 2);
    AlwaysSkipped(t, 2);
    ScanSkipsAbsent(t, 3, 6);
    AlwaysSkipped(t, 6);
    assert ScanOperators(t, 7) == Ok(None);
    ScanRunsOut(t);
  }

  // --- single clauses with a comparison --------------------------------

  /** `phase>=1`: the named phase and a plus sign. */
  lemma PhaseFromClause(t: string)
    requires t == "phase>=1"
    ensures ClauseText(t) == Ok("Middle Leg+")
  {
    var key, value := "phase", "1";
    PhaseFromParts(t, key, value);
    PhaseFromRule(key, value);
    Unpadded(key, value);
    ClauseOfParts(key, 0, value);
  }

  lemma PhaseFromParts(t: string, key: string, value: string)
    requires t == "phase>=1" && key == "phase" && value == "1"
    ensures t == key + Operators[0] + value && Operators[0][0] !in key
  {
  }

  lemma PhaseFromRule(key: string, value: string)
    requires key == "phase" && value == "1"
    ensures RenderClause(key, Operators[0], value) == Ok(Text("Middle Leg+"))
  {
    assert Operators[0] == ">=";
    assert TermName(key, value, "Phase " + value) == "Middle Leg";
    assert "Middle Leg" + "+" == "Middle Leg+";
  }

  /** `order_rate>=70`: the back of the field, `100 - 70` percent. */
  lemma OrderRateClause(t: string)
    requires t == "order_rate>=70"
    ensures ClauseText(t) == Ok("Back 30%")
  {
    var key, value := "order_rate", "70";
    OrderRateParts(t, key, value);
    Unpadded(key, value);
    ClauseOfParts(key, 0, value);
    OrderRateText(value);
    ParseIntRoundTrip(70);
    OrderRateRule(key, value);
  }

  lemma OrderRateParts(t: string, key: string, value: string)
    requires t == "order_rate>=70" && key == "order_rate" && value == "70"
    ensures t == key + Operators[0] + value && Operators[0][0] !in key
  {
  }

  lemma OrderRateText(value: string)
    requires value == "70"
    ensures IntToStr(70) == value && "Back " + IntToStr(100 - 70) + "%" == "Back 30%"
  {
  }

  /** `order<=3`: the top places. */
  lemma OrderTopClause(t: string)
    requires t == "order<=3"
    ensures ClauseText(t) == Ok("Top 3")
  {
    var key, value := "order", "3";
    OrderTopParts(t, key, value);
    OrderTopRule(key, value);
    Unpadded(key, value);
    ClauseOfParts(key, 1, value);
  }

  lemma OrderTopParts(t: string, key: string, value: string)
    requires t == "order<=3" && key == "order" && value == "3"
    ensures t == key + Operators[1] + value && Operators[1][0] !in key
    ensures forall m :: 0 <= m < 1 ==> !Contains(t, Operators[m])
  {
    NotContains(t, ">=");
  }

  lemma OrderTopRule(key: string, value: string)
    requires key == "order" && value == "3"
    ensures RenderClause(key, Operators[1], value) == Ok(Text("Top 3"))
  {
    assert Operators[1] == "<=";
    assert "Top " + "3" == "Top 3";
  }

  /** `corner=0`: outside any corner. */
  lemma CornerClause(t: string)
    requires t == "corner=0"
    ensures ClauseText(t) == Ok("Not in corner")
  {
    var key, value := "corner", "0";
    CornerShape(t);
    CornerRule(key, value);
    Unpadded(key, value);
    ClauseOfParts(key, 6, value);
  }

  lemma CornerShape(t: string)
    requires t == "corner=0"
    ensures t == "corner" + Operators[6] + "0"
    ensures forall m :: 0 <= m < 6 ==> !Contains(t, Operators[m])
  {
    NotContains(t, ">=");
    NotContains(t, "<=");
    assert t[..6] == "corner" && t[7..] == "0" && t[6..8] == "=0";
    NotContainsExcept(t, "==", 6);
    NotContains(t, "!=");
    NotContains(t, ">");
    NotContains(t, "<");
  }

  lemma CornerRule(key: string, value: string)
    requires key == "corner" && value == "0"
    ensures Operators[6][0] !in key
    ensures RenderClause(key, Operators[6], value) == Ok(Text("Not in corner"))
  {
  }

  // --- "order_rate>=..." --------------------------------------------------

  lemma OrderRateRule(key: string, value: string)
    requires key == "order_rate"
    ensures ParseInt(value).None? ==> RenderClause(key, Operators[0], value) == Err(InvalidIntLiteral(value))
    ensures ParseInt(value).Some? ==>
              RenderClause(key, Operators[0], value) == Ok(Text("Back " + IntToStr(100 - ParseInt(value).value) + "%"))
  {
    assert Operators[0] == ">=";
  }

  /** A value that Python's `int()` rejects makes the whole condition
      raise. */
  lemma OrderRateNotANumber(key: string, value: string)
    requires key == "order_rate" && value == "abc"
    ensures RenderClause(key, Operators[0], value) == Err(InvalidIntLiteral("abc"))
  {
    OrderRateRule(key, value);
    assert Strip(value) == value;
  }

  lemma BadOrderRateParts(t: string, key: string, value: string)
    requires t == "order_rate>=abc" && key == "order_rate" && value == "abc"
    ensures t == key + Operators[0] + value && Operators[0][0] !in key
  {
  }

  /** The clause `order_rate>=abc` raises instead of rendering. */
  lemma BadOrderRateClause(t: string)
    requires t == "order_rate>=abc"
    ensures ClauseText(t) == Err(InvalidIntLiteral("abc"))
  {
    var key, value := "order_rate", "abc";
    BadOrderRateParts(t, key, value);
    OrderRateNotANumber(key, value);
    Unpadded(key, value);
    ClauseOfParts(key, 0, value);
  }
}
