/** `parse_condition`: turns a skill activation condition such as
    `phase==2&is_lastspurt==1` into readable text such as
    `Final Leg & Last Spurt`. A condition is a list of clauses joined by `&`;
    each clause is split at the first operator of a fixed list that occurs in
    it anywhere, and the (key, operator, value) triple is rendered by a
    per-key rule. */
module Condition {
  import opened Wrappers
  import opened PyStr

  /** The ValueError that `int(value)` raises for an `order_rate>=` clause
      whose value is not an integer literal. */
  datatype ParseError = InvalidIntLiteral(literal: string)

  /** An entry of CONDITION_TERMS: a table of value names, or a phrase. */
  datatype Term = Names(names: map<string, string>) | Phrase(text: string)

  const ConditionTerms: map<string, Term> := map[
    "phase" := Names(map["0" := "Opening Leg", "1" := "Middle Leg", "2" := "Final Leg"]),
    "distance_rate" := Phrase("% of race"),
    "order" := Phrase("position"),
    "order_rate" := Phrase("% of field"),
    "running_style" := Names(map["1" := "Front Runner", "2" := "Pace Chaser", "3" := "Late Surger", "4" := "End Closer"]),
    "corner" := Phrase("corner"),
    "is_lastspurt" := Phrase("in last spurt"),
    "is_finalcorner" := Phrase("in final corner"),
    "hp_per" := Phrase("% HP"),
    "activate_count_heal" := Phrase("recovery skills used"),
    "ground_type" := Names(map["1" := "Turf", "2" := "Dirt"]),
    "distance_type" := Names(map["1" := "Sprint", "2" := "Mile", "3" := "Medium", "4" := "Long"])
  ]

  /** `CONDITION_TERMS.get(key, {}).get(value, default)`. */
  function TermName(key: string, value: string, default: string): string {
    if key in ConditionTerms && ConditionTerms[key].Names? && value in ConditionTerms[key].names
    then ConditionTerms[key].names[value]
    else default
  }

  /** The operators, in the order they are tried: each longer operator comes
      before the shorter ones it contains. */
  const Operators: seq<string> := [">=", "<=", "==", "!=", ">", "<", "="]

  /** `term.split(op, 1)` followed by stripping both halves. */
  function SplitAt(term: string, op: string): (kv: (string, string))
    requires Contains(term, op)
  {
    var i := Find(term, op);
    (Strip(term[..i]), Strip(term[i + |op|..]))
  }

  /** The result of the per-key rules for one (key, op, value): a text, or the
      `continue` taken for the key `always`, which goes on to the next
      operator rather than to the next clause. */
  datatype Rendering = Text(text: string) | SkipAlways

  /** The per-key rendering rules, tried in the order the source lists them. */
  function RenderClause(key: string, op: string, value: string): Result<Rendering, ParseError> {
    if key == "phase" then
      var name := TermName("phase", value, "Phase " + value);
      Ok(Text(if op == "==" || op == "=" then name
              else if op == ">=" then name + "+"
              else "phase" + op + value))
    else if key == "distance_rate" then
      Ok(Text(if op == ">=" then "After " + value + "% of race"
              else if op == "<=" then "Before " + value + "% of race"
              else value + "% of race"))
    else if key == "order" then
      Ok(Text(if op == "<=" then "Top " + value
              else if op == ">=" then "Position " + value + "+"
              else "Position " + value))
    else if key == "order_rate" then
      if op == "<=" then Ok(Text("Top " + value + "%"))
      else if op == ">=" then
        match ParseInt(value)
        case None => Err(InvalidIntLiteral(value))
        case Some(n) => Ok(Text("Back " + IntToStr(100 - n) + "%"))
      else Ok(Text(value + "% of field"))
    else if key == "running_style" then
      Ok(Text(TermName("running_style", value, "Style " + value)))
    else if key == "corner" then
      Ok(Text(if value == "0" then "Not in corner" else "Corner " + value))
    else if key == "is_lastspurt" && value == "1" then
      Ok(Text("Last Spurt"))
    else if key == "is_finalcorner" && value == "1" then
      Ok(Text("Final Corner"))
    else if key == "hp_per" then
      Ok(Text(if op == "<=" then "HP \U{2264}" + value + "%"
              else if op == ">=" then "HP \U{2265}" + value + "%"
              else "HP " + value + "%"))
    else if key == "activate_count_heal" then
      Ok(Text("After " + value + " recovery skill(s)"))
    else if key == "ground_type" then
      Ok(Text(TermName("ground_type", value, "Ground " + value)))
    else if key == "distance_type" then
      Ok(Text(TermName("distance_type", value, "Distance " + value)))
    else if EndsWith(key, "_random") && value == "1" then
      Ok(Text("Random in " + Title(Replace(Replace(key, "_random", ""), "_", " "))))
    else if key == "always" then
      Ok(SkipAlways)
    else
      Ok(Text(Title(Replace(key, "_", " ")) + " " + op + " " + value))
  }

  /** The operator loop from position `k` on: `Some(text)` when some operator
      produced a text (the loop's `break`), `None` when the loop ran out. */
  function ScanOperators(term: string, k: nat): Result<Option<string>, ParseError>
    requires k <= |Operators|
    decreases |Operators| - k
  {
    if k == |Operators| then Ok(None)
    else if Contains(term, Operators[k]) then
      var (key, value) := SplitAt(term, Operators[k]);
      match RenderClause(key, Operators[k], value)
      case Err(e) => Err(e)
      case Ok(SkipAlways) => ScanOperators(term, k + 1)
      case Ok(Text(t)) => Ok(Some(t))
    else ScanOperators(term, k + 1)
  }

  /** The bare clause as the `for ... else` branch renders it. */
  function BareClause(term: string): string {
    Title(Replace(term, "_", " "))
  }

  /** The text one non-blank (stripped) clause contributes. */
  function ClauseText(term: string): Result<string, ParseError> {
    match ScanOperators(term, 0)
    case Err(e) => Err(e)
    case Ok(Some(t)) => Ok(t)
    case Ok(None) => Ok(BareClause(term))
  }

  /** Every clause stripped of surrounding whitespace. */
  function StripAll(terms: seq<string>): (r: seq<string>)
    ensures |r| == |terms|
    ensures forall i :: 0 <= i < |r| ==> r[i] == Strip(terms[i])
  {
    seq(|terms|, i requires 0 <= i < |terms| => Strip(terms[i]))
  }

  /** The parts contributed by a list of stripped clauses, left to right,
      each non-blank clause rendered by `render`; blank clauses contribute
      nothing and the first error is the one raised. */
  function Clauses(render: string -> Result<string, ParseError>, terms: seq<string>): Result<seq<string>, ParseError> {
    if terms == [] then Ok([])
    else
      match Clauses(render, terms[..|terms| - 1])
      case Err(e) => Err(e)
      case Ok(parts) =>
        var term := terms[|terms| - 1];
        if term == "" then Ok(parts)
        else
          match render(term)
          case Err(e) => Err(e)
          case Ok(p) => Ok(parts + [p])
  }

  /** The readable form of a whole condition. */
  function ConditionText(condition: string): Result<string, ParseError> {
    if condition == "" then Ok("Always")
    else
      match Clauses(ClauseText, StripAll(Split(condition, '&')))
      case Err(e) => Err(e)
      case Ok(parts) => Ok(if parts == [] then "Always" else Join(parts, " & "))
  }

  /** The operator loop of `parse_condition` for one stripped, non-blank
      clause, with the loop's `else` branch. */
  method RenderTerm(term: string) returns (r: Result<string, ParseError>)
    ensures r == ClauseText(term)
  {
    var k := 0;
    while k < |Operators|
      invariant 0 <= k <= |Operators|
      invariant ScanOperators(term, 0) == ScanOperators(term, k)
    {
      var op := Operators[k];
      if Contains(term, op) {
        var (key, value) := SplitAt(term, op);
        var rc := RenderClause(key, op, value);
        if rc.Err? {
          return Err(rc.error);
        }
        if rc.value.Text? {
          return Ok(rc.value.text);
        }
      }
      k := k + 1;
    }
    r := Ok(BareClause(term));
  }

  /** `parse_condition`, clause by clause. */
  method ParseCondition(condition: string) returns (r: Result<string, ParseError>)
    ensures r == ConditionText(condition)
  {
    if condition == "" {
      return Ok("Always");
    }
    var terms := Split(condition, '&');
    var res := RenderClauses(terms, ClauseText);
    if res.Err? {
      return Err(res.error);
    }
    var parts := res.value;
    r := Ok(if parts == [] then "Always" else Join(parts, " & "));
  }

  /** The clause loop of `parse_condition`: strip each clause, skip the blank
      ones, render the others in order and stop at the first error.
      `render` is the clause renderer as a function value. */
  method RenderClauses(terms: seq<string>, ghost render: string -> Result<string, ParseError>)
    returns (res: Result<seq<string>, ParseError>)
    requires forall t :: render(t) == ClauseText(t)
    ensures res == Clauses(render, StripAll(terms))
  {
    var parts: seq<string> := [];
    ghost var stripped := StripAll(terms);
    var i := 0;
    while i < |terms|
      invariant 0 <= i <= |terms|
      invariant Clauses(render, stripped[..i]) == Ok(parts)
    {
      var term := Strip(terms[i]);
      if term != "" {
        var part := RenderTerm(term);
        ClausesStep(render, stripped, i, parts);
        if part.Err? {
          ClausesErrorPersists(render, stripped, i + 1);
          return Err(part.error);
        }
        parts := parts + [part.value];
      } else {
        ClausesStep(render, stripped, i, parts);
      }
      i := i + 1;
    }
    assert stripped[..|terms|] == stripped;
    res := Ok(parts);
  }

  /** One clause more: a blank one adds nothing, a rendered one adds its
      text, a raising one raises. */
  lemma ClausesStep(render: string -> Result<string, ParseError>, terms: seq<string>, i: nat, parts: seq<string>)
    requires i < |terms| && Clauses(render, terms[..i]) == Ok(parts)
    ensures terms[i] == "" ==> Clauses(render, terms[..i + 1]) == Ok(parts)
    ensures terms[i] != "" && render(terms[i]).Err? ==> Clauses(render, terms[..i + 1]) == Err(render(terms[i]).error)
    ensures terms[i] != "" && render(terms[i]).Ok? ==> Clauses(render, terms[..i + 1]) == Ok(parts + [render(terms[i]).value])
  {
    assert terms[..i + 1][..i] == terms[..i];
  }

  // ---------------------------------------------------------------------
  // Properties
  // ---------------------------------------------------------------------

  /** Once a clause raises, the clauses after it are never looked at. */
  lemma {:induction false} ClausesErrorPersists(render: string -> Result<string, ParseError>, terms: seq<string>, i: nat)
    requires i <= |terms| && Clauses(render, terms[..i]).Err?
    ensures Clauses(render, terms) == Clauses(render, terms[..i])
    decreases |terms| - i
  {
    if i < |terms| {
      assert terms[..i + 1][..i] == terms[..i];
      ClausesErrorPersists(render, terms, i + 1);
    } else {
      assert terms[..i] == terms;
    }
  }

  /** Rendering is compositional: the parts of `a + b` are the parts of `a`
      followed by the parts of `b`, and the first error wins. */
  lemma {:induction false} ClausesAppend(render: string -> Result<string, ParseError>, a: seq<string>, b: seq<string>)
    ensures Clauses(render, a + b) == match Clauses(render, a)
                                      case Err(e) => Err(e)
                                      case Ok(pa) =>
                                        match Clauses(render, b)
                                        case Err(e) => Err(e)
                                        case Ok(pb) => Ok(pa + pb)
    decreases |b|
  {
    if b == [] {
      assert a + b == a;
      if Clauses(render, a).Ok? {
        assert Clauses(render, a).value + [] == Clauses(render, a).value;
      }
    } else {
      var b' := b[..|b| - 1];
      var ab := a + b;
      assert ab[..|ab| - 1] == a + b';
      assert ab[|ab| - 1] == b[|b| - 1];
      ClausesAppend(render, a, b');
      if Clauses(render, a).Ok? && Clauses(render, b').Ok? {
        var pa, pb' := Clauses(render, a).value, Clauses(render, b').value;
        var term := b[|b| - 1];
        if term != "" && render(term).Ok? {
          assert pa + (pb' + [render(term).value]) == (pa + pb') + [render(term).value];
        }
      }
    }
  }

  /** A clause that is blank once stripped contributes nothing. */
  lemma {:induction false} BlankClausesContributeNothing(render: string -> Result<string, ParseError>, terms: seq<string>)
    requires forall i :: 0 <= i < |terms| ==> terms[i] == ""
    ensures Clauses(render, terms) == Ok([])
  {
    if terms != [] {
      BlankClausesContributeNothing(render, terms[..|terms| - 1]);
    }
  }

  /** A condition whose `&`-separated clauses are all blank (the empty
      condition among them) reads as "Always". */
  lemma AlwaysWhenNothingToSay(condition: string)
    requires forall i :: 0 <= i < |Split(condition, '&')| ==> Strip(Split(condition, '&')[i]) == ""
    ensures ConditionText(condition) == Ok("Always")
  {
    BlankClausesContributeNothing(ClauseText, StripAll(Split(condition, '&')));
  }

  /** Operators that do not occur in the clause are passed over. */
  lemma {:induction false} ScanSkipsAbsent(term: string, j: nat, k: nat)
    requires j <= k <= |Operators|
    requires forall m :: j <= m < k ==> !Contains(term, Operators[m])
    ensures ScanOperators(term, j) == ScanOperators(term, k)
    decreases k - j
  {
    if j < k {
      ScanSkipsAbsent(term, j + 1, k);
    }
  }

  /** Only the key `always` makes the rules answer SkipAlways. */
  lemma SkipOnlyForAlways(key: string, op: string, value: string)
    ensures RenderClause(key, op, value) == Ok(SkipAlways) <==> key == "always"
  {
  }

  /** The first operator of the list that occurs anywhere in the clause
      decides the split, at that operator's first occurrence; unless the key
      is `always`, that split alone decides the text. */
  lemma FirstOperatorDecides(term: string, k: nat)
    requires k < |Operators| && Contains(term, Operators[k])
    requires forall m :: 0 <= m < k ==> !Contains(term, Operators[m])
    requires SplitAt(term, Operators[k]).0 != "always"
    ensures var kv := SplitAt(term, Operators[k]);
            var rc := RenderClause(kv.0, Operators[k], kv.1);
            && (rc.Err? ==> ClauseText(term) == Err(rc.error))
            && (rc.Ok? ==> rc.value.Text? && ClauseText(term) == Ok(rc.value.text))
  {
    ScanSkipsAbsent(term, 0, k);
    ScanStopsAt(term, k);
  }

  /** The scan at an operator that occurs, with a key other than `always`,
      ends there with that operator's rendering. */
  lemma ScanStopsAt(term: string, k: nat)
    requires k < |Operators| && Contains(term, Operators[k])
    requires SplitAt(term, Operators[k]).0 != "always"
    ensures var kv := SplitAt(term, Operators[k]);
            var rc := RenderClause(kv.0, Operators[k], kv.1);
            && (rc.Err? ==> ScanOperators(term, k) == Err(rc.error))
            && (rc.Ok? ==> rc.value.Text? && ScanOperators(term, k) == Ok(Some(rc.value.text)))
  {
    var (key, value) := SplitAt(term, Operators[k]);
    SkipOnlyForAlways(key, Operators[k], value);
  }

  /** `is_lastspurt` and `is_finalcorner` have a rule for the value "1"
      only; any other value gets the generic rendering. */
  lemma FlagFallsThrough(key: string, op: string, value: string)
    requires key == "is_lastspurt" || key == "is_finalcorner"
    requires value != "1"
    ensures RenderClause(key, op, value) == Ok(Text(Title(Replace(key, "_", " ")) + " " + op + " " + value))
  {
    assert key[|key| - 1] != 'm';
    assert !EndsWith(key, "_random") by {
      if |key| >= 7 {
        assert key[|key| - 7..][6] == key[|key| - 1];
      }
    }
  }

  /** A clause written `key op value`, where no earlier operator of the list
      occurs and `op` does not start inside the key, renders by the rule for
      that key. */
  lemma ClauseOfParts(key: string, k: nat, value: string)
    requires k < |Operators| && Operators[k][0] !in key
    requires forall m :: 0 <= m < k ==> !Contains(key + Operators[k] + value, Operators[m])
    requires Strip(key) == key && Strip(value) == value && key != "always"
    ensures var rc := RenderClause(key, Operators[k], value);
            && (rc.Err? ==> ClauseText(key + Operators[k] + value) == Err(rc.error))
            && (rc.Ok? ==> rc.value.Text? && ClauseText(key + Operators[k] + value) == Ok(rc.value.text))
  {
    SplitOfParts(key, Operators[k], value);
    FirstOperatorDecides(key + Operators[k] + value, k);
  }

  /** `key op value` splits back into `key` and `value` when `op` does not
      start inside the key and neither part has surrounding whitespace. */
  lemma SplitOfParts(key: string, op: string, value: string)
    requires |op| > 0 && op[0] !in key
    requires Strip(key) == key && Strip(value) == value
    ensures Contains(key + op + value, op) && SplitAt(key + op + value, op) == (key, value)
  {
    var t := key + op + value;
    assert t[..|key|] == key;
    assert t[|key|..|key| + |op|] == op;
    assert t[|key| + |op|..] == value;
    FindAt(t, op, |key|);
  }

  /** An operator that splits off the key `always` passes the scan on to
      the next operator. */
  lemma AlwaysSkipped(term: string, k: nat)
    requires k < |Operators| && Contains(term, Operators[k])
    requires SplitAt(term, Operators[k]).0 == "always"
    ensures ScanOperators(term, k) == ScanOperators(term, k + 1)
  {
    var kv := SplitAt(term, Operators[k]);
    SkipOnlyForAlways(kv.0, Operators[k], kv.1);
  }

  /** A scan that runs out leaves the bare clause. */
  lemma ScanRunsOut(term: string)
    requires ScanOperators(term, 0) == Ok(None)
    ensures ClauseText(term) == Ok(BareClause(term))
  {
  }

  /** A clause whose key is `always` under every operator that occurs in it
      is NOT dropped: the `continue` only moves to the next operator, the loop
      runs out, and the bare clause is title-cased into the output. */
  lemma {:induction false} AlwaysClauseIsKept(term: string, k: nat)
    requires k <= |Operators|
    requires forall m :: k <= m < |Operators| && Contains(term, Operators[m]) ==>
               SplitAt(term, Operators[m]).0 == "always"
    ensures ScanOperators(term, k) == Ok(None)
    ensures k == 0 ==> ClauseText(term) == Ok(BareClause(term))
    decreases |Operators| - k
  {
    if k < |Operators| {
      AlwaysClauseIsKept(term, k + 1);
    }
  }
}
