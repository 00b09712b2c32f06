/** The transforms of `generate_data.py` that turn the community
    translation dump (a dict of text categories, each a dict from text ID to
    string) into the Global reference tables. */
module Generate {
  import opened Wrappers
  import opened PyStr
  import opened Tables
  import opened Corrections
  import Resolvers

  /** One text category: text ID to string. */
  type Category = map<string, string>

  /** The whole dump: category number to category. */
  type TextData = map<string, Category>

  /** `text_data.get(name, {})`. */
  function CategoryOf(d: TextData, name: string): (c: Category)
    ensures name in d ==> c == d[name]
    ensures name !in d ==> c == map[]
  {
    if name in d then d[name] else map[]
  }

  // ---------------------------------------------------------------------
  // Mapping a category through apply_corrections
  // ---------------------------------------------------------------------

  /** The entries of `cat` whose key is in `keys`, each value mapped by `f`. */
  function MapOn(cat: Category, f: string -> string, keys: set<string>): Category {
    map k | k in keys && k in cat :: f(cat[k])
  }

  /** The keys among `keys` whose value `f` changes. */
  function ChangedBy(cat: Category, f: string -> string, keys: set<string>): set<string> {
    set k | k in keys && k in cat && f(cat[k]) != cat[k]
  }

  /** `apply_corrections` with a fixed table, as a function value. */
  function Corrector(table: Table): string -> string {
    s => Corrected(s, table)
  }

  /** Every entry of `cat`, corrected. */
  function CorrectAll(cat: Category, table: Table): Category {
    MapOn(cat, Corrector(table), cat.Keys)
  }

  /** The keys of `cat` whose value the correction changes. */
  function ChangedKeys(cat: Category, table: Table): set<string> {
    ChangedBy(cat, Corrector(table), cat.Keys)
  }

  /** One iteration of the loop below: adding key `k` to the done set
      writes its mapped value. */
  lemma MapStep(base: Category, cat: Category, f: string -> string, done: set<string>, k: string,
                result: Category)
    requires k in cat && k !in done
    requires result == base + MapOn(cat, f, done)
    ensures result[k := f(cat[k])] == base + MapOn(cat, f, done + {k})
  {
  }

  /** ... and counts it when its value changed. */
  lemma CountStep(cat: Category, f: string -> string, done: set<string>, k: string, changed: nat)
    requires k in cat && k !in done
    requires changed == |ChangedBy(cat, f, done)|
    ensures (if f(cat[k]) != cat[k] then changed + 1 else changed) == |ChangedBy(cat, f, done + {k})|
  {
    var next := ChangedBy(cat, f, done + {k});
    if f(cat[k]) != cat[k] {
      assert next == ChangedBy(cat, f, done) + {k};
    } else {
      assert next == ChangedBy(cat, f, done);
    }
  }

  /** One iteration of the loop below: correct the entry at `k`, write it
      and count it when it changed. */
  method CorrectEntry(ghost base: Category, cat: Category, table: Table, ghost f: string -> string,
                      ghost done: set<string>, k: string, result: Category, changed: nat)
    returns (result': Category, changed': nat)
    requires forall s :: f(s) == Corrected(s, table)
    requires k in cat && k !in done
    requires result == base + MapOn(cat, f, done)
    requires changed == |ChangedBy(cat, f, done)|
    ensures result' == base + MapOn(cat, f, done + {k})
    ensures changed' == |ChangedBy(cat, f, done + {k})|
  {
    var name := cat[k];
    var corrected := ApplyCorrections(name, table);
    MapStep(base, cat, f, done, k, result);
    CountStep(cat, f, done, k, changed);
    changed' := changed;
    if corrected != name {
      changed' := changed + 1;
    }
    result' := result[k := corrected];
  }

  /** The loop shared by `generate_sparknames`, `generate_racenames` and
      `generate_nicknames`: write every entry of `cat`, corrected, over
      `result0`, counting the entries the correction changed. */
  method CorrectInto(result0: Category, cat: Category, table: Table)
    returns (result: Category, changed: nat)
    ensures result == result0 + CorrectAll(cat, table)
    ensures changed == |ChangedKeys(cat, table)|
  {
    result, changed := CorrectLoop(result0, cat, table, Corrector(table));
  }

  /** The loop itself, stated over `f`, the correction as a function value. */
  method CorrectLoop(result0: Category, cat: Category, table: Table, ghost f: string -> string)
    returns (result: Category, changed: nat)
    requires forall s :: f(s) == Corrected(s, table)
    ensures result == result0 + MapOn(cat, f, cat.Keys)
    ensures changed == |ChangedBy(cat, f, cat.Keys)|
  {
    result := result0;
    changed := 0;
    var todo := cat.Keys;
    while todo != {}
      invariant todo <= cat.Keys
      invariant result == result0 + MapOn(cat, f, cat.Keys - todo)
      invariant changed == |ChangedBy(cat, f, cat.Keys - todo)|
      decreases |todo|
    {
      var k :| k in todo;
      ghost var done := cat.Keys - todo;
      result, changed := CorrectEntry(result0, cat, table, f, done, k, result, changed);
      assert ChangedBy(cat, f, cat.Keys - (todo - {k})) == ChangedBy(cat, f, done + {k}) by {
        assert cat.Keys - (todo - {k}) == done + {k};
      }
      assert result == result0 + MapOn(cat, f, cat.Keys - (todo - {k})) by {
        assert cat.Keys - (todo - {k}) == done + {k};
      }
      todo := todo - {k};
    }
    assert cat.Keys - todo == cat.Keys;
    assert ChangedBy(cat, f, cat.Keys - todo) == ChangedBy(cat, f, cat.Keys);
  }

  // ---------------------------------------------------------------------
  // The generators
  // ---------------------------------------------------------------------

  /** `generate_sparknames`: category 147, corrected, and how many values
      the correction changed. */
  method GenerateSparknames(d: TextData) returns (result: Category, correctedCount: nat)
    ensures result == CorrectAll(CategoryOf(d, "147"), SparkNameCorrections)
    ensures correctedCount == |ChangedKeys(CategoryOf(d, "147"), SparkNameCorrections)|
  {
    var cat := CategoryOf(d, "147");
    result, correctedCount := CorrectInto(map[], cat, SparkNameCorrections);
    assert map[] + CorrectAll(cat, SparkNameCorrections) == CorrectAll(cat, SparkNameCorrections);
  }

  /** `generate_racenames`: category 36, corrected. */
  method GenerateRacenames(d: TextData) returns (result: Category)
    ensures result == CorrectAll(CategoryOf(d, "36"), SparkNameCorrections)
  {
    var cat := CategoryOf(d, "36");
    var ignored;
    result, ignored := CorrectInto(map[], cat, SparkNameCorrections);
    assert map[] + CorrectAll(cat, SparkNameCorrections) == CorrectAll(cat, SparkNameCorrections);
  }

  /** `generate_outfitnames`: a copy of category 14. */
  function GenerateOutfitnames(d: TextData): (r: Category)
    ensures "14" in d ==> r == d["14"]
    ensures "14" !in d ==> r == map[]
  {
    CategoryOf(d, "14")
  }

  /** The nickname table: category 151 corrected, overridden by category 130
      corrected. */
  function Nicknames(d: TextData): Category {
    CorrectAll(CategoryOf(d, "151"), NicknameCorrections) + CorrectAll(CategoryOf(d, "130"), NicknameCorrections)
  }

  /** `generate_nicknames`. */
  method GenerateNicknames(d: TextData) returns (result: Category)
    ensures result == Nicknames(d)
  {
    var cat130 := CategoryOf(d, "130");
    var cat151 := CategoryOf(d, "151");
    var ignored;
    result, ignored := CorrectInto(map[], cat151, NicknameCorrections);
    assert map[] + CorrectAll(cat151, NicknameCorrections) == CorrectAll(cat151, NicknameCorrections);
    result, ignored := CorrectInto(result, cat130, NicknameCorrections);
  }

  /** A race title cleaned: newlines become spaces, then whitespace is
      stripped from both ends. */
  function CleanTitle(name: string): string {
    Strip(Replace(name, "\n", " "))
  }

  /** The race title table: category 111, each value cleaned. */
  function Racetitles(d: TextData): Category {
    var cat := CategoryOf(d, "111");
    MapOn(cat, CleanTitle, cat.Keys)
  }

  /** `generate_racetitles`. */
  method GenerateRacetitles(d: TextData) returns (result: Category)
    ensures result == Racetitles(d)
  {
    var cat := CategoryOf(d, "111");
    result := CleanLoop(cat, CleanTitle);
  }

  /** Its loop, stated over `f`, the cleaning as a function value. */
  method CleanLoop(cat: Category, ghost f: string -> string) returns (result: Category)
    requires forall s :: f(s) == CleanTitle(s)
    ensures result == map[] + MapOn(cat, f, cat.Keys)
  {
    result := map[];
    var todo := cat.Keys;
    while todo != {}
      invariant todo <= cat.Keys
      invariant result == map[] + MapOn(cat, f, cat.Keys - todo)
      decreases |todo|
    {
      var k :| k in todo;
      ghost var done := cat.Keys - todo;
      var cleaned := CleanTitle(cat[k]);
      MapStep(map[], cat, f, done, k, result);
      result := result[k := cleaned];
      assert cat.Keys - (todo - {k}) == done + {k};
      todo := todo - {k};
    }
    assert cat.Keys - todo == cat.Keys;
  }

  /** The support card name table: one entry per ID of categories 75, 76
      and 77, holding the name, title and character each has. */
  function SupportCardNames(d: TextData): map<string, CardNames> {
    var c75, c76, c77 := CategoryOf(d, "75"), CategoryOf(d, "76"), CategoryOf(d, "77");
    map id | id in c75.Keys + c76.Keys + c77.Keys :: CardEntry(c75, c76, c77, id)
  }

  /** The entry for one card: each field present when its category has the ID. */
  function CardEntry(c75: Category, c76: Category, c77: Category, id: string): CardNames {
    CardNames(
      if id in c75 then Some(c75[id]) else None,
      if id in c76 then Some(c76[id]) else None,
      if id in c77 then Some(c77[id]) else None)
  }

  /** `generate_supportcardnames`. The source visits the IDs in sorted
      order, which a map does not record. */
  method GenerateSupportcardnames(d: TextData) returns (result: map<string, CardNames>)
    ensures result == SupportCardNames(d)
  {
    var c75, c76, c77 := CategoryOf(d, "75"), CategoryOf(d, "76"), CategoryOf(d, "77");
    var allIds := c75.Keys + c76.Keys + c77.Keys;
    result := map[];
    var todo := allIds;
    while todo != {}
      invariant todo <= allIds
      invariant result == map id | id in allIds - todo :: CardEntry(c75, c76, c77, id)
      decreases |todo|
    {
      var id :| id in todo;
      var name, title, chara := None, None, None;
      if id in c75 {
        name := Some(c75[id]);
      }
      if id in c76 {
        title := Some(c76[id]);
      }
      if id in c77 {
        chara := Some(c77[id]);
      }
      result := result[id := CardNames(name, title, chara)];
      todo := todo - {id};
    }
  }

  // ---------------------------------------------------------------------
  // Properties
  // ---------------------------------------------------------------------

  /** The spark and race name tables keep their category's keys, with each
      value passed through the correction; values in which no correction
      key occurs are copied unchanged. */
  lemma CorrectedTableShape(cat: Category, table: Table)
    ensures CorrectAll(cat, table).Keys == cat.Keys
    ensures forall k :: k in cat ==> CorrectAll(cat, table)[k] == Corrected(cat[k], table)
    ensures forall k :: k in cat && (forall i :: 0 <= i < |table| ==> !Contains(cat[k], table[i].0)) ==>
              CorrectAll(cat, table)[k] == cat[k]
  {
    forall k | k in cat && (forall i :: 0 <= i < |table| ==> !Contains(cat[k], table[i].0))
      ensures CorrectAll(cat, table)[k] == cat[k]
    {
      NoKeyNoChange(cat[k], table);
    }
  }

  /** The count of corrected spark names is at most the number of entries,
      and zero exactly when every value comes out unchanged. */
  lemma CorrectedCountBounds(cat: Category, table: Table)
    ensures |ChangedKeys(cat, table)| <= |cat|
    ensures |ChangedKeys(cat, table)| == 0 <==> CorrectAll(cat, table) == cat
  {
    var ch := ChangedKeys(cat, table);
    assert ch <= cat.Keys;
    SubsetCard(ch, cat.Keys);
    if CorrectAll(cat, table) == cat {
      assert ch == {};
    }
    if |ch| == 0 {
      assert forall k :: k in cat ==> k !in ch;
    }
  }

  lemma {:induction false} SubsetCard(a: set<string>, b: set<string>)
    requires a <= b
    ensures |a| <= |b|
    decreases b
  {
    if a != {} {
      var x :| x in a;
      SubsetCard(a - {x}, b - {x});
    }
  }

  /** The nickname table holds the IDs of both categories; an ID of
      category 130 takes its corrected 130 value, any other its corrected
      151 value. */
  lemma NicknamesMerge(d: TextData)
    ensures var c130, c151 := CategoryOf(d, "130"), CategoryOf(d, "151");
            && Nicknames(d).Keys == c151.Keys + c130.Keys
            && (forall k :: k in c130 ==> Nicknames(d)[k] == Corrected(c130[k], NicknameCorrections))
            && (forall k :: k in c151 && k !in c130 ==> Nicknames(d)[k] == Corrected(c151[k], NicknameCorrections))
  {
  }

  /** A cleaned title holds no newline and neither starts nor ends with
      whitespace. */
  lemma {:induction false} CleanTitleShape(name: string)
    ensures var c := CleanTitle(name);
            && (forall i :: 0 <= i < |c| ==> c[i] != '\n')
            && (c == [] || (!IsSpace(c[0]) && !IsSpace(c[|c| - 1])))
  {
    var r := Replace(name, ['\n'], [' ']);
    ReplaceChar(name, '\n', ' ');
    var c := Strip(r);
    forall i | 0 <= i < |c| ensures c[i] != '\n' {
      StripChars(r, i);
      var j :| 0 <= j < |r| && r[j] == c[i];
    }
  }

  /** Cleaning a cleaned title changes nothing. */
  lemma {:induction false} CleanTitleIdempotent(name: string)
    ensures CleanTitle(CleanTitle(name)) == CleanTitle(name)
  {
    var c := CleanTitle(name);
    CleanTitleShape(name);
    ReplaceChar(c, '\n', ' ');
    assert Replace(c, ['\n'], [' ']) == c;
  }

  /** Every race title table value is clean, and the keys are category 111's. */
  lemma RacetitlesClean(d: TextData)
    ensures Racetitles(d).Keys == CategoryOf(d, "111").Keys
    ensures forall k :: k in Racetitles(d) ==>
              var v := Racetitles(d)[k];
              && (forall i :: 0 <= i < |v| ==> v[i] != '\n')
              && (v == [] || (!IsSpace(v[0]) && !IsSpace(v[|v| - 1])))
  {
    var cat := CategoryOf(d, "111");
    forall k | k in Racetitles(d)
      ensures var v := Racetitles(d)[k];
              && (forall i :: 0 <= i < |v| ==> v[i] != '\n')
              && (v == [] || (!IsSpace(v[0]) && !IsSpace(v[|v| - 1])))
    {
      CleanTitleShape(cat[k]);
    }
  }

  /** The support card table holds the union of the three categories' IDs,
      and each field is present exactly when its category has the ID, with
      the category's value. */
  lemma SupportCardNamesShape(d: TextData)
    ensures var c75, c76, c77 := CategoryOf(d, "75"), CategoryOf(d, "76"), CategoryOf(d, "77");
            var r := SupportCardNames(d);
            && r.Keys == c75.Keys + c76.Keys + c77.Keys
            && (forall id :: id in r ==>
                  && (r[id].name.Some? <==> id in c75)
                  && (r[id].title.Some? <==> id in c76)
                  && (r[id].chara.Some? <==> id in c77)
                  && (id in c75 ==> r[id].name.value == c75[id])
                  && (id in c76 ==> r[id].title.value == c76[id])
                  && (id in c77 ==> r[id].chara.value == c77[id]))
  {
  }

  /** What `get_support_card_info` reads from a generated table: each field
      is the value its category holds for the card's decimal ID, or none. */
  lemma GeneratedSupportCardInfo(t: Tables, d: TextData, supportCardId: int)
    requires t.supportcardnames == SupportCardNames(d)
    ensures var key := IntToStr(supportCardId);
            var info := Resolvers.SupportCardInfo(t, supportCardId);
            && info.name == (if key in CategoryOf(d, "75") then Some(CategoryOf(d, "75")[key]) else None)
            && info.title == (if key in CategoryOf(d, "76") then Some(CategoryOf(d, "76")[key]) else None)
            && info.chara == (if key in CategoryOf(d, "77") then Some(CategoryOf(d, "77")[key]) else None)
  {
  }
}
