/** The handful of Python `str` and `int` built-ins that the enrichment code
    relies on, with the semantics CPython gives them on the inputs that occur
    here: `str(n)`, `int(s)`, `p in s`, `s.split(c)`, `s.strip()`,
    `s.replace(a, b)`, `s.title()`, `s.endswith(x)`, `sep.join(xs)` and the
    fixed-point format specs `:.Nf`. Strings are sequences of code points;
    letter case is modelled for ASCII letters only. */
module PyStr {
  import opened Wrappers

  // ---------------------------------------------------------------------
  // Characters
  // ---------------------------------------------------------------------

  predicate IsDigit(c: char) {
    '0' <= c <= '9'
  }

  function DigitVal(c: char): nat
    requires IsDigit(c)
  {
    c as int - '0' as int
  }

  function DigitChar(d: nat): (c: char)
    requires d < 10
    ensures IsDigit(c) && DigitVal(c) == d
  {
    ('0' as int + d) as char
  }

  predicate AllDigits(s: string) {
    forall i :: 0 <= i < |s| ==> IsDigit(s[i])
  }

  /** Python's `str.isspace()` for one character. */
  predicate IsSpace(c: char) {
    var k := c as int;
    (9 <= k <= 13) || (28 <= k <= 32) || k == 0x85 || k == 0xA0 || k == 0x1680
    || (0x2000 <= k <= 0x200A) || k == 0x2028 || k == 0x2029 || k == 0x202F
    || k == 0x205F || k == 0x3000
  }

  /** Letters that have case (ASCII only in this model). */
  predicate IsCased(c: char) {
    ('a' <= c <= 'z') || ('A' <= c <= 'Z')
  }

  function Upper(c: char): (u: char)
    ensures IsCased(u) == IsCased(c)
  {
    if 'a' <= c <= 'z' then (c as int - 32) as char else c
  }

  function Lower(c: char): (l: char)
    ensures IsCased(l) == IsCased(c)
  {
    if 'A' <= c <= 'Z' then (c as int + 32) as char else c
  }

  // ---------------------------------------------------------------------
  // Decimal notation: str(n) and int(s)
  // ---------------------------------------------------------------------

  function Pow10(k: nat): (p: nat)
    ensures p > 0
  {
    if k == 0 then 1 else 10 * Pow10(k - 1)
  }

  /** The value of a string of decimal digits, most significant first. */
  function DigitsValue(s: string): nat
    requires AllDigits(s)
  {
    if s == [] then 0 else DigitsValue(s[..|s| - 1]) * 10 + DigitVal(s[|s| - 1])
  }

  /** `str(n)` for a natural number: digits without leading zeros. */
  function NatToStr(n: nat): (s: string)
    ensures |s| > 0 && AllDigits(s)
    ensures |s| > 1 ==> s[0] != '0'
  {
    if n < 10 then [DigitChar(n)] else NatToStr(n / 10) + [DigitChar(n % 10)]
  }

  /** `str(i)` for any Python int. */
  function IntToStr(i: int): (s: string)
    ensures |s| > 0
  {
    if i < 0 then "-" + NatToStr(-i) else NatToStr(i)
  }

  /** `x // 10**k`: `x` without its last `k` decimal digits. */
  function DropDigits(x: nat, k: nat): nat {
    if k == 0 then x else DropDigits(x / 10, k - 1)
  }

  /** The last `k` decimal digits of `x`, zero-padded to exactly `k` characters. */
  function Digits(x: nat, k: nat): (s: string)
    ensures |s| == k && AllDigits(s)
  {
    if k == 0 then "" else Digits(x / 10, k - 1) + [DigitChar(x % 10)]
  }

  /** Python's rule for the body of `int(s)`: digits, optionally separated by
      single underscores (PEP 515). */
  predicate IsDigitGroup(s: string) {
    && |s| > 0 && IsDigit(s[0]) && IsDigit(s[|s| - 1])
    && DigitsOrUnderscores(s)
    && forall i :: 0 < i < |s| - 1 && s[i] == '_' ==> IsDigit(s[i - 1]) && IsDigit(s[i + 1])
  }

  predicate DigitsOrUnderscores(s: string) {
    forall i :: 0 <= i < |s| ==> IsDigit(s[i]) || s[i] == '_'
  }

  function DropUnderscores(s: string): (r: string)
    requires DigitsOrUnderscores(s)
    ensures AllDigits(r) && |r| <= |s|
  {
    if s == [] then "" else (if s[0] == '_' then "" else [s[0]]) + DropUnderscores(s[1..])
  }

  /** Python's `int(s)` in base 10: surrounding whitespace, an optional sign and
      an (underscore-separated) run of ASCII digits; anything else raises
      ValueError, modelled as None. */
  function ParseInt(s: string): Option<int> {
    var t := Strip(s);
    if |t| > 0 && (t[0] == '-' || t[0] == '+') then
      if IsDigitGroup(t[1..]) then
        var v: int := GroupValueOf(t[1..]);
        Some(if t[0] == '-' then -v else v)
      else None
    else if IsDigitGroup(t) then Some(GroupValueOf(t))
    else None
  }

  function GroupValueOf(s: string): nat
    requires IsDigitGroup(s)
  {
    DigitsValue(DropUnderscores(s))
  }

  // ---------------------------------------------------------------------
  // Arithmetic facts about decimal notation
  // ---------------------------------------------------------------------

  lemma {:induction false} MulAtLeast(d: nat, k: nat)
    requires k >= 1
    ensures d * k >= d
  {
    if k > 1 {
      MulAtLeast(d, k - 1);
      assert d * k == d * (k - 1) + d;
    }
  }

  lemma DivModUnique(x: int, d: int, q: int, r: int)
    requires d > 0 && 0 <= r < d && x == d * q + r
    ensures x / d == q && x % d == r
  {
    var q', r' := x / d, x % d;
    assert d * q + r == d * q' + r';
    if q > q' {
      var k: nat := q - q';
      assert d * q == d * q' + d * k;
      MulAtLeast(d, k);
    } else if q' > q {
      var k: nat := q' - q;
      assert d * q' == d * q + d * k;
      MulAtLeast(d, k);
    }
  }

  lemma DivModStep(n: nat, p: nat)
    requires p > 0
    ensures n / (10 * p) == (n / 10) / p
    ensures n % (10 * p) == 10 * ((n / 10) % p) + n % 10
  {
    var q, r2, r1 := (n / 10) / p, (n / 10) % p, n % 10;
    assert n / 10 == p * q + r2;
    assert n == 10 * (n / 10) + r1;
    assert n == (10 * p) * q + (10 * r2 + r1);
    DivModUnique(n, 10 * p, q, 10 * r2 + r1);
  }

  lemma {:induction false} DigitsValueAppend(s: string, c: char)
    requires AllDigits(s) && IsDigit(c)
    ensures AllDigits(s + [c]) && DigitsValue(s + [c]) == DigitsValue(s) * 10 + DigitVal(c)
  {
    assert (s + [c])[..|s|] == s;
  }

  /** Reading back what `str(n)` wrote gives `n`. */
  lemma {:induction false} NatToStrValue(n: nat)
    ensures DigitsValue(NatToStr(n)) == n
  {
    if n >= 10 {
      NatToStrValue(n / 10);
      DigitsValueAppend(NatToStr(n / 10), DigitChar(n % 10));
    }
  }

  /** The zero-padded digits denote the remainder modulo a power of ten. */
  lemma {:induction false} DigitsValueOfDigits(x: nat, k: nat)
    ensures DigitsValue(Digits(x, k)) == x % Pow10(k)
  {
    if k > 0 {
      DigitsValueOfDigits(x / 10, k - 1);
      DigitsValueAppend(Digits(x / 10, k - 1), DigitChar(x % 10));
      DivModStep(x, Pow10(k - 1));
    }
  }

  /** `len(str(n))` is the number of decimal digits of `n`. */
  lemma {:induction false} NatToStrLength(n: nat, k: nat)
    requires Pow10(k) <= n < Pow10(k + 1)
    ensures |NatToStr(n)| == k + 1
  {
    if k > 0 {
      DivModStep(n, Pow10(k - 1));
      DivModStep(n, Pow10(k));
      assert n / 10 < Pow10(k) by { DivModUnique(n, 10, n / 10, n % 10); }
      assert Pow10(k - 1) <= n / 10;
      NatToStrLength(n / 10, k - 1);
    } else {
      assert n < 10;
    }
  }

  /** `str(n)` has `L` characters exactly when `10**(L-1) <= n < 10**L`
      (for `L > 1`). */
  lemma {:induction false} NatToStrBounds(n: nat)
    ensures n < Pow10(|NatToStr(n)|)
    ensures |NatToStr(n)| > 1 ==> Pow10(|NatToStr(n)| - 1) <= n
  {
    if n >= 10 {
      NatToStrBounds(n / 10);
      assert |NatToStr(n)| == |NatToStr(n / 10)| + 1;
    }
  }

  /** Splitting `str(n)` before its last `k` characters: the prefix is
      `str(n // 10**k)`, the suffix the last `k` digits of `n`. */
  lemma {:induction false} NatToStrSplit(n: nat, k: nat)
    requires Pow10(k) <= n
    ensures NatToStr(n) == NatToStr(n / Pow10(k)) + Digits(n, k)
  {
    if k > 0 {
      DivModStep(n, Pow10(k - 1));
      assert n / 10 >= Pow10(k - 1) by {
        DivModUnique(n, 10, n / 10, n % 10);
      }
      NatToStrSplit(n / 10, k - 1);
      assert NatToStr(n) == NatToStr(n / 10) + [DigitChar(n % 10)];
    }
  }

  /** `str(n)[-2:]` read back as an integer: the last two decimal digits. */
  lemma LastTwoDigitsValue(n: nat)
    ensures var s := NatToStr(n);
            var t := if |s| >= 2 then s[|s| - 2..] else s;
            AllDigits(t) && DigitsValue(t) == n % 100
  {
    var s := NatToStr(n);
    if n >= 100 {
      NatToStrSplit(n, 2);
      assert s[|s| - 2..] == Digits(n, 2);
      DigitsValueOfDigits(n, 2);
    } else if n >= 10 {
      NatToStrValue(n);
      assert |s| == 2 by { NatToStrLength(n, 1); }
      assert s[|s| - 2..] == s;
    } else {
      NatToStrValue(n);
    }
  }

  // ---------------------------------------------------------------------
  // Substring search: `p in s`, `s.find(p)`
  // ---------------------------------------------------------------------

  predicate OccursAt(s: string, p: string, i: nat) {
    i + |p| <= |s| && s[i..i + |p|] == p
  }

  /** The first index at or after `i` where `p` occurs in `s`, or -1. */
  function FindFrom(s: string, p: string, i: nat): (r: int)
    requires i <= |s|
    ensures r == -1 || (i <= r && OccursAt(s, p, r))
    ensures forall j :: i <= j && (r == -1 || j < r) ==> !OccursAt(s, p, j)
    decreases |s| - i
  {
    if i + |p| > |s| then -1
    else if s[i..i + |p|] == p then i
    else FindFrom(s, p, i + 1)
  }

  /** Python's `s.find(p)`. */
  function Find(s: string, p: string): int {
    FindFrom(s, p, 0)
  }

  /** Python's `p in s`. */
  predicate Contains(s: string, p: string) {
    Find(s, p) >= 0
  }

  lemma ContainsIff(s: string, p: string)
    ensures Contains(s, p) <==> exists j :: OccursAt(s, p, j)
  {
  }

  /** Python's `s.startswith(prefix)`. */
  predicate StartsWith(s: string, prefix: string) {
    |prefix| <= |s| && s[..|prefix|] == prefix
  }

  /** Python's `s.endswith(suffix)`. */
  predicate EndsWith(s: string, suffix: string) {
    |suffix| <= |s| && s[|s| - |suffix|..] == suffix
  }

  // ---------------------------------------------------------------------
  // split / join
  // ---------------------------------------------------------------------

  /** Python's `s.split(c)` for a one-character separator. */
  function Split(s: string, c: char): (parts: seq<string>)
    ensures |parts| > 0
    ensures forall i :: 0 <= i < |parts| ==> c !in parts[i]
  {
    if s == [] then [""]
    else
      var rest := Split(s[1..], c);
      if s[0] == c then [""] + rest else [[s[0]] + rest[0]] + rest[1..]
  }

  /** Python's `sep.join(parts)`. */
  function Join(parts: seq<string>, sep: string): string {
    if parts == [] then ""
    else if |parts| == 1 then parts[0]
    else parts[0] + sep + Join(parts[1..], sep)
  }

  /** Joining the pieces of a split with the separator restores the string. */
  lemma {:induction false} SplitJoin(s: string, c: char)
    ensures Join(Split(s, c), [c]) == s
  {
    if s != [] {
      var rest := Split(s[1..], c);
      SplitJoin(s[1..], c);
      if s[0] == c {
        assert Split(s, c) == [""] + rest;
        assert ([""] + rest)[1..] == rest;
        assert s == [c] + s[1..];
      } else if |rest| == 1 {
        assert Split(s, c) == [[s[0]] + rest[0]];
        assert s == [s[0]] + s[1..];
      } else {
        var parts := [[s[0]] + rest[0]] + rest[1..];
        assert parts[1..] == rest[1..];
        assert Join(rest, [c]) == rest[0] + [c] + Join(rest[1..], [c]);
        assert s == [s[0]] + s[1..];
      }
    }
  }

  /** A string without the separator splits into itself alone. */
  lemma {:induction false} SplitNoSeparator(s: string, c: char)
    requires c !in s
    ensures Split(s, c) == [s]
  {
    if s != [] {
      assert s[0] in s;
      assert forall x :: x in s[1..] ==> x in s;
      SplitNoSeparator(s[1..], c);
      assert s == [s[0]] + s[1..];
    }
  }

  /** Splitting at the first separator: the piece before it, then the split
      of the rest. */
  lemma {:induction false} SplitFirstSeparator(a: string, b: string, c: char)
    requires c !in a
    ensures Split(a + [c] + b, c) == [a] + Split(b, c)
  {
    var s := a + [c] + b;
    if a == [] {
      assert s[0] == c && s[1..] == b;
    } else {
      assert a[0] in a;
      assert forall x :: x in a[1..] ==> x in a;
      assert s[0] == a[0] && s[1..] == a[1..] + [c] + b;
      SplitFirstSeparator(a[1..], b, c);
      assert [a[0]] + a[1..] == a;
    }
  }

  /** `p` is not in `s` when its first character is not. */
  lemma NotContains(s: string, p: string)
    requires |p| > 0 && p[0] !in s
    ensures !Contains(s, p)
  {
    forall j | 0 <= j && j + |p| <= |s|
      ensures !OccursAt(s, p, j)
    {
      assert s[j..j + |p|][0] == s[j];
    }
  }

  /** `p` is not in `s` when its first character occurs only at `i` and `p`
      does not occur there. */
  lemma NotContainsExcept(s: string, p: string, i: nat)
    requires |p| > 0 && i < |s| && p[0] !in s[..i] && p[0] !in s[i + 1..] && !OccursAt(s, p, i)
    ensures !Contains(s, p)
  {
    forall j | 0 <= j && j + |p| <= |s| && j != i
      ensures !OccursAt(s, p, j)
    {
      assert s[j..j + |p|][0] == s[j];
      if j < i {
        assert s[..i][j] == s[j];
      } else {
        assert s[i + 1..][j - i - 1] == s[j];
      }
    }
  }

  /** The first occurrence of `p` is at `i` when `p` occurs there and its
      first character does not occur before. */
  lemma FindAt(s: string, p: string, i: nat)
    requires |p| > 0 && OccursAt(s, p, i) && p[0] !in s[..i]
    ensures Find(s, p) == i && Contains(s, p)
  {
    forall j | 0 <= j < i
      ensures !OccursAt(s, p, j)
    {
      assert s[..i][j] == s[j];
      assert j + |p| <= |s| ==> s[j..j + |p|][0] == s[j];
    }
  }

  // ---------------------------------------------------------------------
  // strip
  // ---------------------------------------------------------------------

  /** How many whitespace characters `s` starts with. */
  function LeadingSpaces(s: string): (k: nat)
    ensures k <= |s|
    ensures forall i :: 0 <= i < k ==> IsSpace(s[i])
    ensures k < |s| ==> !IsSpace(s[k])
  {
    if s != [] && IsSpace(s[0]) then 1 + LeadingSpaces(s[1..]) else 0
  }

  /** How many whitespace characters `s` ends with. */
  function TrailingSpaces(s: string): (k: nat)
    ensures k <= |s|
    ensures forall i :: |s| - k <= i < |s| ==> IsSpace(s[i])
    ensures k < |s| ==> !IsSpace(s[|s| - k - 1])
  {
    if s != [] && IsSpace(s[|s| - 1]) then 1 + TrailingSpaces(s[..|s| - 1]) else 0
  }

  /** Python's `s.strip()`: `s` without its leading and trailing whitespace. */
  function Strip(s: string): (r: string)
    ensures r == [] || (!IsSpace(r[0]) && !IsSpace(r[|r| - 1]))
    ensures r == [] <==> forall i :: 0 <= i < |s| ==> IsSpace(s[i])
    ensures (s == [] || (!IsSpace(s[0]) && !IsSpace(s[|s| - 1]))) ==> r == s
  {
    var a := LeadingSpaces(s);
    if a == |s| then ""
    else
      var k := TrailingSpaces(s);
      assert !IsSpace(s[a]);
      s[a..|s| - k]
  }

  /** Every character that strip keeps comes from its input. */
  lemma StripChars(s: string, i: nat)
    requires i < |Strip(s)|
    ensures Strip(s)[i] in s
  {
    var a := LeadingSpaces(s);
    assert Strip(s)[i] == s[a + i];
  }

  // ---------------------------------------------------------------------
  // replace
  // ---------------------------------------------------------------------

  /** `s.replace("", new)`: `rep` before every character and at the end. */
  function Interleave(s: string, rep: string): string {
    if s == [] then rep else rep + [s[0]] + Interleave(s[1..], rep)
  }

  /** Python's `s.replace(old, new)`: every non-overlapping occurrence of
      `pat`, scanning left to right. */
  function Replace(s: string, pat: string, rep: string): string
    decreases |s|
  {
    if pat == [] then Interleave(s, rep)
    else if |s| < |pat| then s
    else if s[..|pat|] == pat then rep + Replace(s[|pat|..], pat, rep)
    else [s[0]] + Replace(s[1..], pat, rep)
  }

  /** Replacing a substring that does not occur changes nothing. */
  lemma {:induction false} ReplaceAbsent(s: string, pat: string, rep: string)
    requires pat != [] && !Contains(s, pat)
    ensures Replace(s, pat, rep) == s
  {
    if |s| >= |pat| {
      assert !OccursAt(s, pat, 0);
      assert !Contains(s[1..], pat) by {
        forall j: nat | OccursAt(s[1..], pat, j) ensures OccursAt(s, pat, j + 1) {
          assert s[1..][j..j + |pat|] == s[j + 1..j + 1 + |pat|];
        }
      }
      ReplaceAbsent(s[1..], pat, rep);
    }
  }

  /** Replacing one character by another is a character-wise substitution. */
  lemma {:induction false} ReplaceChar(s: string, a: char, b: char)
    ensures |Replace(s, [a], [b])| == |s|
    ensures forall i :: 0 <= i < |s| ==> Replace(s, [a], [b])[i] == if s[i] == a then b else s[i]
  {
    if s != [] {
      ReplaceChar(s[1..], a, b);
      var r := Replace(s, [a], [b]);
      if s[0] == a {
        assert s[..1] == [a];
        assert r == [b] + Replace(s[1..], [a], [b]);
      } else {
        assert s[..1] != [a];
        assert r == [s[0]] + Replace(s[1..], [a], [b]);
      }
    }
  }

  // ---------------------------------------------------------------------
  // title
  // ---------------------------------------------------------------------

  function TitleFrom(s: string, prevCased: bool): (r: string)
    ensures |r| == |s|
  {
    if s == [] then ""
    else [if prevCased then Lower(s[0]) else Upper(s[0])] + TitleFrom(s[1..], IsCased(s[0]))
  }

  /** Python's `s.title()`: a cased letter is upper-cased when the character
      before it is not cased, and lower-cased otherwise. */
  function Title(s: string): string {
    TitleFrom(s, false)
  }

  /** Character-by-character description of `title()`. */
  lemma {:induction false} TitleAt(s: string, prevCased: bool, i: nat)
    requires i < |s|
    ensures var before := if i == 0 then prevCased else IsCased(s[i - 1]);
            TitleFrom(s, prevCased)[i] == if before then Lower(s[i]) else Upper(s[i])
  {
    if i > 0 {
      TitleAt(s[1..], IsCased(s[0]), i - 1);
    }
  }

  lemma {:induction false} TitleFromIdempotent(s: string, prevCased: bool)
    ensures TitleFrom(TitleFrom(s, prevCased), prevCased) == TitleFrom(s, prevCased)
  {
    if s != [] {
      var c := if prevCased then Lower(s[0]) else Upper(s[0]);
      var t := TitleFrom(s, prevCased);
      assert t == [c] + TitleFrom(s[1..], IsCased(s[0]));
      assert t[1..] == TitleFrom(s[1..], IsCased(s[0]));
      TitleFromIdempotent(s[1..], IsCased(s[0]));
      assert (if prevCased then Lower(c) else Upper(c)) == c;
    }
  }

  /** Title-casing twice is the same as title-casing once. */
  lemma TitleIdempotent(s: string)
    ensures Title(Title(s)) == Title(s)
  {
    TitleFromIdempotent(s, false);
  }

  // ---------------------------------------------------------------------
  // int round trip
  // ---------------------------------------------------------------------

  lemma AllDigitsGroup(s: string)
    requires |s| > 0 && AllDigits(s)
    ensures IsDigitGroup(s) && GroupValueOf(s) == DigitsValue(s)
  {
    NoUnderscores(s);
  }

  lemma {:induction false} NoUnderscores(s: string)
    requires AllDigits(s)
    ensures DigitsOrUnderscores(s) && DropUnderscores(s) == s
  {
    if s != [] {
      NoUnderscores(s[1..]);
      assert s == [s[0]] + s[1..];
    }
  }

  /** `int(str(i)) == i`. */
  lemma ParseIntRoundTrip(i: int)
    ensures ParseInt(IntToStr(i)) == Some(i)
  {
    var n: nat := if i < 0 then -i else i;
    NatToStrValue(n);
    if i < 0 {
      var t := IntToStr(i);
      assert t[1..] == NatToStr(n);
      ParseNegative(t);
    } else {
      ParseDigits(NatToStr(n));
    }
  }

  /** `int(t)` of a minus sign followed by a non-empty run of digits is
      minus the digits' decimal value. */
  lemma ParseNegative(t: string)
    requires |t| > 1 && t[0] == '-' && AllDigits(t[1..])
    ensures ParseInt(t) == Some(-(DigitsValue(t[1..]) as int))
  {
    var s := t[1..];
    AllDigitsGroup(s);
    assert t[|t| - 1] == s[|s| - 1];
    assert !IsSpace(t[0]) && !IsSpace(t[|t| - 1]);
    assert Strip(t) == t;
  }

  /** `int(s)` of a non-empty run of digits is its decimal value. */
  lemma ParseDigits(s: string)
    requires |s| > 0 && AllDigits(s)
    ensures ParseInt(s) == Some(DigitsValue(s))
  {
    AllDigitsGroup(s);
    assert !IsSpace(s[0]) && !IsSpace(s[|s| - 1]);
    assert Strip(s) == s;
    assert IsDigit(s[0]);
  }

  /** Different integers have different decimal keys. */
  lemma IntToStrInjective(a: int, b: int)
    ensures IntToStr(a) == IntToStr(b) <==> a == b
  {
    ParseIntRoundTrip(a);
    ParseIntRoundTrip(b);
  }

  // ---------------------------------------------------------------------
  // Fixed-point formatting: f"{m / 10**scale:.{places}f}"
  // ---------------------------------------------------------------------

  /** `a / d` rounded to the nearest integer, ties to even. */
  function RoundHalfEven(a: nat, d: nat): (n: nat)
    requires d > 0
    ensures a / d <= n <= a / d + 1
  {
    var q, r := a / d, a % d;
    if 2 * r > d || (2 * r == d && q % 2 == 1) then q + 1 else q
  }

  /** `f"{m / 10**scale:.{places}f}"` computed on the exact rational value:
      a sign for negative `m`, the integer part, and `places` decimals. */
  function FormatFixed(m: int, scale: nat, places: nat): string
    requires places <= scale
  {
    var a: nat := if m < 0 then -m else m;
    var n := RoundHalfEven(a, Pow10(scale - places));
    (if m < 0 then "-" else "") + UnsignedFixed(n, places)
  }

  /** Reads a decimal with exactly `places` digits after the point (as
      FormatFixed writes it) as an integer count of `10**-places` units. */
  function ParseFixed(s: string, places: nat): Option<int> {
    if |s| > 0 && s[0] == '-' then
      match ParseUnsignedFixed(s[1..], places)
      case Some(v) => Some(-(v as int))
      case None => None
    else
      match ParseUnsignedFixed(s, places)
      case Some(v) => Some(v as int)
      case None => None
  }

  function ParseUnsignedFixed(s: string, places: nat): Option<nat> {
    if places == 0 then
      if |s| > 0 && AllDigits(s) then Some(DigitsValue(s)) else None
    else if |s| >= places + 2 && s[|s| - places - 1] == '.' then
      var whole, frac := s[..|s| - places - 1], s[|s| - places..];
      if AllDigits(whole) && AllDigits(frac)
      then Some(DigitsValue(whole) * Pow10(places) + DigitsValue(frac))
      else None
    else None
  }

  lemma MulTen(d: nat, p: nat)
    ensures d * (10 * p) == 10 * (d * p)
  {
  }

  /** Cutting `x` before its last `k` digits loses nothing. */
  lemma {:induction false} DropDigitsSplit(x: nat, k: nat)
    ensures DropDigits(x, k) * Pow10(k) + DigitsValue(Digits(x, k)) == x
  {
    if k > 0 {
      var d, p, v := DropDigits(x / 10, k - 1), Pow10(k - 1), DigitsValue(Digits(x / 10, k - 1));
      DropDigitsSplit(x / 10, k - 1);
      assert d * p + v == x / 10;
      DigitsValueAppend(Digits(x / 10, k - 1), DigitChar(x % 10));
      assert DigitsValue(Digits(x, k)) == v * 10 + x % 10;
      assert Pow10(k) == 10 * p;
      MulTen(d, p);
      assert x == 10 * (x / 10) + x % 10;
    }
  }

  function UnsignedFixed(n: nat, places: nat): string {
    NatToStr(DropDigits(n, places)) + (if places == 0 then "" else "." + Digits(n, places))
  }

  lemma UnsignedFixedRoundTrip(n: nat, places: nat)
    ensures ParseUnsignedFixed(UnsignedFixed(n, places), places) == Some(n)
  {
    var whole := NatToStr(DropDigits(n, places));
    var body := UnsignedFixed(n, places);
    NatToStrValue(DropDigits(n, places));
    DropDigitsSplit(n, places);
    if places > 0 {
      assert |body| == |whole| + 1 + places;
      assert body[|body| - places - 1] == '.';
      assert body[..|body| - places - 1] == whole;
      assert body[|body| - places..] == Digits(n, places);
    } else {
      assert body == whole;
    }
  }

  /** Reading back a formatted value gives the rounded count of units. */
  lemma FormatFixedRoundTrip(m: int, scale: nat, places: nat)
    requires places <= scale
    ensures var n := RoundHalfEven(if m < 0 then -m else m, Pow10(scale - places));
            ParseFixed(FormatFixed(m, scale, places), places) == Some(if m < 0 then -(n as int) else n)
  {
    var a: nat := if m < 0 then -m else m;
    var n := RoundHalfEven(a, Pow10(scale - places));
    var body := UnsignedFixed(n, places);
    var s := FormatFixed(m, scale, places);
    assert s == (if m < 0 then "-" else "") + body;
    UnsignedFixedRoundTrip(n, places);
    assert body[0] == NatToStr(DropDigits(n, places))[0];
    if m < 0 {
      assert s[1..] == body;
    } else {
      assert s == body;
    }
  }

  /** With as many places as the scale, the formatted value is exact. */
  lemma FormatFixedExact(m: int, scale: nat)
    ensures ParseFixed(FormatFixed(m, scale, scale), scale) == Some(m)
  {
    FormatFixedRoundTrip(m, scale, scale);
    var a: nat := if m < 0 then -m else m;
    assert RoundHalfEven(a, 1) == a;
  }

  /** The rounding error is at most half a unit of the last place shown. */
  lemma RoundHalfEvenBound(a: nat, d: nat)
    requires d > 0
    ensures var n := RoundHalfEven(a, d);
            2 * (n * d - a) <= d && 2 * (a - n * d) <= d
  {
    var q, r := a / d, a % d;
    assert a == q * d + r;
    if 2 * r > d || (2 * r == d && q % 2 == 1) {
      assert (q + 1) * d == q * d + d;
    }
  }

  /** When `m` is a whole number of displayed units, no rounding happens. */
  lemma RoundHalfEvenMultiple(k: nat, d: nat)
    requires d > 0
    ensures RoundHalfEven(k * d, d) == k
  {
    DivModUnique(k * d, d, k, 0);
  }

  /** A value printed to two fewer places than its scale, read back: the
      printed number is within half a unit of the last place of `m`, and
      exact when `m` has nothing below that place. */
  lemma FormatFixedNear(m: int, scale: nat, places: nat) returns (v: int)
    requires places + 2 == scale
    ensures ParseFixed(FormatFixed(m, scale, places), places) == Some(v)
    ensures -50 <= 100 * v - m <= 50
    ensures m % 100 == 0 ==> v == m / 100
  {
    FormatFixedRoundTrip(m, scale, places);
    assert Pow10(scale - places) == 100;
    v := SignedHundredths(m);
  }

  /** `m` rounded half-to-even to a multiple of 100 with its sign kept
      apart, as the formatting does: within 50 of `m`, exact on multiples. */
  lemma SignedHundredths(m: int) returns (v: int)
    ensures var n := RoundHalfEven(if m < 0 then -m else m, 100);
            v == if m < 0 then -(n as int) else n
    ensures -50 <= 100 * v - m <= 50
    ensures m % 100 == 0 ==> v == m / 100
  {
    var a: nat := if m < 0 then -m else m;
    var n := RoundHalfEven(a, 100);
    RoundHalfEvenBound(a, 100);
    v := if m < 0 then -(n as int) else n;
    if m % 100 == 0 {
      RoundHalfEvenMultiple(a / 100, 100);
      assert a / 100 * 100 == a;
    }
  }
}
