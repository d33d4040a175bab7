/**
 * The two token patterns the statistics extractor tests a container's
 * trimmed text against, and the value it reads out of a percentage.
 *
 * Percentages are exact: a value is a number of hundredths of a percent,
 * so "73%" is 7300 and "5.05%" is 505. The pattern allows at most two
 * integer and two fractional digits, so every value is representable.
 */
module Tokens {
  import opened Wrappers
  import opened Text

  // ---------------------------------------------------------------------
  // Percentages: /^<?\s*\d{1,2}(\.\d{1,2})?%$/
  // ---------------------------------------------------------------------

  /** `\d{1,2}`. */
  predicate IsDigits12(s: string) {
    1 <= |s| <= 2 && forall i :: 0 <= i < |s| ==> IsDigit(s[i])
  }

  /** `\d{1,2}(\.\d{1,2})?`: one or two digits, then optionally a dot and one or two digits. */
  predicate IsNumeral(s: string) {
    || IsDigits12(s)
    || (3 <= |s| && s[1] == '.' && IsDigits12(s[..1]) && IsDigits12(s[2..]))
    || (4 <= |s| && s[2] == '.' && IsDigits12(s[..2]) && IsDigits12(s[3..]))
  }

  /** `<?`: drops one leading `<`, if there is one. */
  function DropLess(s: string): string {
    if |s| > 0 && s[0] == '<' then s[1..] else s
  }

  /**
   * The percentage test. The pattern matches deterministically: `<` is
   * neither white space nor a digit, and white space is not a digit, so
   * `<?` and `\s*` both take as much as they can. What remains between
   * them and the final `%` must be a numeral.
   */
  predicate IsPercentToken(t: string) {
    |t| > 0 && t[|t| - 1] == '%' && IsNumeral(TrimStart(DropLess(t[..|t| - 1])))
  }

  /** The characters of the class `[<>\s%]` that the value extraction deletes. */
  predicate IsStripped(c: char) {
    c == '<' || c == '>' || c == '%' || IsSpace(c)
  }

  /** `s.replace(/[<>\s%]/g, '')`: `s` with every character of the class deleted, the rest kept in order. */
  function Strip(s: string): (r: string)
    ensures |r| <= |s|
  {
    if s == [] then [] else (if IsStripped(s[0]) then [] else [s[0]]) + Strip(s[1..])
  }

  /** The value of one or two decimal digits. */
  function Digits12Value(s: string): (v: nat)
    requires IsDigits12(s)
    ensures v <= 99
  {
    if |s| == 1 then DigitValue(s[0]) else DigitValue(s[0]) * 10 + DigitValue(s[1])
  }

  /** One or two fractional digits, in hundredths: ".5" is 50, ".05" is 5. */
  function FractionHundredths(f: string): (v: nat)
    requires IsDigits12(f)
    ensures v <= 99
  {
    if |f| == 1 then DigitValue(f[0]) * 10 else DigitValue(f[0]) * 10 + DigitValue(f[1])
  }

  /** `parseFloat` of a numeral, in hundredths. */
  function NumeralHundredths(s: string): (v: nat)
    requires IsNumeral(s)
    ensures v <= 9999
  {
    if IsDigits12(s) then Digits12Value(s) * 100
    else if s[1] == '.' then Digits12Value(s[..1]) * 100 + FractionHundredths(s[2..])
    else Digits12Value(s[..2]) * 100 + FractionHundredths(s[3..])
  }

  /** `parseFloat(text.replace(/[<>\s%]/g, ''))` of a percentage token, in hundredths. */
  function PercentValue(t: string): (v: nat)
    requires IsPercentToken(t)
    ensures v <= 9999
  {
    StripPercentToken(t);
    NumeralHundredths(Strip(t))
  }

  lemma {:induction false} StripConcat(a: string, b: string)
    ensures Strip(a + b) == Strip(a) + Strip(b)
  {
    if a == [] {
      assert a + b == b;
    } else {
      assert (a + b)[0] == a[0];
      assert (a + b)[1..] == a[1..] + b;
      StripConcat(a[1..], b);
      var h := if IsStripped(a[0]) then [] else [a[0]];
      assert Strip(a + b) == h + Strip(a[1..] + b);
      assert Strip(a) == h + Strip(a[1..]);
    }
  }

  lemma {:induction false} StripAll(s: string)
    requires forall i :: 0 <= i < |s| ==> IsStripped(s[i])
    ensures Strip(s) == []
  {
    if s != [] {
      StripAll(s[1..]);
    }
  }

  lemma {:induction false} StripNone(s: string)
    requires forall i :: 0 <= i < |s| ==> !IsStripped(s[i])
    ensures Strip(s) == s
  {
    if s != [] {
      StripNone(s[1..]);
    }
  }

  /** A numeral is made of digits and at most one dot, none of which is deleted. */
  lemma {:induction false} NumeralKept(n: string)
    requires IsNumeral(n)
    ensures Strip(n) == n
  {
    if !IsDigits12(n) {
      var k := if n[1] == '.' then 1 else 2;
      assert n[..k] + n[k..] == n;
      assert forall i :: 0 <= i < k ==> n[i] == n[..k][i];
      assert forall i :: k < i < |n| ==> n[i] == n[k + 1..][i - k - 1];
    }
    StripNone(n);
  }

  /** `DropLess` removes the one leading `<`, if there is one, and nothing else. */
  lemma {:induction false} DropLessSplit(x: string)
    ensures x == (if |x| > 0 && x[0] == '<' then "<" else "") + DropLess(x)
  {
  }

  lemma {:induction false} StripDropLess(x: string)
    ensures Strip(DropLess(x)) == Strip(x)
  {
    if |x| > 0 && x[0] == '<' {
      assert x == "<" + x[1..];
      StripConcat("<", x[1..]);
    }
  }

  lemma {:induction false} StripTrimStart(y: string)
    ensures Strip(TrimStart(y)) == Strip(y)
  {
    if |y| > 0 && IsSpace(y[0]) {
      StripTrimStart(y[1..]);
    }
  }

  /** Deleting `<`, white space and `%` from a token leaves exactly its numeral. */
  lemma {:induction false} StripPercentToken(t: string)
    requires IsPercentToken(t)
    ensures Strip(t) == TrimStart(DropLess(t[..|t| - 1]))
  {
    var x := t[..|t| - 1];
    assert t == x + "%";
    StripConcat(x, "%");
    assert Strip("%") == [];
    assert Strip(t) == Strip(x);
    StripDropLess(x);
    StripTrimStart(DropLess(x));
    NumeralKept(TrimStart(DropLess(x)));
  }

  /** A percentage token as the pattern reads it: an optional `<`, white space, the whole part and an optional fraction. */
  datatype PercentParts = PercentParts(less: bool, spaces: string, whole: string, fraction: Option<string>)

  /** The parts the pattern admits. */
  predicate WellFormed(p: PercentParts) {
    && (forall i :: 0 <= i < |p.spaces| ==> IsSpace(p.spaces[i]))
    && IsDigits12(p.whole)
    && (p.fraction.Some? ==> IsDigits12(p.fraction.value))
  }

  /** The numeral of the parts: the whole part, then the dot and the fraction when there is one. */
  function NumeralOf(p: PercentParts): string {
    p.whole + (if p.fraction.Some? then "." + p.fraction.value else "")
  }

  /** The token text that the parts spell. */
  function Render(p: PercentParts): string {
    (if p.less then "<" else "") + p.spaces + NumeralOf(p) + "%"
  }

  /** The decimal number the parts denote, in hundredths; the `<` means nothing. */
  function PartsValue(p: PercentParts): nat
    requires WellFormed(p)
  {
    Digits12Value(p.whole) * 100 + (if p.fraction.Some? then FractionHundredths(p.fraction.value) else 0)
  }

  /** The numeral of well-formed parts passes `IsNumeral` and is read back as their value. */
  lemma {:induction false} NumeralOfParts(p: PercentParts)
    requires WellFormed(p)
    ensures IsNumeral(NumeralOf(p)) && NumeralHundredths(NumeralOf(p)) == PartsValue(p)
  {
    var num := NumeralOf(p);
    if p.fraction.Some? {
      var f := p.fraction.value;
      if |p.whole| == 1 {
        assert num[..1] == p.whole && num[1] == '.' && num[2..] == f;
      } else {
        assert num[..2] == p.whole && num[2] == '.' && num[3..] == f;
      }
      assert !IsDigits12(num);
    }
  }

  /** Removing the final `%` of a rendered token and then its `<` leaves the white space and the numeral. */
  lemma {:induction false} RenderBody(p: PercentParts)
    requires WellFormed(p)
    ensures |Render(p)| > 0 && Render(p)[|Render(p)| - 1] == '%'
    ensures DropLess(Render(p)[..|Render(p)| - 1]) == p.spaces + NumeralOf(p)
  {
    var t := Render(p);
    var lt: string := if p.less then "<" else "";
    assert t[..|t| - 1] == lt + (p.spaces + NumeralOf(p));
    var body := p.spaces + NumeralOf(p);
    if p.spaces != [] {
      assert body[0] == p.spaces[0];
    } else {
      assert body[0] == p.whole[0];
    }
    assert body[0] != '<';
  }

  /** Soundness of the test: every well-formed token passes, and its value is the decimal its digits spell. */
  lemma {:induction false} RenderIsPercentToken(p: PercentParts)
    requires WellFormed(p)
    ensures IsPercentToken(Render(p))
    ensures PercentValue(Render(p)) == PartsValue(p)
  {
    var t := Render(p);
    RenderBody(p);
    NumeralOfParts(p);
    TrimStartOver(p.spaces, NumeralOf(p));
    assert IsPercentToken(t);
    StripPercentToken(t);
  }

  /** White space in front of a string that does not start with white space is exactly what `TrimStart` drops. */
  lemma {:induction false} TrimStartOver(sp: string, s: string)
    requires forall i :: 0 <= i < |sp| ==> IsSpace(sp[i])
    requires s != [] ==> !IsSpace(s[0])
    ensures TrimStart(sp + s) == s
  {
    if sp != [] {
      assert (sp + s)[1..] == sp[1..] + s;
      TrimStartOver(sp[1..], s);
    }
  }

  /** The parts of a numeral: the whole part and the fraction. */
  function SplitNumeral(less: bool, spaces: string, n: string): (p: PercentParts)
    requires IsNumeral(n)
    ensures p.less == less && p.spaces == spaces && NumeralOf(p) == n
    ensures IsDigits12(p.whole) && (p.fraction.Some? ==> IsDigits12(p.fraction.value))
  {
    if IsDigits12(n) then PercentParts(less, spaces, n, None)
    else if n[1] == '.' then PercentParts(less, spaces, n[..1], Some(n[2..]))
    else PercentParts(less, spaces, n[..2], Some(n[3..]))
  }

  /** `TrimStart` splits a string into the white space it drops and what it keeps. */
  lemma {:induction false} TrimStartSplit(y: string, sp: string)
    requires sp == y[..|y| - |TrimStart(y)|]
    ensures y == sp + TrimStart(y)
    ensures forall i :: 0 <= i < |sp| ==> IsSpace(sp[i])
  {
    TrimStartDropsSpace(y);
    assert forall i :: 0 <= i < |sp| ==> sp[i] == y[i];
  }

  lemma {:induction false} Regroup(lt: string, sp: string, n: string, x: string, y: string, t: string)
    requires y == sp + n && x == lt + y && t == x + "%"
    ensures t == lt + sp + n + "%"
  {
  }

  /** Completeness of the test: every token that passes is spelled by well-formed parts. */
  function ParseParts(t: string): (p: PercentParts)
    requires IsPercentToken(t)
    ensures WellFormed(p) && Render(p) == t
  {
    var x := t[..|t| - 1];
    assert t == x + "%";
    var y := DropLess(x);
    DropLessSplit(x);
    var n := TrimStart(y);
    var sp := y[..|y| - |n|];
    TrimStartSplit(y, sp);
    var p := SplitNumeral(|x| > 0 && x[0] == '<', sp, n);
    Regroup(if p.less then "<" else "", sp, n, x, y, t);
    p
  }

  /** The test accepts exactly the texts the pattern describes. */
  lemma {:induction false} PercentTokenIff(t: string)
    ensures IsPercentToken(t) <==> exists p :: WellFormed(p) && Render(p) == t
  {
    if IsPercentToken(t) {
      var p := ParseParts(t);
      assert WellFormed(p) && Render(p) == t;
    }
    if p :| WellFormed(p) && Render(p) == t {
      RenderIsPercentToken(p);
    }
  }

  /** "73%" reads as 73. */
  lemma {:induction false} PercentExample73()
    ensures IsPercentToken("73%") && PercentValue("73%") == 7300
  {
    var p := PercentParts(false, "", "73", None);
    assert NumeralOf(p) == "73";
    assert Render(p) == "73%";
    RenderIsPercentToken(p);
  }

  /** "<5%" reads as 5: the `<` is dropped rather than meaning "less than". */
  lemma {:induction false} PercentExampleLess()
    ensures IsPercentToken("<5%") && PercentValue("<5%") == 500
  {
    var p := PercentParts(true, "", "5", None);
    assert NumeralOf(p) == "5";
    assert Render(p) == "<5%";
    RenderIsPercentToken(p);
  }

  /** White space may follow the `<`, and a fraction is read to the hundredth. */
  lemma {:induction false} PercentExampleFraction()
    ensures IsPercentToken("< 52.05%") && PercentValue("< 52.05%") == 5205
  {
    var p := PercentParts(true, " ", "52", Some("05"));
    assert NumeralOf(p) == "52.05";
    assert Render(p) == "< 52.05%";
    RenderIsPercentToken(p);
  }

  /** Three integer digits are refused. */
  lemma {:induction false} PercentRefusesHundred()
    ensures !IsPercentToken("100%")
  {
    assert "100%"[..3] == "100";
    assert !IsSpace('1');
    assert DropLess("100") == "100";
    assert TrimStart("100") == "100";
  }

  /** A dot must be followed by a digit. */
  lemma {:induction false} PercentRefusesBareDot()
    ensures !IsPercentToken("5.%")
  {
    assert "5.%"[..2] == "5.";
    assert !IsSpace('5');
    assert DropLess("5.") == "5.";
    assert TrimStart("5.") == "5.";
    assert !IsDigit("5."[1]);
  }

  // ---------------------------------------------------------------------
  // Tier grades: /^[SABCDEF\?][\+\-]?$/i
  // ---------------------------------------------------------------------

  /**
   * `[SABCDEF\?]` under the `i` flag. Without the `u` flag a non-ASCII
   * character never matches an ASCII one case-insensitively, so this is
   * the ASCII letters in both cases and `?`.
   */
  predicate IsGradeLetter(c: char) {
    UpperChar(c) in "SABCDEF?"
  }

  /** The tier test on a container's trimmed text. */
  predicate IsTierToken(t: string) {
    && (|t| == 1 || |t| == 2)
    && IsGradeLetter(t[0])
    && (|t| == 2 ==> t[1] == '+' || t[1] == '-')
  }

  /** A tier grade as stored: an upper-case letter of the alphabet or `?`, then optionally `+` or `-`. */
  predicate IsGrade(g: string) {
    && (|g| == 1 || |g| == 2)
    && g[0] in "SABCDEF?"
    && (|g| == 2 ==> g[1] == '+' || g[1] == '-')
  }

  /** Upper-casing a tier token gives a grade and keeps its suffix: "s-" becomes "S-". */
  lemma {:induction false} TierTokenGrade(t: string)
    requires IsTierToken(t)
    ensures IsGrade(Upper(t)) && Upper(t)[1..] == t[1..]
  {
  }

  /** Grades are exactly the upper-case tier tokens. */
  lemma {:induction false} GradeIsTierToken(g: string)
    ensures IsGrade(g) <==> IsTierToken(g) && Upper(g) == g
  {
    if IsTierToken(g) && Upper(g) == g {
      assert UpperChar(g[0]) == g[0];
    }
  }

  lemma {:induction false} PercentTokenLength(t: string)
    requires IsPercentToken(t)
    ensures |t| >= 2
  {
  }

  /** No text is both a percentage and a tier grade: a percentage ends in `%`, a grade never does. */
  lemma {:induction false} PercentIsNotTier(t: string)
    ensures !(IsPercentToken(t) && IsTierToken(t))
  {
    if IsPercentToken(t) {
      PercentTokenLength(t);
      assert t[|t| - 1] == '%';
    }
  }
}
