/** Worked examples of amount extraction, each followed through the search
    of every amount pattern offset by offset. A text is passed as a
    parameter equal to the literal, so that each fact about it is derived
    from the characters it needs and not by unfolding the matchers on the
    whole literal. */
module Samples {
  import opened Common
  import opened Chars
  import opened Patterns
  import opened Candidates
  import opened Decimals
  import opened Selection
  import opened Amounts

  /** Where `AnyCurrency`'s slice of symbols for `p` begins. */
  function SymbolOffset(p: Pattern): nat
  {
    if p == ForeignAmount then 2 else 0
  }

  /** A symbol of `p` occurring at `j` starts with a character whose folded
      form decodes to that symbol. */
  lemma InitialOf(p: Pattern, s: string, j: nat, k: nat)
    requires p != Link && k < |Symbols(p)|
    ensures MatchesAt(s, j, Symbols(p)[k]) ==>
              j < |s| && SymbolOf(FoldCase(s[j])) == SymbolOffset(p) + k
  {
    if MatchesAt(s, j, Symbols(p)[k]) {
      assert Symbols(p)[k] == AnyCurrency[SymbolOffset(p) + k];
      SymbolInitial(SymbolOffset(p) + k);
      assert SameIgnoringCase(s[j + 0], Symbols(p)[k][0]);
    }
  }

  /** No symbol of `p` occurs from `from` on when no character there starts
      one. */
  lemma NoSymbolsIn(p: Pattern, s: string, from: nat)
    requires p != Link && from <= |s|
    requires forall j :: from <= j < |s| ==>
               !(SymbolOffset(p) <= SymbolOf(FoldCase(s[j])) < SymbolOffset(p) + |Symbols(p)|)
    ensures forall j, k :: from <= j <= |s| && 0 <= k < |Symbols(p)| ==> !MatchesAt(s, j, Symbols(p)[k])
  {
    forall j, k | from <= j <= |s| && 0 <= k < |Symbols(p)|
      ensures !MatchesAt(s, j, Symbols(p)[k])
    {
      InitialOf(p, s, j, k);
    }
  }

  lemma NoSymbolsFrom(p: Pattern, s: string, from: nat)
    requires p != Link && from <= |s|
    requires forall j :: from <= j < |s| ==>
               !(SymbolOffset(p) <= SymbolOf(FoldCase(s[j])) < SymbolOffset(p) + |Symbols(p)|)
    ensures forall q :: from <= q <= |s| ==> MatchAt(p, s, q) == None
  {
    NoSymbolsIn(p, s, from);
    NoSymbolNoMatch(p, s, from);
  }

  /** The first two letters of every keyword. */
  predicate KeywordStart(a: char, b: char)
  {
    (FoldCase(a) == 't' && (FoldCase(b) == 'o' || FoldCase(b) == 'u')) || (FoldCase(a) == 'a' && FoldCase(b) == 'm')
  }

  lemma KeywordInitials(s: string, q: nat, k: nat)
    requires k < |AmountKeywords|
    ensures MatchesAt(s, q, AmountKeywords[k]) ==> q + 1 < |s| && KeywordStart(s[q], s[q + 1])
  {
    if MatchesAt(s, q, AmountKeywords[k]) {
      assert SameIgnoringCase(s[q + 0], AmountKeywords[k][0]);
      assert SameIgnoringCase(s[q + 1], AmountKeywords[k][1]);
    }
  }

  /** The keyword pattern matches nowhere when no two letters start a keyword. */
  lemma NoKeywords(s: string)
    requires forall q :: 0 <= q < |s| - 1 ==> !KeywordStart(s[q], s[q + 1])
    ensures forall q :: 0 <= q <= |s| ==> MatchAt(KeywordAmount, s, q) == None
  {
    forall q | 0 <= q <= |s|
      ensures MatchAt(KeywordAmount, s, q) == None
    {
      forall k | 0 <= k < |AmountKeywords|
        ensures !MatchesAt(s, q, AmountKeywords[k])
      {
        KeywordInitials(s, q, k);
      }
      NoKeywordNoMatch(s, q);
    }
  }

  /** The evaluated candidates, one by one. */
  lemma EvaluatedAre(cs: seq<Candidate>, ps: seq<Parsed>)
    requires |cs| == |ps| && forall k :: 0 <= k < |cs| ==> ps[k] == Evaluate(cs[k])
    ensures EvaluateAll(cs) == ps
  {
  }

  /** The candidates of a text, pattern by pattern. */
  lemma CandidatesByPattern(text: string)
    ensures AllCandidates(text) == CandidatesOf(TurkishAmount, text) + CandidatesOf(ForeignAmount, text)
                                   + CandidatesOf(SimpleAmount, text) + CandidatesOf(KeywordAmount, text)
  {
    assert CandidatesUpTo(1, text) == CandidatesOf(TurkishAmount, text);
    assert CandidatesUpTo(2, text) == CandidatesUpTo(1, text) + CandidatesOf(ForeignAmount, text);
    assert CandidatesUpTo(3, text) == CandidatesUpTo(2, text) + CandidatesOf(SimpleAmount, text);
  }

  /** The candidate of a pattern with a single match. */
  lemma OneCandidate(p: Pattern, text: string, m: Match, number: string, currency: string)
    requires p != Link && Scan(p, text) == [m] && |m.groups| == 2
    requires m.groups[0].start <= m.groups[0].end <= |text| && text[m.groups[0].start..m.groups[0].end] == number
    requires m.groups[1].start <= m.groups[1].end <= |text| && text[m.groups[1].start..m.groups[1].end] == currency
    ensures CandidatesOf(p, text) == [Candidate(number, currency)]
  {
  }

  /** The candidates of a pattern with two matches. */
  lemma TwoCandidates(p: Pattern, text: string, m: Match, m': Match, number: string, number': string, currency: string)
    requires p != Link && Scan(p, text) == [m, m'] && |m.groups| == 2 && |m'.groups| == 2
    requires m.groups[0].start <= m.groups[0].end <= |text| && text[m.groups[0].start..m.groups[0].end] == number
    requires m'.groups[0].start <= m'.groups[0].end <= |text| && text[m'.groups[0].start..m'.groups[0].end] == number'
    requires m.groups[1].start <= m.groups[1].end <= |text| && text[m.groups[1].start..m.groups[1].end] == currency
    requires m'.groups[1].start <= m'.groups[1].end <= |text| && text[m'.groups[1].start..m'.groups[1].end] == currency
    ensures CandidatesOf(p, text) == [Candidate(number, currency), Candidate(number', currency)]
  {
  }

  /** The selection loop over three candidates, iteration by iteration. */
  lemma SelectThree(a: Parsed, b: Parsed, c: Parsed)
    ensures Select([a, b, c]) == Step(Step(Step(AmountResult(None, None), a), b), c)
  {
    assert [a] == [] + [a] && [a, b] == [a] + [b] && [a, b, c] == [a, b] + [c];
    SelectSnoc([], a);
    SelectSnoc([a], b);
    SelectSnoc([a, b], c);
  }

  /** The selection loop over four candidates, iteration by iteration. */
  lemma SelectFour(a: Parsed, b: Parsed, c: Parsed, d: Parsed)
    ensures Select([a, b, c, d]) == Step(Step(Step(Step(AmountResult(None, None), a), b), c), d)
  {
    assert [a, b, c, d] == [a, b, c] + [d];
    SelectThree(a, b, c);
    SelectSnoc([a, b, c], d);
  }

  /** Extraction from a text with three candidates. */
  lemma ExtractOfThree(text: string, a: Candidate, b: Candidate, c: Candidate)
    requires AllCandidates(text) == [a, b, c]
    ensures ExtractAmount(text) == Select([Evaluate(a), Evaluate(b), Evaluate(c)])
  {
    EvaluatedAre([a, b, c], [Evaluate(a), Evaluate(b), Evaluate(c)]);
  }

  /** Extraction from a text with four candidates. */
  lemma ExtractOfFour(text: string, a: Candidate, b: Candidate, c: Candidate, d: Candidate)
    requires AllCandidates(text) == [a, b, c, d]
    ensures ExtractAmount(text) == Select([Evaluate(a), Evaluate(b), Evaluate(c), Evaluate(d)])
  {
    EvaluatedAre([a, b, c, d], [Evaluate(a), Evaluate(b), Evaluate(c), Evaluate(d)]);
  }

  /* The values of the captured numbers below: each normalised and then
     read as the digits before the point and the fraction digits after it. */

  lemma DigitsOf1234()
    ensures DigitsValue("1234") == 1234
  {
    assert "1234"[..3] == "123" && "123"[..2] == "12" && "12"[..1] == "1" && "1"[..0] == [];
  }

  lemma DigitsOf234()
    ensures DigitsValue("234") == 234
  {
    assert "234"[..2] == "23" && "23"[..1] == "2" && "2"[..0] == [];
  }

  lemma FractionOf56()
    ensures FractionValue("56") == 0.56
  {
  }

  /** `1.234,56`, a grouping point and a decimal comma: 1234.56. */
  lemma GroupedCommaValue(t: string)
    requires t == "1.234,56"
    ensures ParseDecimal(Normalize(t)) == Some(1234.56)
  {
    assert t == "1" + ['.'] + "234" + [','] + "56";
    GroupedCommaParts(t, "1", "234", "56");
  }

  lemma GroupedCommaParts(t: string, a: string, b: string, c: string)
    requires a == "1" && b == "234" && c == "56" && t == a + ['.'] + b + [','] + c
    ensures ParseDecimal(Normalize(t)) == Some(1234.56)
  {
    NormalizeGroupedComma(a, b, c);
    assert a + b == "1234";
    DigitsOf1234();
    FractionOf56();
    ParseDecimalOfParts(a + b, c);
  }

  /** `234,56`, a decimal comma: 234.56. */
  lemma CommaValue(t: string)
    requires t == "234,56"
    ensures ParseDecimal(Normalize(t)) == Some(234.56)
  {
    assert t == "234" + [','] + "56";
    CommaParts(t, "234", "56");
  }

  lemma CommaParts(t: string, a: string, c: string)
    requires a == "234" && c == "56" && t == a + [','] + c
    ensures ParseDecimal(Normalize(t)) == Some(234.56)
  {
    NormalizeComma(a, c);
    DigitsOf234();
    FractionOf56();
    ParseDecimalOfParts(a, c);
  }

  lemma DigitsOf12()
    ensures DigitsValue("12") == 12
  {
    assert "12"[..1] == "1" && "1"[..0] == [];
  }

  lemma DigitsOf50()
    ensures DigitsValue("50") == 50
  {
    assert "50"[..1] == "5" && "5"[..0] == [];
  }

  lemma DigitsOf00()
    ensures DigitsValue("00") == 0
  {
    assert "00"[..1] == "0" && "0"[..0] == [];
  }

  lemma FractionOf00()
    ensures FractionValue("00") == 0.0
  {
  }

  lemma DigitsOf1()
    ensures DigitsValue("1") == 1
  {
    assert "1"[..0] == [];
  }

  lemma FractionOf23456()
    ensures FractionValue("23456") == 0.23456
  {
  }

  /** `00`, digits alone: 0. */
  lemma ZeroValue(t: string)
    requires t == "00"
    ensures ParseDecimal(Normalize(t)) == Some(0.0)
  {
    assert IsDigit(t[0]) && '.' !in t && ',' !in t;
    DigitsOf00();
  }

  /** `12.00` and `50.00`, a decimal point alone: 12 and 50. */
  lemma TwelveValue(t: string)
    requires t == "12.00"
    ensures ParseDecimal(Normalize(t)) == Some(12.0)
  {
    assert t == "12" + ['.'] + "00";
    PointParts(t, "12", "00", 12.0);
  }

  lemma FiftyValue(t: string)
    requires t == "50.00"
    ensures ParseDecimal(Normalize(t)) == Some(50.0)
  {
    assert t == "50" + ['.'] + "00";
    PointParts(t, "50", "00", 50.0);
  }

  lemma PointParts(t: string, a: string, c: string, v: real)
    requires (a == "12" && v == 12.0) || (a == "50" && v == 50.0)
    requires c == "00" && t == a + ['.'] + c
    ensures ParseDecimal(Normalize(t)) == Some(v)
  {
    assert ',' !in t;
    DigitsOf12();
    DigitsOf50();
    FractionOf00();
    ParseDecimalOfParts(a, c);
  }

  /** `1,234.56`, a grouping comma and a decimal point: the comma becomes
      the point and the point disappears, so 1.23456. */
  lemma GroupedPointValue(t: string)
    requires t == "1,234.56"
    ensures ParseDecimal(Normalize(t)) == Some(1.23456)
  {
    assert t == "1" + [','] + "234" + ['.'] + "56";
    GroupedPointParts(t, "1", "234", "56");
  }

  lemma GroupedPointParts(t: string, a: string, b: string, c: string)
    requires a == "1" && b == "234" && c == "56" && t == a + [','] + b + ['.'] + c
    ensures ParseDecimal(Normalize(t)) == Some(1.23456)
  {
    NormalizeGroupedPoint(a, b, c);
    assert b + c == "23456";
    MovedPointValue(Normalize(t), a, b + c);
  }

  lemma MovedPointValue(u: string, a: string, c: string)
    requires a == "1" && c == "23456" && u == a + ['.'] + c
    ensures ParseDecimal(u) == Some(1.23456)
  {
    DigitsOf1();
    FractionOf23456();
    ParseDecimalOfParts(a, c);
  }

  /** `234.56`, a decimal point alone: 234.56. */
  lemma SimplePointValue(t: string)
    requires t == "234.56"
    ensures ParseDecimal(Normalize(t)) == Some(234.56)
  {
    assert t == "234" + ['.'] + "56";
    SimplePointParts(t, "234", "56");
  }

  lemma SimplePointParts(t: string, a: string, c: string)
    requires a == "234" && c == "56" && t == a + ['.'] + c
    ensures ParseDecimal(Normalize(t)) == Some(234.56)
  {
    assert ',' !in t;
    DigitsOf234();
    FractionOf56();
    ParseDecimalOfParts(a, c);
  }

  /* "Toplam: 1.234,56 TL": the Turkish pattern, the simple pattern (from
     the `2` on, after failing at the `1`) and the keyword pattern each
     match once; the Turkish and keyword matches capture 1.234,56. */

  lemma ToplamTurkishAt(s: string)
    requires s == "Toplam: 1.234,56 TL"
    ensures MatchAt(TurkishAmount, s, 8) == Some(Match(Span(8, 19), [Span(8, 16), Span(17, 19)]))
  {
    assert DigitsAt(s, 8, 1);
    assert GroupTail(s, 13, 16, ".", ",");
    assert GroupTail(s, 9, 16, ".", ",");
    assert MatchesAt(s, 17, TurkishCurrencies[0]);
    AmountMatchComplete(TurkishAmount, s, 8, Match(Span(8, 19), [Span(8, 16), Span(17, 19)]));
  }

  lemma ToplamTurkish(s: string)
    requires s == "Toplam: 1.234,56 TL"
    ensures Scan(TurkishAmount, s) == [Match(Span(8, 19), [Span(8, 16), Span(17, 19)])]
  {
    var t := AttemptsOf(TurkishAmount, s);
    forall q | 0 <= q < 8
      ensures t[q].None?
    {
      NoDigitNoMatch(TurkishAmount, s, q);
    }
    ToplamTurkishAt(s);
    FirstMatchFrom(t, 0, 8);
  }

  lemma ToplamForeign(s: string)
    requires s == "Toplam: 1.234,56 TL"
    ensures Scan(ForeignAmount, s) == []
  {
    var t := AttemptsOf(ForeignAmount, s);
    NoSymbolsFrom(ForeignAmount, s, 0);
    NoMatchFrom(t, 0);
  }

  lemma ToplamSimpleStops(s: string)
    requires s == "Toplam: 1.234,56 TL"
    ensures MatchAt(SimpleAmount, s, 8) == None
  {
    RunEndAt(s, 8, 9, Digit);
    assert FractionAt(s, 9, ".,");
    assert PlainNumberEnd(s, 8) == Some(12);
    assert NumberChar(s[12]);
    NumberRunsOn(SimpleAmount, s, 8, 12);
  }

  lemma ToplamSimpleAt(s: string)
    requires s == "Toplam: 1.234,56 TL"
    ensures MatchAt(SimpleAmount, s, 10) == Some(Match(Span(10, 19), [Span(10, 16), Span(17, 19)]))
  {
    assert DigitsAt(s, 10, 3) && FractionAt(s, 13, ".,");
    assert MatchesAt(s, 17, AnyCurrency[0]);
    AmountMatchComplete(SimpleAmount, s, 10, Match(Span(10, 19), [Span(10, 16), Span(17, 19)]));
  }

  lemma ToplamSimpleBefore(s: string)
    requires s == "Toplam: 1.234,56 TL"
    ensures NoMatchIn(AttemptsOf(SimpleAmount, s), 0, 10)
  {
    ToplamSimpleStops(s);
    forall q | 0 <= q < 10
      ensures MatchAt(SimpleAmount, s, q) == None
    {
      if q != 8 {
        NoDigitNoMatch(SimpleAmount, s, q);
      }
    }
  }

  lemma ToplamSimple(s: string)
    requires s == "Toplam: 1.234,56 TL"
    ensures Scan(SimpleAmount, s) == [Match(Span(10, 19), [Span(10, 16), Span(17, 19)])]
  {
    ToplamSimpleBefore(s);
    ToplamSimpleAt(s);
    FirstMatchFrom(AttemptsOf(SimpleAmount, s), 0, 10);
  }

  lemma ToplamLead(s: string)
    requires s == "Toplam: 1.234,56 TL"
    ensures KeywordLead(s, 0, 8)
  {
    assert MatchesAt(s, 0, AmountKeywords[0]);
    assert KeywordRun(s, 0, 0, 8);
  }

  lemma ToplamNumber(s: string)
    requires s == "Toplam: 1.234,56 TL"
    ensures GroupedNumber(s, 8, 16, ".,", ".,")
  {
    assert DigitsAt(s, 8, 1);
    assert GroupTail(s, 13, 16, ".,", ".,");
    assert GroupTail(s, 9, 16, ".,", ".,");
  }

  lemma ToplamSymbol(s: string)
    requires s == "Toplam: 1.234,56 TL"
    ensures SymbolAfter(s, 16, 17, 19, AnyCurrency)
  {
    assert MatchesAt(s, 17, AnyCurrency[0]);
  }

  lemma ToplamKeywordParse(s: string)
    requires s == "Toplam: 1.234,56 TL"
    ensures IsAmountParse(KeywordAmount, s, 0, Match(Span(0, 19), [Span(8, 16), Span(17, 19)]))
  {
    ToplamLead(s);
    ToplamNumber(s);
    ToplamSymbol(s);
  }

  lemma ToplamKeywordAt(s: string)
    requires s == "Toplam: 1.234,56 TL"
    ensures MatchAt(KeywordAmount, s, 0) == Some(Match(Span(0, 19), [Span(8, 16), Span(17, 19)]))
  {
    ToplamKeywordParse(s);
    AmountMatchComplete(KeywordAmount, s, 0, Match(Span(0, 19), [Span(8, 16), Span(17, 19)]));
  }

  lemma ToplamKeyword(s: string)
    requires s == "Toplam: 1.234,56 TL"
    ensures Scan(KeywordAmount, s) == [Match(Span(0, 19), [Span(8, 16), Span(17, 19)])]
  {
    ToplamKeywordAt(s);
    FirstMatchFrom(AttemptsOf(KeywordAmount, s), 0, 0);
  }

  lemma ToplamCaptures(s: string)
    requires s == "Toplam: 1.234,56 TL"
    ensures s[8..16] == "1.234,56" && s[10..16] == "234,56" && s[17..19] == "TL"
  {
    assert s[8..16] == "1.234,56";
    assert s[10..16] == "234,56";
    assert s[17..19] == "TL";
  }

  lemma ToplamTurkishCandidates(s: string)
    requires s == "Toplam: 1.234,56 TL"
    ensures CandidatesOf(TurkishAmount, s) == [Candidate("1.234,56", "TL")]
  {
    ToplamTurkish(s);
    ToplamCaptures(s);
    OneCandidate(TurkishAmount, s, Match(Span(8, 19), [Span(8, 16), Span(17, 19)]), "1.234,56", "TL");
  }

  lemma ToplamSimpleCandidates(s: string)
    requires s == "Toplam: 1.234,56 TL"
    ensures CandidatesOf(SimpleAmount, s) == [Candidate("234,56", "TL")]
  {
    ToplamSimple(s);
    ToplamCaptures(s);
    OneCandidate(SimpleAmount, s, Match(Span(10, 19), [Span(10, 16), Span(17, 19)]), "234,56", "TL");
  }

  lemma ToplamKeywordCandidates(s: string)
    requires s == "Toplam: 1.234,56 TL"
    ensures CandidatesOf(KeywordAmount, s) == [Candidate("1.234,56", "TL")]
  {
    ToplamKeyword(s);
    ToplamCaptures(s);
    OneCandidate(KeywordAmount, s, Match(Span(0, 19), [Span(8, 16), Span(17, 19)]), "1.234,56", "TL");
  }

  lemma ToplamCandidates(s: string)
    requires s == "Toplam: 1.234,56 TL"
    ensures AllCandidates(s) == [Candidate("1.234,56", "TL"), Candidate("234,56", "TL"), Candidate("1.234,56", "TL")]
  {
    ToplamTurkishCandidates(s);
    ToplamForeign(s);
    ToplamSimpleCandidates(s);
    ToplamKeywordCandidates(s);
    CandidatesByPattern(s);
    JoinThree(Candidate("1.234,56", "TL"), Candidate("234,56", "TL"), Candidate("1.234,56", "TL"));
  }

  lemma JoinThree(a: Candidate, b: Candidate, c: Candidate)
    ensures [a] + [] + [b] + [c] == [a, b, c]
    ensures [] + [a] + [b] + [c] == [a, b, c]
  {
  }

  lemma ToplamSelect(text: string, a: Candidate, b: Candidate, c: Candidate)
    requires AllCandidates(text) == [a, b, c]
    requires a.number == "1.234,56" && b.number == "234,56" && c.number == "1.234,56"
    requires a.currency == "TL"
    ensures ExtractAmount(text) == AmountResult(Some(1234.56), Some("TL"))
  {
    GroupedCommaValue(a.number);
    CommaValue(b.number);
    GroupedCommaValue(c.number);
    ExtractOfThree(text, a, b, c);
    SelectThree(Evaluate(a), Evaluate(b), Evaluate(c));
  }

  /** `"Toplam: 1.234,56 TL"` yields 1234.56 with `TL`. */
  lemma ToplamAmount(s: string)
    requires s == "Toplam: 1.234,56 TL"
    ensures ExtractAmount(s) == AmountResult(Some(1234.56), Some("TL"))
  {
    ToplamCandidates(s);
    var cs := AllCandidates(s);
    ToplamSelect(s, cs[0], cs[1], cs[2]);
  }

  /* "12.00 TL 50.00 TL": the Turkish pattern matches the two `00 TL`
     (it cannot read `12.00` or `50.00` as one number, since `.` groups
     three digits there), the simple pattern matches `12.00 TL` and
     `50.00 TL`; the greatest value, 50, wins. */

  lemma PricesTurkishStops(s: string)
    requires s == "12.00 TL 50.00 TL"
    ensures forall q :: q in {0, 1, 9, 10} ==> MatchAt(TurkishAmount, s, q) == None
  {
    RunEndAt(s, 0, 2, Digit);
    RunEndAt(s, 1, 2, Digit);
    RunEndAt(s, 9, 11, Digit);
    RunEndAt(s, 10, 11, Digit);
    assert s[2] == '.' && !IsDigit(s[5]) && s[11] == '.' && !IsDigit(s[14]);
    assert !GroupAt(s, 2, ".") && !FractionAt(s, 2, ",");
    assert !GroupAt(s, 11, ".") && !FractionAt(s, 11, ",");
    assert GroupedNumberEnd(s, 0, ".", ",") == Some(2) && GroupedNumberEnd(s, 1, ".", ",") == Some(2);
    assert GroupedNumberEnd(s, 9, ".", ",") == Some(11) && GroupedNumberEnd(s, 10, ".", ",") == Some(11);
    assert NumberChar(s[2]) && NumberChar(s[11]);
    NumberRunsOn(TurkishAmount, s, 0, 2);
    NumberRunsOn(TurkishAmount, s, 1, 2);
    NumberRunsOn(TurkishAmount, s, 9, 11);
    NumberRunsOn(TurkishAmount, s, 10, 11);
  }

  lemma PricesTurkishAt(s: string, i: nat)
    requires s == "12.00 TL 50.00 TL" && (i == 3 || i == 12)
    ensures MatchAt(TurkishAmount, s, i) == Some(Match(Span(i, i + 5), [Span(i, i + 2), Span(i + 3, i + 5)]))
  {
    assert DigitsAt(s, i, 2) && GroupTail(s, i + 2, i + 2, ".", ",");
    assert IsSpace(s[i + 2]) && MatchesAt(s, i + 3, TurkishCurrencies[0]);
    assert SymbolAfter(s, i + 2, i + 3, i + 5, TurkishCurrencies);
    AmountMatchComplete(TurkishAmount, s, i, Match(Span(i, i + 5), [Span(i, i + 2), Span(i + 3, i + 5)]));
  }

  lemma PricesTurkishRest(s: string)
    requires s == "12.00 TL 50.00 TL"
    ensures ScanFrom(AttemptsOf(TurkishAmount, s), 8) == [Match(Span(12, 17), [Span(12, 14), Span(15, 17)])]
  {
    var t := AttemptsOf(TurkishAmount, s);
    PricesTurkishStops(s);
    PricesTurkishAt(s, 12);
    NoDigitNoMatch(TurkishAmount, s, 8);
    NoDigitNoMatch(TurkishAmount, s, 11);
    FirstMatchFrom(t, 8, 12);
  }

  lemma PricesTurkish(s: string)
    requires s == "12.00 TL 50.00 TL"
    ensures Scan(TurkishAmount, s) == [Match(Span(3, 8), [Span(3, 5), Span(6, 8)]), Match(Span(12, 17), [Span(12, 14), Span(15, 17)])]
  {
    var t := AttemptsOf(TurkishAmount, s);
    PricesTurkishStops(s);
    PricesTurkishAt(s, 3);
    NoDigitNoMatch(TurkishAmount, s, 2);
    FirstMatchFrom(t, 0, 3);
    PricesTurkishRest(s);
  }

  lemma PricesForeign(s: string)
    requires s == "12.00 TL 50.00 TL"
    ensures Scan(ForeignAmount, s) == []
  {
    NoSymbolsFrom(ForeignAmount, s, 0);
    NoMatchFrom(AttemptsOf(ForeignAmount, s), 0);
  }

  lemma PricesSimpleAt(s: string, i: nat)
    requires s == "12.00 TL 50.00 TL" && (i == 0 || i == 9)
    ensures MatchAt(SimpleAmount, s, i) == Some(Match(Span(i, i + 8), [Span(i, i + 5), Span(i + 6, i + 8)]))
  {
    assert DigitsAt(s, i, 2) && FractionAt(s, i + 2, ".,");
    assert IsSpace(s[i + 5]) && MatchesAt(s, i + 6, AnyCurrency[0]);
    assert SymbolAfter(s, i + 5, i + 6, i + 8, AnyCurrency);
    AmountMatchComplete(SimpleAmount, s, i, Match(Span(i, i + 8), [Span(i, i + 5), Span(i + 6, i + 8)]));
  }

  /* A vertical tab is a blank for `\s`, so pattern 3 matches across it. */

  lemma VerticalTabMatch(s: string)
    requires s == "5.00\U{000B}TL"
    ensures MatchAt(SimpleAmount, s, 0) == Some(Match(Span(0, 7), [Span(0, 4), Span(5, 7)]))
  {
    assert DigitsAt(s, 0, 1) && FractionAt(s, 1, ".,");
    assert IsSpace(s[4]) && MatchesAt(s, 5, AnyCurrency[0]);
    assert SymbolAfter(s, 4, 5, 7, AnyCurrency);
    AmountMatchComplete(SimpleAmount, s, 0, Match(Span(0, 7), [Span(0, 4), Span(5, 7)]));
  }

  lemma PricesSimpleRest(s: string)
    requires s == "12.00 TL 50.00 TL"
    ensures ScanFrom(AttemptsOf(SimpleAmount, s), 8) == [Match(Span(9, 17), [Span(9, 14), Span(15, 17)])]
  {
    PricesSimpleAt(s, 9);
    NoDigitNoMatch(SimpleAmount, s, 8);
    FirstMatchFrom(AttemptsOf(SimpleAmount, s), 8, 9);
  }

  lemma PricesSimpleFirst(s: string)
    requires s == "12.00 TL 50.00 TL"
    ensures ScanFrom(AttemptsOf(SimpleAmount, s), 0) ==
              [Match(Span(0, 8), [Span(0, 5), Span(6, 8)])] + ScanFrom(AttemptsOf(SimpleAmount, s), 8)
  {
    PricesSimpleAt(s, 0);
    FirstMatchFrom(AttemptsOf(SimpleAmount, s), 0, 0);
  }

  lemma PricesSimple(s: string)
    requires s == "12.00 TL 50.00 TL"
    ensures Scan(SimpleAmount, s) == [Match(Span(0, 8), [Span(0, 5), Span(6, 8)]), Match(Span(9, 17), [Span(9, 14), Span(15, 17)])]
  {
    PricesSimpleFirst(s);
    PricesSimpleRest(s);
  }

  lemma PricesKeyword(s: string)
    requires s == "12.00 TL 50.00 TL"
    ensures Scan(KeywordAmount, s) == []
  {
    NoKeywords(s);
    NoMatchFrom(AttemptsOf(KeywordAmount, s), 0);
  }

  lemma PricesCaptures(s: string)
    requires s == "12.00 TL 50.00 TL"
    ensures s[3..5] == "00" && s[12..14] == "00" && s[0..5] == "12.00" && s[9..14] == "50.00"
    ensures s[6..8] == "TL" && s[15..17] == "TL"
  {
    assert s[3..5] == "00";
    assert s[12..14] == "00";
    assert s[0..5] == "12.00";
    assert s[9..14] == "50.00";
    assert s[6..8] == "TL";
    assert s[15..17] == "TL";
  }

  lemma PricesTurkishCandidates(s: string)
    requires s == "12.00 TL 50.00 TL"
    ensures CandidatesOf(TurkishAmount, s) == [Candidate("00", "TL"), Candidate("00", "TL")]
  {
    PricesTurkish(s);
    PricesCaptures(s);
    TwoCandidates(TurkishAmount, s, Match(Span(3, 8), [Span(3, 5), Span(6, 8)]),
                  Match(Span(12, 17), [Span(12, 14), Span(15, 17)]), "00", "00", "TL");
  }

  lemma PricesSimpleCandidates(s: string)
    requires s == "12.00 TL 50.00 TL"
    ensures CandidatesOf(SimpleAmount, s) == [Candidate("12.00", "TL"), Candidate("50.00", "TL")]
  {
    PricesSimple(s);
    PricesCaptures(s);
    TwoCandidates(SimpleAmount, s, Match(Span(0, 8), [Span(0, 5), Span(6, 8)]),
                  Match(Span(9, 17), [Span(9, 14), Span(15, 17)]), "12.00", "50.00", "TL");
  }

  lemma PricesCandidates(s: string)
    requires s == "12.00 TL 50.00 TL"
    ensures AllCandidates(s) == [Candidate("00", "TL"), Candidate("00", "TL"), Candidate("12.00", "TL"), Candidate("50.00", "TL")]
  {
    PricesTurkishCandidates(s);
    PricesForeign(s);
    PricesSimpleCandidates(s);
    PricesKeyword(s);
    CandidatesByPattern(s);
    JoinTwoTwo(Candidate("00", "TL"), Candidate("00", "TL"), Candidate("12.00", "TL"), Candidate("50.00", "TL"));
  }

  lemma JoinTwoTwo(a: Candidate, b: Candidate, c: Candidate, d: Candidate)
    ensures [a, b] + [] + [c, d] + [] == [a, b, c, d]
  {
  }

  lemma PricesSelect(text: string, a: Candidate, b: Candidate, c: Candidate, d: Candidate)
    requires AllCandidates(text) == [a, b, c, d]
    requires a.number == "00" && b.number == "00" && c.number == "12.00" && d.number == "50.00"
    requires d.currency == "TL"
    ensures ExtractAmount(text) == AmountResult(Some(50.0), Some("TL"))
  {
    ZeroValue(a.number);
    ZeroValue(b.number);
    TwelveValue(c.number);
    FiftyValue(d.number);
    ExtractOfFour(text, a, b, c, d);
    SelectFour(Evaluate(a), Evaluate(b), Evaluate(c), Evaluate(d));
  }

  /** A text with `12.00 TL` and `50.00 TL` yields 50 with `TL`. */
  lemma PricesAmount(s: string)
    requires s == "12.00 TL 50.00 TL"
    ensures ExtractAmount(s) == AmountResult(Some(50.0), Some("TL"))
  {
    PricesCandidates(s);
    var cs := AllCandidates(s);
    PricesSelect(s, cs[0], cs[1], cs[2], cs[3]);
  }

  /** A text without any currency symbol yields nothing. */
  lemma NoCurrencyAmount(s: string)
    requires s == "Kimlik No: 12345"
    ensures ExtractAmount(s) == AmountResult(None, None)
  {
    NoSymbolsIn(SimpleAmount, s, 0);
    assert Symbols(SimpleAmount) == AnyCurrency;
    NoCurrencyNoAmount(s);
  }

  /* "Total: 1,234.56 USD": the foreign and keyword patterns capture
     `1,234.56`, which normalises to 1.23456 (the comma is taken for the
     decimal point), and the simple pattern captures `234.56`, which
     therefore wins. */

  lemma TotalForeignAt(s: string)
    requires s == "Total: 1,234.56 USD"
    ensures MatchAt(ForeignAmount, s, 7) == Some(Match(Span(7, 19), [Span(7, 15), Span(16, 19)]))
  {
    assert DigitsAt(s, 7, 1);
    assert GroupTail(s, 12, 15, ",", ".");
    assert GroupTail(s, 8, 15, ",", ".");
    assert MatchesAt(s, 16, ForeignCurrencies[1]);
    assert SymbolAfter(s, 15, 16, 19, ForeignCurrencies);
    AmountMatchComplete(ForeignAmount, s, 7, Match(Span(7, 19), [Span(7, 15), Span(16, 19)]));
  }

  lemma TotalTurkish(s: string)
    requires s == "Total: 1,234.56 USD"
    ensures Scan(TurkishAmount, s) == []
  {
    var t := AttemptsOf(TurkishAmount, s);
    NoSymbolsFrom(TurkishAmount, s, 7);
    forall q | 0 <= q < 7
      ensures t[q].None?
    {
      NoDigitNoMatch(TurkishAmount, s, q);
    }
    NoMatchFrom(t, 0);
  }

  lemma TotalForeign(s: string)
    requires s == "Total: 1,234.56 USD"
    ensures Scan(ForeignAmount, s) == [Match(Span(7, 19), [Span(7, 15), Span(16, 19)])]
  {
    var t := AttemptsOf(ForeignAmount, s);
    forall q | 0 <= q < 7
      ensures t[q].None?
    {
      NoDigitNoMatch(ForeignAmount, s, q);
    }
    TotalForeignAt(s);
    FirstMatchFrom(t, 0, 7);
  }

  lemma TotalSimpleStops(s: string)
    requires s == "Total: 1,234.56 USD"
    ensures MatchAt(SimpleAmount, s, 7) == None
  {
    RunEndAt(s, 7, 8, Digit);
    assert FractionAt(s, 8, ".,");
    assert PlainNumberEnd(s, 7) == Some(11);
    assert NumberChar(s[11]);
    NumberRunsOn(SimpleAmount, s, 7, 11);
  }

  lemma TotalSimpleAt(s: string)
    requires s == "Total: 1,234.56 USD"
    ensures MatchAt(SimpleAmount, s, 9) == Some(Match(Span(9, 19), [Span(9, 15), Span(16, 19)]))
  {
    assert DigitsAt(s, 9, 3) && FractionAt(s, 12, ".,");
    assert MatchesAt(s, 16, AnyCurrency[3]);
    assert SymbolAfter(s, 15, 16, 19, AnyCurrency);
    AmountMatchComplete(SimpleAmount, s, 9, Match(Span(9, 19), [Span(9, 15), Span(16, 19)]));
  }

  lemma TotalSimpleBefore(s: string)
    requires s == "Total: 1,234.56 USD"
    ensures NoMatchIn(AttemptsOf(SimpleAmount, s), 0, 9)
  {
    TotalSimpleStops(s);
    forall q | 0 <= q < 9
      ensures MatchAt(SimpleAmount, s, q) == None
    {
      if q != 7 {
        NoDigitNoMatch(SimpleAmount, s, q);
      }
    }
  }

  lemma TotalSimple(s: string)
    requires s == "Total: 1,234.56 USD"
    ensures Scan(SimpleAmount, s) == [Match(Span(9, 19), [Span(9, 15), Span(16, 19)])]
  {
    TotalSimpleBefore(s);
    TotalSimpleAt(s);
    FirstMatchFrom(AttemptsOf(SimpleAmount, s), 0, 9);
  }

  lemma TotalLead(s: string)
    requires s == "Total: 1,234.56 USD"
    ensures KeywordLead(s, 0, 7)
  {
    assert MatchesAt(s, 0, AmountKeywords[1]);
    assert KeywordRun(s, 0, 1, 7);
  }

  lemma TotalNumber(s: string)
    requires s == "Total: 1,234.56 USD"
    ensures GroupedNumber(s, 7, 15, ".,", ".,")
  {
    assert DigitsAt(s, 7, 1);
    assert GroupTail(s, 12, 15, ".,", ".,");
    assert GroupTail(s, 8, 15, ".,", ".,");
  }

  lemma TotalSymbol(s: string)
    requires s == "Total: 1,234.56 USD"
    ensures SymbolAfter(s, 15, 16, 19, AnyCurrency)
  {
    assert MatchesAt(s, 16, AnyCurrency[3]);
  }

  lemma TotalKeyword(s: string)
    requires s == "Total: 1,234.56 USD"
    ensures Scan(KeywordAmount, s) == [Match(Span(0, 19), [Span(7, 15), Span(16, 19)])]
  {
    TotalLead(s);
    TotalNumber(s);
    TotalSymbol(s);
    AmountMatchComplete(KeywordAmount, s, 0, Match(Span(0, 19), [Span(7, 15), Span(16, 19)]));
    FirstMatchFrom(AttemptsOf(KeywordAmount, s), 0, 0);
  }

  lemma TotalCaptures(s: string)
    requires s == "Total: 1,234.56 USD"
    ensures s[7..15] == "1,234.56" && s[9..15] == "234.56" && s[16..19] == "USD"
  {
    assert s[7..15] == "1,234.56";
    assert s[9..15] == "234.56";
    assert s[16..19] == "USD";
  }

  lemma TotalForeignCandidates(s: string)
    requires s == "Total: 1,234.56 USD"
    ensures CandidatesOf(ForeignAmount, s) == [Candidate("1,234.56", "USD")]
  {
    TotalForeign(s);
    TotalCaptures(s);
    OneCandidate(ForeignAmount, s, Match(Span(7, 19), [Span(7, 15), Span(16, 19)]), "1,234.56", "USD");
  }

  lemma TotalSimpleCandidates(s: string)
    requires s == "Total: 1,234.56 USD"
    ensures CandidatesOf(SimpleAmount, s) == [Candidate("234.56", "USD")]
  {
    TotalSimple(s);
    TotalCaptures(s);
    OneCandidate(SimpleAmount, s, Match(Span(9, 19), [Span(9, 15), Span(16, 19)]), "234.56", "USD");
  }

  lemma TotalKeywordCandidates(s: string)
    requires s == "Total: 1,234.56 USD"
    ensures CandidatesOf(KeywordAmount, s) == [Candidate("1,234.56", "USD")]
  {
    TotalKeyword(s);
    TotalCaptures(s);
    OneCandidate(KeywordAmount, s, Match(Span(0, 19), [Span(7, 15), Span(16, 19)]), "1,234.56", "USD");
  }

  lemma TotalCandidates(s: string)
    requires s == "Total: 1,234.56 USD"
    ensures AllCandidates(s) == [Candidate("1,234.56", "USD"), Candidate("234.56", "USD"), Candidate("1,234.56", "USD")]
  {
    TotalTurkish(s);
    TotalForeignCandidates(s);
    TotalSimpleCandidates(s);
    TotalKeywordCandidates(s);
    CandidatesByPattern(s);
    assert |CandidatesOf(TurkishAmount, s)| == 0;
    JoinThree(Candidate("1,234.56", "USD"), Candidate("234.56", "USD"), Candidate("1,234.56", "USD"));
  }

  lemma TotalSelect(text: string, a: Candidate, b: Candidate, c: Candidate)
    requires AllCandidates(text) == [a, b, c]
    requires a.number == "1,234.56" && b.number == "234.56" && c.number == "1,234.56"
    requires b.currency == "USD"
    ensures ExtractAmount(text) == AmountResult(Some(234.56), Some("USD"))
  {
    GroupedPointValue(a.number);
    SimplePointValue(b.number);
    GroupedPointValue(c.number);
    ExtractOfThree(text, a, b, c);
    SelectThree(Evaluate(a), Evaluate(b), Evaluate(c));
  }

  /** `"Total: 1,234.56 USD"` yields 234.56 with `USD`, not 1234.56. */
  lemma TotalAmount(s: string)
    requires s == "Total: 1,234.56 USD"
    ensures ExtractAmount(s) == AmountResult(Some(234.56), Some("USD"))
  {
    TotalCandidates(s);
    var cs := AllCandidates(s);
    TotalSelect(s, cs[0], cs[1], cs[2]);
  }
}
