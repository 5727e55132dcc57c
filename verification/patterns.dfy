/** The five regular expressions of the text extractor, each compiled with
    `.caseInsensitive`, as hand-written position-based matchers, and the
    leftmost, non-overlapping, left-to-right search that enumerates their
    matches (`NSRegularExpression.matches(in:range:)`).

    Why each matcher can be written without backtracking: every optional or
    repeated piece of these patterns is followed by a piece whose first
    character cannot be what a shorter choice would leave behind. A shorter
    `\d{1,3}` or `\d+` leaves a digit, but what follows them begins with a
    separator, a blank or a currency symbol; one group fewer of
    `(?:[.,]\d{3})*` leaves a separator, which neither the fraction followed
    by a blank/currency nor a blank/currency can accept; skipping a
    fraction that is present leaves its separator; a shorter `\s*` or
    `[:\s]+` leaves a blank or a colon, which no currency symbol or digit
    is. Backtracking therefore never finds a second way to succeed, and the
    one candidate each matcher computes -- take every greedy piece as long
    as it goes, then test the rest -- is the match the regex engine reports
    at that position, or there is none. Of the alternations, `https?` is
    greedy and is tried with `s` first; no currency symbol or keyword is a
    prefix of another, and any two of them differ (ignoring case) at some
    position both have, so at most one alternative applies. The lemmas
    `AmountMatchIff` and `LinkMatchIff` state the outcome of this argument:
    a matcher's result is exactly the parse the pattern admits. */
module Patterns {
  import opened Common
  import opened Chars

  datatype Pattern =
    | Link          // (https?://[\w\-._~:/?#\[\]@!$&'()*+,;=%]+)
    | TurkishAmount // (\d{1,3}(?:\.\d{3})*(?:,\d{2})?)\s*(TL|₺)
    | ForeignAmount // (\d{1,3}(?:,\d{3})*(?:\.\d{2})?)\s*(\$|USD|EUR|€)
    | SimpleAmount  // (\d+[.,]\d{2})\s*(TL|₺|\$|USD|EUR|€)
    | KeywordAmount // (?:toplam|total|tutar|amount)[:\s]+(\d{1,3}(?:[.,]\d{3})*(?:[.,]\d{2})?)\s*(TL|₺|\$|USD|EUR|€)

  /** A half-open range of character offsets. */
  datatype Span = Span(start: nat, end: nat)

  /** One match: the whole matched range and its capture groups 1, 2, ... */
  datatype Match = Match(whole: Span, groups: seq<Span>)

  /** Number of capture groups of each pattern. */
  function GroupCount(p: Pattern): nat
  {
    if p == Link then 1 else 2
  }

  const TurkishCurrencies: seq<string> := ["TL", "\U{20BA}"]
  const ForeignCurrencies: seq<string> := ["$", "USD", "EUR", "\U{20AC}"]
  const AnyCurrency: seq<string> := TurkishCurrencies + ForeignCurrencies
  const AmountKeywords: seq<string> := ["toplam", "total", "tutar", "amount"]

  datatype CharClass = Digit | Blank | UrlText | ColonOrBlank

  predicate InClass(c: char, k: CharClass)
  {
    match k
    case Digit => IsDigit(c)
    case Blank => IsSpace(c)
    case UrlText => IsUrlChar(c)
    case ColonOrBlank => c == ':' || IsSpace(c)
  }

  /** End of the longest run of `k` characters starting at `i`: what a greedy
      `k*` consumes. */
  function RunEnd(s: string, i: nat, k: CharClass): (e: nat)
    requires i <= |s|
    ensures i <= e <= |s|
    ensures forall j :: i <= j < e ==> InClass(s[j], k)
    ensures e == |s| || !InClass(s[e], k)
    decreases |s| - i
  {
    if i < |s| && InClass(s[i], k) then RunEnd(s, i + 1, k) else i
  }

  /** `n` digits start at `i`. */
  predicate DigitsAt(s: string, i: nat, n: nat)
  {
    i + n <= |s| && forall j :: i <= j < i + n ==> IsDigit(s[j])
  }

  /** One thousands group `[seps]\d{3}` starts at `i`. */
  predicate GroupAt(s: string, i: nat, seps: string)
  {
    i + 4 <= |s| && s[i] in seps && DigitsAt(s, i + 1, 3)
  }

  /** `s[i..e]` is a chain of thousands groups. */
  predicate Groups(s: string, i: nat, e: nat, seps: string)
    decreases e - i
  {
    i == e || (i < e && GroupAt(s, i, seps) && Groups(s, i + 4, e, seps))
  }

  /** End of the greedy `(?:[seps]\d{3})*` starting at `i`. */
  function GroupsEnd(s: string, i: nat, seps: string): (e: nat)
    requires i <= |s|
    ensures i <= e <= |s|
    ensures Groups(s, i, e, seps)
    ensures !GroupAt(s, e, seps)
    decreases |s| - i
  {
    if GroupAt(s, i, seps) then GroupsEnd(s, i + 4, seps) else i
  }

  /** A fraction `[seps]\d{2}` starts at `i`. */
  predicate FractionAt(s: string, i: nat, seps: string)
  {
    i + 3 <= |s| && s[i] in seps && DigitsAt(s, i + 1, 2)
  }

  /** End of the greedy `(?:[seps]\d{2})?` starting at `i`. */
  function FractionEnd(s: string, i: nat, seps: string): (e: nat)
    requires i <= |s|
    ensures e == i + 3 <= |s| || e == i
    ensures e == i + 3 <==> FractionAt(s, i, seps)
  {
    if FractionAt(s, i, seps) then i + 3 else i
  }

  /* The languages of the pieces, stated declaratively; the matchers above
     and below are related to them by the soundness ensures and the
     completeness lemmas further down. */

  /** The characters a captured number is made of. */
  predicate NumberChar(c: char)
  {
    IsDigit(c) || c == '.' || c == ','
  }

  /** A set of separators, as in `[.,]`. */
  predicate Separators(seps: string)
  {
    forall j :: 0 <= j < |seps| ==> seps[j] == '.' || seps[j] == ','
  }

  /** `s[i..n]` is `(?:[groupSeps]\d{3})*(?:[fractionSeps]\d{2})?`. */
  predicate GroupTail(s: string, i: nat, n: nat, groupSeps: string, fractionSeps: string)
    decreases n - i
  {
    || i == n
    || (n == i + 3 && FractionAt(s, i, fractionSeps))
    || (i + 4 <= n && GroupAt(s, i, groupSeps) && GroupTail(s, i + 4, n, groupSeps, fractionSeps))
  }

  /** `s[i..n]` is `\d{1,3}(?:[groupSeps]\d{3})*(?:[fractionSeps]\d{2})?`. */
  predicate GroupedNumber(s: string, i: nat, n: nat, groupSeps: string, fractionSeps: string)
  {
    n <= |s| && exists a :: 1 <= a <= 3 && i + a <= n && DigitsAt(s, i, a) && GroupTail(s, i + a, n, groupSeps, fractionSeps)
  }

  /** `s[i..n]` is `\d+[.,]\d{2}`. */
  predicate PlainNumber(s: string, i: nat, n: nat)
  {
    i + 4 <= n <= |s| && DigitsAt(s, i, n - 3 - i) && FractionAt(s, n - 3, ".,")
  }

  /** `s[i..a]` is keyword `k`, then `[:\s]+`. */
  predicate KeywordRun(s: string, i: nat, k: nat, a: nat)
  {
    && k < |AmountKeywords| && MatchesAt(s, i, AmountKeywords[k])
    && i + |AmountKeywords[k]| < a <= |s|
    && forall j :: i + |AmountKeywords[k]| <= j < a ==> InClass(s[j], ColonOrBlank)
  }

  /** `s[i..a]` is `(?:toplam|total|tutar|amount)[:\s]+`. */
  predicate KeywordLead(s: string, i: nat, a: nat)
  {
    exists k: nat :: k < |AmountKeywords| && KeywordRun(s, i, k, a)
  }

  /** `s[n..e]` is `\s*` followed by one of the symbols `ws`, the symbol
      occupying `[c, e)`. */
  predicate SymbolAfter(s: string, n: nat, c: nat, e: nat, ws: seq<string>)
  {
    && n <= c <= |s|
    && (forall j :: n <= j < c ==> IsSpace(s[j]))
    && exists k :: 0 <= k < |ws| && MatchesAt(s, c, ws[k]) && e == c + |ws[k]|
  }

  /** The currency symbols an amount pattern accepts as group 2. */
  function Symbols(p: Pattern): seq<string>
  {
    match p
    case TurkishAmount => TurkishCurrencies
    case ForeignAmount => ForeignCurrencies
    case _ => AnyCurrency
  }

  /** `s[a..n]` is a number that amount pattern `p` accepts as group 1. */
  predicate NumberOf(p: Pattern, s: string, a: nat, n: nat)
  {
    match p
    case TurkishAmount => GroupedNumber(s, a, n, ".", ",")
    case ForeignAmount => GroupedNumber(s, a, n, ",", ".")
    case SimpleAmount => PlainNumber(s, a, n)
    case _ => GroupedNumber(s, a, n, ".,", ".,")
  }

  /** `s[i..a]` is what amount pattern `p` requires before group 1. */
  predicate LeadOf(p: Pattern, s: string, i: nat, a: nat)
  {
    if p == KeywordAmount then KeywordLead(s, i, a) else a == i
  }

  /** `m` is a way amount pattern `p` matches at `i`: its lead, the number
      as group 1, blanks, and a currency symbol as group 2, which ends the
      match. */
  predicate IsAmountParse(p: Pattern, s: string, i: nat, m: Match)
  {
    && |m.groups| == 2
    && m.whole == Span(i, m.groups[1].end)
    && LeadOf(p, s, i, m.groups[0].start)
    && NumberOf(p, s, m.groups[0].start, m.groups[0].end)
    && SymbolAfter(s, m.groups[0].end, m.groups[1].start, m.groups[1].end, Symbols(p))
  }

  /** The first of the alternatives `ws` that matches at `i` (ignoring case),
      as the offset where it ends. */
  function FirstWord(s: string, i: nat, ws: seq<string>): (r: Option<nat>)
    ensures r.None? <==> forall k :: 0 <= k < |ws| ==> !MatchesAt(s, i, ws[k])
    ensures r.Some? ==> exists k :: 0 <= k < |ws| && MatchesAt(s, i, ws[k]) && r.value == i + |ws[k]|
  {
    if ws == [] then None
    else if MatchesAt(s, i, ws[0]) then Some(i + |ws[0]|)
    else
      var r := FirstWord(s, i, ws[1..]);
      assert forall k :: 1 <= k < |ws| ==> ws[k] == ws[1..][k - 1];
      r
  }

  /** `\s*(ws)` starting at `i`: the currency symbol's range, if any. */
  function CurrencyAfter(s: string, i: nat, ws: seq<string>): (r: Option<Span>)
    requires i <= |s|
    ensures r.Some? ==> i <= r.value.start < r.value.end <= |s|
    ensures r.Some? ==> forall j :: i <= j < r.value.start ==> IsSpace(s[j])
    ensures r.Some? ==> exists k :: 0 <= k < |ws| && |ws[k]| > 0 && MatchesAt(s, r.value.start, ws[k])
                                   && r.value.end == r.value.start + |ws[k]|
    ensures r.Some? ==> SymbolAfter(s, i, r.value.start, r.value.end, ws)
  {
    var w := RunEnd(s, i, Blank);
    match FirstWord(s, w, ws)
    case None => None
    case Some(e) =>
      if e == w then None  // an empty alternative never occurs among the symbols
      else Some(Span(w, e))
  }

  /** `\d{1,3}(?:[groupSeps]\d{3})*(?:[fractionSeps]\d{2})?` starting at `i`. */
  function GroupedNumberEnd(s: string, i: nat, groupSeps: string, fractionSeps: string): (r: Option<nat>)
    requires i <= |s|
    ensures r.Some? ==> i < r.value <= |s|
    ensures r.Some? ==> GroupedNumber(s, i, r.value, groupSeps, fractionSeps)
  {
    var d := RunEnd(s, i, Digit);
    if 1 <= d - i <= 3 then
      GroupsTail(s, d, groupSeps, fractionSeps);
      assert DigitsAt(s, i, d - i);
      Some(FractionEnd(s, GroupsEnd(s, d, groupSeps), fractionSeps))
    else None
  }

  /** The greedy groups and fraction from `d` form a group tail. */
  lemma {:induction false} GroupsTail(s: string, d: nat, groupSeps: string, fractionSeps: string)
    requires d <= |s|
    ensures GroupTail(s, d, FractionEnd(s, GroupsEnd(s, d, groupSeps), fractionSeps), groupSeps, fractionSeps)
    decreases |s| - d
  {
    if GroupAt(s, d, groupSeps) {
      GroupsTail(s, d + 4, groupSeps, fractionSeps);
    }
  }

  /** `\d+[.,]\d{2}` starting at `i`. */
  function PlainNumberEnd(s: string, i: nat): (r: Option<nat>)
    requires i <= |s|
    ensures r.Some? ==> i < r.value <= |s|
    ensures r.Some? ==> PlainNumber(s, i, r.value)
  {
    var d := RunEnd(s, i, Digit);
    if d > i && FractionAt(s, d, ".,") then Some(d + 3) else None
  }

  /** A number captured as group 1 over `[start, numberEnd)`, then the
      currency suffix captured as group 2. */
  function AmountMatch(s: string, i: nat, start: nat, numberEnd: Option<nat>, ws: seq<string>): (r: Option<Match>)
    requires i <= start <= |s|
    requires numberEnd.Some? ==> start < numberEnd.value <= |s|
    ensures r.Some? ==> r.value.whole.start == i < r.value.whole.end <= |s|
    ensures r.Some? ==> |r.value.groups| == 2
    ensures r.Some? ==> forall g :: 0 <= g < 2 ==>
              i <= r.value.groups[g].start < r.value.groups[g].end <= r.value.whole.end
    ensures r.Some? ==> exists k :: 0 <= k < |ws| && MatchesAt(s, r.value.groups[1].start, ws[k])
    ensures r.Some? ==> && numberEnd.Some?
                        && r.value.whole == Span(i, r.value.groups[1].end)
                        && r.value.groups[0] == Span(start, numberEnd.value)
                        && SymbolAfter(s, numberEnd.value, r.value.groups[1].start, r.value.groups[1].end, ws)
  {
    match numberEnd
    case None => None
    case Some(n) =>
      match CurrencyAfter(s, n, ws)
      case None => None
      case Some(c) => Some(Match(Span(i, c.end), [Span(start, n), c]))
  }

  /** The match of `https?://[class]+` at `i`: `s?` is greedy, so `https://`
      is tried before `http://`, and the class run is as long as it goes. */
  function LinkEnd(s: string, i: nat): (r: Option<nat>)
    requires i <= |s|
    ensures r.Some? ==> i < r.value <= |s|
  {
    if MatchesAt(s, i, "https://") && i + 8 < |s| && IsUrlChar(s[i + 8]) then Some(RunEnd(s, i + 8, UrlText))
    else if MatchesAt(s, i, "http://") && i + 7 < |s| && IsUrlChar(s[i + 7]) then Some(RunEnd(s, i + 7, UrlText))
    else None
  }

  /** The match of pattern `p` that starts exactly at offset `i`, if any. */
  function MatchAt(p: Pattern, s: string, i: nat): (r: Option<Match>)
    requires i <= |s|
    ensures r.Some? ==> r.value.whole.start == i < r.value.whole.end <= |s|
    ensures r.Some? ==> |r.value.groups| == GroupCount(p)
    ensures r.Some? ==> forall g :: 0 <= g < |r.value.groups| ==>
              i <= r.value.groups[g].start < r.value.groups[g].end <= r.value.whole.end
  {
    match p
    case Link =>
      (match LinkEnd(s, i)
       case None => None
       case Some(e) => Some(Match(Span(i, e), [Span(i, e)])))
    case TurkishAmount =>
      AmountMatch(s, i, i, GroupedNumberEnd(s, i, ".", ","), TurkishCurrencies)
    case ForeignAmount =>
      AmountMatch(s, i, i, GroupedNumberEnd(s, i, ",", "."), ForeignCurrencies)
    case SimpleAmount =>
      AmountMatch(s, i, i, PlainNumberEnd(s, i), AnyCurrency)
    case KeywordAmount =>
      KeywordMatch(s, i)
  }

  /** `(?:keyword)[:\s]+` and then an amount, starting at `i`. */
  function KeywordMatch(s: string, i: nat): (r: Option<Match>)
    requires i <= |s|
    ensures r.Some? ==> r.value.whole.start == i < r.value.whole.end <= |s|
    ensures r.Some? ==> |r.value.groups| == 2
    ensures r.Some? ==> forall g :: 0 <= g < 2 ==>
              i <= r.value.groups[g].start < r.value.groups[g].end <= r.value.whole.end
  {
    match FirstWord(s, i, AmountKeywords)
    case None => None
    case Some(k) =>
      if k > |s| then None
      else
        var n := RunEnd(s, k, ColonOrBlank);
        if n == k then None
        else AmountMatch(s, i, n, GroupedNumberEnd(s, n, ".,", ".,"), AnyCurrency)
  }

  /** Every match of the keyword pattern is a parse of it: a keyword, a run
      of colons and blanks, a grouped number, blanks and a currency symbol. */
  lemma KeywordMatchSound(s: string, i: nat)
    requires i <= |s|
    ensures KeywordMatch(s, i).Some? ==> IsAmountParse(KeywordAmount, s, i, KeywordMatch(s, i).value)
  {
    match FirstWord(s, i, AmountKeywords)
    case None =>
    case Some(k) =>
      if k <= |s| {
        var n := RunEnd(s, k, ColonOrBlank);
        if n != k {
          KeywordLeadOf(s, i, k, n);
        }
      }
  }

  /** The keyword the matcher finds and the run after it form a lead. */
  lemma KeywordLeadOf(s: string, i: nat, k: nat, n: nat)
    requires FirstWord(s, i, AmountKeywords) == Some(k)
    requires k <= |s| && k < n && RunEnd(s, k, ColonOrBlank) == n
    ensures KeywordLead(s, i, n)
  {
    var l :| 0 <= l < |AmountKeywords| && MatchesAt(s, i, AmountKeywords[l]) && k == i + |AmountKeywords[l]|;
    assert KeywordRun(s, i, l, n);
  }

  /** Every match of an amount pattern captures one of the currency symbols
      as its second group. */
  lemma AmountNeedsCurrency(p: Pattern, s: string, i: nat)
    requires p != Link && i <= |s|
    ensures MatchAt(p, s, i).Some? ==>
              exists k :: 0 <= k < |AnyCurrency| && MatchesAt(s, MatchAt(p, s, i).value.groups[1].start, AnyCurrency[k])
  {
    var r := MatchAt(p, s, i);
    if r.Some? {
      var j := r.value.groups[1].start;
      if p == TurkishAmount {
        var k :| 0 <= k < |TurkishCurrencies| && MatchesAt(s, j, TurkishCurrencies[k]);
        assert AnyCurrency[k] == TurkishCurrencies[k];
      } else if p == ForeignAmount {
        var k :| 0 <= k < |ForeignCurrencies| && MatchesAt(s, j, ForeignCurrencies[k]);
        assert AnyCurrency[k + 2] == ForeignCurrencies[k];
      }
    }
  }

  /* Completeness: when a pattern admits a parse at `i`, the matcher finds
     it. Each greedy piece stops exactly where the parse's piece does,
     because the character after the parse's piece cannot continue it. */

  /** A greedy run stops at the first character outside its class. */
  lemma {:induction false} RunEndAt(s: string, i: nat, e: nat, k: CharClass)
    requires i <= e <= |s|
    requires forall j :: i <= j < e ==> InClass(s[j], k)
    requires e == |s| || !InClass(s[e], k)
    ensures RunEnd(s, i, k) == e
    decreases e - i
  {
    if i < e {
      RunEndAt(s, i + 1, e, k);
    }
  }

  /** The greedy groups and fraction from `d` end where a group tail ends
      when the character after it cannot belong to a number. */
  lemma {:induction false} GroupTailEnd(s: string, d: nat, n: nat, groupSeps: string, fractionSeps: string)
    requires Separators(groupSeps) && Separators(fractionSeps)
    requires GroupTail(s, d, n, groupSeps, fractionSeps)
    requires n < |s| && !NumberChar(s[n])
    ensures d <= n
    ensures FractionEnd(s, GroupsEnd(s, d, groupSeps), fractionSeps) == n
    decreases n - d
  {
    if d == n {
      assert s[d] !in groupSeps && s[d] !in fractionSeps;
    } else if n == d + 3 && FractionAt(s, d, fractionSeps) {
      assert !IsDigit(s[d + 3]);
    } else {
      GroupTailEnd(s, d + 4, n, groupSeps, fractionSeps);
    }
  }

  lemma GroupedNumberComplete(s: string, i: nat, n: nat, groupSeps: string, fractionSeps: string)
    requires Separators(groupSeps) && Separators(fractionSeps)
    requires GroupedNumber(s, i, n, groupSeps, fractionSeps)
    requires n < |s| && !NumberChar(s[n])
    ensures GroupedNumberEnd(s, i, groupSeps, fractionSeps) == Some(n)
  {
    var a :| 1 <= a <= 3 && i + a <= n && DigitsAt(s, i, a) && GroupTail(s, i + a, n, groupSeps, fractionSeps);
    assert s[i + a] !in groupSeps && s[i + a] !in fractionSeps ==> i + a == n;
    assert !IsDigit(s[i + a]);
    RunEndAt(s, i, i + a, Digit);
    GroupTailEnd(s, i + a, n, groupSeps, fractionSeps);
  }

  lemma PlainNumberComplete(s: string, i: nat, n: nat)
    requires PlainNumber(s, i, n)
    ensures PlainNumberEnd(s, i) == Some(n)
  {
    RunEndAt(s, i, n - 3, Digit);
  }

  /** Symbol lists whose entries are non-empty, start with neither a blank
      nor a number character, and start differently (ignoring case). */
  predicate SymbolList(ws: seq<string>)
  {
    && (forall k :: 0 <= k < |ws| ==> |ws[k]| > 0 && !NumberChar(FoldCase(ws[k][0])) && !IsSpace(FoldCase(ws[k][0])))
    && (forall k, l :: 0 <= k < |ws| && 0 <= l < |ws| && k != l ==> FoldCase(ws[k][0]) != FoldCase(ws[l][0]))
  }

  /** The currency symbol a folded first letter belongs to, as its
      position in `AnyCurrency`; -1 for any other letter. */
  function SymbolOf(c: char): int
  {
    if c == 't' then 0
    else if c == '\U{20BA}' then 1
    else if c == '$' then 2
    else if c == 'u' then 3
    else if c == 'e' then 4
    else if c == '\U{20AC}' then 5
    else -1
  }

  lemma SymbolsAreDistinct(p: Pattern)
    ensures SymbolList(Symbols(p))
  {
    var ws := Symbols(p);
    var offset := if p == ForeignAmount then 2 else 0;
    forall k | 0 <= k < |ws|
      ensures |ws[k]| > 0 && SymbolOf(FoldCase(ws[k][0])) == offset + k
      ensures !NumberChar(FoldCase(ws[k][0])) && !IsSpace(FoldCase(ws[k][0]))
    {
      assert ws[k] == AnyCurrency[offset + k];
      SymbolInitial(offset + k);
    }
  }

  lemma SymbolInitial(k: nat)
    requires k < |AnyCurrency|
    ensures |AnyCurrency[k]| > 0 && SymbolOf(FoldCase(AnyCurrency[k][0])) == k
    ensures !NumberChar(FoldCase(AnyCurrency[k][0])) && !IsSpace(FoldCase(AnyCurrency[k][0]))
  {
    assert FoldCase('T') == 't' && FoldCase('U') == 'u' && FoldCase('E') == 'e';
  }

  /** A symbol occurrence starts with a character that is neither a blank
      nor part of a number. */
  lemma SymbolStart(s: string, c: nat, ws: seq<string>, k: nat)
    requires SymbolList(ws) && k < |ws| && MatchesAt(s, c, ws[k])
    ensures c < |s| && !NumberChar(s[c]) && !IsSpace(s[c])
  {
    assert SameIgnoringCase(s[c + 0], ws[k][0]);
  }

  /** At most one symbol of the list occurs at a position. */
  lemma OnlySymbol(s: string, c: nat, ws: seq<string>, k: nat)
    requires SymbolList(ws) && k < |ws| && MatchesAt(s, c, ws[k])
    ensures forall l :: 0 <= l < |ws| && l != k ==> !MatchesAt(s, c, ws[l])
  {
    assert SameIgnoringCase(s[c + 0], ws[k][0]);
    forall l | 0 <= l < |ws| && l != k
      ensures !MatchesAt(s, c, ws[l])
    {
      assert !SameIgnoringCase(s[c + 0], ws[l][0]);
    }
  }

  /** What follows a number in a parse cannot continue the number. */
  lemma SymbolAfterStops(s: string, n: nat, c: nat, e: nat, ws: seq<string>)
    requires SymbolList(ws) && SymbolAfter(s, n, c, e, ws)
    ensures n < |s| && !NumberChar(s[n])
  {
    var k :| 0 <= k < |ws| && MatchesAt(s, c, ws[k]) && e == c + |ws[k]|;
    SymbolStart(s, c, ws, k);
  }

  lemma CurrencyAfterComplete(s: string, n: nat, c: nat, e: nat, ws: seq<string>)
    requires SymbolList(ws) && SymbolAfter(s, n, c, e, ws)
    ensures CurrencyAfter(s, n, ws) == Some(Span(c, e))
  {
    var k :| 0 <= k < |ws| && MatchesAt(s, c, ws[k]) && e == c + |ws[k]|;
    SymbolStart(s, c, ws, k);
    RunEndAt(s, n, c, Blank);
    OnlySymbol(s, c, ws, k);
    FirstWordOnly(s, c, ws, k);
  }

  /** Two different keywords never occur at the same position. */
  lemma OnlyKeyword(s: string, i: nat, k: nat)
    requires k < |AmountKeywords| && MatchesAt(s, i, AmountKeywords[k])
    ensures forall l :: 0 <= l < |AmountKeywords| && l != k ==> !MatchesAt(s, i, AmountKeywords[l])
  {
    forall l | 0 <= l < |AmountKeywords| && l != k
      ensures !MatchesAt(s, i, AmountKeywords[l])
    {
      var j := if k == 3 || l == 3 then 0 else if k + l == 1 then 2 else 1;
      assert SameIgnoringCase(s[i + j], AmountKeywords[k][j]);
      assert !SameIgnoringCase(s[i + j], AmountKeywords[l][j]);
    }
  }

  lemma KeywordLeadComplete(s: string, i: nat, a: nat)
    requires KeywordLead(s, i, a) && a < |s| && IsDigit(s[a])
    ensures var r := KeywordMatch(s, i);
            r == AmountMatch(s, i, a, GroupedNumberEnd(s, a, ".,", ".,"), AnyCurrency)
  {
    var k: nat :| k < |AmountKeywords| && KeywordRun(s, i, k, a);
    OnlyKeyword(s, i, k);
    FirstWordOnly(s, i, AmountKeywords, k);
    RunEndAt(s, i + |AmountKeywords[k]|, a, ColonOrBlank);
    KeywordMatchAt(s, i, i + |AmountKeywords[k]|, a);
  }

  /** The keyword matcher once the keyword and the `[:\s]+` run are known. */
  lemma KeywordMatchAt(s: string, i: nat, k: nat, a: nat)
    requires i <= |s| && i < k < a <= |s|
    requires FirstWord(s, i, AmountKeywords) == Some(k)
    requires RunEnd(s, k, ColonOrBlank) == a
    ensures KeywordMatch(s, i) == AmountMatch(s, i, a, GroupedNumberEnd(s, a, ".,", ".,"), AnyCurrency)
  {
  }

  /** When exactly one alternative occurs at `i`, it is the one found. */
  lemma FirstWordOnly(s: string, i: nat, ws: seq<string>, k: nat)
    requires k < |ws| && MatchesAt(s, i, ws[k])
    requires forall l :: 0 <= l < |ws| && l != k ==> !MatchesAt(s, i, ws[l])
    ensures FirstWord(s, i, ws) == Some(i + |ws[k]|)
  {
  }

  /** Every parse of an amount pattern at `i` is what the matcher reports. */
  lemma AmountMatchComplete(p: Pattern, s: string, i: nat, m: Match)
    requires p != Link && i <= |s|
    requires IsAmountParse(p, s, i, m)
    ensures MatchAt(p, s, i) == Some(m)
  {
    ParseEnds(p, s, i, m);
    var g1 := m.groups[0];
    match p
    case TurkishAmount =>
      GroupedNumberComplete(s, i, g1.end, ".", ",");
    case ForeignAmount =>
      GroupedNumberComplete(s, i, g1.end, ",", ".");
    case SimpleAmount =>
      PlainNumberComplete(s, i, g1.end);
    case KeywordAmount =>
      GroupedNumberComplete(s, g1.start, g1.end, ".,", ".,");
      KeywordComplete(s, i, g1.start, g1.end, m.groups[1]);
  }

  lemma KeywordComplete(s: string, i: nat, a: nat, n: nat, g2: Span)
    requires i <= |s| && KeywordLead(s, i, a) && a < n <= |s| && IsDigit(s[a])
    requires GroupedNumberEnd(s, a, ".,", ".,") == Some(n)
    requires CurrencyAfter(s, n, AnyCurrency) == Some(g2)
    ensures KeywordMatch(s, i) == Some(Match(Span(i, g2.end), [Span(a, n), g2]))
  {
    KeywordLeadComplete(s, i, a);
    KeywordChain(s, i, a, n, g2);
  }

  lemma KeywordChain(s: string, i: nat, a: nat, n: nat, g2: Span)
    requires i <= a < n <= |s|
    requires KeywordMatch(s, i) == AmountMatch(s, i, a, GroupedNumberEnd(s, a, ".,", ".,"), AnyCurrency)
    requires GroupedNumberEnd(s, a, ".,", ".,") == Some(n)
    requires CurrencyAfter(s, n, AnyCurrency) == Some(g2)
    ensures KeywordMatch(s, i) == Some(Match(Span(i, g2.end), [Span(a, n), g2]))
  {
    AmountMatchOf(s, i, a, n, AnyCurrency, g2);
  }

  /** The amount match once the number and the symbol after it are known. */
  lemma AmountMatchOf(s: string, i: nat, start: nat, n: nat, ws: seq<string>, g: Span)
    requires i <= start < n <= |s|
    requires CurrencyAfter(s, n, ws) == Some(g)
    ensures AmountMatch(s, i, start, Some(n), ws) == Some(Match(Span(i, g.end), [Span(start, n), g]))
  {
  }

  /** What a parse fixes after its number: the number cannot go on, and the
      symbol after it is the one the matcher finds. */
  lemma ParseEnds(p: Pattern, s: string, i: nat, m: Match)
    requires p != Link && IsAmountParse(p, s, i, m)
    ensures m.groups[0].end < |s| && !NumberChar(s[m.groups[0].end])
    ensures CurrencyAfter(s, m.groups[0].end, Symbols(p)) == Some(m.groups[1])
    ensures m == Match(Span(i, m.groups[1].end), [m.groups[0], m.groups[1]])
  {
    var g1, g2 := m.groups[0], m.groups[1];
    SymbolsAreDistinct(p);
    SymbolAfterStops(s, g1.end, g2.start, g2.end, Symbols(p));
    CurrencyAfterComplete(s, g1.end, g2.start, g2.end, Symbols(p));
  }

  /** Every match of an amount pattern is a parse of the pattern. */
  lemma AmountMatchSound(p: Pattern, s: string, i: nat)
    requires p != Link && i <= |s|
    ensures MatchAt(p, s, i).Some? ==> IsAmountParse(p, s, i, MatchAt(p, s, i).value)
  {
    match p
    case TurkishAmount =>
    case ForeignAmount =>
    case SimpleAmount =>
    case KeywordAmount => KeywordMatchSound(s, i);
  }

  /** An amount pattern matches at `i` with exactly the parse it admits
      there: the matcher is sound and complete for the pattern. */
  lemma AmountMatchIff(p: Pattern, s: string, i: nat, m: Match)
    requires p != Link && i <= |s|
    ensures MatchAt(p, s, i) == Some(m) <==> IsAmountParse(p, s, i, m)
  {
    AmountMatchSound(p, s, i);
    if IsAmountParse(p, s, i, m) {
      AmountMatchComplete(p, s, i, m);
    }
  }

  /** An amount pattern admits at most one parse at a position, so the
      regex engine's backtracking order cannot make it report another
      match than the matcher does. */
  lemma AmountParseUnique(p: Pattern, s: string, i: nat, m1: Match, m2: Match)
    requires p != Link && i <= |s|
    requires IsAmountParse(p, s, i, m1) && IsAmountParse(p, s, i, m2)
    ensures m1 == m2
  {
    AmountMatchComplete(p, s, i, m1);
    AmountMatchComplete(p, s, i, m2);
  }

  /* Where no match starts: the facts that let the search be followed over
     a given text one offset at a time. */

  /** The amount patterns whose match begins with the number itself. */
  predicate NumberFirst(p: Pattern)
  {
    p == TurkishAmount || p == ForeignAmount || p == SimpleAmount
  }

  /** The greedy group 1 such a pattern reads at `i`. */
  function NumberEnd(p: Pattern, s: string, i: nat): (r: Option<nat>)
    requires NumberFirst(p) && i <= |s|
    ensures r.Some? ==> i < r.value <= |s|
    ensures MatchAt(p, s, i) == AmountMatch(s, i, i, r, Symbols(p))
  {
    if p == TurkishAmount then GroupedNumberEnd(s, i, ".", ",")
    else if p == ForeignAmount then GroupedNumberEnd(s, i, ",", ".")
    else PlainNumberEnd(s, i)
  }

  /** A number-first pattern matches only where a digit starts. */
  lemma NoDigitNoMatch(p: Pattern, s: string, i: nat)
    requires NumberFirst(p) && i <= |s|
    requires i == |s| || !IsDigit(s[i])
    ensures MatchAt(p, s, i) == None
  {
    RunEndAt(s, i, i, Digit);
  }

  /** The currency suffix, blanks included, never begins with a character
      that could continue the number before it. */
  lemma CurrencyStops(s: string, n: nat, ws: seq<string>)
    requires SymbolList(ws) && n <= |s|
    ensures CurrencyAfter(s, n, ws).Some? ==> n < |s| && !NumberChar(s[n])
  {
    var r := CurrencyAfter(s, n, ws);
    if r.Some? {
      SymbolAfterStops(s, n, r.value.start, r.value.end, ws);
    }
  }

  /** A number-first pattern does not match where its greedy number runs
      straight into another digit or separator: the engine cannot give the
      number back, and the currency cannot start there. */
  lemma NumberRunsOn(p: Pattern, s: string, i: nat, n: nat)
    requires NumberFirst(p) && i <= |s|
    requires NumberEnd(p, s, i) == Some(n) && n < |s| && NumberChar(s[n])
    ensures MatchAt(p, s, i) == None
  {
    SymbolsAreDistinct(p);
    CurrencyStops(s, n, Symbols(p));
  }

  /** An amount pattern matches nowhere from `from` on when none of its
      currency symbols occurs from `from` on. */
  lemma NoSymbolNoMatch(p: Pattern, s: string, from: nat)
    requires p != Link && from <= |s|
    requires forall j, k :: from <= j <= |s| && 0 <= k < |Symbols(p)| ==> !MatchesAt(s, j, Symbols(p)[k])
    ensures forall q :: from <= q <= |s| ==> MatchAt(p, s, q) == None
  {
    forall q | from <= q <= |s|
      ensures MatchAt(p, s, q) == None
    {
      AmountMatchSound(p, s, q);
    }
  }

  /** The keyword pattern matches only where a keyword starts. */
  lemma NoKeywordNoMatch(s: string, i: nat)
    requires i <= |s|
    requires forall k :: 0 <= k < |AmountKeywords| ==> !MatchesAt(s, i, AmountKeywords[k])
    ensures MatchAt(KeywordAmount, s, i) == None
  {
  }

  /** The outcome of trying a pattern at every offset of the text. */
  type Attempts = seq<Option<Match>>

  /** Entry `q` is a match starting at `q` and ending within the text, or
      nothing. */
  predicate WellFormed(t: Attempts)
  {
    forall q :: 0 <= q < |t| && t[q].Some? ==> t[q].value.whole.start == q < t[q].value.whole.end <= |t|
  }

  /** Pattern `p` tried at every offset of `s`. */
  function AttemptsOf(p: Pattern, s: string): (t: Attempts)
    ensures |t| == |s|
    ensures forall q :: 0 <= q < |s| ==> t[q] == MatchAt(p, s, q)
    ensures WellFormed(t)
  {
    seq(|s|, q requires 0 <= q < |s| => MatchAt(p, s, q))
  }

  /** The matches at or after `from`, found the way `NSRegularExpression`
      enumerates them: the leftmost match, then the search resumes where it
      ended. */
  function ScanFrom(t: Attempts, from: nat): (ms: seq<Match>)
    requires WellFormed(t) && from <= |t|
    ensures forall k :: 0 <= k < |ms| ==>
              from <= ms[k].whole.start < |t| && t[ms[k].whole.start] == Some(ms[k])
    ensures forall k :: 0 <= k < |ms| - 1 ==> ms[k].whole.end <= ms[k + 1].whole.start
    decreases |t| - from
  {
    if from == |t| then []
    else
      match t[from]
      case None => ScanFrom(t, from + 1)
      case Some(m) => [m] + ScanFrom(t, m.whole.end)
  }

  /** No match starts in `[a, b)`. */
  predicate NoMatchIn(t: Attempts, a: nat, b: nat)
  {
    forall q :: a <= q < b && q < |t| ==> t[q].None?
  }

  /** The declarative description of the search: `ms` is the sequence of
      leftmost matches, each one the first match starting at or after the
      end of the previous one (or at or after `from`), and no match starts
      after the last one. */
  predicate IsLeftmostScan(t: Attempts, from: nat, ms: seq<Match>)
    decreases |ms|
  {
    if ms == [] then NoMatchIn(t, from, |t|)
    else
      var m := ms[0];
      && from <= m.whole.start < |t|
      && NoMatchIn(t, from, m.whole.start)
      && t[m.whole.start] == Some(m)
      && IsLeftmostScan(t, m.whole.end, ms[1..])
  }

  /** The search meets its description. */
  lemma {:induction false} ScanIsLeftmost(t: Attempts, from: nat)
    requires WellFormed(t) && from <= |t|
    ensures IsLeftmostScan(t, from, ScanFrom(t, from))
    decreases |t| - from
  {
    if from < |t| {
      match t[from]
      case None =>
        ScanIsLeftmost(t, from + 1);
        var ms := ScanFrom(t, from + 1);
        if ms != [] {
          assert NoMatchIn(t, from, ms[0].whole.start);
        }
      case Some(m) =>
        var rest := ScanFrom(t, m.whole.end);
        ScanIsLeftmost(t, m.whole.end);
        assert ([m] + rest)[1..] == rest;
    }
  }

  /** ... and nothing else does: the description has exactly one solution. */
  lemma {:induction false} LeftmostScanUnique(t: Attempts, from: nat, ms: seq<Match>)
    requires WellFormed(t) && from <= |t|
    requires IsLeftmostScan(t, from, ms)
    ensures ms == ScanFrom(t, from)
    decreases |t| - from, |ms|
  {
    if ms == [] {
      NoMatchSkipped(t, from, |t|);
    } else {
      var m := ms[0];
      NoMatchSkipped(t, from, m.whole.start);
      LeftmostScanUnique(t, m.whole.end, ms[1..]);
    }
  }

  /** Offsets where nothing matches are skipped over. */
  lemma {:induction false} NoMatchSkipped(t: Attempts, a: nat, b: nat)
    requires WellFormed(t) && a <= b <= |t|
    requires NoMatchIn(t, a, b)
    ensures ScanFrom(t, a) == ScanFrom(t, b)
    decreases b - a
  {
    if a < b {
      NoMatchSkipped(t, a + 1, b);
    }
  }

  /** The search reports the first match at or after `from` first, and
      resumes where it ends. */
  lemma FirstMatchFrom(t: Attempts, from: nat, q: nat)
    requires WellFormed(t) && from <= q < |t| && t[q].Some?
    requires NoMatchIn(t, from, q)
    ensures ScanFrom(t, from) == [t[q].value] + ScanFrom(t, t[q].value.whole.end)
  {
    NoMatchSkipped(t, from, q);
  }

  /** Without a match at or after `from`, the search reports nothing more. */
  lemma NoMatchFrom(t: Attempts, from: nat)
    requires WellFormed(t) && from <= |t|
    requires NoMatchIn(t, from, |t|)
    ensures ScanFrom(t, from) == []
  {
    NoMatchSkipped(t, from, |t|);
  }

  /** A match the search does not report starts inside one it does: each
      match start is covered by a reported match. */
  lemma {:induction false} MatchCovered(t: Attempts, from: nat, q: nat)
    requires WellFormed(t) && from <= q < |t| && t[q].Some?
    ensures exists k :: 0 <= k < |ScanFrom(t, from)| &&
              ScanFrom(t, from)[k].whole.start <= q < ScanFrom(t, from)[k].whole.end
    decreases |t| - from
  {
    match t[from]
    case None =>
      assert q != from;
      MatchCovered(t, from + 1, q);
      assert ScanFrom(t, from) == ScanFrom(t, from + 1);
    case Some(m) =>
      var rest := ScanFrom(t, m.whole.end);
      assert ScanFrom(t, from) == [m] + rest;
      if m.whole.end <= q {
        MatchCovered(t, m.whole.end, q);
        var k :| 0 <= k < |rest| && rest[k].whole.start <= q < rest[k].whole.end;
        ConsIndex(m, rest, k);
      } else {
        assert ScanFrom(t, from)[0] == m && m.whole.start == from;
      }
  }

  lemma ConsIndex(m: Match, rest: seq<Match>, k: nat)
    requires k < |rest|
    ensures ([m] + rest)[k + 1] == rest[k]
  {
  }

  /** All matches of `p` in `s`, left to right. */
  function Scan(p: Pattern, s: string): (ms: seq<Match>)
    ensures forall k :: 0 <= k < |ms| ==>
              ms[k].whole.start < |s| && MatchAt(p, s, ms[k].whole.start) == Some(ms[k])
    ensures forall k :: 0 <= k < |ms| - 1 ==> ms[k].whole.end <= ms[k + 1].whole.start
  {
    ScanFrom(AttemptsOf(p, s), 0)
  }
}
