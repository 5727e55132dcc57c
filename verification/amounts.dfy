/** Amount extraction: `TextExtractor.extractAmount(from:)`. Each candidate's
    number is normalised for the locale and parsed, and the strictly
    greatest parsed value wins together with its currency symbol. */
module Amounts {
  import opened Common
  import opened Decimals
  import opened Selection
  import opened Candidates
  import opened Chars
  import opened Patterns

  /** A candidate as the selection loop sees it: its number normalised
      and parsed, and its currency symbol. */
  function Evaluate(c: Candidate): Parsed
  {
    Parsed(ParseDecimal(Normalize(c.number)), c.currency)
  }

  function EvaluateAll(cs: seq<Candidate>): (ps: seq<Parsed>)
    ensures |ps| == |cs|
    ensures forall k :: 0 <= k < |cs| ==> ps[k] == Evaluate(cs[k])
  {
    seq(|cs|, k requires 0 <= k < |cs| => Evaluate(cs[k]))
  }

  /** `extractAmount(from:)` as a function. */
  function ExtractAmount(text: string): AmountResult
  {
    Select(EvaluateAll(AllCandidates(text)))
  }

  /** What the extraction returns: nothing exactly when no candidate of any
      pattern parses, otherwise the first greatest parsed candidate with its
      currency symbol as written. */
  lemma ExtractAmountChooses(text: string)
    ensures ChosenFrom(EvaluateAll(AllCandidates(text)), ExtractAmount(text))
  {
    SelectChooses(EvaluateAll(AllCandidates(text)));
  }

  /** Text in which no currency symbol occurs (in any case) has no amount. */
  lemma NoCurrencyNoAmount(text: string)
    requires forall j: nat, k :: j <= |text| && 0 <= k < |AnyCurrency| ==> !MatchesAt(text, j, AnyCurrency[k])
    ensures ExtractAmount(text) == AmountResult(None, None)
  {
    NoCandidates(text, |AmountPatterns|);
  }

  lemma {:induction false} NoCandidates(text: string, n: nat)
    requires forall j: nat, k :: j <= |text| && 0 <= k < |AnyCurrency| ==> !MatchesAt(text, j, AnyCurrency[k])
    requires n <= |AmountPatterns|
    ensures CandidatesUpTo(n, text) == []
  {
    if n > 0 {
      NoCandidates(text, n - 1);
      var p := AmountPatterns[n - 1];
      NoCurrencyNoMatches(p, text);
      assert |CandidatesOf(p, text)| == 0;
      assert CandidatesUpTo(n, text) == [] + CandidatesOf(p, text);
    }
  }

  /** Without a currency symbol an amount pattern matches nowhere. */
  lemma NoCurrencyNoMatches(p: Pattern, text: string)
    requires p != Link
    requires forall j: nat, k :: j <= |text| && 0 <= k < |AnyCurrency| ==> !MatchesAt(text, j, AnyCurrency[k])
    ensures Scan(p, text) == []
  {
    var t := AttemptsOf(p, text);
    forall q | 0 <= q < |t|
      ensures t[q].None?
    {
      AmountNeedsCurrency(p, text, q);
    }
    NoMatchSkipped(t, 0, |t|);
  }

  lemma EvaluateSnoc(cs: seq<Candidate>, c: Candidate)
    ensures EvaluateAll(cs + [c]) == EvaluateAll(cs) + [Evaluate(c)]
  {
  }

  /** `extractAmount(from:)` as written: two nested loops over the patterns
      and their matches, normalising, parsing and keeping the running
      strict maximum. */
  method ExtractAmountLoop(text: string) returns (amount: Option<real>, currency: Option<string>)
    ensures ChosenFrom(EvaluateAll(AllCandidates(text)), AmountResult(amount, currency))
    ensures AmountResult(amount, currency) == ExtractAmount(text)
  {
    amount, currency := None, None;
    for pi := 0 to |AmountPatterns|
      invariant AmountResult(amount, currency) == Select(EvaluateAll(CandidatesUpTo(pi, text)))
    {
      amount, currency := ConsiderMatches(CandidatesUpTo(pi, text), CandidatesOf(AmountPatterns[pi], text),
                                          amount, currency);
    }
    SelectChooses(EvaluateAll(AllCandidates(text)));
  }

  /** The inner loop of `extractAmount(from:)` over the matches `cs` of one
      pattern, continuing from the state reached after the candidates `done`. */
  method ConsiderMatches(ghost done: seq<Candidate>, cs: seq<Candidate>, amount0: Option<real>, currency0: Option<string>)
    returns (amount: Option<real>, currency: Option<string>)
    requires AmountResult(amount0, currency0) == Select(EvaluateAll(done))
    ensures AmountResult(amount, currency) == Select(EvaluateAll(done + cs))
  {
    amount, currency := amount0, currency0;
    TakeEnds(done, cs);
    for mi := 0 to |cs|
      invariant AmountResult(amount, currency) == Select(EvaluateAll(done + cs[..mi]))
    {
      var amountStr := Normalize(cs[mi].number);
      var parsed := ParseDecimal(amountStr);
      assert Evaluate(cs[mi]) == Parsed(parsed, cs[mi].currency);
      amount, currency := Improve(amount, currency, parsed, cs[mi].currency);
      TakeSnoc(done, cs, mi);
      EvaluateSnoc(done + cs[..mi], cs[mi]);
      SelectSnoc(EvaluateAll(done + cs[..mi]), Evaluate(cs[mi]));
    }
  }
}
