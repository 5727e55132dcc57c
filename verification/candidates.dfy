/** The candidates of amount extraction: every match of the four amount
    patterns, in pattern order and then text order, with its two capture
    groups as written in the text. */
module Candidates {
  import opened Patterns

  /** The patterns in the order the extractor tries them. */
  const AmountPatterns: seq<Pattern> := [TurkishAmount, ForeignAmount, SimpleAmount, KeywordAmount]

  /** One match's capture groups: the number (group 1) and the currency
      symbol as written in the text (group 2). */
  datatype Candidate = Candidate(number: string, currency: string)

  /** The text of a captured range. */
  function Capture(text: string, sp: Span): (r: string)
    ensures sp.start <= sp.end <= |text| ==> r == text[sp.start..sp.end]
  {
    if sp.start <= sp.end <= |text| then text[sp.start..sp.end] else []
  }

  /** The candidates of one amount pattern, in text order. */
  function CandidatesOf(p: Pattern, text: string): (cs: seq<Candidate>)
    requires p != Link
    ensures |cs| == |Scan(p, text)|
    ensures forall k :: 0 <= k < |cs| ==>
              var m := Scan(p, text)[k];
              |m.groups| == 2 && cs[k] == Candidate(Capture(text, m.groups[0]), Capture(text, m.groups[1]))
  {
    var ms := Scan(p, text);
    seq(|ms|, k requires 0 <= k < |ms| =>
          var m := ms[k];
          Candidate(Capture(text, m.groups[0]), Capture(text, m.groups[1])))
  }

  /** The candidates of the first `n` amount patterns, pattern by pattern. */
  function CandidatesUpTo(n: nat, text: string): seq<Candidate>
    requires n <= |AmountPatterns|
  {
    if n == 0 then [] else CandidatesUpTo(n - 1, text) + CandidatesOf(AmountPatterns[n - 1], text)
  }

  /** Every candidate the extractor considers, in the order it considers them. */
  function AllCandidates(text: string): seq<Candidate>
  {
    CandidatesUpTo(|AmountPatterns|, text)
  }
}
