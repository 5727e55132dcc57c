/** Link extraction: `TextExtractor.extractURLs(from:)`. */
module Links {
  import opened Common
  import opened Chars
  import opened Patterns

  /** The ranges of the links in `text`: in order of position, and
      pairwise disjoint. */
  function LinkSpans(text: string): (spans: seq<Span>)
    ensures |spans| == |Scan(Link, text)|
    ensures forall k :: 0 <= k < |spans| ==> spans[k] == Scan(Link, text)[k].whole
    ensures forall k :: 0 <= k < |spans| ==> spans[k].start < spans[k].end <= |text|
    ensures forall k :: 0 <= k < |spans| - 1 ==> spans[k].end <= spans[k + 1].start
  {
    var ms := Scan(Link, text);
    seq(|ms|, k requires 0 <= k < |ms| => ms[k].whole)
  }

  /** Every link the extractor returns, in order of position. */
  function ExtractURLs(text: string): (links: seq<string>)
    ensures |links| == |LinkSpans(text)|
    ensures forall k :: 0 <= k < |links| ==>
              var sp := LinkSpans(text)[k];
              sp.start < sp.end <= |text| && links[k] == text[sp.start..sp.end]
  {
    var spans := LinkSpans(text);
    seq(|spans|, k requires 0 <= k < |spans| =>
          var sp := spans[k]; if sp.start <= sp.end <= |text| then text[sp.start..sp.end] else [])
  }

  /** The shape of a returned link: `http://` or `https://` in any case,
      then at least one character of the link class, and only those. */
  predicate IsLink(w: string)
  {
    && (MatchesAt(w, 0, "http://") || MatchesAt(w, 0, "https://"))
    && |w| > 7
    && (MatchesAt(w, 0, "https://") ==> |w| > 8)
    && forall k :: 7 <= k < |w| ==> IsUrlChar(w[k])
  }

  /** What a single attempt of the link pattern finds: a link whose class
      run cannot be extended. */
  lemma LinkMatchShape(s: string, i: nat)
    requires i < |s|
    requires MatchAt(Link, s, i).Some?
    ensures var e := MatchAt(Link, s, i).value.whole.end;
            IsLink(s[i..e]) && (e == |s| || !IsUrlChar(s[e]))
  {
    var e := MatchAt(Link, s, i).value.whole.end;
    var w := s[i..e];
    if MatchesAt(s, i, "https://") && i + 8 < |s| && IsUrlChar(s[i + 8]) {
      assert MatchesAt(w, 0, "https://");
      assert SameIgnoringCase(s[i + 7], "https://"[7]);
      assert w[7] == s[i + 7] == '/';
    } else {
      assert MatchesAt(w, 0, "http://");
      assert SameIgnoringCase(s[i + 4], "http://"[4]);
      assert w[4] == s[i + 4];
      assert !SameIgnoringCase(w[4], "https://"[4]);
    }
  }

  /** A word occurs in a slice at its start exactly when it occurs in the
      text at the slice's start. */
  lemma MatchesInSlice(s: string, i: nat, e: nat, w: string)
    requires i <= e <= |s| && |w| <= e - i
    ensures MatchesAt(s[i..e], 0, w) <==> MatchesAt(s, i, w)
  {
    assert forall k :: 0 <= k < |w| ==> s[i..e][k] == s[i + k];
  }

  /** Facts about the text at `i` that an occurrence of the link shape
      over `[i, e)` gives. */
  lemma LinkOccurrence(s: string, i: nat, e: nat)
    requires i < e <= |s| && IsLink(s[i..e])
    ensures i + 8 <= e
    ensures forall j :: i + 7 <= j < e ==> IsUrlChar(s[j])
    ensures MatchesAt(s, i, "https://") ==> i + 8 < e
    ensures MatchesAt(s, i, "https://") || MatchesAt(s, i, "http://")
  {
    var w := s[i..e];
    MatchesInSlice(s, i, e, "https://");
    MatchesInSlice(s, i, e, "http://");
    forall j | i + 7 <= j < e
      ensures IsUrlChar(s[j])
    {
      assert w[j - i] == s[j];
    }
  }

  /** An occurrence of the link shape at `i` makes the link matcher match
      there. */
  lemma LinkMatchFound(s: string, i: nat, e: nat)
    requires i < e <= |s| && IsLink(s[i..e])
    ensures MatchAt(Link, s, i).Some?
  {
    LinkOccurrence(s, i, e);
  }

  /** An occurrence of the link shape at `i` that cannot be extended is
      exactly what the link matcher reports at `i`. */
  lemma LinkMatchExact(s: string, i: nat, e: nat)
    requires i < e <= |s| && IsLink(s[i..e])
    requires e == |s| || !IsUrlChar(s[e])
    ensures MatchAt(Link, s, i) == Some(Match(Span(i, e), [Span(i, e)]))
  {
    LinkOccurrence(s, i, e);
    if MatchesAt(s, i, "https://") {
      RunEndAt(s, i + 8, e, UrlText);
    } else {
      RunEndAt(s, i + 7, e, UrlText);
    }
  }

  /** The link matcher matches at `i` exactly when the link shape occurs
      there. */
  lemma LinkMatchIff(s: string, i: nat)
    requires i <= |s|
    ensures MatchAt(Link, s, i).Some? <==> exists e :: i < e <= |s| && IsLink(s[i..e])
  {
    if MatchAt(Link, s, i).Some? {
      var e := MatchAt(Link, s, i).value.whole.end;
      LinkMatchShape(s, i);
      assert i < e <= |s| && IsLink(s[i..e]);
    } else {
      forall e | i < e <= |s|
        ensures !IsLink(s[i..e])
      {
        if IsLink(s[i..e]) {
          LinkMatchFound(s, i, e);
        }
      }
    }
  }

  /** Every occurrence of the link shape lies inside a returned link,
      starting at or after its start. */
  lemma LinksCoverOccurrences(text: string, i: nat, e: nat)
    requires i < e <= |text| && IsLink(text[i..e])
    ensures exists k :: 0 <= k < |LinkSpans(text)| && LinkSpans(text)[k].start <= i < LinkSpans(text)[k].end
  {
    LinkMatchFound(text, i, e);
    var t := AttemptsOf(Link, text);
    MatchCovered(t, 0, i);
    var k :| 0 <= k < |ScanFrom(t, 0)| && ScanFrom(t, 0)[k].whole.start <= i < ScanFrom(t, 0)[k].whole.end;
    assert LinkSpans(text)[k] == ScanFrom(t, 0)[k].whole;
  }

  /** An occurrence of the link shape that cannot be extended and does not
      start strictly inside a returned link is returned, as it is. */
  lemma MaximalLinkReturned(text: string, i: nat, e: nat)
    requires i < e <= |text| && IsLink(text[i..e]) && (e == |text| || !IsUrlChar(text[e]))
    requires forall k :: 0 <= k < |LinkSpans(text)| ==> !(LinkSpans(text)[k].start < i < LinkSpans(text)[k].end)
    ensures exists k :: 0 <= k < |LinkSpans(text)| && LinkSpans(text)[k] == Span(i, e) && ExtractURLs(text)[k] == text[i..e]
  {
    LinksCoverOccurrences(text, i, e);
    var k :| 0 <= k < |LinkSpans(text)| && LinkSpans(text)[k].start <= i < LinkSpans(text)[k].end;
    LinkMatchExact(text, i, e);
    assert Scan(Link, text)[k].whole.start == i;
  }

  /** Every returned link has the link shape and is maximal in the text. */
  lemma LinksAreMaximal(text: string)
    ensures forall k :: 0 <= k < |ExtractURLs(text)| ==> IsLink(ExtractURLs(text)[k])
    ensures forall k :: 0 <= k < |LinkSpans(text)| ==>
              var e := LinkSpans(text)[k].end;
              e == |text| || !IsUrlChar(text[e])
  {
    var ms := Scan(Link, text);
    forall k | 0 <= k < |ms|
      ensures IsLink(ExtractURLs(text)[k])
      ensures var e := LinkSpans(text)[k].end; e == |text| || !IsUrlChar(text[e])
    {
      LinkMatchShape(text, ms[k].whole.start);
    }
  }

  /** The links are exactly the leftmost successive matches of the link
      matcher, each search resuming where the previous link ended. */
  lemma LinksAreLeftmost(text: string)
    ensures IsLeftmostScan(AttemptsOf(Link, text), 0, Scan(Link, text))
  {
    ScanIsLeftmost(AttemptsOf(Link, text), 0);
  }

  /** Text in which `http` (in any case) does not occur, the empty text
      among it, has no links. */
  lemma NoSchemeNoLinks(text: string)
    requires forall i :: 0 <= i < |text| ==> !MatchesAt(text, i, "http")
    ensures ExtractURLs(text) == []
  {
    var t := AttemptsOf(Link, text);
    forall q | 0 <= q < |t|
      ensures t[q].None?
    {
      LinkStartsWithScheme(text, q);
    }
    NoMatchSkipped(t, 0, |t|);
  }

  /** Every link begins with `http`. */
  lemma LinkStartsWithScheme(text: string, q: nat)
    requires q <= |text|
    ensures MatchAt(Link, text, q).Some? ==> MatchesAt(text, q, "http")
  {
    if MatchAt(Link, text, q).Some? {
      assert MatchesAt(text, q, "http://") || MatchesAt(text, q, "https://");
      assert forall k :: 0 <= k < 4 ==> "http"[k] == "http://"[k] == "https://"[k];
    }
  }
}
