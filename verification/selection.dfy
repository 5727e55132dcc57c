/** The selection loop of amount extraction, over already evaluated
    candidates: a running strict maximum of the parsed values, reported
    together with the currency symbol of the candidate that set it. */
module Selection {
  import opened Common

  /** One evaluated candidate: its parsed value (`None` when the number did
      not parse) and the currency symbol it was captured with. */
  datatype Parsed = Parsed(value: Option<real>, currency: string)

  /** The extractor's result and running state: `(highestAmount, currency)`. */
  datatype AmountResult = AmountResult(amount: Option<real>, currency: Option<string>)

  /** One iteration of the inner loop: a parsed value replaces the best so
      far only when there is none yet or it is strictly greater. */
  function Step(best: AmountResult, c: Parsed): AmountResult
  {
    match c.value
    case None => best
    case Some(v) =>
      if best.amount.None? || v > best.amount.value then AmountResult(Some(v), Some(c.currency))
      else best
  }

  /** The body of the inner loop as written: keep a parsed value when there
      is no amount yet or it is strictly greater, together with its currency. */
  method Improve(amount0: Option<real>, currency0: Option<string>, parsed: Option<real>, symbol: string)
    returns (amount: Option<real>, currency: Option<string>)
    ensures AmountResult(amount, currency) == Step(AmountResult(amount0, currency0), Parsed(parsed, symbol))
  {
    amount, currency := amount0, currency0;
    if parsed.Some? {
      if amount.None? || parsed.value > amount.value {
        amount := Some(parsed.value);
        currency := Some(symbol);
      }
    }
  }

  /** The state after processing `cs` in order, from `(nil, nil)`. */
  function Select(cs: seq<Parsed>): AmountResult
  {
    if cs == [] then AmountResult(None, None) else Step(Select(cs[..|cs| - 1]), cs[|cs| - 1])
  }

  /** `cs[j]` parsed, is at least every other parsed candidate, and is
      strictly greater than every parsed candidate before it. */
  predicate IsFirstMaximum(cs: seq<Parsed>, j: int)
  {
    && 0 <= j < |cs|
    && cs[j].value.Some?
    && (forall k :: 0 <= k < |cs| && cs[k].value.Some? ==> cs[k].value.value <= cs[j].value.value)
    && (forall k :: 0 <= k < j && cs[k].value.Some? ==> cs[k].value.value < cs[j].value.value)
  }

  /** The result promised for the candidates `cs`: nothing when no candidate
      parsed, otherwise the value and currency of the first greatest parsed
      candidate; amount and currency are present together. */
  predicate ChosenFrom(cs: seq<Parsed>, r: AmountResult)
  {
    && (r.amount.None? <==> r.currency.None?)
    && (r.amount.None? <==> forall k :: 0 <= k < |cs| ==> cs[k].value.None?)
    && (r.amount.Some? ==>
          exists j :: 0 <= j < |cs| && IsFirstMaximum(cs, j) && r.amount.value == cs[j].value.value
                                    && r.currency.value == cs[j].currency)
  }

  /** The loop computes exactly the first maximum. */
  lemma {:induction false} SelectChooses(cs: seq<Parsed>)
    ensures ChosenFrom(cs, Select(cs))
    decreases |cs|
  {
    if cs != [] {
      var init, c := cs[..|cs| - 1], cs[|cs| - 1];
      SelectChooses(init);
      assert cs == init + [c];
      StepChooses(init, c, Select(init));
    }
  }

  /** One more iteration keeps the running state the first maximum. */
  lemma StepChooses(init: seq<Parsed>, c: Parsed, b: AmountResult)
    requires ChosenFrom(init, b)
    ensures ChosenFrom(init + [c], Step(b, c))
  {
    var cs := init + [c];
    assert forall k :: 0 <= k < |init| ==> init[k] == cs[k];
    if c.value.None? {
      if b.amount.Some? {
        var j :| 0 <= j < |init| && IsFirstMaximum(init, j) && b.amount.value == init[j].value.value
                                 && b.currency.value == init[j].currency;
        assert IsFirstMaximum(cs, j);
      }
    } else if b.amount.None? {
      assert IsFirstMaximum(cs, |cs| - 1);
    } else if c.value.value > b.amount.value {
      var j :| 0 <= j < |init| && IsFirstMaximum(init, j) && b.amount.value == init[j].value.value;
      assert IsFirstMaximum(cs, |cs| - 1);
    } else {
      var j :| 0 <= j < |init| && IsFirstMaximum(init, j) && b.amount.value == init[j].value.value
                               && b.currency.value == init[j].currency;
      assert IsFirstMaximum(cs, j);
    }
  }

  /** At most one index is the first maximum, so `ChosenFrom` determines
      the result completely: a tie goes to the earlier candidate. */
  lemma FirstMaximumUnique(cs: seq<Parsed>, i: int, j: int)
    requires IsFirstMaximum(cs, i) && IsFirstMaximum(cs, j)
    ensures i == j
  {
  }

  lemma SelectSnoc(cs: seq<Parsed>, c: Parsed)
    ensures Select(cs + [c]) == Step(Select(cs), c)
  {
    assert (cs + [c])[..|cs + [c]| - 1] == cs;
  }

  /** A candidate whose number did not parse never affects the result,
      wherever it occurs. */
  lemma {:induction false} UnparsedIgnored(a: seq<Parsed>, c: Parsed, b: seq<Parsed>)
    requires c.value.None?
    ensures Select(a + [c] + b) == Select(a + b)
    decreases |b|
  {
    if b == [] {
      assert a + [c] + b == a + [c];
      assert a + b == a;
      SelectSnoc(a, c);
    } else {
      var b' := b[..|b| - 1];
      UnparsedIgnored(a, c, b');
      assert a + [c] + b == (a + [c] + b') + [b[|b| - 1]];
      assert a + b == (a + b') + [b[|b| - 1]];
      SelectSnoc(a + [c] + b', b[|b| - 1]);
      SelectSnoc(a + b', b[|b| - 1]);
    }
  }
}
