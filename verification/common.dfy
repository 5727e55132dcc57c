/** Small shared vocabulary: optional values, order-preserving filtering and
    substring search over `string` (a sequence of Unicode scalar values). */
module Common {

  /** Swift's `Optional`: `nil` is `None`. */
  datatype Option<T> = None | Some(value: T)

  /** Swift's `filter`: the elements of `xs` satisfying `p`, in their original order. */
  function Filter<T>(xs: seq<T>, p: T -> bool): (r: seq<T>)
    ensures |r| <= |xs|
    ensures forall i :: 0 <= i < |r| ==> p(r[i])
    ensures (forall i :: 0 <= i < |xs| ==> p(xs[i])) ==> r == xs
    ensures (forall i :: 0 <= i < |xs| ==> !p(xs[i])) ==> r == []
  {
    if xs == [] then []
    else (if p(xs[0]) then [xs[0]] else []) + Filter(xs[1..], p)
  }

  /** Filtering a concatenation filters each part: together with the
      singleton case this pins down the relative order of the survivors. */
  lemma {:induction false} FilterAppend<T>(xs: seq<T>, ys: seq<T>, p: T -> bool)
    ensures Filter(xs + ys, p) == Filter(xs, p) + Filter(ys, p)
    decreases |xs|
  {
    if xs == [] {
      assert xs + ys == ys;
    } else {
      var head: seq<T> := if p(xs[0]) then [xs[0]] else [];
      assert (xs + ys)[0] == xs[0] && (xs + ys)[1..] == xs[1..] + ys;
      assert Filter(xs + ys, p) == head + Filter(xs[1..] + ys, p);
      FilterAppend(xs[1..], ys, p);
    }
  }

  /** Every occurrence survives or disappears as a whole: duplicates are kept
      as many times as they occur. */
  lemma {:induction false} FilterCount<T>(xs: seq<T>, p: T -> bool, x: T)
    ensures multiset(Filter(xs, p))[x] == if p(x) then multiset(xs)[x] else 0
    decreases |xs|
  {
    if xs != [] {
      FilterCount(xs[1..], p, x);
      assert xs == [xs[0]] + xs[1..];
    }
  }

  /** `w` occurs in `s` at offset `i`. */
  predicate OccursAt(s: string, i: nat, w: string)
  {
    i + |w| <= |s| && s[i..i + |w|] == w
  }

  /** Swift's `String.contains` for a non-empty needle. */
  predicate Contains(s: string, w: string)
  {
    exists i: nat :: i + |w| <= |s| && OccursAt(s, i, w)
  }

  /** The search behind `Contains`, as a scan from offset `i` onwards. */
  predicate OccursFrom(s: string, w: string, i: nat)
    decreases |s| - i
  {
    i + |w| <= |s| && (s[i..i + |w|] == w || OccursFrom(s, w, i + 1))
  }

  /** The scan finds an occurrence exactly when there is one at or after `i`. */
  lemma {:induction false} OccursFromIff(s: string, w: string, i: nat)
    ensures OccursFrom(s, w, i) <==> exists j: nat :: i <= j && OccursAt(s, j, w)
    decreases |s| - i
  {
    if i + |w| <= |s| {
      OccursFromIff(s, w, i + 1);
      if !OccursAt(s, i, w) {
        forall j: nat | i <= j && OccursAt(s, j, w)
          ensures i + 1 <= j
        {
        }
      }
    } else {
      forall j: nat | i <= j
        ensures !OccursAt(s, j, w)
      {
      }
    }
  }

  /** `Contains` decided by the scan. */
  lemma ContainsByScan(s: string, w: string)
    ensures Contains(s, w) <==> OccursFrom(s, w, 0)
  {
    OccursFromIff(s, w, 0);
  }

  /** A word with a character that `s` lacks does not occur in `s`. */
  lemma MissingChar(s: string, w: string, k: nat)
    requires k < |w| && forall j :: 0 <= j < |s| ==> s[j] != w[k]
    ensures !Contains(s, w)
  {
    forall i: nat | i + |w| <= |s|
      ensures !OccursAt(s, i, w)
    {
      assert s[i..i + |w|][k] == s[i + k];
    }
  }

  /** Some word of `ws` occurs in `s`. */
  predicate ContainsAny(s: string, ws: seq<string>)
  {
    exists k :: 0 <= k < |ws| && Contains(s, ws[k])
  }

  /** An occurrence in a part is an occurrence in any text that contains the part. */
  lemma ContainsExtend(s: string, t: string, u: string, w: string)
    requires Contains(t, w)
    ensures Contains(s + t + u, w)
  {
    var i: nat :| i + |w| <= |t| && OccursAt(t, i, w);
    var j: nat := |s| + i;
    assert (s + t + u)[j..j + |w|] == t[i..i + |w|];
    assert OccursAt(s + t + u, j, w);
  }

  lemma ContainsAnyExtend(s: string, t: string, u: string, ws: seq<string>)
    requires ContainsAny(t, ws)
    ensures ContainsAny(s + t + u, ws)
  {
    var k :| 0 <= k < |ws| && Contains(t, ws[k]);
    ContainsExtend(s, t, u, ws[k]);
  }

  /** Extending a prefix of `b` by one element, after `a`. */
  lemma TakeSnoc<T>(a: seq<T>, b: seq<T>, i: nat)
    requires i < |b|
    ensures a + b[..i + 1] == (a + b[..i]) + [b[i]]
  {
  }

  /** `b` put back together from all but its last element and that element. */
  lemma SnocLast<T>(a: seq<T>, b: seq<T>)
    requires b != []
    ensures b[..|b| - 1] + [b[|b| - 1]] == b
    ensures a + b[..|b| - 1] + [b[|b| - 1]] == a + b
  {
  }

  /** The empty and the full prefix of `b`, after `a`. */
  lemma TakeEnds<T>(a: seq<T>, b: seq<T>)
    ensures a + b[..0] == a && b[..|b|] == b
  {
  }
}
