/** Character classes used by the extraction patterns, and the lower-casing
    that the keyword classifier and the category icons rely on. */
module Chars {

  /** `\d`, restricted to ASCII digits. */
  predicate IsDigit(c: char)
  {
    '0' <= c <= '9'
  }

  /** ICU's `\s`, which is the Unicode White_Space property: tab, line
      feed, vertical tab, form feed, carriage return, next line (U+0085),
      and every character of the separator categories Zs, Zl and Zp. */
  predicate IsSpace(c: char)
  {
    || c == '\t' || c == '\n' || c == '\U{000B}' || c == '\U{000C}' || c == '\r' || c == '\U{0085}'
    || c == ' ' || c == '\U{00A0}' || c == '\U{1680}'
    || ('\U{2000}' <= c <= '\U{200A}')
    || c == '\U{2028}' || c == '\U{2029}' || c == '\U{202F}' || c == '\U{205F}'
    || c == '\U{3000}'
  }

  predicate IsAsciiUpper(c: char)
  {
    'A' <= c <= 'Z'
  }

  predicate IsAsciiLower(c: char)
  {
    'a' <= c <= 'z'
  }

  /** Letters of Latin-1 Supplement and Latin Extended-A/B (this covers
      the Turkish letters ç ğ ı İ ö ş ü and their capitals). */
  predicate IsLatinLetter(c: char)
  {
    || c == '\U{00AA}' || c == '\U{00B5}' || c == '\U{00BA}'
    || ('\U{00C0}' <= c <= '\U{024F}' && c != '\U{00D7}' && c != '\U{00F7}')
  }

  /** `\w`: letters, digits and the connector `_`. */
  predicate IsWordChar(c: char)
  {
    IsAsciiUpper(c) || IsAsciiLower(c) || IsDigit(c) || c == '_' || IsLatinLetter(c)
  }

  /** The bracket class of the link pattern: `[\w\-._~:/?#\[\]@!$&'()*+,;=%]`. */
  predicate IsUrlChar(c: char)
  {
    IsWordChar(c) || c in "-._~:/?#[]@!$&'()*+,;=%"
  }

  /** Case folding used by case-insensitive matching (ASCII letters). */
  function FoldCase(c: char): (r: char)
    ensures IsAsciiUpper(c) ==> IsAsciiLower(r) && r as int == c as int + 32
    ensures !IsAsciiUpper(c) ==> r == c
  {
    if IsAsciiUpper(c) then (c as int + 32) as char else c
  }

  predicate SameIgnoringCase(a: char, b: char)
  {
    FoldCase(a) == FoldCase(b)
  }

  /** Case-insensitive occurrence of `w` at offset `i` of `s`. */
  predicate MatchesAt(s: string, i: nat, w: string)
  {
    i + |w| <= |s| && forall k :: 0 <= k < |w| ==> SameIgnoringCase(s[i + k], w[k])
  }

  /** Swift's `lowercased()` on one character. ASCII and the Latin-1 / Turkish
      capitals map one-to-one; `İ` becomes `i` followed by U+0307 COMBINING
      DOT ABOVE, exactly as the locale-independent Unicode mapping does. */
  function LowerChar(c: char): (r: seq<char>)
    ensures 1 <= |r| <= 2
    ensures c == '\U{0130}' <==> |r| == 2
    ensures |r| == 1 && c != r[0] ==> IsUpper(c) && !IsUpper(r[0])
    ensures |r| == 1 && IsAsciiUpper(c) ==> IsAsciiLower(r[0])
  {
    if c == '\U{0130}' then ['i', '\U{0307}']
    else if c == '\U{011E}' || c == '\U{015E}' then [(c as int + 1) as char]
    else if IsUpper(c) then [(c as int + 32) as char]
    else [c]
  }

  /** The capitals `LowerChar` maps to a single small letter: ASCII, Latin-1,
      and the Turkish `Ğ` and `Ş`. */
  predicate IsUpper(c: char)
  {
    || IsAsciiUpper(c) || ('\U{00C0}' <= c <= '\U{00DE}' && c != '\U{00D7}')
    || c == '\U{011E}' || c == '\U{015E}'
  }

  /** Swift's `lowercased()` on a whole string: the concatenation of the
      per-character results. */
  function Lower(s: string): (r: string)
    ensures |r| >= |s|
    ensures (forall k :: 0 <= k < |s| ==> s[k] != '\U{0130}') ==> |r| == |s|
  {
    if s == [] then [] else LowerChar(s[0]) + Lower(s[1..])
  }

  lemma {:induction false} LowerAppend(s: string, t: string)
    ensures Lower(s + t) == Lower(s) + Lower(t)
    decreases |s|
  {
    if s == [] {
      assert s + t == t;
    } else {
      assert (s + t)[1..] == s[1..] + t;
      LowerAppend(s[1..], t);
    }
  }

  /** Text with no capitals is its own lower-case form. */
  lemma {:induction false} LowerOfSmall(s: string)
    requires forall k :: 0 <= k < |s| ==> !IsUpper(s[k]) && s[k] != '\U{0130}'
    ensures Lower(s) == s
    decreases |s|
  {
    if s != [] {
      LowerOfSmall(s[1..]);
      assert s == [s[0]] + s[1..];
    }
  }

  /** A capitalised word with no other capitals lower-cases its first letter only. */
  lemma LowerOfCapitalised(c: char, s: string)
    requires IsAsciiUpper(c)
    requires forall k :: 0 <= k < |s| ==> !IsUpper(s[k]) && s[k] != '\U{0130}'
    ensures Lower([c] + s) == [FoldCase(c)] + s
  {
    LowerCons(c, s);
    LowerAsciiUpper(c);
    LowerOfSmall(s);
  }

  lemma LowerCons(c: char, s: string)
    ensures Lower([c] + s) == LowerChar(c) + Lower(s)
  {
    var t := [c] + s;
    assert t[0] == c && t[1..] == s;
  }

  lemma LowerAsciiUpper(c: char)
    requires IsAsciiUpper(c)
    ensures LowerChar(c) == [FoldCase(c)]
  {
  }

  /** The inverse direction used to state case-insensitivity: capitalises
      the small letters that `LowerChar` produces from a single capital. */
  function UpperChar(c: char): (r: char)
  {
    if IsAsciiLower(c) || ('\U{00E0}' <= c <= '\U{00FE}' && c != '\U{00F7}') then (c as int - 32) as char
    else if c == '\U{011F}' || c == '\U{015F}' then (c as int - 1) as char
    else c
  }

  function Upper(s: string): (r: string)
    ensures |r| == |s|
    ensures forall k :: 0 <= k < |s| ==> r[k] == UpperChar(s[k])
  {
    if s == [] then [] else [UpperChar(s[0])] + Upper(s[1..])
  }

  /** Capitalising a character never changes what it lower-cases to. */
  lemma LowerUpperChar(c: char)
    ensures LowerChar(UpperChar(c)) == LowerChar(c)
  {
  }

  /** Lower-casing forgets every capitalisation `Upper` can make. */
  lemma {:induction false} LowerUpper(s: string)
    ensures Lower(Upper(s)) == Lower(s)
    decreases |s|
  {
    if s != [] {
      LowerUpperChar(s[0]);
      LowerUpper(s[1..]);
      assert Upper(s)[1..] == Upper(s[1..]);
    }
  }
}
