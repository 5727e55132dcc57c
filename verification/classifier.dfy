/** The keyword classification of recognised text and the two small
    presentation rules attached to its result: the icon shown for a
    category label and the colour shown for a confidence score. */
module Classifier {
  import opened Common
  import opened Chars

  /** The four document kinds the classifier can report. */
  datatype Category = Invoice | Identity | BusinessCard | Generic

  /** The label shown and stored for a category. */
  function Label(c: Category): string
  {
    match c
    case Invoice => "Fatura"
    case Identity => "Kimlik"
    case BusinessCard => "Kartvizit"
    case Generic => "Doküman"
  }

  /** The fixed confidence reported with a category. */
  function Score(c: Category): real
  {
    match c
    case Invoice => 0.85
    case Identity => 0.80
    case BusinessCard => 0.75
    case Generic => 0.6
  }

  /** The order in which the keyword rules are tried, highest first. */
  function Priority(c: Category): nat
  {
    match c
    case Invoice => 3
    case Identity => 2
    case BusinessCard => 1
    case Generic => 0
  }

  const InvoiceWords: seq<string> := ["fatura", "invoice", "tutar", "toplam"]
  const IdentityWords: seq<string> := ["tc", "kimlik", "t.c.", "doğum"]
  const CardWords: seq<string> := ["tel", "email", "@", "gsm"]

  /** The keyword rules, tried in order on the lower-cased text; the first
      rule with a keyword in the text decides, and text matching no rule is
      a generic document. */
  function Classify(text: string): (c: Category)
    ensures c == Invoice <==> ContainsAny(Lower(text), InvoiceWords)
    ensures c == Identity <==> !ContainsAny(Lower(text), InvoiceWords) && ContainsAny(Lower(text), IdentityWords)
    ensures c == BusinessCard <==>
              && !ContainsAny(Lower(text), InvoiceWords)
              && !ContainsAny(Lower(text), IdentityWords)
              && ContainsAny(Lower(text), CardWords)
    ensures c == Generic <==>
              && !ContainsAny(Lower(text), InvoiceWords)
              && !ContainsAny(Lower(text), IdentityWords)
              && !ContainsAny(Lower(text), CardWords)
  {
    var lowered := Lower(text);
    if ContainsAny(lowered, InvoiceWords) then Invoice
    else if ContainsAny(lowered, IdentityWords) then Identity
    else if ContainsAny(lowered, CardWords) then BusinessCard
    else Generic
  }

  /** A higher-priority rule always carries a strictly higher confidence. */
  lemma ScoreFollowsPriority(c: Category, d: Category)
    ensures Priority(c) < Priority(d) <==> Score(c) < Score(d)
  {
  }

  /** The words a category's rule looks for. */
  function WordsOf(c: Category): seq<string>
  {
    match c
    case Invoice => InvoiceWords
    case Identity => IdentityWords
    case BusinessCard => CardWords
    case Generic => []
  }

  /** The outcome never depends on capitalisation: capitalising any letters
      of the text leaves the category unchanged. */
  lemma ClassifyIgnoresCase(text: string)
    ensures Classify(Upper(text)) == Classify(text)
  {
    LowerUpper(text);
  }

  /** Surrounding the text with more text can only raise the category:
      every keyword found before is still found. */
  lemma {:induction false} ClassifyMonotone(s: string, t: string, u: string)
    ensures Priority(Classify(s + t + u)) >= Priority(Classify(t))
    ensures Score(Classify(s + t + u)) >= Score(Classify(t))
  {
    LowerAppend(s + t, u);
    LowerAppend(s, t);
    var c := Classify(t);
    if c != Generic {
      ContainsAnyExtend(Lower(s), Lower(t), Lower(u), WordsOf(c));
    }
  }

  /** The colour of the confidence badge. */
  datatype Color = Green | Yellow | Orange

  function ColorRank(c: Color): nat
  {
    match c
    case Orange => 0
    case Yellow => 1
    case Green => 2
  }

  /** Green from 0.8 up, yellow from 0.5 up, orange below. */
  function ConfidenceColor(confidence: real): (c: Color)
    ensures c == Green <==> confidence >= 0.8
    ensures c == Orange <==> confidence < 0.5
  {
    if confidence >= 0.8 then Green
    else if confidence >= 0.5 then Yellow
    else Orange
  }

  /** A higher confidence never gets a worse colour. */
  lemma ConfidenceColorMonotone(x: real, y: real)
    requires x <= y
    ensures ColorRank(ConfidenceColor(x)) <= ColorRank(ConfidenceColor(y))
  {
  }

  /** The classifier's own scores: invoices and identity cards are green,
      business cards and generic documents yellow, and none is orange. */
  lemma ClassifiedColors(c: Category)
    ensures ConfidenceColor(Score(c)) == (if c == Invoice || c == Identity then Green else Yellow)
  {
  }

  /** The symbol shown for a category label: the label is lower-cased and
      searched for the invoice, identity and business-card words in that
      order; anything else is a plain document. */
  function CategoryIcon(category: string): (icon: string)
    ensures icon in {"doc.text.fill", "person.text.rectangle", "rectangle.portrait.fill", "doc.fill"}
    ensures icon == "doc.text.fill" <==> Contains(Lower(category), "fatura") || Contains(Lower(category), "invoice")
    ensures icon == "person.text.rectangle" <==>
              && !(Contains(Lower(category), "fatura") || Contains(Lower(category), "invoice"))
              && (Contains(Lower(category), "kimlik") || Contains(Lower(category), "id"))
    ensures icon == "rectangle.portrait.fill" <==>
              && !(Contains(Lower(category), "fatura") || Contains(Lower(category), "invoice"))
              && !(Contains(Lower(category), "kimlik") || Contains(Lower(category), "id"))
              && (Contains(Lower(category), "kartvizit") || Contains(Lower(category), "card"))
  {
    var c := Lower(category);
    if Contains(c, "fatura") || Contains(c, "invoice") then "doc.text.fill"
    else if Contains(c, "kimlik") || Contains(c, "id") then "person.text.rectangle"
    else if Contains(c, "kartvizit") || Contains(c, "card") then "rectangle.portrait.fill"
    else "doc.fill"
  }

  /** The icon of each label the classifier produces; the first three are
      the icons of the matching default folders. */
  lemma LabelIcons(c: Category)
    ensures CategoryIcon(Label(c)) == match c
      case Invoice => "doc.text.fill"
      case Identity => "person.text.rectangle"
      case BusinessCard => "rectangle.portrait.fill"
      case Generic => "doc.fill"
  {
    match c
    case Invoice => InvoiceIcon(Label(c));
    case Identity => IdentityIcon(Label(c));
    case BusinessCard => CardIcon(Label(c));
    case Generic => GenericIcon(Label(c));
  }

  /* Each label is a capital followed by small letters; its lower-case form
     is spelled out once, and the icon rules are then read on that form. */

  lemma InvoiceSpelling()
    ensures "Fatura" == ['F'] + "atura" && "fatura" == [FoldCase('F')] + "atura"
  {
  }

  lemma InvoiceIcon(x: string)
    requires x == "Fatura"
    ensures CategoryIcon(x) == "doc.text.fill"
  {
    InvoiceSpelling();
    LowerOfCapitalised('F', "atura");
    assert OccursAt("fatura", 0, "fatura");
  }

  lemma IdentitySpelling()
    ensures "Kimlik" == ['K'] + "imlik" && "kimlik" == [FoldCase('K')] + "imlik"
  {
  }

  lemma IdentityIcon(x: string)
    requires x == "Kimlik"
    ensures CategoryIcon(x) == "person.text.rectangle"
  {
    IdentitySpelling();
    LowerOfCapitalised('K', "imlik");
    MissingChar("kimlik", "fatura", 0);
    MissingChar("kimlik", "invoice", 1);
    assert OccursAt("kimlik", 0, "kimlik");
  }

  lemma CardSpelling()
    ensures "Kartvizit" == ['K'] + "artvizit" && "kartvizit" == [FoldCase('K')] + "artvizit"
  {
  }

  lemma CardIcon(x: string)
    requires x == "Kartvizit"
    ensures CategoryIcon(x) == "rectangle.portrait.fill"
  {
    CardSpelling();
    LowerOfCapitalised('K', "artvizit");
    CardWordsAbsent();
    assert OccursAt("kartvizit", 0, "kartvizit");
  }

  lemma CardWordsAbsent()
    ensures !Contains("kartvizit", "fatura") && !Contains("kartvizit", "invoice")
    ensures !Contains("kartvizit", "kimlik") && !Contains("kartvizit", "id")
  {
    MissingChar("kartvizit", "fatura", 0);
    MissingChar("kartvizit", "invoice", 1);
    MissingChar("kartvizit", "kimlik", 2);
    MissingChar("kartvizit", "id", 1);
  }

  lemma GenericSpelling()
    ensures "Doküman" == ['D'] + "oküman" && "doküman" == [FoldCase('D')] + "oküman"
  {
  }

  lemma GenericIcon(x: string)
    requires x == "Doküman"
    ensures CategoryIcon(x) == "doc.fill"
  {
    GenericSpelling();
    LowerOfCapitalised('D', "oküman");
    GenericWordsAbsent();
  }

  lemma GenericWordsAbsent()
    ensures !Contains("doküman", "fatura") && !Contains("doküman", "invoice")
    ensures !Contains("doküman", "kimlik") && !Contains("doküman", "id")
    ensures !Contains("doküman", "kartvizit") && !Contains("doküman", "card")
  {
    MissingChar("doküman", "fatura", 0);
    MissingChar("doküman", "invoice", 0);
    MissingChar("doküman", "kimlik", 1);
    MissingChar("doküman", "id", 0);
    MissingChar("doküman", "kartvizit", 2);
    MissingChar("doküman", "card", 0);
  }
}
