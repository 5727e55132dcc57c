/** The scan screen's handling of recognised text: the classification
    closure that turns the text into a category, a confidence and the
    extracted links and amount, and the document saved from that result. */
module Scanner {
  import opened Common
  import opened Chars
  import opened Selection
  import opened Links
  import opened Amounts
  import opened Candidates
  import opened Patterns
  import opened Classifier
  import opened Store

  /** What the closure stores for the save button: the text as recognised,
      the links and amount extracted from it, and the classification. */
  datatype ScanResult = ScanResult(
    text: string,
    urls: seq<string>,
    amount: Option<real>,
    currency: Option<string>,
    category: string,
    confidence: real)

  /** The classification closure applied to recognised text. The links and
      amount pass through unchanged; the category label and score come from
      the first keyword rule that applies. */
  function Analyze(text: string): (r: ScanResult)
    ensures r.text == text && r.urls == ExtractURLs(text)
    ensures AmountResult(r.amount, r.currency) == ExtractAmount(text)
    ensures r.amount.None? <==> r.currency.None?
    ensures r.category == Label(Classify(text)) && r.confidence == Score(Classify(text))
  {
    ExtractAmountChooses(text);
    var amount := ExtractAmount(text);
    var c := Classify(text);
    ScanResult(text, ExtractURLs(text), amount.amount, amount.currency, Label(c), Score(c))
  }

  /** A label determines its category. */
  lemma LabelInjective(c: Category, d: Category)
    ensures Label(c) == Label(d) <==> c == d
  {
  }

  /** Recognised text that is empty yields no links, no amount and a
      generic document at confidence 0.6. */
  lemma AnalyzeEmpty()
    ensures Analyze("") == ScanResult("", [], None, None, "Doküman", 0.6)
  {
    EmptyHasNothing("");
  }

  lemma EmptyHasNothing(text: string)
    requires text == []
    ensures ExtractURLs(text) == []
    ensures ExtractAmount(text) == AmountResult(None, None)
    ensures Classify(text) == Generic
  {
    NoSchemeNoLinks(text);
    EmptyHasNoAmount(text);
    EmptyIsGeneric(text);
  }

  lemma EmptyHasNoAmount(text: string)
    requires text == []
    ensures ExtractAmount(text) == AmountResult(None, None)
  {
    forall j: nat, k | j <= |text| && 0 <= k < |AnyCurrency|
      ensures !MatchesAt(text, j, AnyCurrency[k])
    {
      CurrencyNonEmpty(k);
    }
    NoCurrencyNoAmount(text);
  }

  lemma CurrencyNonEmpty(k: nat)
    requires k < |AnyCurrency|
    ensures AnyCurrency[k] != []
  {
  }

  lemma EmptyIsGeneric(text: string)
    requires text == []
    ensures Classify(text) == Generic
  {
    EmptyContainsNothing(InvoiceWords);
    EmptyContainsNothing(IdentityWords);
    EmptyContainsNothing(CardWords);
  }

  lemma EmptyContainsNothing(ws: seq<string>)
    requires forall k :: 0 <= k < |ws| ==> ws[k] != []
    ensures !ContainsAny(Lower(""), ws)
  {
  }

  /** The saved document: no folder, no tags, the recognised text unless
      it is empty, and the extracted data as found. */
  function NewDocument(id: Id, imagePath: string, r: ScanResult, now: Date): (d: ScannedDocument)
    ensures d.id == id && d.imagePath == imagePath && d.date == now
    ensures d.folderId.None? && d.tags == []
    ensures d.extractedText.None? <==> r.text == []
    ensures d.category == r.category && d.confidence == r.confidence
    ensures d.detectedUrls == r.urls && d.detectedAmount == r.amount && d.detectedCurrency == r.currency
  {
    ScannedDocument(id, imagePath, r.category, r.confidence, now, None, [],
                    if r.text == [] then None else Some(r.text),
                    r.urls, r.amount, r.currency)
  }

  /** The scan result a saved document records, an empty text standing for
      a missing one. */
  function ResultOf(d: ScannedDocument): ScanResult
  {
    ScanResult(if d.extractedText.Some? then d.extractedText.value else [],
               d.detectedUrls, d.detectedAmount, d.detectedCurrency, d.category, d.confidence)
  }

  /** Nothing of the scan result is lost by saving it, the empty text
      included. */
  lemma NewDocumentKeepsResult(id: Id, imagePath: string, r: ScanResult, now: Date)
    ensures ResultOf(NewDocument(id, imagePath, r, now)) == r
  {
  }

  /** `saveDocument`: the new document is added to the store. */
  function SaveDocument(m: DataManager, id: Id, imagePath: string, r: ScanResult, now: Date): (s: DataManager)
    ensures s.documents == [NewDocument(id, imagePath, r, now)] + m.documents
    ensures s.folders == m.folders && s.settings == m.settings
  {
    AddDocument(m, NewDocument(id, imagePath, r, now))
  }

  /** A saved scan heads the list of documents in no folder, above the
      ones that were there. */
  lemma SavedScanIsUnfiled(m: DataManager, id: Id, imagePath: string, r: ScanResult, now: Date)
    ensures DocumentsInFolder(SaveDocument(m, id, imagePath, r, now), None)
         == [NewDocument(id, imagePath, r, now)] + DocumentsInFolder(m, None)
  {
    DocumentsInFolderAfterAdd(m, NewDocument(id, imagePath, r, now), None);
  }

  /** The icon and badge colour shown for a classified scan follow its
      category: the invoice, identity and business-card icons for those
      categories, green for invoices and identity cards, yellow otherwise. */
  lemma AnalyzedPresentation(text: string)
    ensures var r := Analyze(text);
            && CategoryIcon(r.category) == (match Classify(text)
                 case Invoice => "doc.text.fill"
                 case Identity => "person.text.rectangle"
                 case BusinessCard => "rectangle.portrait.fill"
                 case Generic => "doc.fill")
            && ConfidenceColor(r.confidence) == (if Classify(text) in {Invoice, Identity} then Green else Yellow)
  {
    LabelIcons(Classify(text));
    ClassifiedColors(Classify(text));
  }
}
