# doC scanner core in Dafny

doC is an iOS document scanner. It recognises the text on a scanned page,
classifies the page by keywords (invoice, identity card, business card or
generic document), pulls the links and the largest money amount out of the
text, and files the result in a small document store. A four-digit PIN can
lock the app.

This project models the parts of that app that decide things, as pure
functions over immutable data:

- **Links** (`Links`, `Patterns`, `Chars`): `extractURLs`. The link regular
  expression is a position-based matcher, and the leftmost, non-overlapping
  left-to-right enumeration of matches is defined once and proved to meet
  its declarative description.
- **Amounts** (`Amounts`, `Candidates`, `Decimals`, `Selection`):
  `extractAmount`. It covers:
  - the four amount patterns;
  - the locale normalisation of a captured number;
  - `Double(_:)` on the result, taken as an exact decimal;
  - the running strict maximum, with the currency symbol of the candidate
    that set it.

  `ExtractAmountLoop` is the nested loop as written, and is proved equal to
  the functional definition.
- **Classification** (`Classifier`, `Scanner`):
  - the keyword rules of the scan screen and their fixed scores;
  - the icon shown for a category label;
  - the colour shown for a confidence;
  - the closure that stores the recognised text with its extracted data;
  - the document that `saveDocument` builds from that result.
- **Store** (`Store`): the `DataManager` records and operations. These are
  default folders, adding and deleting folders (deletion unfiles their
  documents), adding, deleting and moving documents, per-folder listings
  and settings updates.
- **Worked examples** (`Samples`): four texts whose extracted amount is
  proved end to end, pattern by pattern and offset by offset.
- **PIN** (`Pin`, `App`):
  - the keypad buffer;
  - the two-page setup screen;
  - the lock screen and its failure count;
  - the removal of the PIN in the settings;
  - the app-level gate that shows the lock screen.

A behaviour of the code that is easy to misread: when a captured number
holds both `.` and `,`, the extractor always reads `,` as the decimal point.
So `Total: 1,234.56 USD` gives `(234.56, "USD")`, not 1234.56:
- the foreign and keyword patterns capture `1,234.56`, which normalises to
  `1.23456` (`Decimals.NormalizeGroupedPoint`);
- the plain pattern `\d+[.,]\d{2}` captures `234.56`, which is larger.

The source itself suggests 1234.56 was meant. TextExtractor.swift:31
labels `1,234.56 USD` as the international format of the foreign pattern.
TextExtractor.swift:56, however, says that a number holding both
separators is taken to be in European format, and the code does just
that. The model follows the code, and `Samples.TotalAmount` proves the
`(234.56, "USD")` result. `Toplam: 1.234,56 TL` gives `(1234.56, "TL")`:
`Decimals.NormalizeGroupedComma` turns `1.234,56` into `1234.56`
(`Samples.ToplamAmount`).

The regular expressions are matched without backtracking. Each matcher
takes every greedy piece as far as it goes and then tests what follows.
The grammar of each pattern is written out separately as a predicate
(`Patterns.IsAmountParse`, `Links.IsLink`). Two facts connect the two:
- `Patterns.AmountParseUnique`: an amount pattern parses in at most one
  way at a given offset;
- `Patterns.AmountMatchIff` and `Links.LinkMatchIff`: the matcher finds a
  match exactly where the grammar admits one.

So a backtracking engine cannot find a match that the matcher misses, and
it cannot find a different one.

## Model

| member | source | states |
|---|---|---|
| Links.LinkSpans | TextExtractor.swift:17-22 | one span per match of the link pattern, each inside the text, in increasing position and pairwise non-overlapping |
| Links.ExtractURLs | TextExtractor.swift:10-23 | one link per match, in match order, each exactly the text of its matched range; nothing is merged or de-duplicated |
| Links.LinkMatchShape | TextExtractor.swift:11 | a match is `http://` or `https://` in any case followed by at least one link-class character, and it ends at the end of the text or before a character outside the class |
| Links.LinksAreMaximal | TextExtractor.swift:11-22 | every returned link has the link shape and cannot be extended to the right |
| Links.LinksAreLeftmost | TextExtractor.swift:17 | the links are the leftmost successive matches of the link matcher: each search resumes where the previous link ended, and no match of the matcher lies between the resumption point and the next link |
| Links.LinkMatchFound | TextExtractor.swift:11-17 | wherever an occurrence of the link shape starts, the link pattern matches |
| Links.LinkMatchExact | TextExtractor.swift:11-17 | an occurrence of the link shape that cannot be extended to the right is exactly the match at its start, with the whole match as group 1 |
| Links.LinkMatchIff | TextExtractor.swift:11 | the link pattern matches at an offset exactly when an occurrence of the link shape starts there |
| Links.LinksCoverOccurrences | TextExtractor.swift:11-22 | every occurrence of the link shape in the text starts inside a returned link |
| Links.MaximalLinkReturned | TextExtractor.swift:11-22 | an occurrence that cannot be extended and does not start strictly inside a returned link is itself returned, as its exact text |
| Links.NoSchemeNoLinks | TextExtractor.swift:10-23 | text in which `http` does not occur in any case, the empty text included, has no links |
| Links.LinkStartsWithScheme | TextExtractor.swift:11 | every link match begins with `http` |
| Patterns.MatchAt | TextExtractor.swift:28-36 | a match at offset `i` starts at `i` and ends inside the text, with one capture group for links and two for amounts, each inside the match (the text each pattern accepts is stated by `AmountMatchIff` and `Links.LinkMatchIff`) |
| Patterns.KeywordMatch | TextExtractor.swift:36 | a keyword-pattern match starts at `i`, ends inside the text, and holds its two groups inside it (its grammar is stated by `KeywordMatchSound` and `AmountMatchIff`) |
| Patterns.AmountMatch | TextExtractor.swift:30-36 | a match is only built on a number found at `start`, which is group 1; then come blanks and one of the given currency symbols as group 2, and group 2 ends the match |
| Patterns.GroupedNumberEnd | TextExtractor.swift:30-36 | a number it finds is one to three digits, then three-digit groups each after a group separator, then optionally two digits after a fraction separator |
| Patterns.PlainNumberEnd | TextExtractor.swift:34 | a number it finds is one or more digits, `.` or `,`, and two digits |
| Patterns.GroupTailEnd | TextExtractor.swift:30-36 | taking groups and then a fraction as long as they go stops exactly at the end of any well-formed tail followed by a character that is not a digit, `.` or `,` |
| Patterns.GroupedNumberComplete | TextExtractor.swift:30-36 | a well-formed grouped number followed by a character that is not a digit, `.` or `,` is exactly the number the matcher finds |
| Patterns.PlainNumberComplete | TextExtractor.swift:34 | any `\d+[.,]\d{2}` at an offset is exactly the number the matcher finds there |
| Patterns.KeywordMatchSound | TextExtractor.swift:36 | every keyword-pattern match is a keyword, then `[:\s]+`, a grouped number as group 1, blanks, and a currency symbol as group 2 |
| Patterns.AmountMatchSound | TextExtractor.swift:30-36 | every amount-pattern match parses by its pattern: the keyword lead if any, the pattern's number grammar as group 1, blanks, and one of its currency symbols as group 2, which ends the match |
| Patterns.AmountMatchComplete | TextExtractor.swift:30-36 | any parse of an amount pattern at an offset is the match reported there |
| Patterns.AmountMatchIff | TextExtractor.swift:30-36 | the match at an offset is `m` exactly when `m` parses the pattern at that offset |
| Patterns.AmountParseUnique | TextExtractor.swift:30-36 | an amount pattern parses in at most one way at an offset, so no backtracking can find another match |
| Patterns.NoDigitNoMatch | TextExtractor.swift:30-34 | the three patterns that begin with a number never match at an offset that holds no digit |
| Patterns.NumberRunsOn | TextExtractor.swift:30-34 | when the longest number at an offset is followed by a digit, `.` or `,`, the pattern does not match there |
| Patterns.NoSymbolNoMatch | TextExtractor.swift:30-36 | from an offset after which none of the pattern's currency symbols occurs, the pattern matches nowhere |
| Patterns.NoKeywordNoMatch | TextExtractor.swift:36 | the keyword pattern matches only where a keyword begins |
| Patterns.AmountNeedsCurrency | TextExtractor.swift:30-36 | every amount match captures one of `TL`, `₺`, `$`, `USD`, `EUR`, `€` (in any case) as its second group |
| Patterns.Scan | TextExtractor.swift:47 | every enumerated match is the match at its own start offset, and successive matches do not overlap |
| Patterns.ScanIsLeftmost | TextExtractor.swift:47 | the enumeration is the leftmost match, then the leftmost match from where it ended, and so on, with no match after the last |
| Patterns.LeftmostScanUnique | TextExtractor.swift:47 | no other sequence of matches meets that description |
| Patterns.FirstMatchFrom | TextExtractor.swift:47 | when the first match from an offset starts at `q`, the enumeration from there is that match followed by the enumeration from where it ends |
| Patterns.NoMatchFrom | TextExtractor.swift:47 | with no match from an offset on, the enumeration from there is empty |
| Patterns.MatchCovered | TextExtractor.swift:47 | every offset at which the pattern matches lies inside some enumerated match |
| Candidates.CandidatesOf | TextExtractor.swift:47-53 | one candidate per match of an amount pattern, in text order, holding the texts of groups 1 and 2 |
| Decimals.ReplaceAll | TextExtractor.swift:59-61 | replacing one character by another keeps the length and leaves no occurrence of the replaced one |
| Decimals.ReplaceCounts | TextExtractor.swift:59-61 | the new character occurs as often as the old and new together did before |
| Decimals.RemoveAll | TextExtractor.swift:58 | removing a character leaves none of it and never lengthens the text |
| Decimals.RemoveCounts | TextExtractor.swift:58 | every other character occurs exactly as often as before |
| Decimals.Normalize | TextExtractor.swift:55-62 | the normalised number has no comma, and a number without a comma is left unchanged |
| Decimals.NormalizeKeepsDigits | TextExtractor.swift:57-62 | normalising keeps every digit in order; the result has as many points as the source had commas when it had a comma, and its own points otherwise |
| Decimals.NormalizeGroupedComma | TextExtractor.swift:57-59 | `a.b,c` with digit runs `a`, `b`, `c` becomes `ab.c` |
| Decimals.NormalizeGroupedPoint | TextExtractor.swift:57-59 | `a,b.c` becomes `a.bc`: the grouping comma turns into the decimal point |
| Decimals.NormalizeComma | TextExtractor.swift:60-61 | `a,c` becomes `a.c` |
| Decimals.ParseDecimal | TextExtractor.swift:64 | a number parses exactly when it is digits with at most one point and at least one digit |
| Decimals.ParseDecimalBounds | TextExtractor.swift:64 | a parsed value lies from the integer spelled before the point up to, but not including, the next integer |
| Decimals.ParseDecimalOfParts | TextExtractor.swift:64 | `a.c` parses to the integer `a` plus the fraction digits `c` |
| Decimals.ParseDecimalScaled | TextExtractor.swift:64 | the parsed value times ten to the number of fraction digits is the integer all its digits spell without the point |
| Decimals.PartsAreTheDigits | TextExtractor.swift:64 | the integer part followed by the fraction part are the number's digits in order |
| Decimals.DigitsValueAppend | TextExtractor.swift:64 | the value of two digit strings written one after the other is the first shifted by the length of the second, plus the second |
| Selection.Improve | TextExtractor.swift:64-73 | one inner-loop iteration: an unparsed number changes nothing; a parsed one replaces the running amount and currency when there is none or it is strictly greater |
| Selection.SelectChooses | TextExtractor.swift:39-79 | the result is nothing exactly when no candidate parsed; otherwise it is the value and currency of the first greatest parsed candidate; amount and currency are present together |
| Selection.StepChooses | TextExtractor.swift:65-72 | one more iteration keeps the running state the first maximum of the candidates seen so far |
| Selection.FirstMaximumUnique | TextExtractor.swift:65 | at most one candidate is the first maximum, so a tie goes to the earlier candidate |
| Selection.SelectSnoc | TextExtractor.swift:49-76 | processing one more candidate is one more iteration on the state reached |
| Selection.UnparsedIgnored | TextExtractor.swift:64 | a candidate whose number does not parse never affects the result, wherever it occurs |
| Amounts.ExtractAmountChooses | TextExtractor.swift:26-80 | `extractAmount` returns the first greatest parsed candidate over all patterns in pattern order, or `(nil, nil)` when none parses |
| Amounts.ExtractAmountLoop | TextExtractor.swift:39-79 | the two nested loops as written compute that same result |
| Amounts.ConsiderMatches | TextExtractor.swift:49-76 | the inner loop over one pattern's matches continues the running maximum over those matches |
| Amounts.NoCurrencyNoAmount | TextExtractor.swift:28-79 | text with no currency symbol anywhere, in any case, gives `(nil, nil)` |
| Amounts.NoCurrencyNoMatches | TextExtractor.swift:30-36 | without a currency symbol no amount pattern matches at all |
| Amounts.EvaluateSnoc | TextExtractor.swift:49-64 | candidates are normalised and parsed one at a time, in order |
| Samples.ToplamAmount | TextExtractor.swift:26-80 | `Toplam: 1.234,56 TL` gives `(1234.56, "TL")` |
| Samples.PricesAmount | TextExtractor.swift:26-80 | `12.00 TL 50.00 TL` gives `(50.0, "TL")`, the larger of the two prices |
| Samples.NoCurrencyAmount | TextExtractor.swift:26-80 | `Kimlik No: 12345`, which has no currency symbol, gives `(nil, nil)` |
| Samples.TotalAmount | TextExtractor.swift:26-80 | `Total: 1,234.56 USD` gives `(234.56, "USD")` |
| Samples.VerticalTabMatch | TextExtractor.swift:34 | `\s` accepts a vertical tab, so the plain pattern matches `5.00`, a vertical tab and `TL` as one amount |
| Chars.Lower | DocumentScannerView.swift:628 | lower-casing never shortens the text and keeps its length unless it contains `İ` |
| Chars.LowerAppend | DocumentScannerView.swift:628 | lower-casing works character by character: it distributes over concatenation |
| Chars.LowerUpper | DocumentScannerView.swift:628 | lower-casing forgets every capitalisation of the modelled letters |
| Chars.LowerOfCapitalised | DocumentScannerView.swift:555 | a word with only its first letter an ASCII capital lower-cases that letter and nothing else |
| Classifier.Classify | DocumentScannerView.swift:625-642 | invoice exactly when the lower-cased text contains an invoice word; identity exactly when it contains no invoice word and an identity word; business card and generic likewise down the list |
| Classifier.ScoreFollowsPriority | DocumentScannerView.swift:625-641 | a rule tried earlier always reports a strictly higher confidence: 0.85, 0.80, 0.75, then 0.6 |
| Classifier.ClassifyIgnoresCase | DocumentScannerView.swift:628 | capitalising letters of the text never changes the category |
| Classifier.ClassifyMonotone | DocumentScannerView.swift:628-642 | text added before or after can only raise the category and its confidence |
| Classifier.ConfidenceColor | DocumentScannerView.swift:567-571 | green exactly from 0.8 up, orange exactly below 0.5, yellow between |
| Classifier.ConfidenceColorMonotone | DocumentScannerView.swift:567-571 | a higher confidence never gets a worse colour |
| Classifier.ClassifiedColors | DocumentScannerView.swift:567-571 | the classifier's scores show green for invoices and identity cards, yellow otherwise, never orange |
| Classifier.CategoryIcon | DocumentScannerView.swift:554-565 | the icon is one of four: the invoice icon exactly when the lower-cased label contains `fatura` or `invoice`; otherwise the identity icon exactly when it contains `kimlik` or `id`; otherwise the card icon exactly when it contains `kartvizit` or `card`; otherwise the plain document icon |
| Classifier.LabelIcons | DocumentScannerView.swift:554-565 | each classifier label gets its own icon: Fatura the invoice icon, Kimlik the identity icon, Kartvizit the card icon, Doküman the plain document icon |
| Scanner.Analyze | DocumentScannerView.swift:622-655 | the closure stores the text and its links unchanged, the extracted amount and currency (present together), and the label and score of the first keyword rule that applies |
| Scanner.LabelInjective | DocumentScannerView.swift:625-641 | the stored label determines the category |
| Scanner.AnalyzeEmpty | DocumentScannerView.swift:622-651 | empty recognised text yields no links, no amount, and a generic document at 0.6 |
| Scanner.NewDocument | DocumentScannerView.swift:672-683 | the saved document is in no folder, has no tags, and has no text exactly when the recognised text is empty; the rest of the scan result is copied |
| Scanner.NewDocumentKeepsResult | DocumentScannerView.swift:672-683 | the scan result can be read back from the saved document, the empty text included |
| Scanner.SaveDocument | DocumentScannerView.swift:668-685 | saving puts the new document first and changes neither folders nor settings |
| Scanner.SavedScanIsUnfiled | DocumentScannerView.swift:672-685 | a saved scan heads the listing of documents in no folder, above those already there |
| Scanner.AnalyzedPresentation | DocumentScannerView.swift:554-571 | a classified scan shows the icon of its category and a green or yellow badge according to its category |
| Store.NewFolder | Models.swift:41-47 | a folder built without icon and colour gets `folder.fill` and `blue` |
| Store.DefaultFolders | Models.swift:121-126 | the four default folders, in order, with their names, icons and colours |
| Store.CreateDefaultFolders | Models.swift:119-128 | seeds the defaults into an empty folder list and changes nothing otherwise; afterwards there is always a folder |
| Store.CreateDefaultFoldersIdempotent | Models.swift:119-128 | seeding twice is seeding once |
| Store.AddFolder | Models.swift:131-134 | the folder is appended, and nothing else changes |
| Store.Detach | Models.swift:139-145 | a document filed under the deleted folder loses its folder; nothing else about it changes |
| Store.DeleteFolder | Models.swift:136-147 | no folder with that identifier remains; the document list keeps its length and order, and only documents filed under it change, by losing their folder |
| Store.DeleteFolderKeepsOthers | Models.swift:137 | every other folder survives as often as it occurred |
| Store.DeleteFolderKeepsOrder | Models.swift:137 | deleting from a concatenation of folder lists deletes from each part, so the remaining folders keep their order |
| Store.DeleteFolderCascades | Models.swift:136-147 | afterwards the folder lists nothing, and the no-folder listing grows by exactly the documents it held |
| Store.AddDocument | Models.swift:149-152 | the document is put first, and the rest follow unchanged |
| Store.DeleteDocument | Models.swift:154-162 | every document with that identifier is removed; without one nothing changes |
| Store.DeleteDocumentKeepsOthers | Models.swift:155 | every other document survives as often as it occurred |
| Store.DeleteDocumentKeepsOrder | Models.swift:155 | deleting from a concatenation deletes from each part, so the survivors keep their order |
| Store.DeleteUndoesAdd | Models.swift:149-162 | deleting a document just added under a fresh identifier restores the store |
| Store.FirstIndex | Models.swift:165 | the first position holding that identifier, or none when no document has it |
| Store.MoveDocument | Models.swift:164-171 | only the first document with that identifier changes, and only its folder; with no such document nothing changes |
| Store.MoveDocumentIdempotent | Models.swift:164-171 | moving twice to the same folder is moving once |
| Store.DocumentsInFolder | Models.swift:173-179 | every listed document is filed under the folder, or under none for `nil` |
| Store.DocumentsInFolderKeepsOrder | Models.swift:173-179 | the listing keeps list order: the listing of a concatenation is the listing of the first part followed by that of the second |
| Store.DocumentsInFolderContents | Models.swift:173-179 | the listing holds exactly the documents filed there, each as often as in the store |
| Store.DocumentsInFolderAfterAdd | Models.swift:173-179 | a new document heads the listing of its own folder and leaves every other listing unchanged |
| Store.UpdateSettings | Models.swift:181-184 | the settings are replaced and folders and documents are untouched |
| Store.UpdateSettingsLastWins | Models.swift:181-184 | of two updates the last one wins |
| Pin.AddDigit | PINViews.swift:99-117 | a press on a full buffer is ignored; the fourth key delivers the joined keys and empties the buffer; earlier keys are appended |
| Pin.DeleteDigit | PINViews.swift:119-125 | the last key is dropped, and an empty buffer stays empty |
| Pin.AddDigitKeepsBound | PINViews.swift:99-117 | between presses the buffer holds fewer than four keys |
| Pin.DeleteUndoesAdd | PINViews.swift:99-125 | deleting right after a press that did not complete the PIN takes the key back |
| Pin.TypePartial | PINViews.swift:99-117 | up to three keys typed on an empty buffer are held |
| Pin.TypeGroup | PINViews.swift:99-117 | four keys on an empty buffer deliver their join once and empty the buffer |
| Pin.JoinKeysOf | PINViews.swift:109 | joining the keys of a PIN gives back the PIN |
| Pin.TypingPins | PINViews.swift:99-117 | typing four-character PINs one after another delivers exactly those PINs, in order, and ends with an empty buffer |
| Pin.SetupComplete | PINViews.swift:187-234 | the first page keeps the PIN and asks again; on the second page a match stores and enables it and closes the screen, a mismatch stores nothing and starts over |
| Pin.SetupCancel | PINViews.swift:187-239 | cancel closes the screen on the first page and returns to the first page on the second, never touching the settings |
| Pin.SetupThenUnlock | PINViews.swift:205-217 | the same PIN entered twice is stored, and then exactly that PIN opens the lock screen |
| Pin.SetupMismatchRestarts | PINViews.swift:218-232 | two different PINs store nothing and return to the first page |
| Pin.LockComplete | PINViews.swift:308-331 | the lock opens exactly when the entry equals the stored code; otherwise the attempt count goes up by one |
| Pin.NoLockout | PINViews.swift:308-331 | any number of wrong entries only adds to the count, and the stored code still opens the lock afterwards |
| Pin.WrongEntriesCount | PINViews.swift:317-319 | each wrong entry adds one failed attempt and nothing else |
| Pin.NoCodeNeverUnlocks | PINViews.swift:309 | with no stored code no entry opens the lock |
| Pin.RemainingAfterFourFailures | PINViews.swift:334 | after four failures the message announces -1 remaining attempts |
| App.OnAppear | doCApp.swift:20-24 | without a PIN the session unlocks on appearance; with one it stays as it was |
| App.LaunchShowsLockIffPin | doCApp.swift:11-24 | a fresh launch shows the lock screen exactly when a PIN is enabled |
| App.RemovePin | SettingsView.swift:168-173 | removal disables and forgets the PIN and changes nothing else |
| App.RemovedPinNeverLocks | SettingsView.swift:168-173 | after removal the lock screen is never shown |
| App.DefaultSettingsConsistent | Models.swift:58-64 | a fresh installation has no PIN enabled without a code |
| App.SetupKeepsConsistent | PINViews.swift:205-238 | setup and cancel never leave an enabled PIN without a code |
| App.RemovePinKeepsConsistent | SettingsView.swift:169-172 | removal never leaves an enabled PIN without a code |
| App.LockCanBeOpened | PINViews.swift:308-316 | with consistent settings some entry always opens the lock screen |
| App.SetupThenRelaunch | doCApp.swift:11-24 | after a PIN is set up the next launch shows the lock screen, and that PIN removes it |

## Left out

- `performOCR` (TextExtractor.swift:83-125) and the Vision framework are left out. The recognised text is an input to `Scanner.Analyze`.
- Image handling is left out. This covers the camera, the photo picker, `processScan`, `classifyImage`, `saveImage`, and the image-file removal in `deleteDocument`. `saveDocument` is modelled after the image has been saved, and the image path is a parameter.
- Persistence is left out. `loadData`, `saveData` and their JSON in `UserDefaults` are not modelled; each store operation is the in-memory change it makes.
- Identifiers and dates are parameters chosen by the caller. `UUID()` and `Date()` are not modelled.
- UI state, haptics, sounds, animations and error-message flags are left out. The PIN message is kept only as the number it shows (`Pin.RemainingShown`).
- The delayed callbacks (`asyncAfter`) of the PIN screens are taken as immediate. In the app, key presses in the 0.3 s after the fourth key are ignored because the buffer is still full. In the model the buffer empties at once.
- Decimals.ParseDecimal: only strings of digits and points are modelled. Those are the only strings the normalised captures can be. `Double(_:)`'s exponents, signs, `inf`, `nan` and hexadecimal forms are not modelled.
- Decimals.ParseDecimal: the value is the exact decimal, not the nearest binary floating-point number. Two long numbers that round to the same `Double` compare as equal in the app and as distinct in the model.
- Chars.IsDigit: `\d` is ASCII digits only, but ICU's `\d` accepts every Unicode decimal digit. The difference can change the result. In `٣2.50 $` (ARABIC-INDIC DIGIT THREE, U+0663, before `2.50 $`), the app's plain and foreign patterns match `٣2.50` from offset 0. `Double(_:)` rejects it, and the search resumes after the match, so the app returns `(nil, nil)`. The model finds no match at offset 0 and matches `2.50 $` at offset 1, so it returns `(2.5, "$")`.
- Chars.IsWordChar: `\w` covers only ASCII letters, digits, `_` and the Latin-1 and Latin Extended-A/B letters. ICU's `\w` takes many more characters: every alphabetic character, combining marks, every Unicode decimal digit, all connector punctuation, and the zero-width non-joiner and joiner (U+200C, U+200D). Any of these inside a link ends the model's link early, where the app's link goes on.
- Chars.MatchesAt: case-insensitive matching folds ASCII letters only. ICU also matches, for example, the long s `ſ` against `s` in `USD`.
- Chars.Lower: `lowercased()` is modelled for ASCII, Latin-1, `Ğ`, `Ş` and `İ`. Other capitals are left unchanged, including the Kelvin sign, which Unicode lowers to `k`.
- Text positions are Unicode code points, not UTF-16 units or grapheme clusters. Text outside the Basic Multilingual Plane and combining sequences are not modelled.
- `FolderViews.swift` and `PDFExporter.swift` are not part of this model. Neither are the remaining views of `DocumentScannerView.swift` and `SettingsView.swift`.
