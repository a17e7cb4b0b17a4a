# Customs declaration field extractor, modelled in Dafny

This project models `PDFExtractor` from `lib/pdf-extractor.ts`. It is the
engine that turns the plain text of an Argentine customs import declaration
("despacho de importación") into one `DespachoData` record:

- `archivo`: the file name without its `.pdf` extension;
- the FOB, freight (flete) and insurance (seguro) totals;
- the currency (divisa);
- the customs value in dollars (valor en aduana);
- the exchange rate (cotización);
- the seller (vendedor) and importer names;
- the declaration number (despacho);
- the date it was made official (fecha de oficialización).

The model is a set of pure functions over `string` (`seq<char>`).

- `Numbers`: `parseNumber`, which reads the Argentine amount format: `.` for
  thousands and `,` as the decimal mark. It is built on a model of
  `parseFloat` over exact `real` values, so amounts are never rounded.
- `Text`, `Normalize`: the character classes the regular expressions use
  (`\s`, `\d`, `\w`, `\b`, the `i` flag), and the clean-ups applied to
  captures (`replace(/\s+/g, ' ')`, `trim`, `replace(/\s/g, '')`,
  `substring`).
- `Search`: the order in which a backtracking regular-expression engine tries
  things:
  - the leftmost start (`FirstIn` over positions);
  - lazy `{1,N}?` windows (`FirstIn` over lengths);
  - greedy give-back (`LastIn`);
  - the extractor's chain of fallback patterns, where the first that matches
    wins (`FirstOf`).
- `Scanners`, `Patterns`: every regular expression of the extractor as a
  hand-written scanner. This includes the amount grammar
  `\d{1,3}(\.\d{3})*,\d{2}`, the currency tokens, the exchange-rate numbers,
  the `DD/MM/YYYY` date with and without inner spaces, and the three shapes
  of customs code. Each field has its candidate list, in the source's order.
- `Aggregator`: `extractValorAduanaTotal`. `matchAll` is `Matches`, which is
  proved equal to the one sequence satisfying a declarative description
  (`Enumerates`). The total is the exact sum of the "Dólar" amounts, or of
  the "Divisa" amounts when there is no "Dólar" amount.
- `Extractor`: `cleanFilename`, the default record, each field's fallback
  chain, and `extractFromText`. Its contract is a record invariant:
  - money is in whole hundredths;
  - the rate is never negative;
  - the currency is empty or one of DOL, USD, EUR, BRL, ARS;
  - the seller and the customs code carry no doubled or outer white space;
  - the importer has at most 100 characters, no doubled white space and none
    at its start, but it may end in one space (see Findings);
  - the date is empty or `DD/MM/YYYY`.

  A text with no digit that mentions neither "Vendedor" nor "Importador"
  yields exactly the default record.

Some behaviours of the code that are easy to miss, each modelled as written:

- Nothing is skipped between "Vendedor" and the seller name, and the name is
  not cut at 100 characters. The first seller pattern (line 106) takes,
  after white space that ends in a line break, 3 to 80 characters of one
  line: as many as the line has, up to 80. It fails where that line is
  shorter than 3 characters.
- The exchange-rate patterns need `Cotiz`, optional white space and `=`. The
  first one takes any number of fraction digits after the comma.
- The currency comes only from a token that directly follows an amount and
  white space.
- The customs-code patterns need a four-character type code and a six-digit
  serial number; only the last pattern accepts five to seven digits.
- No white-space normalisation runs over the whole text before the patterns;
  each pattern copes with line breaks itself.
- The FOB patterns need "en Dólar", "en Divisa", a following "DOL" or "Cond.
  Venta". A bare "FOB Total" label followed by an amount on a later line is
  not read.

## Model

| member | source | states |
|---|---|---|
| Numbers.ParseNumber | lib/pdf-extractor.ts:18-23 | Empty input reads as 0, and a value with no minus sign never reads as negative. |
| Numbers.ParseNumberAmount | lib/pdf-extractor.ts:20-22 | Every amount of the form `\d{1,3}(\.\d{3})*,\d{2}` reads as its digits with the dots dropped, the last two being hundredths. |
| Numbers.ParseNumberDecimal | lib/pdf-extractor.ts:21-22 | Digits and dots, a comma, then digits and dots read as the digits with every dot removed and the comma as the decimal point. |
| Numbers.ParseNumberInteger | lib/pdf-extractor.ts:21-22 | Without a comma, every dot is a thousands separator, so the value is the digits alone. |
| Numbers.ParseNumberThousandsExample | lib/pdf-extractor.ts:20-22 | "1.474,50" reads as 1474.5. |
| Numbers.ParseNumberNotANumberExample | lib/pdf-extractor.ts:22 | Text that `parseFloat` cannot read gives 0 (the `\|\| 0`). |
| Numbers.AmountIsCents | lib/pdf-extractor.ts:20-22 | An amount of the grammar reads as a whole number of hundredths. |
| Numbers.ParseFloat | lib/pdf-extractor.ts:22 | A value read from text without a minus sign is never negative. |
| Numbers.ParseFloatDecimal | lib/pdf-extractor.ts:22 | `parseFloat` reads `digits.digits` as exactly that decimal. |
| Numbers.ParseFloatInteger | lib/pdf-extractor.ts:22 | `parseFloat` reads a string of digits as exactly that integer. |
| Normalize.RemoveSpaces | lib/pdf-extractor.ts:132 | The result has no white space and is no longer than the input. |
| Normalize.Collapse | lib/pdf-extractor.ts:108 | The collapsed text is no longer than the input, is empty only for empty input, and starts with white space exactly when the input does. |
| Normalize.CollapseSound | lib/pdf-extractor.ts:108 | The collapsed text has no doubled white space and no white space other than plain spaces, and keeps exactly the non-space characters, in order. |
| Normalize.CollapseAppend | lib/pdf-extractor.ts:108 | Collapsing a text split right after a non-space character collapses the two parts separately. |
| Normalize.CollapseRun | lib/pdf-extractor.ts:108 | A run of white space followed by a non-space character, or by the end, becomes exactly one space. |
| Normalize.CollapseJoinsWords | lib/pdf-extractor.ts:108 | Two parts separated by a run of white space are collapsed separately and joined by exactly one space, so "a  b" becomes "a b" and never "ab". |
| Normalize.CollapseKeepsSingleSpaced | lib/pdf-extractor.ts:108 | A single-spaced text is left unchanged. |
| Normalize.Trim | lib/pdf-extractor.ts:108 | The result has no outer white space and is the input with only white space removed from its two ends. |
| Normalize.TrimKeepsNonSpaces | lib/pdf-extractor.ts:108 | Trimming removes white space only: the non-space characters stay, in order. |
| Normalize.Take | lib/pdf-extractor.ts:116 | `substring(0, n)` is a prefix of the string: the whole string when it is no longer than n, and exactly its first n characters otherwise. |
| Normalize.Tidied | lib/pdf-extractor.ts:108 | Collapse-then-trim yields a single-spaced, trimmed text that keeps exactly the non-space characters of the capture, in order. |
| Normalize.TidiedKeepsTidy | lib/pdf-extractor.ts:108 | A capture that is already single-spaced and trimmed is kept unchanged. |
| Normalize.TidiedFiveWords | lib/pdf-extractor.ts:125 | Five words separated by runs of white space are tidied to the words joined by single spaces. |
| Normalize.TidiedIdempotent | lib/pdf-extractor.ts:108 | Tidying a tidied name changes nothing. |
| Normalize.ImporterAsWritten | lib/pdf-extractor.ts:116 | The importer name as written is the tidied capture cut to its first 100 characters: a prefix of it, all of it when it fits, and exactly 100 characters otherwise; it is single-spaced and starts with no space. |
| Normalize.ImporterAsWrittenTrailingSpace | lib/pdf-extractor.ts:116 | Ninety-nine non-space characters, a space and one more character are cut after the space, leaving it at the end. |
| Normalize.ImporterAsWrittenNotTrimmed | lib/pdf-extractor.ts:116 | So the importer name as written is not always trimmed. |
| Normalize.ImporterName | lib/pdf-extractor.ts:116 | The corrected importer name is single-spaced, trimmed and at most 100 characters; it is the as-written name, one character shorter exactly when the as-written name is not trimmed, and the whole tidied capture when that fits. |
| Normalize.ImporterNameAgreesWhenShort | lib/pdf-extractor.ts:116 | When the tidied capture fits in 100 characters, the corrected and the as-written name agree. |
| Search.FirstIn | lib/pdf-extractor.ts:69 | The leftmost position in a range where the matcher succeeds is chosen; nothing is found only when it fails everywhere in the range. |
| Search.LastIn | lib/pdf-extractor.ts:113 | A greedy run gives characters back from its longest length down; nothing is found only when every length fails. |
| Search.FirstOf | lib/pdf-extractor.ts:69-73 | The result comes from a candidate that matched and that no earlier candidate preceded; nothing is found only when every candidate fails. |
| Search.FirstOfPicks | lib/pdf-extractor.ts:69-73 | The first candidate that matches decides the result. |
| Search.FirstOfKeepsEarlierMatch | lib/pdf-extractor.ts:69-73 | A later candidate never overrides an earlier match. |
| Search.FirstOfRedundantLast | lib/pdf-extractor.ts:129-131 | A last candidate that only matches where an earlier one does can be dropped without changing any result. |
| Scanners.Amount | lib/pdf-extractor.ts:31 | What the amount scanner takes starts with a digit and is an amount of the grammar. |
| Scanners.AmountExact | lib/pdf-extractor.ts:31 | Every amount of the grammar in the text is taken whole by the scanner. |
| Scanners.DecimalNumber | lib/pdf-extractor.ts:99 | The exchange rate's decimal starts with a digit and holds only digits, dots and commas, and the greedy `\d+` leaves no digit after it. |
| Scanners.DecimalNumberSound | lib/pdf-extractor.ts:99 | What the scanner takes is a decimal of the grammar `\d{1,3}(?:\.\d{3})*,\d+`. |
| Scanners.DecimalNumberExact | lib/pdf-extractor.ts:99 | Every decimal of the grammar that no digit follows is taken whole: the scan ends exactly where it does. |
| Scanners.DecimalNumberShape | lib/pdf-extractor.ts:99 | The exchange rate's decimal is digits and thousands groups, then a comma where the groups stop, then at least one digit. |
| Scanners.NumberRun | lib/pdf-extractor.ts:100 | The loose exchange-rate number is a digit and at least one more digit, dot or comma, and the greedy `[\d.,]+` leaves none of them after it. |
| Scanners.NumberRunExact | lib/pdf-extractor.ts:100 | Every such run that ends before a character outside `[\d.,]` is taken whole. |
| Scanners.StrictDate | lib/pdf-extractor.ts:129 | A strict date is ten characters in `DD/MM/YYYY` form. |
| Scanners.SpacedDate | lib/pdf-extractor.ts:130 | A date with white space around its slashes becomes `DD/MM/YYYY` once the white space is removed. |
| Scanners.SpacedDateHasLayout | lib/pdf-extractor.ts:130 | A matched spaced date is two digits, white space, a slash, white space, two digits, white space, a slash, white space and four digits, with white space only around the slashes, and the match ends after the year. |
| Scanners.SpacedDateComplete | lib/pdf-extractor.ts:130 | Conversely, every text laid out that way is matched, ending after the year. |
| Scanners.Code | lib/pdf-extractor.ts:122-124 | A customs code found at a position starts with a digit there and ends inside the text. |
| Scanners.CodeHasLayout | lib/pdf-extractor.ts:122-124 | A customs code is two digits, white space, three digits, white space, a type code of its grammar, white space, a serial number of six digits (five to seven in the loose grammar), white space and a letter, and the match ends after that letter. |
| Scanners.CodeComplete | lib/pdf-extractor.ts:122-124 | Conversely, every code laid out that way is matched, and the match ends after its letter, so the scanner finds exactly the codes of its grammar. |
| Scanners.CodeTidied | lib/pdf-extractor.ts:122-125 | A matched customs code, tidied, reads `DD DDD XXXX N… L`: its five groups joined by single spaces. |
| Patterns.FobInDolar | lib/pdf-extractor.ts:69 | The "FOB Total en Dólar" capture is an amount of the grammar. |
| Patterns.FobInDivisa | lib/pdf-extractor.ts:70 | The "FOB Total en Divisa" capture is an amount of the grammar. |
| Patterns.FobBeforeDol | lib/pdf-extractor.ts:71 | The "FOB amount DOL" capture is an amount of the grammar. |
| Patterns.FobCondVenta | lib/pdf-extractor.ts:72 | The "Cond. Venta FOB" capture is an amount of the grammar. |
| Patterns.FleteAfterMarker | lib/pdf-extractor.ts:77 | The flete capture after a currency marker is an amount of the grammar. |
| Patterns.FleteBeforeCurrency | lib/pdf-extractor.ts:78 | The flete capture before DOL or USD is an amount of the grammar. |
| Patterns.FleteSecondDolAmount | lib/pdf-extractor.ts:79 | The second of two DOL amounts is an amount of the grammar. |
| Patterns.SeguroBeforeCurrency | lib/pdf-extractor.ts:85 | The seguro capture before DOL or USD is an amount of the grammar. |
| Patterns.SeguroNearby | lib/pdf-extractor.ts:86 | The nearby seguro capture is an amount of the grammar. |
| Patterns.CurrencyAt | lib/pdf-extractor.ts:91 | A currency found at a position follows an amount starting there, after white space, and ends on a word boundary. |
| Patterns.CurrencyAtComplete | lib/pdf-extractor.ts:91 | Every amount followed by white space and a currency token is found where it starts. |
| Patterns.CodeTokenSound | lib/pdf-extractor.ts:91 | What the token scan takes is a listed code, in any case, after at least one white-space character and ending on a word boundary. |
| Patterns.CodeTokenComplete | lib/pdf-extractor.ts:91 | Every token of the list after white space, ending on a word boundary, is found. |
| Patterns.Currency | lib/pdf-extractor.ts:91 | The currency is the token after the leftmost amount that has one; nothing is found only when no amount has one. |
| Patterns.CotizDecimal | lib/pdf-extractor.ts:99 | The first exchange-rate capture starts with a digit and holds only digits, dots and commas. |
| Patterns.CotizLoose | lib/pdf-extractor.ts:100 | The loose exchange-rate capture starts with a digit and holds only digits, dots and commas. |
| Patterns.CotizDecimalShape | lib/pdf-extractor.ts:99 | The first exchange-rate capture has a comma with digits and dots before it and only digits after it. |
| Patterns.CotizDecimalWhole | lib/pdf-extractor.ts:99 | The first exchange-rate capture is a decimal of its grammar, taken from the text with no digit after it. |
| Patterns.CotizLooseWhole | lib/pdf-extractor.ts:100 | The second exchange-rate capture is taken from the text with no digit, dot or comma after it. |
| Patterns.ParseNumberAtComma | lib/pdf-extractor.ts:18-22 | Such a number reads as its digits with the dots dropped and the comma as the decimal point. |
| Patterns.VendedorNextLine | lib/pdf-extractor.ts:106 | The seller on the next line is 3 to 80 characters of one line, and the text mentions "Vendedor". |
| Patterns.VendedorBeforeMarker | lib/pdf-extractor.ts:107 | The seller before a marker starts with a letter, has at least 4 characters, and the text mentions "Vendedor". |
| Patterns.ImportadorNextLine | lib/pdf-extractor.ts:113 | The importer on the next line is 3 to 100 characters of one line, and the text mentions "Importador". |
| Patterns.ImportadorBeforeTaxId | lib/pdf-extractor.ts:114 | The importer before the tax-id label starts with a letter, and the text mentions "Importador". |
| Patterns.ImportadorSplitLabel | lib/pdf-extractor.ts:115 | The importer after a split label is 4 to 101 characters of one line, and the text mentions "Importador". |
| Patterns.FechaAfterLabel | lib/pdf-extractor.ts:129 | The date right after the label is in `DD/MM/YYYY` form. |
| Patterns.FechaWithin | lib/pdf-extractor.ts:130 | The date near the label is `DD/MM/YYYY` once its white space is removed. |
| Patterns.FechaNextLine | lib/pdf-extractor.ts:131 | The date on the line after the label is in `DD/MM/YYYY` form. |
| Patterns.FechaNextLineImpliesWithin | lib/pdf-extractor.ts:129-131 | Whenever the third date pattern matches, the second one does too. |
| Patterns.DespachoLettersDigits | lib/pdf-extractor.ts:122 | The first customs-code pattern only matches in a text with a digit. |
| Patterns.DespachoAlphanumeric | lib/pdf-extractor.ts:123 | The second customs-code pattern only matches in a text with a digit. |
| Patterns.DespachoAfterYear | lib/pdf-extractor.ts:124 | The customs code after the "Año / Ad." label only matches in a text with a digit. |
| Patterns.DespachoCapturesTidy | lib/pdf-extractor.ts:122-125 | Each customs-code capture tidies to `DD DDD XXXX N… L` of its grammar: two letters and two digits with a six-digit serial number for the first pattern, four letters or digits with six for the second, and five to seven digits for the third. |
| Aggregator.HitAt | lib/pdf-extractor.ts:31 | A match starting at a position ends inside the text and captured an amount of the grammar. |
| Aggregator.NextHit | lib/pdf-extractor.ts:32 | The next match is the leftmost one at or after the resume position; none is found only when none starts there or later. |
| Aggregator.AllHits | lib/pdf-extractor.ts:32 | `Array.from(text.matchAll(regex))` meets the description of the matches: each starts after the previous one ends, none is skipped in between and none follows the last. |
| Aggregator.Matches | lib/pdf-extractor.ts:32 | `matchAll` yields matches that each start after the previous one ends, with no match skipped in between and none after the last. |
| Aggregator.EnumeratedAreMatches | lib/pdf-extractor.ts:31-32 | Every element of an enumeration is a match of the pattern at the position where it starts. |
| Aggregator.EnumerationUnique | lib/pdf-extractor.ts:32 | That description fixes the sequence of matches: two sequences meeting it are equal. |
| Aggregator.AllHitsIsTheEnumeration | lib/pdf-extractor.ts:31-32 | The global search returns exactly the sequence the description names. |
| Aggregator.AllHitsEmpty | lib/pdf-extractor.ts:32-34 | The global search returns nothing exactly when no match starts anywhere in the text. |
| Aggregator.ValorAduanaTotal | lib/pdf-extractor.ts:29-46 | The customs value is a whole number of hundredths and not negative. |
| Aggregator.SumOfAmountsIsCents | lib/pdf-extractor.ts:35 | A sum of amounts is a whole number of hundredths and not negative. |
| Aggregator.SumAmountsSnoc | lib/pdf-extractor.ts:35 | One more match adds its parsed amount to the sum. |
| Aggregator.DolarMatchesDecide | lib/pdf-extractor.ts:34-35 | When the "Dólar" label matches anywhere, the value is the sum over its matches. |
| Aggregator.DivisaOnlyWithoutDolar | lib/pdf-extractor.ts:38-43 | When the "Dólar" label matches nowhere, the value is the sum over the "Divisa" matches. |
| Aggregator.NoLabelNoValue | lib/pdf-extractor.ts:45 | When neither label matches, the value is 0. |
| Aggregator.NoDigitNoValue | lib/pdf-extractor.ts:29-46 | A text without a digit has customs value 0. |
| Extractor.CleanFilename | lib/pdf-extractor.ts:25-27 | The name loses either nothing or one ".pdf" at its end in any case, and it loses something exactly when it ends so. |
| Extractor.CleanFilenameStripsExtension | lib/pdf-extractor.ts:26 | Cleaning undoes appending ".pdf" in any case, even to a name that already ends in ".pdf". |
| Extractor.CleanFilenameKeepsOtherNames | lib/pdf-extractor.ts:26 | A name that does not end in ".pdf" is kept as it is. |
| Extractor.CleanFilenameOnce | lib/pdf-extractor.ts:26 | "a.pdf.pdf" becomes "a.pdf". |
| Extractor.Default | lib/pdf-extractor.ts:50-62 | The default record holds the cleaned name and satisfies the record invariant. |
| Extractor.FobTotal | lib/pdf-extractor.ts:69-73 | The FOB total is a whole number of hundredths, and 0 in a text with no digit. |
| Extractor.FleteTotal | lib/pdf-extractor.ts:77-81 | The freight total is a whole number of hundredths, and 0 in a text with no digit. |
| Extractor.SeguroTotal | lib/pdf-extractor.ts:85-87 | The insurance total is a whole number of hundredths, and 0 in a text with no digit. |
| Extractor.FobChain | lib/pdf-extractor.ts:69-73 | The FOB total is the capture of the first of the four FOB patterns that matches, read as a number, or 0 when none matches. |
| Extractor.FleteChain | lib/pdf-extractor.ts:77-81 | The freight total is the capture of the first of the three freight patterns that matches, read as a number, or 0 when none matches. |
| Extractor.SeguroChain | lib/pdf-extractor.ts:85-87 | The insurance total is the capture of the first of the two insurance patterns that matches, read as a number, or 0 when none matches. |
| Extractor.Divisa | lib/pdf-extractor.ts:91-92 | The currency is empty or one of DOL, USD, EUR, BRL, ARS, and it is only set in a text with a digit. |
| Extractor.Cotizacion | lib/pdf-extractor.ts:99-101 | The exchange rate is never negative, and it is 0 in a text with no digit. |
| Extractor.CotizacionChain | lib/pdf-extractor.ts:99-101 | The rate is the first exchange-rate capture read as a number when that pattern matches, else the second one's, else 0. |
| Extractor.CotizacionFromDecimal | lib/pdf-extractor.ts:99-101 | A rate captured by the first pattern is read with its dots dropped and its comma as the decimal point, keeping every fraction digit of the capture; Patterns.CotizDecimalWhole shows the capture runs to the end of the text's digits. |
| Extractor.RateNonNegative | lib/pdf-extractor.ts:99-101 | A captured rate, written without a sign, never reads as negative. |
| Extractor.Vendedor | lib/pdf-extractor.ts:106-108 | The seller is tidy, and it is only set in a text that mentions "Vendedor". |
| Extractor.VendedorChain | lib/pdf-extractor.ts:106-108 | The seller is the first seller pattern's capture, tidied, else the second one's, else empty. |
| Extractor.Importador | lib/pdf-extractor.ts:113-116 | The importer is at most 100 characters, single-spaced and starts with no space, and it is only set in a text that mentions "Importador". |
| Extractor.ImporterOf | lib/pdf-extractor.ts:116 | A capture becomes a prefix of its tidied form, empty exactly when the capture holds no non-space character; no capture gives the empty name. |
| Extractor.ImportadorChain | lib/pdf-extractor.ts:113-116 | The importer is the capture of the first importer pattern that matches, tidied and cut to 100 characters, or empty when none matches. |
| Extractor.ImportadorCorrected | lib/pdf-extractor.ts:116 | The importer as evidently intended is tidy, at most 100 characters, and the field as written with its trailing space trimmed. |
| Extractor.DespachoNumero | lib/pdf-extractor.ts:122-125 | The declaration number is tidy, and it is only set in a text with a digit. |
| Extractor.DespachoChain | lib/pdf-extractor.ts:122-125 | The declaration number is the capture of the first customs-code pattern that matches, tidied, or empty when none matches. |
| Extractor.DespachoNumeroShape | lib/pdf-extractor.ts:122-125 | The declaration number is empty exactly when no pattern matches, and otherwise reads `DD DDD XXXX N… L` with single spaces; from the first pattern the type code is two letters and two digits and the serial number six digits, from the second the type code is four letters or digits. |
| Extractor.Fecha | lib/pdf-extractor.ts:129-132 | The date is empty or `DD/MM/YYYY`, and it is only set in a text with a digit. |
| Extractor.FechaChain | lib/pdf-extractor.ts:129-132 | The date is the strict date after the label, else the nearby date with its white space removed, else empty. |
| Extractor.ExtractFromText | lib/pdf-extractor.ts:48-135 | Every record satisfies the record invariant and carries the cleaned file name; a text with no digit that mentions neither "Vendedor" nor "Importador" yields the default record. |
| Extractor.ExtractFromTextReadsNumbers | lib/pdf-extractor.ts:48-101 | The record holds the cleaned file name, the customs value, and for the FOB, freight, insurance and rate fields the first matching pattern's capture read as a number, or 0. |
| Extractor.ExtractFromTextReadsNames | lib/pdf-extractor.ts:106-116 | The record holds the first matching seller capture tidied, and the first matching importer capture tidied and cut to 100 characters, or empty strings. |
| Extractor.ExtractFromTextReadsCodes | lib/pdf-extractor.ts:91-132 | The record holds the upper-cased currency token, the first matching customs-code capture tidied, and the first matching date with its white space removed, or empty strings. |
| Extractor.FobDecidedByFirstMatch | lib/pdf-extractor.ts:69-73 | The first of the four FOB patterns that matches decides the FOB total. |
| Extractor.FobPrefersTotalInDolar | lib/pdf-extractor.ts:69 | "FOB Total en Dólar" wins over every other FOB amount. |
| Extractor.FleteFromSecondAmount | lib/pdf-extractor.ts:79-81 | When only the third freight pattern matches, the freight total is its second amount. |
| Extractor.SeguroFallsBack | lib/pdf-extractor.ts:85-87 | The nearby insurance amount is used only when no amount before a currency follows the label. |
| Extractor.DivisaFromFirstAmount | lib/pdf-extractor.ts:91-92 | The currency is the upper-cased token after the first amount that has one. |
| Extractor.NoCurrencyWithoutToken | lib/pdf-extractor.ts:91-92 | With no amount followed by a currency token, the currency stays empty. |
| Extractor.FechaThirdPatternRedundant | lib/pdf-extractor.ts:129-132 | The date chain gives the same result without its third pattern. |

## Left out

- The HTTP route, the upload UI, the spreadsheet writer and the deployment
  settings have no decision logic. The PDF-to-text conversion is an external
  library, so the model starts from the text.
- The `async`/`Promise` wrapper of `extractFromText` is left out; it has no
  `await`.
- Floating point: amounts, rates and sums are exact `real` values. IEEE
  rounding of `parseFloat` and of the running sum is not modelled. Neither is
  `parseFloat`'s reading of "Infinity", which no captured amount can contain.
- Case-insensitive matching folds ASCII and Latin-1 letters only. That covers
  every letter in the patterns. Full Unicode case folding and UTF-16
  surrogate pairs are left out.
- Scanners.Code: its own contract states only that a match starts with a
  digit and ends inside the text; the five-group layout is stated by
  Scanners.CodeHasLayout and, in the other direction, Scanners.CodeComplete;
  the tidied form is stated by Scanners.CodeTidied.
- Scanners.SpacedDate: its own contract states only that the match reads
  `DD/MM/YYYY` once its white space is removed; where that white space may
  lie is stated by Scanners.SpacedDateHasLayout and Scanners.SpacedDateComplete.
- Patterns.DespachoLettersDigits: its own contract states only that the text
  holds a digit; the shape of the capture is stated by
  Patterns.DespachoCapturesTidy.
- Patterns.DespachoAlphanumeric: as above, the shape is stated by
  Patterns.DespachoCapturesTidy.
- Patterns.DespachoAfterYear: as above, the shape is stated by
  Patterns.DespachoCapturesTidy.
- Extractor.DespachoNumero: its own contract states that the number is tidy
  and that the text holds a digit; which pattern it comes from is stated by
  Extractor.DespachoChain and its group layout by
  Extractor.DespachoNumeroShape.
- Normalize.Collapse: its own contract states length and first character
  only; the single spacing and the kept characters are stated by
  Normalize.CollapseSound, and the one-space-per-run rule by
  Normalize.CollapseRun and Normalize.CollapseJoinsWords.
- Normalize.Tidied: its own contract states tidiness and the kept characters;
  that a tidy capture is unchanged is Normalize.TidiedKeepsTidy, and the
  result for words separated by white space is Normalize.TidiedFiveWords.
- Numbers.ParseFloat: its own contract states the sign only; the value read
  is stated by Numbers.ParseFloatDecimal and Numbers.ParseFloatInteger for
  the digit strings the patterns capture. Exponents and leading signs are
  read as `parseFloat` does but no lemma states their value.
- Extractor.Cotizacion: its own contract states the sign and the no-digit
  case; which capture is read is Extractor.CotizacionChain, and how a
  comma-decimal capture is read is Extractor.CotizacionFromDecimal.
- Extractor.Vendedor: its own contract states tidiness and the mention of
  "Vendedor"; which capture is used is Extractor.VendedorChain.
- Extractor.Importador: its own contract states length, spacing and the
  mention of "Importador"; which capture is used is
  Extractor.ImportadorChain, and how it is cut is
  Normalize.ImporterAsWritten.
- Extractor.Fecha: its own contract states the `DD/MM/YYYY` shape and the
  digit; which capture is used is Extractor.FechaChain.

## Findings

| source | as written | input that shows it | evidently intended | confidence | as-written member | corrected member |
|---|---|---|---|---|---|---|
| lib/pdf-extractor.ts:116 | `.replace(/\s+/g, ' ').trim().substring(0, 100)` cuts after trimming, so the cut can end on a space | a captured importer name of 99 non-space characters, a space and one more character gives a 100-character name ending in a space | trim again after the cut, so that the name never ends in white space | not executed | Normalize.ImporterAsWrittenNotTrimmed | Normalize.ImporterName |

The record keeps the importer as written: Extractor.ImportadorCorrected states
that the corrected name is that field with its trailing space trimmed.
