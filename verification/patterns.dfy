/** The candidate patterns of each field of the customs declaration, in the
    order the extractor tries them. Each candidate searches the whole text
    for its leftmost match and returns the text of the capture group the
    extractor reads, or `None` when the pattern does not match. */
module Patterns {
  import opened Optional
  import opened Text
  import opened Search
  import opened Numbers
  import opened Scanners
  import opened Normalize

  // ---------------------------------------------------------------------------
  // Labels

  /** `D[oó]lar` */
  const Dolar: seq<Atom> := [Ch('D'), OneOf('o', 'ó')] + Word("lar")

  /** `FOB\s+Total\s+en\s+` */
  const FobTotalEn: seq<Atom> := Word("FOB") + [Spaces] + Word("Total") + [Spaces] + Word("en") + [Spaces]

  /** `Cond\.\s*Venta\s+FOB` */
  const CondVenta: seq<Atom> := Word("Cond.") + [OptSpaces] + Word("Venta") + [Spaces] + Word("FOB")

  /** `Flete\s+Total` */
  const FleteTotal: seq<Atom> := Word("Flete") + [Spaces] + Word("Total")

  /** `Seguro\s+Total` */
  const SeguroTotal: seq<Atom> := Word("Seguro") + [Spaces] + Word("Total")

  /** `Cotiz\s*=\s*` */
  const CotizEquals: seq<Atom> := Word("Cotiz") + [OptSpaces, Ch('='), OptSpaces]

  /** `\s*\/\s*Exportador`, after `Importador` */
  const SlashExporter: seq<Atom> := [OptSpaces, Ch('/'), OptSpaces] + Word("Exportador")

  /** `\s*\/?\s*Exportador\s+`, after `Importador` */
  const OptSlashExporter: seq<Atom> := [OptSpaces, Opt('/'), OptSpaces] + Word("Exportador") + [Spaces]

  /** `A[ñn]o\s*\/\s*Ad` */
  const YearCustoms: seq<Atom> :=
    [Ch('A'), OneOf('ñ', 'n'), Ch('o'), OptSpaces, Ch('/'), OptSpaces] + Word("Ad")

  /** `Oficializaci[oó]n` */
  const Oficializacion: seq<Atom> := Word("Oficializaci") + [OneOf('o', 'ó'), Ch('n')]

  /** The currency tokens the extractor recognises, all of three letters. */
  const Currencies: seq<string> := ["DOL", "USD", "EUR", "BRL", "ARS"]

  // ---------------------------------------------------------------------------
  // Building blocks

  /** `(\d{1,3}(?:\.\d{3})*,\d{2})` at `q`. */
  function AmountCapture(t: string, q: nat): (r: Option<string>)
    ensures r.Some? ==> IsAmount(r.value) && HasDigit(t)
  {
    match Amount(t, q)
    case None => None
    case Some(e) => Some(t[q..e])
  }

  /** `[\s\S]{1,n}?(amount)` after `e`: the nearest amount that starts 1 to n
      characters after `e`. */
  function AmountWithin(t: string, e: nat, n: nat): (r: Option<string>)
    ensures r.Some? ==> IsAmount(r.value) && HasDigit(t)
  {
    FirstIn(e + 1, e + n, (q: nat) => AmountCapture(t, q))
  }

  /** `heading[\s\S]{1,n}?(amount)` at `p`. */
  function LabelledAmount(t: string, p: nat, heading: seq<Atom>, n: nat): (r: Option<string>)
    ensures r.Some? ==> IsAmount(r.value) && HasDigit(t)
  {
    match MatchAtoms(t, p, heading)
    case None => None
    case Some(e) => AmountWithin(t, e, n)
  }

  /** The first of `words` at `s`, compared case-insensitively. */
  function WordAt(t: string, s: nat, words: seq<string>): (r: Option<string>)
    ensures r.Some? ==> r.value in words && Keyword(t, s, r.value)
    ensures r.None? <==> forall w :: w in words ==> !Keyword(t, s, w)
  {
    if words == [] then None
    else if Keyword(t, s, words[0]) then Some(words[0])
    else WordAt(t, s, words[1..])
  }

  /** `\s+(?:w1|w2|...)` at `e`: where the token after the white space ends. */
  function TokenAfter(t: string, e: nat, words: seq<string>): (r: Option<nat>)
    requires forall w :: w in words ==> |w| == 3
    ensures r.Some? ==> e < r.value <= |t|
  {
    if e < |t| && IsSpace(t[e]) then
      var s := SkipSpaces(t, e);
      match WordAt(t, s, words)
      case None => None
      case Some(w) => Some(s + 3)
    else None
  }

  /** `(amount)\s+(?:w1|w2|...)` at `q`. */
  function AmountBefore(t: string, q: nat, words: seq<string>): (r: Option<string>)
    requires forall w :: w in words ==> |w| == 3
    ensures r.Some? ==> IsAmount(r.value) && HasDigit(t)
  {
    match Amount(t, q)
    case None => None
    case Some(e) => if TokenAfter(t, e, words).Some? then Some(t[q..e]) else None
  }

  /** `[\s\S]{1,n}?(amount)\s+(?:w1|w2|...)` after `e`. */
  function AmountBeforeWithin(t: string, e: nat, n: nat, words: seq<string>): (r: Option<string>)
    requires forall w :: w in words ==> |w| == 3
    ensures r.Some? ==> IsAmount(r.value) && HasDigit(t)
  {
    FirstIn(e + 1, e + n, (q: nat) => AmountBefore(t, q, words))
  }

  // ---------------------------------------------------------------------------
  // FOB total

  /** `FOB\s+Total\s+en\s+D[oó]lar[\s\S]{1,20}?(amount)` */
  function FobInDolar(t: string): (r: Option<string>)
    ensures r.Some? ==> IsAmount(r.value) && HasDigit(t)
  {
    FirstIn(0, |t|, (p: nat) => LabelledAmount(t, p, FobTotalEn + Dolar, 20))
  }

  /** `FOB\s+Total\s+en\s+Divisa[\s\S]{1,20}?(amount)` */
  function FobInDivisa(t: string): (r: Option<string>)
    ensures r.Some? ==> IsAmount(r.value) && HasDigit(t)
  {
    FirstIn(0, |t|, (p: nat) => LabelledAmount(t, p, FobTotalEn + Word("Divisa"), 20))
  }

  function FobBeforeDolAt(t: string, p: nat): (r: Option<string>)
    ensures r.Some? ==> IsAmount(r.value) && HasDigit(t)
  {
    match MatchAtoms(t, p, Word("FOB") + [Spaces])
    case None => None
    case Some(q) => AmountBefore(t, q, ["DOL"])
  }

  /** `FOB\s+(amount)\s+DOL`, as in the header line. */
  function FobBeforeDol(t: string): (r: Option<string>)
    ensures r.Some? ==> IsAmount(r.value) && HasDigit(t)
  {
    FirstIn(0, |t|, (p: nat) => FobBeforeDolAt(t, p))
  }

  /** `Cond\.\s*Venta\s+FOB[\s\S]{1,30}?(amount)` */
  function FobCondVenta(t: string): (r: Option<string>)
    ensures r.Some? ==> IsAmount(r.value) && HasDigit(t)
  {
    FirstIn(0, |t|, (p: nat) => LabelledAmount(t, p, CondVenta, 30))
  }

  const FobCandidates: seq<string -> Option<string>> :=
    [FobInDolar, FobInDivisa, FobBeforeDol, FobCondVenta]

  // ---------------------------------------------------------------------------
  // Freight total

  /** `(?:Divisa|DOL|USD)[\s\S]{1,30}?(amount)` at `q`. The three markers
      differ in their first two letters, so at most one of them matches. */
  function MarkedAmount(t: string, q: nat): (r: Option<string>)
    ensures r.Some? ==> IsAmount(r.value) && HasDigit(t)
  {
    if Keyword(t, q, "Divisa") then AmountWithin(t, q + 6, 30)
    else if Keyword(t, q, "DOL") || Keyword(t, q, "USD") then AmountWithin(t, q + 3, 30)
    else None
  }

  function FleteAfterMarkerAt(t: string, p: nat): (r: Option<string>)
    ensures r.Some? ==> IsAmount(r.value) && HasDigit(t)
  {
    match MatchAtoms(t, p, FleteTotal)
    case None => None
    case Some(e) => FirstIn(e + 1, e + 5, (q: nat) => MarkedAmount(t, q))
  }

  /** `Flete\s+Total[\s\S]{1,5}?(?:Divisa|DOL|USD)[\s\S]{1,30}?(amount)` */
  function FleteAfterMarker(t: string): (r: Option<string>)
    ensures r.Some? ==> IsAmount(r.value) && HasDigit(t)
  {
    FirstIn(0, |t|, (p: nat) => FleteAfterMarkerAt(t, p))
  }

  function FleteBeforeCurrencyAt(t: string, p: nat): (r: Option<string>)
    ensures r.Some? ==> IsAmount(r.value) && HasDigit(t)
  {
    match MatchAtoms(t, p, FleteTotal)
    case None => None
    case Some(e) => AmountBeforeWithin(t, e, 30, ["DOL", "USD"])
  }

  /** `Flete\s+Total[\s\S]{1,30}?(amount)\s+(?:DOL|USD)` */
  function FleteBeforeCurrency(t: string): (r: Option<string>)
    ensures r.Some? ==> IsAmount(r.value) && HasDigit(t)
  {
    FirstIn(0, |t|, (p: nat) => FleteBeforeCurrencyAt(t, p))
  }

  function FleteSecondDolAmountAt(t: string, p: nat): (r: Option<string>)
    ensures r.Some? ==> IsAmount(r.value) && HasDigit(t)
  {
    match Amount(t, p)
    case None => None
    case Some(e) =>
      match TokenAfter(t, e, ["DOL"])
      case None => None
      case Some(m) => AmountBeforeWithin(t, m, 10, ["DOL"])
  }

  /** `(amount)\s+DOL[\s\S]{1,10}?(amount)\s+DOL`: the freight is the second
      of two nearby dollar amounts (capture group 2). */
  function FleteSecondDolAmount(t: string): (r: Option<string>)
    ensures r.Some? ==> IsAmount(r.value) && HasDigit(t)
  {
    FirstIn(0, |t|, (p: nat) => FleteSecondDolAmountAt(t, p))
  }

  const FleteCandidates: seq<string -> Option<string>> :=
    [FleteAfterMarker, FleteBeforeCurrency, FleteSecondDolAmount]

  // ---------------------------------------------------------------------------
  // Insurance total

  function SeguroBeforeCurrencyAt(t: string, p: nat): (r: Option<string>)
    ensures r.Some? ==> IsAmount(r.value) && HasDigit(t)
  {
    match MatchAtoms(t, p, SeguroTotal)
    case None => None
    case Some(e) => AmountBeforeWithin(t, e, 30, ["DOL", "USD"])
  }

  /** `Seguro\s+Total[\s\S]{1,30}?(amount)\s+(?:DOL|USD)` */
  function SeguroBeforeCurrency(t: string): (r: Option<string>)
    ensures r.Some? ==> IsAmount(r.value) && HasDigit(t)
  {
    FirstIn(0, |t|, (p: nat) => SeguroBeforeCurrencyAt(t, p))
  }

  /** `Seguro\s+Total[\s\S]{1,20}?(amount)` */
  function SeguroNearby(t: string): (r: Option<string>)
    ensures r.Some? ==> IsAmount(r.value) && HasDigit(t)
  {
    FirstIn(0, |t|, (p: nat) => LabelledAmount(t, p, SeguroTotal, 20))
  }

  const SeguroCandidates: seq<string -> Option<string>> := [SeguroBeforeCurrency, SeguroNearby]

  // ---------------------------------------------------------------------------
  // Currency

  /** Every word is three characters in capitals, starting with a letter. */
  predicate Codes(words: seq<string>) {
    forall w :: w in words ==> |w| == 3 && Upper(w) == w && 'A' <= w[0] <= 'Z'
  }

  lemma CurrencyCodes()
    ensures Codes(Currencies)
  {
    forall w | w in Currencies ensures |w| == 3 && Upper(w) == w && 'A' <= w[0] <= 'Z' {
      CapitalsUnchanged(w);
    }
  }

  /** Folding leaves three capital letters as they are. */
  lemma CapitalsUnchanged(w: string)
    requires |w| == 3 && forall i :: 0 <= i < 3 ==> 'A' <= w[i] <= 'Z'
    ensures Upper(w) == w
  {
    assert Upper(w)[0] == w[0] && Upper(w)[1] == w[1] && Upper(w)[2] == w[2];
  }

  /** White space from `e` to `s`, then the token `c`, one of `words` in any
      case, ending on a word boundary. */
  ghost predicate TokenAfterSpaces(t: string, e: nat, s: nat, c: string, words: seq<string>) {
    && e < s && s + 3 <= |t| && AllSpaces(t[e..s])
    && c == t[s..s + 3] && Upper(c) in words && Boundary(t, s + 3)
  }

  /** At `p` starts an amount followed by white space and a currency token. */
  ghost predicate AmountThenCurrency(t: string, p: nat, c: string) {
    exists e: nat, s: nat :: p < e <= |t| && IsAmount(t[p..e]) && TokenAfterSpaces(t, e, s, c, Currencies)
  }

  /** `\s+(w1|w2|...)\b` at `e`: the token as written. */
  function CodeToken(t: string, e: nat, words: seq<string>): Option<string>
    requires Codes(words)
  {
    if e < |t| && IsSpace(t[e]) then
      var s := SkipSpaces(t, e);
      match WordAt(t, s, words)
      case None => None
      case Some(w) =>
        TokenIsCode(t, s, w, words);
        if Boundary(t, s + 3) then Some(t[s..s + 3]) else None
    else None
  }

  /** What the scan takes is a token of `words` after the white space that
      starts at `e`. */
  lemma CodeTokenSound(t: string, e: nat, words: seq<string>)
    requires Codes(words)
    ensures CodeToken(t, e, words).Some? ==>
      e < |t| && TokenAfterSpaces(t, e, SkipSpaces(t, e), CodeToken(t, e, words).value, words)
  {
    if CodeToken(t, e, words).Some? {
      var s := SkipSpaces(t, e);
      TokenIsCode(t, s, WordAt(t, s, words).value, words);
      SpacesBetween(t, e, s);
    }
  }

  lemma SpacesBetween(t: string, e: nat, s: nat)
    requires e <= s <= |t|
    requires forall i :: e <= i < s ==> IsSpace(t[i])
    ensures AllSpaces(t[e..s])
  {
    forall i | 0 <= i < s - e ensures IsSpace(t[e..s][i]) {
      assert t[e..s][i] == t[e + i];
    }
  }

  lemma TokenIsCode(t: string, s: nat, w: string, words: seq<string>)
    requires Codes(words) && w in words && Keyword(t, s, w)
    ensures s + 3 <= |t| && Upper(t[s..s + 3]) == w
  {
  }

  /** A character that upper-cases to an ASCII capital is an ASCII letter,
      so never white space. */
  lemma FoldsToCapital(c: char)
    requires 'A' <= Fold(c) <= 'Z'
    ensures IsAsciiLetter(c) && !IsSpace(c)
  {
  }

  /** Conversely, every token after white space is found. */
  lemma CodeTokenComplete(t: string, e: nat, s: nat, c: string, words: seq<string>)
    requires Codes(words) && TokenAfterSpaces(t, e, s, c, words)
    ensures CodeToken(t, e, words) == Some(c)
  {
    assert t[e..s][0] == t[e];
    SpacesRunTo(t, e, s, c, words);
    TokenIsWord(t, s, c, words);
    CodeTokenFromParts(t, e, s, words);
  }

  /** The scan takes the token at `s` when the white space from `e` runs to
      `s` and a word of `words` ending on a boundary starts there. */
  lemma CodeTokenFromParts(t: string, e: nat, s: nat, words: seq<string>)
    requires Codes(words) && e < |t| && IsSpace(t[e]) && SkipSpaces(t, e) == s
    requires WordAt(t, s, words).Some? && Boundary(t, s + 3)
    ensures CodeToken(t, e, words) == Some(t[s..s + 3])
  {
  }

  /** The white space before a token ends where the token starts. */
  lemma SpacesRunTo(t: string, e: nat, s: nat, c: string, words: seq<string>)
    requires Codes(words) && TokenAfterSpaces(t, e, s, c, words)
    ensures SkipSpaces(t, e) == s
  {
    assert Upper(c)[0] == Fold(t[s]);
    FoldsToCapital(t[s]);
  }

  lemma TokenIsWord(t: string, s: nat, c: string, words: seq<string>)
    requires Codes(words) && s + 3 <= |t| && c == t[s..s + 3] && Upper(c) in words
    ensures WordAt(t, s, words).Some?
  {
    assert Slice(t, s, 3) == c;
    assert Keyword(t, s, Upper(c));
  }

  /** `amount\s+(DOL|USD|EUR|BRL|ARS)\b` at `p`. */
  function CurrencyAt(t: string, p: nat): (r: Option<string>)
    ensures r.Some? ==> HasDigit(t) && Upper(r.value) in Currencies
    ensures r.Some? ==> AmountThenCurrency(t, p, r.value)
  {
    CurrencyCodes();
    match Amount(t, p)
    case None => None
    case Some(e) =>
      CodeTokenSound(t, e, Currencies);
      CodeToken(t, e, Currencies)
  }

  /** Every amount followed by a currency token is found where it starts. */
  lemma CurrencyAtComplete(t: string, p: nat, c: string)
    requires AmountThenCurrency(t, p, c)
    ensures CurrencyAt(t, p) == Some(c)
  {
    var e: nat, s: nat :| p < e <= |t| && IsAmount(t[p..e]) && TokenAfterSpaces(t, e, s, c, Currencies);
    AmountExact(t, p, e);
    CurrencyCodes();
    CodeTokenComplete(t, e, s, c, Currencies);
  }

  /** The currency token of the first amount followed by one. */
  function Currency(t: string): (r: Option<string>)
    ensures r.Some? ==> HasDigit(t) && Upper(r.value) in Currencies
    ensures r.Some? ==> exists p: nat ::
      (p <= |t| && AmountThenCurrency(t, p, r.value) && forall q: nat :: q < p ==> CurrencyAt(t, q).None?)
    ensures r.None? <==> forall p: nat :: p <= |t| ==> CurrencyAt(t, p).None?
  {
    CurrencyFacts(t);
    FirstIn(0, |t|, CurrencyFrom(t))
  }

  function CurrencyFrom(t: string): nat -> Option<string> {
    (p: nat) => CurrencyAt(t, p)
  }

  lemma CurrencyFacts(t: string)
    ensures var r := FirstIn(0, |t|, CurrencyFrom(t));
      && (r.Some? ==> HasDigit(t) && Upper(r.value) in Currencies)
      && (r.Some? ==> exists p: nat ::
            (p <= |t| && AmountThenCurrency(t, p, r.value) && forall q: nat :: q < p ==> CurrencyAt(t, q).None?))
      && (r.None? <==> forall p: nat :: p <= |t| ==> CurrencyAt(t, p).None?)
  {
    var g := CurrencyFrom(t);
    assert forall p: nat :: g(p) == CurrencyAt(t, p);
    var r := FirstIn(0, |t|, g);
    if r.Some? {
      var p: nat :| p <= |t| && g(p) == r && forall q: nat :: q < p ==> g(q).None?;
      assert AmountThenCurrency(t, p, r.value);
    }
  }

  // ---------------------------------------------------------------------------
  // Exchange rate

  /** A number as the exchange-rate patterns capture it. */
  predicate RateText(s: string) {
    |s| > 0 && IsDigit(s[0]) && NumberChars(s)
  }

  function CotizDecimalAt(t: string, p: nat): (r: Option<string>)
    ensures r.Some? ==> RateText(r.value) && HasDigit(t)
  {
    match MatchAtoms(t, p, CotizEquals)
    case None => None
    case Some(q) =>
      match DecimalNumber(t, q)
      case None => None
      case Some(e) => assert t[q..e][0] == t[q] && IsDigit(t[q]); Some(t[q..e])
  }

  /** `Cotiz\s*=\s*(\d{1,3}(?:\.\d{3})*,\d+)` */
  function CotizDecimal(t: string): (r: Option<string>)
    ensures r.Some? ==> RateText(r.value) && HasDigit(t)
  {
    FirstIn(0, |t|, (p: nat) => CotizDecimalAt(t, p))
  }

  /** `s` is digits and `.`, a `,` at `k`, then at least one digit: the shape
      `\d{1,3}(?:\.\d{3})*,\d+` leaves. */
  predicate CommaAt(s: string, k: nat) {
    0 < k < |s| - 1 && s[k] == ',' && IsDigit(s[0])
    && DigitsAndDots(s[..k]) && AllDigits(s[k + 1..])
  }

  /** Such a number reads as its digits with the dots dropped and the
      comma as the decimal point. */
  lemma ParseNumberAtComma(s: string, k: nat)
    requires CommaAt(s, k)
    ensures ParseNumber(s) == Fraction(DigitsValue(Digits(s[..k]) + s[k + 1..]), |s| - k - 1)
  {
    var a, b := s[..k], s[k + 1..];
    calc {
      ParseNumber(s);
      { SplitAtComma(s, k); }
      ParseNumber(a + [','] + b);
      { ParseNumberDecimal(a, b); }
      Fraction(DigitsValue(Digits(a) + Digits(b)), |Digits(b)|);
      { DigitsOfAllDigits(b); }
      Fraction(DigitsValue(Digits(a) + b), |b|);
    }
  }

  lemma SplitAtComma(s: string, k: nat)
    requires k < |s| && s[k] == ','
    ensures s == s[..k] + [','] + s[k + 1..]
  {
  }

  /** The first exchange-rate capture has its decimal comma where the
      thousands groups stop. */
  lemma CotizDecimalShape(t: string, s: string)
    requires CotizDecimal(t) == Some(s)
    ensures exists k: nat :: CommaAt(s, k)
  {
    var g := (p: nat) => CotizDecimalAt(t, p);
    var p: nat :| 0 <= p <= |t| && g(p) == Some(s);
    CotizDecimalAtShape(t, p, s);
  }

  lemma CotizDecimalAtShape(t: string, p: nat, s: string)
    requires CotizDecimalAt(t, p) == Some(s)
    ensures exists k: nat :: CommaAt(s, k)
  {
    var q := MatchAtoms(t, p, CotizEquals).value;
    var e := DecimalNumber(t, q).value;
    assert s == t[q..e];
    DecimalNumberShape(t, q);
    DecimalCapture(t, q, Groups(t, DigitRun(t, q)), e);
  }

  lemma DecimalCapture(t: string, q: nat, c: nat, e: nat)
    requires q < c && c + 1 < e <= |t| && t[c] == ',' && IsDigit(t[q])
    requires DigitsAndDots(t[q..c]) && AllDigits(t[c + 1..e])
    ensures CommaAt(t[q..e], c - q)
  {
    var s := t[q..e];
    assert s[..c - q] == t[q..c] && s[c - q + 1..] == t[c + 1..e];
    assert s[0] == t[q] && s[c - q] == t[c];
  }

  /** `s` is the text from `q`. */
  predicate CapturedAt(t: string, q: nat, s: string) {
    q + |s| <= |t| && t[q..q + |s|] == s
  }

  /** No digit at `e`: a greedy `\d+` ending at `e` took the whole run. */
  predicate DigitsEndAt(t: string, e: nat) {
    e <= |t| && (e == |t| || !IsDigit(t[e]))
  }

  /** No digit, `.` or `,` at `e`: a greedy `[\d.,]+` ending at `e` took the
      whole run. */
  predicate NumberCharsEndAt(t: string, e: nat) {
    e <= |t| && (e == |t| || !(IsDigit(t[e]) || t[e] == '.' || t[e] == ','))
  }

  /** The first exchange-rate capture is a decimal of its grammar taken
      whole from the text: no digit follows it there. */
  lemma CotizDecimalWhole(t: string, s: string)
    requires CotizDecimal(t) == Some(s)
    ensures IsDecimal(s)
    ensures exists q: nat :: CapturedAt(t, q, s) && DigitsEndAt(t, q + |s|)
  {
    var g := (p: nat) => CotizDecimalAt(t, p);
    var p: nat :| 0 <= p <= |t| && g(p) == Some(s);
    CotizDecimalAtWhole(t, p, s);
  }

  lemma CotizDecimalAtWhole(t: string, p: nat, s: string)
    requires CotizDecimalAt(t, p) == Some(s)
    ensures IsDecimal(s)
    ensures exists q: nat :: CapturedAt(t, q, s) && DigitsEndAt(t, q + |s|)
  {
    var q := MatchAtoms(t, p, CotizEquals).value;
    var e := DecimalNumber(t, q).value;
    DecimalCaptureWhole(t, q, e, s);
  }

  /** What `DecimalNumber` takes at `q`, captured, is a whole decimal. */
  lemma DecimalCaptureWhole(t: string, q: nat, e: nat, s: string)
    requires DecimalNumber(t, q) == Some(e) && s == t[q..e]
    ensures IsDecimal(s) && CapturedAt(t, q, s) && DigitsEndAt(t, q + |s|)
  {
    DecimalNumberSound(t, q);
  }

  function CotizLooseAt(t: string, p: nat): (r: Option<string>)
    ensures r.Some? ==> RateText(r.value) && HasDigit(t)
  {
    match MatchAtoms(t, p, CotizEquals)
    case None => None
    case Some(q) =>
      match NumberRun(t, q)
      case None => None
      case Some(e) => assert t[q..e][0] == t[q] && IsDigit(t[q]); Some(t[q..e])
  }

  /** `Cotiz\s*=\s*(\d[\d.,]+)` */
  function CotizLoose(t: string): (r: Option<string>)
    ensures r.Some? ==> RateText(r.value) && HasDigit(t)
  {
    FirstIn(0, |t|, (p: nat) => CotizLooseAt(t, p))
  }

  /** The second exchange-rate capture is taken whole from the text: no
      digit, `.` or `,` follows it there. */
  lemma CotizLooseWhole(t: string, s: string)
    requires CotizLoose(t) == Some(s)
    ensures exists q: nat :: CapturedAt(t, q, s) && NumberCharsEndAt(t, q + |s|)
  {
    var g := (p: nat) => CotizLooseAt(t, p);
    var p: nat :| 0 <= p <= |t| && g(p) == Some(s);
    CotizLooseAtWhole(t, p, s);
  }

  lemma CotizLooseAtWhole(t: string, p: nat, s: string)
    requires CotizLooseAt(t, p) == Some(s)
    ensures exists q: nat :: CapturedAt(t, q, s) && NumberCharsEndAt(t, q + |s|)
  {
    var q := MatchAtoms(t, p, CotizEquals).value;
    var e := NumberRun(t, q).value;
    assert s == t[q..e];
    assert CapturedAt(t, q, s) && q + |s| == e;
  }

  const CotizCandidates: seq<string -> Option<string>> := [CotizDecimal, CotizLoose]

  // ---------------------------------------------------------------------------
  // Seller and importer names

  /** No line break. */
  predicate OneLine(s: string) {
    forall i :: 0 <= i < |s| ==> s[i] != '\n'
  }

  lemma WithinLine(t: string, lo: nat, hi: nat)
    requires lo <= |t| && lo <= hi <= Span(t, lo, NotNewline)
    ensures OneLine(t[lo..hi])
  {
    forall i | 0 <= i < hi - lo ensures t[lo..hi][i] != '\n' {
      assert t[lo..hi][i] == t[lo + i];
      assert InClass(t[lo + i], NotNewline);
    }
  }

  /** `\n([^\n]{lo,hi})` at `j`: the next line, cut at `hi` characters. */
  function LineAfter(t: string, j: nat, lo: nat, hi: nat): (r: Option<string>)
    ensures r.Some? ==> lo <= |r.value| <= hi && OneLine(r.value)
  {
    if j < |t| && t[j] == '\n' then
      var q := Span(t, j + 1, NotNewline);
      var e := if q - (j + 1) <= hi then q else j + 1 + hi;
      if e - (j + 1) >= lo then
        WithinLine(t, j + 1, e);
        Some(t[j + 1..e])
      else None
    else None
  }

  /** `w rest\s*\n([^\n]{lo,hi})` at `p`. The greedy `\s*` gives back white
      space until a line break follows it, so the line breaks in the white
      space after the label are tried from the last one back. */
  function NextLineAfter(t: string, p: nat, w: string, rest: seq<Atom>, lo: nat, hi: nat): (r: Option<string>)
    ensures r.Some? ==> lo <= |r.value| <= hi && OneLine(r.value) && Keyword(t, p, w)
  {
    match AfterWord(t, p, w, rest)
    case None => None
    case Some(e) => LastIn(e, SkipSpaces(t, e), (j: nat) => LineAfter(t, j, lo, hi))
  }

  /** `Vendedor\s*\n([^\n]{3,80})` */
  function VendedorNextLine(t: string): (r: Option<string>)
    ensures r.Some? ==> 3 <= |r.value| <= 80 && OneLine(r.value) && Mentions(t, "Vendedor")
  {
    FirstIn(0, |t|, (p: nat) => NextLineAfter(t, p, "Vendedor", [], 3, 80))
  }

  /** `(?:\s+V[ií]a|\s+Vía|\s+CUIT|\n)` at `k`. */
  predicate SellerEnd(t: string, k: nat) {
    || MatchAtoms(t, k, [Spaces, Ch('V'), OneOf('i', 'í'), Ch('a')]).Some?
    || MatchAtoms(t, k, [Spaces] + Word("CUIT")).Some?
    || (k < |t| && t[k] == '\n')
  }

  /** The seller name from `c` to `k`, when it may end at `k`. */
  function SellerUpTo(t: string, c: nat, k: nat): (r: Option<string>)
    ensures r.Some? ==> c < k <= |t| && |r.value| == k - c && r.value[0] == t[c]
  {
    if c < k && c + 1 <= |t| && k <= Span(t, c + 1, SellerChar) && SellerEnd(t, k)
    then Some(t[c..k]) else None
  }

  function SellerAt(t: string, p: nat): (r: Option<string>)
    ensures r.Some? ==> |r.value| >= 4 && IsAsciiLetter(r.value[0]) && Keyword(t, p, "Vendedor")
  {
    match AfterWord(t, p, "Vendedor", [Spaces])
    case None => None
    case Some(c) =>
      if c < |t| && IsAsciiLetter(t[c]) then SellerFrom(t, c) else None
  }

  /** The shortest seller name starting at the letter at `c` that reaches a
      marker. */
  function SellerFrom(t: string, c: nat): (r: Option<string>)
    requires c < |t| && IsAsciiLetter(t[c])
    ensures r.Some? ==> |r.value| >= 4 && IsAsciiLetter(r.value[0])
  {
    FirstIn(c + 4, c + 81, (k: nat) => SellerUpTo(t, c, k))
  }

  /** `Vendedor\s+([A-Z][A-Z0-9\s.,\-&()\/]{3,80}?)(?:\s+V[ií]a|\s+Vía|\s+CUIT|\n)`:
      the shortest run of name characters after a letter that reaches a
      marker. */
  function VendedorBeforeMarker(t: string): (r: Option<string>)
    ensures r.Some? ==> |r.value| >= 4 && IsAsciiLetter(r.value[0]) && Mentions(t, "Vendedor")
  {
    FirstIn(0, |t|, (p: nat) => SellerAt(t, p))
  }

  const VendedorCandidates: seq<string -> Option<string>> := [VendedorNextLine, VendedorBeforeMarker]

  /** `Importador\s*\/\s*Exportador\s*\n([^\n]{3,100})` */
  function ImportadorNextLine(t: string): (r: Option<string>)
    ensures r.Some? ==> 3 <= |r.value| <= 100 && OneLine(r.value) && Mentions(t, "Importador")
  {
    FirstIn(0, |t|, (p: nat) => NextLineAfter(t, p, "Importador", SlashExporter, 3, 100))
  }

  /** `\n\s*CUIT` at `j`. */
  function BreakThenTaxId(t: string, j: nat): Option<nat> {
    if j < |t| && t[j] == '\n' && MatchAtoms(t, j + 1, [OptSpaces] + Word("CUIT")).Some?
    then Some(j) else None
  }

  /** `(?=\s*CUIT\s*N[º°]|\s*Agente|\s*\n\s*CUIT)` at `k`. In the last
      alternative the greedy `\s*` gives back white space until a line break
      follows it. */
  predicate TaxIdAhead(t: string, k: nat)
    requires k <= |t|
  {
    || MatchAtoms(t, k, [OptSpaces] + Word("CUIT") + [OptSpaces, Ch('N'), OneOf('º', '°')]).Some?
    || MatchAtoms(t, k, [OptSpaces] + Word("Agente")).Some?
    || LastIn(k, SkipSpaces(t, k), (j: nat) => BreakThenTaxId(t, j)).Some?
  }

  /** The importer name from `c` to `k`, when the tax id follows it. */
  function ImporterUpTo(t: string, c: nat, k: nat): (r: Option<string>)
    ensures r.Some? ==> c < k <= |t| && |r.value| == k - c && r.value[0] == t[c]
  {
    if c < k <= |t| && TaxIdAhead(t, k) then Some(t[c..k]) else None
  }

  function ImporterBeforeTaxIdAt(t: string, p: nat): (r: Option<string>)
    ensures r.Some? ==> |r.value| >= 2 && IsAsciiLetter(r.value[0]) && Keyword(t, p, "Importador")
  {
    match AfterWord(t, p, "Importador", OptSlashExporter)
    case None => None
    case Some(c) =>
      if c < |t| && IsAsciiLetter(t[c]) then ImporterFrom(t, c) else None
  }

  /** The shortest importer name starting at the letter at `c` that reaches
      the tax id or the customs agent. */
  function ImporterFrom(t: string, c: nat): (r: Option<string>)
    requires c < |t| && IsAsciiLetter(t[c])
    ensures r.Some? ==> |r.value| >= 2 && IsAsciiLetter(r.value[0])
  {
    FirstIn(c + 2, Span(t, c + 1, ImporterChar), (k: nat) => ImporterUpTo(t, c, k))
  }

  /** `Importador\s*\/?\s*Exportador\s+([A-Z][A-Z0-9\s.,\-&()\/:]+?)(?=...)`:
      the shortest run of name characters after a letter that reaches the
      tax id or the customs agent. */
  function ImportadorBeforeTaxId(t: string): (r: Option<string>)
    ensures r.Some? ==> |r.value| >= 2 && IsAsciiLetter(r.value[0]) && Mentions(t, "Importador")
  {
    FirstIn(0, |t|, (p: nat) => ImporterBeforeTaxIdAt(t, p))
  }

  /** The exporter-side name from `c` to `k`, when `\s*CUIT` or a line
      break follows it. */
  function ExporterUpTo(t: string, c: nat, k: nat): (r: Option<string>)
    ensures r.Some? ==> |r.value| == k - c && OneLine(r.value)
  {
    if c < k && c + 1 <= |t| && t[c] != '\n' && k <= Span(t, c + 1, NotNewline)
       && (MatchAtoms(t, k, [OptSpaces] + Word("CUIT")).Some? || (k < |t| && t[k] == '\n'))
    then
      WithinLine(t, c + 1, k);
      assert t[c..k] == [t[c]] + t[c + 1..k];
      Some(t[c..k])
    else None
  }

  /** `Exportador\s+([A-Z][^\n]{3,100}?)(?=\s*CUIT|\n)` at `x`. */
  function ExporterNameAt(t: string, x: nat): (r: Option<string>)
    ensures r.Some? ==> 4 <= |r.value| <= 101 && OneLine(r.value)
  {
    match MatchAtoms(t, x, Word("Exportador") + [Spaces])
    case None => None
    case Some(c) =>
      if c < |t| && IsAsciiLetter(t[c]) then ExporterFrom(t, c) else None
  }

  /** The shortest exporter name starting at the letter at `c` that reaches
      the tax id or the end of the line. */
  function ExporterFrom(t: string, c: nat): (r: Option<string>)
    requires c < |t| && IsAsciiLetter(t[c])
    ensures r.Some? ==> 4 <= |r.value| <= 101 && OneLine(r.value)
  {
    FirstIn(c + 4, c + 101, (k: nat) => ExporterUpTo(t, c, k))
  }

  /** `Importador[^/\n]+\/...` at `p`: the label split by other words on
      one line. The first `[^/\n]+` must reach a slash, so it never gives
      characters back. */
  function SplitLabelAt(t: string, p: nat): (r: Option<string>)
    ensures r.Some? ==> 4 <= |r.value| <= 101 && OneLine(r.value) && Keyword(t, p, "Importador")
  {
    match AfterWord(t, p, "Importador", [])
    case None => None
    case Some(e) =>
      var s1 := Span(t, e, NotSlashOrNewline);
      if s1 > e && s1 < |t| && t[s1] == '/' then ExporterAfterSlash(t, s1) else None
  }

  /** `[^/\n]+Exportador\s+(...)` after the slash at `s1`. The greedy
      `[^/\n]+` makes the places where `Exportador` may start be tried from
      the last one back. */
  function ExporterAfterSlash(t: string, s1: nat): (r: Option<string>)
    requires s1 < |t|
    ensures r.Some? ==> 4 <= |r.value| <= 101 && OneLine(r.value)
  {
    LastIn(s1 + 2, Span(t, s1 + 1, NotSlashOrNewline), (x: nat) => ExporterNameAt(t, x))
  }

  /** `Importador[^/\n]+\/[^/\n]+Exportador\s+([A-Z][^\n]{3,100}?)(?=\s*CUIT|\n)` */
  function ImportadorSplitLabel(t: string): (r: Option<string>)
    ensures r.Some? ==> 4 <= |r.value| <= 101 && OneLine(r.value) && Mentions(t, "Importador")
  {
    FirstIn(0, |t|, (p: nat) => SplitLabelAt(t, p))
  }

  const ImportadorCandidates: seq<string -> Option<string>> :=
    [ImportadorNextLine, ImportadorBeforeTaxId, ImportadorSplitLabel]

  // ---------------------------------------------------------------------------
  // Customs code

  /** `\b(code)\b` at `p`. */
  function BoundedCode(t: string, p: nat, kind: CodeKind): (r: Option<string>)
    ensures r.Some? ==> HasDigit(t)
  {
    match Code(t, p, kind)
    case None => None
    case Some(e) => if Boundary(t, p) && Boundary(t, e) then Some(t[p..e]) else None
  }

  /** `\b(\d{2}\s+\d{3}\s+[A-Z]{2}\d{2}\s+\d{6}\s+[A-Z])\b` */
  function DespachoLettersDigits(t: string): (r: Option<string>)
    ensures r.Some? ==> HasDigit(t)
  {
    FirstIn(0, |t|, (p: nat) => BoundedCode(t, p, LettersDigits))
  }

  /** `\b(\d{2}\s+\d{3}\s+[A-Z0-9]{4}\s+\d{6}\s+[A-Z])\b` */
  function DespachoAlphanumeric(t: string): (r: Option<string>)
    ensures r.Some? ==> HasDigit(t)
  {
    FirstIn(0, |t|, (p: nat) => BoundedCode(t, p, Alphanumeric))
  }

  /** `(\d{2}\s+\d{3}\s+[A-Z0-9]{4}\s+\d{5,7}\s+[A-Z])` at `q`. */
  function LooseCodeAt(t: string, q: nat): (r: Option<string>)
    ensures r.Some? ==> HasDigit(t)
  {
    match Code(t, q, LooseSerial)
    case None => None
    case Some(e) => Some(t[q..e])
  }

  /** `A[ñn]o\s*\/\s*Ad\.?[\s\S]{1,60}?(code)` at `p`. The greedy `\.?` takes
      a period when there is one, and gives it back only when no code
      follows within the window. */
  function CodeAfterYearAt(t: string, p: nat): (r: Option<string>)
    ensures r.Some? ==> HasDigit(t)
  {
    match MatchAtoms(t, p, YearCustoms)
    case None => None
    case Some(e) => CodeAfterLabel(t, e)
  }

  /** `\.?[\s\S]{1,60}?(code)` at `e`, just after the label. */
  function CodeAfterLabel(t: string, e: nat): (r: Option<string>)
    ensures r.Some? ==> HasDigit(t)
  {
    var withPeriod := if e < |t| && t[e] == '.' then LooseCodeIn(t, e + 2, e + 61) else None;
    if withPeriod.Some? then withPeriod
    else LooseCodeIn(t, e + 1, e + 60)
  }

  /** The leftmost loose code starting between `lo` and `hi`. */
  function LooseCodeIn(t: string, lo: nat, hi: nat): (r: Option<string>)
    ensures r.Some? ==> HasDigit(t)
  {
    FirstIn(lo, hi, (q: nat) => LooseCodeAt(t, q))
  }

  function DespachoAfterYear(t: string): (r: Option<string>)
    ensures r.Some? ==> HasDigit(t)
  {
    FirstIn(0, |t|, (p: nat) => CodeAfterYearAt(t, p))
  }

  const DespachoCandidates: seq<string -> Option<string>> :=
    [DespachoLettersDigits, DespachoAlphanumeric, DespachoAfterYear]

  /** Each customs-code pattern captures a match of its code grammar, so the
      capture tidies to `DD DDD XXXX N… L`. */
  lemma DespachoCapturesTidy(t: string)
    ensures DespachoLettersDigits(t).Some? ==> TidyCode(Tidied(DespachoLettersDigits(t).value), LettersDigits)
    ensures DespachoAlphanumeric(t).Some? ==> TidyCode(Tidied(DespachoAlphanumeric(t).value), Alphanumeric)
    ensures DespachoAfterYear(t).Some? ==> TidyCode(Tidied(DespachoAfterYear(t).value), LooseSerial)
  {
    BoundedCapturesTidy(t, LettersDigits);
    BoundedCapturesTidy(t, Alphanumeric);
    AfterYearCaptureTidy(t);
  }

  lemma BoundedCapturesTidy(t: string, kind: CodeKind)
    ensures var r := FirstIn(0, |t|, (p: nat) => BoundedCode(t, p, kind));
      r.Some? ==> TidyCode(Tidied(r.value), kind)
  {
    var r := FirstIn(0, |t|, (p: nat) => BoundedCode(t, p, kind));
    if r.Some? {
      var p: nat :| BoundedCode(t, p, kind) == r;
      BoundedCodeTidy(t, p, kind);
    }
  }

  lemma BoundedCodeTidy(t: string, p: nat, kind: CodeKind)
    requires BoundedCode(t, p, kind).Some?
    ensures TidyCode(Tidied(BoundedCode(t, p, kind).value), kind)
  {
    CodeTidied(t, p, kind);
  }

  lemma AfterYearCaptureTidy(t: string)
    ensures DespachoAfterYear(t).Some? ==> TidyCode(Tidied(DespachoAfterYear(t).value), LooseSerial)
  {
    if DespachoAfterYear(t).Some? {
      var p: nat :| CodeAfterYearAt(t, p) == DespachoAfterYear(t);
      CodeAfterYearTidy(t, p);
    }
  }

  lemma CodeAfterYearTidy(t: string, p: nat)
    requires CodeAfterYearAt(t, p).Some?
    ensures TidyCode(Tidied(CodeAfterYearAt(t, p).value), LooseSerial)
  {
    CodeAfterLabelTidy(t, MatchAtoms(t, p, YearCustoms).value);
  }

  lemma CodeAfterLabelTidy(t: string, e: nat)
    requires CodeAfterLabel(t, e).Some?
    ensures TidyCode(Tidied(CodeAfterLabel(t, e).value), LooseSerial)
  {
    CodeAfterLabelWindows(t, e);
    LooseCapturesTidy(t, e + 2, e + 61);
    LooseCapturesTidy(t, e + 1, e + 60);
  }

  /** The capture after the label comes from one of the two windows. */
  lemma CodeAfterLabelWindows(t: string, e: nat)
    ensures CodeAfterLabel(t, e) == LooseCodeIn(t, e + 2, e + 61) || CodeAfterLabel(t, e) == LooseCodeIn(t, e + 1, e + 60)
  {
  }

  lemma LooseCapturesTidy(t: string, lo: nat, hi: nat)
    ensures LooseCodeIn(t, lo, hi).Some? ==> TidyCode(Tidied(LooseCodeIn(t, lo, hi).value), LooseSerial)
  {
    var r := LooseCodeIn(t, lo, hi);
    if r.Some? {
      var q: nat :| LooseCodeAt(t, q) == r;
      CodeTidied(t, q, LooseSerial);
    }
  }

  // ---------------------------------------------------------------------------
  // Issue date

  /** `\d{2}\s*\/\s*\d{2}\s*\/\s*\d{4}` at `q`, captured. */
  function SpacedDateCapture(t: string, q: nat): (r: Option<string>)
    ensures r.Some? ==> IsDate(RemoveSpaces(r.value)) && HasDigit(t)
  {
    match SpacedDate(t, q)
    case None => None
    case Some(e) => Some(t[q..e])
  }

  /** `\d{2}\/\d{2}\/\d{4}` at `q`, captured. */
  function StrictDateCapture(t: string, q: nat): (r: Option<string>)
    ensures r.Some? ==> IsDate(r.value) && HasDigit(t)
  {
    match StrictDate(t, q)
    case None => None
    case Some(e) =>
      assert IsDigit(t[q]) by { assert t[q..q + 10][0] == t[q]; }
      Some(t[q..e])
  }

  function FechaAfterLabelAt(t: string, p: nat): (r: Option<string>)
    ensures r.Some? ==> IsDate(r.value) && HasDigit(t)
  {
    match MatchAtoms(t, p, Oficializacion + [Spaces])
    case None => None
    case Some(q) => StrictDateCapture(t, q)
  }

  /** `Oficializaci[oó]n\s+(\d{2}\/\d{2}\/\d{4})` */
  function FechaAfterLabel(t: string): (r: Option<string>)
    ensures r.Some? ==> IsDate(r.value) && HasDigit(t)
  {
    FirstIn(0, |t|, (p: nat) => FechaAfterLabelAt(t, p))
  }

  /** `[\s\S]{1,15}?(\d{2}\s*\/\s*\d{2}\s*\/\s*\d{4})` after `e`. */
  function SpacedDateWithin(t: string, e: nat): (r: Option<string>)
    ensures r.Some? ==> IsDate(RemoveSpaces(r.value)) && HasDigit(t)
  {
    FirstIn(e + 1, e + 15, SpacedDateFrom(t))
  }

  function SpacedDateFrom(t: string): nat -> Option<string> {
    (q: nat) => SpacedDateCapture(t, q)
  }

  function FechaWithinAt(t: string, p: nat): (r: Option<string>)
    ensures r.Some? ==> IsDate(RemoveSpaces(r.value)) && HasDigit(t)
  {
    match MatchAtoms(t, p, Oficializacion)
    case None => None
    case Some(e) => SpacedDateWithin(t, e)
  }

  /** `Oficializaci[oó]n[\s\S]{1,15}?(\d{2}\s*\/\s*\d{2}\s*\/\s*\d{4})` */
  function FechaWithin(t: string): (r: Option<string>)
    ensures r.Some? ==> IsDate(RemoveSpaces(r.value)) && HasDigit(t)
  {
    FirstIn(0, |t|, FechaWithinFrom(t))
  }

  function FechaWithinFrom(t: string): nat -> Option<string> {
    (p: nat) => FechaWithinAt(t, p)
  }

  /** `\n(\d{2}\/\d{2}\/\d{4})` at `j`. */
  function BreakThenDate(t: string, j: nat): (r: Option<string>)
    ensures r.Some? ==> IsDate(r.value) && HasDigit(t)
  {
    if j < |t| && t[j] == '\n' then StrictDateCapture(t, j + 1) else None
  }

  /** `[\s\S]{1,5}?\n(\d{2}\/\d{2}\/\d{4})` after `e`. */
  function DateOnNextLine(t: string, e: nat): (r: Option<string>)
    ensures r.Some? ==> IsDate(r.value) && HasDigit(t)
    ensures r.Some? ==> exists j: nat :: e + 1 <= j <= e + 5 && BreakThenDate(t, j) == r
  {
    FirstIn(e + 1, e + 5, (j: nat) => BreakThenDate(t, j))
  }

  function FechaNextLineAt(t: string, p: nat): (r: Option<string>)
    ensures r.Some? ==> IsDate(r.value) && HasDigit(t)
  {
    match MatchAtoms(t, p, Oficializacion)
    case None => None
    case Some(e) => DateOnNextLine(t, e)
  }

  /** `Oficializaci[oó]n[\s\S]{1,5}?\n(\d{2}\/\d{2}\/\d{4})` */
  function FechaNextLine(t: string): (r: Option<string>)
    ensures r.Some? ==> IsDate(r.value) && HasDigit(t)
    ensures r.Some? ==> exists p: nat :: p <= |t| && FechaNextLineAt(t, p) == r
  {
    FirstIn(0, |t|, (p: nat) => FechaNextLineAt(t, p))
  }

  const FechaCandidates: seq<string -> Option<string>> := [FechaAfterLabel, FechaWithin, FechaNextLine]

  /** Where the next-line date pattern matches, the windowed pattern matches
      too: the line break and the date lie inside its 15-character window,
      and a date without white space is a spaced date. */
  lemma NextLineImpliesWithinWindow(t: string, e: nat)
    requires DateOnNextLine(t, e).Some?
    ensures SpacedDateWithin(t, e).Some?
  {
    var j: nat :| e + 1 <= j <= e + 5 && BreakThenDate(t, j) == DateOnNextLine(t, e);
    BreakInWindow(t, e, j);
  }

  lemma BreakInWindow(t: string, e: nat, j: nat)
    requires e + 1 <= j <= e + 5 && BreakThenDate(t, j).Some?
    ensures SpacedDateWithin(t, e).Some?
  {
    BreakThenSpacedDate(t, j);
    FirstInFinds(e + 1, e + 15, SpacedDateFrom(t), j + 1);
  }

  lemma BreakThenSpacedDate(t: string, j: nat)
    requires BreakThenDate(t, j).Some?
    ensures SpacedDateFrom(t)(j + 1).Some?
  {
    assert StrictDate(t, j + 1).Some?;
    StrictDateIsSpacedDate(t, j + 1);
  }

  lemma NextLineAtImpliesWithinAt(t: string, p: nat)
    requires FechaNextLineAt(t, p).Some?
    ensures FechaWithinAt(t, p).Some?
  {
    NextLineImpliesWithinWindow(t, MatchAtoms(t, p, Oficializacion).value);
  }

  lemma FechaNextLineImpliesWithin(t: string)
    ensures FechaNextLine(t).Some? ==> FechaWithin(t).Some?
  {
    if FechaNextLine(t).Some? {
      var p: nat :| p <= |t| && FechaNextLineAt(t, p) == FechaNextLine(t);
      NextLineAtImpliesWithinAt(t, p);
      assert FechaWithinFrom(t)(p).Some?;
      FirstInFinds(0, |t|, FechaWithinFrom(t), p);
    }
  }
}
