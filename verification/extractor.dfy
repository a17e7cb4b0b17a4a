/** `PDFExtractor.extractFromText`: the record of one customs declaration,
    read field by field from the text of its PDF. Every field starts from its
    default; a field whose patterns all fail keeps it. */
module Extractor {
  import opened Optional
  import opened Text
  import opened Search
  import opened Numbers
  import opened Normalize
  import opened Scanners
  import opened Patterns
  import opened Aggregator

  /** `DespachoData` */
  datatype DespachoData = DespachoData(
    archivo: string,
    fobTotal: real,
    fleteTotal: real,
    seguroTotal: real,
    divisa: string,
    valorAduanaDolar: real,
    cotizacion: real,
    vendedor: string,
    importador: string,
    despachoNumero: string,
    fechaOficializacion: string)

  /** What every extracted record satisfies: money in whole hundredths, a
      known currency code, tidy seller and code, a single-spaced importer of
      at most 100 characters that starts with no space (the cut can leave one
      at its end), and a date in `DD/MM/YYYY` form, each field possibly left
      empty. */
  ghost predicate WellFormed(d: DespachoData) {
    && IsCents(d.fobTotal) && IsCents(d.fleteTotal) && IsCents(d.seguroTotal)
    && IsCents(d.valorAduanaDolar)
    && d.cotizacion >= 0.0
    && (d.divisa == "" || d.divisa in Currencies)
    && Tidy(d.vendedor)
    && |d.importador| <= 100 && SingleSpaced(d.importador)
    && (d.importador != [] ==> !IsSpace(d.importador[0]))
    && Tidy(d.despachoNumero)
    && (d.fechaOficializacion == "" || IsDate(d.fechaOficializacion))
  }

  // ---------------------------------------------------------------------------
  // File name

  /** The name ends in ".pdf", in any mix of cases. */
  predicate EndsWithPdf(f: string) {
    |f| >= 4 && Upper(f[|f| - 4..]) == ".PDF"
  }

  /** `filename.replace(/\.pdf$/i, '')` */
  function CleanFilename(f: string): (r: string)
    ensures r <= f
    ensures r == f || (|f| - |r| == 4 && Upper(f[|r|..]) == ".PDF")
    ensures r != f <==> EndsWithPdf(f)
  {
    if EndsWithPdf(f) then f[..|f| - 4] else f
  }

  // ---------------------------------------------------------------------------
  // The record

  /** The record before any pattern is tried. */
  function Default(filename: string): (r: DespachoData)
    ensures r.archivo == CleanFilename(filename)
    ensures WellFormed(r)
  {
    assert Cents(0) == 0.0;
    DespachoData(CleanFilename(filename), 0.0, 0.0, 0.0, "", 0.0, 0.0, "", "", "", "")
  }

  /** `this.parseNumber(m[1])` when a pattern matched, the default 0
      otherwise. */
  function AmountOf(m: Option<string>): real {
    match m
    case None => 0.0
    case Some(s) => ParseNumber(s)
  }

  function FobTotal(t: string): (r: real)
    ensures IsCents(r)
    ensures !HasDigit(t) ==> r == 0.0
  {
    FobFound(t);
    AmountOfIsCents(FirstOf(FobCandidates, t));
    AmountOf(FirstOf(FobCandidates, t))
  }

  /** The third flete pattern captures two amounts; the second one is kept
      (`m[2]`), which `FleteSecondDolAmount` already returns. */
  function FleteTotal(t: string): (r: real)
    ensures IsCents(r)
    ensures !HasDigit(t) ==> r == 0.0
  {
    FleteFound(t);
    AmountOfIsCents(FirstOf(FleteCandidates, t));
    AmountOf(FirstOf(FleteCandidates, t))
  }

  function SeguroTotal(t: string): (r: real)
    ensures IsCents(r)
    ensures !HasDigit(t) ==> r == 0.0
  {
    SeguroFound(t);
    AmountOfIsCents(FirstOf(SeguroCandidates, t));
    AmountOf(FirstOf(SeguroCandidates, t))
  }

  /** `m[1].toUpperCase()` */
  function Divisa(t: string): (r: string)
    ensures r == "" || r in Currencies
    ensures r != "" ==> HasDigit(t)
  {
    match Currency(t)
    case None => ""
    case Some(c) => Upper(c)
  }

  function Cotizacion(t: string): (r: real)
    ensures r >= 0.0
    ensures !HasDigit(t) ==> r == 0.0
  {
    CotizFound(t);
    var m := FirstOf(CotizCandidates, t);
    if m.Some? then RateNonNegative(m.value); AmountOf(m) else 0.0
  }

  /** `m[1].replace(/\s+/g, ' ').trim()` */
  function Vendedor(t: string): (r: string)
    ensures Tidy(r)
    ensures r != "" ==> Mentions(t, "Vendedor")
  {
    VendedorFound(t);
    TidiedOf(FirstOf(VendedorCandidates, t))
  }

  /** `m[1].replace(/\s+/g, ' ').trim().substring(0, 100)` */
  function Importador(t: string): (r: string)
    ensures |r| <= 100 && SingleSpaced(r) && (r != [] ==> !IsSpace(r[0]))
    ensures r != "" ==> Mentions(t, "Importador")
  {
    ImportadorFound(t);
    ImporterOf(FirstOf(ImportadorCandidates, t))
  }

  /** The importer field as evidently intended: the same capture, cut by
      `Normalize.ImporterName`, which trims again after the cut. It differs
      from the field as written only by the trailing space that cut can
      leave. */
  function ImportadorCorrected(t: string): (r: string)
    ensures |r| <= 100 && Tidy(r)
    ensures r == Trim(Importador(t))
  {
    match FirstOf(ImportadorCandidates, t)
    case None => ""
    case Some(s) => ImporterName(s)
  }

  function DespachoNumero(t: string): (r: string)
    ensures Tidy(r)
    ensures r != "" ==> HasDigit(t)
  {
    DespachoFound(t);
    TidiedOf(FirstOf(DespachoCandidates, t))
  }

  /** A captured text, tidied; no capture gives the empty string. */
  function TidiedOf(m: Option<string>): (r: string)
    ensures Tidy(r)
    ensures r != "" ==> m.Some?
  {
    match m
    case None => ""
    case Some(s) => Tidied(s)
  }

  /** A captured importer name, tidied and cut; no capture gives the empty
      string. */
  function ImporterOf(m: Option<string>): (r: string)
    ensures |r| <= 100 && SingleSpaced(r) && (r != [] ==> !IsSpace(r[0]))
    ensures m.None? ==> r == ""
    ensures m.Some? ==> r <= Tidied(m.value)
    ensures m.Some? ==> (r == "" <==> RemoveSpaces(m.value) == [])
  {
    match m
    case None => ""
    case Some(s) =>
      var t := Tidied(s);
      assert t != [] ==> RemoveSpaces(t) == [t[0]] + RemoveSpaces(t[1..]);
      ImporterAsWritten(s)
  }

  /** `m[1].replace(/\s/g, '')` */
  function Fecha(t: string): (r: string)
    ensures r == "" || IsDate(r)
    ensures r != "" ==> HasDigit(t)
  {
    FechaFound(t);
    match FirstOf(FechaCandidates, t)
    case None => ""
    case Some(s) => RemoveSpaces(s)
  }

  /** `extractFromText(text, filename)` */
  function ExtractFromText(t: string, filename: string): (r: DespachoData)
    ensures r.archivo == CleanFilename(filename)
    ensures WellFormed(r)
    ensures !HasDigit(t) && !Mentions(t, "Vendedor") && !Mentions(t, "Importador") ==>
      r == Default(filename)
  {
    ValorWithoutDigits(t);
    DespachoData(
      CleanFilename(filename),
      FobTotal(t),
      FleteTotal(t),
      SeguroTotal(t),
      Divisa(t),
      ValorAduanaTotal(t),
      Cotizacion(t),
      Vendedor(t),
      Importador(t),
      DespachoNumero(t),
      Fecha(t))
  }

  // ---------------------------------------------------------------------------
  // What each field's candidates capture

  lemma ValorWithoutDigits(t: string)
    ensures !HasDigit(t) ==> ValorAduanaTotal(t) == 0.0
  {
    if !HasDigit(t) {
      NoDigitNoValue(t);
    }
  }

  lemma AmountOfIsCents(m: Option<string>)
    requires m.Some? ==> IsAmount(m.value)
    ensures IsCents(AmountOf(m))
  {
    if m.Some? {
      AmountIsCents(m.value);
    } else {
      assert Cents(0) == 0.0;
    }
  }

  lemma FobFound(t: string)
    ensures var m := FirstOf(FobCandidates, t); m.Some? ==> IsAmount(m.value) && HasDigit(t)
  {
    FirstOfFour(FobInDolar, FobInDivisa, FobBeforeDol, FobCondVenta, t);
    FirstOfThree(FobInDivisa, FobBeforeDol, FobCondVenta, t);
    FirstOfTwo(FobBeforeDol, FobCondVenta, t);
  }

  lemma FleteFound(t: string)
    ensures var m := FirstOf(FleteCandidates, t); m.Some? ==> IsAmount(m.value) && HasDigit(t)
  {
    FirstOfThree(FleteAfterMarker, FleteBeforeCurrency, FleteSecondDolAmount, t);
    FirstOfTwo(FleteBeforeCurrency, FleteSecondDolAmount, t);
  }

  lemma SeguroFound(t: string)
    ensures var m := FirstOf(SeguroCandidates, t); m.Some? ==> IsAmount(m.value) && HasDigit(t)
  {
    FirstOfTwo(SeguroBeforeCurrency, SeguroNearby, t);
  }

  lemma CotizFound(t: string)
    ensures var m := FirstOf(CotizCandidates, t); m.Some? ==> RateText(m.value) && HasDigit(t)
  {
    FirstOfTwo(CotizDecimal, CotizLoose, t);
  }

  /** A rate is written without a sign, so it is never negative. */
  lemma RateNonNegative(s: string)
    requires RateText(s)
    ensures ParseNumber(s) >= 0.0
  {
    assert '-' !in s by {
      forall i | 0 <= i < |s| ensures s[i] != '-' {
        assert IsDigit(s[i]) || s[i] == '.' || s[i] == ',';
      }
    }
  }

  lemma VendedorFound(t: string)
    ensures var m := FirstOf(VendedorCandidates, t); m.Some? ==> Mentions(t, "Vendedor")
  {
    FirstOfTwo(VendedorNextLine, VendedorBeforeMarker, t);
  }

  lemma ImportadorFound(t: string)
    ensures var m := FirstOf(ImportadorCandidates, t); m.Some? ==> Mentions(t, "Importador")
  {
    FirstOfThree(ImportadorNextLine, ImportadorBeforeTaxId, ImportadorSplitLabel, t);
    FirstOfTwo(ImportadorBeforeTaxId, ImportadorSplitLabel, t);
  }

  lemma DespachoFound(t: string)
    ensures FirstOf(DespachoCandidates, t).Some? ==> HasDigit(t)
  {
    FirstOfThree(DespachoLettersDigits, DespachoAlphanumeric, DespachoAfterYear, t);
    FirstOfTwo(DespachoAlphanumeric, DespachoAfterYear, t);
  }

  lemma FechaFound(t: string)
    ensures var m := FirstOf(FechaCandidates, t); m.Some? ==> IsDate(RemoveSpaces(m.value)) && HasDigit(t)
  {
    FirstOfThree(FechaAfterLabel, FechaWithin, FechaNextLine, t);
    FirstOfTwo(FechaWithin, FechaNextLine, t);
    if FechaAfterLabel(t).Some? {
      DateHasNoSpaces(FechaAfterLabel(t).value);
    }
    if FechaNextLine(t).Some? {
      DateHasNoSpaces(FechaNextLine(t).value);
    }
  }

  /** Removing the white space leaves a date as it is. */
  lemma DateHasNoSpaces(s: string)
    requires IsDate(s)
    ensures RemoveSpaces(s) == s
  {
    assert NoSpaces(s) by {
      forall i | 0 <= i < |s| ensures !IsSpace(s[i]) {
        assert IsDigit(s[i]) || s[i] == '/';
      }
    }
    RemoveSpacesOfNoSpaces(s);
  }

  // ---------------------------------------------------------------------------
  // Lemmas

  /** A ".pdf" extension, in any case, is removed, and only one of them:
      `CleanFilename` undoes appending the extension. */
  lemma CleanFilenameStripsExtension(name: string, ext: string)
    requires |ext| == 4 && Upper(ext) == ".PDF"
    ensures CleanFilename(name + ext) == name
  {
    var f := name + ext;
    assert f[|f| - 4..] == ext;
    assert f[..|f| - 4] == name;
  }

  /** Any other name is kept as it is. */
  lemma CleanFilenameKeepsOtherNames(f: string)
    requires !EndsWithPdf(f)
    ensures CleanFilename(f) == f
  {
  }

  /** "a.pdf.pdf" loses its last extension only. */
  lemma CleanFilenameOnce()
    ensures CleanFilename("a.pdf.pdf") == "a.pdf"
  {
    assert Upper(".pdf") == ".PDF";
    CleanFilenameStripsExtension("a.pdf", ".pdf");
    assert "a.pdf" + ".pdf" == "a.pdf.pdf";
  }

  /** The first candidate that matches decides the FOB total, whichever of
      the four it is. */
  lemma FobDecidedByFirstMatch(t: string, i: nat)
    requires i < |FobCandidates| && FobCandidates[i](t).Some?
    requires forall j :: 0 <= j < i ==> FobCandidates[j](t).None?
    ensures FobTotal(t) == ParseNumber(FobCandidates[i](t).value)
  {
    FirstOfPicks(FobCandidates, t, i);
  }

  /** "FOB Total en Dólar" is preferred over every other FOB amount. */
  lemma FobPrefersTotalInDolar(t: string, s: string)
    requires FobInDolar(t) == Some(s)
    ensures FobTotal(t) == ParseNumber(s)
  {
    FobDecidedByFirstMatch(t, 0);
  }

  /** When only the third flete pattern matches, the flete total is its
      second amount. */
  lemma FleteFromSecondAmount(t: string, s: string)
    requires FleteAfterMarker(t).None? && FleteBeforeCurrency(t).None?
    requires FleteSecondDolAmount(t) == Some(s)
    ensures FleteTotal(t) == ParseNumber(s)
  {
    FirstOfThree(FleteAfterMarker, FleteBeforeCurrency, FleteSecondDolAmount, t);
    FirstOfTwo(FleteBeforeCurrency, FleteSecondDolAmount, t);
  }

  /** The seguro falls back to its nearby amount only when no amount before
      a currency follows the label. */
  lemma SeguroFallsBack(t: string, s: string)
    requires SeguroBeforeCurrency(t).None? && SeguroNearby(t) == Some(s)
    ensures SeguroTotal(t) == ParseNumber(s)
  {
    FirstOfTwo(SeguroBeforeCurrency, SeguroNearby, t);
  }

  /** The currency is the token after the first amount that has one,
      in capitals. */
  lemma DivisaFromFirstAmount(t: string, p: nat, c: string)
    requires AmountThenCurrency(t, p, c)
    requires forall q: nat :: q < p ==> CurrencyAt(t, q).None?
    ensures Divisa(t) == Upper(c)
  {
    CurrencyAtComplete(t, p, c);
    var r := Currency(t);
    var p': nat :| p' <= |t| && AmountThenCurrency(t, p', r.value) && forall q: nat :: q < p' ==> CurrencyAt(t, q).None?;
    CurrencyAtComplete(t, p', r.value);
  }

  /** No amount followed by a currency token: no currency. */
  lemma NoCurrencyWithoutToken(t: string)
    requires forall p: nat, c: string :: !AmountThenCurrency(t, p, c)
    ensures Divisa(t) == ""
  {
    forall p: nat | p <= |t| ensures CurrencyAt(t, p).None? {
      if CurrencyAt(t, p).Some? {
        assert AmountThenCurrency(t, p, CurrencyAt(t, p).value);
      }
    }
  }

  // ---------------------------------------------------------------------------
  // Each field as the source's chain of `if (!m)` fallbacks

  lemma FobChain(t: string)
    ensures FobTotal(t) ==
      if FobInDolar(t).Some? then ParseNumber(FobInDolar(t).value)
      else if FobInDivisa(t).Some? then ParseNumber(FobInDivisa(t).value)
      else if FobBeforeDol(t).Some? then ParseNumber(FobBeforeDol(t).value)
      else if FobCondVenta(t).Some? then ParseNumber(FobCondVenta(t).value)
      else 0.0
  {
    FirstOfFour(FobInDolar, FobInDivisa, FobBeforeDol, FobCondVenta, t);
    FirstOfThree(FobInDivisa, FobBeforeDol, FobCondVenta, t);
    FirstOfTwo(FobBeforeDol, FobCondVenta, t);
  }

  lemma FleteChain(t: string)
    ensures FleteTotal(t) ==
      if FleteAfterMarker(t).Some? then ParseNumber(FleteAfterMarker(t).value)
      else if FleteBeforeCurrency(t).Some? then ParseNumber(FleteBeforeCurrency(t).value)
      else if FleteSecondDolAmount(t).Some? then ParseNumber(FleteSecondDolAmount(t).value)
      else 0.0
  {
    FirstOfThree(FleteAfterMarker, FleteBeforeCurrency, FleteSecondDolAmount, t);
    FirstOfTwo(FleteBeforeCurrency, FleteSecondDolAmount, t);
  }

  lemma SeguroChain(t: string)
    ensures SeguroTotal(t) ==
      if SeguroBeforeCurrency(t).Some? then ParseNumber(SeguroBeforeCurrency(t).value)
      else if SeguroNearby(t).Some? then ParseNumber(SeguroNearby(t).value)
      else 0.0
  {
    FirstOfTwo(SeguroBeforeCurrency, SeguroNearby, t);
  }

  lemma CotizacionChain(t: string)
    ensures Cotizacion(t) ==
      if CotizDecimal(t).Some? then ParseNumber(CotizDecimal(t).value)
      else if CotizLoose(t).Some? then ParseNumber(CotizLoose(t).value)
      else 0.0
  {
    FirstOfTwo(CotizDecimal, CotizLoose, t);
  }

  /** A rate taken by the first exchange-rate pattern is read with its dots
      dropped and its comma as the decimal point: "1.474,500000" is
      1474500000 millionths. */
  lemma CotizacionFromDecimal(t: string, s: string)
    requires CotizDecimal(t) == Some(s)
    ensures exists k: nat ::
      CommaAt(s, k) && Cotizacion(t) == Fraction(DigitsValue(Digits(s[..k]) + s[k + 1..]), |s| - k - 1)
  {
    CotizacionChain(t);
    CotizDecimalShape(t, s);
    var k: nat :| CommaAt(s, k);
    ParseNumberAtComma(s, k);
  }

  lemma DivisaOfCurrency(t: string)
    ensures Divisa(t) == if Currency(t).Some? then Upper(Currency(t).value) else ""
  {
  }

  lemma VendedorChain(t: string)
    ensures Vendedor(t) ==
      if VendedorNextLine(t).Some? then Tidied(VendedorNextLine(t).value)
      else if VendedorBeforeMarker(t).Some? then Tidied(VendedorBeforeMarker(t).value)
      else ""
  {
    FirstOfTwo(VendedorNextLine, VendedorBeforeMarker, t);
  }

  lemma ImportadorChain(t: string)
    ensures Importador(t) ==
      if ImportadorNextLine(t).Some? then ImporterAsWritten(ImportadorNextLine(t).value)
      else if ImportadorBeforeTaxId(t).Some? then ImporterAsWritten(ImportadorBeforeTaxId(t).value)
      else if ImportadorSplitLabel(t).Some? then ImporterAsWritten(ImportadorSplitLabel(t).value)
      else ""
  {
    FirstOfThree(ImportadorNextLine, ImportadorBeforeTaxId, ImportadorSplitLabel, t);
    FirstOfTwo(ImportadorBeforeTaxId, ImportadorSplitLabel, t);
  }

  lemma DespachoChain(t: string)
    ensures DespachoNumero(t) ==
      if DespachoLettersDigits(t).Some? then Tidied(DespachoLettersDigits(t).value)
      else if DespachoAlphanumeric(t).Some? then Tidied(DespachoAlphanumeric(t).value)
      else if DespachoAfterYear(t).Some? then Tidied(DespachoAfterYear(t).value)
      else ""
  {
    FirstOfThree(DespachoLettersDigits, DespachoAlphanumeric, DespachoAfterYear, t);
    FirstOfTwo(DespachoAlphanumeric, DespachoAfterYear, t);
  }

  /** The stored customs code is empty exactly when no pattern matches, and
      otherwise reads `DD DDD XXXX N… L` with single spaces; when the first
      pattern matches, the type code is two letters and two digits and the
      serial number six digits. */
  lemma DespachoNumeroShape(t: string)
    ensures DespachoNumero(t) == "" <==>
      DespachoLettersDigits(t).None? && DespachoAlphanumeric(t).None? && DespachoAfterYear(t).None?
    ensures DespachoNumero(t) != "" ==> TidyCode(DespachoNumero(t), LooseSerial)
    ensures DespachoLettersDigits(t).Some? ==> TidyCode(DespachoNumero(t), LettersDigits)
    ensures DespachoLettersDigits(t).None? && DespachoAlphanumeric(t).Some? ==> TidyCode(DespachoNumero(t), Alphanumeric)
  {
    DespachoChain(t);
    DespachoCapturesTidy(t);
    if DespachoLettersDigits(t).Some? {
      TidyCodeLoosens(DespachoNumero(t), LettersDigits);
    } else if DespachoAlphanumeric(t).Some? {
      TidyCodeLoosens(DespachoNumero(t), Alphanumeric);
    }
  }

  /** A date is stored with its white space removed; the strict date after
      the label has none to remove, and the third pattern never decides. */
  lemma FechaChain(t: string)
    ensures Fecha(t) ==
      if FechaAfterLabel(t).Some? then FechaAfterLabel(t).value
      else if FechaWithin(t).Some? then RemoveSpaces(FechaWithin(t).value)
      else ""
  {
    FechaThirdPatternRedundant(t);
    FirstOfTwo(FechaAfterLabel, FechaWithin, t);
    if FechaAfterLabel(t).Some? {
      DateHasNoSpaces(FechaAfterLabel(t).value);
    }
  }

  /** `extractFromText` field by field: each field is read by the first of
      its patterns that matches, in the source's order, and keeps its
      default when none does. These are the file name and the numbers. */
  lemma ExtractFromTextReadsNumbers(t: string, filename: string)
    ensures var r := ExtractFromText(t, filename);
      && r.archivo == CleanFilename(filename)
      && r.fobTotal ==
        (if FobInDolar(t).Some? then ParseNumber(FobInDolar(t).value)
         else if FobInDivisa(t).Some? then ParseNumber(FobInDivisa(t).value)
         else if FobBeforeDol(t).Some? then ParseNumber(FobBeforeDol(t).value)
         else if FobCondVenta(t).Some? then ParseNumber(FobCondVenta(t).value)
         else 0.0)
      && r.fleteTotal ==
        (if FleteAfterMarker(t).Some? then ParseNumber(FleteAfterMarker(t).value)
         else if FleteBeforeCurrency(t).Some? then ParseNumber(FleteBeforeCurrency(t).value)
         else if FleteSecondDolAmount(t).Some? then ParseNumber(FleteSecondDolAmount(t).value)
         else 0.0)
      && r.seguroTotal ==
        (if SeguroBeforeCurrency(t).Some? then ParseNumber(SeguroBeforeCurrency(t).value)
         else if SeguroNearby(t).Some? then ParseNumber(SeguroNearby(t).value)
         else 0.0)
      && r.valorAduanaDolar == ValorAduanaTotal(t)
      && r.cotizacion ==
        (if CotizDecimal(t).Some? then ParseNumber(CotizDecimal(t).value)
         else if CotizLoose(t).Some? then ParseNumber(CotizLoose(t).value)
         else 0.0)
  {
    FobChain(t);
    FleteChain(t);
    SeguroChain(t);
    CotizacionChain(t);
  }

  /** The same for the seller and the importer. */
  lemma ExtractFromTextReadsNames(t: string, filename: string)
    ensures var r := ExtractFromText(t, filename);
      && r.vendedor ==
        (if VendedorNextLine(t).Some? then Tidied(VendedorNextLine(t).value)
         else if VendedorBeforeMarker(t).Some? then Tidied(VendedorBeforeMarker(t).value)
         else "")
      && r.importador ==
        (if ImportadorNextLine(t).Some? then ImporterAsWritten(ImportadorNextLine(t).value)
         else if ImportadorBeforeTaxId(t).Some? then ImporterAsWritten(ImportadorBeforeTaxId(t).value)
         else if ImportadorSplitLabel(t).Some? then ImporterAsWritten(ImportadorSplitLabel(t).value)
         else "")
  {
    VendedorChain(t);
    ImportadorChain(t);
  }

  /** The same for the currency, the customs code and the date. */
  lemma ExtractFromTextReadsCodes(t: string, filename: string)
    ensures var r := ExtractFromText(t, filename);
      && r.divisa == (if Currency(t).Some? then Upper(Currency(t).value) else "")
      && r.despachoNumero ==
        (if DespachoLettersDigits(t).Some? then Tidied(DespachoLettersDigits(t).value)
         else if DespachoAlphanumeric(t).Some? then Tidied(DespachoAlphanumeric(t).value)
         else if DespachoAfterYear(t).Some? then Tidied(DespachoAfterYear(t).value)
         else "")
      && r.fechaOficializacion ==
        (if FechaAfterLabel(t).Some? then FechaAfterLabel(t).value
         else if FechaWithin(t).Some? then RemoveSpaces(FechaWithin(t).value)
         else "")
  {
    DivisaOfCurrency(t);
    DespachoChain(t);
    FechaChain(t);
  }

  /** The third date pattern never decides anything: whenever it matches,
      the second one does too. */
  lemma FechaThirdPatternRedundant(t: string)
    ensures FirstOf(FechaCandidates, t) == FirstOf([FechaAfterLabel, FechaWithin], t)
  {
    FechaNextLineImpliesWithin(t);
    ThirdImpliedBySecond(FechaAfterLabel, FechaWithin, FechaNextLine, t);
  }

  lemma ThirdImpliedBySecond(a: string -> Option<string>, b: string -> Option<string>, c: string -> Option<string>, t: string)
    requires c(t).Some? ==> b(t).Some?
    ensures FirstOf([a, b, c], t) == FirstOf([a, b], t)
  {
    var two := [a, b];
    assert two[1] == b;
    assert two + [c] == [a, b, c];
    FirstOfRedundantLast(two, c, t);
  }
}
