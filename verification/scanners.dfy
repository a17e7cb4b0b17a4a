/** Hand-written scanners for the grammars the extractor's regular expressions
    use: labels, monetary amounts, the exchange rate, dates and the customs
    code. Each returns the end of the text it matched at a given start, or
    `None`.

    A greedy `\s+`, `\s*` or `c?` is consumed without backtracking. That gives
    the same result as the regular-expression engine because in every pattern
    the next element cannot match the character the quantifier stopped at;
    the places where giving back characters does matter (`\s*\n`,
    `[^/\n]+Exportador`, `Ad\.?`) are written out where they occur. */
module Scanners {
  import opened Optional
  import opened Text
  import opened Numbers
  import opened Normalize

  // ---------------------------------------------------------------------------
  // Labels

  /** One element of a label. */
  datatype Atom =
    | Ch(c: char)             // the character, compared case-insensitively
    | OneOf(a: char, b: char) // `[ab]`, compared case-insensitively
    | Spaces                  // `\s+`
    | OptSpaces               // `\s*`
    | Opt(c: char)            // `c?`

  function Word(w: string): (r: seq<Atom>)
    ensures |r| == |w|
    ensures forall i :: 0 <= i < |w| ==> r[i] == Ch(w[i])
  {
    if w == [] then [] else [Ch(w[0])] + Word(w[1..])
  }

  predicate SameLetter(x: char, y: char) {
    Fold(x) == Fold(y)
  }

  /** Where the label ends when it starts at `p`. */
  function MatchAtoms(t: string, p: nat, atoms: seq<Atom>): (r: Option<nat>)
    ensures r.Some? ==> p <= r.value <= |t|
    decreases |atoms|
  {
    if p > |t| then None
    else if atoms == [] then Some(p)
    else match atoms[0]
      case Ch(c) =>
        if p < |t| && SameLetter(t[p], c) then MatchAtoms(t, p + 1, atoms[1..]) else None
      case OneOf(a, b) =>
        if p < |t| && (SameLetter(t[p], a) || SameLetter(t[p], b))
        then MatchAtoms(t, p + 1, atoms[1..]) else None
      case Spaces =>
        if p < |t| && IsSpace(t[p]) then MatchAtoms(t, SkipSpaces(t, p), atoms[1..]) else None
      case OptSpaces =>
        MatchAtoms(t, SkipSpaces(t, p), atoms[1..])
      case Opt(c) =>
        if p < |t| && SameLetter(t[p], c) then MatchAtoms(t, p + 1, atoms[1..])
        else MatchAtoms(t, p, atoms[1..])
  }

  /** `w` appears (case-insensitively) somewhere in `t`. */
  predicate Mentions(t: string, w: string) {
    exists p :: 0 <= p <= |t| && Keyword(t, p, w)
  }

  /** A label that starts with the word `w` only matches where `w` appears. */
  lemma {:induction false} LabelStartsWithWord(t: string, p: nat, w: string, rest: seq<Atom>)
    requires MatchAtoms(t, p, Word(w) + rest).Some?
    ensures Keyword(t, p, w)
    decreases |w|
  {
    var atoms := Word(w) + rest;
    if w != [] {
      assert atoms[0] == Ch(w[0]);
      assert atoms[1..] == Word(w[1..]) + rest;
      LabelStartsWithWord(t, p + 1, w[1..], rest);
      assert Upper(Slice(t, p, |w|)) == Upper(w) by {
        forall i | 0 <= i < |w| ensures Fold(t[p + i]) == Fold(w[i]) {
          if i > 0 {
            assert Upper(Slice(t, p + 1, |w| - 1))[i - 1] == Upper(w[1..])[i - 1];
          }
        }
      }
    }
  }

  /** The label made of the word `w` followed by `rest`, at `p`. */
  function AfterWord(t: string, p: nat, w: string, rest: seq<Atom>): (r: Option<nat>)
    ensures r == MatchAtoms(t, p, Word(w) + rest)
    ensures r.Some? ==> Keyword(t, p, w)
  {
    var r := MatchAtoms(t, p, Word(w) + rest);
    if r.Some? then
      LabelStartsWithWord(t, p, w, rest);
      r
    else r
  }

  // ---------------------------------------------------------------------------
  // Monetary amounts `\d{1,3}(\.\d{3})*,\d{2}`

  /** `(\.\d{3})*`, greedy: where the thousands groups starting at `q` end. */
  function Groups(t: string, q: nat): (g: nat)
    requires q <= |t|
    ensures q <= g <= |t|
    decreases |t| - q
  {
    if q + 4 <= |t| && t[q] == '.' && IsDigit(t[q + 1]) && IsDigit(t[q + 2]) && IsDigit(t[q + 3])
    then Groups(t, q + 4)
    else q
  }

  /** `,\d{2}` at `g`. */
  predicate CentsAt(t: string, g: nat) {
    g + 3 <= |t| && t[g] == ',' && IsDigit(t[g + 1]) && IsDigit(t[g + 2])
  }

  /** The amount that starts exactly at `p`, if one does. */
  function Amount(t: string, p: nat): (r: Option<nat>)
    ensures r.Some? ==> p < r.value <= |t| && IsDigit(t[p]) && IsAmount(t[p..r.value])
  {
    if p >= |t| then None
    else
      var q := DigitRun(t, p);
      if q - p < 1 || q - p > 3 then None
      else
        var g := Groups(t, q);
        if CentsAt(t, g) then
          AmountFound(t, p, q, g);
          Some(g + 3)
        else None
  }

  lemma {:induction false} GroupsSound(t: string, q: nat)
    requires q <= |t| && CentsAt(t, Groups(t, q))
    ensures IsGroupsThenCents(t[q..Groups(t, q) + 3])
    decreases |t| - q
  {
    var g := Groups(t, q);
    var s := t[q..g + 3];
    if q + 4 <= |t| && t[q] == '.' && IsDigit(t[q + 1]) && IsDigit(t[q + 2]) && IsDigit(t[q + 3]) {
      GroupsSound(t, q + 4);
      assert s[4..] == t[q + 4..g + 3];
      assert s[0] == '.' && s[1] == t[q + 1] && s[2] == t[q + 2] && s[3] == t[q + 3];
    } else {
      assert g == q;
      assert s[0] == ',' && s[1] == t[q + 1] && s[2] == t[q + 2];
    }
  }

  lemma AmountFound(t: string, p: nat, q: nat, g: nat)
    requires p < |t| && q == DigitRun(t, p) && 1 <= q - p <= 3
    requires g == Groups(t, q) && CentsAt(t, g)
    ensures IsDigit(t[p]) && IsAmount(t[p..g + 3])
  {
    GroupsSound(t, q);
    assert t[p..g + 3] == t[p..q] + t[q..g + 3];
    AmountOfParts(t[p..q], t[q..g + 3]);
    assert IsDigit(t[p]) by { assert t[p..q][0] == t[p]; }
  }

  /** One to three digits, then the groups and the cents, make an amount. */
  lemma AmountOfParts(head: string, tail: string)
    requires 1 <= |head| <= 3 && AllDigits(head) && IsGroupsThenCents(tail)
    ensures IsAmount(head + tail)
  {
    var s := head + tail;
    assert s[..|head|] == head && s[|head|..] == tail;
  }

  lemma {:induction false} GroupsComplete(t: string, q: nat, e: nat)
    requires q <= e <= |t| && IsGroupsThenCents(t[q..e])
    ensures Groups(t, q) == e - 3 && CentsAt(t, e - 3)
    decreases e - q
  {
    var s := t[q..e];
    assert s[0] == t[q];
    if s[0] == '.' {
      assert s[1] == t[q + 1] && s[2] == t[q + 2] && s[3] == t[q + 3];
      assert s[4..] == t[q + 4..e];
      GroupsComplete(t, q + 4, e);
    } else {
      assert s[1] == t[q + 1] && s[2] == t[q + 2];
    }
  }

  /** The amount scanner finds exactly the amounts of the grammar: whenever
      the text from `p` to `e` is an amount, the scan from `p` ends at `e`. */
  lemma AmountExact(t: string, p: nat, e: nat)
    requires p <= e <= |t| && IsAmount(t[p..e])
    ensures Amount(t, p) == Some(e)
  {
    var s := t[p..e];
    var k :| 1 <= k <= 3 && k <= |s| && AllDigits(s[..k]) && IsGroupsThenCents(s[k..]);
    AmountIntegerPart(t, p, e, k);
    AmountGroupsPart(t, p, e, k);
    AmountFromParts(t, p, k, e);
  }

  /** The scan ends at `e` when the leading digits, the groups and the cents
      end where an amount ending at `e` has them. */
  lemma AmountFromParts(t: string, p: nat, k: nat, e: nat)
    requires p < e <= |t| && 1 <= k <= 3
    requires DigitRun(t, p) == p + k && p + k <= |t| && Groups(t, p + k) == e - 3 && CentsAt(t, e - 3)
    ensures Amount(t, p) == Some(e)
  {
  }

  lemma AmountIntegerPart(t: string, p: nat, e: nat, k: nat)
    requires p <= e <= |t| && 1 <= k <= e - p
    requires AllDigits(t[p..e][..k]) && IsGroupsThenCents(t[p..e][k..])
    ensures DigitRun(t, p) == p + k
  {
    var s := t[p..e];
    assert s[k..][0] == s[k] == t[p + k];
    forall i | p <= i < p + k ensures IsDigit(t[i]) { assert s[..k][i - p] == t[i]; }
    DigitRunStops(t, p, p + k);
  }

  lemma AmountGroupsPart(t: string, p: nat, e: nat, k: nat)
    requires p <= e <= |t| && k <= e - p && IsGroupsThenCents(t[p..e][k..])
    ensures Groups(t, p + k) == e - 3 && CentsAt(t, e - 3)
  {
    assert t[p..e][k..] == t[p + k..e];
    GroupsComplete(t, p + k, e);
  }

  // ---------------------------------------------------------------------------
  // The exchange rate

  /** Only digits, `.` and `,`. */
  predicate NumberChars(s: string) {
    forall i :: 0 <= i < |s| ==> IsDigit(s[i]) || s[i] == '.' || s[i] == ','
  }

  /** `\d{1,3}(?:\.\d{3})*,\d+` at `p`. The greedy `\d+` takes every digit
      of the fraction, so no digit follows the match. */
  function DecimalNumber(t: string, p: nat): (r: Option<nat>)
    ensures r.Some? ==> p < r.value <= |t| && IsDigit(t[p]) && NumberChars(t[p..r.value])
    ensures r.Some? ==> r.value == |t| || !IsDigit(t[r.value])
  {
    if p >= |t| then None
    else
      var q := DigitRun(t, p);
      if q - p < 1 || q - p > 3 then None
      else
        var g := Groups(t, q);
        if g < |t| && t[g] == ',' then
          var e := DigitRun(t, g + 1);
          if e > g + 1 then
            GroupsNumberChars(t, q);
            assert AllDigits(t[p..q]) && AllDigits(t[g + 1..e]);
            assert NumberChars(t[p..e]) by {
              forall i | p <= i < e ensures IsDigit(t[i]) || t[i] == '.' || t[i] == ',' {
                if i < q { assert t[p..q][i - p] == t[i]; }
                else if i < g { assert t[q..g][i - q] == t[i]; }
                else if i > g { assert t[g + 1..e][i - g - 1] == t[i]; }
              }
              assert forall i :: 0 <= i < |t[p..e]| ==> t[p..e][i] == t[p + i];
            }
            assert IsDigit(t[p]) by { assert t[p..q][0] == t[p]; }
            Some(e)
          else None
        else None
  }

  lemma {:induction false} GroupsNumberChars(t: string, q: nat)
    requires q <= |t|
    ensures NumberChars(t[q..Groups(t, q)])
    decreases |t| - q
  {
    if q + 4 <= |t| && t[q] == '.' && IsDigit(t[q + 1]) && IsDigit(t[q + 2]) && IsDigit(t[q + 3]) {
      GroupsNumberChars(t, q + 4);
      var g := Groups(t, q);
      assert t[q..g] == t[q..q + 4] + t[q + 4..g];
    }
  }

  lemma {:induction false} GroupsDigitsAndDots(t: string, q: nat)
    requires q <= |t|
    ensures DigitsAndDots(t[q..Groups(t, q)])
    decreases |t| - q
  {
    if q + 4 <= |t| && t[q] == '.' && IsDigit(t[q + 1]) && IsDigit(t[q + 2]) && IsDigit(t[q + 3]) {
      GroupsDigitsAndDots(t, q + 4);
      var g := Groups(t, q);
      assert t[q..g] == t[q..q + 4] + t[q + 4..g];
    }
  }

  /** What `DecimalNumber` takes is digits and thousands groups, a comma,
      and digits: the comma sits where the groups stop. */
  lemma DecimalNumberShape(t: string, p: nat)
    requires DecimalNumber(t, p).Some?
    ensures var e := DecimalNumber(t, p).value; var g := Groups(t, DigitRun(t, p));
      p < g && g + 1 < e <= |t| && t[g] == ',' && IsDigit(t[p])
      && DigitsAndDots(t[p..g]) && AllDigits(t[g + 1..e])
  {
    LeadingDigitsAndGroups(t, p, DigitRun(t, p));
  }

  /** The grammar `\d{1,3}(?:\.\d{3})*,\d+`, read left to right. */
  ghost predicate IsDecimal(s: string) {
    exists k :: 1 <= k <= 3 && k <= |s| && AllDigits(s[..k]) && IsGroupsThenFraction(s[k..])
  }

  /** `(?:\.\d{3})*,\d+` */
  ghost predicate IsGroupsThenFraction(s: string)
    decreases |s|
  {
    || (|s| >= 2 && s[0] == ',' && AllDigits(s[1..]))
    || (|s| >= 4 && s[0] == '.' && IsDigit(s[1]) && IsDigit(s[2]) && IsDigit(s[3])
        && IsGroupsThenFraction(s[4..]))
  }

  /** What `DecimalNumber` takes is a decimal of the grammar. */
  lemma DecimalNumberSound(t: string, p: nat)
    requires DecimalNumber(t, p).Some?
    ensures IsDecimal(t[p..DecimalNumber(t, p).value])
  {
    var q := DigitRun(t, p);
    var e := DecimalNumber(t, p).value;
    DecimalNumberParts(t, p, q, e);
    GroupsFractionSound(t, q, e);
    SplitSlice(t, p, q, e);
  }

  /** How a match of `DecimalNumber` divides: the leading digits up to `q`,
      then the groups, the comma and the fraction up to `e`. */
  lemma DecimalNumberParts(t: string, p: nat, q: nat, e: nat)
    requires DecimalNumber(t, p) == Some(e) && q == DigitRun(t, p)
    ensures p < q <= p + 3 && Groups(t, q) < |t| && t[Groups(t, q)] == ','
    ensures e == DigitRun(t, Groups(t, q) + 1) && e > Groups(t, q) + 1
  {
  }

  lemma SplitSlice(t: string, p: nat, q: nat, e: nat)
    requires p <= q <= e <= |t|
    ensures t[p..e][..q - p] == t[p..q] && t[p..e][q - p..] == t[q..e]
  {
  }

  lemma {:induction false} GroupsFractionSound(t: string, q: nat, e: nat)
    requires q <= |t| && Groups(t, q) < |t| && t[Groups(t, q)] == ','
    requires e == DigitRun(t, Groups(t, q) + 1) && e > Groups(t, q) + 1
    ensures IsGroupsThenFraction(t[q..e])
    decreases |t| - q
  {
    var s := t[q..e];
    if q + 4 <= |t| && t[q] == '.' && IsDigit(t[q + 1]) && IsDigit(t[q + 2]) && IsDigit(t[q + 3]) {
      GroupsFractionSound(t, q + 4, e);
      assert s[4..] == t[q + 4..e];
      assert s[0] == '.' && s[1] == t[q + 1] && s[2] == t[q + 2] && s[3] == t[q + 3];
    } else {
      assert s[0] == ',' && s[1..] == t[q + 1..e];
    }
  }

  /** The scanner finds exactly the decimals of the grammar that no digit
      follows: whenever the text from `p` to `e` is such a decimal, the scan
      from `p` ends at `e`. */
  lemma DecimalNumberExact(t: string, p: nat, e: nat)
    requires p <= e <= |t| && IsDecimal(t[p..e])
    requires e == |t| || !IsDigit(t[e])
    ensures DecimalNumber(t, p) == Some(e)
  {
    var s := t[p..e];
    var k :| 1 <= k <= 3 && k <= |s| && AllDigits(s[..k]) && IsGroupsThenFraction(s[k..]);
    DecimalIntegerPart(t, p, e, k);
    DecimalGroupsPart(t, p, e, k);
    DecimalFromParts(t, p, k, e);
  }

  lemma DecimalGroupsPart(t: string, p: nat, e: nat, k: nat)
    requires p <= e <= |t| && k <= e - p && IsGroupsThenFraction(t[p..e][k..])
    requires e == |t| || !IsDigit(t[e])
    ensures Groups(t, p + k) + 1 < e && t[Groups(t, p + k)] == ',' && DigitRun(t, Groups(t, p + k) + 1) == e
  {
    DropPrefix(t, p, e, k);
    GroupsFractionComplete(t, p + k, e);
  }

  lemma DropPrefix(t: string, p: nat, e: nat, k: nat)
    requires p <= e <= |t| && k <= e - p
    ensures t[p..e][k..] == t[p + k..e]
  {
  }

  lemma DecimalIntegerPart(t: string, p: nat, e: nat, k: nat)
    requires p <= e <= |t| && 1 <= k <= e - p
    requires AllDigits(t[p..e][..k]) && IsGroupsThenFraction(t[p..e][k..])
    ensures DigitRun(t, p) == p + k
  {
    var s := t[p..e];
    assert s[k..][0] == s[k] == t[p + k];
    forall i | p <= i < p + k ensures IsDigit(t[i]) { assert s[..k][i - p] == t[i]; }
    DigitRunStops(t, p, p + k);
  }

  lemma {:induction false} GroupsFractionComplete(t: string, q: nat, e: nat)
    requires q <= e <= |t| && IsGroupsThenFraction(t[q..e])
    requires e == |t| || !IsDigit(t[e])
    ensures Groups(t, q) + 1 < e && t[Groups(t, q)] == ',' && DigitRun(t, Groups(t, q) + 1) == e
    decreases e - q
  {
    var s := t[q..e];
    assert s[0] == t[q];
    if s[0] == '.' {
      assert s[1] == t[q + 1] && s[2] == t[q + 2] && s[3] == t[q + 3];
      assert s[4..] == t[q + 4..e];
      GroupsFractionComplete(t, q + 4, e);
    } else {
      forall i | q + 1 <= i < e ensures IsDigit(t[i]) { assert s[1..][i - q - 1] == t[i]; }
      DigitRunStops(t, q + 1, e);
    }
  }

  lemma DecimalFromParts(t: string, p: nat, k: nat, e: nat)
    requires p < e <= |t| && 1 <= k <= 3 && p + k <= |t| && DigitRun(t, p) == p + k
    requires Groups(t, p + k) + 1 < e && t[Groups(t, p + k)] == ','
    requires DigitRun(t, Groups(t, p + k) + 1) == e
    ensures DecimalNumber(t, p) == Some(e)
  {
  }

  lemma LeadingDigitsAndGroups(t: string, p: nat, q: nat)
    requires p <= q <= |t| && AllDigits(t[p..q])
    ensures DigitsAndDots(t[p..Groups(t, q)])
  {
    var g := Groups(t, q);
    GroupsDigitsAndDots(t, q);
    forall i | p <= i < g ensures IsDigit(t[i]) || t[i] == '.' {
      if i < q { assert t[p..q][i - p] == t[i]; } else { assert t[q..g][i - q] == t[i]; }
    }
    assert forall i :: 0 <= i < g - p ==> t[p..g][i] == t[p + i];
  }

  /** `\d[\d.,]+` at `p`. The greedy `[\d.,]+` takes the whole run, so no
      digit, `.` or `,` follows the match. */
  function NumberRun(t: string, p: nat): (r: Option<nat>)
    ensures r.Some? ==> p + 1 < r.value <= |t| && IsDigit(t[p]) && NumberChars(t[p..r.value])
    ensures r.Some? ==> r.value == |t| || !(IsDigit(t[r.value]) || t[r.value] == '.' || t[r.value] == ',')
  {
    if p < |t| && IsDigit(t[p]) then
      var e := Span(t, p + 1, NumberChar);
      if e > p + 1 then
        assert NumberChars(t[p..e]) by {
          forall i | 0 <= i < e - p ensures IsDigit(t[p..e][i]) || t[p..e][i] == '.' || t[p..e][i] == ',' {
            assert t[p..e][i] == t[p + i];
            if i > 0 { assert InClass(t[p + i], NumberChar); }
          }
        }
        Some(e)
      else None
    else None
  }

  /** The scanner finds exactly these runs: whenever the text from `p` to
      `e` is a digit followed by at least one more digit, `.` or `,`, and
      none follows at `e`, the scan from `p` ends at `e`. */
  lemma NumberRunExact(t: string, p: nat, e: nat)
    requires p + 1 < e <= |t| && IsDigit(t[p]) && NumberChars(t[p..e])
    requires e == |t| || !(IsDigit(t[e]) || t[e] == '.' || t[e] == ',')
    ensures NumberRun(t, p) == Some(e)
  {
    forall i | p + 1 <= i < e ensures InClass(t[i], NumberChar) { assert t[p..e][i - p] == t[i]; }
    SpanStops(t, p + 1, e, NumberChar);
  }

  // ---------------------------------------------------------------------------
  // Dates

  /** `DD/MM/YYYY`: the shape of the issue date in the record. */
  predicate IsDate(s: string) {
    && |s| == 10
    && IsDigit(s[0]) && IsDigit(s[1]) && s[2] == '/'
    && IsDigit(s[3]) && IsDigit(s[4]) && s[5] == '/'
    && IsDigit(s[6]) && IsDigit(s[7]) && IsDigit(s[8]) && IsDigit(s[9])
  }

  predicate TwoDigitsAt(t: string, p: nat) {
    p + 2 <= |t| && IsDigit(t[p]) && IsDigit(t[p + 1])
  }

  /** `\d{2}\/\d{2}\/\d{4}` at `p`. */
  function StrictDate(t: string, p: nat): (r: Option<nat>)
    ensures r.Some? ==> r.value == p + 10 <= |t| && IsDate(t[p..p + 10])
  {
    if p + 10 <= |t| && IsDate(t[p..p + 10]) then Some(p + 10) else None
  }

  /** `\d{2}\s*\/\s*\d{2}\s*\/\s*\d{4}` at `p`: a date with white space
      allowed around the slashes. */
  function SpacedDate(t: string, p: nat): (r: Option<nat>)
    ensures r.Some? ==> p < r.value <= |t| && IsDigit(t[p]) && IsDate(RemoveSpaces(t[p..r.value]))
  {
    if !TwoDigitsAt(t, p) then None
    else
      var a := SkipSpaces(t, p + 2);
      if !(a < |t| && t[a] == '/') then None
      else
        var b := SkipSpaces(t, a + 1);
        if !TwoDigitsAt(t, b) then None
        else
          var c := SkipSpaces(t, b + 2);
          if !(c < |t| && t[c] == '/') then None
          else
            var d := SkipSpaces(t, c + 1);
            if !(d + 4 <= |t| && AllDigits(t[d..d + 4])) then None
            else
              SpacedDateShape(t, p, a, b, c, d);
              Some(d + 4)
  }

  /** White space from `from` to `a`, then a slash at `a`. */
  predicate BlankThenSlash(t: string, from: nat, a: nat) {
    from <= a < |t| && t[a] == '/' && AllSpaces(t[from..a])
  }

  /** White space from `from` to `b`, then two digits at `b`. */
  predicate BlankThenTwoDigits(t: string, from: nat, b: nat) {
    from <= b && TwoDigitsAt(t, b) && AllSpaces(t[from..b])
  }

  /** White space from `from` to `d`, then four digits at `d`. */
  predicate BlankThenYear(t: string, from: nat, d: nat) {
    from <= d && d + 4 <= |t| && AllDigits(t[d..d + 4]) && AllSpaces(t[from..d])
  }

  /** Where the pieces of `\d{2}\s*\/\s*\d{2}\s*\/\s*\d{4}` lie: the day at
      `p`, the slashes at `a` and `c`, the month at `b` and the year at `d`,
      with nothing but white space between them. */
  predicate SpacedDateLayout(t: string, p: nat, a: nat, b: nat, c: nat, d: nat) {
    TwoDigitsAt(t, p) && BlankThenSlash(t, p + 2, a) && BlankThenTwoDigits(t, a + 1, b)
    && BlankThenSlash(t, b + 2, c) && BlankThenYear(t, c + 1, d)
  }

  /** A spaced date that matches is laid out as its grammar says: white
      space only around the slashes, never inside a digit group. */
  lemma SpacedDateHasLayout(t: string, p: nat)
    requires SpacedDate(t, p).Some?
    ensures exists a: nat, b: nat, c: nat, d: nat ::
      SpacedDateLayout(t, p, a, b, c, d) && SpacedDate(t, p).value == d + 4
  {
    DateDay(t, p);
    var a := SkipSpaces(t, p + 2);
    DateFirstSlash(t, p, a);
    var b := SkipSpaces(t, a + 1);
    DateMonth(t, p, a, b);
    var c := SkipSpaces(t, b + 2);
    DateSecondSlash(t, p, a, b, c);
    var d := SkipSpaces(t, c + 1);
    DateYear(t, p, a, b, c, d);
    assert SpacedDateLayout(t, p, a, b, c, d);
  }

  /** A spaced date that matches starts with the day's two digits. */
  lemma DateDay(t: string, p: nat)
    requires SpacedDate(t, p).Some?
    ensures TwoDigitsAt(t, p)
  {
  }

  /** Then white space and the first slash. */
  lemma DateFirstSlash(t: string, p: nat, a: nat)
    requires SpacedDate(t, p).Some? && p + 2 <= |t| && a == SkipSpaces(t, p + 2)
    ensures BlankThenSlash(t, p + 2, a)
  {
    SkippedSpaces(t, p + 2, a);
  }

  /** Then white space and the month's two digits. */
  lemma DateMonth(t: string, p: nat, a: nat, b: nat)
    requires SpacedDate(t, p).Some? && p + 2 <= |t| && a == SkipSpaces(t, p + 2)
    requires a < |t| && b == SkipSpaces(t, a + 1)
    ensures BlankThenTwoDigits(t, a + 1, b)
  {
    SkippedSpaces(t, a + 1, b);
  }

  /** Then white space and the second slash. */
  lemma DateSecondSlash(t: string, p: nat, a: nat, b: nat, c: nat)
    requires SpacedDate(t, p).Some? && p + 2 <= |t| && a == SkipSpaces(t, p + 2)
    requires a < |t| && b == SkipSpaces(t, a + 1)
    requires b + 2 <= |t| && c == SkipSpaces(t, b + 2)
    ensures BlankThenSlash(t, b + 2, c)
  {
    SkippedSpaces(t, b + 2, c);
  }

  /** Then white space and the year's four digits, where the match ends. */
  lemma DateYear(t: string, p: nat, a: nat, b: nat, c: nat, d: nat)
    requires SpacedDate(t, p).Some? && p + 2 <= |t| && a == SkipSpaces(t, p + 2)
    requires a < |t| && b == SkipSpaces(t, a + 1)
    requires b + 2 <= |t| && c == SkipSpaces(t, b + 2)
    requires c < |t| && d == SkipSpaces(t, c + 1)
    ensures BlankThenYear(t, c + 1, d) && SpacedDate(t, p).value == d + 4
  {
    SkippedSpaces(t, c + 1, d);
  }

  /** Conversely, every date laid out as the grammar says is matched, and
      the match ends after the year. */
  lemma SpacedDateComplete(t: string, p: nat, a: nat, b: nat, c: nat, d: nat)
    requires SpacedDateLayout(t, p, a, b, c, d)
    ensures SpacedDate(t, p) == Some(d + 4)
  {
    SlashStops(t, p + 2, a);
    TwoDigitsStop(t, a + 1, b);
    SlashStops(t, b + 2, c);
    YearStops(t, c + 1, d);
    SpacedDateAtPositions(t, p, a, b, c, d);
  }

  lemma SlashStops(t: string, from: nat, a: nat)
    requires BlankThenSlash(t, from, a)
    ensures SkipSpaces(t, from) == a
  {
    SkipSpacesStops(t, from, a);
  }

  lemma TwoDigitsStop(t: string, from: nat, b: nat)
    requires BlankThenTwoDigits(t, from, b)
    ensures SkipSpaces(t, from) == b
  {
    SkipSpacesStops(t, from, b);
  }

  lemma YearStops(t: string, from: nat, d: nat)
    requires BlankThenYear(t, from, d)
    ensures SkipSpaces(t, from) == d
  {
    assert IsDigit(t[d..d + 4][0]);
    SkipSpacesStops(t, from, d);
  }

  /** The scan of `SpacedDate`, once each `\s*` run is known to stop where it
      does. */
  lemma SpacedDateAtPositions(t: string, p: nat, a: nat, b: nat, c: nat, d: nat)
    requires TwoDigitsAt(t, p) && a == SkipSpaces(t, p + 2) && a < |t| && t[a] == '/'
    requires b == SkipSpaces(t, a + 1) && TwoDigitsAt(t, b)
    requires c == SkipSpaces(t, b + 2) && c < |t| && t[c] == '/'
    requires d == SkipSpaces(t, c + 1) && d + 4 <= |t| && AllDigits(t[d..d + 4])
    ensures SpacedDate(t, p) == Some(d + 4)
  {
  }

  lemma SpacedDateShape(t: string, p: nat, a: nat, b: nat, c: nat, d: nat)
    requires TwoDigitsAt(t, p) && a == SkipSpaces(t, p + 2) && a < |t| && t[a] == '/'
    requires b == SkipSpaces(t, a + 1) && TwoDigitsAt(t, b)
    requires c == SkipSpaces(t, b + 2) && c < |t| && t[c] == '/'
    requires d == SkipSpaces(t, c + 1) && d + 4 <= |t| && AllDigits(t[d..d + 4])
    ensures IsDate(RemoveSpaces(t[p..d + 4]))
  {
    SpacedDatePieces(t, p, a, b, c, d);
    DateFromPieces(t[p..p + 2], t[a..a + 1], t[b..b + 2], t[c..c + 1], t[d..d + 4]);
  }

  lemma SpacedDatePieces(t: string, p: nat, a: nat, b: nat, c: nat, d: nat)
    requires TwoDigitsAt(t, p) && a == SkipSpaces(t, p + 2) && a < |t| && t[a] == '/'
    requires b == SkipSpaces(t, a + 1) && TwoDigitsAt(t, b)
    requires c == SkipSpaces(t, b + 2) && c < |t| && t[c] == '/'
    requires d == SkipSpaces(t, c + 1) && d + 4 <= |t| && AllDigits(t[d..d + 4])
    ensures RemoveSpaces(t[p..d + 4]) == t[p..p + 2] + (t[a..a + 1] + (t[b..b + 2] + (t[c..c + 1] + t[d..d + 4])))
  {
    var e := d + 4;
    SlashThenYear(t, c, d);
    DigitsThen(t, b, c, e, t[c..c + 1] + t[d..e]);
    SlashThen(t, a, b, e, t[b..b + 2] + (t[c..c + 1] + t[d..e]));
    DigitsThen(t, p, a, e, t[a..a + 1] + (t[b..b + 2] + (t[c..c + 1] + t[d..e])));
  }

  /** The last slash of a spaced date and its year. */
  lemma SlashThenYear(t: string, c: nat, d: nat)
    requires c < |t| && t[c] == '/'
    requires d == SkipSpaces(t, c + 1) && d + 4 <= |t| && AllDigits(t[d..d + 4])
    ensures RemoveSpaces(t[c..d + 4]) == t[c..c + 1] + t[d..d + 4]
  {
    SlashSolid(t, c);
    DigitsKept(t[d..d + 4]);
    PieceThenSpaces(t, c, c + 1, d, d + 4);
  }

  /** Two digits, then the white space up to what follows. */
  lemma DigitsThen(t: string, p: nat, q: nat, e: nat, rest: string)
    requires TwoDigitsAt(t, p) && q == SkipSpaces(t, p + 2) && q <= e <= |t|
    requires RemoveSpaces(t[q..e]) == rest
    ensures RemoveSpaces(t[p..e]) == t[p..p + 2] + rest
  {
    TwoDigitsSolid(t, p);
    PieceThenSpaces(t, p, p + 2, q, e);
  }

  /** A slash, then the white space up to what follows. */
  lemma SlashThen(t: string, p: nat, q: nat, e: nat, rest: string)
    requires p < |t| && t[p] == '/' && q == SkipSpaces(t, p + 1) && q <= e <= |t|
    requires RemoveSpaces(t[q..e]) == rest
    ensures RemoveSpaces(t[p..e]) == t[p..p + 1] + rest
  {
    SlashSolid(t, p);
    PieceThenSpaces(t, p, p + 1, q, e);
  }

  lemma TwoDigitsSolid(t: string, p: nat)
    requires TwoDigitsAt(t, p)
    ensures NoSpaces(t[p..p + 2])
  {
    Solid(t, p, p + 2);
  }

  lemma SlashSolid(t: string, p: nat)
    requires p < |t| && t[p] == '/'
    ensures NoSpaces(t[p..p + 1])
  {
    Solid(t, p, p + 1);
  }

  /** A piece without white space, then the white space a `\s*` skips up to
      `next`: removing the white space keeps the piece and drops the run. */
  lemma PieceThenSpaces(t: string, lo: nat, mid: nat, next: nat, end: nat)
    requires lo <= mid <= end <= |t| && next == SkipSpaces(t, mid) && next <= end
    requires NoSpaces(t[lo..mid])
    ensures RemoveSpaces(t[lo..end]) == t[lo..mid] + RemoveSpaces(t[next..end])
  {
    SkippedIsBlank(t, mid);
    SolidThenBlank(t, lo, mid, next, end);
  }

  /** Removing the white space leaves digits as they are. */
  lemma DigitsKept(s: string)
    requires AllDigits(s)
    ensures RemoveSpaces(s) == s
  {
    assert NoSpaces(s) by {
      forall i | 0 <= i < |s| ensures !IsSpace(s[i]) { assert IsDigit(s[i]); }
    }
    RemoveSpacesOfNoSpaces(s);
  }

  /** Digits and slashes are not white space. */
  lemma Solid(t: string, lo: nat, hi: nat)
    requires lo <= hi <= |t|
    requires forall i :: lo <= i < hi ==> IsDigit(t[i]) || t[i] == '/'
    ensures NoSpaces(t[lo..hi])
  {
    forall i | 0 <= i < hi - lo ensures !IsSpace(t[lo..hi][i]) { assert t[lo..hi][i] == t[lo + i]; }
  }

  /** The white space a greedy `\s*` skipped. */
  lemma SkippedIsBlank(t: string, p: nat)
    requires p <= |t|
    ensures AllSpaces(t[p..SkipSpaces(t, p)])
  {
    var q := SkipSpaces(t, p);
    forall i | 0 <= i < q - p ensures IsSpace(t[p..q][i]) { assert t[p..q][i] == t[p + i]; }
  }

  lemma SolidThenBlank(t: string, lo: nat, mid: nat, hi: nat, end: nat)
    requires lo <= mid <= hi <= end <= |t|
    requires NoSpaces(t[lo..mid]) && AllSpaces(t[mid..hi])
    ensures RemoveSpaces(t[lo..end]) == t[lo..mid] + RemoveSpaces(t[hi..end])
  {
    assert t[lo..end] == t[lo..mid] + t[mid..hi] + t[hi..end];
    DropBlank(t[lo..mid], t[mid..hi], t[hi..end]);
    RemoveSpacesOfNoSpaces(t[lo..mid]);
  }

  lemma DateFromPieces(dd: string, s1: string, mm: string, s2: string, yyyy: string)
    requires |dd| == 2 && IsDigit(dd[0]) && IsDigit(dd[1])
    requires s1 == ['/'] && s2 == ['/']
    requires |mm| == 2 && IsDigit(mm[0]) && IsDigit(mm[1])
    requires |yyyy| == 4 && AllDigits(yyyy)
    ensures IsDate(dd + (s1 + (mm + (s2 + yyyy))))
  {
    var r := dd + (s1 + (mm + (s2 + yyyy)));
    assert r[0] == dd[0] && r[1] == dd[1] && r[2] == '/';
    assert r[3] == mm[0] && r[4] == mm[1] && r[5] == '/';
    assert r[6..] == yyyy;
  }

  /** Removing white space from `x + blank + y`, where `blank` is all white
      space, is removing it from `x + y`. */
  lemma DropBlank(x: string, blank: string, y: string)
    requires AllSpaces(blank)
    ensures RemoveSpaces(x + blank + y) == RemoveSpaces(x) + RemoveSpaces(y)
  {
    RemoveSpacesAppend(x + blank, y);
    RemoveSpacesAppend(x, blank);
    RemoveSpacesOfAllSpaces(blank);
  }

  lemma StrictDateIsSpacedDate(t: string, p: nat)
    requires StrictDate(t, p).Some?
    ensures SpacedDate(t, p).Some?
  {
    var s := t[p..p + 10];
    assert s[0] == t[p] && s[1] == t[p + 1] && s[2] == t[p + 2];
    assert SkipSpaces(t, p + 2) == p + 2;
    assert s[3] == t[p + 3] && s[4] == t[p + 4] && s[5] == t[p + 5];
    assert SkipSpaces(t, p + 3) == p + 3;
    assert SkipSpaces(t, p + 5) == p + 5;
    assert SkipSpaces(t, p + 6) == p + 6 by { assert s[6] == t[p + 6]; }
    assert t[p + 6..p + 10] == s[6..];
  }

  // ---------------------------------------------------------------------------
  // The customs code `DD DDD XXXX NNNNNN L`

  /** The three code grammars of the extractor. */
  datatype CodeKind =
    | LettersDigits  // `\d{2}\s+\d{3}\s+[A-Z]{2}\d{2}\s+\d{6}\s+[A-Z]`
    | Alphanumeric   // `\d{2}\s+\d{3}\s+[A-Z0-9]{4}\s+\d{6}\s+[A-Z]`
    | LooseSerial    // `\d{2}\s+\d{3}\s+[A-Z0-9]{4}\s+\d{5,7}\s+[A-Z]`

  predicate IsAlnum(c: char) {
    IsAsciiLetter(c) || IsDigit(c)
  }

  /** The four-character type code at `b`. */
  predicate TypeCodeAt(t: string, b: nat, kind: CodeKind) {
    b + 4 <= |t| &&
    if kind == LettersDigits then
      IsAsciiLetter(t[b]) && IsAsciiLetter(t[b + 1]) && IsDigit(t[b + 2]) && IsDigit(t[b + 3])
    else
      IsAlnum(t[b]) && IsAlnum(t[b + 1]) && IsAlnum(t[b + 2]) && IsAlnum(t[b + 3])
  }

  /** The code that starts exactly at `p`, without the surrounding `\b`s. */
  function Code(t: string, p: nat, kind: CodeKind): (r: Option<nat>)
    ensures r.Some? ==> p < r.value <= |t| && IsDigit(t[p])
  {
    if !TwoDigitsAt(t, p) then None
    else
      var a := SkipSpaces(t, p + 2);
      if !(a > p + 2 && a + 3 <= |t| && IsDigit(t[a]) && IsDigit(t[a + 1]) && IsDigit(t[a + 2])) then None
      else CodeFromType(t, a + 3, kind)
  }

  /** The rest of a code, from just after its three-digit group at `q`:
      white space, the type code, white space, the serial number, white
      space and the closing letter. */
  function CodeFromType(t: string, q: nat, kind: CodeKind): (r: Option<nat>)
    requires q <= |t|
    ensures r.Some? ==> q < r.value <= |t|
  {
    var b := SkipSpaces(t, q);
    if !(b > q && TypeCodeAt(t, b, kind)) then None
    else
      var c := SkipSpaces(t, b + 4);
      var d := DigitRun(t, c);
      var serial := d - c;
      var serialOk := if kind == LooseSerial then 5 <= serial <= 7 else serial == 6;
      if !(c > b + 4 && serialOk) then None
      else
        var e := SkipSpaces(t, d);
        if e > d && e < |t| && IsAsciiLetter(t[e]) then Some(e + 1) else None
  }

  /** A customs code as the record stores it: `DD DDD XXXX N… L`, the five
      groups joined by single spaces. */
  predicate TidyCode(s: string, kind: CodeKind) {
    var n := |s| - 14;
    |s| >= 14 &&
    (if kind == LooseSerial then 5 <= n <= 7 else n == 6) &&
    IsDigit(s[0]) && IsDigit(s[1]) && s[2] == ' ' &&
    IsDigit(s[3]) && IsDigit(s[4]) && IsDigit(s[5]) && s[6] == ' ' &&
    TypeCodeAt(s, 7, kind) && s[11] == ' ' &&
    AllDigits(s[12..12 + n]) && s[12 + n] == ' ' && IsAsciiLetter(s[13 + n])
  }

  /** A code that matches at `p` starts with two digits. */
  lemma CodeFirstGroup(t: string, p: nat, kind: CodeKind)
    requires Code(t, p, kind).Some?
    ensures TwoDigitsAt(t, p)
  {
  }

  /** Then white space and three digits. */
  lemma CodeSecondGroup(t: string, p: nat, kind: CodeKind, a: nat)
    requires Code(t, p, kind).Some? && p + 2 <= |t| && a == SkipSpaces(t, p + 2)
    ensures HeadAt(t, p, a)
  {
    SkippedSpaces(t, p + 2, a);
  }

  /** Then white space and the type code. */
  lemma CodeThirdGroup(t: string, p: nat, kind: CodeKind, a: nat, b: nat)
    requires Code(t, p, kind).Some? && p + 2 <= |t| && a == SkipSpaces(t, p + 2) && a + 3 <= |t|
    requires b == SkipSpaces(t, a + 3)
    ensures TypeAt(t, a, b, kind)
  {
    SkippedSpaces(t, a + 3, b);
  }

  /** Then white space and the serial number. */
  lemma CodeSerial(t: string, p: nat, kind: CodeKind, a: nat, b: nat, c: nat, d: nat)
    requires Code(t, p, kind).Some? && p + 2 <= |t| && a == SkipSpaces(t, p + 2) && a + 3 <= |t|
    requires b == SkipSpaces(t, a + 3) && b + 4 <= |t| && c == SkipSpaces(t, b + 4) && d == DigitRun(t, c)
    ensures SerialAt(t, b, c, d, kind)
  {
    SkippedSpaces(t, b + 4, c);
  }

  /** Then white space and the closing letter, where the match ends. */
  lemma CodeLetter(t: string, p: nat, kind: CodeKind, a: nat, b: nat, c: nat, d: nat, l: nat)
    requires Code(t, p, kind).Some? && p + 2 <= |t| && a == SkipSpaces(t, p + 2) && a + 3 <= |t|
    requires b == SkipSpaces(t, a + 3) && b + 4 <= |t| && c == SkipSpaces(t, b + 4) && d == DigitRun(t, c)
    requires d <= |t| && l == SkipSpaces(t, d)
    ensures LetterAt(t, d, l) && Code(t, p, kind).value == l + 1
  {
    SkippedSpaces(t, d, l);
  }

  /** The run `SkipSpaces` steps over is white space. */
  lemma SkippedSpaces(t: string, p: nat, q: nat)
    requires p <= |t| && q == SkipSpaces(t, p)
    ensures AllSpaces(t[p..q])
  {
    assert forall i :: 0 <= i < q - p ==> t[p..q][i] == t[p + i];
  }

  /** Two digits at `p`, white space, and three digits at `a`. */
  predicate HeadAt(t: string, p: nat, a: nat) {
    p + 2 < a && a + 3 <= |t| && TwoDigitsAt(t, p) && IsDigit(t[a]) && IsDigit(t[a + 1]) && IsDigit(t[a + 2])
    && AllSpaces(t[p + 2..a])
  }

  /** White space after the three digits at `a`, and the type code at `b`. */
  predicate TypeAt(t: string, a: nat, b: nat, kind: CodeKind) {
    a + 3 < b && TypeCodeAt(t, b, kind) && AllSpaces(t[a + 3..b])
  }

  /** White space after the type code at `b`, and the serial number from `c`
      to `d`. */
  predicate SerialAt(t: string, b: nat, c: nat, d: nat, kind: CodeKind) {
    b + 4 < c <= d <= |t| && AllDigits(t[c..d]) && (if kind == LooseSerial then 5 <= d - c <= 7 else d - c == 6)
    && AllSpaces(t[b + 4..c])
  }

  /** White space after the serial number, and the letter at `l`. */
  predicate LetterAt(t: string, d: nat, l: nat) {
    d < l < |t| && IsAsciiLetter(t[l]) && AllSpaces(t[d..l])
  }

  /** Where the five groups of a code and the runs between them lie: two
      digits at `p`, three at `a`, the type code at `b`, the serial number
      from `c` to `d` and the letter at `l`. */
  predicate CodeLayout(t: string, p: nat, a: nat, b: nat, c: nat, d: nat, l: nat, kind: CodeKind) {
    HeadAt(t, p, a) && TypeAt(t, a, b, kind) && SerialAt(t, b, c, d, kind) && LetterAt(t, d, l)
  }

  /** A code that matches at `p` is laid out as its grammar says. */
  lemma CodeHasLayout(t: string, p: nat, kind: CodeKind)
    requires Code(t, p, kind).Some?
    ensures exists a: nat, b: nat, c: nat, d: nat, l: nat ::
      CodeLayout(t, p, a, b, c, d, l, kind) && Code(t, p, kind).value == l + 1
  {
    CodeFirstGroup(t, p, kind);
    var a := SkipSpaces(t, p + 2);
    CodeSecondGroup(t, p, kind, a);
    var b := SkipSpaces(t, a + 3);
    CodeThirdGroup(t, p, kind, a, b);
    var c := SkipSpaces(t, b + 4);
    var d := DigitRun(t, c);
    CodeSerial(t, p, kind, a, b, c, d);
    var l := SkipSpaces(t, d);
    CodeLetter(t, p, kind, a, b, c, d, l);
    assert CodeLayout(t, p, a, b, c, d, l, kind);
  }

  /** Conversely, every code laid out as its grammar says is matched, and
      the match ends after its letter: the scanner finds exactly the codes
      of the grammar. */
  lemma CodeComplete(t: string, p: nat, a: nat, b: nat, c: nat, d: nat, l: nat, kind: CodeKind)
    requires CodeLayout(t, p, a, b, c, d, l, kind)
    ensures Code(t, p, kind) == Some(l + 1)
  {
    CodeTailComplete(t, a, b, c, d, l, kind);
    CodeHeadComplete(t, p, a, l + 1, kind);
  }

  /** A laid-out head, followed by a matching rest, is a match. */
  lemma CodeHeadComplete(t: string, p: nat, a: nat, e: nat, kind: CodeKind)
    requires HeadAt(t, p, a) && CodeFromType(t, a + 3, kind) == Some(e)
    ensures Code(t, p, kind) == Some(e)
  {
    HeadStops(t, p, a);
    CodeAtPositions(t, p, a, e, kind);
  }

  /** The rest of a laid-out code is matched from just after its three-digit
      group. */
  lemma CodeTailComplete(t: string, a: nat, b: nat, c: nat, d: nat, l: nat, kind: CodeKind)
    requires a + 3 <= |t| && TypeAt(t, a, b, kind) && SerialAt(t, b, c, d, kind) && LetterAt(t, d, l)
    ensures CodeFromType(t, a + 3, kind) == Some(l + 1)
  {
    TypeStops(t, a, b, kind);
    LetterStops(t, d, l);
    SerialStops(t, b, c, d, kind);
    CodeFromTypeAtPositions(t, a, b, c, d, l, kind);
  }

  /** The scan of `Code`, once the run after the day group is known to
      stop at `a` and the rest of the code to end at `e`. */
  lemma CodeAtPositions(t: string, p: nat, a: nat, e: nat, kind: CodeKind)
    requires TwoDigitsAt(t, p) && a == SkipSpaces(t, p + 2)
    requires a > p + 2 && a + 3 <= |t| && IsDigit(t[a]) && IsDigit(t[a + 1]) && IsDigit(t[a + 2])
    requires CodeFromType(t, a + 3, kind) == Some(e)
    ensures Code(t, p, kind) == Some(e)
  {
  }

  /** The scan of `CodeFromType`, once each run it skips is known to end
      where it does. */
  lemma CodeFromTypeAtPositions(t: string, a: nat, b: nat, c: nat, d: nat, l: nat, kind: CodeKind)
    requires a + 3 <= |t| && b == SkipSpaces(t, a + 3) && b > a + 3 && TypeCodeAt(t, b, kind)
    requires c == SkipSpaces(t, b + 4) && d == DigitRun(t, c) && c > b + 4
    requires if kind == LooseSerial then 5 <= d - c <= 7 else d - c == 6
    requires l == SkipSpaces(t, d) && d < l < |t| && IsAsciiLetter(t[l])
    ensures CodeFromType(t, a + 3, kind) == Some(l + 1)
  {
  }

  lemma HeadStops(t: string, p: nat, a: nat)
    requires HeadAt(t, p, a)
    ensures SkipSpaces(t, p + 2) == a
  {
    SkipSpacesStops(t, p + 2, a);
  }

  lemma TypeStops(t: string, a: nat, b: nat, kind: CodeKind)
    requires TypeAt(t, a, b, kind)
    ensures SkipSpaces(t, a + 3) == b
  {
    SkipSpacesStops(t, a + 3, b);
  }

  /** The serial number ends where the white space before the letter starts. */
  lemma SerialStops(t: string, b: nat, c: nat, d: nat, kind: CodeKind)
    requires SerialAt(t, b, c, d, kind) && d < |t| && IsSpace(t[d])
    ensures SkipSpaces(t, b + 4) == c && DigitRun(t, c) == d
  {
    SkipSpacesStops(t, b + 4, c);
    forall i | c <= i < d ensures IsDigit(t[i]) { assert t[c..d][i - c] == t[i]; }
    DigitRunStops(t, c, d);
  }

  lemma LetterStops(t: string, d: nat, l: nat)
    requires LetterAt(t, d, l)
    ensures SkipSpaces(t, d) == l && IsSpace(t[d])
  {
    SkipSpacesStops(t, d, l);
    assert t[d..l][0] == t[d];
  }

  /** Tidying a matched code keeps its groups and joins them by one space. */
  lemma CodeTidied(t: string, p: nat, kind: CodeKind)
    requires Code(t, p, kind).Some?
    ensures TidyCode(Tidied(t[p..Code(t, p, kind).value]), kind)
  {
    CodeHasLayout(t, p, kind);
    var a: nat, b: nat, c: nat, d: nat, l: nat :| CodeLayout(t, p, a, b, c, d, l, kind) && Code(t, p, kind).value == l + 1;
    GroupsTidied(t, p, a, b, c, d, l, Code(t, p, kind).value, kind);
  }

  /** The same, once the five groups and the runs between them are known. */
  lemma GroupsTidied(t: string, p: nat, a: nat, b: nat, c: nat, d: nat, l: nat, e: nat, kind: CodeKind)
    requires CodeLayout(t, p, a, b, c, d, l, kind) && e == l + 1
    ensures p < e <= |t| && TidyCode(Tidied(t[p..e]), kind)
  {
    CodeWords(t, p, a, b, c, d, l);
    CodeWordShapes(t, p, a, b, c, d, l, kind);
    var w1, w2, w3, w4, w5 := t[p..p + 2], t[a..a + 3], t[b..b + 4], t[c..d], t[l..l + 1];
    TidiedFiveWords(w1, t[p + 2..a], w2, t[a + 3..b], w3, t[b + 4..c], w4, t[d..l], w5);
    TidyCodeOf(w1, w2, w3, w4, w5, kind);
  }

  /** The matched text is its five groups and the four runs between them. */
  lemma CodeWords(t: string, p: nat, a: nat, b: nat, c: nat, d: nat, l: nat)
    requires p + 2 < a && a + 3 < b && b + 4 < c < d < l < |t|
    ensures t[p..l + 1] == t[p..p + 2] + t[p + 2..a] + (t[a..a + 3] + t[a + 3..b] + (t[b..b + 4] + t[b + 4..c] + (t[c..d] + t[d..l] + t[l..l + 1])))
  {
    assert t[c..l + 1] == t[c..d] + t[d..l] + t[l..l + 1];
    assert t[b..l + 1] == t[b..b + 4] + t[b + 4..c] + t[c..l + 1];
    assert t[a..l + 1] == t[a..a + 3] + t[a + 3..b] + t[b..l + 1];
    assert t[p..l + 1] == t[p..p + 2] + t[p + 2..a] + t[a..l + 1];
  }

  /** Each group has the shape its grammar demands and no white space. */
  lemma CodeWordShapes(t: string, p: nat, a: nat, b: nat, c: nat, d: nat, l: nat, kind: CodeKind)
    requires p + 2 < a && a + 3 < b && b + 4 < c < d < l < |t|
    requires TwoDigitsAt(t, p) && IsDigit(t[a]) && IsDigit(t[a + 1]) && IsDigit(t[a + 2])
    requires TypeCodeAt(t, b, kind) && IsAsciiLetter(t[l]) && AllDigits(t[c..d])
    ensures TwoDigitsAt(t[p..p + 2], 0) && NoSpaces(t[p..p + 2])
    ensures IsDigit(t[a..a + 3][0]) && IsDigit(t[a..a + 3][1]) && IsDigit(t[a..a + 3][2]) && NoSpaces(t[a..a + 3])
    ensures TypeCodeAt(t[b..b + 4], 0, kind) && NoSpaces(t[b..b + 4])
    ensures NoSpaces(t[c..d])
    ensures IsAsciiLetter(t[l..l + 1][0]) && NoSpaces(t[l..l + 1])
  {
  }

  /** Every code of the two strict grammars also reads as a loose one. */
  lemma TidyCodeLoosens(s: string, kind: CodeKind)
    requires TidyCode(s, kind)
    ensures TidyCode(s, LooseSerial)
  {
  }

  /** Five groups of the right shapes, joined by single spaces. */
  lemma TidyCodeOf(w1: string, w2: string, w3: string, w4: string, w5: string, kind: CodeKind)
    requires |w1| == 2 && TwoDigitsAt(w1, 0)
    requires |w2| == 3 && IsDigit(w2[0]) && IsDigit(w2[1]) && IsDigit(w2[2])
    requires |w3| == 4 && TypeCodeAt(w3, 0, kind)
    requires AllDigits(w4) && (if kind == LooseSerial then 5 <= |w4| <= 7 else |w4| == 6)
    requires |w5| == 1 && IsAsciiLetter(w5[0])
    ensures TidyCode(w1 + [' '] + (w2 + [' '] + (w3 + [' '] + (w4 + [' '] + w5))), kind)
  {
    var s := w1 + [' '] + (w2 + [' '] + (w3 + [' '] + (w4 + [' '] + w5)));
    var n := |w4|;
    assert s[7..] == w3 + [' '] + (w4 + [' '] + w5);
    assert s[12..] == w4 + [' '] + w5;
    assert s[12..12 + n] == w4;
  }
}
