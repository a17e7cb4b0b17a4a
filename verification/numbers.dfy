/** The locale numeric parser: amounts written the Argentine way, with `.`
    grouping thousands and `,` as the decimal mark, read as exact decimals. */
module Numbers {
  import opened Optional
  import opened Text

  function Pow10(n: nat): (r: nat)
    ensures r >= 1
  {
    if n == 0 then 1 else 10 * Pow10(n - 1)
  }

  predicate AllDigits(s: string) {
    forall i :: 0 <= i < |s| ==> IsDigit(s[i])
  }

  /** Only digits and `.`: the integer part of an amount. */
  predicate DigitsAndDots(s: string) {
    forall i :: 0 <= i < |s| ==> IsDigit(s[i]) || s[i] == '.'
  }

  /** The natural number a string of decimal digits denotes. */
  function DigitsValue(s: string): (r: nat)
    requires AllDigits(s)
    ensures r < Pow10(|s|)
    decreases |s|
  {
    if s == [] then 0
    else 10 * DigitsValue(s[..|s| - 1]) + (s[|s| - 1] as int - '0' as int)
  }

  /** The digits of `s`, in order. */
  function Digits(s: string): (r: string)
    ensures AllDigits(r)
    ensures |r| <= |s|
  {
    if s == [] then []
    else (if IsDigit(s[0]) then [s[0]] else []) + Digits(s[1..])
  }

  /** `value.replace(/\./g, '')` */
  function RemoveDots(s: string): (r: string)
    ensures forall i :: 0 <= i < |r| ==> r[i] != '.' && r[i] in s
  {
    if s == [] then []
    else (if s[0] == '.' then [] else [s[0]]) + RemoveDots(s[1..])
  }

  /** `s.replace(a, b)` for a one-character string `a`: only the first
      occurrence is replaced. */
  function ReplaceFirst(s: string, a: char, b: char): (r: string)
    ensures |r| == |s|
    ensures forall i :: 0 <= i < |r| ==> r[i] in s || r[i] == b
  {
    if s == [] then []
    else if s[0] == a then [b] + s[1..]
    else [s[0]] + ReplaceFirst(s[1..], a, b)
  }

  /** The string `parseNumber` hands to `parseFloat`. */
  function Clean(v: string): (r: string)
    ensures '-' !in v ==> '-' !in r
  {
    ReplaceFirst(RemoveDots(v), ',', '.')
  }

  /** End of the maximal run of digits from `p`. */
  function DigitRun(s: string, p: nat): (q: nat)
    requires p <= |s|
    ensures p <= q <= |s|
    ensures AllDigits(s[p..q])
    ensures q == |s| || !IsDigit(s[q])
  {
    var q := Span(s, p, Digit);
    assert forall i :: p <= i < q ==> IsDigit(s[i]) by {
      forall i | p <= i < q ensures IsDigit(s[i]) { assert InClass(s[i], Digit); }
    }
    assert q < |s| ==> !InClass(s[q], Digit);
    q
  }

  function Scale(e: int): (r: real)
    ensures r > 0.0
  {
    if e >= 0 then Pow10(e) as real else 1.0 / Pow10(-e) as real
  }

  /** `n` hundredths, thousandths, ...: `n / 10^places`. */
  function Fraction(n: nat, places: nat): (r: real)
    ensures r >= 0.0
  {
    n as real / Pow10(places) as real
  }

  function Scaled(x: real, e: int): (r: real)
    requires x >= 0.0
    ensures r >= 0.0
  {
    x * Scale(e)
  }

  /** The optional exponent part `e[+-]digits` at `p`; 0 when absent. */
  function Exponent(s: string, p: nat): int
    requires p <= |s|
  {
    if p < |s| && (s[p] == 'e' || s[p] == 'E') then
      var q := p + 1;
      var d := if q < |s| && (s[q] == '+' || s[q] == '-') then q + 1 else q;
      var end := DigitRun(s, d);
      if end > d then
        var n := DigitsValue(s[d..end]);
        if s[q] == '-' then -(n as int) else n
      else 0
    else 0
  }

  /** `parseFloat`: the longest prefix of the string, after leading white
      space, that reads as a decimal literal (sign, digits, fraction,
      exponent), as an exact value; `None` where JavaScript gives NaN. */
  function ParseFloat(s: string): (r: Option<real>)
    ensures r.Some? && '-' !in s ==> r.value >= 0.0
  {
    var i := SkipSpaces(s, 0);
    var neg := i < |s| && s[i] == '-';
    var j := if i < |s| && (s[i] == '-' || s[i] == '+') then i + 1 else i;
    match Unsigned(s, j)
    case None => None
    case Some(m) => Some(if neg then -m else m)
  }

  /** The unsigned decimal literal at `j`: digits, an optional fraction and
      an optional exponent, with at least one digit before the exponent. */
  function Unsigned(s: string, j: nat): (r: Option<real>)
    requires j <= |s|
    ensures r.Some? ==> r.value >= 0.0
  {
    var k := DigitRun(s, j);
    var fs := if k < |s| && s[k] == '.' then k + 1 else k;
    var fe := DigitRun(s, fs);
    if k == j && fe == fs then None
    else Some(Scaled(Mantissa(s, j, k, fs, fe), Exponent(s, fe)))
  }

  /** The digits before and after the point, read as one decimal with
      `fe - fs` places. */
  function Mantissa(s: string, j: nat, k: nat, fs: nat, fe: nat): (r: real)
    requires j <= k <= |s| && fs <= fe <= |s| && AllDigits(s[j..k]) && AllDigits(s[fs..fe])
    ensures r >= 0.0
  {
    DigitsValueAppend(s[j..k], s[fs..fe]);
    Fraction(DigitsValue(s[j..k] + s[fs..fe]), fe - fs)
  }

  /** `parseNumber`: empty input is 0; otherwise drop every `.`, read the
      first `,` as the decimal point and parse; NaN becomes 0 (`|| 0`). */
  function ParseNumber(v: string): (r: real)
    ensures v == [] ==> r == 0.0
    ensures '-' !in v ==> r >= 0.0
  {
    if v == [] then 0.0
    else match ParseFloat(Clean(v))
      case None => 0.0
      case Some(x) => x
  }

  /** A whole number of hundredths. */
  function Cents(n: nat): real {
    n as real / 100.0
  }

  ghost predicate IsCents(x: real) {
    exists n: nat :: x == Cents(n)
  }

  /** The monetary amount grammar `\d{1,3}(\.\d{3})*,\d{2}`, read left to right. */
  ghost predicate IsAmount(s: string) {
    exists k :: 1 <= k <= 3 && k <= |s| && AllDigits(s[..k]) && IsGroupsThenCents(s[k..])
  }

  /** `(\.\d{3})*,\d{2}` */
  ghost predicate IsGroupsThenCents(s: string)
    decreases |s|
  {
    || (|s| == 3 && s[0] == ',' && IsDigit(s[1]) && IsDigit(s[2]))
    || (|s| >= 4 && s[0] == '.' && IsDigit(s[1]) && IsDigit(s[2]) && IsDigit(s[3])
        && IsGroupsThenCents(s[4..]))
  }

  /** The value an amount denotes: its digits, the last two being hundredths. */
  function AmountValue(s: string): real {
    Cents(DigitsValue(Digits(s)))
  }

  // ---------------------------------------------------------------------------
  // Lemmas

  lemma {:induction false} DigitsValueAppend(a: string, b: string)
    requires AllDigits(a) && AllDigits(b)
    ensures AllDigits(a + b)
    ensures DigitsValue(a + b) == DigitsValue(a) * Pow10(|b|) + DigitsValue(b)
    decreases |b|
  {
    assert AllDigits(a + b) by {
      forall i | 0 <= i < |a + b| ensures IsDigit((a + b)[i]) {
        if i < |a| { assert (a + b)[i] == a[i]; } else { assert (a + b)[i] == b[i - |a|]; }
      }
    }
    if b == [] {
      assert a + b == a;
    } else {
      var b' := b[..|b| - 1];
      var d := b[|b| - 1] as int - '0' as int;
      assert (a + b)[..|a + b| - 1] == a + b';
      assert (a + b)[|a + b| - 1] == b[|b| - 1];
      assert AllDigits(b');
      DigitsValueAppend(a, b');
      var x, y, p := DigitsValue(a), DigitsValue(b'), Pow10(|b'|);
      assert Pow10(|b|) == 10 * p;
      assert DigitsValue(b) == 10 * y + d;
      calc {
        DigitsValue(a + b);
        10 * DigitsValue(a + b') + d;
        10 * (x * p + y) + d;
        { MulTen(x, p); }
        x * (10 * p) + (10 * y + d);
        x * Pow10(|b|) + (10 * y + d);
      }
    }
  }

  lemma MulTen(x: int, p: int)
    ensures 10 * (x * p) == x * (10 * p)
  {
  }

  lemma {:induction false} DigitsAppend(x: string, y: string)
    ensures Digits(x + y) == Digits(x) + Digits(y)
    decreases |x|
  {
    if x == [] {
      assert x + y == y;
    } else {
      var h := if IsDigit(x[0]) then [x[0]] else [];
      assert (x + y)[0] == x[0];
      assert (x + y)[1..] == x[1..] + y;
      DigitsAppend(x[1..], y);
      assert Digits(x + y) == h + (Digits(x[1..]) + Digits(y));
      assert h + (Digits(x[1..]) + Digits(y)) == (h + Digits(x[1..])) + Digits(y);
    }
  }

  lemma {:induction false} RemoveDotsAppend(x: string, y: string)
    ensures RemoveDots(x + y) == RemoveDots(x) + RemoveDots(y)
    decreases |x|
  {
    if x == [] {
      assert x + y == y;
    } else {
      var h := if x[0] == '.' then [] else [x[0]];
      assert (x + y)[0] == x[0];
      assert (x + y)[1..] == x[1..] + y;
      RemoveDotsAppend(x[1..], y);
      assert RemoveDots(x + y) == h + (RemoveDots(x[1..]) + RemoveDots(y));
      assert h + (RemoveDots(x[1..]) + RemoveDots(y)) == (h + RemoveDots(x[1..])) + RemoveDots(y);
    }
  }

  /** On digits and dots, dropping the dots leaves exactly the digits. */
  lemma {:induction false} RemoveDotsLeavesDigits(x: string)
    requires DigitsAndDots(x)
    ensures RemoveDots(x) == Digits(x)
    decreases |x|
  {
    if x != [] {
      assert DigitsAndDots(x[1..]) by {
        forall i | 0 <= i < |x[1..]| ensures IsDigit(x[1..][i]) || x[1..][i] == '.' {
          assert x[1..][i] == x[i + 1];
        }
      }
      RemoveDotsLeavesDigits(x[1..]);
    }
  }

  lemma {:induction false} ReplaceFirstAt(x: string, y: string, a: char, b: char)
    requires a !in x
    ensures ReplaceFirst(x + [a] + y, a, b) == x + [b] + y
    decreases |x|
  {
    if x == [] {
      assert x + [a] + y == [a] + y;
    } else {
      assert (x + [a] + y)[0] == x[0];
      assert (x + [a] + y)[1..] == x[1..] + [a] + y;
      ReplaceFirstAt(x[1..], y, a, b);
    }
  }

  lemma {:induction false} ReplaceFirstAbsent(x: string, a: char, b: char)
    requires a !in x
    ensures ReplaceFirst(x, a, b) == x
    decreases |x|
  {
    if x != [] {
      assert a !in x[1..];
      ReplaceFirstAbsent(x[1..], a, b);
    }
  }

  lemma DigitRunStops(s: string, lo: nat, hi: nat)
    requires lo <= hi <= |s|
    requires forall i :: lo <= i < hi ==> IsDigit(s[i])
    requires hi == |s| || !IsDigit(s[hi])
    ensures DigitRun(s, lo) == hi
  {
    var q := DigitRun(s, lo);
    assert forall i :: lo <= i < q ==> IsDigit(s[i]) by {
      forall i | lo <= i < q ensures IsDigit(s[i]) { assert s[lo..q][i - lo] == s[i]; }
    }
  }

  /** With no leading white space or sign, `parseFloat` reads the unsigned
      literal at the start. */
  lemma ParseFloatFromDigit(s: string)
    requires |s| > 0 && IsDigit(s[0])
    ensures ParseFloat(s) == Unsigned(s, 0)
  {
    assert SkipSpaces(s, 0) == 0 by {
      assert !IsSpace(s[0]);
    }
  }

  lemma ScaledByOne(v: real)
    requires v >= 0.0
    ensures Scaled(v, 0) == v
  {
    assert Scale(0) == 1.0;
  }

  lemma UnsignedDecimal(da: string, db: string)
    requires |da| > 0 && AllDigits(da) && AllDigits(db)
    ensures AllDigits(da + db)
    ensures Unsigned(da + ['.'] + db, 0) == Some(Fraction(DigitsValue(da + db), |db|))
  {
    var s := da + ['.'] + db;
    var k := |da|;
    assert s[..k] == da && s[k] == '.' && s[k + 1..] == db;
    DigitsThenStop(s, 0, k);
    DigitsThenStop(s, k + 1, |s|);
    UnsignedWithoutExponent(s, 0, k, k + 1, |s|);
    assert s[0..k] == da && s[k + 1..|s|] == db;
  }

  /** The leading digits of `s` from `lo` run to `hi` when `s[lo..hi]` is
      all digits and no digit follows. */
  lemma DigitsThenStop(s: string, lo: nat, hi: nat)
    requires lo <= hi <= |s| && AllDigits(s[lo..hi])
    requires hi == |s| || !IsDigit(s[hi])
    ensures DigitRun(s, lo) == hi
  {
    forall i | lo <= i < hi ensures IsDigit(s[i]) { assert s[lo..hi][i - lo] == s[i]; }
    DigitRunStops(s, lo, hi);
  }

  /** A literal without an exponent denotes its digits over the number of
      fraction places. */
  lemma UnsignedWithoutExponent(s: string, j: nat, k: nat, fs: nat, fe: nat)
    requires j <= |s| && k == DigitRun(s, j)
    requires fs == (if k < |s| && s[k] == '.' then k + 1 else k)
    requires fe == DigitRun(s, fs) && (k > j || fe > fs) && Exponent(s, fe) == 0
    ensures AllDigits(s[j..k] + s[fs..fe])
    ensures Unsigned(s, j) == Some(Fraction(DigitsValue(s[j..k] + s[fs..fe]), fe - fs))
  {
    DigitsValueAppend(s[j..k], s[fs..fe]);
    UnsignedUnscaled(s, j, k, fs, fe);
    ScaledByOne(Mantissa(s, j, k, fs, fe));
  }

  lemma UnsignedUnscaled(s: string, j: nat, k: nat, fs: nat, fe: nat)
    requires j <= |s| && k == DigitRun(s, j)
    requires fs == (if k < |s| && s[k] == '.' then k + 1 else k)
    requires fe == DigitRun(s, fs) && (k > j || fe > fs) && Exponent(s, fe) == 0
    ensures Unsigned(s, j) == Some(Scaled(Mantissa(s, j, k, fs, fe), 0))
  {
  }

  /** No fraction places: the value is the whole number. */
  lemma WholeFraction(n: nat)
    ensures Fraction(n, 0) == n as real
  {
    assert Pow10(0) == 1;
  }

  /** `parseFloat` on `digits.digits` gives exactly that decimal. */
  lemma ParseFloatDecimal(da: string, db: string)
    requires |da| > 0 && AllDigits(da) && AllDigits(db)
    ensures AllDigits(da + db)
    ensures ParseFloat(da + ['.'] + db) == Some(Fraction(DigitsValue(da + db), |db|))
  {
    UnsignedDecimal(da, db);
    ParseFloatFromDigit(da + ['.'] + db);
  }

  lemma UnsignedInteger(da: string)
    requires |da| > 0 && AllDigits(da)
    ensures Unsigned(da, 0) == Some(DigitsValue(da) as real)
  {
    var k := |da|;
    assert da[0..k] == da;
    DigitsThenStop(da, 0, k);
    UnsignedWithoutExponent(da, 0, k, k, k);
    assert da[0..k] + da[k..k] == da;
    WholeFraction(DigitsValue(da));
  }

  /** `parseFloat` on a string of digits gives that integer. */
  lemma ParseFloatInteger(da: string)
    requires |da| > 0 && AllDigits(da)
    ensures ParseFloat(da) == Some(DigitsValue(da) as real)
  {
    UnsignedInteger(da);
    ParseFloatFromDigit(da);
  }

  /** Cleaning a number with one `,` leaves its digits around a `.`. */
  lemma CleanDecimal(a: string, b: string)
    requires DigitsAndDots(a) && DigitsAndDots(b)
    ensures Clean(a + [','] + b) == Digits(a) + ['.'] + Digits(b)
  {
    var s := a + [','] + b;
    RemoveDotsAppend(a + [','], b);
    RemoveDotsAppend(a, [',']);
    RemoveDotsLeavesDigits(a);
    RemoveDotsLeavesDigits(b);
    assert RemoveDots([',']) == [','];
    assert RemoveDots(s) == Digits(a) + [','] + Digits(b);
    assert ',' !in Digits(a) by {
      assert AllDigits(Digits(a));
    }
    ReplaceFirstAt(Digits(a), Digits(b), ',', '.');
  }

  lemma LeadingDigitKept(a: string)
    requires |a| > 0 && IsDigit(a[0])
    ensures Digits(a) != []
  {
    DigitsAppend([a[0]], a[1..]);
    assert [a[0]] + a[1..] == a;
  }

  /** A number written with digits and `.` and one `,` decimal mark is read as
      its digits with the dots removed and the comma as the decimal point. */
  lemma ParseNumberDecimal(a: string, b: string)
    requires |a| > 0 && IsDigit(a[0]) && DigitsAndDots(a) && DigitsAndDots(b)
    ensures ParseNumber(a + [','] + b)
      == Fraction(DigitsValue(Digits(a) + Digits(b)), |Digits(b)|)
  {
    CleanDecimal(a, b);
    LeadingDigitKept(a);
    ParseFloatDecimal(Digits(a), Digits(b));
  }

  /** A number with digits and `.` only is read as its digits. */
  lemma ParseNumberInteger(a: string)
    requires |a| > 0 && IsDigit(a[0]) && DigitsAndDots(a)
    ensures ParseNumber(a) == DigitsValue(Digits(a)) as real
  {
    RemoveDotsLeavesDigits(a);
    assert ',' !in Digits(a) by {
      assert AllDigits(Digits(a));
    }
    ReplaceFirstAbsent(Digits(a), ',', '.');
    LeadingDigitKept(a);
    ParseFloatInteger(Digits(a));
  }

  lemma {:induction false} GroupsThenCentsShape(s: string)
    requires IsGroupsThenCents(s)
    ensures |s| >= 3 && s[|s| - 3] == ','
    ensures DigitsAndDots(s[..|s| - 3])
    ensures IsDigit(s[|s| - 2]) && IsDigit(s[|s| - 1])
    decreases |s|
  {
    if |s| != 3 || s[0] != ',' {
      GroupsThenCentsShape(s[4..]);
      assert s[..|s| - 3] == s[..4] + s[4..][..|s[4..]| - 3];
    }
  }

  lemma AmountShape(s: string)
    requires IsAmount(s)
    ensures |s| >= 4 && IsDigit(s[0]) && s[|s| - 3] == ','
    ensures DigitsAndDots(s[..|s| - 3])
    ensures IsDigit(s[|s| - 2]) && IsDigit(s[|s| - 1])
  {
    var k :| 1 <= k <= 3 && k <= |s| && AllDigits(s[..k]) && IsGroupsThenCents(s[k..]);
    GroupsThenCentsShape(s[k..]);
    assert s[..|s| - 3] == s[..k] + s[k..][..|s[k..]| - 3];
    assert s[0] == s[..k][0];
  }

  /** An amount in the grammar `\d{1,3}(\.\d{3})*,\d{2}` parses to its exact
      value: the digits with every `.` removed and the comma as decimal point. */
  lemma ParseNumberAmount(s: string)
    requires IsAmount(s)
    ensures ParseNumber(s) == AmountValue(s)
  {
    AmountShape(s);
    var a := s[..|s| - 3];
    var b := s[|s| - 2..];
    assert s[|s| - 3..] == [','] + b;
    assert s == a + s[|s| - 3..];
    assert s == a + [','] + b;
    TwoDigits(b);
    ParseNumberDecimal(a, b);
    DigitsAroundComma(a, b);
    CentsAreHundredths(DigitsValue(Digits(s)));
  }

  /** A string of digits keeps all of them. */
  lemma {:induction false} DigitsOfAllDigits(b: string)
    requires AllDigits(b)
    ensures DigitsAndDots(b) && Digits(b) == b
    decreases |b|
  {
    if b != [] {
      assert AllDigits(b[1..]) by {
        forall i | 0 <= i < |b[1..]| ensures IsDigit(b[1..][i]) { assert b[1..][i] == b[i + 1]; }
      }
      DigitsOfAllDigits(b[1..]);
      assert b == [b[0]] + b[1..];
    }
  }

  lemma TwoDigits(b: string)
    requires |b| == 2 && IsDigit(b[0]) && IsDigit(b[1])
    ensures DigitsAndDots(b) && Digits(b) == b
  {
    assert b == [b[0]] + [b[1]];
    assert b[1..] == [b[1]];
    assert b[1..][1..] == [];
  }

  lemma DigitsAroundComma(a: string, b: string)
    ensures Digits(a + [','] + b) == Digits(a) + Digits(b)
  {
    DigitsAppend(a + [','], b);
    DigitsAppend(a, [',']);
    assert Digits([',']) == [];
  }

  lemma CentsAreHundredths(n: nat)
    ensures Fraction(n, 2) == Cents(n)
  {
    assert Pow10(2) == 100;
  }

  lemma AmountIsCents(s: string)
    requires IsAmount(s)
    ensures IsCents(ParseNumber(s))
  {
    ParseNumberAmount(s);
  }

  lemma SumOfCents(x: real, y: real)
    requires IsCents(x) && IsCents(y)
    ensures IsCents(x + y)
  {
    var n: nat :| x == Cents(n);
    var m: nat :| y == Cents(m);
    assert x + y == Cents(n + m);
  }

  /** A worked value of the Argentine format: "1.474,50" is 1474.5. */
  lemma ParseNumberThousandsExample()
    ensures ParseNumber("1.474,50") == 1474.5
  {
    var a, b := "1.474", "50";
    assert a + [','] + b == "1.474,50";
    ExampleDigits();
    ExampleValue();
    assert DigitsAndDots(a) && DigitsAndDots(b);
    ParseNumberDecimal(a, b);
    CentsAreHundredths(147450);
  }

  lemma ExampleDigits()
    ensures Digits("1.474") + Digits("50") == "147450"
    ensures |Digits("50")| == 2
  {
    ExampleIntegerDigits();
    ExampleCentsDigits();
  }

  lemma ExampleIntegerDigits()
    ensures Digits("1.474") == "1474"
  {
    assert Digits("4") == "4" by { assert "4"[1..] == ""; }
    assert Digits("74") == "74" by { assert "74"[1..] == "4"; }
    assert Digits("474") == "474" by { assert "474"[1..] == "74"; }
    assert Digits(".474") == "474" by { assert ".474"[1..] == "474"; }
    assert "1.474"[1..] == ".474";
  }

  lemma ExampleCentsDigits()
    ensures Digits("50") == "50"
  {
    assert Digits("0") == "0" by { assert "0"[1..] == ""; }
    assert "50"[1..] == "0";
  }

  lemma ExampleValue()
    ensures DigitsValue("147450") == 147450
  {
    assert DigitsValue("1") == 1 by { assert "1"[..0] == ""; }
    assert DigitsValue("14") == 14 by { assert "14"[..1] == "1"; }
    assert DigitsValue("147") == 147 by { assert "147"[..2] == "14"; }
    assert DigitsValue("1474") == 1474 by { assert "1474"[..3] == "147"; }
    assert DigitsValue("14745") == 14745 by { assert "14745"[..4] == "1474"; }
    assert "147450"[..5] == "14745";
  }

  /** Text that is not a number parses to 0. */
  lemma ParseNumberNotANumberExample()
    ensures ParseNumber("abc") == 0.0
  {
    assert RemoveDots("abc") == "abc";
    assert ReplaceFirst("abc", ',', '.') == "abc";
    var abc := Clean("abc");
    assert SkipSpaces(abc, 0) == 0 by { assert !IsSpace(abc[0]); }
    assert DigitRun(abc, 0) == 0;
  }
}
