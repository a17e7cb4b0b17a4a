/** `extractValorAduanaTotal`: the customs value is the sum of every amount
    labelled "Valor en Aduana en Dólar"; only when there is none are the
    amounts labelled "... en Divisa" summed instead. */
module Aggregator {
  import opened Optional
  import opened Text
  import opened Search
  import opened Numbers
  import opened Scanners
  import opened Patterns

  /** One match of a global pattern: where it starts and ends, and the
      amount it captured. */
  datatype Hit = Hit(start: nat, end: nat, amount: string)

  /** `Valor\s+en\s+Aduana\s+en\s+` */
  const ValorEnAduanaEn: seq<Atom> :=
    Word("Valor") + [Spaces] + Word("en") + [Spaces] + Word("Aduana") + [Spaces] + Word("en") + [Spaces]

  /** The two labels the customs value is read from. */
  const DolarLabel: seq<Atom> := ValorEnAduanaEn + Dolar
  const DivisaLabel: seq<Atom> := ValorEnAduanaEn + Word("Divisa")

  /** The match of `heading...(amount)` whose amount starts at `q`. */
  function AmountHit(t: string, p: nat, q: nat): (r: Option<Hit>)
    ensures r.Some? ==> r.value.start == p && q < r.value.end <= |t| && IsAmount(r.value.amount)
    ensures r.Some? ==> HasDigit(t)
  {
    match Amount(t, q)
    case None => None
    case Some(e) => assert IsDigit(t[q]); Some(Hit(p, e, t[q..e]))
  }

  /** `heading[\s\S]{1,50}?(amount)` at `p`. */
  function HitAt(t: string, p: nat, heading: seq<Atom>): (r: Option<Hit>)
    ensures r.Some? ==> r.value.start == p < r.value.end <= |t| && IsAmount(r.value.amount)
    ensures r.Some? ==> HasDigit(t)
  {
    match MatchAtoms(t, p, heading)
    case None => None
    case Some(e) => FirstIn(e + 1, e + 50, (q: nat) => AmountHit(t, p, q))
  }

  /** The match starting at each position. */
  function HitsOf(t: string, heading: seq<Atom>): nat -> Option<Hit> {
    (p: nat) => HitAt(t, p, heading)
  }

  // ---------------------------------------------------------------------------
  // `matchAll`, for any pattern `g` that reports the match starting at each
  // position of a text of length `n`

  /** Every match `g` reports starts where it was asked for and ends, after
      its start, inside the text. */
  ghost predicate Positioned(g: nat -> Option<Hit>, n: nat) {
    forall p: nat :: g(p).Some? ==> g(p).value.start == p < g(p).value.end <= n
  }

  lemma HitsPositioned(t: string, heading: seq<Atom>)
    ensures Positioned(HitsOf(t, heading), |t|)
  {
    forall p: nat | HitsOf(t, heading)(p).Some?
      ensures HitsOf(t, heading)(p).value.start == p < HitsOf(t, heading)(p).value.end <= |t|
    {
      assert HitsOf(t, heading)(p) == HitAt(t, p, heading);
    }
  }

  /** `g` reports no match starting at `lo`, ..., `hi - 1`. */
  predicate NoHitIn(g: nat -> Option<Hit>, lo: nat, hi: nat) {
    forall p: nat :: lo <= p < hi ==> g(p).None?
  }

  /** The leftmost match that starts at or after `from`. */
  function NextHit(g: nat -> Option<Hit>, n: nat, from: nat): (r: Option<Hit>)
    requires Positioned(g, n)
    ensures r.Some? ==> from <= r.value.start && g(r.value.start) == r
    ensures r.Some? ==> NoHitIn(g, from, r.value.start)
    ensures r.None? ==> NoHitIn(g, from, n + 1)
  {
    FirstIn(from, n, g)
  }

  /** `hits` are the matches `matchAll` reports when it starts at `from`:
      the first is a match at or after `from` with no match starting before
      it, the others are the matches from where it ends, and when there are
      none no match starts from `from` to the end of the text. */
  predicate Enumerates(g: nat -> Option<Hit>, n: nat, from: nat, hits: seq<Hit>)
    decreases |hits|
  {
    if hits == [] then NoHitIn(g, from, n + 1)
    else
      && from <= hits[0].start && g(hits[0].start) == Some(hits[0])
      && NoHitIn(g, from, hits[0].start)
      && Enumerates(g, n, hits[0].end, hits[1..])
  }

  /** Each match is the leftmost one at or after the end of the previous
      match. */
  function Matches(g: nat -> Option<Hit>, n: nat, from: nat): (r: seq<Hit>)
    requires from <= n && Positioned(g, n)
    ensures Enumerates(g, n, from, r)
    decreases n - from
  {
    match NextHit(g, n, from)
    case None => []
    case Some(h) =>
      var rest := Matches(g, n, h.end);
      assert ([h] + rest)[1..] == rest;
      [h] + rest
  }

  /** An enumeration starts with the leftmost match, and is empty exactly
      when there is none. */
  lemma EnumerationStartsLeftmost(g: nat -> Option<Hit>, n: nat, from: nat, hits: seq<Hit>)
    requires Positioned(g, n) && Enumerates(g, n, from, hits)
    ensures NextHit(g, n, from) == if hits == [] then None else Some(hits[0])
  {
    if hits != [] {
      FirstHitIsNext(g, n, from, hits[0]);
    }
  }

  lemma FirstHitIsNext(g: nat -> Option<Hit>, n: nat, from: nat, h: Hit)
    requires Positioned(g, n)
    requires from <= h.start && g(h.start) == Some(h) && NoHitIn(g, from, h.start)
    ensures NextHit(g, n, from) == Some(h)
  {
    var x := NextHit(g, n, from).value;
    if x.start < h.start {
      NoHitAt(g, from, h.start, x.start);
    } else if h.start < x.start {
      NoHitAt(g, from, x.start, h.start);
    }
  }

  lemma NoHitAt(g: nat -> Option<Hit>, lo: nat, hi: nat, p: nat)
    requires NoHitIn(g, lo, hi) && lo <= p < hi
    ensures g(p).None?
  {
  }

  /** Every element of an enumeration is a match, where it starts. */
  lemma {:induction false} EnumeratedAreMatches(g: nat -> Option<Hit>, n: nat, from: nat, hits: seq<Hit>)
    requires Enumerates(g, n, from, hits)
    ensures forall i :: 0 <= i < |hits| ==> g(hits[i].start) == Some(hits[i])
    decreases |hits|
  {
    if hits != [] {
      EnumeratedAreMatches(g, n, hits[0].end, hits[1..]);
      forall i | 0 < i < |hits| ensures g(hits[i].start) == Some(hits[i]) {
        assert hits[i] == hits[1..][i - 1];
      }
    }
  }

  /** The description determines the matches: two enumerations from the same
      place are equal. */
  lemma {:induction false} EnumerationUnique(g: nat -> Option<Hit>, n: nat, from: nat, a: seq<Hit>, b: seq<Hit>)
    requires Positioned(g, n)
    requires Enumerates(g, n, from, a) && Enumerates(g, n, from, b)
    ensures a == b
    decreases |a|
  {
    EnumerationStartsLeftmost(g, n, from, a);
    EnumerationStartsLeftmost(g, n, from, b);
    if a != [] {
      EnumerationUnique(g, n, a[0].end, a[1..], b[1..]);
      SameHeadSameTail(a, b);
    }
  }

  lemma SameHeadSameTail(a: seq<Hit>, b: seq<Hit>)
    requires a != [] && b != [] && a[0] == b[0] && a[1..] == b[1..]
    ensures a == b
  {
    assert a == [a[0]] + a[1..] && b == [b[0]] + b[1..];
  }

  // ---------------------------------------------------------------------------
  // The two customs-value patterns

  /** `Array.from(text.matchAll(regex))` */
  function AllHits(t: string, heading: seq<Atom>): (r: seq<Hit>)
    ensures Enumerates(HitsOf(t, heading), |t|, 0, r)
  {
    HitsPositioned(t, heading);
    Matches(HitsOf(t, heading), |t|, 0)
  }

  /** So `AllHits` is exactly the sequence of matches the description
      names. */
  lemma AllHitsIsTheEnumeration(t: string, heading: seq<Atom>, hits: seq<Hit>)
    requires Enumerates(HitsOf(t, heading), |t|, 0, hits)
    ensures AllHits(t, heading) == hits
  {
    HitsPositioned(t, heading);
    EnumerationUnique(HitsOf(t, heading), |t|, 0, AllHits(t, heading), hits);
  }

  /** `matches.reduce((sum, m) => sum + parseNumber(m[1]), 0)`, added from
      the first match to the last. */
  function SumAmounts(hits: seq<Hit>): real {
    if hits == [] then 0.0
    else SumAmounts(hits[..|hits| - 1]) + ParseNumber(hits[|hits| - 1].amount)
  }

  /** `extractValorAduanaTotal` */
  function ValorAduanaTotal(t: string): (r: real)
    ensures IsCents(r) && r >= 0.0
  {
    var dolar := AllHits(t, DolarLabel);
    if |dolar| > 0 then
      HitsAreAmounts(t, DolarLabel, dolar);
      SumOfAmountsIsCents(dolar);
      SumAmounts(dolar)
    else
      var divisa := AllHits(t, DivisaLabel);
      if |divisa| > 0 then
        HitsAreAmounts(t, DivisaLabel, divisa);
        SumOfAmountsIsCents(divisa);
        SumAmounts(divisa)
      else
        assert Cents(0) == 0.0;
        0.0
  }

  // ---------------------------------------------------------------------------
  // Lemmas

  /** Every enumerated match captured an amount. */
  lemma HitsAreAmounts(t: string, heading: seq<Atom>, hits: seq<Hit>)
    requires Enumerates(HitsOf(t, heading), |t|, 0, hits)
    ensures forall i :: 0 <= i < |hits| ==> IsAmount(hits[i].amount)
  {
    EnumeratedAreMatches(HitsOf(t, heading), |t|, 0, hits);
    forall i | 0 <= i < |hits| ensures IsAmount(hits[i].amount) {
      assert HitsOf(t, heading)(hits[i].start) == Some(hits[i]);
      assert HitAt(t, hits[i].start, heading) == Some(hits[i]);
    }
  }

  /** No match at all exactly when the global search returns nothing. */
  lemma AllHitsEmpty(t: string, heading: seq<Atom>)
    ensures AllHits(t, heading) == [] <==> forall p: nat :: p <= |t| ==> HitAt(t, p, heading).None?
  {
    var g := HitsOf(t, heading);
    var r := AllHits(t, heading);
    HitsPositioned(t, heading);
    assert forall p: nat :: g(p) == HitAt(t, p, heading);
    if r != [] {
      assert g(r[0].start) == Some(r[0]);
    }
  }

  /** A sum of amounts is a whole number of hundredths, and not negative. */
  lemma {:induction false} SumOfAmountsIsCents(hits: seq<Hit>)
    requires forall i :: 0 <= i < |hits| ==> IsAmount(hits[i].amount)
    ensures IsCents(SumAmounts(hits)) && SumAmounts(hits) >= 0.0
    decreases |hits|
  {
    if hits == [] {
      assert SumAmounts(hits) == Cents(0);
    } else {
      var init := hits[..|hits| - 1];
      SumOfAmountsIsCents(init);
      AmountIsCents(hits[|hits| - 1].amount);
      SumOfCents(SumAmounts(init), ParseNumber(hits[|hits| - 1].amount));
    }
  }

  /** Adding one more match adds its amount to the sum. */
  lemma SumAmountsSnoc(hits: seq<Hit>, h: Hit)
    ensures SumAmounts(hits + [h]) == SumAmounts(hits) + ParseNumber(h.amount)
  {
    assert (hits + [h])[..|hits|] == hits;
  }

  /** Whenever the dollar label matches, the total is the sum over its
      matches, whatever the "Divisa" amounts are. */
  lemma DolarMatchesDecide(t: string, p: nat)
    requires p <= |t| && HitAt(t, p, DolarLabel).Some?
    ensures ValorAduanaTotal(t) == SumAmounts(AllHits(t, DolarLabel))
  {
    AllHitsEmpty(t, DolarLabel);
  }

  /** The "Divisa" amounts are summed exactly when the dollar label matches
      nowhere. */
  lemma DivisaOnlyWithoutDolar(t: string)
    requires forall p: nat :: p <= |t| ==> HitAt(t, p, DolarLabel).None?
    ensures ValorAduanaTotal(t) == SumAmounts(AllHits(t, DivisaLabel))
  {
    AllHitsEmpty(t, DolarLabel);
  }

  /** Neither label: the total is zero. */
  lemma NoLabelNoValue(t: string)
    requires forall p: nat :: p <= |t| ==> HitAt(t, p, DolarLabel).None?
    requires forall p: nat :: p <= |t| ==> HitAt(t, p, DivisaLabel).None?
    ensures ValorAduanaTotal(t) == 0.0
  {
    AllHitsEmpty(t, DolarLabel);
    AllHitsEmpty(t, DivisaLabel);
  }

  /** A text without a single digit has no amount to sum. */
  lemma NoDigitNoValue(t: string)
    requires !HasDigit(t)
    ensures ValorAduanaTotal(t) == 0.0
  {
    NoLabelNoValue(t);
  }
}
