/** The string clean-ups the extractor applies to captured text:
    `replace(/\s+/g, ' ')`, `trim()`, `replace(/\s/g, '')` and `substring`. */
module Normalize {
  import opened Text

  /** Every white-space character is a plain space and none is followed by
      another: the shape `replace(/\s+/g, ' ')` leaves. */
  predicate SingleSpaced(s: string) {
    forall i :: 0 <= i < |s| && IsSpace(s[i]) ==> s[i] == ' ' && (i + 1 < |s| ==> !IsSpace(s[i + 1]))
  }

  /** No white space at either end: the shape `trim()` leaves. */
  predicate Trimmed(s: string) {
    s == [] || (!IsSpace(s[0]) && !IsSpace(s[|s| - 1]))
  }

  /** A name as it should appear in the record. */
  predicate Tidy(s: string) {
    SingleSpaced(s) && Trimmed(s)
  }

  /** `s.replace(/\s/g, '')` */
  function RemoveSpaces(s: string): (r: string)
    ensures NoSpaces(r)
    ensures |r| <= |s|
  {
    if s == [] then []
    else (if IsSpace(s[0]) then [] else [s[0]]) + RemoveSpaces(s[1..])
  }

  /** `s.replace(/\s+/g, ' ')`: each maximal run of white space becomes one
      space (`CollapseSound`, `CollapseJoinsWords`). */
  function Collapse(s: string): (r: string)
    ensures |r| <= |s|
    ensures |r| == 0 <==> |s| == 0
    ensures |s| > 0 ==> (IsSpace(r[0]) <==> IsSpace(s[0]))
    decreases |s|
  {
    if s == [] then []
    else if IsSpace(s[0]) then [' '] + Collapse(s[SkipSpaces(s, 0)..])
    else [s[0]] + Collapse(s[1..])
  }

  /** The collapse leaves no doubled and no other white space than plain
      spaces, and keeps every other character in order. */
  lemma {:induction false} CollapseSound(s: string)
    ensures SingleSpaced(Collapse(s))
    ensures RemoveSpaces(Collapse(s)) == RemoveSpaces(s)
    decreases |s|
  {
    if s != [] {
      if IsSpace(s[0]) {
        var k := SkipSpaces(s, 0);
        var rest := s[k..];
        CollapseSound(rest);
        assert s == s[..k] + rest;
        RemoveSpacesOfBlank(s[..k], rest);
        var r := [' '] + Collapse(rest);
        assert r[1..] == Collapse(rest);
        forall i | 0 <= i < |r| && IsSpace(r[i])
          ensures r[i] == ' ' && (i + 1 < |r| ==> !IsSpace(r[i + 1]))
        {
          if i > 0 { assert r[i] == Collapse(rest)[i - 1]; }
          if i + 1 < |r| { assert r[i + 1] == Collapse(rest)[i]; }
        }
      } else {
        CollapseSound(s[1..]);
        assert RemoveSpaces(s) == [s[0]] + RemoveSpaces(s[1..]);
        var r := [s[0]] + Collapse(s[1..]);
        assert r[1..] == Collapse(s[1..]);
        forall i | 0 <= i < |r| && IsSpace(r[i])
          ensures r[i] == ' ' && (i + 1 < |r| ==> !IsSpace(r[i + 1]))
        {
          assert r[i] == Collapse(s[1..])[i - 1];
          if i + 1 < |r| { assert r[i + 1] == Collapse(s[1..])[i]; }
        }
      }
    }
  }

  /** `s.trim()` */
  function Trim(s: string): (r: string)
    ensures Trimmed(r)
    ensures exists i, j :: 0 <= i <= j <= |s| && r == s[i..j] && AllSpaces(s[..i]) && AllSpaces(s[j..])
  {
    var i := SkipSpaces(s, 0);
    var j := TrailingSpaces(s, i);
    assert AllSpaces(s[..i]);
    s[i..j]
  }

  /** Start of the white space that ends `s`, not before `i`. */
  function TrailingSpaces(s: string, i: nat): (j: nat)
    requires i <= |s|
    requires i == |s| || !IsSpace(s[i])
    ensures i <= j <= |s|
    ensures AllSpaces(s[j..])
    ensures j == i || !IsSpace(s[j - 1])
    decreases |s|
  {
    if |s| > i && IsSpace(s[|s| - 1]) then
      var j := TrailingSpaces(s[..|s| - 1], i);
      assert s[j..] == s[..|s| - 1][j..] + [s[|s| - 1]];
      j
    else
      |s|
  }

  /** `s.substring(0, n)` */
  function Take(s: string, n: nat): (r: string)
    ensures |r| <= n && r <= s
    ensures |s| <= n ==> r == s
    ensures |s| > n ==> |r| == n
  {
    if |s| <= n then s else s[..n]
  }

  /** `.replace(/\s+/g, ' ').trim()`, applied to the seller name and the
      customs code. */
  function Tidied(s: string): (r: string)
    ensures Tidy(r)
    ensures RemoveSpaces(r) == RemoveSpaces(s)
  {
    var c := Collapse(s);
    CollapseSound(s);
    var r := Trim(c);
    SliceSingleSpaced(c, r);
    TrimKeepsNonSpaces(c);
    r
  }

  /** The importer name exactly as the source computes it:
      `.replace(/\s+/g, ' ').trim().substring(0, 100)`. */
  function ImporterAsWritten(s: string): (r: string)
    ensures |r| <= 100
    ensures SingleSpaced(r)
    ensures r != [] ==> !IsSpace(r[0])
    ensures r <= Tidied(s)
    ensures |Tidied(s)| <= 100 ==> r == Tidied(s)
    ensures |Tidied(s)| > 100 ==> |r| == 100
  {
    var t := Tidied(s);
    var r := Take(t, 100);
    assert r == t[0..|r|];
    SliceSingleSpaced(t, r);
    assert r != [] ==> r[0] == t[0];
    r
  }

  /** The importer name as evidently intended: also trimmed after the cut at
      100 characters, so that the cut cannot leave a trailing space. */
  function ImporterName(s: string): (r: string)
    ensures |r| <= 100
    ensures Tidy(r)
    ensures r <= ImporterAsWritten(s) && |ImporterAsWritten(s)| <= |r| + 1
    ensures |r| == |ImporterAsWritten(s)| <==> Trimmed(ImporterAsWritten(s))
    ensures |Tidied(s)| <= 100 ==> r == Tidied(s)
  {
    var t := ImporterAsWritten(s);
    var r := Trim(t);
    SliceSingleSpaced(t, r);
    TrimOfLeftTrimmed(t);
    TrimKeepsTrimmed(Tidied(s));
    if Trimmed(t) then TrimKeepsTrimmed(t); r else r
  }

  // ---------------------------------------------------------------------------
  // Lemmas

  lemma {:induction false} RemoveSpacesAppend(x: string, y: string)
    ensures RemoveSpaces(x + y) == RemoveSpaces(x) + RemoveSpaces(y)
    decreases |x|
  {
    if x == [] {
      assert x + y == y;
    } else {
      var h := if IsSpace(x[0]) then [] else [x[0]];
      assert (x + y)[0] == x[0];
      assert (x + y)[1..] == x[1..] + y;
      RemoveSpacesAppend(x[1..], y);
      assert RemoveSpaces(x + y) == h + (RemoveSpaces(x[1..]) + RemoveSpaces(y));
      assert h + (RemoveSpaces(x[1..]) + RemoveSpaces(y)) == (h + RemoveSpaces(x[1..])) + RemoveSpaces(y);
    }
  }

  lemma {:induction false} RemoveSpacesOfAllSpaces(x: string)
    requires AllSpaces(x)
    ensures RemoveSpaces(x) == []
    decreases |x|
  {
    if x != [] {
      assert AllSpaces(x[1..]) by {
        forall i | 0 <= i < |x[1..]| ensures IsSpace(x[1..][i]) { assert x[1..][i] == x[i + 1]; }
      }
      RemoveSpacesOfAllSpaces(x[1..]);
    }
  }

  lemma {:induction false} RemoveSpacesOfNoSpaces(x: string)
    requires NoSpaces(x)
    ensures RemoveSpaces(x) == x
    decreases |x|
  {
    if x != [] {
      assert NoSpaces(x[1..]) by {
        forall i | 0 <= i < |x[1..]| ensures !IsSpace(x[1..][i]) { assert x[1..][i] == x[i + 1]; }
      }
      RemoveSpacesOfNoSpaces(x[1..]);
    }
  }

  lemma RemoveSpacesOfBlank(blank: string, rest: string)
    requires AllSpaces(blank)
    ensures RemoveSpaces(blank + rest) == RemoveSpaces(rest)
  {
    RemoveSpacesAppend(blank, rest);
    RemoveSpacesOfAllSpaces(blank);
  }

  lemma SliceSingleSpaced(s: string, r: string)
    requires SingleSpaced(s)
    requires exists i, j :: 0 <= i <= j <= |s| && r == s[i..j]
    ensures SingleSpaced(r)
  {
    var i, j :| 0 <= i <= j <= |s| && r == s[i..j];
    forall k | 0 <= k < |r| && IsSpace(r[k])
      ensures r[k] == ' ' && (k + 1 < |r| ==> !IsSpace(r[k + 1]))
    {
      assert r[k] == s[i + k];
      if k + 1 < |r| {
        assert r[k + 1] == s[i + k + 1];
      }
    }
  }

  /** Trimming removes white space only. */
  lemma TrimKeepsNonSpaces(s: string)
    ensures RemoveSpaces(Trim(s)) == RemoveSpaces(s)
  {
    var i := SkipSpaces(s, 0);
    var j := TrailingSpaces(s, i);
    assert AllSpaces(s[..i]);
    assert s == s[..i] + (s[i..j] + s[j..]);
    RemoveSpacesAppend(s[..i], s[i..j] + s[j..]);
    RemoveSpacesAppend(s[i..j], s[j..]);
    RemoveSpacesOfAllSpaces(s[..i]);
    RemoveSpacesOfAllSpaces(s[j..]);
  }

  /** A single-spaced string that starts with no white space loses at most
      its last character to the trim. */
  lemma TrimOfLeftTrimmed(s: string)
    requires SingleSpaced(s)
    requires s != [] ==> !IsSpace(s[0])
    ensures Trim(s) <= s && |s| <= |Trim(s)| + 1
  {
    if s != [] {
      assert SkipSpaces(s, 0) == 0;
      var j := TrailingSpaces(s, 0);
      assert forall k :: j <= k < |s| ==> IsSpace(s[k]) by {
        forall k | j <= k < |s| ensures IsSpace(s[k]) { assert s[j..][k - j] == s[k]; }
      }
      assert Trim(s) == s[..j];
      NoTwoSpaces(s, j);
    }
  }

  lemma NoTwoSpaces(s: string, k: nat)
    requires SingleSpaced(s)
    ensures k + 1 < |s| ==> !(IsSpace(s[k]) && IsSpace(s[k + 1]))
  {
  }

  /** The white space before the first non-space character of `x` is skipped
      the same way whatever follows `x`. */
  lemma SkipSpacesExtend(x: string, y: string)
    requires SkipSpaces(x, 0) < |x|
    ensures SkipSpaces(x + y, 0) == SkipSpaces(x, 0)
  {
    var k := SkipSpaces(x, 0);
    var q := SkipSpaces(x + y, 0);
    assert (x + y)[k] == x[k];
  }

  /** A run of white space before a non-space character, or before the end,
      is skipped whole. */
  lemma SkipSpacesRun(b: string, y: string)
    requires AllSpaces(b)
    requires y == [] || !IsSpace(y[0])
    ensures SkipSpaces(b + y, 0) == |b|
  {
    var q := SkipSpaces(b + y, 0);
    assert forall k :: 0 <= k < |b| ==> (b + y)[k] == b[k];
    assert y != [] ==> (b + y)[|b|] == y[0];
  }

  /** The collapse works piece by piece across a non-space character. */
  lemma {:induction false} CollapseAppend(x: string, y: string)
    requires x != [] && !IsSpace(x[|x| - 1])
    ensures Collapse(x + y) == Collapse(x) + Collapse(y)
    decreases |x|
  {
    if IsSpace(x[0]) {
      var k := SkipSpaces(x, 0);
      CollapseAppend(x[k..], y);
      CollapseAppendAfterSpaces(x, y, k);
    } else if |x| == 1 {
      CollapseAppendOneChar(x, y);
    } else {
      CollapseAppend(x[1..], y);
      CollapseAppendAfterChar(x, y);
    }
  }

  lemma CollapseAppendAfterSpaces(x: string, y: string, k: nat)
    requires x != [] && IsSpace(x[0]) && k == SkipSpaces(x, 0) && k < |x|
    requires Collapse(x[k..] + y) == Collapse(x[k..]) + Collapse(y)
    ensures Collapse(x + y) == Collapse(x) + Collapse(y)
  {
    assert (x + y)[0] == x[0];
    calc {
      Collapse(x + y);
      { CollapseAtSpace(x + y); SkipSpacesExtend(x, y); assert (x + y)[k..] == x[k..] + y; }
      [' '] + Collapse(x[k..] + y);
      [' '] + (Collapse(x[k..]) + Collapse(y));
      { Associative([' '], Collapse(x[k..]), Collapse(y)); }
      ([' '] + Collapse(x[k..])) + Collapse(y);
      { CollapseAtSpace(x); }
      Collapse(x) + Collapse(y);
    }
  }

  lemma CollapseAppendAfterChar(x: string, y: string)
    requires |x| > 1 && !IsSpace(x[0])
    requires Collapse(x[1..] + y) == Collapse(x[1..]) + Collapse(y)
    ensures Collapse(x + y) == Collapse(x) + Collapse(y)
  {
    assert (x + y)[0] == x[0];
    calc {
      Collapse(x + y);
      { CollapseAtNonSpace(x + y); assert (x + y)[1..] == x[1..] + y; }
      [x[0]] + Collapse(x[1..] + y);
      [x[0]] + (Collapse(x[1..]) + Collapse(y));
      { Associative([x[0]], Collapse(x[1..]), Collapse(y)); }
      ([x[0]] + Collapse(x[1..])) + Collapse(y);
      { CollapseAtNonSpace(x); }
      Collapse(x) + Collapse(y);
    }
  }

  lemma CollapseAppendOneChar(x: string, y: string)
    requires |x| == 1 && !IsSpace(x[0])
    ensures Collapse(x + y) == Collapse(x) + Collapse(y)
  {
    assert (x + y)[0] == x[0] && (x + y)[1..] == y;
    CollapseAtNonSpace(x + y);
    CollapseAtNonSpace(x);
    assert x[1..] == [];
  }

  lemma Associative(a: string, b: string, c: string)
    ensures a + (b + c) == (a + b) + c
  {
  }

  lemma CollapseAtSpace(s: string)
    requires s != [] && IsSpace(s[0])
    ensures Collapse(s) == [' '] + Collapse(s[SkipSpaces(s, 0)..])
  {
  }

  lemma CollapseAtNonSpace(s: string)
    requires s != [] && !IsSpace(s[0])
    ensures Collapse(s) == [s[0]] + Collapse(s[1..])
  {
  }

  /** A run of white space, however long and whatever its characters,
      becomes one plain space. */
  lemma CollapseRun(b: string, y: string)
    requires b != [] && AllSpaces(b)
    requires y == [] || !IsSpace(y[0])
    ensures Collapse(b + y) == [' '] + Collapse(y)
  {
    SkipSpacesRun(b, y);
    assert (b + y)[0] == b[0];
    assert (b + y)[|b|..] == y;
  }

  /** Two words separated by white space are collapsed separately and joined
      by exactly one space. */
  lemma CollapseJoinsWords(x: string, b: string, y: string)
    requires x != [] && !IsSpace(x[|x| - 1])
    requires b != [] && AllSpaces(b)
    requires y == [] || !IsSpace(y[0])
    ensures Collapse(x + b + y) == Collapse(x) + [' '] + Collapse(y)
  {
    calc {
      Collapse(x + b + y);
      { assert x + b + y == x + (b + y); }
      Collapse(x + (b + y));
      { CollapseAppend(x, b + y); }
      Collapse(x) + Collapse(b + y);
      { CollapseRun(b, y); }
      Collapse(x) + ([' '] + Collapse(y));
      Collapse(x) + [' '] + Collapse(y);
    }
  }

  /** A word without white space, then a run of white space: the word is
      kept and the run becomes one space. */
  lemma CollapseWordThen(w: string, b: string, y: string)
    requires w != [] && NoSpaces(w)
    requires b != [] && AllSpaces(b)
    requires y == [] || !IsSpace(y[0])
    ensures Collapse(w + b + y) == w + [' '] + Collapse(y)
  {
    CollapseJoinsWords(w, b, y);
    CollapseKeepsSingleSpaced(w);
  }

  /** Five words separated by runs of white space are tidied to the words
      joined by single spaces. */
  lemma TidiedFiveWords(w1: string, b1: string, w2: string, b2: string, w3: string,
                        b3: string, w4: string, b4: string, w5: string)
    requires w1 != [] && NoSpaces(w1) && w2 != [] && NoSpaces(w2) && w3 != [] && NoSpaces(w3)
    requires w4 != [] && NoSpaces(w4) && w5 != [] && NoSpaces(w5)
    requires b1 != [] && AllSpaces(b1) && b2 != [] && AllSpaces(b2)
    requires b3 != [] && AllSpaces(b3) && b4 != [] && AllSpaces(b4)
    ensures Tidied(w1 + b1 + (w2 + b2 + (w3 + b3 + (w4 + b4 + w5)))) ==
      w1 + [' '] + (w2 + [' '] + (w3 + [' '] + (w4 + [' '] + w5)))
  {
    CollapseFiveWords(w1, b1, w2, b2, w3, b3, w4, b4, w5);
    var s := w1 + [' '] + (w2 + [' '] + (w3 + [' '] + (w4 + [' '] + w5)));
    assert s[0] == w1[0];
    assert s[|s| - 1] == w5[|w5| - 1];
    TrimKeepsTrimmed(s);
  }

  lemma CollapseFiveWords(w1: string, b1: string, w2: string, b2: string, w3: string,
                          b3: string, w4: string, b4: string, w5: string)
    requires w1 != [] && NoSpaces(w1) && w2 != [] && NoSpaces(w2) && w3 != [] && NoSpaces(w3)
    requires w4 != [] && NoSpaces(w4) && w5 != [] && NoSpaces(w5)
    requires b1 != [] && AllSpaces(b1) && b2 != [] && AllSpaces(b2)
    requires b3 != [] && AllSpaces(b3) && b4 != [] && AllSpaces(b4)
    ensures Collapse(w1 + b1 + (w2 + b2 + (w3 + b3 + (w4 + b4 + w5)))) ==
      w1 + [' '] + (w2 + [' '] + (w3 + [' '] + (w4 + [' '] + w5)))
  {
    var y3 := w4 + b4 + w5;
    var y2 := w3 + b3 + y3;
    var y1 := w2 + b2 + y2;
    assert y3[0] == w4[0] && y2[0] == w3[0] && y1[0] == w2[0];
    calc {
      Collapse(w1 + b1 + y1);
      { CollapseWordThen(w1, b1, y1); }
      w1 + [' '] + Collapse(y1);
      { CollapseWordThen(w2, b2, y2); }
      w1 + [' '] + (w2 + [' '] + Collapse(y2));
      { CollapseWordThen(w3, b3, y3); }
      w1 + [' '] + (w2 + [' '] + (w3 + [' '] + Collapse(y3)));
      { CollapseWordThen(w4, b4, w5); CollapseKeepsSingleSpaced(w5); }
      w1 + [' '] + (w2 + [' '] + (w3 + [' '] + (w4 + [' '] + w5)));
    }
  }

  /** A string already in collapsed form is left alone by the collapse. */
  lemma {:induction false} CollapseKeepsSingleSpaced(s: string)
    requires SingleSpaced(s)
    ensures Collapse(s) == s
    decreases |s|
  {
    if s != [] {
      var rest := s[1..];
      assert SingleSpaced(rest) by {
        assert rest == s[1..|s|];
        SliceSingleSpaced(s, rest);
      }
      if IsSpace(s[0]) {
        assert SkipSpaces(s, 0) == 1 by {
          assert 1 == |s| || !IsSpace(s[1]);
        }
      }
      CollapseKeepsSingleSpaced(rest);
      assert s == [s[0]] + rest;
    }
  }

  /** A string with no white space at its ends is left alone by the trim. */
  lemma TrimKeepsTrimmed(s: string)
    requires Trimmed(s)
    ensures Trim(s) == s
  {
    if s != [] {
      assert SkipSpaces(s, 0) == 0;
      assert TrailingSpaces(s, 0) == |s|;
    }
  }

  /** A name that is already tidy is kept as it is. */
  lemma TidiedKeepsTidy(s: string)
    requires Tidy(s)
    ensures Tidied(s) == s
  {
    CollapseKeepsSingleSpaced(s);
    TrimKeepsTrimmed(s);
  }

  /** Tidying is idempotent: a tidied name is tidied to itself. */
  lemma TidiedIdempotent(s: string)
    ensures Tidied(Tidied(s)) == Tidied(s)
  {
    TidiedKeepsTidy(Tidied(s));
  }

  /** Whenever the tidied capture fits in 100 characters, the as-written and
      the corrected importer names agree. */
  lemma ImporterNameAgreesWhenShort(s: string)
    requires |Tidied(s)| <= 100
    ensures ImporterName(s) == ImporterAsWritten(s)
  {
    TrimKeepsTrimmed(Tidied(s));
  }

  /** The cut at 100 characters, applied after the trim, can leave a trailing
      space: 99 non-space characters, a space and one more character. */
  lemma ImporterAsWrittenTrailingSpace(w: string)
    requires |w| == 99 && NoSpaces(w)
    ensures |ImporterAsWritten(w + " B")| == 100
    ensures ImporterAsWritten(w + " B")[99] == ' '
  {
    var s := w + " B";
    assert s[99] == ' ' && s[100] == 'B';
    assert forall i :: 0 <= i < 99 ==> s[i] == w[i] && !IsSpace(s[i]);
    assert SingleSpaced(s);
    CollapseKeepsSingleSpaced(s);
    assert s[0] == w[0];
    TrimKeepsTrimmed(s);
  }

  /** So the source's importer name is not always trimmed. */
  lemma ImporterAsWrittenNotTrimmed()
    ensures exists s :: !Trimmed(ImporterAsWritten(s))
  {
    var w := seq(99, i => 'A');
    assert NoSpaces(w);
    ImporterAsWrittenTrailingSpace(w);
    assert !Trimmed(ImporterAsWritten(w + " B"));
  }
}
