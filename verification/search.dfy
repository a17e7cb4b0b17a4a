/** The orders in which a backtracking regular-expression engine tries
    alternatives, and the extractor's fallback chain of candidate patterns. */
module Search {
  import opened Optional

  /** The first hit of `g` at lo, lo+1, ..., hi. This is the order in which a
      match is tried at successive start positions, and in which a lazy
      quantifier `{1,N}?` tries successive lengths. */
  function FirstIn<T>(lo: nat, hi: nat, g: nat -> Option<T>): (r: Option<T>)
    ensures r.Some? ==>
      exists q :: lo <= q <= hi && g(q) == r && forall q' :: lo <= q' < q ==> g(q').None?
    ensures r.None? <==> forall q :: lo <= q <= hi ==> g(q).None?
    decreases hi + 1 - lo
  {
    if lo > hi then None
    else if g(lo).Some? then g(lo)
    else FirstIn(lo + 1, hi, g)
  }

  /** A hit anywhere in the range means the search succeeds. */
  lemma FirstInFinds<T>(lo: nat, hi: nat, g: nat -> Option<T>, q: nat)
    requires lo <= q <= hi && g(q).Some?
    ensures FirstIn(lo, hi, g).Some?
  {
  }

  /** The first hit of `g` at hi, hi-1, ..., lo: the order in which a greedy
      quantifier gives back characters when what follows it fails. */
  function LastIn<T>(lo: nat, hi: nat, g: nat -> Option<T>): (r: Option<T>)
    ensures r.Some? ==>
      exists q :: lo <= q <= hi && g(q) == r && forall q' :: q < q' <= hi ==> g(q').None?
    ensures r.None? <==> forall q :: lo <= q <= hi ==> g(q).None?
    decreases hi + 1 - lo
  {
    if lo > hi then None
    else if g(hi).Some? then g(hi)
    else if hi == lo then None
    else LastIn(lo, hi - 1, g)
  }

  /** The fallback chain: the candidate patterns of one field tried in order,
      the first that matches deciding the field. */
  function FirstOf<T>(ms: seq<string -> Option<T>>, t: string): (r: Option<T>)
    ensures r.Some? ==>
      exists i :: 0 <= i < |ms| && ms[i](t) == r && forall j :: 0 <= j < i ==> ms[j](t).None?
    ensures r.None? <==> forall i :: 0 <= i < |ms| ==> ms[i](t).None?
    decreases |ms|
  {
    if ms == [] then None
    else if ms[0](t).Some? then ms[0](t)
    else FirstOf(ms[1..], t)
  }

  /** The candidate that decides: the first one that matches. */
  lemma FirstOfPicks<T>(ms: seq<string -> Option<T>>, t: string, i: nat)
    requires i < |ms| && ms[i](t).Some?
    requires forall j :: 0 <= j < i ==> ms[j](t).None?
    ensures FirstOf(ms, t) == ms[i](t)
  {
  }

  /** A chain of two candidates: the second is tried only when the first
      does not match. */
  lemma FirstOfTwo<T>(a: string -> Option<T>, b: string -> Option<T>, t: string)
    ensures FirstOf([a, b], t) == if a(t).Some? then a(t) else b(t)
  {
    assert [a, b][1..] == [b];
    assert [b][1..] == [];
  }

  lemma FirstOfThree<T>(a: string -> Option<T>, b: string -> Option<T>, c: string -> Option<T>, t: string)
    ensures FirstOf([a, b, c], t) == if a(t).Some? then a(t) else FirstOf([b, c], t)
  {
    assert [a, b, c][1..] == [b, c];
  }

  lemma FirstOfFour<T>(a: string -> Option<T>, b: string -> Option<T>, c: string -> Option<T>, d: string -> Option<T>, t: string)
    ensures FirstOf([a, b, c, d], t) == if a(t).Some? then a(t) else FirstOf([b, c, d], t)
  {
    assert [a, b, c, d][1..] == [b, c, d];
  }

  /** Appending candidates never overrides a match an earlier candidate found. */
  lemma {:induction false} FirstOfKeepsEarlierMatch<T>(ms: seq<string -> Option<T>>, more: seq<string -> Option<T>>, t: string)
    requires FirstOf(ms, t).Some?
    ensures FirstOf(ms + more, t) == FirstOf(ms, t)
    decreases |ms|
  {
    if ms[0](t).Some? {
      assert (ms + more)[0] == ms[0];
    } else {
      assert (ms + more)[1..] == ms[1..] + more;
      FirstOfKeepsEarlierMatch(ms[1..], more, t);
    }
  }

  /** A candidate that only matches where an earlier one already does can be
      dropped from the end of the chain without changing any result. */
  lemma {:induction false} FirstOfRedundantLast<T>(ms: seq<string -> Option<T>>, m: string -> Option<T>, t: string)
    requires m(t).Some? ==> FirstOf(ms, t).Some?
    ensures FirstOf(ms + [m], t) == FirstOf(ms, t)
  {
    if FirstOf(ms, t).Some? {
      FirstOfKeepsEarlierMatch(ms, [m], t);
    } else {
      var all := ms + [m];
      assert forall i :: 0 <= i < |all| ==> all[i](t).None? by {
        forall i | 0 <= i < |all|
          ensures all[i](t).None?
        {
          if i < |ms| {
            assert all[i] == ms[i];
          } else {
            assert all[i] == m;
          }
        }
      }
    }
  }
}
