/** Characters as the extractor's regular expressions see them: the `\s`, `\d`
    and `\w` classes, case-insensitive comparison (the `i` flag), and the
    maximal runs that greedy quantifiers consume. */
module Text {

  /** JavaScript's `\s`: the WhiteSpace and LineTerminator code points. The same
      set is what `String.prototype.trim` and `parseFloat` strip. */
  predicate IsSpace(c: char) {
    || c == '\t' || c == '\n' || c == '\U{000B}' || c == '\U{000C}' || c == '\r'
    || c == ' ' || c == '\U{00A0}' || c == '\U{1680}'
    || ('\U{2000}' <= c <= '\U{200A}')
    || c == '\U{2028}' || c == '\U{2029}' || c == '\U{202F}' || c == '\U{205F}'
    || c == '\U{3000}' || c == '\U{FEFF}'
  }

  /** `\d` */
  predicate IsDigit(c: char) {
    '0' <= c <= '9'
  }

  /** `[A-Z]` under the `i` flag: an ASCII letter of either case. */
  predicate IsAsciiLetter(c: char) {
    ('A' <= c <= 'Z') || ('a' <= c <= 'z')
  }

  /** `\w`, the characters `\b` separates from the rest. */
  predicate IsWordChar(c: char) {
    IsAsciiLetter(c) || IsDigit(c) || c == '_'
  }

  /** Upper-case mapping of ASCII and Latin-1 letters. Under the `i` flag two
      characters match when their upper-case forms agree; every letter in the
      extractor's patterns lies in this range, and no character outside it
      upper-cases into it. It is also `toUpperCase` on the ASCII tokens it is
      applied to. */
  function Fold(c: char): (r: char)
    ensures IsAsciiLetter(c) ==> 'A' <= r <= 'Z'
    ensures !IsAsciiLetter(c) && c < '\U{00E0}' ==> r == c
  {
    if 'a' <= c <= 'z' || ('\U{00E0}' <= c <= '\U{00FE}' && c != '\U{00F7}') then
      (c as int - 32) as char
    else
      c
  }

  function Upper(s: string): (r: string)
    ensures |r| == |s|
    ensures forall i :: 0 <= i < |s| ==> r[i] == Fold(s[i])
  {
    seq(|s|, i requires 0 <= i < |s| => Fold(s[i]))
  }

  /** The character classes the extractor's patterns quantify over. */
  datatype CharClass =
    | Space          // \s
    | Digit          // \d
    | NotNewline     // [^\n]
    | NotSlashOrNewline  // [^/\n]
    | NumberChar     // [\d.,]
    | SellerChar     // [A-Z0-9\s.,\-&()\/] with the i flag
    | ImporterChar   // [A-Z0-9\s.,\-&()\/:] with the i flag

  predicate InClass(c: char, k: CharClass) {
    match k
    case Space => IsSpace(c)
    case Digit => IsDigit(c)
    case NotNewline => c != '\n'
    case NotSlashOrNewline => c != '/' && c != '\n'
    case NumberChar => IsDigit(c) || c == '.' || c == ','
    case SellerChar =>
      IsAsciiLetter(c) || IsDigit(c) || IsSpace(c) || c in ".,-&()/"
    case ImporterChar =>
      IsAsciiLetter(c) || IsDigit(c) || IsSpace(c) || c in ".,-&()/:"
  }

  /** End of the maximal run of class `k` starting at `p`: where a greedy
      quantifier over `k` stops. */
  function Span(t: string, p: nat, k: CharClass): (q: nat)
    requires p <= |t|
    ensures p <= q <= |t|
    ensures forall i :: p <= i < q ==> InClass(t[i], k)
    ensures q == |t| || !InClass(t[q], k)
    decreases |t| - p
  {
    if p < |t| && InClass(t[p], k) then Span(t, p + 1, k) else p
  }

  function SkipSpaces(t: string, p: nat): (q: nat)
    requires p <= |t|
    ensures p <= q <= |t|
    ensures forall i :: p <= i < q ==> IsSpace(t[i])
    ensures q == |t| || !IsSpace(t[q])
  {
    Span(t, p, Space)
  }

  /** A run of class `k` from `p` that stops at `q` is the one `Span` finds. */
  lemma SpanStops(t: string, p: nat, q: nat, k: CharClass)
    requires p <= q <= |t|
    requires forall i :: p <= i < q ==> InClass(t[i], k)
    requires q == |t| || !InClass(t[q], k)
    ensures Span(t, p, k) == q
  {
  }

  /** The same for white space: a blank run that stops at `q` is skipped up
      to `q`. */
  lemma SkipSpacesStops(t: string, p: nat, q: nat)
    requires p <= q <= |t| && AllSpaces(t[p..q])
    requires q == |t| || !IsSpace(t[q])
    ensures SkipSpaces(t, p) == q
  {
    forall i | p <= i < q ensures InClass(t[i], Space) { assert t[p..q][i - p] == t[i]; }
    SpanStops(t, p, q, Space);
  }

  /** `\b` at position `p`: a word character on exactly one side. */
  predicate Boundary(t: string, p: nat) {
    var before := 0 < p <= |t| && IsWordChar(t[p - 1]);
    var after := p < |t| && IsWordChar(t[p]);
    before != after
  }

  /** The `n` characters of `t` from `p`, or the empty string past the end. */
  function Slice(t: string, p: nat, n: nat): (r: string)
    ensures p + n <= |t| ==> r == t[p..p + n]
    ensures p + n > |t| ==> r == []
  {
    if p + n <= |t| then t[p..p + n] else []
  }

  /** `w` occurs at `q`, compared case-insensitively. */
  predicate Keyword(t: string, q: nat, w: string) {
    Upper(Slice(t, q, |w|)) == Upper(w) && q + |w| <= |t|
  }

  predicate NoSpaces(s: string) {
    forall i :: 0 <= i < |s| ==> !IsSpace(s[i])
  }

  predicate AllSpaces(s: string) {
    forall i :: 0 <= i < |s| ==> IsSpace(s[i])
  }

  predicate HasDigit(t: string) {
    exists i :: 0 <= i < |t| && IsDigit(t[i])
  }
}
