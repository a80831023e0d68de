/** Characters, character classes and the greedy scans that the five line
    patterns of parse_log.py are built from.  Classes are ASCII: `\s` is
    space, tab, newline, carriage return, vertical tab and form feed (not
    the separators 0x1C-0x1F, which Python's `\s` also matches); `\d` is
    0-9; `\w` is letters, digits and underscore. */
module Text {

  datatype Option<T> = None | Some(value: T)

  /** The regular-expression character classes used by the patterns. */
  datatype CharClass =
    | Space        // \s
    | NonSpace     // \S
    | Digit        // \d
    | Word         // \w
    | Upper        // [A-Z]
    | LowerCase    // [a-z]
    | NotNewline   // .  (any character but a newline)

  /** Space, or one of tab, newline, vertical tab, form feed and carriage
      return, which are the consecutive codes 9 to 13. */
  predicate IsSpace(c: char) {
    c == ' ' || '\t' <= c <= '\r'
  }

  predicate IsDigit(c: char) { '0' <= c <= '9' }

  predicate IsUpper(c: char) { 'A' <= c <= 'Z' }

  predicate IsLower(c: char) { 'a' <= c <= 'z' }

  predicate In(c: char, k: CharClass) {
    match k
    case Space => IsSpace(c)
    case NonSpace => !IsSpace(c)
    case Digit => IsDigit(c)
    case Word => IsUpper(c) || IsLower(c) || IsDigit(c) || c == '_'
    case Upper => IsUpper(c)
    case LowerCase => IsLower(c)
    case NotNewline => c != '\n'
  }

  /** `s[i..j]` is a (possibly empty) run of characters of class `k`. */
  predicate Run(s: string, i: int, j: int, k: CharClass) {
    0 <= i <= j <= |s| && forall m :: i <= m < j ==> In(s[m], k)
  }

  /** Greedy `k*` from `i`: the end of the longest run of class `k` that starts at `i`. */
  function Span(s: string, i: nat, k: CharClass): (j: nat)
    requires i <= |s|
    ensures Run(s, i, j, k)
    ensures j == |s| || !In(s[j], k)
    decreases |s| - i
  {
    if i == |s| || !In(s[i], k) then i else Span(s, i + 1, k)
  }

  /** A run of class `k` from `i` that stops at a character outside `k` (or at
      the end) is the greedy one: this is why a greedy quantifier followed by
      something its class cannot match never backtracks. */
  lemma SpanUnique(s: string, i: nat, j: nat, k: CharClass)
    requires Run(s, i, j, k)
    requires j == |s| || !In(s[j], k)
    ensures j == Span(s, i, k)
  {
  }

  /** Every run of class `k` from `i` ends at or before the greedy end. */
  lemma SpanMaximal(s: string, i: nat, j: nat, k: CharClass)
    requires Run(s, i, j, k)
    ensures j <= Span(s, i, k)
  {
  }

  /** Start of the whitespace run that `s[..j]` ends with. */
  function TrailFrom(s: string, j: nat): (t: nat)
    requires j <= |s|
    ensures t <= j && Run(s, t, j, Space)
    ensures t == 0 || !IsSpace(s[t - 1])
    decreases j
  {
    if j == 0 || !IsSpace(s[j - 1]) then j else TrailFrom(s, j - 1)
  }

  /** Start of the trailing whitespace of the line: `\s*$` can match at `e`
      exactly when `e >= TrailStart(s)`. */
  function TrailStart(s: string): (t: nat)
    ensures t <= |s| && Run(s, t, |s|, Space)
    ensures t == 0 || !IsSpace(s[t - 1])
  {
    TrailFrom(s, |s|)
  }

  lemma TrailStartLeast(s: string, e: nat)
    requires Run(s, e, |s|, Space)
    ensures TrailStart(s) <= e
  {
  }

  /** Where a lazy `.*?` that starts at `m` and is followed by `\s*$` stops:
      the first position from which only whitespace remains. */
  function LazyEnd(s: string, m: nat): (e: nat)
    requires m <= |s|
    ensures m <= e <= |s| && Run(s, e, |s|, Space)
    ensures forall e' :: m <= e' <= |s| && Run(s, e', |s|, Space) ==> e <= e'
  {
    var t := TrailStart(s);
    assert forall e' :: m <= e' <= |s| && Run(s, e', |s|, Space) ==> t <= e' by {
      forall e' | m <= e' <= |s| && Run(s, e', |s|, Space) ensures t <= e' {
        TrailStartLeast(s, e');
      }
    }
    if m < t then t else m
  }

  /** Template matching for fixed-width fields: in `tpl`, '#' stands for a
      digit (\d), '~' for whitespace (\s), '@' for a word character (\w) and
      every other character for itself. */
  predicate Fits(c: char, t: char) {
    if t == '#' then IsDigit(c)
    else if t == '~' then IsSpace(c)
    else if t == '@' then In(c, Word)
    else c == t
  }

  predicate FitsAt(s: string, i: nat, tpl: string) {
    i + |tpl| <= |s| && forall m :: 0 <= m < |tpl| ==> Fits(s[i + m], tpl[m])
  }

  /** ASCII lower-casing, the model of Python's `str.lower()`. */
  function ToLower(c: char): char {
    if IsUpper(c) then (c as int + 32) as char else c
  }

  function Lower(t: string): (r: string)
    ensures |r| == |t|
    ensures forall i :: 0 <= i < |t| ==> r[i] == ToLower(t[i])
  {
    if t == [] then [] else [ToLower(t[0])] + Lower(t[1..])
  }

  /** No upper-case letter: lower-casing leaves the text as it is. */
  predicate IsLowercase(t: string) {
    forall i :: 0 <= i < |t| ==> !IsUpper(t[i])
  }

  lemma LowerIsLowercase(t: string)
    ensures IsLowercase(Lower(t))
  {
  }

  /** A lowercase text is a fixed point of `Lower`. */
  lemma LowerFixesLowercase(t: string)
    requires IsLowercase(t)
    ensures Lower(t) == t
  {
  }
}
