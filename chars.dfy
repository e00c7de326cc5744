/**
 * The character classes of the JavaScript regular expressions in gl4u.js,
 * and the length of the longest run of one class at the start of a string.
 * Every quantifier in those expressions (`+`, `*`) is greedy and is followed
 * by something outside its own class, so it always consumes such a run.
 */
module Chars {

  /** `[A-Za-z_]`, the class of the type-name part in the type-token pattern. */
  predicate IsLetter(c: char) {
    ('A' <= c <= 'Z') || ('a' <= c <= 'z') || c == '_'
  }

  /** `\d` (without the `u` flag): the ASCII digits. */
  predicate IsDigit(c: char) {
    '0' <= c <= '9'
  }

  /** `\w`: `[A-Za-z0-9_]`. */
  predicate IsWordChar(c: char) {
    IsLetter(c) || IsDigit(c)
  }

  /**
   * `\s`: the ECMAScript WhiteSpace and LineTerminator characters
   * (TAB, LF, VT, FF, CR, the space separators of category Zs, LS, PS, BOM).
   */
  predicate IsSpace(c: char) {
    c == '\t' || c == '\n' || c == '\U{000B}' || c == '\U{000C}' || c == '\r' || c == ' ' ||
    c == '\U{00A0}' || c == '\U{1680}' || ('\U{2000}' <= c <= '\U{200A}') ||
    c == '\U{2028}' || c == '\U{2029}' || c == '\U{202F}' || c == '\U{205F}' ||
    c == '\U{3000}' || c == '\U{FEFF}'
  }

  datatype Class = Letter | Digit | Word | Space

  predicate In(c: char, k: Class) {
    match k
    case Letter => IsLetter(c)
    case Digit => IsDigit(c)
    case Word => IsWordChar(c)
    case Space => IsSpace(c)
  }

  /** All characters of `s` belong to class `k`. */
  predicate AllIn(s: string, k: Class) {
    forall i | 0 <= i < |s| :: In(s[i], k)
  }

  /** A non-empty run of `\w`, as `(\w+)` captures it. */
  predicate IsWord(s: string) {
    |s| > 0 && AllIn(s, Word)
  }

  /** The characters of `s` from position `i` to before `j` all belong to `k`. */
  predicate RunIn(s: string, i: nat, j: nat, k: Class)
    requires i <= j <= |s|
  {
    forall m | i <= m < j :: In(s[m], k)
  }

  /**
   * Where the longest run of class `k` starting at position `i` of `s` ends:
   * the position a greedy `k+` or `k*` stops at.
   */
  function RunEnd(s: string, i: nat, k: Class): (j: nat)
    requires i <= |s|
    ensures i <= j <= |s|
    decreases |s| - i
  {
    if i < |s| && In(s[i], k) then RunEnd(s, i + 1, k) else i
  }

  /** The run `RunEnd` measures is made of `k`, and cannot be extended. */
  lemma {:induction false} RunEndIsRun(s: string, i: nat, k: Class)
    requires i <= |s|
    ensures RunIn(s, i, RunEnd(s, i, k), k)
    ensures RunEnd(s, i, k) < |s| ==> !In(s[RunEnd(s, i, k)], k)
    decreases |s| - i
  {
    if i < |s| && In(s[i], k) {
      RunEndIsRun(s, i + 1, k);
    }
  }

  /** A run of `k` from `i` to `j` that the character at `j` does not continue ends at `j`. */
  lemma {:induction false} RunEndOf(s: string, i: nat, j: nat, k: Class)
    requires i <= j <= |s|
    requires RunIn(s, i, j, k)
    requires j < |s| ==> !In(s[j], k)
    ensures RunEnd(s, i, k) == j
    decreases j - i
  {
    if i < j {
      assert In(s[i], k);
      RunEndOf(s, i + 1, j, k);
    }
  }

  /** The word `w` is written in `s` at position `p`. */
  predicate Occurs(s: string, p: nat, w: string) {
    p + |w| <= |s| && forall m | 0 <= m < |w| :: s[p + m] == w[m]
  }

  /** Text of class `k` written at `i` and not continued by `k` is a whole greedy run, and it is what is captured. */
  lemma {:induction false} OccursRun(s: string, i: nat, w: string, k: Class)
    requires Occurs(s, i, w) && AllIn(w, k)
    requires i + |w| < |s| ==> !In(s[i + |w|], k)
    ensures RunEnd(s, i, k) == i + |w| && s[i..i + |w|] == w
  {
    forall m | i <= m < i + |w| ensures In(s[m], k) {
      assert s[i + (m - i)] == w[m - i];
    }
    RunEndOf(s, i, i + |w|, k);
  }

  /** A run of class `k` is, as a string, all of class `k`. */
  lemma {:induction false} RunSlice(s: string, i: nat, j: nat, k: Class)
    requires i <= j <= |s| && RunIn(s, i, j, k)
    ensures AllIn(s[i..j], k)
  {
    forall m | 0 <= m < j - i ensures In(s[i..j][m], k) {
      assert s[i..j][m] == s[i + m];
    }
  }

  /** The text from `i` to before `j` occurs at `i`. */
  lemma {:induction false} SliceOccurs(s: string, i: nat, j: nat)
    requires i <= j <= |s|
    ensures Occurs(s, i, s[i..j])
  {
  }

  /** Text written at `p` as `a + b` has `a` at `p` and `b` right after it. */
  lemma {:induction false} OccursSplit(s: string, p: nat, a: string, b: string)
    requires Occurs(s, p, a + b)
    ensures Occurs(s, p, a) && Occurs(s, p + |a|, b)
  {
    forall m | 0 <= m < |a| ensures s[p + m] == a[m] {
      assert (a + b)[m] == a[m];
    }
    forall m | 0 <= m < |b| ensures s[p + |a| + m] == b[m] {
      assert (a + b)[|a| + m] == b[m];
    }
  }

  /** The characters at `p` spell `w` exactly when the slice there is `w`. */
  lemma {:induction false} OccursSlice(s: string, p: nat, w: string)
    requires Occurs(s, p, w)
    ensures s[p..p + |w|] == w
  {
  }
}
