/**
 * The declaration scanner of the `Shader` constructor: the global regular
 * expressions `/(attribute|in)\s+(\w+)\s+(\w+)\s*;/g` and
 * `/(uniform)\s+(\w+)\s+(\w+)\s*;/g`, driven by `while (re.exec(source))`.
 *
 * The expressions are unanchored and have no look-behind, so whether one
 * matches at a position depends only on the text from that position on. In
 * each of them every quantified class is followed by a disjoint class, so the
 * greedy runs cannot be shortened to find another match: at a given position
 * there is at most one match, and `MatchAt` computes it. `DeclTailMatches`
 * and `DeclTailSound` state this for the part after the qualifier.
 */
module Declarations {
  import opened Wrappers
  import opened Chars

  /** `{type, name}`: one declaration as the `Shader` constructor records it. */
  datatype Decl = Decl(token: string, name: string)

  /** A match found at some position: the two captured words and where it ends. */
  datatype Match = Match(token: string, name: string, end: nat)

  /** The alternatives of the qualifier group, tried in order. */
  const AttributeQualifiers: seq<string> := ["attribute", "in"]
  const UniformQualifiers: seq<string> := ["uniform"]

  /** `\s+(\w+)\s+(\w+)\s*;` from position `i` of `s`, each run taken whole. */
  function DeclTailAt(s: string, i: nat): (r: Option<Match>)
    requires i <= |s|
    ensures r.Some? ==> i < r.value.end <= |s|
  {
    var a := RunEnd(s, i, Space);
    var b := RunEnd(s, a, Word);
    var c := RunEnd(s, b, Space);
    var d := RunEnd(s, c, Word);
    var e := RunEnd(s, d, Space);
    if a == i || b == a || c == b || d == c || e == |s| || s[e] != ';' then None
    else Some(Match(s[a..b], s[c..d], e + 1))
  }

  /** Both captures of a tail match are words. */
  lemma {:induction false} DeclTailWords(s: string, i: nat)
    requires i <= |s| && DeclTailAt(s, i).Some?
    ensures IsWord(DeclTailAt(s, i).value.token) && IsWord(DeclTailAt(s, i).value.name)
  {
    var a := RunEnd(s, i, Space);
    var b := RunEnd(s, a, Word);
    var c := RunEnd(s, b, Space);
    var d := RunEnd(s, c, Word);
    RunEndIsRun(s, a, Word);
    RunEndIsRun(s, c, Word);
    var t, n := s[a..b], s[c..d];
    forall m | 0 <= m < |t| ensures In(t[m], Word) {
      assert t[m] == s[a + m];
    }
    forall m | 0 <= m < |n| ensures In(n[m], Word) {
      assert n[m] == s[c + m];
    }
  }

  /** The whole expression, with qualifier alternatives `quals`, at position `p` of `s`. */
  function MatchAt(s: string, p: nat, quals: seq<string>): (r: Option<Match>)
    requires p <= |s|
    ensures r.Some? ==> p < r.value.end <= |s|
  {
    if quals == [] then None
    else
      var q := quals[0];
      if Occurs(s, p, q) && DeclTailAt(s, p + |q|).Some? then DeclTailAt(s, p + |q|)
      else MatchAt(s, p, quals[1..])
  }

  /**
   * The declarations that repeated `re.exec` calls find from position `p` on,
   * in source order: a match at the current position is recorded and the
   * search resumes where it ends; otherwise the search moves on by one.
   */
  function ScanFrom(s: string, p: nat, quals: seq<string>): seq<Decl>
    requires p <= |s|
    decreases |s| - p
  {
    if p == |s| then []
    else match MatchAt(s, p, quals)
      case Some(m) => [Decl(m.token, m.name)] + ScanFrom(s, m.end, quals)
      case None => ScanFrom(s, p + 1, quals)
  }

  /** Every declaration the global expression finds in `s`. */
  function Scan(s: string, quals: seq<string>): seq<Decl> {
    ScanFrom(s, 0, quals)
  }

  /** The `while ((res = re.exec(source)) != null)` loop, pushing `{type, name}`. */
  method ScanDeclarations(source: string, quals: seq<string>) returns (decls: seq<Decl>)
    ensures decls == Scan(source, quals)
    ensures forall i | 0 <= i < |decls| :: IsWord(decls[i].token) && IsWord(decls[i].name)
  {
    ghost var all := Scan(source, quals);
    ScanWords(source, 0, quals);
    decls := [];
    var lastIndex := 0;
    while lastIndex < |source|
      invariant lastIndex <= |source|
      invariant decls + ScanFrom(source, lastIndex, quals) == all
      decreases |source| - lastIndex
    {
      var res := MatchAt(source, lastIndex, quals);
      if res.Some? {
        ScanFromMatch(source, lastIndex, quals, res.value);
        decls := decls + [Decl(res.value.token, res.value.name)];
        lastIndex := res.value.end;
      } else {
        ScanFromSkip(source, lastIndex, quals);
        lastIndex := lastIndex + 1;
      }
    }
    assert decls == all;
  }

  /** Both captures of a match are words. */
  lemma {:induction false} MatchWords(s: string, p: nat, quals: seq<string>)
    requires p <= |s| && MatchAt(s, p, quals).Some?
    ensures IsWord(MatchAt(s, p, quals).value.token) && IsWord(MatchAt(s, p, quals).value.name)
    decreases |quals|
  {
    var q := quals[0];
    if Occurs(s, p, q) && DeclTailAt(s, p + |q|).Some? {
      MatchAtHead(s, p, quals, DeclTailAt(s, p + |q|).value);
      DeclTailWords(s, p + |q|);
    } else {
      MatchAtSkip(s, p, quals);
      MatchWords(s, p, quals[1..]);
    }
  }

  /** Every declaration found from `p` on has a word as its type and a word as its name. */
  lemma {:induction false} ScanWords(s: string, p: nat, quals: seq<string>)
    requires p <= |s|
    ensures var ds := ScanFrom(s, p, quals);
      forall i | 0 <= i < |ds| :: IsWord(ds[i].token) && IsWord(ds[i].name)
    decreases |s| - p
  {
    if p < |s| {
      var m := MatchAt(s, p, quals);
      if m.Some? {
        ScanFromMatch(s, p, quals, m.value);
        MatchWords(s, p, quals);
        ScanWords(s, m.value.end, quals);
        var ds := ScanFrom(s, p, quals);
        forall i | 0 <= i < |ds| ensures IsWord(ds[i].token) && IsWord(ds[i].name) {
          if i > 0 {
            assert ds[i] == ScanFrom(s, m.value.end, quals)[i - 1];
          }
        }
      } else {
        ScanFromSkip(s, p, quals);
        ScanWords(s, p + 1, quals);
      }
    }
  }

  /** Every declaration found from `p` on is a match of the expression at some position from `p` on. */
  lemma {:induction false} ScanSound(s: string, p: nat, quals: seq<string>, i: nat)
    requires p <= |s| && i < |ScanFrom(s, p, quals)|
    ensures exists x | p <= x < |s| :: MatchAt(s, x, quals).Some? &&
              Decl(MatchAt(s, x, quals).value.token, MatchAt(s, x, quals).value.name) == ScanFrom(s, p, quals)[i]
  {
    var x, m := FoundAt(s, p, quals, i);
  }

  /** The position at which the `i`-th declaration found from `p` on was matched, and that match. */
  lemma {:induction false} FoundAt(s: string, p: nat, quals: seq<string>, i: nat) returns (x: nat, m: Match)
    requires p <= |s| && i < |ScanFrom(s, p, quals)|
    ensures p <= x < |s| && MatchAt(s, x, quals) == Some(m) && Decl(m.token, m.name) == ScanFrom(s, p, quals)[i]
    decreases |s| - p, 1
  {
    var here := MatchAt(s, p, quals);
    if here.None? {
      ScanFromSkip(s, p, quals);
      x, m := FoundAt(s, p + 1, quals, i);
    } else if i == 0 {
      ScanFromIndex(s, p, quals, here.value, i);
      x, m := p, here.value;
    } else {
      x, m := FoundAfter(s, p, quals, i, here.value);
    }
  }

  /** `FoundAt` past a match at `p`: the search resumed where that match ends. */
  lemma {:induction false} FoundAfter(s: string, p: nat, quals: seq<string>, i: nat, here: Match) returns (x: nat, m: Match)
    requires p < |s| && MatchAt(s, p, quals) == Some(here) && 0 < i < |ScanFrom(s, p, quals)|
    ensures p <= x < |s| && MatchAt(s, x, quals) == Some(m) && Decl(m.token, m.name) == ScanFrom(s, p, quals)[i]
    decreases |s| - p, 0
  {
    ScanFromIndex(s, p, quals, here, i);
    x, m := FoundAt(s, here.end, quals, i - 1);
  }

  /** The search from `p` finds nothing exactly when the expression matches at no position from `p` on. */
  lemma {:induction false} ScanEmptyIff(s: string, p: nat, quals: seq<string>)
    requires p <= |s|
    ensures ScanFrom(s, p, quals) == [] <==> forall x | p <= x < |s| :: MatchAt(s, x, quals).None?
    decreases |s| - p
  {
    if p < |s| {
      var here := MatchAt(s, p, quals);
      if here.Some? {
        ScanFromMatch(s, p, quals, here.value);
      } else {
        ScanFromSkip(s, p, quals);
        ScanEmptyIff(s, p + 1, quals);
      }
    }
  }

  /**
   * The first declaration found from `p` on is the leftmost match: at `x`,
   * with no match at any position between `p` and `x`; the search then
   * resumes where that match ends.
   */
  lemma {:induction false} ScanLeftmost(s: string, p: nat, quals: seq<string>) returns (x: nat, m: Match)
    requires p <= |s| && ScanFrom(s, p, quals) != []
    ensures p <= x < |s| && MatchAt(s, x, quals) == Some(m)
    ensures forall y | p <= y < x :: MatchAt(s, y, quals).None?
    ensures ScanFrom(s, p, quals) == [Decl(m.token, m.name)] + ScanFrom(s, m.end, quals)
    decreases |s| - p
  {
    var here := MatchAt(s, p, quals);
    if here.Some? {
      ScanFromMatch(s, p, quals, here.value);
      x, m := p, here.value;
    } else {
      ScanFromSkip(s, p, quals);
      x, m := ScanLeftmost(s, p + 1, quals);
    }
  }

  /** Text without a `;` declares nothing: other forms are silently not registered. */
  lemma {:induction false} NoSemicolonNoDecls(s: string, p: nat, quals: seq<string>)
    requires p <= |s|
    requires forall i | 0 <= i < |s| :: s[i] != ';'
    ensures ScanFrom(s, p, quals) == []
    decreases |s| - p
  {
    if p < |s| {
      NoMatchWithoutSemicolon(s, p, quals);
      NoSemicolonNoDecls(s, p + 1, quals);
    }
  }

  lemma {:induction false} NoMatchWithoutSemicolon(s: string, p: nat, quals: seq<string>)
    requires p <= |s|
    requires forall i | 0 <= i < |s| :: s[i] != ';'
    ensures MatchAt(s, p, quals).None?
    decreases |quals|
  {
    if quals != [] {
      NoMatchWithoutSemicolon(s, p, quals[1..]);
    }
  }

  /** What follows the qualifier in a canonical declaration: ` T N;`. */
  function DeclBody(d: Decl): string {
    " " + d.token + " " + d.name + ";"
  }

  /** One declaration in the canonical form `q T N;`. */
  function Declare(q: string, d: Decl): string {
    q + DeclBody(d)
  }

  /** Declarations written one after another, separated by single spaces. */
  function Render(q: string, ds: seq<Decl>): string
    decreases |ds|
  {
    if ds == [] then ""
    else if |ds| == 1 then Declare(q, ds[0])
    else Declare(q, ds[0]) + " " + Render(q, ds[1..])
  }

  /** A single space followed by a non-space is a whole `\s+` run. */
  lemma {:induction false} SpaceAt(s: string, i: nat)
    requires i < |s| && s[i] == ' '
    requires i + 1 < |s| ==> !IsSpace(s[i + 1])
    ensures RunEnd(s, i, Space) == i + 1
  {
    RunEndOf(s, i, i + 1, Space);
  }

  /** A word written at `i` and not continued is a whole `\w+` run, and it is what is captured. */
  lemma {:induction false} WordAt(s: string, i: nat, w: string)
    requires Occurs(s, i, w) && IsWord(w)
    requires i + |w| < |s| ==> !IsWordChar(s[i + |w|])
    ensures RunEnd(s, i, Word) == i + |w| && s[i..i + |w|] == w
  {
    forall m | i <= m < i + |w| ensures In(s[m], Word) {
      assert s[i + (m - i)] == w[m - i];
    }
    RunEndOf(s, i, i + |w|, Word);
  }

  /** The five runs of `DeclTailAt` over a canonical declaration tail written at `p`. */
  lemma {:induction false} DeclTailRuns(s: string, p: nat, d: Decl)
    requires IsWord(d.token) && IsWord(d.name)
    requires Occurs(s, p, DeclBody(d))
    ensures var b, e := p + 1 + |d.token|, p + 2 + |d.token| + |d.name|;
      RunEnd(s, p, Space) == p + 1 && RunEnd(s, p + 1, Word) == b && s[p + 1..b] == d.token &&
      RunEnd(s, b, Space) == b + 1 && RunEnd(s, b + 1, Word) == e && s[b + 1..e] == d.name &&
      RunEnd(s, e, Space) == e && e < |s| && s[e] == ';'
  {
    var t, n := d.token, d.name;
    OccursSplit(s, p, " " + t + " " + n, ";");
    OccursSplit(s, p, " " + t + " ", n);
    OccursSplit(s, p, " " + t, " ");
    OccursSplit(s, p, " ", t);
    var a, b, c, e := p + 1, p + 1 + |t|, p + 2 + |t|, p + 2 + |t| + |n|;
    assert s[p + 0] == " "[0] && s[b + 0] == " "[0] && s[e + 0] == ";"[0];
    assert s[a + 0] == t[0] && s[c + 0] == n[0];
    assert In(t[0], Word) && In(n[0], Word);
    SpaceAt(s, p);
    WordAt(s, a, t);
    SpaceAt(s, b);
    WordAt(s, c, n);
    RunEndOf(s, e, e, Space);
  }

  /** The tail of a canonical declaration written at `p` matches and ends at its `;`. */
  lemma {:induction false} DeclTailOf(s: string, p: nat, d: Decl)
    requires IsWord(d.token) && IsWord(d.name)
    requires Occurs(s, p, DeclBody(d))
    ensures DeclTailAt(s, p) == Some(Match(d.token, d.name, p + |d.token| + |d.name| + 3))
  {
    DeclTailRuns(s, p, d);
  }
  /**
   * Any text of the form `\s+(\w+)\s+(\w+)\s*;` written at `i`, with whitespace
   * runs `w1`, `w2`, `w3` of any characters of `\s`, is the tail match at `i`,
   * with captures `t` and `n`. As `DeclTailAt` is a function, that match is
   * also the only one at `i`.
   */
  lemma {:induction false} DeclTailMatches(s: string, i: nat, w1: string, t: string, w2: string, n: string, w3: string)
    requires |w1| > 0 && AllIn(w1, Space) && |w2| > 0 && AllIn(w2, Space) && AllIn(w3, Space)
    requires IsWord(t) && IsWord(n)
    requires Occurs(s, i, w1 + t + w2 + n + w3 + ";")
    ensures DeclTailAt(s, i) == Some(Match(t, n, i + |w1| + |t| + |w2| + |n| + |w3| + 1))
  {
    TailPieces(s, i, w1, t, w2, n, w3);
    TailRuns(s, i, w1, t, w2, n, w3);
  }

  /** Where the five pieces and the `;` of a tail written at `i` sit. */
  lemma {:induction false} TailPieces(s: string, i: nat, w1: string, t: string, w2: string, n: string, w3: string)
    requires Occurs(s, i, w1 + t + w2 + n + w3 + ";")
    ensures var a := i + |w1|; var b := a + |t|; var c := b + |w2|; var d := c + |n|; var e := d + |w3|;
      Occurs(s, i, w1) && Occurs(s, a, t) && Occurs(s, b, w2) && Occurs(s, c, n) && Occurs(s, d, w3) &&
      e < |s| && s[e] == ';'
  {
    OccursSplit(s, i, w1 + t + w2 + n + w3, ";");
    OccursSplit(s, i, w1 + t + w2 + n, w3);
    OccursSplit(s, i, w1 + t + w2, n);
    OccursSplit(s, i, w1 + t, w2);
    OccursSplit(s, i, w1, t);
    var e := i + |w1| + |t| + |w2| + |n| + |w3|;
    assert s[e + 0] == ";"[0];
  }

  /** Over the pieces of a tail, each greedy run of `DeclTailAt` ends where its piece ends. */
  lemma {:induction false} TailRuns(s: string, i: nat, w1: string, t: string, w2: string, n: string, w3: string)
    requires |w1| > 0 && AllIn(w1, Space) && |w2| > 0 && AllIn(w2, Space) && AllIn(w3, Space)
    requires IsWord(t) && IsWord(n)
    requires var a := i + |w1|; var b := a + |t|; var c := b + |w2|; var d := c + |n|; var e := d + |w3|;
      Occurs(s, i, w1) && Occurs(s, a, t) && Occurs(s, b, w2) && Occurs(s, c, n) && Occurs(s, d, w3) &&
      e < |s| && s[e] == ';'
    ensures var a := i + |w1|; var b := a + |t|; var c := b + |w2|; var d := c + |n|; var e := d + |w3|;
      RunEnd(s, i, Space) == a && RunEnd(s, a, Word) == b && RunEnd(s, b, Space) == c &&
      RunEnd(s, c, Word) == d && RunEnd(s, d, Space) == e && s[a..b] == t && s[c..d] == n
  {
    var a := i + |w1|;
    var b := a + |t|;
    var c := b + |w2|;
    var d := c + |n|;
    var e := d + |w3|;
    assert s[a + 0] == t[0] && s[b + 0] == w2[0] && s[c + 0] == n[0];
    assert In(t[0], Word) && In(w2[0], Space) && In(n[0], Word);
    assert d < |s| && !In(s[d], Word) by {
      if |w3| > 0 {
        assert s[d + 0] == w3[0] && In(w3[0], Space);
      }
    }
    OccursRun(s, i, w1, Space);
    OccursRun(s, a, t, Word);
    OccursRun(s, b, w2, Space);
    OccursRun(s, c, n, Word);
    OccursRun(s, d, w3, Space);
  }

  /**
   * A tail match at `i` is text of the form `\s+(\w+)\s+(\w+)\s*;`: whitespace
   * `w1`, the captured type, whitespace `w2`, the captured name, possibly
   * empty whitespace `w3` and `;`, ending where the match ends.
   */
  lemma {:induction false} DeclTailSound(s: string, i: nat) returns (w1: string, w2: string, w3: string)
    requires i <= |s| && DeclTailAt(s, i).Some?
    ensures var m := DeclTailAt(s, i).value;
      |w1| > 0 && AllIn(w1, Space) && |w2| > 0 && AllIn(w2, Space) && AllIn(w3, Space) &&
      IsWord(m.token) && IsWord(m.name) &&
      Occurs(s, i, w1 + m.token + w2 + m.name + w3 + ";") &&
      m.end == i + |w1| + |m.token| + |w2| + |m.name| + |w3| + 1
  {
    var a := RunEnd(s, i, Space);
    var b := RunEnd(s, a, Word);
    var c := RunEnd(s, b, Space);
    var d := RunEnd(s, c, Word);
    var e := RunEnd(s, d, Space);
    DeclTailWords(s, i);
    RunEndIsRun(s, i, Space);
    RunEndIsRun(s, b, Space);
    RunEndIsRun(s, d, Space);
    RunSlice(s, i, a, Space);
    RunSlice(s, b, c, Space);
    RunSlice(s, d, e, Space);
    SpansOccur(s, i, a, b, c, d, e);
    w1, w2, w3 := s[i..a], s[b..c], s[d..e];
  }

  /** Consecutive spans of `s` followed by a `;` occur, joined, where the first begins. */
  lemma {:induction false} SpansOccur(s: string, i: nat, a: nat, b: nat, c: nat, d: nat, e: nat)
    requires i <= a <= b <= c <= d <= e < |s| && s[e] == ';'
    ensures Occurs(s, i, s[i..a] + s[a..b] + s[b..c] + s[c..d] + s[d..e] + ";")
  {
    assert s[i..b] == s[i..a] + s[a..b];
    assert s[i..c] == s[i..b] + s[b..c];
    assert s[i..d] == s[i..c] + s[c..d];
    assert s[i..e] == s[i..d] + s[d..e];
    assert s[i..e + 1] == s[i..e] + [s[e]];
    SliceOccurs(s, i, e + 1);
  }


  /** The first alternative is tried first: when it and the tail match, that is the match. */
  lemma {:induction false} MatchAtHead(s: string, p: nat, quals: seq<string>, m: Match)
    requires p <= |s| && quals != [] && Occurs(s, p, quals[0])
    requires DeclTailAt(s, p + |quals[0]|) == Some(m)
    ensures MatchAt(s, p, quals) == Some(m)
  {
  }

  /** An alternative that does not occur at `p`, or is not followed by a tail that matches, is passed over. */
  lemma {:induction false} MatchAtSkip(s: string, p: nat, quals: seq<string>)
    requires p <= |s| && quals != []
    requires !(Occurs(s, p, quals[0]) && DeclTailAt(s, p + |quals[0]|).Some?)
    ensures MatchAt(s, p, quals) == MatchAt(s, p, quals[1..])
  {
  }

  /**
   * A canonical declaration with the qualifier `quals[k]` written at `p`
   * matches there, when no earlier alternative begins with the same character.
   */
  lemma {:induction false} MatchAtDeclare(s: string, p: nat, quals: seq<string>, k: nat, d: Decl)
    requires k < |quals| && |quals[k]| > 0
    requires forall j | 0 <= j < k :: |quals[j]| > 0 && quals[j][0] != quals[k][0]
    requires IsWord(d.token) && IsWord(d.name)
    requires Occurs(s, p, Declare(quals[k], d))
    ensures MatchAt(s, p, quals) == Some(Match(d.token, d.name, p + |Declare(quals[k], d)|))
    decreases k
  {
    var q := quals[k];
    DeclareAt(s, p, q, d);
    if k == 0 {
      MatchAtFirst(s, p, quals, d);
    } else {
      assert !Occurs(s, p, quals[0]) by {
        assert s[p + 0] != quals[0][0];
      }
      MatchAtSkip(s, p, quals);
      assert quals[1..][k - 1] == q;
      MatchAtDeclare(s, p, quals[1..], k - 1, d);
    }
  }

  /** A declaration written at `p` starts with its qualifier, followed by its body. */
  lemma {:induction false} DeclareAt(s: string, p: nat, q: string, d: Decl)
    requires |q| > 0 && Occurs(s, p, Declare(q, d))
    ensures p < |s| && s[p] == q[0] && Occurs(s, p, q) && Occurs(s, p + |q|, DeclBody(d))
    ensures |Declare(q, d)| == |q| + |d.token| + |d.name| + 3
  {
    OccursSplit(s, p, q, DeclBody(d));
    assert s[p + 0] == Declare(q, d)[0];
  }

  /** The first alternative followed by a canonical body matches with that body's captures. */
  lemma {:induction false} MatchAtFirst(s: string, p: nat, quals: seq<string>, d: Decl)
    requires quals != [] && p <= |s| && IsWord(d.token) && IsWord(d.name)
    requires Occurs(s, p, quals[0]) && Occurs(s, p + |quals[0]|, DeclBody(d))
    ensures MatchAt(s, p, quals) == Some(Match(d.token, d.name, p + |quals[0]| + |d.token| + |d.name| + 3))
  {
    DeclTailOf(s, p + |quals[0]|, d);
    MatchAtHead(s, p, quals, Match(d.token, d.name, p + |quals[0]| + |d.token| + |d.name| + 3));
  }

  /** No qualifier alternative starts with a `\s` character, so whitespace never begins a match. */
  lemma {:induction false} NoMatchAtSpace(s: string, p: nat, quals: seq<string>)
    requires p < |s| && IsSpace(s[p])
    requires forall j | 0 <= j < |quals| :: IsWord(quals[j])
    ensures MatchAt(s, p, quals).None?
    decreases |quals|
  {
    if quals != [] {
      assert In(quals[0][0], Word);
      assert !Occurs(s, p, quals[0]) by {
        assert s[p + 0] != quals[0][0];
      }
      NoMatchAtSpace(s, p, quals[1..]);
    }
  }

  /** Qualifier alternatives that are words, the `k`-th not sharing its first character with an earlier one. */
  predicate Distinguishable(quals: seq<string>, k: nat) {
    k < |quals| &&
    (forall j | 0 <= j < |quals| :: IsWord(quals[j])) &&
    (forall j | 0 <= j < k :: |quals[j]| > 0 && |quals[k]| > 0 && quals[j][0] != quals[k][0])
  }

  /** A match at the current position is recorded and the search resumes where it ends. */
  lemma {:induction false} ScanFromMatch(s: string, p: nat, quals: seq<string>, m: Match)
    requires p < |s| && MatchAt(s, p, quals) == Some(m)
    ensures m.end <= |s|
    ensures ScanFrom(s, p, quals) == [Decl(m.token, m.name)] + ScanFrom(s, m.end, quals)
  {
  }

  /** After a match the `i`-th declaration is the match itself or the `i-1`-th found from its end. */
  lemma {:induction false} ScanFromIndex(s: string, p: nat, quals: seq<string>, m: Match, i: nat)
    requires p < |s| && MatchAt(s, p, quals) == Some(m) && i < |ScanFrom(s, p, quals)|
    ensures m.end <= |s|
    ensures i == 0 ==> ScanFrom(s, p, quals)[i] == Decl(m.token, m.name)
    ensures i > 0 ==> i - 1 < |ScanFrom(s, m.end, quals)| && ScanFrom(s, p, quals)[i] == ScanFrom(s, m.end, quals)[i - 1]
  {
    ScanFromMatch(s, p, quals, m);
  }

  /** Without a match at the current position the search moves on by one. */
  lemma {:induction false} ScanFromSkip(s: string, p: nat, quals: seq<string>)
    requires p < |s| && MatchAt(s, p, quals).None?
    ensures ScanFrom(s, p, quals) == ScanFrom(s, p + 1, quals)
  {
  }

  /** The first declaration is rendered first, then a space and the rest. */
  lemma {:induction false} RenderFirst(q: string, ds: seq<Decl>)
    requires ds != []
    ensures |ds| == 1 ==> Render(q, ds) == Declare(q, ds[0])
    ensures |ds| > 1 ==> Render(q, ds) == Declare(q, ds[0]) + " " + Render(q, ds[1..])
  {
  }

  /**
   * Canonical declarations with alternative `quals[k]`, written from `p` to
   * the end of `s`, are found again, exactly and in order.
   */
  lemma {:induction false} ScanFromRender(s: string, p: nat, quals: seq<string>, k: nat, ds: seq<Decl>)
    requires Distinguishable(quals, k)
    requires forall i | 0 <= i < |ds| :: IsWord(ds[i].token) && IsWord(ds[i].name)
    requires Occurs(s, p, Render(quals[k], ds)) && p + |Render(quals[k], ds)| == |s|
    ensures ScanFrom(s, p, quals) == ds
    decreases |ds|, 1
  {
    if ds != [] {
      var d := ds[0];
      RenderFirst(quals[k], ds);
      if |ds| == 1 {
        MatchAtDeclare(s, p, quals, k, d);
        ScanFromMatch(s, p, quals, Match(d.token, d.name, p + |Declare(quals[k], d)|));
      } else {
        RenderSplit(s, p, quals[k], ds);
        ScanFromRenderMore(s, p, quals, k, d, ds[1..]);
        assert ds == [d] + ds[1..];
      }
    }
  }

  /** `ScanFromRender` past one declaration `d` written at `p` and the space after it. */
  lemma {:induction false} ScanFromRenderMore(s: string, p: nat, quals: seq<string>, k: nat, d: Decl, rest: seq<Decl>)
    requires Distinguishable(quals, k) && IsWord(d.token) && IsWord(d.name)
    requires forall i | 0 <= i < |rest| :: IsWord(rest[i].token) && IsWord(rest[i].name)
    requires Occurs(s, p, Declare(quals[k], d))
    requires p + |Declare(quals[k], d)| < |s| && s[p + |Declare(quals[k], d)|] == ' '
    requires Occurs(s, p + |Declare(quals[k], d)| + 1, Render(quals[k], rest))
    requires p + |Declare(quals[k], d)| + 1 + |Render(quals[k], rest)| == |s|
    ensures ScanFrom(s, p, quals) == [d] + rest
    decreases |rest| + 1, 0
  {
    var end := p + |Declare(quals[k], d)|;
    MatchAtDeclare(s, p, quals, k, d);
    ScanFromMatch(s, p, quals, Match(d.token, d.name, end));
    NoMatchAtSpace(s, end, quals);
    ScanFromSkip(s, end, quals);
    ScanFromRender(s, end + 1, quals, k, rest);
  }

  /** Where the first declaration, the separating space and the rest sit in rendered text. */
  lemma {:induction false} RenderSplit(s: string, p: nat, q: string, ds: seq<Decl>)
    requires |ds| > 1 && Occurs(s, p, Render(q, ds))
    ensures var end := p + |Declare(q, ds[0])|;
      Occurs(s, p, Declare(q, ds[0])) && end < |s| && s[end] == ' ' &&
      Occurs(s, end + 1, Render(q, ds[1..])) &&
      |Render(q, ds)| == |Declare(q, ds[0])| + 1 + |Render(q, ds[1..])|
  {
    var w := Declare(q, ds[0]);
    RenderFirst(q, ds);
    OccursSplit(s, p, w + " ", Render(q, ds[1..]));
    OccursSplit(s, p, w, " ");
    assert s[p + |w| + 0] == " "[0];
  }

  /** Scanning rendered declarations gives them back: `Scan` inverts `Render`. */
  lemma {:induction false} ScanRender(quals: seq<string>, k: nat, ds: seq<Decl>)
    requires Distinguishable(quals, k)
    requires forall i | 0 <= i < |ds| :: IsWord(ds[i].token) && IsWord(ds[i].name)
    ensures Scan(Render(quals[k], ds), quals) == ds
  {
    ScanFromRender(Render(quals[k], ds), 0, quals, k, ds);
  }

  /** Attribute declarations written with `attribute` or with `in` are all found, in order. */
  lemma {:induction false} AttributeRoundTrip(ds: seq<Decl>)
    requires forall i | 0 <= i < |ds| :: IsWord(ds[i].token) && IsWord(ds[i].name)
    ensures Scan(Render("attribute", ds), AttributeQualifiers) == ds
    ensures Scan(Render("in", ds), AttributeQualifiers) == ds
  {
    assert IsWord("attribute") && IsWord("in");
    assert Distinguishable(AttributeQualifiers, 0);
    assert Distinguishable(AttributeQualifiers, 1) by {
      assert AttributeQualifiers[0][0] == 'a' && AttributeQualifiers[1][0] == 'i';
    }
    ScanRender(AttributeQualifiers, 0, ds);
    ScanRender(AttributeQualifiers, 1, ds);
  }

  /** Uniform declarations written one after another are all found, in order. */
  lemma {:induction false} UniformRoundTrip(ds: seq<Decl>)
    requires forall i | 0 <= i < |ds| :: IsWord(ds[i].token) && IsWord(ds[i].name)
    ensures Scan(Render("uniform", ds), UniformQualifiers) == ds
  {
    assert IsWord("uniform");
    assert Distinguishable(UniformQualifiers, 0);
    ScanRender(UniformQualifiers, 0, ds);
  }

  /** `uniform float a; uniform vec3 b;` declares `a` of type `float`, then `b` of type `vec3`. */
  lemma {:induction false} ScanTwoUniforms()
    ensures Scan("uniform float a; uniform vec3 b;", UniformQualifiers) ==
            [Decl("float", "a"), Decl("vec3", "b")]
  {
    var d0, d1 := Decl("float", "a"), Decl("vec3", "b");
    assert Render("uniform", [d1]) == "uniform vec3 b;";
    assert Render("uniform", [d0, d1]) == "uniform float a;" + " " + "uniform vec3 b;";
    assert IsWord("uniform") && IsWord("float") && IsWord("a") && IsWord("vec3") && IsWord("b");
    assert "uniform float a;" + " " + "uniform vec3 b;" == "uniform float a; uniform vec3 b;";
    ScanRender(UniformQualifiers, 0, [d0, d1]);
  }

  /**
   * A declaration with the first qualifier alternative, written with any
   * whitespace (tabs, newlines, indentation, a space before the `;`), is
   * found: `attribute\tvec3\n  pos ;` declares `pos` of type `vec3`.
   */
  lemma {:induction false} WhitespaceDeclaration(quals: seq<string>, w1: string, t: string, w2: string, n: string, w3: string)
    requires quals != []
    requires |w1| > 0 && AllIn(w1, Space) && |w2| > 0 && AllIn(w2, Space) && AllIn(w3, Space)
    requires IsWord(t) && IsWord(n)
    ensures Scan(quals[0] + w1 + t + w2 + n + w3 + ";", quals) == [Decl(t, n)]
  {
    var q := quals[0];
    var tail := w1 + t + w2 + n + w3 + ";";
    var s := q + tail;
    assert s == quals[0] + w1 + t + w2 + n + w3 + ";";
    SliceOccurs(s, 0, |s|);
    assert s[0..|s|] == q + tail;
    OccursSplit(s, 0, q, tail);
    DeclTailMatches(s, |q|, w1, t, w2, n, w3);
    var m := Match(t, n, |s|);
    MatchAtHead(s, 0, quals, m);
    ScanFromMatch(s, 0, quals, m);
  }

  /**
   * The qualifier may be the tail of a longer word: in `pin vec2 uv;` the
   * attribute expression matches from the `in` inside `pin`.
   */
  lemma {:induction false} UnanchoredQualifier()
    ensures Scan("pin vec2 uv;", AttributeQualifiers) == [Decl("vec2", "uv")]
  {
    var s := "pin vec2 uv;";
    var d := Decl("vec2", "uv");
    assert IsWord("attribute") && IsWord("in") && IsWord("vec2") && IsWord("uv");
    assert Occurs(s, 1, Render("in", [d]));
    ScanFromRender(s, 1, AttributeQualifiers, 1, [d]);
    assert !Occurs(s, 0, "attribute") && !Occurs(s, 0, "in");
    assert MatchAt(s, 0, AttributeQualifiers[1..][1..]).None?;
  }
}
