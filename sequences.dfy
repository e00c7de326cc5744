/** Facts about sequence concatenation and slicing that the proofs about tables and call traces share. */
module Sequences {
  /** Taking one more element of `b` after `a` appends that element. */
  lemma {:induction false} SnocSlice<T>(a: seq<T>, b: seq<T>, j: nat)
    requires j < |b|
    ensures a + b[..j + 1] == (a + b[..j]) + [b[j]]
  {
    assert b[..j + 1] == b[..j] + [b[j]];
  }

  /** The four consecutive parts of `c` can be sliced back out of it. */
  lemma {:induction false} Slices<T>(x: seq<T>, e: seq<T>, p: seq<T>, t: seq<T>, c: seq<T>)
    requires c == x + e + p + t
    ensures |c| == |x| + |e| + |p| + |t|
    ensures c[..|x|] == x && c[|x|..|x| + |e|] == e
    ensures c[|x| + |e|..|x| + |e| + |p|] == p && c[|x| + |e| + |p|..] == t
  {
    assert c == x + (e + (p + t));
    assert c[|x|..] == e + (p + t);
    assert c[|x| + |e|..] == p + t;
  }

  /** Concatenation is associative. */
  lemma {:induction false} Associative<T>(a: seq<T>, b: seq<T>, c: seq<T>)
    ensures a + (b + c) == a + b + c
  {
  }
}
