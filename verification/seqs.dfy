/**
 * Order-preserving filtering of sequences: the `Array.prototype.filter` that the
 * list store uses to delete lists and to drop listeners.
 */
module Seqs {

  /** Number of positions of `s` whose element satisfies `p`. */
  function Count<T>(s: seq<T>, p: T -> bool): (n: nat)
    ensures n <= |s|
  {
    if |s| == 0 then 0 else (if p(s[0]) then 1 else 0) + Count(s[1..], p)
  }

  /** `a` is obtained from `b` by deleting zero or more elements, keeping the order of the rest. */
  predicate IsSubseq<T(==,!new)>(a: seq<T>, b: seq<T>)
    decreases |b|
  {
    if |a| == 0 then true
    else if |b| == 0 then false
    else (a[0] == b[0] && IsSubseq(a[1..], b[1..])) || IsSubseq(a, b[1..])
  }

  /** The elements of `s` that satisfy `p`, in their original order. */
  function Filter<T(==,!new)>(s: seq<T>, p: T -> bool): (r: seq<T>)
    ensures |r| == Count(s, p)
    ensures forall x :: x in r <==> x in s && p(x)
    ensures IsSubseq(r, s)
  {
    if |s| == 0 then []
    else if p(s[0]) then [s[0]] + Filter(s[1..], p)
    else Filter(s[1..], p)
  }

  /** Filtering a concatenation filters each part. */
  lemma {:induction false} FilterAppend<T(!new)>(a: seq<T>, b: seq<T>, p: T -> bool)
    ensures Filter(a + b, p) == Filter(a, p) + Filter(b, p)
  {
    if |a| == 0 {
      assert a + b == b;
    } else {
      assert (a + b)[0] == a[0];
      assert (a + b)[1..] == a[1..] + b;
      FilterAppend(a[1..], b, p);
    }
  }

  /** A subsequence whose elements all satisfy `p` has at most `Count(s, p)` elements. */
  lemma {:induction false} SubseqCountBound<T(!new)>(r: seq<T>, s: seq<T>, p: T -> bool)
    requires IsSubseq(r, s)
    requires forall x :: x in r ==> p(x)
    ensures |r| <= Count(s, p)
    decreases |s|
  {
    if |r| == 0 {
    } else if r[0] == s[0] && IsSubseq(r[1..], s[1..]) {
      assert forall x :: x in r[1..] ==> x in r;
      SubseqCountBound(r[1..], s[1..], p);
      assert r[0] in r;
    } else {
      SubseqCountBound(r, s[1..], p);
    }
  }

  /**
   * `Filter` is the only sequence that is a subsequence of `s`, holds only elements
   * satisfying `p`, and has one element per position of `s` that satisfies `p`.
   */
  lemma {:induction false} FilterCharacterization<T(!new)>(r: seq<T>, s: seq<T>, p: T -> bool)
    requires IsSubseq(r, s)
    requires forall x :: x in r ==> p(x)
    requires |r| == Count(s, p)
    ensures r == Filter(s, p)
    decreases |s|
  {
    if |r| == 0 {
      if |s| > 0 && !p(s[0]) {
        FilterCharacterization(r, s[1..], p);
      }
    } else if r[0] == s[0] && IsSubseq(r[1..], s[1..]) {
      assert r[0] in r;
      assert forall x :: x in r[1..] ==> x in r;
      FilterCharacterization(r[1..], s[1..], p);
      assert r == [r[0]] + r[1..];
    } else {
      assert IsSubseq(r, s[1..]);
      SubseqCountBound(r, s[1..], p);
      if p(s[0]) {
        assert false;
      } else {
        FilterCharacterization(r, s[1..], p);
      }
    }
  }

  /** When every element satisfies `p`, filtering changes nothing. */
  lemma {:induction false} FilterAll<T(!new)>(s: seq<T>, p: T -> bool)
    requires forall x :: x in s ==> p(x)
    ensures Filter(s, p) == s
  {
    if |s| > 0 {
      assert forall x :: x in s[1..] ==> x in s;
      FilterAll(s[1..], p);
      assert s == [s[0]] + s[1..];
    }
  }

  /** Every element of a subsequence is an element of the sequence. */
  lemma {:induction false} SubseqMembers<T(!new)>(a: seq<T>, b: seq<T>)
    requires IsSubseq(a, b)
    ensures forall x :: x in a ==> x in b
    decreases |b|
  {
    if |a| == 0 {
    } else if a[0] == b[0] && IsSubseq(a[1..], b[1..]) {
      SubseqMembers(a[1..], b[1..]);
      assert a == [a[0]] + a[1..];
      assert b == [b[0]] + b[1..];
    } else {
      SubseqMembers(a, b[1..]);
      assert b == [b[0]] + b[1..];
    }
  }
}
