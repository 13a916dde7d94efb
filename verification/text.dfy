/**
 * Characters and lines as the text importer sees them: the whitespace that
 * `String.prototype.trim` removes and that the regular-expression class `\s`
 * matches, the line terminators that `.` refuses, `trim`, and `split('\n')`.
 */
module Text {

  /** The line terminators of ECMAScript: LF, CR, LINE SEPARATOR and PARAGRAPH SEPARATOR. */
  predicate IsLineTerminator(c: char) {
    c == '\n' || c == '\r' || c == '\U{2028}' || c == '\U{2029}'
  }

  /**
   * ECMAScript white space (tab, vertical tab, form feed, space, no-break space,
   * byte order mark and the space separators of category Zs) together with the
   * line terminators: exactly the characters `trim` removes and `\s` matches.
   */
  predicate IsWs(c: char) {
    || IsLineTerminator(c)
    || c == '\t' || c == '\U{000B}' || c == '\U{000C}' || c == ' ' || c == '\U{00A0}' || c == '\U{FEFF}'
    || c == '\U{1680}' || ('\U{2000}' <= c <= '\U{200A}') || c == '\U{202F}' || c == '\U{205F}' || c == '\U{3000}'
  }

  /** Every character of `s` is white space. */
  predicate AllWs(s: string) {
    forall i :: 0 <= i < |s| ==> IsWs(s[i])
  }

  /** No character of `s` is a line terminator, so `.+` can match all of it. */
  predicate NoLineTerminator(s: string) {
    forall i :: 0 <= i < |s| ==> !IsLineTerminator(s[i])
  }

  /** `s` neither starts nor ends with white space. */
  predicate IsTrimmed(s: string) {
    |s| == 0 || (!IsWs(s[0]) && !IsWs(s[|s| - 1]))
  }

  /** The end of the run of white space that starts at `i`. */
  function SkipWs(s: string, i: nat): (j: nat)
    requires i <= |s|
    ensures i <= j <= |s|
    ensures forall k :: i <= k < j ==> IsWs(s[k])
    ensures j == |s| || !IsWs(s[j])
    decreases |s| - i
  {
    if i == |s| || !IsWs(s[i]) then i else SkipWs(s, i + 1)
  }

  /** The start of the run of white space that ends at `j` (exclusive), not going below `lo`. */
  function SkipWsBack(s: string, lo: nat, j: nat): (i: nat)
    requires lo <= j <= |s|
    ensures lo <= i <= j
    ensures forall k :: i <= k < j ==> IsWs(s[k])
    ensures i == lo || !IsWs(s[i - 1])
    decreases j - lo
  {
    if j == lo || !IsWs(s[j - 1]) then j else SkipWsBack(s, lo, j - 1)
  }

  /**
   * `trim`: `s` without its leading and trailing white space. The result is trimmed,
   * is empty exactly when `s` is all white space, and is `s` itself when `s` was
   * already trimmed (so trimming twice is trimming once).
   */
  function Trim(s: string): (r: string)
    ensures IsTrimmed(r)
    ensures |r| == 0 <==> AllWs(s)
    ensures IsTrimmed(s) ==> r == s
    ensures exists a, b :: 0 <= a <= b <= |s| && r == s[a..b] && AllWs(s[..a]) && AllWs(s[b..])
  {
    var a := SkipWs(s, 0);
    var b := SkipWsBack(s, a, |s|);
    assert s[..a] == s[0..a];
    if a == |s| then
      assert AllWs(s);
      s[a..a]
    else
      assert s[b..] == s[b..|s|];
      assert b > a;
      assert !AllWs(s) by { assert !IsWs(s[a]); }
      s[a..b]
  }

  /** Number of occurrences of `c` in `s`. */
  function Occurrences(s: string, c: char): (n: nat)
    ensures n <= |s|
  {
    if |s| == 0 then 0 else (if s[0] == c then 1 else 0) + Occurrences(s[1..], c)
  }

  /**
   * `split('\n')`: the pieces of `s` between line feeds. There is one piece more than
   * there are line feeds, no piece contains one, and joining the pieces with line
   * feeds gives back `s`.
   */
  function SplitLines(s: string): (r: seq<string>)
    ensures |r| == Occurrences(s, '\n') + 1
    ensures forall i :: 0 <= i < |r| ==> '\n' !in r[i]
    ensures JoinLines(r) == s
  {
    if |s| == 0 then [""]
    else if s[0] == '\n' then
      var rest := SplitLines(s[1..]);
      assert s == "\n" + s[1..];
      [""] + rest
    else
      var rest := SplitLines(s[1..]);
      var r := [[s[0]] + rest[0]] + rest[1..];
      assert r[1..] == rest[1..];
      assert |rest| > 1 ==> rest == [rest[0]] + rest[1..];
      assert s == [s[0]] + s[1..];
      r
  }

  /** `join('\n')` of a non-empty sequence of pieces. */
  function JoinLines(ps: seq<string>): string
    requires |ps| > 0
  {
    if |ps| == 1 then ps[0] else ps[0] + "\n" + JoinLines(ps[1..])
  }

  /** Splitting text glued together at a line feed splits each part. */
  lemma {:induction false} SplitAppend(a: string, b: string)
    ensures SplitLines(a + "\n" + b) == SplitLines(a) + SplitLines(b)
  {
    if |a| == 0 {
      assert a + "\n" + b == "\n" + b;
      assert ("\n" + b)[1..] == b;
    } else {
      assert (a + "\n" + b)[0] == a[0];
      assert (a + "\n" + b)[1..] == a[1..] + "\n" + b;
      SplitAppend(a[1..], b);
    }
  }

  /** A string without line feeds is a single piece. */
  lemma {:induction false} SplitSingle(p: string)
    requires '\n' !in p
    ensures SplitLines(p) == [p]
  {
    if |p| > 0 {
      assert '\n' !in p[1..] by {
        assert forall c :: c in p[1..] ==> c in p;
      }
      SplitSingle(p[1..]);
      assert p == [p[0]] + p[1..];
    }
  }

  /** Splitting undoes joining: pieces without line feeds come back unchanged. */
  lemma {:induction false} SplitJoin(ps: seq<string>)
    requires |ps| > 0
    requires forall i :: 0 <= i < |ps| ==> '\n' !in ps[i]
    ensures SplitLines(JoinLines(ps)) == ps
  {
    if |ps| == 1 {
      SplitSingle(ps[0]);
    } else {
      SplitJoin(ps[1..]);
      SplitSingle(ps[0]);
      SplitAppend(ps[0], JoinLines(ps[1..]));
      assert ps == [ps[0]] + ps[1..];
    }
  }

  /** Every piece of all-white-space text is all white space. */
  lemma {:induction false} SplitAllWs(s: string)
    requires AllWs(s)
    ensures forall i :: 0 <= i < |SplitLines(s)| ==> AllWs(SplitLines(s)[i])
  {
    if |s| > 0 {
      assert AllWs(s[1..]);
      SplitAllWs(s[1..]);
      var rest := SplitLines(s[1..]);
      if s[0] != '\n' {
        var r := SplitLines(s);
        assert r[0] == [s[0]] + rest[0];
        forall i | 0 <= i < |r| ensures AllWs(r[i]) {
          if i > 0 {
            assert r[i] == rest[i];
          }
        }
      }
    }
  }
}
