/**
 * The plain-text task importer: `parseTasks` splits text into lines, trims each,
 * skips blank ones, and tries six line patterns in a fixed order of priority; the
 * first that matches yields the line's task. Each regular expression is written
 * here as a recogniser over a trimmed line that returns its first capture group.
 */
module AiParser {
  import opened Wrappers
  import opened Text

  /** The six line patterns, in priority order. */
  datatype Rule = Checklist | Prefix | Header | BoldItem | Bullet | Numbered

  /** A recognised line: the pattern that matched and the task text it yields. */
  datatype Hit = Hit(rule: Rule, task: string)

  /** The text of a capture `(.+)` that must reach the end of the line. */
  predicate IsTail(line: string, t: string) {
    && 0 < |t| <= |line|
    && t == line[|line| - |t|..]
    && NoLineTerminator(t)
  }

  // ----- the shapes the six patterns describe -----

  /** The four checkboxes `\[[ xX]?\]`. */
  predicate IsBox(box: string) {
    box == "[]" || box == "[ ]" || box == "[x]" || box == "[X]"
  }

  /** `-`, optional white space `w1`, a checkbox, white space `w2`, then the capture `t`. */
  predicate ChecklistForm(line: string, w1: string, box: string, w2: string, t: string) {
    && AllWs(w1) && IsBox(box) && 0 < |w2| && AllWs(w2)
    && line == "-" + w1 + (box + (w2 + t))
  }

  /** `word` is `lower` written in any ASCII case. */
  predicate SpelledCi(word: string, lower: string) {
    |word| == |lower| && forall k :: 0 <= k < |word| ==> AsciiLower(word[k]) == lower[k]
  }

  /** The word `lower` written as `word` in any ASCII case, a colon, optional white space `w`, then `t`. */
  predicate WordForm(line: string, lower: string, word: string, w: string, t: string) {
    SpelledCi(word, lower) && AllWs(w) && line == word + (":" + (w + t))
  }

  /** `WordForm` for the prefix word number `v`. */
  predicate PrefixForm(line: string, v: nat, word: string, w: string, t: string) {
    v < |PrefixWords| && WordForm(line, PrefixWords[v], word, w, t)
  }

  /** `n` hash signs. */
  function Hashes(n: nat): (h: string)
    ensures |h| == n && forall k :: 0 <= k < n ==> h[k] == '#'
  {
    seq(n, _ => '#')
  }

  /** One to six `#`, white space `w`, then the capture `t`. */
  predicate HeaderForm(line: string, n: nat, w: string, t: string) {
    1 <= n <= 6 && 0 < |w| && AllWs(w) && line == Hashes(n) + (w + t)
  }

  /**
   * `a` is what the lazy `(.+?)` takes when `**` follows it: the shortest non-empty
   * text after which `**` starts, so no shorter prefix of `a` is followed by `**`.
   */
  predicate ShortestBold(a: string) {
    && 0 < |a|
    && forall k :: 1 <= k < |a| ==> !DoubleStarAt(a + "*", k)
  }

  /** `s` holds `**` at position `k`. */
  predicate DoubleStarAt(s: string, k: nat)
    requires k + 1 < |s|
  {
    s[k] == '*' && s[k + 1] == '*'
  }

  /** A marker `b`, white space `w`, `**`, the bold capture `a`, `**`, then the rest of the line. */
  predicate BoldForm(line: string, b: char, w: string, a: string, rest: string) {
    && (b == '-' || b == '*') && 0 < |w| && AllWs(w)
    && ShortestBold(a) && NoLineTerminator(a) && NoLineTerminator(rest)
    && line == [b] + (w + ("**" + (a + ("**" + rest))))
  }

  /** A marker `b`, white space `w`, then the capture `t`. */
  predicate BulletForm(line: string, b: char, w: string, t: string) {
    (b == '-' || b == '*') && 0 < |w| && AllWs(w) && line == [b] + (w + t)
  }

  /** ASCII digits `d`, a dot, white space `w`, then the capture `t`. */
  predicate NumberedForm(line: string, d: string, w: string, t: string) {
    && 0 < |d| && (forall k :: 0 <= k < |d| ==> '0' <= d[k] <= '9')
    && 0 < |w| && AllWs(w)
    && line == d + ("." + (w + t))
  }

  /** `line` has the shape of `rule`'s pattern with first capture group `c`. */
  ghost predicate Captures(line: string, rule: Rule, c: string) {
    match rule
    case Checklist => exists w1, box, w2 :: ChecklistForm(line, w1, box, w2, c)
    case Prefix => exists v: nat, word, w :: PrefixForm(line, v, word, w, c)
    case Header => exists n: nat, w :: HeaderForm(line, n, w, c)
    case BoldItem => exists b, w, rest :: BoldForm(line, b, w, c, rest)
    case Bullet => exists b, w :: BulletForm(line, b, w, c)
    case Numbered => exists d, w :: NumberedForm(line, d, w, c)
  }

  /** `s[i..]` cut at `j`. */
  lemma Cut(s: string, i: nat, j: nat)
    requires i <= j <= |s|
    ensures s[i..] == s[i..j] + s[j..]
  {
  }

  /** The white-space run `[i, j)` of `line` as a slice. */
  lemma WsSlice(line: string, i: nat, j: nat)
    requires i <= j <= |line|
    requires forall k :: i <= k < j ==> IsWs(line[k])
    ensures AllWs(line[i..j])
  {
    assert forall k :: 0 <= k < j - i ==> line[i..j][k] == line[i + k];
  }

  // ----- the shared tails `\s+(.+)$` and `\s*(.+)$` -----

  /**
   * `\s+(.+)$` from position `i` of a trimmed line: at least one white-space
   * character, then the rest of the line, which must be free of line terminators.
   * The white space is taken greedily, so the capture starts at the first
   * non-white-space character and is itself trimmed.
   */
  function SpaceThenRest(line: string, i: nat): (r: Option<string>)
    requires IsTrimmed(line) && i <= |line|
    ensures r.Some? ==> IsTail(line, r.value) && IsTrimmed(r.value) && |r.value| < |line| - i
    ensures r.Some? ==> AllWs(line[i..|line| - |r.value|])
  {
    var j := SkipWs(line, i);
    if i < j < |line| && NoLineTerminator(line[j..]) then
      WsSlice(line, i, j);
      Some(line[j..])
    else None
  }

  /** `\s*(.+)$` from position `i` of a trimmed line: like `SpaceThenRest`, but the white space may be absent. */
  function OptSpaceThenRest(line: string, i: nat): (r: Option<string>)
    requires IsTrimmed(line) && i <= |line|
    ensures r.Some? ==> IsTail(line, r.value) && IsTrimmed(r.value) && |r.value| <= |line| - i
    ensures r.Some? ==> AllWs(line[i..|line| - |r.value|])
  {
    var j := SkipWs(line, i);
    if j < |line| && NoLineTerminator(line[j..]) then
      WsSlice(line, i, j);
      Some(line[j..])
    else None
  }

  // ----- 1. checklist: ^-\s*\[[ xX]?\]\s+(.+)$ -----

  /** Where a checkbox `[]`, `[ ]`, `[x]` or `[X]` opening at `a` ends, if one does. */
  function CheckboxEnd(line: string, a: nat): (r: Option<nat>)
    requires a < |line| && line[a] == '['
    ensures r.Some? ==> a + 2 <= r.value <= |line| && IsBox(line[a..r.value])
  {
    if a + 1 < |line| && line[a + 1] == ']' then
      assert line[a..a + 2] == [line[a], line[a + 1]];
      Some(a + 2)
    else if a + 2 < |line| && line[a + 1] in " xX" && line[a + 2] == ']' then
      assert line[a..a + 3] == [line[a], line[a + 1], line[a + 2]];
      Some(a + 3)
    else None
  }

  /** A match is a `-`, a checkbox and white space, and captures the rest of the line. */
  function MatchChecklist(line: string): (r: Option<string>)
    requires IsTrimmed(line)
    ensures r.Some? ==> IsTail(line, r.value) && IsTrimmed(r.value) && |r.value| < |line|
    ensures r.Some? ==> line[0] == '-'
  {
    if |line| == 0 || line[0] != '-' then None
    else
      var a := SkipWs(line, 1);
      if a == |line| || line[a] != '[' then None
      else
        match CheckboxEnd(line, a)
        case None => None
        case Some(b) =>
          SpaceThenRest(line, b)
  }

  /** A checklist match is a line of the checklist shape, capturing what the recogniser returns. */
  lemma ChecklistShape(line: string)
    requires IsTrimmed(line)
    ensures MatchChecklist(line).Some? ==> exists w1, box, w2 :: ChecklistForm(line, w1, box, w2, MatchChecklist(line).value)
  {
    if MatchChecklist(line).Some? {
      var a := SkipWs(line, 1);
      var b := CheckboxEnd(line, a).value;
      ChecklistWitness(line, a, b, SpaceThenRest(line, b).value);
    }
  }

  lemma ChecklistWitness(line: string, a: nat, b: nat, t: string)
    requires 0 < |line| && line[0] == '-' && 1 <= a <= b <= |line|
    requires forall k :: 1 <= k < a ==> IsWs(line[k])
    requires IsBox(line[a..b])
    requires b < |line| - |t| && t == line[|line| - |t|..] && AllWs(line[b..|line| - |t|])
    ensures exists w1, box, w2 :: ChecklistForm(line, w1, box, w2, t)
  {
    var p := |line| - |t|;
    WsSlice(line, 1, a);
    Cut(line, b, p);
    Cut(line, a, b);
    Cut(line, 1, a);
    assert line == [line[0]] + line[1..];
    assert ChecklistForm(line, line[1..a], line[a..b], line[b..p], t);
  }

  // ----- 2. prefix: ^(?:todo|to-do|할일|목표|구현|수정|task):\s*(.+)$ with flag i -----

  /** The prefix words, in the order of the alternation (Korean: 할일, 목표, 구현, 수정). */
  const PrefixWords: seq<string> := [
    "todo", "to-do", "\U{D560}\U{C77C}", "\U{BAA9}\U{D45C}", "\U{AD6C}\U{D604}", "\U{C218}\U{C815}", "task"]

  /**
   * Case folding under the `i` flag without the `u` flag: a character is compared by
   * its upper-case form unless that would map a non-ASCII character to an ASCII one,
   * which for the prefix words amounts to ASCII-only case-insensitivity.
   */
  function AsciiLower(c: char): char {
    if 'A' <= c <= 'Z' then (c as int + 32) as char else c
  }

  /** `line` starts with `word` (written in lower case), ignoring ASCII case. */
  predicate StartsWithCi(line: string, word: string) {
    |word| <= |line| && forall k :: 0 <= k < |word| ==> AsciiLower(line[k]) == word[k]
  }

  /**
   * Tries the words from `words[from]` on, in the order of the alternation, each
   * followed by a colon. The prefix pattern runs it on `PrefixWords`.
   */
  function MatchWordsFrom(words: seq<string>, line: string, from: nat): (r: Option<string>)
    requires IsTrimmed(line) && from <= |words|
    ensures r.Some? ==> IsTail(line, r.value) && IsTrimmed(r.value)
    ensures r.Some? ==> |r.value| < |line|
    decreases |words| - from
  {
    if from == |words| then None
    else
      var word := words[from];
      var m := if StartsWithCi(line, word) && |word| < |line| && line[|word|] == ':'
               then OptSpaceThenRest(line, |word| + 1) else None;
      if m.Some? then m else MatchWordsFrom(words, line, from + 1)
  }

  /** The prefix pattern: a prefix word in any ASCII case and a colon, capturing the rest after optional white space. */
  function MatchPrefix(line: string): (r: Option<string>)
    requires IsTrimmed(line)
    ensures r.Some? ==> IsTail(line, r.value) && IsTrimmed(r.value) && |r.value| < |line|
  {
    MatchWordsFrom(PrefixWords, line, 0)
  }

  /** `r`, if present, is the capture of a line of the shape of one of `words`. */
  ghost predicate WordsShaped(words: seq<string>, line: string, r: Option<string>) {
    r.Some? ==> exists v: nat, word, w :: v < |words| && WordForm(line, words[v], word, w, r.value)
  }

  /** A match from `words[from]` on is a line of the shape of one of the words. */
  lemma {:induction false} WordsFromShape(words: seq<string>, line: string, from: nat)
    requires IsTrimmed(line) && from <= |words|
    ensures WordsShaped(words, line, MatchWordsFrom(words, line, from))
    decreases |words| - from
  {
    if from == |words| {
      assert MatchWordsFrom(words, line, from).None?;
    } else {
      var n := |words[from]|;
      if StartsWithCi(line, words[from]) && n < |line| && line[n] == ':' && OptSpaceThenRest(line, n + 1).Some? {
        WordHitShape(words, line, from);
      } else {
        WordMiss(words, line, from);
        WordsFromShape(words, line, from + 1);
      }
    }
  }

  /** The try of a word the line does not start with, followed by a colon and a capture, falls to the next word. */
  lemma WordMiss(words: seq<string>, line: string, v: nat)
    requires IsTrimmed(line) && v < |words|
    requires !(StartsWithCi(line, words[v]) && |words[v]| < |line| && line[|words[v]|] == ':'
               && OptSpaceThenRest(line, |words[v]| + 1).Some?)
    ensures MatchWordsFrom(words, line, v) == MatchWordsFrom(words, line, v + 1)
  {
  }

  /** The try of the word `words[v]` succeeds on a line of that word's shape. */
  lemma WordHitShape(words: seq<string>, line: string, v: nat)
    requires IsTrimmed(line) && v < |words|
    requires StartsWithCi(line, words[v]) && |words[v]| < |line| && line[|words[v]|] == ':'
    requires OptSpaceThenRest(line, |words[v]| + 1).Some?
    ensures WordsShaped(words, line, MatchWordsFrom(words, line, v))
  {
    var m := OptSpaceThenRest(line, |words[v]| + 1);
    assert MatchWordsFrom(words, line, v) == m;
    WordWitness(line, words[v], m.value);
    var word, w :| WordForm(line, words[v], word, w, m.value);
  }

  lemma WordWitness(line: string, lower: string, t: string)
    requires StartsWithCi(line, lower) && |lower| < |line| && line[|lower|] == ':'
    requires |lower| + 1 <= |line| - |t| && t == line[|line| - |t|..]
    requires AllWs(line[|lower| + 1..|line| - |t|])
    ensures exists word, w :: WordForm(line, lower, word, w, t)
  {
    var n, p := |lower|, |line| - |t|;
    var word := line[..n];
    assert forall k :: 0 <= k < n ==> word[k] == line[k];
    MarkCut(line, n, p);
    assert WordForm(line, lower, word, line[n + 1..p], t);
  }

  /** A line cut around the one-character mark at `n` and at `p`. */
  lemma MarkCut(line: string, n: nat, p: nat)
    requires n < p <= |line|
    ensures line == line[..n] + ([line[n]] + (line[n + 1..p] + line[p..]))
  {
    Cut(line, n + 1, p);
    assert line[n..] == [line[n]] + line[n + 1..];
    assert line == line[..n] + line[n..];
  }

  /** A prefix match is a line of the prefix shape, capturing what the recogniser returns. */
  lemma PrefixShape(line: string)
    requires IsTrimmed(line)
    ensures MatchPrefix(line).Some? ==> exists v: nat, word, w :: PrefixForm(line, v, word, w, MatchPrefix(line).value)
  {
    WordsFromShape(PrefixWords, line, 0);
    if MatchPrefix(line).Some? {
      var v: nat, word, w :| v < |PrefixWords| && WordForm(line, PrefixWords[v], word, w, MatchPrefix(line).value);
      assert PrefixForm(line, v, word, w, MatchPrefix(line).value);
    }
  }

  // ----- 3. header: ^#{1,6}\s+(.+)$ -----

  /** Number of consecutive `c` characters at the start of `s`. */
  function LeadingCount(s: string, c: char): (n: nat)
    ensures n <= |s|
    ensures forall k :: 0 <= k < n ==> s[k] == c
    ensures n == |s| || s[n] != c
  {
    if |s| == 0 || s[0] != c then 0 else 1 + LeadingCount(s[1..], c)
  }

  /** A match is one to six `#` and white space, and captures the rest of the line. */
  function MatchHeader(line: string): (r: Option<string>)
    requires IsTrimmed(line)
    ensures r.Some? ==> IsTail(line, r.value) && IsTrimmed(r.value)
    ensures r.Some? ==> |r.value| < |line|
    ensures r.Some? ==> 1 <= LeadingCount(line, '#') <= 6 && LeadingCount(line, '#') < |line| && IsWs(line[LeadingCount(line, '#')])
  {
    var n := LeadingCount(line, '#');
    if 1 <= n <= 6 then SpaceThenRest(line, n) else None
  }

  /** A header match is a line of the header shape, capturing what the recogniser returns. */
  lemma HeaderShape(line: string)
    requires IsTrimmed(line)
    ensures MatchHeader(line).Some? ==> exists n: nat, w :: HeaderForm(line, n, w, MatchHeader(line).value)
  {
    if MatchHeader(line).Some? {
      var n := LeadingCount(line, '#');
      HeaderWitness(line, n, SpaceThenRest(line, n).value);
    }
  }

  lemma HeaderWitness(line: string, n: nat, t: string)
    requires 1 <= n <= 6 && n <= |line| && forall k :: 0 <= k < n ==> line[k] == '#'
    requires n < |line| - |t| && t == line[|line| - |t|..] && AllWs(line[n..|line| - |t|])
    ensures exists w :: HeaderForm(line, n, w, t)
  {
    assert line[..n] == Hashes(n);
    Cut(line, n, |line| - |t|);
    assert line == line[..n] + line[n..];
    assert HeaderForm(line, n, line[n..|line| - |t|], t);
  }

  // ----- 4. bold item: ^[-*]\s+\*\*(.+?)\*\*(.*)$ -----

  /** The first position `e >= from` where `**` starts, if any. */
  function FindDoubleStar(s: string, from: nat): (r: Option<nat>)
    requires from <= |s|
    ensures r.Some? ==> from <= r.value && r.value + 2 <= |s| && s[r.value] == '*' && s[r.value + 1] == '*'
    ensures forall e :: from <= e && e + 2 <= |s| && (r.None? || e < r.value) ==> !(s[e] == '*' && s[e + 1] == '*')
    decreases |s| - from
  {
    if from + 2 > |s| then None
    else if s[from] == '*' && s[from + 1] == '*' then Some(from)
    else FindDoubleStar(s, from + 1)
  }

  /**
   * Returns the lazily matched bold text (untrimmed): everything after the opening
   * `**` up to the first `**` that leaves it non-empty. The rest of the line after
   * the opening `**` must be free of line terminators.
   */
  function MatchBold(line: string): (r: Option<string>)
    requires IsTrimmed(line)
    ensures r.Some? ==> |r.value| > 0 && NoLineTerminator(r.value) && |line| > 0 && (line[0] == '-' || line[0] == '*')
  {
    if |line| == 0 || (line[0] != '-' && line[0] != '*') then None
    else
      var j := SkipWs(line, 1);
      if j == 1 || j + 2 > |line| || line[j] != '*' || line[j + 1] != '*' || !NoLineTerminator(line[j + 2..]) then None
      else if j + 3 > |line| then None
      else
        match FindDoubleStar(line, j + 3)
        case None => None
        case Some(e) =>
          NoLineTerminatorPrefix(line[j + 2..], e - j - 2);
          assert line[j + 2..][..e - j - 2] == line[j + 2..e];
          Some(line[j + 2..e])
  }

  /** A prefix of a text free of line terminators is free of them too. */
  lemma NoLineTerminatorPrefix(s: string, n: nat)
    requires n <= |s| && NoLineTerminator(s)
    ensures NoLineTerminator(s[..n])
  {
    assert forall k :: 0 <= k < n ==> s[..n][k] == s[k];
  }

  /** A bold match is a line of the bold shape, capturing what the recogniser returns. */
  lemma BoldShape(line: string)
    requires IsTrimmed(line)
    ensures MatchBold(line).Some? ==> exists b, w, rest :: BoldForm(line, b, w, MatchBold(line).value, rest)
  {
    if MatchBold(line).Some? {
      var j := SkipWs(line, 1);
      var e := FindDoubleStar(line, j + 3).value;
      BoldWitness(line, j, e, line[j + 2..e]);
    }
  }

  lemma BoldWitness(line: string, j: nat, e: nat, a: string)
    requires 0 < |line| && (line[0] == '-' || line[0] == '*')
    requires 1 < j && j + 3 <= e && e + 2 <= |line|
    requires forall k :: 1 <= k < j ==> IsWs(line[k])
    requires line[j] == '*' && line[j + 1] == '*' && line[e] == '*' && line[e + 1] == '*'
    requires NoLineTerminator(line[j + 2..])
    requires forall k :: j + 3 <= k && k + 2 <= |line| && k < e ==> !(line[k] == '*' && line[k + 1] == '*')
    requires a == line[j + 2..e]
    ensures exists b, w, rest :: BoldForm(line, b, w, a, rest)
  {
    var rest := line[e + 2..];
    BoldCapture(line, j, e, a);
    BoldRest(line, j, e, rest);
    WsSlice(line, 1, j);
    BoldCuts(line, j, e);
    assert BoldForm(line, line[0], line[1..j], a, rest);
  }

  /** The lazily captured bold text is the shortest possible and holds no line terminator. */
  lemma BoldCapture(line: string, j: nat, e: nat, a: string)
    requires j + 3 <= e && e + 2 <= |line| && line[e] == '*'
    requires NoLineTerminator(line[j + 2..])
    requires forall k :: j + 3 <= k && k + 2 <= |line| && k < e ==> !(line[k] == '*' && line[k + 1] == '*')
    requires a == line[j + 2..e]
    ensures ShortestBold(a) && NoLineTerminator(a)
  {
    var after := line[j + 2..];
    assert forall k :: 0 <= k < |a| ==> a[k] == after[k] == line[j + 2 + k];
    forall k | 1 <= k < |a| ensures !DoubleStarAt(a + "*", k) {
      assert (a + "*")[k] == line[j + 2 + k];
      assert (a + "*")[k + 1] == line[j + 2 + k + 1];
    }
  }

  /** What follows the closing `**` holds no line terminator. */
  lemma BoldRest(line: string, j: nat, e: nat, rest: string)
    requires j + 3 <= e && e + 2 <= |line|
    requires NoLineTerminator(line[j + 2..])
    requires rest == line[e + 2..]
    ensures NoLineTerminator(rest)
  {
    var after := line[j + 2..];
    forall k | 0 <= k < |rest| ensures !IsLineTerminator(rest[k]) {
      assert rest[k] == after[e - j + k];
    }
  }

  /** A bold line cut into marker, white space, `**`, capture, `**` and rest. */
  lemma BoldCuts(line: string, j: nat, e: nat)
    requires 0 < |line| && 1 < j && j + 3 <= e && e + 2 <= |line|
    requires line[j] == '*' && line[j + 1] == '*' && line[e] == '*' && line[e + 1] == '*'
    ensures line == [line[0]] + (line[1..j] + ("**" + (line[j + 2..e] + ("**" + line[e + 2..]))))
  {
    Cut(line, e, e + 2);
    Cut(line, j + 2, e);
    Cut(line, j, j + 2);
    Cut(line, 1, j);
    assert line[j..j + 2] == "**" && line[e..e + 2] == "**";
    assert line == [line[0]] + line[1..];
  }

  // ----- 5. bullet: ^[-*]\s+(.+)$ -----

  /** A match is a `-` or `*` marker and white space, and captures the rest of the line. */
  function MatchBullet(line: string): (r: Option<string>)
    requires IsTrimmed(line)
    ensures r.Some? ==> IsTail(line, r.value) && IsTrimmed(r.value) && |r.value| < |line|
    ensures r.Some? ==> line[0] == '-' || line[0] == '*'
  {
    if |line| == 0 || (line[0] != '-' && line[0] != '*') then None
    else SpaceThenRest(line, 1)
  }

  /** A bullet match is a line of the bullet shape, capturing what the recogniser returns. */
  lemma BulletShape(line: string)
    requires IsTrimmed(line)
    ensures MatchBullet(line).Some? ==> exists b, w :: BulletForm(line, b, w, MatchBullet(line).value)
  {
    if MatchBullet(line).Some? {
      BulletWitness(line, SpaceThenRest(line, 1).value);
    }
  }

  lemma BulletWitness(line: string, t: string)
    requires 0 < |line| && (line[0] == '-' || line[0] == '*')
    requires 1 < |line| - |t| && t == line[|line| - |t|..] && AllWs(line[1..|line| - |t|])
    ensures exists b, w :: BulletForm(line, b, w, t)
  {
    Cut(line, 1, |line| - |t|);
    assert line == [line[0]] + line[1..];
    assert BulletForm(line, line[0], line[1..|line| - |t|], t);
  }

  // ----- 6. numbered: ^\d+\.\s+(.+)$ -----

  /** Number of ASCII digits at the start of `s` (`\d` without the `u` flag). */
  function LeadingDigits(s: string): (n: nat)
    ensures n <= |s|
    ensures forall k :: 0 <= k < n ==> '0' <= s[k] <= '9'
    ensures n == |s| || !('0' <= s[n] <= '9')
  {
    if |s| == 0 || !('0' <= s[0] <= '9') then 0 else 1 + LeadingDigits(s[1..])
  }

  /** A match is ASCII digits, a dot and white space, and captures the rest of the line. */
  function MatchNumbered(line: string): (r: Option<string>)
    requires IsTrimmed(line)
    ensures r.Some? ==> IsTail(line, r.value) && IsTrimmed(r.value) && |r.value| < |line|
    ensures r.Some? ==> '0' <= line[0] <= '9'
  {
    var n := LeadingDigits(line);
    if n == 0 || n == |line| || line[n] != '.' then None
    else SpaceThenRest(line, n + 1)
  }

  /** A numbered match is a line of the numbered shape, capturing what the recogniser returns. */
  lemma NumberedShape(line: string)
    requires IsTrimmed(line)
    ensures MatchNumbered(line).Some? ==> exists d, w :: NumberedForm(line, d, w, MatchNumbered(line).value)
  {
    if MatchNumbered(line).Some? {
      var n := LeadingDigits(line);
      NumberedWitness(line, n, SpaceThenRest(line, n + 1).value);
    }
  }

  lemma NumberedWitness(line: string, n: nat, t: string)
    requires 0 < n < |line| && line[n] == '.' && forall k :: 0 <= k < n ==> '0' <= line[k] <= '9'
    requires n + 1 < |line| - |t| && t == line[|line| - |t|..] && AllWs(line[n + 1..|line| - |t|])
    ensures exists d, w :: NumberedForm(line, d, w, t)
  {
    assert forall k :: 0 <= k < n ==> line[..n][k] == line[k];
    Cut(line, n + 1, |line| - |t|);
    Cut(line, n, n + 1);
    assert line[n..n + 1] == ".";
    assert line == line[..n] + line[n..];
    assert NumberedForm(line, line[..n], line[n + 1..|line| - |t|], t);
  }

  // ----- one line -----

  /** The recogniser of each pattern. */
  function Recognise(rule: Rule, line: string): Option<string>
    requires IsTrimmed(line)
  {
    match rule
    case Checklist => MatchChecklist(line)
    case Prefix => MatchPrefix(line)
    case Header => MatchHeader(line)
    case BoldItem => MatchBold(line)
    case Bullet => MatchBullet(line)
    case Numbered => MatchNumbered(line)
  }

  /** The position of each pattern in the order in which they are tried. */
  function Rank(rule: Rule): nat {
    match rule
    case Checklist => 0
    case Prefix => 1
    case Header => 2
    case BoldItem => 3
    case Bullet => 4
    case Numbered => 5
  }

  /** Every pattern tried before `rule` fails on `line`. */
  predicate FailsBefore(rule: Rule, line: string)
    requires IsTrimmed(line)
  {
    forall q :: Rank(q) < Rank(rule) ==> Recognise(q, line).None?
  }

  /** None of the six patterns matches `line`. */
  predicate NoneMatch(line: string)
    requires IsTrimmed(line)
  {
    forall q :: Recognise(q, line).None?
  }

  /** `FailsBefore` and `NoneMatch` spelt out pattern by pattern. */
  lemma FailsBeforeCases(line: string)
    requires IsTrimmed(line)
    ensures FailsBefore(Checklist, line)
    ensures FailsBefore(Prefix, line) <==> Recognise(Checklist, line).None?
    ensures FailsBefore(Header, line) <==> FailsBefore(Prefix, line) && Recognise(Prefix, line).None?
    ensures FailsBefore(BoldItem, line) <==> FailsBefore(Header, line) && Recognise(Header, line).None?
    ensures FailsBefore(Bullet, line) <==> FailsBefore(BoldItem, line) && Recognise(BoldItem, line).None?
    ensures FailsBefore(Numbered, line) <==> FailsBefore(Bullet, line) && Recognise(Bullet, line).None?
    ensures NoneMatch(line) <==> FailsBefore(Numbered, line) && Recognise(Numbered, line).None?
  {
    FailsBeforeNext(line, Checklist, Prefix);
    FailsBeforeNext(line, Prefix, Header);
    FailsBeforeNext(line, Header, BoldItem);
    FailsBeforeNext(line, BoldItem, Bullet);
    FailsBeforeNext(line, Bullet, Numbered);
    if FailsBefore(Numbered, line) && Recognise(Numbered, line).None? {
      forall q ensures Recognise(q, line).None? {
        RankIndexes(q);
        RankIndexes(Numbered);
      }
    }
  }

  /** The patterns in the order in which they are tried. */
  const Rules: seq<Rule> := [Checklist, Prefix, Header, BoldItem, Bullet, Numbered]

  lemma RankIndexes(q: Rule)
    ensures Rank(q) < |Rules| && Rules[Rank(q)] == q
  {
    match q
    case Checklist =>
    case Prefix =>
    case Header =>
    case BoldItem =>
    case Bullet =>
    case Numbered =>
  }

  /** The patterns tried before `next` are those tried before `rule`, and `rule` itself. */
  lemma FailsBeforeNext(line: string, rule: Rule, next: Rule)
    requires IsTrimmed(line) && Rank(next) == Rank(rule) + 1
    ensures FailsBefore(next, line) <==> FailsBefore(rule, line) && Recognise(rule, line).None?
  {
    if FailsBefore(rule, line) && Recognise(rule, line).None? {
      forall q | Rank(q) < Rank(next) ensures Recognise(q, line).None? {
        if Rank(q) == Rank(rule) {
          RankIndexes(q);
          RankIndexes(rule);
        }
      }
    }
  }

  /**
   * The first of the six patterns that matches a trimmed line, with its capture as
   * matched (before the final `trim`): the reported pattern matches, every pattern
   * tried before it fails, and nothing is reported only when all six fail.
   */
  function FirstMatch(line: string): (r: Option<Hit>)
    requires IsTrimmed(line)
    ensures r.Some? ==> Recognise(r.value.rule, line) == Some(r.value.task)
    ensures r.Some? ==> FailsBefore(r.value.rule, line)
    ensures r.None? ==> NoneMatch(line)
    ensures r.Some? ==> 0 < |r.value.task| && NoLineTerminator(r.value.task)
    ensures r.Some? && r.value.rule != BoldItem ==> IsTail(line, r.value.task) && IsTrimmed(r.value.task) && |r.value.task| < |line|
  {
    FailsBeforeCases(line);
    match MatchChecklist(line)
    case Some(t) => Some(Hit(Checklist, t))
    case None =>
    match MatchPrefix(line)
    case Some(t) => Some(Hit(Prefix, t))
    case None =>
    match MatchHeader(line)
    case Some(t) => Some(Hit(Header, t))
    case None =>
    match MatchBold(line)
    case Some(t) => Some(Hit(BoldItem, t))
    case None =>
    match MatchBullet(line)
    case Some(t) => Some(Hit(Bullet, t))
    case None =>
    match MatchNumbered(line)
    case Some(t) => Some(Hit(Numbered, t))
    case None => None
  }

  /**
   * Classifies a trimmed line: the first of the six patterns that matches yields its
   * trimmed capture, and a line that none of them matches yields nothing. Every task
   * is trimmed and free of line terminators; all rules but the bold one yield a
   * non-empty task, shorter than the line.
   */
  function Classify(line: string): (r: Option<Hit>)
    requires IsTrimmed(line)
    ensures r.None? <==> NoneMatch(line)
    ensures r.Some? ==> IsTrimmed(r.value.task) && NoLineTerminator(r.value.task)
    ensures r.Some? && r.value.rule != BoldItem ==> 0 < |r.value.task| < |line|
    ensures |line| == 0 ==> r.None?
  {
    match FirstMatch(line)
    case None => None
    case Some(h) =>
      TrimKeepsNoLineTerminator(h.task);
      Some(Hit(h.rule, Trim(h.task)))
  }

  /**
   * A task always comes from a line of its pattern's shape: it is the trimmed
   * capture of that pattern, and for all rules but the bold one the capture is
   * already trimmed.
   */
  lemma ClassifyCaptures(line: string)
    requires IsTrimmed(line)
    ensures Classify(line).Some? ==>
      exists c :: Captures(line, Classify(line).value.rule, c) && Classify(line).value.task == Trim(c)
    ensures Classify(line).Some? && Classify(line).value.rule != BoldItem ==>
      Captures(line, Classify(line).value.rule, Classify(line).value.task)
  {
    var h := FirstMatch(line);
    if h.Some? {
      RecogniseCaptures(h.value.rule, line);
    }
  }

  /** Whatever a pattern's recogniser returns is a capture of that pattern's shape. */
  lemma RecogniseCaptures(rule: Rule, line: string)
    requires IsTrimmed(line)
    ensures Recognise(rule, line).Some? ==> Captures(line, rule, Recognise(rule, line).value)
  {
    match rule
    case Checklist => ChecklistShape(line);
    case Prefix => PrefixShape(line);
    case Header => HeaderShape(line);
    case BoldItem => BoldShape(line);
    case Bullet => BulletShape(line);
    case Numbered => NumberedShape(line);
  }

  /** Trimming cannot introduce a line terminator. */
  lemma TrimKeepsNoLineTerminator(t: string)
    requires NoLineTerminator(t)
    ensures NoLineTerminator(Trim(t))
  {
    var a, b :| 0 <= a <= b <= |t| && Trim(t) == t[a..b] && AllWs(t[..a]) && AllWs(t[b..]);
    assert forall k :: 0 <= k < b - a ==> t[a..b][k] == t[a + k];
  }

  // ----- whole text -----

  /** What one raw line contributes: nothing if it is blank, else its classification. */
  function ParseLine(line: string): (r: Option<string>)
    ensures r.Some? ==> IsTrimmed(r.value) && NoLineTerminator(r.value)
    ensures AllWs(line) ==> r.None?
  {
    var t := Trim(line);
    if |t| == 0 then None
    else
      match Classify(t)
      case Some(h) => Some(h.task)
      case None => None
  }

  /** The tasks of a sequence of lines, at most one per line, in line order. */
  function ParseLines(lines: seq<string>): (r: seq<string>)
    ensures |r| <= |lines|
    ensures forall i :: 0 <= i < |r| ==> IsTrimmed(r[i]) && NoLineTerminator(r[i])
  {
    if |lines| == 0 then []
    else
      var rest := ParseLines(lines[1..]);
      var head := ParseLine(lines[0]);
      if head.Some? then [head.value] + rest else rest
  }

  /**
   * `parseTasks`: the tasks of `text`, at most one per line of `split('\n')`, each
   * trimmed and free of line terminators.
   */
  function ParseTasks(text: string): (r: seq<string>)
    ensures |r| <= Occurrences(text, '\n') + 1
    ensures forall i :: 0 <= i < |r| ==> IsTrimmed(r[i]) && NoLineTerminator(r[i])
  {
    ParseLines(SplitLines(text))
  }
}
