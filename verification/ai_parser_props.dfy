/**
 * Properties of the text importer: what each line shape yields, which rule wins
 * when two could apply, that lines are independent of each other, and that blank
 * text yields nothing.
 */
module AiParserProps {
  import opened Wrappers
  import opened Text
  import opened AiParser

  // ----- helpers about the recognisers' building blocks -----

  /** A white-space run of length `n` at `i`, followed by a non-white-space character or the end. */
  lemma {:induction false} SkipWsRun(s: string, i: nat, n: nat)
    requires i + n <= |s|
    requires forall k :: i <= k < i + n ==> IsWs(s[k])
    requires i + n == |s| || !IsWs(s[i + n])
    ensures SkipWs(s, i) == i + n
    decreases n
  {
    if n > 0 {
      SkipWsRun(s, i + 1, n - 1);
    }
  }

  /** `\s+(.+)$` at `i` yields `t` when `i` starts a non-empty white-space run that `t` follows to the end. */
  lemma SpaceThenRestYields(line: string, i: nat, w: string, t: string)
    requires IsTrimmed(line) && i <= |line|
    requires line[i..] == w + t
    requires AllWs(w) && |w| > 0
    requires |t| > 0 && !IsWs(t[0]) && NoLineTerminator(t)
    ensures SpaceThenRest(line, i) == Some(t)
    ensures OptSpaceThenRest(line, i) == Some(t)
  {
    forall k | i <= k < i + |w| ensures IsWs(line[k]) {
      assert line[k] == line[i..][k - i] == w[k - i];
    }
    assert line[i + |w|] == line[i..][|w|] == t[0];
    SkipWsRun(line, i, |w|);
    assert line[i + |w|..] == line[i..][|w|..] == t;
  }

  /** `\s*(.+)$` at `i` with no white space at all yields the rest of the line. */
  lemma OptSpaceThenRestNoSpace(line: string, i: nat, t: string)
    requires IsTrimmed(line) && i <= |line|
    requires line[i..] == t
    requires |t| > 0 && !IsWs(t[0]) && NoLineTerminator(t)
    ensures OptSpaceThenRest(line, i) == Some(t)
  {
    assert line[i] == t[0];
    SkipWsRun(line, i, 0);
  }

  /** Each prefix word starts with a character that no other rule starts with. */
  lemma PrefixWordsStart()
    ensures forall v :: 0 <= v < |PrefixWords| ==>
      |PrefixWords[v]| >= 2 && ('a' <= PrefixWords[v][0] <= 'z' || '\U{AC00}' <= PrefixWords[v][0] <= '\U{D7A3}') && PrefixWords[v][0] != '-' && PrefixWords[v][0] != '*' && PrefixWords[v][0] != '#'
      && !('0' <= PrefixWords[v][0] <= '9') && ':' !in PrefixWords[v]
  {
  }

  /** A line whose first character, ignoring ASCII case, starts none of `words` matches none of them. */
  lemma {:induction false} NoWordFrom(words: seq<string>, line: string, w: nat)
    requires IsTrimmed(line) && |line| > 0 && w <= |words|
    requires forall v :: 0 <= v < |words| ==> 0 < |words[v]| && AsciiLower(line[0]) != words[v][0]
    ensures MatchWordsFrom(words, line, w) == None
    decreases |words| - w
  {
    if w < |words| {
      assert !StartsWithCi(line, words[w]);
      NoWordFrom(words, line, w + 1);
    }
  }

  /** A line starting with `-`, `*`, `#` or a digit matches no prefix word. */
  lemma NoPrefix(line: string)
    requires IsTrimmed(line) && |line| > 0
    requires line[0] == '-' || line[0] == '*' || line[0] == '#' || '0' <= line[0] <= '9'
    ensures MatchPrefix(line) == None
  {
    PrefixWordsStart();
    assert AsciiLower(line[0]) == line[0];
    NoWordFrom(PrefixWords, line, 0);
  }

  /**
   * What `(.+)$` captures after greedy white space at the end of a trimmed line:
   * non-empty, free of line terminators, and neither starting nor ending with white
   * space.
   */
  predicate IsCapture(t: string) {
    0 < |t| && IsTrimmed(t) && NoLineTerminator(t)
  }

  /** A task reported under a rule other than the bold one is a capture of that rule's shape. */
  lemma ClassifiedCapture(line: string, rule: Rule, t: string)
    requires IsTrimmed(line) && rule != BoldItem
    requires Classify(line) == Some(Hit(rule, t))
    ensures Captures(line, rule, t) && IsCapture(t)
  {
    ClassifyCaptures(line);
  }

  // ----- 1. checklist -----

  /** `-`, then the white space `w1`, then a checkbox: the checkbox is found and ends where expected. */
  lemma ChecklistHead(line: string, w1: string, box: string, rest: string)
    requires IsBox(box) && AllWs(w1)
    requires line == "-" + w1 + (box + rest)
    ensures SkipWs(line, 1) == 1 + |w1| && line[1 + |w1|] == '['
    ensures CheckboxEnd(line, 1 + |w1|) == Some(1 + |w1| + |box|)
    ensures line[1 + |w1| + |box|..] == rest
  {
    var a := 1 + |w1|;
    assert line[1..a] == w1;
    assert line[a..] == box + rest;
    forall k | 1 <= k < a ensures IsWs(line[k]) {
      assert line[k] == line[1..a][k - 1];
    }
    assert line[a] == '[';
    SkipWsRun(line, 1, |w1|);
    var tail := box + rest;
    assert line[a..] == tail;
    assert line[a..a + |box|] == line[a..][..|box|] == tail[..|box|] == box;
    assert line[a + |box|..] == tail[|box|..] == rest;
  }

  /** The checklist recogniser on `-`, white space, a checkbox, white space and a task. */
  lemma MatchChecklistLine(line: string, w1: string, box: string, w2: string, t: string)
    requires ChecklistForm(line, w1, box, w2, t) && IsCapture(t)
    ensures IsTrimmed(line) && MatchChecklist(line) == Some(t)
  {
    assert line[|line| - 1] == t[|t| - 1];
    var b := 1 + |w1| + |box|;
    ChecklistHead(line, w1, box, w2 + t);
    SpaceThenRestYields(line, b, w2, t);
    var m := SpaceThenRest(line, b);
    assert m == Some(t);
  }

  /**
   * `-`, optional white space, `[]`, `[ ]`, `[x]` or `[X]`, white space, then `X`: the
   * line yields `X`, and not the bullet text that the later bullet rule would take.
   */
  lemma ChecklistLine(line: string, w1: string, box: string, w2: string, t: string)
    requires ChecklistForm(line, w1, box, w2, t) && IsCapture(t)
    ensures IsTrimmed(line) && Classify(line) == Some(Hit(Checklist, t))
  {
    MatchChecklistLine(line, w1, box, w2, t);
  }

  /** A trimmed line yields `t` under the checklist rule exactly when it is a checklist line capturing `t`. */
  lemma ChecklistExactly(line: string, t: string)
    requires IsTrimmed(line)
    ensures Classify(line) == Some(Hit(Checklist, t)) <==> Captures(line, Checklist, t) && IsCapture(t)
  {
    if Classify(line) == Some(Hit(Checklist, t)) {
      ClassifiedCapture(line, Checklist, t);
    }
    if Captures(line, Checklist, t) && IsCapture(t) {
      var w1, box, w2 :| ChecklistForm(line, w1, box, w2, t);
      ChecklistLine(line, w1, box, w2, t);
    }
  }

  /** The same line is also a bullet line, so the order of the rules decides its task. */
  lemma ChecklistBeforeBullet()
    ensures Classify("- [ ] X") == Some(Hit(Checklist, "X"))
    ensures MatchBullet("- [ ] X") == Some("[ ] X")
  {
    ChecklistExample();
    BulletReading();
  }

  lemma ChecklistExample()
    ensures Classify("- [ ] X") == Some(Hit(Checklist, "X"))
  {
    var line := "- [ ] X";
    assert line == "-" + " " + ("[ ]" + (" " + "X"));
    ChecklistLine(line, " ", "[ ]", " ", "X");
  }

  lemma BulletReading()
    ensures MatchBullet("- [ ] X") == Some("[ ] X")
  {
    var line := "- [ ] X";
    assert line[1..] == " " + "[ ] X";
    SpaceThenRestYields(line, 1, " ", "[ ] X");
  }

  // ----- 2. prefix words -----

  /** Two words differ at some position both have. */
  predicate Diverge(a: string, b: string) {
    exists k :: 0 <= k < |a| && k < |b| && a[k] != b[k]
  }

  /** No word of `words` is a prefix of another, so a line starts with at most one of them. */
  predicate Distinct(words: seq<string>) {
    forall u, v :: 0 <= u < |words| && 0 <= v < |words| && u != v ==> Diverge(words[u], words[v])
  }

  lemma PrefixWordsDiverge()
    ensures Distinct(PrefixWords)
  {
    var pw := PrefixWords;
    forall u, v | 0 <= u < |pw| && 0 <= v < |pw| && u != v ensures Diverge(pw[u], pw[v]) {
      if (u == 0 && v == 1) || (u == 1 && v == 0) {
        assert pw[u][2] != pw[v][2];
      } else if pw[u][0] != pw[v][0] {
      } else {
        assert pw[u][1] != pw[v][1];
      }
    }
  }

  /** Tries of the words before the one that the line starts with all fail. */
  lemma {:induction false} MatchWordsFromYields(words: seq<string>, line: string, w: nat, v: nat, t: string)
    requires IsTrimmed(line) && w <= v < |words| && Distinct(words)
    requires StartsWithCi(line, words[v]) && |words[v]| < |line| && line[|words[v]|] == ':'
    requires OptSpaceThenRest(line, |words[v]| + 1) == Some(t)
    ensures MatchWordsFrom(words, line, w) == Some(t)
    decreases v - w
  {
    if w < v {
      WordMismatch(words, line, w, v);
      MatchWordsFromYields(words, line, w + 1, v, t);
    } else {
      MatchWordsFromHit(words, line, v, t);
    }
  }

  /** The try of the word the line starts with succeeds. */
  lemma MatchWordsFromHit(words: seq<string>, line: string, v: nat, t: string)
    requires IsTrimmed(line) && v < |words|
    requires StartsWithCi(line, words[v]) && |words[v]| < |line| && line[|words[v]|] == ':'
    requires OptSpaceThenRest(line, |words[v]| + 1) == Some(t)
    ensures MatchWordsFrom(words, line, v) == Some(t)
  {
  }

  /** A line cannot start with two distinct words, so a word other than its own is skipped. */
  lemma WordMismatch(words: seq<string>, line: string, u: nat, v: nat)
    requires u < |words| && v < |words| && u != v && Distinct(words)
    requires StartsWithCi(line, words[v])
    requires IsTrimmed(line)
    ensures MatchWordsFrom(words, line, u) == MatchWordsFrom(words, line, u + 1)
  {
    var k :| 0 <= k < |words[u]| && k < |words[v]| && words[u][k] != words[v][k];
    assert !StartsWithCi(line, words[u]);
  }

  /** A line of a word's shape is trimmed, and starts neither with white space nor `-`, when the word starts with a lower-case ASCII letter or a Hangul syllable. */
  lemma WordLineStart(line: string, lower: string, word: string, w: string, t: string)
    requires WordForm(line, lower, word, w, t) && IsCapture(t)
    requires 0 < |lower| && ('a' <= lower[0] <= 'z' || '\U{AC00}' <= lower[0] <= '\U{D7A3}')
    ensures IsTrimmed(line) && line[0] != '-'
  {
    assert line[0] == word[0];
    assert AsciiLower(word[0]) == lower[0];
    assert line[|line| - 1] == t[|t| - 1];
  }

  /** A line of a word's shape starts with the word, in some ASCII case, and a colon. */
  lemma WordHead(line: string, lower: string, word: string, w: string, t: string)
    requires WordForm(line, lower, word, w, t)
    ensures StartsWithCi(line, lower) && |lower| < |line| && line[|lower|] == ':'
    ensures line[|lower| + 1..] == w + t
  {
    var n := |word|;
    forall k | 0 <= k < n ensures AsciiLower(line[k]) == lower[k] {
      assert line[k] == word[k];
    }
    assert line[n] == ':';
    assert line[n + 1..] == w + t;
  }

  /** The word recogniser on the word number `v`, a colon, optional white space and a task. */
  lemma MatchWordLine(words: seq<string>, line: string, v: nat, word: string, w: string, t: string)
    requires v < |words| && Distinct(words)
    requires WordForm(line, words[v], word, w, t) && IsCapture(t) && IsTrimmed(line)
    ensures MatchWordsFrom(words, line, 0) == Some(t)
  {
    WordHead(line, words[v], word, w, t);
    var n := |word|;
    if |w| > 0 {
      SpaceThenRestYields(line, n + 1, w, t);
    } else {
      OptSpaceThenRestNoSpace(line, n + 1, t);
    }
    MatchWordsFromYields(words, line, 0, v, t);
  }

  /** The prefix recogniser on a prefix word, a colon, optional white space and a task. */
  lemma MatchPrefixLine(line: string, v: nat, word: string, w: string, t: string)
    requires PrefixForm(line, v, word, w, t) && IsCapture(t)
    ensures IsTrimmed(line) && line[0] != '-' && MatchPrefix(line) == Some(t)
  {
    var lower := PrefixWords[v];
    PrefixWordsStart();
    assert 0 < |lower| && ('a' <= lower[0] <= 'z' || '\U{AC00}' <= lower[0] <= '\U{D7A3}');
    WordLineStart(line, lower, word, w, t);
    PrefixWordsDiverge();
    MatchWordLine(PrefixWords, line, v, word, w, t);
  }

  /**
   * `todo:`, `To-Do:`, `TASK:` (any ASCII case) or one of the Korean prefix words,
   * a colon, optional white space, then a task: the line yields the task.
   */
  lemma PrefixLine(line: string, v: nat, word: string, w: string, t: string)
    requires PrefixForm(line, v, word, w, t) && IsCapture(t)
    ensures IsTrimmed(line) && Classify(line) == Some(Hit(Prefix, t))
  {
    MatchPrefixLine(line, v, word, w, t);
    assert MatchChecklist(line) == None;
    var h := FirstMatch(line);
    assert h == Some(Hit(Prefix, t));
  }

  /** A trimmed line yields `t` under the prefix rule exactly when it is a prefix line capturing `t`. */
  lemma PrefixExactly(line: string, t: string)
    requires IsTrimmed(line)
    ensures Classify(line) == Some(Hit(Prefix, t)) <==> Captures(line, Prefix, t) && IsCapture(t)
  {
    if Classify(line) == Some(Hit(Prefix, t)) {
      ClassifiedCapture(line, Prefix, t);
    }
    if Captures(line, Prefix, t) && IsCapture(t) {
      var v: nat, word, w :| PrefixForm(line, v, word, w, t);
      PrefixLine(line, v, word, w, t);
    }
  }

  /** For example, `To-Do: write report` yields `write report`. */
  lemma PrefixExample()
    ensures Classify("To-Do: write report") == Some(Hit(Prefix, "write report"))
  {
    var line := "To-Do: write report";
    assert line == "To-Do" + (":" + (" " + "write report"));
    PrefixLine(line, 1, "To-Do", " ", "write report");
  }

  // ----- 3. headers -----

  /** One to six `#`, white space, then a title: the line yields the title. */
  lemma HeaderLine(line: string, n: nat, w: string, t: string)
    requires HeaderForm(line, n, w, t) && IsCapture(t)
    ensures IsTrimmed(line) && Classify(line) == Some(Hit(Header, t))
  {
    assert line[0] == '#';
    assert line[|line| - 1] == t[|t| - 1];
    assert MatchChecklist(line) == None;
    NoPrefix(line);
    assert line[n] == w[0];
    var m := LeadingCount(line, '#');
    assert forall k :: 0 <= k < n ==> line[k] == '#';
    assert m == n;
    assert line[n..] == w + t;
    SpaceThenRestYields(line, n, w, t);
  }

  /** A trimmed line yields `t` under the header rule exactly when it is a header line capturing `t`. */
  lemma HeaderExactly(line: string, t: string)
    requires IsTrimmed(line)
    ensures Classify(line) == Some(Hit(Header, t)) <==> Captures(line, Header, t) && IsCapture(t)
  {
    if Classify(line) == Some(Hit(Header, t)) {
      ClassifiedCapture(line, Header, t);
    }
    if Captures(line, Header, t) && IsCapture(t) {
      var n: nat, w :| HeaderForm(line, n, w, t);
      HeaderLine(line, n, w, t);
    }
  }

  /**
   * A line starting with `#` yields something only as a header: one to six `#`
   * followed by white space. So `#Title` and `####### Title` yield nothing.
   */
  lemma HashLine(line: string)
    requires IsTrimmed(line) && |line| > 0 && line[0] == '#'
    ensures Classify(line).Some? ==>
      && Classify(line).value.rule == Header
      && 1 <= LeadingCount(line, '#') <= 6
      && LeadingCount(line, '#') < |line|
      && IsWs(line[LeadingCount(line, '#')])
  {
    assert MatchChecklist(line) == None;
    NoPrefix(line);
    assert MatchBold(line) == None;
    assert MatchBullet(line) == None;
    assert LeadingDigits(line) == 0;
  }

  /** `#Title`, with no space after the hash sign, yields nothing. */
  lemma HeaderNeedsSpace()
    ensures Classify("#Title") == None
  {
    var line := "#Title";
    assert line[0] == '#' && line[1] == 'T' && line[|line| - 1] == 'e';
    assert IsTrimmed(line);
    var m := LeadingCount(line, '#');
    assert m == 1;
    assert !IsWs(line[1]);
    HashLine(line);
  }

  // ----- 4. bold items -----

  /** Positions in a bold line: the text after the opening `**`, and the first closing `**`. */
  lemma BoldPieces(line: string, b: char, w: string, a: string, rest: string)
    requires BoldForm(line, b, w, a, rest)
    ensures var j := 1 + |w|; var e := j + 2 + |a|;
      && e + 2 <= |line|
      && line[j] == '*' && line[j + 1] == '*'
      && NoLineTerminator(line[j + 2..])
      && line[e] == '*' && line[e + 1] == '*'
      && (forall k :: j + 3 <= k < e ==> !(line[k] == '*' && line[k + 1] == '*'))
      && line[j + 2..e] == a
  {
    var j := 1 + |w|;
    var e := j + 2 + |a|;
    var after := a + ("**" + rest);
    assert line[j..] == "**" + after;
    assert line[j + 2..] == after;
    assert NoLineTerminator(after) by {
      forall k | 0 <= k < |after| ensures !IsLineTerminator(after[k]) {
        if k < |a| {
          assert after[k] == a[k];
        } else if k >= |a| + 2 {
          assert after[k] == rest[k - |a| - 2];
        }
      }
    }
    var a1 := a + "*";
    forall k | j + 3 <= k < e ensures !(line[k] == '*' && line[k + 1] == '*') {
      assert !DoubleStarAt(a1, k - j - 2);
      assert line[k] == after[k - j - 2] == a1[k - j - 2];
      assert line[k + 1] == after[k - j - 1] == a1[k - j - 1];
    }
    assert line[j + 2..e] == after[..|a|] == a;
  }

  /** The bold recogniser, given where the white space ends (`j`) and where the closing `**` is (`e`). */
  lemma MatchBoldAt(line: string, j: nat, e: nat)
    requires IsTrimmed(line) && |line| > 0 && (line[0] == '-' || line[0] == '*')
    requires 1 < j && SkipWs(line, 1) == j
    requires j + 3 <= e && e + 2 <= |line|
    requires line[j] == '*' && line[j + 1] == '*'
    requires NoLineTerminator(line[j + 2..])
    requires line[e] == '*' && line[e + 1] == '*'
    requires forall k :: j + 3 <= k < e ==> !(line[k] == '*' && line[k + 1] == '*')
    ensures MatchBold(line) == Some(line[j + 2..e])
  {
    FindDoubleStarAt(line, j + 3, e);
  }

  /** The first `**` at or after `from` is at `e` when `e` holds one and none starts in between. */
  lemma FindDoubleStarAt(s: string, from: nat, e: nat)
    requires from <= e && e + 2 <= |s| && s[e] == '*' && s[e + 1] == '*'
    requires forall k :: from <= k < e ==> !(s[k] == '*' && s[k + 1] == '*')
    ensures FindDoubleStar(s, from) == Some(e)
  {
    var r := FindDoubleStar(s, from);
    assert r.Some?;
    assert !(r.value < e);
  }

  /** The bold recogniser on a marker, white space, `**A**` and the rest of the line. */
  lemma MatchBoldLine(line: string, b: char, w: string, a: string, rest: string)
    requires BoldForm(line, b, w, a, rest) && IsTrimmed(line)
    ensures MatchBold(line) == Some(a)
  {
    BulletHead(line, b, w, "**" + (a + ("**" + rest)));
    BoldPieces(line, b, w, a, rest);
    MatchBoldAt(line, 1 + |w|, 3 + |w| + |a|);
  }

  /**
   * `- **A** rest` or `* **A** rest`, where `A` is the shortest text that `**`
   * follows: the line yields the trimmed bold text `A` rather than the whole bullet
   * text.
   */
  lemma BoldLine(line: string, b: char, w: string, a: string, rest: string)
    requires BoldForm(line, b, w, a, rest) && IsTrimmed(line)
    ensures Classify(line) == Some(Hit(BoldItem, Trim(a)))
  {
    var j := 1 + |w|;
    BulletHead(line, b, w, "**" + (a + ("**" + rest)));
    assert line[j] == '*';
    assert MatchChecklist(line) == None;
    NoPrefix(line);
    assert LeadingCount(line, '#') == 0;
    assert MatchHeader(line) == None;
    MatchBoldLine(line, b, w, a, rest);
  }

  /** A trimmed line yields `task` under the bold rule exactly when it is a bold line whose capture trims to `task`. */
  lemma BoldExactly(line: string, task: string)
    requires IsTrimmed(line)
    ensures Classify(line) == Some(Hit(BoldItem, task)) <==> exists a :: Captures(line, BoldItem, a) && task == Trim(a)
  {
    if Classify(line) == Some(Hit(BoldItem, task)) {
      ClassifyCaptures(line);
    }
    if exists a :: Captures(line, BoldItem, a) && task == Trim(a) {
      var a :| Captures(line, BoldItem, a) && task == Trim(a);
      var b, w, rest :| BoldForm(line, b, w, a, rest);
      BoldLine(line, b, w, a, rest);
    }
  }

  /** `-` or `*`, then the white space `w`: the white-space run after the marker ends where `w` does. */
  lemma BulletHead(line: string, b: char, w: string, rest: string)
    requires AllWs(w) && |rest| > 0 && !IsWs(rest[0])
    requires line == [b] + (w + rest)
    ensures SkipWs(line, 1) == 1 + |w| && line[1 + |w|..] == rest
  {
    assert line[1..] == w + rest;
    forall k | 1 <= k < 1 + |w| ensures IsWs(line[k]) {
      assert line[k] == line[1..][k - 1] == w[k - 1];
    }
    assert line[1 + |w|] == rest[0];
    SkipWsRun(line, 1, |w|);
    assert line[1 + |w|..] == line[1..][|w|..];
  }

  /** The bold rule is the only one that can yield an empty task: `- ** ** x` yields "". */
  lemma BoldMayBeEmpty()
    ensures Classify("- ** ** x") == Some(Hit(BoldItem, ""))
  {
    var line := "- ** ** x";
    assert line == ['-'] + (" " + ("**" + (" " + ("**" + " x"))));
    assert IsTrimmed(line);
    BoldLine(line, '-', " ", " ", " x");
  }

  /** With a `*` inside, the lazy capture stops at the first `**`: `- **a***` yields `a`, not `a*`. */
  lemma BoldIsLazy()
    ensures Classify("- **a***") == Some(Hit(BoldItem, "a"))
  {
    var line := "- **a***";
    assert line == ['-'] + (" " + ("**" + ("a" + ("**" + "*"))));
    assert IsTrimmed(line) && IsTrimmed("a");
    assert BoldForm(line, '-', " ", "a", "*");
    BoldLine(line, '-', " ", "a", "*");
    assert Trim("a") == "a";
  }

  // ----- 5. plain bullets -----

  /**
   * `- X` or `* X` on a line that neither the checklist nor the bold rule matches:
   * the line yields `X`.
   */
  lemma BulletLine(line: string, b: char, w: string, t: string)
    requires BulletForm(line, b, w, t) && IsCapture(t)
    requires IsTrimmed(line) && MatchChecklist(line).None? && MatchBold(line).None?
    ensures Classify(line) == Some(Hit(Bullet, t))
  {
    BulletHead(line, b, w, t);
    NoPrefix(line);
    assert LeadingCount(line, '#') == 0;
    SpaceThenRestYields(line, 1, w, t);
  }

  /**
   * A trimmed line yields `t` under the bullet rule exactly when it is a bullet line
   * capturing `t` that neither the checklist nor the bold rule matches.
   */
  lemma BulletExactly(line: string, t: string)
    requires IsTrimmed(line)
    ensures Classify(line) == Some(Hit(Bullet, t)) <==>
      Captures(line, Bullet, t) && IsCapture(t) && MatchChecklist(line).None? && MatchBold(line).None?
  {
    if Classify(line) == Some(Hit(Bullet, t)) {
      ClassifiedCapture(line, Bullet, t);
      var h := FirstMatch(line);
      assert h.value.rule == Bullet;
      assert Recognise(Checklist, line).None? by {
        assert Rank(Checklist) < Rank(Bullet);
      }
      assert Recognise(BoldItem, line).None? by {
        assert Rank(BoldItem) < Rank(Bullet);
      }
    }
    if Captures(line, Bullet, t) && IsCapture(t) && MatchChecklist(line).None? && MatchBold(line).None? {
      var b, w :| BulletForm(line, b, w, t);
      BulletLine(line, b, w, t);
    }
  }

  /** `- X` or `* X`, where `X` starts with neither a checkbox opening (after `-`) nor `**`: the line yields `X`. */
  lemma PlainBulletLine(b: char, w: string, t: string)
    requires b == '-' || b == '*'
    requires AllWs(w) && |w| > 0 && IsCapture(t)
    requires b == '-' ==> t[0] != '['
    requires |t| < 2 || t[0] != '*' || t[1] != '*'
    ensures var line := [b] + (w + t);
      IsTrimmed(line) && Classify(line) == Some(Hit(Bullet, t))
  {
    var line := [b] + (w + t);
    assert line[|line| - 1] == t[|t| - 1];
    BulletHead(line, b, w, t);
    assert line[1 + |w|] == t[0];
    assert MatchChecklist(line) == None;
    assert MatchBold(line) == None;
    BulletLine(line, b, w, t);
  }

  /**
   * Lines the checklist and bold rules reject fall through to the bullet rule: an
   * unknown checkbox `- [a] x`, a checkbox without the white space after it
   * `- [ ]x`, and an unclosed `- **x`.
   */
  lemma BulletFallThrough()
    ensures Classify("- [a] x") == Some(Hit(Bullet, "[a] x"))
    ensures Classify("- [ ]x") == Some(Hit(Bullet, "[ ]x"))
    ensures Classify("- **x") == Some(Hit(Bullet, "**x"))
  {
    FallThroughBox();
    FallThroughTight();
    FallThroughOpenBold();
  }

  lemma FallThroughBox()
    ensures Classify("- [a] x") == Some(Hit(Bullet, "[a] x"))
  {
    var line, t := "- [a] x", "[a] x";
    assert line == ['-'] + (" " + t);
    assert IsTrimmed(line) && IsCapture(t);
    BulletHead(line, '-', " ", t);
    assert CheckboxEnd(line, 2) == None;
    assert MatchChecklist(line) == None;
    assert MatchBold(line) == None;
    BulletLine(line, '-', " ", t);
  }

  lemma FallThroughTight()
    ensures Classify("- [ ]x") == Some(Hit(Bullet, "[ ]x"))
  {
    var line, t := "- [ ]x", "[ ]x";
    assert line == ['-'] + (" " + t);
    assert IsTrimmed(line) && IsCapture(t);
    BulletHead(line, '-', " ", t);
    assert CheckboxEnd(line, 2) == Some(5);
    assert line[5] == 'x';
    SkipWsRun(line, 5, 0);
    assert SpaceThenRest(line, 5) == None;
    assert MatchChecklist(line) == None;
    assert MatchBold(line) == None;
    BulletLine(line, '-', " ", t);
  }

  lemma FallThroughOpenBold()
    ensures Classify("- **x") == Some(Hit(Bullet, "**x"))
  {
    var line, t := "- **x", "**x";
    assert line == ['-'] + (" " + t);
    assert IsTrimmed(line) && IsCapture(t);
    BulletHead(line, '-', " ", t);
    assert MatchChecklist(line) == None;
    assert FindDoubleStar(line, 5) == None;
    assert MatchBold(line) == None;
    BulletLine(line, '-', " ", t);
  }

  // ----- 6. numbered items -----

  /** `N. X` with one or more ASCII digits `N`: the line yields `X`. */
  lemma NumberedLine(line: string, d: string, w: string, t: string)
    requires NumberedForm(line, d, w, t) && IsCapture(t)
    ensures IsTrimmed(line) && Classify(line) == Some(Hit(Numbered, t))
  {
    assert line[0] == d[0];
    assert line[|line| - 1] == t[|t| - 1];
    NumberedNoEarlier(line, d);
    MatchNumberedLine(line, d, w, t);
    FailsBeforeCases(line);
    var h := FirstMatch(line);
    assert h == Some(Hit(Numbered, t));
  }

  /** The numbered recogniser on digits, a dot, white space and a task. */
  lemma MatchNumberedLine(line: string, d: string, w: string, t: string)
    requires NumberedForm(line, d, w, t) && IsCapture(t) && IsTrimmed(line)
    ensures MatchNumbered(line) == Some(t)
  {
    var n := |d|;
    assert forall k :: 0 <= k < n ==> line[k] == d[k];
    assert line[n] == '.';
    assert LeadingDigits(line) == n;
    assert line[n + 1..] == w + t;
    SpaceThenRestYields(line, n + 1, w, t);
  }

  /** A trimmed line starting with a digit matches none of the first five patterns. */
  lemma NumberedNoEarlier(line: string, d: string)
    requires IsTrimmed(line) && 0 < |d| <= |line| && line[0] == d[0] && '0' <= d[0] <= '9'
    ensures FailsBefore(Numbered, line)
  {
    assert MatchChecklist(line) == None;
    NoPrefix(line);
    assert LeadingCount(line, '#') == 0;
    assert MatchBold(line) == None;
    assert MatchBullet(line) == None;
    FailsBeforeCases(line);
  }

  /** A trimmed line yields `t` under the numbered rule exactly when it is a numbered line capturing `t`. */
  lemma NumberedExactly(line: string, t: string)
    requires IsTrimmed(line)
    ensures Classify(line) == Some(Hit(Numbered, t)) <==> Captures(line, Numbered, t) && IsCapture(t)
  {
    if Classify(line) == Some(Hit(Numbered, t)) {
      ClassifiedCapture(line, Numbered, t);
    }
    if Captures(line, Numbered, t) && IsCapture(t) {
      var d, w :| NumberedForm(line, d, w, t);
      NumberedLine(line, d, w, t);
    }
  }

  // ----- lines that are not tasks -----

  /** A marker with no white space after it, a number with none after its dot, and plain text yield nothing. */
  lemma NotTasks()
    ensures Classify("-x") == None
    ensures Classify("1.x") == None
    ensures Classify("hello") == None
  {
    DashWithoutSpace();
    NumberWithoutSpace();
    PlainText();
  }

  lemma DashWithoutSpace()
    ensures Classify("-x") == None
  {
    var line := "-x";
    assert IsTrimmed(line);
    SkipWsRun(line, 1, 0);
    assert MatchChecklist(line) == None;
    NoPrefix(line);
    assert LeadingCount(line, '#') == 0;
    assert MatchBold(line) == None;
    assert SpaceThenRest(line, 1) == None;
    assert MatchBullet(line) == None;
    assert LeadingDigits(line) == 0;
    FailsBeforeCases(line);
  }

  lemma NumberWithoutSpace()
    ensures Classify("1.x") == None
  {
    var line := "1.x";
    assert IsTrimmed(line);
    NumberedNoEarlier(line, "1");
    assert LeadingDigits(line) == 1;
    SkipWsRun(line, 2, 0);
    assert SpaceThenRest(line, 2) == None;
    assert MatchNumbered(line) == None;
    FailsBeforeCases(line);
  }

  lemma PlainText()
    ensures Classify("hello") == None
  {
    var line := "hello";
    assert IsTrimmed(line);
    assert MatchChecklist(line) == None;
    NoPrefixWord(line);
    assert LeadingCount(line, '#') == 0;
    assert MatchBold(line) == None;
    assert MatchBullet(line) == None;
    assert LeadingDigits(line) == 0;
    FailsBeforeCases(line);
  }

  lemma NoPrefixWord(line: string)
    requires line == "hello"
    ensures MatchPrefix(line) == None
  {
    assert IsTrimmed(line);
    assert AsciiLower(line[0]) == 'h';
    NoWordFrom(PrefixWords, line, 0);
  }

  // ----- whole texts -----

  /** Lines contribute independently: the tasks of `a + b` are those of `a`, then those of `b`. */
  lemma {:induction false} ParseLinesAppend(a: seq<string>, b: seq<string>)
    ensures ParseLines(a + b) == ParseLines(a) + ParseLines(b)
  {
    if |a| == 0 {
      assert a + b == b;
    } else {
      assert (a + b)[0] == a[0];
      assert (a + b)[1..] == a[1..] + b;
      ParseLinesAppend(a[1..], b);
    }
  }

  /**
   * Text glued at a line feed: the tasks of `a + "\n" + b` are those of `a` followed
   * by those of `b`, so every task stays in the order of its line.
   */
  lemma ParseTasksConcat(a: string, b: string)
    ensures ParseTasks(a + "\n" + b) == ParseTasks(a) + ParseTasks(b)
  {
    SplitAppend(a, b);
    ParseLinesAppend(SplitLines(a), SplitLines(b));
  }

  /** Parsing lines joined by line feeds parses each line: at most one task per line, in line order. */
  lemma ParseJoinedLines(lines: seq<string>)
    requires |lines| > 0 && forall i :: 0 <= i < |lines| ==> '\n' !in lines[i]
    ensures ParseTasks(JoinLines(lines)) == ParseLines(lines)
  {
    SplitJoin(lines);
  }

  /** Blank lines contribute nothing. */
  lemma {:induction false} BlankLinesYieldNothing(lines: seq<string>)
    requires forall i :: 0 <= i < |lines| ==> AllWs(lines[i])
    ensures ParseLines(lines) == []
  {
    if |lines| > 0 {
      BlankLinesYieldNothing(lines[1..]);
    }
  }

  /** Text made only of white space (line feeds included) yields no task. */
  lemma BlankTextYieldsNothing(text: string)
    requires AllWs(text)
    ensures ParseTasks(text) == []
  {
    SplitAllWs(text);
    BlankLinesYieldNothing(SplitLines(text));
  }
}
