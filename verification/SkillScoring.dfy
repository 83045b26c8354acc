/**
 What a skill's score and token cost amount to (src-tauri/src/skills.rs), counted on the message
 and the skill's lists directly.
 */
module SkillScoring {
  import opened Base
  import opened Text
  import opened SkillsRegistry

  predicate NotWhitespace(c: char) {
    !IsWhitespace(c)
  }

  /** A word of s, from i to j, is k once characters that are not alphanumeric are trimmed from both its ends. */
  ghost predicate TrimmedWordAt(rules: TextRules, s: string, k: string, i: int, a: int, b: int, j: int) {
    && MaximalRun(s, NotWhitespace, i, j) && i <= a <= b <= j && s[a..b] == k
    && (forall x | i <= x < a || b <= x < j :: !rules.isAlphanumeric(s[x]))
    && (a < b ==> rules.isAlphanumeric(s[a]) && rules.isAlphanumeric(s[b - 1]))
  }

  /** k is a word of s, set off by whitespace and possibly by punctuation. */
  ghost predicate IsWordOf(rules: TextRules, s: string, k: string) {
    exists i, a, b, j :: TrimmedWordAt(rules, s, k, i, a, b, j)
  }

  ghost predicate OccursIn(s: string, k: string) {
    exists i: nat :: SubstringAt(s, i, k)
  }

  ghost predicate OccursInside(rules: TextRules, s: string, k: string) {
    OccursIn(s, k) && !IsWordOf(rules, s, k)
  }

  // ---- Words are runs between whitespace --------------------------------------------------------------------

  lemma ShiftRun(s: string, p: char -> bool, n: nat, i: int, j: int)
    requires n <= |s| && (n == 0 || !p(s[n - 1]) || n == |s| || !p(s[n])) && i >= 0
    ensures MaximalRun(s[n..], p, i, j) <==> MaximalRun(s, p, i + n, j + n)
  {
    var t := s[n..];
    assert forall x | 0 <= x < |t| :: t[x] == s[x + n];
    if MaximalRun(s, p, i + n, j + n) {
      forall x | i <= x < j ensures p(t[x]) { assert p(s[x + n]); }
    }
    if MaximalRun(t, p, i, j) {
      forall x | i + n <= x < j + n ensures p(s[x]) { assert p(t[x - n]); }
    }
  }

  lemma WordLengthIs(s: string)
    requires s != "" && !IsWhitespace(s[0])
    ensures MaximalRun(s, NotWhitespace, 0, WordLength(s))
  {
    WordLengthStops(s);
  }

  lemma {:induction false} WordLengthStops(s: string)
    ensures forall x | 0 <= x < WordLength(s) :: !IsWhitespace(s[x])
    ensures WordLength(s) == |s| || IsWhitespace(s[WordLength(s)])
  {
    if s != "" && !IsWhitespace(s[0]) {
      WordLengthStops(s[1..]);
      forall x | 0 <= x < WordLength(s) ensures !IsWhitespace(s[x]) {
        if x > 0 { assert s[x] == s[1..][x - 1]; }
      }
    }
  }

  /** w is the word of s from i to j. */
  ghost predicate WordAt(s: string, i: int, j: int, w: string) {
    MaximalRun(s, NotWhitespace, i, j) && w == s[i..j]
  }

  /** The words are exactly the longest stretches without whitespace. */
  lemma {:induction false} WordsAreRuns(s: string, w: string)
    ensures w in Words(s) <==> exists i, j :: WordAt(s, i, j, w)
    decreases |s|
  {
    hide WordAt, Words, WordLength;
    if s == "" {
      NoWords(s, w);
    } else {
      var n := FrontLength(s);
      WordsStep(s, w);
      WordsAreRuns(s[n..], w);
      if i: int, j: int :| WordAt(s[n..], i, j, w) {
        ShiftWord(s, n, i, j, w);
      }
      if i: int, j: int :| WordAt(s, i, j, w) {
        FrontWord(s, i, j, w);
        if i >= n {
          ShiftWord(s, n, i - n, j - n, w);
        }
      }
    }
  }

  /** The length of the front word, or of the whitespace character in front. */
  function FrontLength(s: string): (n: nat)
    requires s != ""
    ensures 0 < n <= |s|
  {
    if IsWhitespace(s[0]) then 1 else WordLength(s)
  }

  lemma NoWords(s: string, w: string)
    requires s == ""
    ensures w !in Words(s) && forall i, j :: !WordAt(s, i, j, w)
  {
  }

  lemma WordsStep(s: string, w: string)
    requires s != ""
    ensures var n := FrontLength(s);
            && (w in Words(s) <==> (!IsWhitespace(s[0]) && w == s[..n]) || w in Words(s[n..]))
            && (!IsWhitespace(s[0]) ==> WordAt(s, 0, n, s[..n]))
  {
    if !IsWhitespace(s[0]) {
      WordLengthIs(s);
      assert s[0..WordLength(s)] == s[..WordLength(s)];
    }
  }

  lemma ShiftWord(s: string, n: nat, i: int, j: int, w: string)
    requires s != "" && n == FrontLength(s)
    ensures WordAt(s[n..], i, j, w) ==> WordAt(s, i + n, j + n, w)
    ensures i >= 0 && WordAt(s, i + n, j + n, w) ==> WordAt(s[n..], i, j, w)
  {
    WordLengthStops(s);
    if i >= 0 {
      ShiftRun(s, NotWhitespace, n, i, j);
      hide WordLength, IsWhitespace;
      if 0 <= i <= j <= |s[n..]| {
        assert s[n..][i..j] == s[i + n..j + n];
      }
    }
  }

  /** A word of s is the front one or starts after it. */
  lemma FrontWord(s: string, i: int, j: int, w: string)
    requires s != "" && WordAt(s, i, j, w)
    ensures i >= FrontLength(s) || (!IsWhitespace(s[0]) && w == s[..FrontLength(s)])
  {
    var n := FrontLength(s);
    WordLengthStops(s);
    assert NotWhitespace(s[i]);
    assert i > 0 ==> !NotWhitespace(s[i - 1]);
    if i == 0 {
      assert j <= n by {
        assert n < |s| ==> !NotWhitespace(s[n]);
      }
      assert j < |s| ==> !NotWhitespace(s[j]);
      assert s[0..j] == s[..j];
    }
  }

  // ---- Trimming --------------------------------------------------------------------------------------------

  lemma TrimsBothEnds(w: string, p: char -> bool)
    ensures TrimMatches(w, p) == TrimEndWhile(TrimStartWhile(w, p), p)
  {
  }

  /** The exact-word test of the scoring loop finds exactly the words. */
  lemma ExactWordMeans(rules: TextRules, s: string, k: string)
    ensures ExactWord(rules, s, k) <==> IsWordOf(rules, s, k)
  {
    hide Words, TrimMatches, TrimmedWordAt, WordAt, TrimStartWhile, TrimEndWhile;
    var p := (c: char) => !rules.isAlphanumeric(c);
    if ExactWord(rules, s, k) {
      var w :| w in Words(s) && TrimMatches(w, p) == k;
      WordsAreRuns(s, w);
      var i: int, j: int :| WordAt(s, i, j, w);
      var a, b := TrimmedWhere(w, p);
      TrimsBothEnds(w, p);
      TrimmedInText(rules, s, k, i, j, w, a, b);
    }
    if IsWordOf(rules, s, k) {
      var i, a, b, j :| TrimmedWordAt(rules, s, k, i, a, b, j);
      var w := TextTrimmed(rules, s, k, i, a, b, j);
      WordsAreRuns(s, w);
      assert TrimMatches(w, (c: char) => !rules.isAlphanumeric(c)) == k;
    }
  }

  lemma TrimmedInText(rules: TextRules, s: string, k: string, i: int, j: int, w: string, a: nat, b: nat)
    requires WordAt(s, i, j, w) && a <= b <= |w| && w[a..b] == k
    requires forall x | 0 <= x < a || b <= x < |w| :: !rules.isAlphanumeric(w[x])
    requires a < b ==> rules.isAlphanumeric(w[a]) && rules.isAlphanumeric(w[b - 1])
    ensures TrimmedWordAt(rules, s, k, i, i + a, i + b, j)
  {
    assert 0 <= i < j <= |s| && |w| == j - i;
    assert forall x | i <= x < j :: s[x] == w[x - i];
    assert w[a..b] == s[i + a..i + b];
  }

  lemma TextTrimmed(rules: TextRules, s: string, k: string, i: int, a: int, b: int, j: int) returns (w: string)
    requires TrimmedWordAt(rules, s, k, i, a, b, j)
    ensures WordAt(s, i, j, w) && TrimMatches(w, (c: char) => !rules.isAlphanumeric(c)) == k
  {
    hide *;
    w := WordTrimmed(rules, s, k, i, a, b, j);
    TrimsBothEnds(w, (c: char) => !rules.isAlphanumeric(c));
    if a < b {
      TrimmedAt(w, (c: char) => !rules.isAlphanumeric(c), a - i, b - i);
    } else {
      TrimmedAway(w, (c: char) => !rules.isAlphanumeric(c));
    }
  }

  /** The same seen from the start of the word. */
  lemma WordTrimmed(rules: TextRules, s: string, k: string, i: int, a: int, b: int, j: int) returns (w: string)
    requires TrimmedWordAt(rules, s, k, i, a, b, j)
    ensures WordAt(s, i, j, w) && i <= a <= b <= j && |w| == j - i && w[a - i..b - i] == k && (a == b ==> k == "")
    ensures forall x | 0 <= x < a - i :: !rules.isAlphanumeric(w[x])
    ensures forall x | b - i <= x < |w| :: !rules.isAlphanumeric(w[x])
    ensures a == b ==> forall x | 0 <= x < |w| :: !rules.isAlphanumeric(w[x])
    ensures a < b ==> rules.isAlphanumeric(w[a - i]) && rules.isAlphanumeric(w[b - i - 1])
  {
    w := s[i..j];
    assert forall x | 0 <= x < |w| :: w[x] == s[i + x];
    assert w[a - i..b - i] == s[a..b];
  }

  lemma ContainsMeans(s: string, k: string)
    ensures Contains(s, k) <==> OccursIn(s, k)
  {
    if Contains(s, k) {
      var i :| 0 <= i <= |s| && IsPrefix(k, s[i..]);
      assert s[i..][..|k|] == s[i..i + |k|];
      assert SubstringAt(s, i, k);
    }
    if OccursIn(s, k) {
      var i: nat :| SubstringAt(s, i, k);
      SubstringIsContained(s, i, k);
    }
  }

  // ---- Counting --------------------------------------------------------------------------------------------

  lemma {:induction false} SumCounts<T>(xs: seq<T>, points: T -> nat, p: T -> bool, u: nat, q: T -> bool, v: nat)
    requires forall x | x in xs :: points(x) == if p(x) then u else if q(x) then v else 0
    requires forall x | x in xs :: !(p(x) && q(x))
    ensures Sum(xs, points) == Times(u, Count(xs, p)) + Times(v, Count(xs, q))
  {
    hide *;
    if xs == [] {
      NothingCounts(points, p, q);
      TimesZero(u);
      TimesZero(v);
    } else {
      var init, last := xs[..|xs| - 1], xs[|xs| - 1];
      assert last in xs && forall x | x in init :: x in xs;
      SumCounts(init, points, p, u, q, v);
      SumCountsStep(init, last, points, p, u, q, v);
      assert xs == init + [last];
    }
  }

  lemma SumCountsStep<T>(init: seq<T>, last: T, points: T -> nat, p: T -> bool, u: nat, q: T -> bool, v: nat)
    requires points(last) == (if p(last) then u else if q(last) then v else 0) && !(p(last) && q(last))
    requires Sum(init, points) == Times(u, Count(init, p)) + Times(v, Count(init, q))
    ensures Sum(init + [last], points) == Times(u, Count(init + [last], p)) + Times(v, Count(init + [last], q))
  {
    hide *;
    SumAppend(init, last, points);
    CountAppend(init, last, p);
    CountAppend(init, last, q);
    Distributes(u, Count(init, p), if p(last) then 1 else 0);
    Distributes(v, Count(init, q), if q(last) then 1 else 0);
  }

  lemma TimesZero(u: nat)
    ensures Times(u, 0) == 0
  {
  }

  lemma NothingCounts<T>(points: T -> nat, p: T -> bool, q: T -> bool)
    ensures Sum([], points) == 0 && Count([], p) == 0 && Count([], q) == 0
  {
  }

  lemma SumAppend<T>(xs: seq<T>, x: T, points: T -> nat)
    ensures Sum(xs + [x], points) == Sum(xs, points) + points(x)
  {
    assert (xs + [x])[..|xs|] == xs;
  }

  function Times(u: nat, c: nat): nat {
    u * c
  }

  lemma Distributes(u: nat, c: nat, d: nat)
    requires d <= 1
    ensures Times(u, c + d) == Times(u, c) + (if d == 1 then u else 0)
  {
  }

  ghost function AreWords(rules: TextRules, s: string): string -> bool {
    k => IsWordOf(rules, s, k)
  }

  ghost function AreInside(rules: TextRules, s: string): string -> bool {
    k => OccursInside(rules, s, k)
  }

  ghost function AreOccurring(s: string): string -> bool {
    k => OccursIn(s, k)
  }

  ghost function AreMatched(rules: TextRules, message: string): string -> bool {
    p => rules.matches(p, message)
  }

  /**
   Main result: a skill none of whose veto keywords occurs scores ten points for each keyword that
   is a word of the message, five for each that only occurs inside it, at most 30; three for each
   tag that occurs, at most 15; and twenty for each pattern that matches, at most 40.
   */
  lemma ScoreCounts(rules: TextRules, s: ParsedSkill, message: string)
    ensures var lower := rules.lower(message);
            Score(rules, s, message)
              == if exists k | k in s.excludeKeywords :: OccursIn(lower, k) then 0
                 else Min(10 * Count(s.keywords, AreWords(rules, lower)) + 5 * Count(s.keywords, AreInside(rules, lower)), 30)
                      + Min(3 * Count(s.tags, AreOccurring(lower)), 15)
                      + Min(20 * Count(s.patterns, AreMatched(rules, message)), 40)
  {
    hide Contains, Count, Sum, KeywordPoints, OccursIn;
    var lower := rules.lower(message);
    KeywordsCount(rules, s.keywords, lower);
    TagsCount(s.tags, lower);
    PatternsCount(rules, s.patterns, message);
    forall k ensures Contains(lower, k) <==> OccursIn(lower, k) {
      ContainsMeans(lower, k);
    }
  }

  lemma KeywordsCount(rules: TextRules, keywords: seq<string>, lower: string)
    ensures Sum(keywords, (k: string) => KeywordPoints(rules, lower, k))
         == 10 * Count(keywords, AreWords(rules, lower)) + 5 * Count(keywords, AreInside(rules, lower))
  {
    hide Contains, ExactWord, IsWordOf, OccursIn, Count, Sum;
    forall k ensures KeywordPoints(rules, lower, k) == if IsWordOf(rules, lower, k) then 10 else if OccursIn(lower, k) then 5 else 0 {
      ContainsMeans(lower, k);
      ExactWordMeans(rules, lower, k);
    }
    SumCounts(keywords, (k: string) => KeywordPoints(rules, lower, k), AreWords(rules, lower), 10, AreInside(rules, lower), 5);
  }

  lemma TagsCount(tags: seq<string>, lower: string)
    ensures Sum(tags, (t: string) => if Contains(lower, t) then 3 else 0) == 3 * Count(tags, AreOccurring(lower))
  {
    hide Contains, OccursIn, Count, Sum;
    forall k ensures Contains(lower, k) <==> OccursIn(lower, k) {
      ContainsMeans(lower, k);
    }
    SumCounts(tags, (t: string) => if Contains(lower, t) then 3 else 0, AreOccurring(lower), 3, (t: string) => false, 0);
  }

  lemma PatternsCount(rules: TextRules, patterns: seq<string>, message: string)
    ensures Sum(patterns, (p: string) => if rules.matches(p, message) then 20 else 0)
         == 20 * Count(patterns, AreMatched(rules, message))
  {
    hide Count, Sum;
    SumCounts(patterns, (p: string) => if rules.matches(p, message) then 20 else 0, AreMatched(rules, message), 20,
              (p: string) => false, 0);
  }

  /** Main result: a skill with one keyword that is a word of the message outscores one whose only hit is inside a word. */
  lemma WordBeatsSubstring(rules: TextRules, a: ParsedSkill, b: ParsedSkill, message: string, k: string, l: string)
    requires a.keywords == [k] && b.keywords == [l] && b.tags == [] && b.patterns == [] && a.excludeKeywords == []
    requires IsWordOf(rules, rules.lower(message), k) && !IsWordOf(rules, rules.lower(message), l)
    ensures Score(rules, a, message) > Score(rules, b, message)
  {
    hide IsWordOf, OccursIn, Score;
    ScoreCounts(rules, a, message);
    ScoreCounts(rules, b, message);
    var lower := rules.lower(message);
    CountOfOne(k, AreWords(rules, lower));
    CountOfOne(l, AreWords(rules, lower));
    CountOfOne(l, AreInside(rules, lower));
  }

  lemma CountOfOne<T>(x: T, p: T -> bool)
    ensures Count([x], p) == if p(x) then 1 else 0
  {
    assert [x][1..] == [];
    assert Filter([x], p) == (if p(x) then [x] else []) + Filter([x][1..], p);
  }

  /**
   The cost of a skill: what it declares, at least one token, unless its prompt has more than twice
   as many times four bytes; then one token for every four bytes.
   */
  lemma CostIs(s: LoadedSkill)
    ensures var declared, bytes := s.parsed.maxContextTokens, ByteLen(s.parsed.prompt);
            && (bytes < 8 * declared + 4 ==> TokenCost(s) == if declared == 0 then 1 else declared)
            && (bytes >= 8 * declared + 4 ==> 4 * TokenCost(s) <= bytes < 4 * TokenCost(s) + 4)
  {
    hide ByteLen;
  }
}
