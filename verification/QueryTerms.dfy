/**
 The streaming tokenizer of src-tauri/src/skills_manifest.rs, from lowercased text to relevance
 terms, against a declarative reading of which substrings are terms.
 */
module QueryTerms {
  import opened Base
  import opened Sorting
  import opened Text

  predicate IsCjk(c: char) {
    var n := c as int;
    0x3400 <= n <= 0x4DBF || 0x4E00 <= n <= 0x9FFF || 0xF900 <= n <= 0xFAFF
  }

  predicate IsAsciiAlphanumeric(c: char) {
    '0' <= c <= '9' || 'a' <= c <= 'z' || 'A' <= c <= 'Z'
  }

  // ---- What a term is -------------------------------------------------------------------------------

  ghost predicate IsWord(s: string, t: string, end: int) {
    exists i, j | 0 <= i <= j <= |s| ::
      MaximalRun(s, IsAsciiAlphanumeric, i, j) && j <= end && 2 <= j - i && t == s[i..j]
  }

  ghost predicate CjkPairAt(s: string, i: int, t: string) {
    0 <= i < |s| - 1 && IsCjk(s[i]) && IsCjk(s[i + 1]) && t == [s[i], s[i + 1]]
  }

  ghost predicate IsPair(s: string, t: string, end: int) {
    exists i :: CjkPairAt(s, i, t) && i + 2 <= end
  }

  ghost predicate IsShortRun(s: string, t: string, end: int) {
    exists i, j | 0 <= i <= j <= |s| ::
      MaximalRun(s, IsCjk, i, j) && j <= end && 2 <= j - i <= 4 && t == s[i..j]
  }

  /**
   A maximal ASCII-alphanumeric run of length at least 2, two adjacent CJK characters,
   or a maximal CJK run of length 2 to 4.
   */
  ghost predicate IsTerm(s: string, t: string) {
    IsWord(s, t, |s|) || IsPair(s, t, |s|) || IsShortRun(s, t, |s|)
  }

  // ---- The tokenizer ------------------------------------------------------------------------------------

  method PushAsciiWord(word: string, out: set<string>) returns (word': string, out': set<string>)
    ensures word' == "" && out' == out + (if |word| >= 2 then {word} else {})
  {
    out' := if |word| >= 2 then out + {word} else out;
    word' := "";
  }

  predicate WindowAt(run: string, x: int, t: string) {
    0 <= x < |run| - 1 && t == [run[x], run[x + 1]]
  }

  ghost predicate IsWindow(run: string, t: string, end: int) {
    exists x :: WindowAt(run, x, t) && x < end
  }

  method PushCjkRun(run: string, out: set<string>) returns (run': string, out': set<string>)
    ensures run' == ""
    ensures forall t :: t in out' <==> (t in out || (2 <= |run| <= 4 && t == run) || IsWindow(run, t, |run|))
  {
    out' := out;
    if |run| >= 2 {
      if |run| <= 4 {
        out' := out' + {run};
      }
      for w := 0 to |run| - 1
        invariant forall t :: t in out' <==> (t in out || (|run| <= 4 && t == run) || IsWindow(run, t, w))
      {
        assert run[w..w + 2] == [run[w], run[w + 1]];
        assert WindowAt(run, w, [run[w], run[w + 1]]);
        forall t ensures IsWindow(run, t, w + 1) <==> IsWindow(run, t, w) || t == [run[w], run[w + 1]] {}
        out' := out' + {run[w..w + 2]};
      }
    }
    run' := "";
  }

  /** Starting at w, s[w..k] is a stretch of p that nothing before it extends. */
  ghost predicate OpenRun(s: string, p: char -> bool, w: int, k: int) {
    && 0 <= w <= k <= |s|
    && (forall x | w <= x < k :: p(s[x]))
    && (w == 0 || !p(s[w - 1]))
  }

  /** When the stretch stops at k, it is the one maximal run that ends after w and not after k + 1. */
  lemma ClosingRun(s: string, p: char -> bool, w: int, k: int, i: int, j: int, end: int)
    requires OpenRun(s, p, w, k) && (k == |s| || !p(s[k])) && k <= end <= k + 1
    requires MaximalRun(s, p, i, j)
    ensures j <= end <==> j <= w || (i == w && j == k)
  {
    if w < j <= end {
      assert p(s[j - 1]) && j <= k;
    }
  }

  lemma FlushedWord(s: string, w: int, k: int, end: int, t: string)
    requires OpenRun(s, IsAsciiAlphanumeric, w, k) && (k == |s| || !IsAsciiAlphanumeric(s[k])) && k <= end <= k + 1
    ensures IsWord(s, t, end) <==> IsWord(s, t, w) || (k - w >= 2 && t == s[w..k])
  {
    forall i, j | MaximalRun(s, IsAsciiAlphanumeric, i, j) ensures j <= end <==> j <= w || (i == w && j == k) {
      ClosingRun(s, IsAsciiAlphanumeric, w, k, i, j, end);
    }
    if k - w >= 2 {
      assert MaximalRun(s, IsAsciiAlphanumeric, w, k);
    }
  }

  lemma FlushedRun(s: string, w: int, k: int, end: int, t: string)
    requires OpenRun(s, IsCjk, w, k) && (k == |s| || !IsCjk(s[k])) && k <= end <= k + 1
    ensures IsShortRun(s, t, end) <==> IsShortRun(s, t, w) || (2 <= k - w <= 4 && t == s[w..k])
  {
    forall i, j | MaximalRun(s, IsCjk, i, j) ensures j <= end <==> j <= w || (i == w && j == k) {
      ClosingRun(s, IsCjk, w, k, i, j, end);
    }
    if 2 <= k - w <= 4 {
      assert MaximalRun(s, IsCjk, w, k);
    }
  }

  lemma FlushedPairs(s: string, w: int, k: int, end: int, t: string)
    requires OpenRun(s, IsCjk, w, k) && (k == |s| || !IsCjk(s[k])) && k <= end <= k + 1
    ensures IsPair(s, t, end) <==> IsPair(s, t, w) || IsWindow(s[w..k], t, k - w)
  {
    if IsPair(s, t, end) && !IsPair(s, t, w) {
      var i :| CjkPairAt(s, i, t) && i + 2 <= end;
      assert WindowAt(s[w..k], i - w, t);
    }
    if IsWindow(s[w..k], t, k - w) {
      var x :| WindowAt(s[w..k], x, t) && x < k - w;
      assert CjkPairAt(s, w + x, t);
    }
  }

  /** The terms closed so far: words ending by w, pairs and short runs ending by c. */
  ghost predicate TermsUpTo(terms: set<string>, s: string, w: int, c: int) {
    forall t :: t in terms <==> IsWord(s, t, w) || IsPair(s, t, c) || IsShortRun(s, t, c)
  }

  lemma AfterWordFlush(before: set<string>, after: set<string>, s: string, w: int, c: int, k: int, end: int)
    requires OpenRun(s, IsAsciiAlphanumeric, w, k) && (k == |s| || !IsAsciiAlphanumeric(s[k])) && k <= end <= k + 1
    requires TermsUpTo(before, s, w, c)
    requires after == before + (if k - w >= 2 then {s[w..k]} else {})
    ensures TermsUpTo(after, s, end, c)
  {
    forall t ensures t in after <==> IsWord(s, t, end) || IsPair(s, t, c) || IsShortRun(s, t, c) {
      FlushedWord(s, w, k, end, t);
    }
  }

  lemma AfterRunFlush(before: set<string>, after: set<string>, s: string, w: int, c: int, k: int, end: int)
    requires OpenRun(s, IsCjk, c, k) && (k == |s| || !IsCjk(s[k])) && k <= end <= k + 1
    requires TermsUpTo(before, s, w, c)
    requires var run := s[c..k];
             forall t :: t in after <==> (t in before || (2 <= |run| <= 4 && t == run) || IsWindow(run, t, |run|))
    ensures TermsUpTo(after, s, w, end)
  {
    forall t ensures t in after <==> IsWord(s, t, w) || IsPair(s, t, end) || IsShortRun(s, t, end) {
      FlushedRun(s, c, k, end, t);
      FlushedPairs(s, c, k, end, t);
    }
  }

  lemma RunStep(s: string, p: char -> bool, w: int, k: int)
    requires OpenRun(s, p, w, k) && k < |s|
    ensures p(s[k]) ==> OpenRun(s, p, w, k + 1) && s[w..k + 1] == s[w..k] + [s[k]]
    ensures !p(s[k]) ==> OpenRun(s, p, k + 1, k + 1) && s[k + 1..k + 1] == ""
  {
  }

  /** Main result: the single pass over the text finds exactly the terms. */
  method CollectTerms(lower: string) returns (terms: set<string>)
    ensures forall t :: t in terms <==> IsTerm(lower, t)
  {
    hide OpenRun, TermsUpTo, IsCjk, IsAsciiAlphanumeric, IsWindow, IsTerm;
    terms := {};
    StartOfTerms(lower);
    var word, cjk := "", "";
    ghost var w, c := 0, 0;
    for k := 0 to |lower|
      invariant 0 <= w <= k && 0 <= c <= k
      invariant OpenRun(lower, IsAsciiAlphanumeric, w, k) && word == lower[w..k]
      invariant OpenRun(lower, IsCjk, c, k) && cjk == lower[c..k]
      invariant TermsUpTo(terms, lower, w, c)
    {
      var ch := lower[k];
      CjkIsNotAscii(ch);
      ghost var before := terms;
      RunStep(lower, IsAsciiAlphanumeric, w, k);
      RunStep(lower, IsCjk, c, k);
      if IsCjk(ch) {
        word, terms := PushAsciiWord(word, terms);
        cjk := cjk + [ch];
        AfterWordFlush(before, terms, lower, w, c, k, k + 1);
        w := k + 1;
      } else if IsAsciiAlphanumeric(ch) {
        cjk, terms := PushCjkRun(cjk, terms);
        word := word + [ch];
        AfterRunFlush(before, terms, lower, w, c, k, k + 1);
        c := k + 1;
      } else {
        word, terms := PushAsciiWord(word, terms);
        AfterWordFlush(before, terms, lower, w, c, k, k + 1);
        before := terms;
        cjk, terms := PushCjkRun(cjk, terms);
        AfterRunFlush(before, terms, lower, k + 1, c, k, k + 1);
        w, c := k + 1, k + 1;
      }
    }
    ghost var before := terms;
    word, terms := PushAsciiWord(word, terms);
    AfterWordFlush(before, terms, lower, w, c, |lower|, |lower|);
    before := terms;
    cjk, terms := PushCjkRun(cjk, terms);
    AfterRunFlush(before, terms, lower, |lower|, c, |lower|, |lower|);
    EndOfTerms(terms, lower);
  }

  lemma CjkIsNotAscii(c: char)
    ensures !(IsCjk(c) && IsAsciiAlphanumeric(c))
  {
  }

  lemma StartOfTerms(s: string)
    ensures TermsUpTo({}, s, 0, 0) && OpenRun(s, IsAsciiAlphanumeric, 0, 0) && OpenRun(s, IsCjk, 0, 0)
  {
  }

  lemma EndOfTerms(terms: set<string>, s: string)
    requires TermsUpTo(terms, s, |s|, |s|)
    ensures forall t :: t in terms <==> IsTerm(s, t)
  {
    hide IsWord, IsPair, IsShortRun;
  }

  /** extract_query_terms on lowercased text: the terms, each once, in string order. */
  method ExtractQueryTerms(lower: string) returns (r: seq<string>)
    ensures forall t :: t in r <==> IsTerm(lower, t)
    ensures SortedBy(r, StrLe) && NoDuplicates(r)
  {
    var terms := CollectTerms(lower);
    r := [];
    ghost var all := terms;
    while terms != {}
      invariant terms <= all && NoDuplicates(r)
      invariant forall t :: t in r <==> t in all - terms
    {
      var t :| t in terms;
      terms := terms - {t};
      assert t !in r;
      r := r + [t];
    }
    StrLeIsTotalOrder();
    StableSortSpec(r, StrLe);
    PermutationKeepsDistinct(r, StableSort(r, StrLe));
    r := StableSort(r, StrLe);
  }

  // ---- Terms of a concatenation ---------------------------------------------------------------------------

  predicate IsSeparator(c: char) {
    !IsCjk(c) && !IsAsciiAlphanumeric(c)
  }

  /** Around a character outside p, maximal runs are those of the two sides. */
  lemma RunsAroundSeparator(a: string, sep: char, b: string, p: char -> bool, i: int, j: int)
    requires !p(sep)
    ensures MaximalRun(a + [sep] + b, p, i, j)
       <==> MaximalRun(a, p, i, j) || MaximalRun(b, p, i - |a| - 1, j - |a| - 1)
  {
    var s, n := a + [sep] + b, |a|;
    assert s[n] == sep && (forall x | 0 <= x < n :: s[x] == a[x]) && (forall x | n < x < |s| :: s[x] == b[x - n - 1]);
    if MaximalRun(s, p, i, j) {
      if j <= n {
        assert MaximalRun(a, p, i, j);
      } else {
        assert i > n;
        forall x | i - n - 1 <= x < j - n - 1 ensures p(b[x]) { assert p(s[x + n + 1]); }
      }
    }
    if MaximalRun(b, p, i - n - 1, j - n - 1) {
      forall x | i <= x < j ensures p(s[x]) { assert p(b[x - n - 1]); }
    }
  }

  ghost predicate IsJoin(s: string, a: string, sep: char, b: string) {
    s == a + [sep] + b
  }

  lemma RunOfJoin(s: string, a: string, sep: char, b: string, p: char -> bool, i: int, j: int)
    requires IsJoin(s, a, sep, b) && !p(sep) && MaximalRun(s, p, i, j)
    ensures 0 <= i <= j <= |s|
    ensures || (0 <= i <= j <= |a| && MaximalRun(a, p, i, j) && s[i..j] == a[i..j])
            || (0 <= i - |a| - 1 <= j - |a| - 1 <= |b| && MaximalRun(b, p, i - |a| - 1, j - |a| - 1)
                && s[i..j] == b[i - |a| - 1..j - |a| - 1])
  {
    RunsAroundSeparator(a, sep, b, p, i, j);
  }

  lemma RunOfLeft(s: string, a: string, sep: char, b: string, p: char -> bool, i: int, j: int)
    requires IsJoin(s, a, sep, b) && !p(sep) && MaximalRun(a, p, i, j)
    ensures 0 <= i <= j <= |s| && MaximalRun(s, p, i, j) && s[i..j] == a[i..j]
  {
    RunsAroundSeparator(a, sep, b, p, i, j);
  }

  lemma RunOfRight(s: string, a: string, sep: char, b: string, p: char -> bool, i: int, j: int)
    requires IsJoin(s, a, sep, b) && !p(sep) && MaximalRun(b, p, i, j)
    ensures 0 <= i <= j && j + |a| + 1 <= |s|
    ensures MaximalRun(s, p, i + |a| + 1, j + |a| + 1) && s[i + |a| + 1..j + |a| + 1] == b[i..j]
  {
    RunsAroundSeparator(a, sep, b, p, i + |a| + 1, j + |a| + 1);
  }

  lemma WordOf(s: string, t: string) returns (i: int, j: int)
    requires IsWord(s, t, |s|)
    ensures 0 <= i <= j <= |s| && MaximalRun(s, IsAsciiAlphanumeric, i, j) && 2 <= j - i && t == s[i..j]
  {
    i, j :| 0 <= i <= j <= |s| && MaximalRun(s, IsAsciiAlphanumeric, i, j) && j <= |s| && 2 <= j - i && t == s[i..j];
  }

  lemma WordAt(s: string, t: string, i: int, j: int)
    requires 0 <= i <= j <= |s| && MaximalRun(s, IsAsciiAlphanumeric, i, j) && 2 <= j - i && t == s[i..j]
    ensures IsWord(s, t, |s|)
  {
  }

  lemma WordsAroundSeparator(s: string, a: string, sep: char, b: string, t: string)
    requires IsJoin(s, a, sep, b) && !IsAsciiAlphanumeric(sep)
    ensures IsWord(s, t, |s|) <==> IsWord(a, t, |a|) || IsWord(b, t, |b|)
  {
    hide *;
    if IsWord(s, t, |s|) {
      var i, j := WordOf(s, t);
      RunOfJoin(s, a, sep, b, IsAsciiAlphanumeric, i, j);
      if j <= |a| && MaximalRun(a, IsAsciiAlphanumeric, i, j) && s[i..j] == a[i..j] {
        WordAt(a, t, i, j);
      } else {
        WordAt(b, t, i - |a| - 1, j - |a| - 1);
      }
    }
    if IsWord(a, t, |a|) {
      var i, j := WordOf(a, t);
      RunOfLeft(s, a, sep, b, IsAsciiAlphanumeric, i, j);
      WordAt(s, t, i, j);
    }
    if IsWord(b, t, |b|) {
      var i, j := WordOf(b, t);
      RunOfRight(s, a, sep, b, IsAsciiAlphanumeric, i, j);
      WordAt(s, t, i + |a| + 1, j + |a| + 1);
    }
  }

  lemma ShortRunOf(s: string, t: string) returns (i: int, j: int)
    requires IsShortRun(s, t, |s|)
    ensures 0 <= i <= j <= |s| && MaximalRun(s, IsCjk, i, j) && 2 <= j - i <= 4 && t == s[i..j]
  {
    i, j :| 0 <= i <= j <= |s| && MaximalRun(s, IsCjk, i, j) && j <= |s| && 2 <= j - i <= 4 && t == s[i..j];
  }

  lemma ShortRunAt(s: string, t: string, i: int, j: int)
    requires 0 <= i <= j <= |s| && MaximalRun(s, IsCjk, i, j) && 2 <= j - i <= 4 && t == s[i..j]
    ensures IsShortRun(s, t, |s|)
  {
  }

  lemma ShortRunsAroundSeparator(s: string, a: string, sep: char, b: string, t: string)
    requires IsJoin(s, a, sep, b) && !IsCjk(sep)
    ensures IsShortRun(s, t, |s|) <==> IsShortRun(a, t, |a|) || IsShortRun(b, t, |b|)
  {
    hide *;
    if IsShortRun(s, t, |s|) {
      var i, j := ShortRunOf(s, t);
      RunOfJoin(s, a, sep, b, IsCjk, i, j);
      if j <= |a| && MaximalRun(a, IsCjk, i, j) && s[i..j] == a[i..j] {
        ShortRunAt(a, t, i, j);
      } else {
        ShortRunAt(b, t, i - |a| - 1, j - |a| - 1);
      }
    }
    if IsShortRun(a, t, |a|) {
      var i, j := ShortRunOf(a, t);
      RunOfLeft(s, a, sep, b, IsCjk, i, j);
      ShortRunAt(s, t, i, j);
    }
    if IsShortRun(b, t, |b|) {
      var i, j := ShortRunOf(b, t);
      RunOfRight(s, a, sep, b, IsCjk, i, j);
      ShortRunAt(s, t, i + |a| + 1, j + |a| + 1);
    }
  }

  lemma PairsAroundSeparator(a: string, sep: char, b: string, t: string)
    requires IsSeparator(sep)
    ensures var s := a + [sep] + b;
            IsPair(s, t, |s|) <==> IsPair(a, t, |a|) || IsPair(b, t, |b|)
  {
    var s, n := a + [sep] + b, |a|;
    assert s[n] == sep;
    if IsPair(s, t, |s|) {
      var i :| CjkPairAt(s, i, t);
      assert i + 1 != n && i != n;
      if i < n {
        assert CjkPairAt(a, i, t);
      } else {
        assert CjkPairAt(b, i - n - 1, t);
      }
    }
    if IsPair(a, t, |a|) {
      var i :| CjkPairAt(a, i, t);
      assert CjkPairAt(s, i, t);
    }
    if IsPair(b, t, |b|) {
      var i :| CjkPairAt(b, i, t);
      assert CjkPairAt(s, i + n + 1, t);
    }
  }

  /** Main result: across a separator, terms are the union of the terms of the two sides. */
  lemma TermsAroundSeparator(a: string, sep: char, b: string, t: string)
    requires IsSeparator(sep)
    ensures IsTerm(a + [sep] + b, t) <==> IsTerm(a, t) || IsTerm(b, t)
  {
    hide IsWord, IsPair, IsShortRun;
    WordsAroundSeparator(a + [sep] + b, a, sep, b, t);
    ShortRunsAroundSeparator(a + [sep] + b, a, sep, b, t);
    PairsAroundSeparator(a, sep, b, t);
  }
}
