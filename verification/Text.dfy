/** The string operations the code relies on: byte lengths, trimming, splitting, string order. */
module Text {
  import opened Base
  import opened Sorting

  /** Unicode White_Space, which `trim` and `split_whitespace` use. */
  predicate IsWhitespace(c: char) {
    var n := c as int;
    || 0x09 <= n <= 0x0D || n == 0x20 || n == 0x85 || n == 0xA0 || n == 0x1680
    || 0x2000 <= n <= 0x200A || n == 0x2028 || n == 0x2029 || n == 0x202F || n == 0x205F || n == 0x3000
  }

  /** Bytes that UTF-8 uses for c. */
  function Utf8Width(c: char): (w: nat)
    ensures 1 <= w <= 4
  {
    var n := c as int;
    if n < 0x80 then 1 else if n < 0x800 then 2 else if n < 0x1_0000 then 3 else 4
  }

  /** The bytes of c in UTF-8 (section 3 of RFC 3629). */
  ghost function Utf8(c: char): seq<nat> {
    var n := c as int;
    if n <= 0x7F then [n]
    else if n <= 0x7FF then [0xC0 + n / 0x40, 0x80 + n % 0x40]
    else if n <= 0xFFFF then [0xE0 + n / 0x1000, 0x80 + n / 0x40 % 0x40, 0x80 + n % 0x40]
    else [0xF0 + n / 0x40000, 0x80 + n / 0x1000 % 0x40, 0x80 + n / 0x40 % 0x40, 0x80 + n % 0x40]
  }

  /** `str::len`: the length in bytes. */
  function ByteLen(s: string): (n: nat)
    ensures n >= |s|
  {
    if s == "" then 0 else Utf8Width(s[0]) + ByteLen(s[1..])
  }

  ghost function Encoded(s: string): seq<nat> {
    if s == "" then [] else Utf8(s[0]) + Encoded(s[1..])
  }

  lemma {:induction false} ByteLenIsEncodedLength(s: string)
    ensures ByteLen(s) == |Encoded(s)|
  {
    if s != "" {
      ByteLenIsEncodedLength(s[1..]);
    }
  }

  lemma {:induction false} ByteLenConcat(a: string, b: string)
    ensures ByteLen(a + b) == ByteLen(a) + ByteLen(b)
  {
    if a == "" {
      assert a + b == b;
    } else {
      assert (a + b)[1..] == a[1..] + b;
      ByteLenConcat(a[1..], b);
    }
  }

  /** Drops the longest prefix of characters satisfying p. */
  function TrimStartWhile(s: string, p: char -> bool): (r: string)
    ensures |r| <= |s| && r == s[|s| - |r|..]
    ensures forall i | 0 <= i < |s| - |r| :: p(s[i])
    ensures r == "" || !p(r[0])
  {
    if s != "" && p(s[0]) then
      var r := TrimStartWhile(s[1..], p);
      assert s[1..][|s[1..]| - |r|..] == s[|s| - |r|..];
      r
    else s
  }

  /** What trimming takes off the front. */
  lemma TrimmedFront(s: string, p: char -> bool) returns (front: string)
    ensures s == front + TrimStartWhile(s, p) && forall c | c in front :: p(c)
  {
    hide TrimStartWhile;
    var r := TrimStartWhile(s, p);
    front := s[..|s| - |r|];
    assert forall i | 0 <= i < |front| :: p(s[i]) && front[i] == s[i];
  }

  function TrimEndWhile(s: string, p: char -> bool): (r: string)
    ensures |r| <= |s| && r == s[..|r|]
    ensures forall i | |r| <= i < |s| :: p(s[i])
    ensures r == "" || !p(r[|r| - 1])
  {
    if s != "" && p(s[|s| - 1]) then TrimEndWhile(s[..|s| - 1], p) else s
  }

  lemma {:induction false} TrimmedStart(w: string, p: char -> bool, a: nat)
    requires a <= |w| && (forall x | 0 <= x < a :: p(w[x])) && (a < |w| ==> !p(w[a]))
    ensures TrimStartWhile(w, p) == w[a..]
  {
    if a > 0 {
      TrimmedStart(w[1..], p, a - 1);
      assert w[1..][a - 1..] == w[a..];
    }
  }

  lemma {:induction false} TrimmedEnd(w: string, p: char -> bool, b: nat)
    requires b <= |w| && (forall x | b <= x < |w| :: p(w[x])) && (b > 0 ==> !p(w[b - 1]))
    ensures TrimEndWhile(w, p) == w[..b]
    decreases |w|
  {
    if b < |w| {
      TrimmedEnd(w[..|w| - 1], p, b);
      assert w[..|w| - 1][..b] == w[..b];
    }
  }

  /** Trimming leaves the stretch between the first and the last character not to be trimmed. */
  lemma TrimmedAt(w: string, p: char -> bool, a: nat, b: nat)
    requires a < b <= |w| && !p(w[a]) && !p(w[b - 1])
    requires (forall x | 0 <= x < a :: p(w[x])) && (forall x | b <= x < |w| :: p(w[x]))
    ensures TrimEndWhile(TrimStartWhile(w, p), p) == w[a..b]
  {
    hide *;
    TrimmedStart(w, p, a);
    TrimmedTail(w, p, a, b);
  }

  lemma TrimmedAway(w: string, p: char -> bool)
    requires forall x | 0 <= x < |w| :: p(w[x])
    ensures TrimEndWhile(TrimStartWhile(w, p), p) == ""
  {
    TrimmedStart(w, p, |w|);
    hide TrimStartWhile;
    assert w[|w|..] == "";
  }

  lemma TrimmedTail(w: string, p: char -> bool, a: nat, b: nat)
    requires a < b <= |w| && (forall x | b <= x < |w| :: p(w[x])) && !p(w[b - 1])
    ensures TrimEndWhile(w[a..], p) == w[a..b]
  {
    hide *;
    var t := w[a..];
    assert forall x | 0 <= x < |t| :: t[x] == w[a + x];
    TrimmedEnd(t, p, b - a);
    assert t[..b - a] == w[a..b];
  }

  lemma TrimmedWhere(w: string, p: char -> bool) returns (a: nat, b: nat)
    ensures a <= b <= |w| && (forall x | 0 <= x < a || b <= x < |w| :: p(w[x]))
    ensures (a < b ==> !p(w[a]) && !p(w[b - 1])) && TrimEndWhile(TrimStartWhile(w, p), p) == w[a..b]
  {
    hide TrimStartWhile, TrimEndWhile;
    var r := TrimStartWhile(w, p);
    var e := TrimEndWhile(r, p);
    a := |w| - |r|;
    b := a + |e|;
    forall x | b <= x < |w| ensures p(w[x]) {
      assert w[x] == r[x - a];
    }
    assert e != "" ==> e[0] == r[0] && w[b - 1] == e[|e| - 1];
    assert w[a..b] == r[..|e|];
  }

  function Trim(s: string): string {
    TrimEndWhile(TrimStartWhile(s, IsWhitespace), IsWhitespace)
  }

  lemma TrimIsTrimmed(s: string)
    ensures Trim(Trim(s)) == Trim(s)
  {
    var r := Trim(s);
    if r != "" {
      assert r[0] == TrimStartWhile(s, IsWhitespace)[0];
    }
  }

  lemma NothingToTrim(s: string)
    requires s != "" && !IsWhitespace(s[0]) && !IsWhitespace(s[|s| - 1])
    ensures Trim(s) == s
  {
  }

  /** Byte-wise string order, which is code-point order. */
  predicate StrLe(a: string, b: string) {
    a == "" || (b != "" && (a[0] < b[0] || (a[0] == b[0] && StrLe(a[1..], b[1..]))))
  }

  lemma {:induction false} StrLeTotal(a: string, b: string)
    ensures StrLe(a, b) || StrLe(b, a)
    ensures StrLe(a, b) && StrLe(b, a) ==> a == b
  {
    if a != "" && b != "" && a[0] == b[0] {
      StrLeTotal(a[1..], b[1..]);
      assert a == [a[0]] + a[1..] && b == [b[0]] + b[1..];
    }
  }

  lemma {:induction false} StrLeTransitive(a: string, b: string, c: string)
    requires StrLe(a, b) && StrLe(b, c)
    ensures StrLe(a, c)
  {
    if a != "" && a[0] == b[0] && b[0] == c[0] {
      StrLeTransitive(a[1..], b[1..], c[1..]);
    }
  }

  /** a and b first differ at k, where a has the smaller character. */
  ghost predicate SmallerAt(a: string, b: string, k: nat) {
    k < |a| && k < |b| && a[k] < b[k] && forall i | 0 <= i < k :: a[i] == b[i]
  }

  /** a comes before b exactly when it is a prefix of b or has the smaller character where they first differ. */
  lemma {:induction false} StrLeIsLexicographic(a: string, b: string)
    ensures StrLe(a, b) <==> a <= b || exists k :: SmallerAt(a, b, k)
  {
    if a != "" && b != "" {
      if a[0] == b[0] {
        StrLeIsLexicographic(a[1..], b[1..]);
        assert a == [a[0]] + a[1..] && b == [b[0]] + b[1..];
        if k: nat :| SmallerAt(a, b, k) {
          assert SmallerAt(a[1..], b[1..], k - 1);
        }
        if k: nat :| SmallerAt(a[1..], b[1..], k) {
          assert SmallerAt(a, b, k + 1);
        }
      } else {
        assert SmallerAt(a, b, 0) <==> a[0] < b[0];
      }
    }
  }

  lemma StrLeIsTotalOrder()
    ensures TotalPreorder(StrLe)
    ensures forall x, y | StrLe(x, y) && StrLe(y, x) :: x == y
  {
    forall x, y ensures StrLe(x, y) || StrLe(y, x) { StrLeTotal(x, y); }
    forall x, y | StrLe(x, y) && StrLe(y, x) ensures x == y { StrLeTotal(x, y); }
    forall x, y, z | StrLe(x, y) && StrLe(y, z) ensures StrLe(x, z) { StrLeTransitive(x, y, z); }
  }

  /** Finitely many strings never are all strings. */
  lemma {:induction false} FreshString(xs: seq<string>) returns (s: string)
    ensures s != "" && forall x | x in xs :: |x| < |s|
  {
    if xs == [] {
      s := "x";
    } else {
      var longer := FreshString(xs[1..]);
      s := longer + xs[0];
      if xs[0] == "" || longer == "" {
        s := longer + "x";
      }
    }
  }

  /** s[i..j] is a longest stretch of characters satisfying p. */
  ghost predicate MaximalRun(s: string, p: char -> bool, i: int, j: int) {
    && 0 <= i < j <= |s|
    && (forall x | i <= x < j :: p(s[x]))
    && (i == 0 || !p(s[i - 1]))
    && (j == |s| || !p(s[j]))
  }

  predicate IsPrefix(p: string, s: string) {
    |p| <= |s| && s[..|p|] == p
  }

  /** `str::contains`. */
  predicate Contains(s: string, sub: string) {
    exists i | 0 <= i <= |s| :: IsPrefix(sub, s[i..])
  }

  /** `split(c)`: always at least one piece. */
  function SplitOn(s: string, c: char): (r: seq<string>)
    ensures |r| >= 1
  {
    if s == "" then [""]
    else
      var rest := SplitOn(s[1..], c);
      if s[0] == c then [""] + rest else [[s[0]] + rest[0]] + rest[1..]
  }

  /** One more character in front of a text already cut into chunks. */
  function PrependChar(c: char, chunks: seq<string>): seq<string> {
    if c == '\n' || chunks == [] then [[c]] + chunks else [[c] + chunks[0]] + chunks[1..]
  }

  /** The pieces of s cut after each newline, newlines kept (`split_inclusive('\n')`). */
  function LineChunks(s: string): (r: seq<string>)
    ensures s == "" <==> r == []
  {
    if s == "" then [] else PrependChar(s[0], LineChunks(s[1..]))
  }

  /** A chunk without its line ending: `\n`, or `\r\n`; a bare final `\r` stays. */
  function StripEol(chunk: string): string {
    if chunk == "" || chunk[|chunk| - 1] != '\n' then chunk
    else
      var l := chunk[..|chunk| - 1];
      if l != "" && l[|l| - 1] == '\r' then l[..|l| - 1] else l
  }

  /** `str::lines`. */
  function Lines(s: string): seq<string> {
    var cs := LineChunks(s);
    seq(|cs|, i requires 0 <= i < |cs| => StripEol(cs[i]))
  }

  /** `str::replace` with a one-character pattern. */
  function ReplaceChar(s: string, c: char, with: string): string {
    if s == "" then "" else (if s[0] == c then with else [s[0]]) + ReplaceChar(s[1..], c, with)
  }

  lemma {:induction false} ReplaceConcat(a: string, b: string, c: char, with: string)
    ensures ReplaceChar(a + b, c, with) == ReplaceChar(a, c, with) + ReplaceChar(b, c, with)
  {
    if a == "" {
      assert a + b == b;
    } else {
      assert (a + b)[1..] == a[1..] + b;
      ReplaceConcat(a[1..], b, c, with);
    }
  }

  lemma {:induction false} ReplaceAbsent(s: string, c: char, with: string)
    requires c !in s
    ensures ReplaceChar(s, c, with) == s
  {
    if s != "" {
      ReplaceAbsent(s[1..], c, with);
    }
  }
}
