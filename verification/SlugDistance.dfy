/**
 The two-row edit distance behind the slug suggestions of the gbrain CLI transport
 (src-tauri/src/mcp.rs): it is the length of a shortest edit script, hence a metric.
 */
module SlugDistance {
  import opened Base
  import opened Sorting
  import opened Text

  // ---- What an edit script does -------------------------------------------------------------

  datatype Edit =
    | Insertion(pos: nat, c: char)
    | Deletion(pos: nat)
    | Substitution(pos: nat, c: char)

  /** One edit at a position of the current string; out of range is no edit at all. */
  function Perform(e: Edit, s: string): Option<string> {
    match e
    case Insertion(p, c) => if p <= |s| then Some(s[..p] + [c] + s[p..]) else None
    case Deletion(p) => if p < |s| then Some(s[..p] + s[p + 1..]) else None
    case Substitution(p, c) => if p < |s| then Some(s[..p] + [c] + s[p + 1..]) else None
  }

  function PerformAll(es: seq<Edit>, s: string): Option<string> {
    if es == [] then Some(s)
    else match Perform(es[0], s)
      case None => None
      case Some(t) => PerformAll(es[1..], t)
  }

  // ---- The recurrence ----------------------------------------------------------------------

  function Cost(x: char, y: char): nat {
    if x == y then 0 else 1
  }

  function Min3(a: nat, b: nat, c: nat): nat {
    Min(Min(a, b), c)
  }

  /** Distance between the first i characters of a and the first j of b: one cell of the table. */
  function Cell(a: string, i: nat, b: string, j: nat): nat
    requires i <= |a| && j <= |b|
  {
    if i == 0 then j
    else if j == 0 then i
    else Min3(Cell(a, i - 1, b, j - 1) + Cost(a[i - 1], b[j - 1]), Cell(a, i, b, j - 1) + 1, Cell(a, i - 1, b, j) + 1)
  }

  function Distance(a: string, b: string): nat {
    Cell(a, |a|, b, |b|)
  }

  lemma CellEdges(a: string, b: string)
    ensures forall j | 0 <= j <= |b| :: Cell(a, 0, b, j) == j
    ensures forall i | 0 <= i <= |a| :: Cell(a, i, b, 0) == i
  {
  }

  lemma CellStep(a: string, i: nat, b: string, j: nat)
    requires i < |a| && j < |b|
    ensures Cell(a, i + 1, b, j + 1)
         == Min3(Cell(a, i, b, j) + Cost(a[i], b[j]), Cell(a, i + 1, b, j) + 1, Cell(a, i, b, j + 1) + 1)
  {
  }

  /** slug_distance: two rows, filled left to right and swapped after each character of a. */
  method SlugDistance(a: string, b: string) returns (d: nat)
    ensures d == Distance(a, b)
  {
    hide Cell;
    CellEdges(a, b);
    var prev := new nat[|b| + 1](j => j);
    var curr := new nat[|b| + 1](_ => 0);
    for i := 0 to |a|
      invariant prev != curr && prev.Length == curr.Length == |b| + 1
      invariant fresh(prev) && fresh(curr)
      invariant forall j | 0 <= j <= |b| :: prev[j] == Cell(a, i, b, j)
    {
      curr[0] := i + 1;
      for j := 0 to |b|
        invariant forall k | 0 <= k <= |b| :: prev[k] == Cell(a, i, b, k)
        invariant forall k | 0 <= k <= j :: curr[k] == Cell(a, i + 1, b, k)
      {
        var substitution := prev[j] + (if a[i] != b[j] then 1 else 0);
        var insertion := curr[j] + 1;
        var deletion := prev[j + 1] + 1;
        curr[j + 1] := Min3(substitution, insertion, deletion);
        CellStep(a, i, b, j);
      }
      prev, curr := curr, prev;
    }
    d := prev[|b|];
  }

  // ---- The recurrence is the length of a shortest script -------------------------------------

  lemma {:induction false} CellTriangle(a: string, i: nat, b: string, j: nat, c: string, k: nat)
    requires i <= |a| && j <= |b| && k <= |c|
    ensures Cell(a, i, c, k) <= Cell(a, i, b, j) + Cell(b, j, c, k)
    decreases i + j + k
  {
    hide Cell;
    if i > 0 && j > 0 { CellStep(a, i - 1, b, j - 1); }
    if j > 0 && k > 0 { CellStep(b, j - 1, c, k - 1); }
    if i > 0 && k > 0 { CellStep(a, i - 1, c, k - 1); }
    if i == 0 || j == 0 || k == 0 {
      CellLengthBound(a, i, b, j);
      CellLengthBound(b, j, c, k);
      CellLengthBound(a, i, c, k);
    } else if Cell(a, i, b, j) == Cell(a, i - 1, b, j) + 1 {
      CellTriangle(a, i - 1, b, j, c, k);
    } else if Cell(b, j, c, k) == Cell(b, j, c, k - 1) + 1 {
      CellTriangle(a, i, b, j, c, k - 1);
    } else if Cell(a, i, b, j) == Cell(a, i, b, j - 1) + 1 && Cell(b, j, c, k) == Cell(b, j - 1, c, k) + 1 {
      CellTriangle(a, i, b, j - 1, c, k);
    } else if Cell(a, i, b, j) == Cell(a, i, b, j - 1) + 1 {
      CellTriangle(a, i, b, j - 1, c, k - 1);
    } else if Cell(b, j, c, k) == Cell(b, j - 1, c, k) + 1 {
      CellTriangle(a, i - 1, b, j - 1, c, k);
    } else {
      CellTriangle(a, i - 1, b, j - 1, c, k - 1);
    }
  }

  /** A cell is between the difference of the two lengths and their maximum. */
  lemma {:induction false} CellLengthBound(a: string, i: nat, b: string, j: nat)
    requires i <= |a| && j <= |b|
    ensures i - j <= Cell(a, i, b, j) && j - i <= Cell(a, i, b, j)
    ensures Cell(a, i, b, j) <= i || Cell(a, i, b, j) <= j
  {
    hide Cell;
    CellEdges(a, b);
    if i != 0 && j != 0 {
      CellLengthBound(a, i - 1, b, j - 1);
      CellLengthBound(a, i, b, j - 1);
      CellLengthBound(a, i - 1, b, j);
      CellStep(a, i - 1, b, j - 1);
    }
  }

  lemma {:induction false} CellReadsPrefixes(a: string, a': string, i: nat, b: string, b': string, j: nat)
    requires i <= |a| && i <= |a'| && a[..i] == a'[..i]
    requires j <= |b| && j <= |b'| && b[..j] == b'[..j]
    ensures Cell(a, i, b, j) == Cell(a', i, b', j)
  {
    if i != 0 && j != 0 {
      assert a[i - 1] == a[..i][i - 1] == a'[i - 1] && b[j - 1] == b[..j][j - 1] == b'[j - 1];
      assert a[..i - 1] == a[..i][..i - 1] == a'[..i - 1] && b[..j - 1] == b[..j][..j - 1] == b'[..j - 1];
      CellReadsPrefixes(a, a', i - 1, b, b', j - 1);
      CellReadsPrefixes(a, a', i, b, b', j - 1);
      CellReadsPrefixes(a, a', i - 1, b, b', j);
    }
  }

  lemma {:induction false} CellOnDiagonal(a: string, i: nat)
    requires i <= |a|
    ensures Cell(a, i, a, i) == 0
  {
    if i != 0 {
      CellOnDiagonal(a, i - 1);
    }
  }

  lemma TriangleInequality(a: string, b: string, c: string)
    ensures Distance(a, c) <= Distance(a, b) + Distance(b, c)
  {
    CellTriangle(a, |a|, b, |b|, c, |c|);
  }

  /** The recurrence on strings extended by one character each. */
  lemma DistanceAppend(a: string, x: char, b: string, y: char)
    ensures Distance(a + [x], b + [y])
         == Min3(Distance(a, b) + Cost(x, y), Distance(a + [x], b) + 1, Distance(a, b + [y]) + 1)
  {
    CellReadsPrefixes(a + [x], a, |a|, b + [y], b, |b|);
    CellReadsPrefixes(a + [x], a + [x], |a| + 1, b + [y], b, |b|);
    CellReadsPrefixes(a + [x], a, |a|, b + [y], b + [y], |b| + 1);
  }

  lemma {:induction false} CommonSuffix(a: string, b: string, t: string)
    ensures Distance(a + t, b + t) <= Distance(a, b)
  {
    if t == "" {
      assert a + t == a && b + t == b;
    } else {
      var t', x := t[..|t| - 1], t[|t| - 1];
      assert a + t == (a + t') + [x] && b + t == (b + t') + [x];
      DistanceAppend(a + t', x, b + t', x);
      CommonSuffix(a, b, t');
    }
  }

  /** Replacing the middle u (at most one character) by v costs at most one. */
  lemma LocalChange(s: string, u: string, v: string, t: string)
    requires |u| <= 1 && |v| <= 1
    ensures Distance(s + u + t, s + v + t) <= 1
  {
    hide Cell;
    CellOnDiagonal(s, |s|);
    AppendOne(s, u);
    AppendOne(s, v);
    if u != "" && v != "" {
      DistanceAppend(s, u[0], s, v[0]);
      assert u == [u[0]] && v == [v[0]];
    }
    assert u == "" ==> s + u == s;
    assert v == "" ==> s + v == s;
    CommonSuffix(s + u, s + v, t);
  }

  lemma AppendOne(s: string, u: string)
    requires |u| <= 1
    ensures Distance(s + u, s) <= 1 && Distance(s, s + u) <= 1
  {
    hide Cell;
    CellOnDiagonal(s, |s|);
    CellEdges(s + u, s);
    CellEdges(s, s + u);
    if u == "" {
      assert s + u == s;
    } else {
      CellReadsPrefixes(s + u, s, |s|, s, s, |s|);
      CellReadsPrefixes(s, s, |s|, s + u, s, |s|);
      if s != "" {
        CellStep(s + u, |s|, s, |s| - 1);
        CellStep(s, |s| - 1, s + u, |s|);
      }
    }
  }

  lemma OneEditMovesByOne(e: Edit, s: string)
    requires Perform(e, s).Some?
    ensures Distance(s, Perform(e, s).value) <= 1
  {
    var p := e.pos;
    match e {
      case Insertion(_, c) =>
        LocalChange(s[..p], [], [c], s[p..]);
        assert s == s[..p] + [] + s[p..];
      case Deletion(_) =>
        LocalChange(s[..p], [s[p]], [], s[p + 1..]);
        assert s == s[..p] + [s[p]] + s[p + 1..];
        assert s[..p] + [] == s[..p];
      case Substitution(_, c) =>
        LocalChange(s[..p], [s[p]], [c], s[p + 1..]);
        assert s == s[..p] + [s[p]] + s[p + 1..];
    }
  }

  /** No script is shorter than the distance. */
  lemma {:induction false} ScriptsAreLongEnough(es: seq<Edit>, a: string, b: string)
    requires PerformAll(es, a) == Some(b)
    ensures |es| >= Distance(a, b)
  {
    if es == [] {
      CellOnDiagonal(a, |a|);
    } else {
      var t := Perform(es[0], a).value;
      OneEditMovesByOne(es[0], a);
      ScriptsAreLongEnough(es[1..], t, b);
      TriangleInequality(a, t, b);
    }
  }

  lemma {:induction false} ScriptsIgnoreSuffix(es: seq<Edit>, s: string, t: string)
    requires PerformAll(es, s).Some?
    ensures PerformAll(es, s + t) == Some(PerformAll(es, s).value + t)
  {
    if es != [] {
      var e := es[0];
      var u := Perform(e, s).value;
      assert Perform(e, s + t).value == u + t;
      ScriptsIgnoreSuffix(es[1..], u, t);
    }
  }

  lemma {:induction false} ScriptThenEdit(es: seq<Edit>, s: string, e: Edit)
    requires PerformAll(es, s).Some?
    ensures PerformAll(es + [e], s) == Perform(e, PerformAll(es, s).value)
  {
    if es == [] {
      assert es + [e] == [e];
    } else {
      assert (es + [e])[1..] == es[1..] + [e];
      ScriptThenEdit(es[1..], Perform(es[0], s).value, e);
    }
  }

  lemma NoEdits(s: string)
    ensures PerformAll([], s) == Some(s)
  {
  }

  /** A script taking i characters of a to j characters of b, in as many edits as the cell says. */
  lemma {:induction false} ShortestPrefixScript(a: string, i: nat, b: string, j: nat) returns (es: seq<Edit>)
    requires i <= |a| && j <= |b|
    ensures PerformAll(es, a[..i]) == Some(b[..j]) && |es| == Cell(a, i, b, j)
  {
    hide Cell, PerformAll;
    NoEdits(a[..i]);
    CellEdges(a, b);
    if i > 0 && j > 0 { CellStep(a, i - 1, b, j - 1); }
    if i == 0 && j == 0 {
      es := [];
      assert a[..i] == b[..j];
    } else if i == 0 || (j != 0 && Cell(a, i, b, j) == Cell(a, i, b, j - 1) + 1) {
      es := ShortestPrefixScript(a, i, b, j - 1);
      ScriptThenEdit(es, a[..i], Insertion(j - 1, b[j - 1]));
      var t := b[..j - 1];
      assert b[..j] == t[..j - 1] + [b[j - 1]] + t[j - 1..];
      es := es + [Insertion(j - 1, b[j - 1])];
    } else {
      assert a[..i] == a[..i - 1] + [a[i - 1]];
      if j == 0 || Cell(a, i, b, j) == Cell(a, i - 1, b, j) + 1 {
        es := ShortestPrefixScript(a, i - 1, b, j);
        ScriptsIgnoreSuffix(es, a[..i - 1], [a[i - 1]]);
        ScriptThenEdit(es, a[..i], Deletion(j));
        assert b[..j] == (b[..j] + [a[i - 1]])[..j] + (b[..j] + [a[i - 1]])[j + 1..];
        es := es + [Deletion(j)];
      } else {
        es := ShortestPrefixScript(a, i - 1, b, j - 1);
        ScriptsIgnoreSuffix(es, a[..i - 1], [a[i - 1]]);
        assert b[..j] == b[..j - 1] + [b[j - 1]];
        if a[i - 1] != b[j - 1] {
          var t := b[..j - 1] + [a[i - 1]];
          ScriptThenEdit(es, a[..i], Substitution(j - 1, b[j - 1]));
          assert b[..j] == t[..j - 1] + [b[j - 1]] + t[j..];
          es := es + [Substitution(j - 1, b[j - 1])];
        }
      }
    }
  }

  lemma ShortestScript(a: string, b: string) returns (es: seq<Edit>)
    ensures PerformAll(es, a) == Some(b) && |es| == Distance(a, b)
  {
    es := ShortestPrefixScript(a, |a|, b, |b|);
    assert a[..|a|] == a && b[..|b|] == b;
  }

  /** Main result: the distance is the minimum over all edit scripts, and it is attained. */
  lemma DistanceIsShortestScript(a: string, b: string)
    ensures exists es :: PerformAll(es, a) == Some(b) && |es| == Distance(a, b)
    ensures forall es | PerformAll(es, a) == Some(b) :: |es| >= Distance(a, b)
  {
    var shortest := ShortestScript(a, b);
    forall es | PerformAll(es, a) == Some(b) ensures |es| >= Distance(a, b) {
      ScriptsAreLongEnough(es, a, b);
    }
  }

  lemma {:induction false} CellIsSymmetric(a: string, i: nat, b: string, j: nat)
    requires i <= |a| && j <= |b|
    ensures Cell(a, i, b, j) == Cell(b, j, a, i)
  {
    hide Cell;
    CellEdges(a, b);
    CellEdges(b, a);
    if i != 0 && j != 0 {
      CellIsSymmetric(a, i - 1, b, j - 1);
      CellIsSymmetric(a, i, b, j - 1);
      CellIsSymmetric(a, i - 1, b, j);
      CellStep(a, i - 1, b, j - 1);
      CellStep(b, j - 1, a, i - 1);
    }
  }

  /** The distance is a metric (the triangle inequality is above). */
  lemma DistanceIsMetric(a: string, b: string)
    ensures Distance(a, b) == 0 <==> a == b
    ensures Distance(a, b) == Distance(b, a)
  {
    CellOnDiagonal(a, |a|);
    CellIsSymmetric(a, |a|, b, |b|);
    if Distance(a, b) == 0 {
      var es := ShortestScript(a, b);
      assert es == [];
    }
  }

  // ---- Suggestions -------------------------------------------------------------------------

  /** Order of suggestions: by distance, then by slug. */
  predicate Nearer(p: (nat, string), q: (nat, string)) {
    p.0 < q.0 || (p.0 == q.0 && StrLe(p.1, q.1))
  }

  lemma NearerIsTotalOrder()
    ensures TotalPreorder(Nearer)
    ensures forall p, q | Nearer(p, q) && Nearer(q, p) :: p == q
  {
    StrLeIsTotalOrder();
  }

  /** The slugs of a `list` output: the first tab-separated field of each line, blank ones dropped. */
  function ListedSlugs(stdout: string): seq<string> {
    var ls := Lines(stdout);
    var fields := seq(|ls|, i requires 0 <= i < |ls| => SplitOn(ls[i], '\t')[0]);
    Filter(fields, f => Trim(f) != "")
  }

  /** One line of a listing: the slug, then nothing or a tab and other fields. */
  ghost predicate IsListingLine(line: string, slug: string) {
    && '\t' !in slug && '\n' !in slug && (slug != "" ==> slug[|slug| - 1] != '\r')
    && exists rest :: line == slug + rest + "\n" && '\n' !in rest && (rest != "" ==> rest[0] == '\t')
  }

  /** Main result: from a listing with one page a line, exactly the slugs that are not blank are read, in order. */
  lemma {:induction false} ListedSlugsSpec(lines: seq<string>, slugs: seq<string>)
    requires |lines| == |slugs| && forall i | 0 <= i < |lines| :: IsListingLine(lines[i], slugs[i])
    ensures ListedSlugs(Flatten(lines)) == Filter(slugs, s => Trim(s) != "")
  {
    hide Trim, IsListingLine;
    ChunksOfListing(lines, slugs);
    var stdout := Flatten(lines);
    var ls := Lines(stdout);
    forall i | 0 <= i < |ls| ensures SplitOn(ls[i], '\t')[0] == slugs[i] {
      FirstField(lines[i], slugs[i]);
    }
    assert seq(|ls|, i requires 0 <= i < |ls| => SplitOn(ls[i], '\t')[0]) == slugs;
  }

  lemma {:induction false} ChunksOfListing(lines: seq<string>, slugs: seq<string>)
    requires |lines| == |slugs| && forall i | 0 <= i < |lines| :: IsListingLine(lines[i], slugs[i])
    ensures LineChunks(Flatten(lines)) == lines
  {
    hide IsListingLine, LineChunks;
    if lines == [] {
      assert LineChunks("") == [] by { EmptyChunks(); }
    } else {
      ChunksOfListing(lines[1..], slugs[1..]);
      ListingLineIsChunk(lines[0], slugs[0]);
      var l := lines[0];
      ChunkInFront(l[..|l| - 1], Flatten(lines[1..]));
      assert l + Flatten(lines[1..]) == l[..|l| - 1] + ["\n"][0] + Flatten(lines[1..]);
    }
  }

  lemma EmptyChunks()
    ensures LineChunks("") == []
  {
  }

  lemma ListingLineIsChunk(line: string, slug: string)
    requires IsListingLine(line, slug)
    ensures line != "" && line == line[..|line| - 1] + "\n" && '\n' !in line[..|line| - 1]
  {
    var rest :| line == slug + rest + "\n" && '\n' !in rest && (rest != "" ==> rest[0] == '\t');
    assert line[..|line| - 1] == slug + rest;
  }

  lemma {:induction false} ChunkInFront(a: string, s: string)
    requires '\n' !in a
    ensures LineChunks(a + "\n" + s) == [a + "\n"] + LineChunks(s)
  {
    var all := a + "\n" + s;
    if a == "" {
      assert all[0] == '\n' && all[1..] == s;
      assert a + "\n" == ['\n'];
    } else {
      assert all[0] == a[0] && all[1..] == a[1..] + "\n" + s;
      ChunkInFront(a[1..], s);
      var chunks := [a[1..] + "\n"] + LineChunks(s);
      assert chunks[1..] == LineChunks(s);
      assert [a[0]] + (a[1..] + "\n") == a + "\n";
    }
  }

  /** The first field of a line without its ending is its slug. */
  lemma FirstField(line: string, slug: string)
    requires IsListingLine(line, slug)
    ensures SplitOn(StripEol(line), '\t')[0] == slug
  {
    hide SplitOn, StripEol;
    var rest :| line == slug + rest + "\n" && '\n' !in rest && (rest != "" ==> rest[0] == '\t');
    var tail := StrippedListingLine(slug, rest);
    FieldBeforeTab(slug, tail);
  }

  lemma StrippedListingLine(slug: string, rest: string) returns (tail: string)
    requires (slug != "" ==> slug[|slug| - 1] != '\r') && (rest != "" ==> rest[0] == '\t')
    ensures StripEol(slug + rest + "\n") == slug + tail && (tail != "" ==> tail[0] == '\t')
  {
    var text := slug + rest;
    assert (text + "\n")[..|text|] == text;
    tail := if rest != "" && rest[|rest| - 1] == '\r' then rest[..|rest| - 1] else rest;
    assert rest != "" ==> text[|text| - 1] == rest[|rest| - 1] && text[..|text| - 1] == slug + rest[..|rest| - 1];
    assert rest == "" ==> text == slug;
  }

  lemma {:induction false} FieldBeforeTab(a: string, tail: string)
    requires '\t' !in a && (tail != "" ==> tail[0] == '\t')
    ensures SplitOn(a + tail, '\t')[0] == a
  {
    if a == "" {
      assert a + tail == tail;
    } else {
      assert (a + tail)[1..] == a[1..] + tail;
      FieldBeforeTab(a[1..], tail);
      assert a == [a[0]] + a[1..];
    }
  }

  /** Of the candidate pairs, picked are the k least (all of them if there are fewer), in order. */
  ghost predicate AreLeast(picked: seq<(nat, string)>, candidates: seq<(nat, string)>, k: nat) {
    && |picked| == Min(k, |candidates|)
    && SortedBy(picked, Nearer)
    && multiset(picked) <= multiset(candidates)
    && forall p, q | p in picked && q in multiset(candidates) - multiset(picked) :: Nearer(p, q)
  }

  lemma TakeSortedIsLeast(candidates: seq<(nat, string)>, k: nat) returns (picked: seq<(nat, string)>)
    ensures |StableSort(candidates, Nearer)| == |candidates|
    ensures picked == StableSort(candidates, Nearer)[..Min(k, |candidates|)] && AreLeast(picked, candidates, k)
  {
    NearerIsTotalOrder();
    StableSortSpec(candidates, Nearer);
    var sorted := StableSort(candidates, Nearer);
    assert |multiset(sorted)| == |sorted| && |multiset(candidates)| == |candidates|;
    var n := Min(k, |candidates|);
    picked := sorted[..n];
    PrefixIsLeast(sorted, n);
  }

  lemma PrefixIsLeast(sorted: seq<(nat, string)>, n: nat)
    requires n <= |sorted| && SortedBy(sorted, Nearer)
    ensures multiset(sorted[..n]) <= multiset(sorted)
    ensures forall p, q | p in sorted[..n] && q in multiset(sorted) - multiset(sorted[..n]) :: Nearer(p, q)
  {
    assert sorted == sorted[..n] + sorted[n..];
    assert multiset(sorted) - multiset(sorted[..n]) == multiset(sorted[n..]);
    forall p, q | p in sorted[..n] && q in multiset(sorted[n..]) ensures Nearer(p, q) {
      var i :| 0 <= i < n && sorted[i] == p;
      assert q in sorted[n..];
      var j :| n <= j < |sorted| && sorted[j] == q;
    }
  }

  /** Each listed slug with its distance from the missing one. */
  ghost function Candidates(missing: string, slugs: seq<string>): seq<(nat, string)> {
    if slugs == [] then []
    else Candidates(missing, slugs[..|slugs| - 1]) + [(Distance(missing, slugs[|slugs| - 1]), slugs[|slugs| - 1])]
  }

  /** suggest_page_slugs, given what the CLI printed (an empty listing when it failed). */
  method SuggestPageSlugs(missing: string, stdout: string) returns (slugs: seq<string>)
    ensures AreLeast(Candidates(missing, slugs), Candidates(missing, ListedSlugs(stdout)), 3)
  {
    hide Distance, Nearer, AreLeast, ListedSlugs;
    var candidates := RankSlugs(missing, ListedSlugs(stdout));
    var best := StableSort(candidates, Nearer);
    ghost var picked := TakeSortedIsLeast(candidates, 3);
    best := best[..Min(3, |best|)];
    slugs := seq(|best|, i requires 0 <= i < |best| => best[i].1);
    BestCarryDistances(missing, ListedSlugs(stdout), best);
    PairsFromSlugs(missing, best, slugs);
  }

  lemma BestCarryDistances(missing: string, slugs: seq<string>, best: seq<(nat, string)>)
    requires AreLeast(best, Candidates(missing, slugs), 3)
    ensures forall i | 0 <= i < |best| :: best[i] == (Distance(missing, best[i].1), best[i].1)
  {
    hide Distance, Nearer;
    CandidatesCarryDistances(missing, slugs);
    forall i | 0 <= i < |best| ensures best[i] == (Distance(missing, best[i].1), best[i].1) {
      assert best[i] in multiset(best);
      assert best[i] in Candidates(missing, slugs);
    }
  }

  lemma {:induction false} CandidatesCarryDistances(missing: string, slugs: seq<string>)
    ensures forall c | c in Candidates(missing, slugs) :: c.0 == Distance(missing, c.1)
  {
    hide Distance;
    if slugs != [] {
      CandidatesCarryDistances(missing, slugs[..|slugs| - 1]);
    }
  }

  /** Pairs that carry their distances are determined by their slugs. */
  lemma {:induction false} PairsFromSlugs(missing: string, pairs: seq<(nat, string)>, slugs: seq<string>)
    requires |pairs| == |slugs| && forall i | 0 <= i < |pairs| :: pairs[i] == (Distance(missing, slugs[i]), slugs[i])
    ensures Candidates(missing, slugs) == pairs
  {
    hide Distance;
    if slugs != [] {
      PairsFromSlugs(missing, pairs[..|pairs| - 1], slugs[..|slugs| - 1]);
    }
  }

  method RankSlugs(missing: string, listed: seq<string>) returns (candidates: seq<(nat, string)>)
    ensures candidates == Candidates(missing, listed)
  {
    hide Distance;
    candidates := [];
    for i := 0 to |listed|
      invariant candidates == Candidates(missing, listed[..i])
    {
      assert listed[..i + 1][..i] == listed[..i];
      var d := SlugDistance(missing, listed[i]);
      candidates := candidates + [(d, listed[i])];
    }
    assert listed[..|listed|] == listed;
  }
}
