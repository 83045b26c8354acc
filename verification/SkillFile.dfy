/**
 Splitting a SKILL.md file into frontmatter and prompt (src-tauri/src/skills.rs). Offsets are byte
 offsets, as in the source. The YAML reader and the manifest checks after it are not part of this model.
 */
module SkillFile {
  import opened Base
  import opened Text

  // ---- find_closing_delimiter -----------------------------------------------------------------------------

  predicate IsDelimiter(chunk: string) {
    Trim(StripEol(chunk)) == "---"
  }

  /** line is three dashes with whitespace a before and b after them. */
  ghost predicate DashesBetween(line: string, a: string, b: string) {
    line == a + "---" + b && (forall c | c in a :: IsWhitespace(c)) && (forall c | c in b :: IsWhitespace(c))
  }

  /** A delimiter line is three dashes among whitespace, the line ending included. */
  lemma DelimiterMeans(line: string)
    ensures IsDelimiter(line) <==> exists a, b :: DashesBetween(line, a, b)
  {
    hide *;
    var l := StripEol(line);
    var eol := StripsWhitespace(line);
    DelimiterIs(line);
    if IsDelimiter(line) {
      var i, j := TrimmedWhere(l, IsWhitespace);
      DashesFound(line, l, eol, i, j);
    }
    if a, b :| DashesBetween(line, a, b) {
      DashesKept(line, a, b, l, eol);
      TrimmedAt(l, IsWhitespace, |a|, |a| + 3);
    }
  }

  lemma DelimiterIs(line: string)
    ensures IsDelimiter(line) <==> TrimEndWhile(TrimStartWhile(StripEol(line), IsWhitespace), IsWhitespace) == "---"
  {
    hide TrimStartWhile, TrimEndWhile, StripEol;
  }

  lemma DashesFound(line: string, l: string, eol: string, i: nat, j: nat)
    requires line == l + eol && i <= j <= |l| && l[i..j] == "---" && forall c | c in eol :: c == '\n' || c == '\r'
    requires forall x | 0 <= x < i || j <= x < |l| :: IsWhitespace(l[x])
    ensures DashesBetween(line, l[..i], l[j..] + eol)
  {
    assert l == l[..i] + l[i..j] + l[j..];
    assert l[..i] + "---" + l[j..] + eol == l[..i] + "---" + (l[j..] + eol);
  }

  lemma StripsWhitespace(line: string) returns (eol: string)
    ensures line == StripEol(line) + eol && forall c | c in eol :: c == '\n' || c == '\r'
  {
    eol := line[|StripEol(line)|..];
  }

  lemma DashesKept(line: string, a: string, b: string, l: string, eol: string)
    requires DashesBetween(line, a, b) && line == l + eol && forall c | c in eol :: c == '\n' || c == '\r'
    ensures |l| >= |a| + 3 && l[|a|..|a| + 3] == "---"
    ensures forall x | 0 <= x < |a| || |a| + 3 <= x < |l| :: IsWhitespace(l[x])
    ensures !IsWhitespace(l[|a|]) && !IsWhitespace(l[|a| + 2])
  {
    var n := |a| + 3;
    assert line[n - 1] == '-';
    assert forall x | |l| <= x < |line| :: line[x] == eol[x - |l|] && eol[x - |l|] in eol;
    assert forall x | 0 <= x < |l| :: l[x] == line[x];
    assert line[|a|..n] == "---";
    assert l[|a|..n] == line[|a|..n];
  }

  /** Index of the first delimiter line. */
  function FirstDelimiter(chunks: seq<string>): Option<nat> {
    FindFirst(chunks, IsDelimiter)
  }

  predicate EndsInNewline(chunk: string) {
    chunk != "" && chunk[|chunk| - 1] == '\n'
  }

  predicate IsCrlf(chunk: string) {
    |chunk| >= 2 && chunk[|chunk| - 1] == '\n' && chunk[|chunk| - 2] == '\r'
  }

  ghost function CrlfLines(chunks: seq<string>): nat {
    |Filter(chunks, IsCrlf)|
  }

  /** What the loop adds up: each line without its ending, plus one. */
  function OffsetBefore(chunks: seq<string>): nat {
    if chunks == [] then 0 else OffsetBefore(chunks[..|chunks| - 1]) + ByteLen(StripEol(chunks[|chunks| - 1])) + 1
  }

  function ClosingOffset(content: string): Option<nat> {
    match FirstDelimiter(LineChunks(content))
    case None => None
    case Some(i) => Some(OffsetBefore(LineChunks(content)[..i]))
  }

  method FindClosingDelimiter(content: string) returns (r: Option<nat>)
    ensures r == ClosingOffset(content)
  {
    hide Trim, LineChunks, StripEol;
    var chunks, pos := LineChunks(content), 0;
    for i := 0 to |chunks|
      invariant pos == OffsetBefore(chunks[..i])
      invariant forall j | 0 <= j < i :: !IsDelimiter(chunks[j])
    {
      var line := StripEol(chunks[i]);
      if Trim(line) == "---" {
        return Some(pos);
      }
      assert chunks[..i + 1][..i] == chunks[..i];
      pos := pos + ByteLen(line) + 1;
    }
    r := None;
  }

  /** A chunk has a newline at its end at most. */
  predicate OneLine(chunk: string) {
    chunk != "" && '\n' !in chunk[..|chunk| - 1]
  }

  lemma {:induction false} ChunksJoin(s: string)
    ensures Flatten(LineChunks(s)) == s
  {
    if s != "" {
      ChunksJoin(s[1..]);
      var rest := LineChunks(s[1..]);
      assert s == [s[0]] + s[1..];
      if s[0] == '\n' || rest == [] {
        assert ([[s[0]]] + rest)[1..] == rest;
      } else {
        var first := [s[0]] + rest[0];
        assert ([first] + rest[1..])[1..] == rest[1..];
      }
    }
  }

  lemma {:induction false} ChunksAreLines(s: string)
    ensures forall i | 0 <= i < |LineChunks(s)| :: OneLine(LineChunks(s)[i])
    ensures forall i | 0 <= i < |LineChunks(s)| - 1 :: EndsInNewline(LineChunks(s)[i])
  {
    if s != "" {
      var chunks, rest := LineChunks(s), LineChunks(s[1..]);
      ChunksAreLines(s[1..]);
      if s[0] == '\n' || rest == [] {
        assert chunks == [[s[0]]] + rest;
        assert OneLine([s[0]]);
      } else {
        var first := [s[0]] + rest[0];
        assert chunks == [first] + rest[1..];
        assert first[..|first| - 1] == [s[0]] + rest[0][..|rest[0]| - 1];
        assert OneLine(first);
        assert |rest| > 1 ==> EndsInNewline(rest[0]);
      }
    }
  }

  lemma EolBytes(chunk: string)
    requires EndsInNewline(chunk)
    ensures ByteLen(chunk) == ByteLen(StripEol(chunk)) + 1 + (if IsCrlf(chunk) then 1 else 0)
  {
    var l := chunk[..|chunk| - 1];
    assert chunk == l + ['\n'];
    ByteLenConcat(l, ['\n']);
    if IsCrlf(chunk) {
      assert l == l[..|l| - 1] + ['\r'];
      ByteLenConcat(l[..|l| - 1], ['\r']);
    }
  }

  lemma {:induction false} OffsetShortfall(chunks: seq<string>)
    requires forall i | 0 <= i < |chunks| :: EndsInNewline(chunks[i])
    ensures OffsetBefore(chunks) + CrlfLines(chunks) == ByteLen(Flatten(chunks))
  {
    if chunks != [] {
      var init, last := chunks[..|chunks| - 1], chunks[|chunks| - 1];
      assert chunks == init + [last];
      OffsetShortfall(init);
      FlattenAppend(init, last);
      ByteLenConcat(Flatten(init), last);
      EolBytes(last);
      CountAppend(init, last, IsCrlf);
    }
  }

  /**
   Main result: the offset returned falls short of the start of the first delimiter line by one
   byte for every CRLF line before it; so it is that start exactly when there is none.
   */
  lemma ClosingOffsetIsExact(content: string)
    ensures ClosingOffset(content).None? <==> forall chunk | chunk in LineChunks(content) :: !IsDelimiter(chunk)
    ensures ClosingOffset(content).Some? ==>
              var before := LineChunks(content)[..FirstDelimiter(LineChunks(content)).value];
              && ClosingOffset(content).value + CrlfLines(before) == ByteLen(Flatten(before))
              && (ClosingOffset(content).value == ByteLen(Flatten(before)) <==> forall chunk | chunk in before :: !IsCrlf(chunk))
  {
    ChunksAreLines(content);
    var chunks := LineChunks(content);
    if FirstDelimiter(chunks).Some? {
      var before := chunks[..FirstDelimiter(chunks).value];
      OffsetShortfall(before);
      if CrlfLines(before) == 0 {
        assert Filter(before, IsCrlf) == [];
      } else {
        assert Filter(before, IsCrlf)[0] in before;
      }
    }
  }

  // ---- parse_skill_md ---------------------------------------------------------------------------------------

  /** Number of characters in the first n bytes; None when n is not a character boundary. */
  function CharIndex(s: string, n: nat): (r: Option<nat>)
    ensures r.Some? ==> r.value <= |s|
  {
    if n == 0 then Some(0)
    else if s == "" || n < Utf8Width(s[0]) then None
    else match CharIndex(s[1..], n - Utf8Width(s[0]))
      case None => None
      case Some(k) => Some(k + 1)
  }

  lemma {:induction false} CharIndexOfPrefix(a: string, b: string)
    ensures CharIndex(a + b, ByteLen(a)) == Some(|a|)
  {
    if a != "" {
      assert (a + b)[1..] == a[1..] + b;
      CharIndexOfPrefix(a[1..], b);
    }
  }

  function FindChar(s: string, c: char): (r: Option<nat>)
    ensures r.Some? ==> r.value < |s| && s[r.value] == c && c !in s[..r.value]
    ensures r.None? ==> c !in s
  {
    if s == "" then None
    else if s[0] == c then Some(0)
    else match FindChar(s[1..], c)
      case None => None
      case Some(i) => assert s[..i + 1] == [s[0]] + s[1..][..i]; Some(i + 1)
  }

  lemma {:induction false} FindCharAfter(a: string, c: char, b: string)
    requires c !in a
    ensures FindChar(a + [c] + b, c) == Some(|a|)
  {
    if a == "" {
      assert a + [c] + b == [c] + b;
    } else {
      assert (a + [c] + b)[1..] == a[1..] + [c] + b;
      FindCharAfter(a[1..], c, b);
    }
  }

  const BOM := '\U{FEFF}'

  /** SliceFault: a cut that is not on a character boundary, where slicing panics. */
  datatype Split = Frontmatter(yaml: string, prompt: string) | MissingFrontmatter | SliceFault

  predicate IsEolChar(c: char) { c == '\n' || c == '\r' }

  predicate IsNewline(c: char) { c == '\n' }

  function SplitAfterOpening(text: string): Split {
    match ClosingOffset(text)
    case None => MissingFrontmatter
    case Some(offset) =>
      match CharIndex(text, offset)
      case None => SliceFault
      case Some(k) =>
        Frontmatter(text[..k], TrimStartWhile(AfterFirstLine(text[k..]), IsNewline))
  }

  /** What follows the first newline; nothing if there is none. */
  function AfterFirstLine(s: string): string {
    match FindChar(s, '\n')
    case Some(p) => s[p + 1..]
    case None => ""
  }

  function WithoutBom(content: string): string {
    if content != "" && content[0] == BOM then content[1..] else content
  }

  /** What follows the first line, if that line starts with `---` and ends in a newline. */
  function AfterOpeningLine(trimmed: string): Option<string> {
    if !IsPrefix("---", trimmed) then None
    else match FindChar(trimmed[3..], '\n')
      case None => None
      case Some(pos) => Some(trimmed[3..][pos + 1..])
  }

  function SplitSkillFile(content: string): Split {
    match AfterOpeningLine(TrimStartWhile(WithoutBom(content), IsEolChar))
    case None => MissingFrontmatter
    case Some(text) => SplitAfterOpening(text)
  }

  /** A header the offset loop measures right: whole LF lines, none of them a delimiter. */
  ghost predicate PlainHeader(header: string) {
    && (header == "" || header[|header| - 1] == '\n')
    && forall chunk | chunk in LineChunks(header) :: !IsCrlf(chunk) && !IsDelimiter(chunk)
  }

  /** One line that trims to `---`, with its newline unless it ends the file. */
  ghost predicate ClosingLine(closing: string, body: string) {
    && OneLine(closing) && IsDelimiter(closing)
    && (EndsInNewline(closing) || body == "")
  }

  lemma {:induction false} ChunksConcat(a: string, b: string)
    requires a == "" || a[|a| - 1] == '\n'
    ensures LineChunks(a + b) == LineChunks(a) + LineChunks(b)
  {
    hide LineChunks, PrependChar;
    ChunksOfNothing();
    if a == "" {
      assert a + b == b;
    } else {
      var c, tail := a[0], a[1..];
      assert a == [c] + tail;
      assert a + b == [c] + (tail + b);
      ChunksConcat(tail, b);
      ChunksCons(c, tail);
      ChunksCons(c, tail + b);
      PrependBefore(c, LineChunks(tail), LineChunks(b));
    }
  }

  lemma ChunksOfNothing()
    ensures LineChunks("") == []
  {
  }

  lemma ChunksCons(c: char, s: string)
    ensures LineChunks([c] + s) == PrependChar(c, LineChunks(s))
  {
    assert ([c] + s)[1..] == s;
  }

  lemma PrependBefore(c: char, x: seq<string>, y: seq<string>)
    requires c == '\n' || x != []
    ensures PrependChar(c, x + y) == PrependChar(c, x) + y
  {
  }

  lemma {:induction false} OneChunk(line: string)
    requires OneLine(line)
    ensures LineChunks(line) == [line]
  {
    assert line == [line[0]] + line[1..];
    if |line| > 1 {
      assert line[0] == line[..|line| - 1][0];
      assert line[1..][..|line[1..]| - 1] == line[..|line| - 1][1..];
      OneChunk(line[1..]);
    } else {
      assert line[1..] == "" && LineChunks("") == [];
      assert line == [line[0]];
      assert [[line[0]]] + [] == [line];
    }
  }

  lemma PlainOffset(header: string, closing: string, body: string)
    requires PlainHeader(header) && ClosingLine(closing, body)
    ensures ClosingOffset(header + closing + body) == Some(ByteLen(header))
  {
    hide IsDelimiter, LineChunks, StripEol, OffsetBefore, ByteLen;
    var text := header + closing + body;
    assert text == header + (closing + body);
    ChunksConcat(header, closing + body);
    if EndsInNewline(closing) {
      ChunksConcat(closing, body);
    } else {
      assert closing + body == closing;
    }
    OneChunk(closing);
    var before, chunks := LineChunks(header), LineChunks(text);
    assert chunks == before + ([closing] + LineChunks(body));
    assert forall j | 0 <= j < |before| :: chunks[j] == before[j] && before[j] in before;
    FindFirstIs(chunks, IsDelimiter, |before|);
    assert chunks[..|before|] == before;
    ChunksJoin(header);
    ClosingOffsetIsExact(text);
  }

  /** The prompt after the closing line. */
  lemma PromptAfter(closing: string, body: string)
    requires ClosingLine(closing, body)
    ensures AfterFirstLine(closing + body) == body
  {
    hide IsDelimiter;
    var line, last := closing[..|closing| - 1], closing[|closing| - 1];
    assert closing == line + [last];
    if EndsInNewline(closing) {
      FindCharAfter(line, '\n', body);
      assert closing + body == line + ['\n'] + body;
    } else {
      assert '\n' !in closing + body;
    }
  }

  lemma SplitPlain(header: string, closing: string, body: string)
    requires PlainHeader(header) && ClosingLine(closing, body)
    ensures IsFrontmatter(SplitAfterOpening(header + closing + body), header, body)
  {
    hide *;
    var text := header + closing + body;
    PlainOffset(header, closing, body);
    assert text == header + (closing + body);
    CharIndexOfPrefix(header, closing + body);
    assert text[..|header|] == header && text[|header|..] == closing + body;
    PromptAfter(closing, body);
    SplitAtOffset(text, ByteLen(header), |header|);
    TrimmedIsPrompt(body);
    FrontmatterOf(header, body);
  }

  lemma SplitAtOffset(text: string, offset: nat, k: nat)
    requires ClosingOffset(text) == Some(offset) && k <= |text| && CharIndex(text, offset) == Some(k)
    ensures SplitAfterOpening(text) == Frontmatter(text[..k], TrimStartWhile(AfterFirstLine(text[k..]), IsNewline))
  {
    hide ClosingOffset, CharIndex, TrimStartWhile, AfterFirstLine;
  }

  lemma TrimmedIsPrompt(body: string)
    ensures IsPromptOf(TrimStartWhile(body, IsNewline), body)
  {
  }

  lemma FrontmatterOf(header: string, body: string)
    requires IsPromptOf(TrimStartWhile(body, IsNewline), body)
    ensures IsFrontmatter(Frontmatter(header, TrimStartWhile(body, IsNewline)), header, body)
  {
    hide IsPromptOf, TrimStartWhile;
  }

  /** prompt is what is left of body after all its leading newlines. */
  ghost predicate IsPromptOf(prompt: string, body: string) {
    && |prompt| <= |body| && body[|body| - |prompt|..] == prompt
    && (forall i | 0 <= i < |body| - |prompt| :: body[i] == '\n')
    && (prompt != "" ==> prompt[0] != '\n')
  }

  ghost predicate IsFrontmatter(split: Split, header: string, body: string) {
    split.Frontmatter? && split.yaml == header && IsPromptOf(split.prompt, body)
  }

  /** At most a byte order mark, then blank line ends; and what may follow the three dashes. */
  ghost predicate Opening(bom: string, lead: string, junk: string) {
    && (bom == "" || bom == [BOM])
    && (forall c | c in lead :: c == '\n' || c == '\r')
    && '\n' !in junk
  }

  lemma {:induction false} TrimStartOf(lead: string, rest: string, p: char -> bool)
    requires forall c | c in lead :: p(c)
    requires rest == "" || !p(rest[0])
    ensures TrimStartWhile(lead + rest, p) == rest
  {
    if lead == "" {
      assert lead + rest == rest;
    } else {
      assert (lead + rest)[1..] == lead[1..] + rest;
      TrimStartOf(lead[1..], rest, p);
    }
  }

  /** A first line: three dashes and anything else but a newline. */
  lemma OpeningLineSkipped(trimmed: string, dashes: string, junk: string, text: string)
    requires trimmed == dashes + junk + ['\n'] + text && dashes == "---" && '\n' !in junk
    ensures AfterOpeningLine(trimmed) == Some(text)
  {
    hide FindChar;
    assert trimmed[..3] == dashes;
    assert trimmed[3..] == junk + ['\n'] + text;
    FindCharAfter(junk, '\n', text);
  }

  lemma OpeningLineShape(trimmed: string) returns (junk: string)
    requires AfterOpeningLine(trimmed).Some?
    ensures trimmed == "---" + junk + "\n" + AfterOpeningLine(trimmed).value && '\n' !in junk
  {
    hide FindChar;
    var rest := trimmed[3..];
    var pos := FindChar(rest, '\n').value;
    junk := rest[..pos];
    assert trimmed == trimmed[..3] + rest;
    assert rest == junk + [rest[pos]] + rest[pos + 1..];
  }

  lemma SplitOpening(bom: string, lead: string, junk: string, text: string)
    requires Opening(bom, lead, junk)
    ensures SplitSkillFile(bom + lead + "---" + junk + "\n" + text) == SplitAfterOpening(text)
  {
    hide TrimStartWhile, FindChar, SplitAfterOpening, AfterOpeningLine, SplitSkillFile, WithoutBom;
    var dashes := "---";
    var trimmed := dashes + junk + ['\n'] + text;
    OpeningLineSkipped(trimmed, dashes, junk, text);
    assert dashes[0] == '-' && trimmed[0] == dashes[0];
    BomAndLeadSkipped(bom, lead, trimmed, junk);
    Regroup(bom, lead, "---", junk, "\n", text);
    SplitByOpening(bom + (lead + trimmed), trimmed, text);
  }

  lemma BomAndLeadSkipped(bom: string, lead: string, trimmed: string, junk: string)
    requires Opening(bom, lead, junk) && trimmed != "" && trimmed[0] == '-'
    ensures TrimStartWhile(WithoutBom(bom + (lead + trimmed)), IsEolChar) == trimmed
  {
    hide TrimStartWhile;
    TrimStartOf(lead, trimmed, IsEolChar);
    var content := bom + (lead + trimmed);
    assert (lead + trimmed)[0] == if lead == "" then '-' else lead[0];
    assert WithoutBom(content) == lead + trimmed;
  }

  lemma SplitByOpening(content: string, trimmed: string, text: string)
    requires TrimStartWhile(WithoutBom(content), IsEolChar) == trimmed && AfterOpeningLine(trimmed) == Some(text)
    ensures SplitSkillFile(content) == SplitAfterOpening(text)
  {
  }

  /** Main result: for any LF header, any closing line and any body, exactly the header reaches the YAML reader. */
  lemma PlainFileSplits(bom: string, lead: string, junk: string, header: string, closing: string, body: string)
    requires Opening(bom, lead, junk) && PlainHeader(header) && ClosingLine(closing, body)
    ensures IsFrontmatter(SplitSkillFile(bom + lead + "---" + junk + "\n" + (header + closing + body)), header, body)
  {
    SplitOpening(bom, lead, junk, header + closing + body);
    SplitPlain(header, closing, body);
  }

  lemma DashesClose(line: string)
    requires line == "---\n"
    ensures IsDelimiter(line) && OneLine(line) && EndsInNewline(line)
  {
    var dashes := line[..3];
    assert dashes == "---";
    assert dashes[0] == '-' && dashes[2] == '-' && line[2] == '-' && line[3] == '\n';
    NothingToTrim(dashes);
  }

  /** The plain form `---\n` header `---\n` body. */
  lemma DashedFileSplits(header: string, body: string, line: string)
    requires PlainHeader(header) && line == "---\n"
    ensures IsFrontmatter(SplitSkillFile(line + header + line + body), header, body)
  {
    hide SplitSkillFile, PlainHeader, TrimStartWhile, IsDelimiter;
    DashesClose(line);
    var nothing := "";
    PlainFileSplits(nothing, nothing, nothing, header, line, body);
    assert nothing + nothing + "---" + nothing + "\n" == line;
    assert line + (header + line + body) == line + header + line + body;
  }

  /** The text before the delimiter has only LF lines. */
  ghost predicate LfBeforeDelimiter(text: string) {
    FirstDelimiter(LineChunks(text)).Some?
    && forall chunk | chunk in LineChunks(text)[..FirstDelimiter(LineChunks(text)).value] :: !IsCrlf(chunk)
  }

  /** header, closing line and body are the parts that split returns for text. */
  ghost predicate AreParts(split: Split, text: string, closing: string, body: string) {
    && split.Frontmatter?
    && PlainHeader(split.yaml) && ClosingLine(closing, body) && text == split.yaml + closing + body
    && IsPromptOf(split.prompt, body)
  }

  /**
   Main result, the other way: a file that splits has an opening line, and if the text before the
   delimiter has only LF lines, the parts returned are its header and body.
   */
  lemma SplitsOnlyPlainFiles(content: string)
    returns (bom: string, lead: string, junk: string, closing: string, body: string, text: string)
    ensures SplitSkillFile(content).Frontmatter? ==>
              && content == bom + lead + "---" + junk + "\n" + text && Opening(bom, lead, junk)
              && (LfBeforeDelimiter(text) ==> AreParts(SplitSkillFile(content), text, closing, body))
  {
    hide *;
    bom, lead, junk, text := OpeningOf(content);
    closing, body := CutAtDelimiter(text);
  }

  lemma OpeningOf(content: string) returns (bom: string, lead: string, junk: string, text: string)
    ensures SplitSkillFile(content).Frontmatter? ==>
              && content == bom + lead + "---" + junk + "\n" + text && Opening(bom, lead, junk)
              && SplitSkillFile(content) == SplitAfterOpening(text)
  {
    hide TrimStartWhile, AfterOpeningLine, SplitAfterOpening, WithoutBom;
    var trimmed := TrimStartWhile(WithoutBom(content), IsEolChar);
    bom, lead := BomAndLead(content);
    junk, text := "", "";
    if AfterOpeningLine(trimmed).Some? {
      junk := OpeningLineShape(trimmed);
      text := AfterOpeningLine(trimmed).value;
      Regroup(bom, lead, "---", junk, "\n", text);
    }
  }

  lemma BomAndLead(content: string) returns (bom: string, lead: string)
    ensures content == bom + (lead + TrimStartWhile(WithoutBom(content), IsEolChar)) && Opening(bom, lead, "")
  {
    hide TrimStartWhile, WithoutBom;
    bom := if content != "" && content[0] == BOM then [BOM] else "";
    lead := TrimmedFront(WithoutBom(content), IsEolChar);
    BomInFront(content);
    assert content == bom + WithoutBom(content);
  }

  lemma BomInFront(content: string)
    ensures content == (if content != "" && content[0] == BOM then [BOM] else "") + WithoutBom(content)
  {
  }

  lemma Regroup(a: string, b: string, c: string, d: string, e: string, f: string)
    ensures a + (b + (c + d + e + f)) == a + b + c + d + e + f
  {
  }

  lemma CutAtDelimiter(text: string) returns (closing: string, body: string)
    ensures LfBeforeDelimiter(text) ==> AreParts(SplitAfterOpening(text), text, closing, body)
  {
    hide IsDelimiter, LineChunks, SplitAfterOpening, TrimStartWhile, StripEol, Flatten;
    closing, body := "", "";
    var chunks := LineChunks(text);
    if FirstDelimiter(chunks).Some? {
      var i := FirstDelimiter(chunks).value;
      var before, header := chunks[..i], Flatten(chunks[..i]);
      closing, body := chunks[i], Flatten(chunks[i + 1..]);
      ChunksJoin(text);
      ChunksAreLines(text);
      FlattenParts(chunks, i);
      ChunksOfLines(before);
      if forall chunk | chunk in before :: !IsCrlf(chunk) {
        SplitPlain(header, closing, body);
      }
    }
  }

  lemma {:induction false} FlattenParts(xss: seq<string>, i: nat)
    requires i < |xss|
    ensures Flatten(xss) == Flatten(xss[..i]) + xss[i] + Flatten(xss[i + 1..])
    ensures i + 1 == |xss| ==> Flatten(xss[i + 1..]) == ""
  {
    if i == 0 {
      assert xss[..0] == [];
    } else {
      FlattenParts(xss[1..], i - 1);
      assert xss[..i][1..] == xss[1..][..i - 1] && xss[1..][i..] == xss[i + 1..];
    }
  }

  /** Complete lines put together are cut back into themselves. */
  lemma {:induction false} ChunksOfLines(lines: seq<string>)
    requires forall i | 0 <= i < |lines| :: EndsInNewline(lines[i]) && OneLine(lines[i])
    ensures LineChunks(Flatten(lines)) == lines
    ensures Flatten(lines) == "" || Flatten(lines)[|Flatten(lines)| - 1] == '\n'
  {
    if lines != [] {
      ChunksOfLines(lines[1..]);
      OneChunk(lines[0]);
      ChunksConcat(lines[0], Flatten(lines[1..]));
    }
  }

  // ---- Files with CRLF lines ---------------------------------------------------------------------------------

  /** A cut n bytes before the end of s falls inside character i. */
  ghost predicate CutsAt(s: string, i: nat, n: nat)
    requires i < |s|
  {
    ByteLen(s[i + 1..]) < n < ByteLen(s[i..])
  }

  ghost predicate CutsACharacter(s: string, n: nat) {
    exists i: nat :: i < |s| && CutsAt(s, i, n)
  }

  ghost predicate EndsWith(s: string, tail: string) {
    |tail| <= |s| && s[|s| - |tail|..] == tail
  }

  lemma {:induction false} CharIndexInPrefix(a: string, b: string, n: nat)
    requires n <= ByteLen(a)
    ensures CharIndex(a + b, n) == CharIndex(a, n)
  {
    if a != "" && n > 0 {
      assert (a + b)[1..] == a[1..] + b;
      if n >= Utf8Width(a[0]) {
        CharIndexInPrefix(a[1..], b, n - Utf8Width(a[0]));
      }
    }
  }

  /** A byte offset has no character index exactly when the cut falls inside a character. */
  lemma {:induction false} CharIndexExactly(s: string, n: nat)
    requires n <= ByteLen(s)
    ensures CharIndex(s, n).Some? ==> ByteLen(s[..CharIndex(s, n).value]) == n
    ensures CharIndex(s, n).None? <==> CutsACharacter(s, ByteLen(s) - n)
  {
    var m := ByteLen(s) - n;
    if n == 0 {
      NoCutBefore(s, m);
    } else {
      CutsCons(s, m);
      assert s[0..] == s;
      if n >= Utf8Width(s[0]) {
        CharIndexExactly(s[1..], n - Utf8Width(s[0]));
        assert CharIndex(s, n).Some? ==> s[..CharIndex(s, n).value][1..] == s[1..][..CharIndex(s, n).value - 1];
      }
    }
  }

  lemma NoCutBefore(s: string, n: nat)
    requires n >= ByteLen(s)
    ensures !CutsACharacter(s, n)
  {
    hide ByteLen;
    forall i: nat | i < |s| ensures !CutsAt(s, i, n) {
      assert s == s[..i] + s[i..];
      ByteLenConcat(s[..i], s[i..]);
    }
  }

  lemma CutsCons(s: string, n: nat)
    requires s != ""
    ensures CutsACharacter(s, n) <==> CutsAt(s, 0, n) || CutsACharacter(s[1..], n)
  {
    hide ByteLen;
    forall i: nat | i < |s[1..]| ensures CutsAt(s[1..], i, n) <==> CutsAt(s, i + 1, n) {
      assert s[1..][i..] == s[i + 1..] && s[1..][i + 1..] == s[i + 1 + 1..];
    }
    if CutsACharacter(s, n) {
      var i: nat :| i < |s| && CutsAt(s, i, n);
      assert i > 0 ==> CutsAt(s[1..], i - 1, n);
    }
  }

  lemma DelimiterStartsLine(closing: string)
    requires OneLine(closing) && IsDelimiter(closing)
    ensures closing[0] != '\n'
  {
    hide IsDelimiter;
    if closing[0] == '\n' {
      BlankLine(closing);
      BlankIsNoDelimiter();
    }
  }

  lemma BlankLine(line: string)
    requires OneLine(line) && line[0] == '\n'
    ensures line == "\n"
  {
    assert forall i | 0 <= i < |line| - 1 :: line[i] in line[..|line| - 1];
  }

  lemma BlankIsNoDelimiter()
    ensures !IsDelimiter("\n")
  {
    assert StripEol("\n") == "";
  }

  /** Trimming a front that newlines may fill leaves what starts with something else. */
  lemma TrimKeepsTail(a: string, b: string)
    requires b != "" && b[0] != '\n'
    ensures EndsWith(TrimStartWhile(a + b, IsNewline), b)
  {
    hide TrimStartWhile;
    var s := a + b;
    var t := TrimStartWhile(s, IsNewline);
    assert s[|a|] == b[0];
    assert |s| - |t| <= |a|;
    assert t[|t| - |b|..] == s[|s| - |b|..];
  }

  /** The first newline of what ends in one comes before what follows it. */
  lemma FirstLineWithin(a: string, tail: string) returns (rest: string)
    requires a != "" && a[|a| - 1] == '\n'
    ensures AfterFirstLine(a + tail) == rest + tail
  {
    hide FindChar;
    var s := a + tail;
    assert s[|a| - 1] == '\n';
    var p := FindChar(s, '\n').value;
    forall i | 0 <= i < p ensures s[i] != '\n' {
      assert s[i] == s[..p][i];
    }
    rest := a[p + 1..];
    assert s[p + 1..] == rest + tail;
  }

  /** A cut before the end of a header that ends in a newline: what follows the next newline still has the closing line. */
  lemma EarlyCutKeepsDelimiter(header: string, tail: string, offset: nat, k: nat)
    requires k < |header| && header[|header| - 1] == '\n' && tail != "" && tail[0] != '\n'
    requires ClosingOffset(header + tail) == Some(offset) && CharIndex(header + tail, offset) == Some(k)
    ensures SplitAfterOpening(header + tail).Frontmatter?
    ensures SplitAfterOpening(header + tail).yaml == header[..k] && EndsWith(SplitAfterOpening(header + tail).prompt, tail)
  {
    hide *;
    var text := header + tail;
    SplitAtOffset(text, offset, k);
    CutParts(header, tail, k);
    var rest := FirstLineWithin(header[k..], tail);
    TrimKeepsTail(rest, tail);
  }

  lemma CutParts(header: string, tail: string, k: nat)
    requires k <= |header|
    ensures (header + tail)[k..] == header[k..] + tail && (header + tail)[..k] == header[..k]
  {
  }

  /** The text before the first delimiter line, that line, and the rest. */
  ghost function Parts(text: string): (string, string, string)
    requires FirstDelimiter(LineChunks(text)).Some?
  {
    var chunks := LineChunks(text);
    var i := FirstDelimiter(chunks).value;
    (Flatten(chunks[..i]), chunks[i], Flatten(chunks[i + 1..]))
  }

  ghost function CrlfBefore(text: string): nat
    requires FirstDelimiter(LineChunks(text)).Some?
  {
    CrlfLines(LineChunks(text)[..FirstDelimiter(LineChunks(text)).value])
  }

  lemma PartsOf(text: string)
    requires FirstDelimiter(LineChunks(text)).Some?
    ensures var (header, closing, body) := Parts(text);
            && text == header + (closing + body) && ClosingLine(closing, body)
            && (header == "" || header[|header| - 1] == '\n')
            && ClosingOffset(text).Some? && ClosingOffset(text).value + CrlfBefore(text) == ByteLen(header)
            && (CrlfBefore(text) == 0 ==> PlainHeader(header))
  {
    hide IsDelimiter, LineChunks, StripEol, Flatten, IsCrlf;
    var chunks := LineChunks(text);
    var i := FirstDelimiter(chunks).value;
    var before := chunks[..i];
    ChunksJoin(text);
    ChunksAreLines(text);
    FlattenParts(chunks, i);
    ChunksOfLines(before);
    ClosingOffsetIsExact(text);
    var (header, closing, body) := Parts(text);
    assert header + closing + body == header + (closing + body);
    if CrlfBefore(text) == 0 {
      assert forall chunk | chunk in before :: chunk in Filter(before, IsCrlf) || !IsCrlf(chunk);
    }
  }

  /**
   Main result: what becomes of any text with a delimiter line. Each CRLF line before it moves the
   cut one byte ahead of that line. The header is read as it is exactly when there is none;
   otherwise the slice panics exactly when the cut falls inside a character, and if it does not,
   the YAML text is short by those bytes and the prompt still has the closing line in it.
   */
  lemma SplitOfAnyText(text: string)
    requires FirstDelimiter(LineChunks(text)).Some?
    ensures var ((header, closing, body), crlf, split) := (Parts(text), CrlfBefore(text), SplitAfterOpening(text));
            && (split.SliceFault? <==> CutsACharacter(header, crlf))
            && (split.Frontmatter? <==> !CutsACharacter(header, crlf))
            && (split.Frontmatter? ==>
                  && split.yaml <= header && ByteLen(split.yaml) + crlf == ByteLen(header)
                  && (split.yaml == header <==> crlf == 0)
                  && (crlf == 0 ==> IsPromptOf(split.prompt, body))
                  && (crlf > 0 ==> EndsWith(split.prompt, closing + body)))
  {
    hide *;
    var (header, closing, body) := Parts(text);
    var crlf := CrlfBefore(text);
    PartsOf(text);
    var offset := ClosingOffset(text).value;
    CharIndexInPrefix(header, closing + body, offset);
    CharIndexExactly(header, offset);
    if crlf == 0 {
      NothingCut(header);
      SplitPlain(header, closing, body);
      assert header + closing + body == text;
      FrontmatterParts(SplitAfterOpening(text), header, body);
    } else if CharIndex(header, offset).None? {
      FaultAtOffset(text, offset);
    } else {
      var k := CharIndex(header, offset).value;
      assert header[..|header|] == header;
      assert k < |header|;
      ClosingStarts(closing, body);
      assert (closing + body)[0] == closing[0];
      EmptyIsZero(header);
      EarlyCutKeepsDelimiter(header, closing + body, offset, k);
    }
  }

  lemma EmptyIsZero(s: string)
    ensures ByteLen(s) > 0 ==> s != ""
  {
  }

  lemma ClosingStarts(closing: string, body: string)
    requires ClosingLine(closing, body)
    ensures closing != "" && closing[0] != '\n'
  {
    hide IsDelimiter;
    DelimiterStartsLine(closing);
  }

  lemma NothingCut(s: string)
    ensures !CutsACharacter(s, 0)
  {
  }

  lemma FrontmatterParts(split: Split, header: string, body: string)
    requires IsFrontmatter(split, header, body)
    ensures split.Frontmatter? && split.yaml == header && IsPromptOf(split.prompt, body)
  {
  }

  lemma FaultAtOffset(text: string, offset: nat)
    requires ClosingOffset(text) == Some(offset) && CharIndex(text, offset).None?
    ensures SplitAfterOpening(text) == SliceFault
  {
    hide ClosingOffset, CharIndex;
  }

  lemma NotADelimiter(line: string, c: char, eol: string)
    requires line == [c] + eol && eol in {"\n", "\r\n"} && !IsWhitespace(c)
    ensures !IsDelimiter(line) && EndsInNewline(line) && OneLine(line) && (IsCrlf(line) <==> eol == "\r\n")
  {
    hide Trim;
    var text := [c];
    NothingToTrim(text);
    assert StripEol(line) == text;
  }

  /** The panic is reachable: two CRLF lines, then a line ending in a two-byte character. */
  lemma CrlfFileFaults(dashes: string, a: string, b: string, c: string)
    requires dashes == "---\n" && a == "a\r\n" && b == "b\r\n" && c == "\U{e9}\n"
    ensures SplitSkillFile(dashes + a + b + c + dashes) == SliceFault
  {
    hide *;
    var text := a + b + c + dashes;
    CrlfLinesOf(dashes, a, b, c);
    FaultyParts(text, a, b, c, dashes);
    SplitOfAnyText(text);
    OpeningIsEmpty();
    SplitOpening("", "", "", text);
    assert "" + "" + "---" + "" + "\n" + text == dashes + a + b + c + dashes;
  }

  lemma OpeningIsEmpty()
    ensures Opening("", "", "")
  {
  }

  lemma CrlfLinesOf(dashes: string, a: string, b: string, c: string)
    requires dashes == "---\n" && a == "a\r\n" && b == "b\r\n" && c == "\U{e9}\n"
    ensures LineChunks(a + b + c + dashes) == [a, b, c, dashes]
    ensures FirstDelimiter([a, b, c, dashes]) == Some(3) && IsCrlf(a) && IsCrlf(b) && !IsCrlf(c)
  {
    hide LineChunks, IsDelimiter, Flatten;
    NotADelimiter(a, 'a', "\r\n");
    NotADelimiter(b, 'b', "\r\n");
    NotADelimiter(c, '\U{e9}', "\n");
    DashesClose(dashes);
    ChunksOfLines([a, b, c, dashes]);
    FindFirstIs([a, b, c, dashes], IsDelimiter, 3);
    FourLines(a, b, c, dashes);
  }

  lemma FourLines(a: string, b: string, c: string, d: string)
    ensures Flatten([a, b, c, d]) == a + b + c + d && Flatten([a, b, c]) == a + b + c
  {
    hide Flatten;
    NoLines();
    FlattenAppend([], a);
    FlattenAppend([a], b);
    FlattenAppend([a, b], c);
    FlattenAppend([a, b, c], d);
    assert [] + [a] == [a] && [a] + [b] == [a, b] && [a, b] + [c] == [a, b, c] && [a, b, c] + [d] == [a, b, c, d];
  }

  lemma NoLines()
    ensures Flatten<char>([]) == []
  {
  }

  lemma FaultyParts(text: string, a: string, b: string, c: string, d: string)
    requires LineChunks(text) == [a, b, c, d] && FirstDelimiter([a, b, c, d]) == Some(3)
    requires IsCrlf(a) && IsCrlf(b) && !IsCrlf(c) && c == "\U{e9}\n"
    ensures CrlfBefore(text) == 2 && CutsACharacter(Parts(text).0, 2)
  {
    hide FirstDelimiter, LineChunks, IsCrlf, Flatten;
    var before := [a, b, c];
    assert [a, b, c, d][..3] == before;
    assert Filter([c], IsCrlf) == [] by { assert [c][1..] == []; }
    assert Filter([b, c], IsCrlf) == [b] by { assert [b, c][1..] == [c]; }
    assert Filter(before, IsCrlf) == [a, b] by { assert before[1..] == [b, c]; }
    FourLines(a, b, c, d);
    var header := a + b + c;
    var i := |header| - 2;
    assert header[i..] == c && header[i + 1..] == ['\n'];
    assert c[1..] == ['\n'] && ['\n'][1..] == "";
    assert CutsAt(header, i, 2);
  }
}
