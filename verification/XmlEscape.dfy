/** SkillsRegistry::escape_xml (src-tauri/src/skills.rs) and the predefined entities of section 4.6 of XML 1.0. */
module XmlEscape {
  import opened Base
  import opened Text

  function EscapeXml(s: string): string {
    ReplaceChar(ReplaceChar(ReplaceChar(ReplaceChar(ReplaceChar(s,
      '&', "&amp;"), '<', "&lt;"), '>', "&gt;"), '"', "&quot;"), '\'', "&apos;")
  }

  /** What one character becomes. */
  function EscapeChar(c: char): string {
    match c
    case '&' => "&amp;"
    case '<' => "&lt;"
    case '>' => "&gt;"
    case '"' => "&quot;"
    case '\'' => "&apos;"
    case _ => [c]
  }

  function EscapePerChar(s: string): string {
    if s == "" then "" else EscapeChar(s[0]) + EscapePerChar(s[1..])
  }

  lemma EscapeXmlConcat(a: string, b: string)
    ensures EscapeXml(a + b) == EscapeXml(a) + EscapeXml(b)
  {
    var a1, b1 := ReplaceChar(a, '&', "&amp;"), ReplaceChar(b, '&', "&amp;");
    var a2, b2 := ReplaceChar(a1, '<', "&lt;"), ReplaceChar(b1, '<', "&lt;");
    var a3, b3 := ReplaceChar(a2, '>', "&gt;"), ReplaceChar(b2, '>', "&gt;");
    var a4, b4 := ReplaceChar(a3, '"', "&quot;"), ReplaceChar(b3, '"', "&quot;");
    ReplaceConcat(a, b, '&', "&amp;");
    ReplaceConcat(a1, b1, '<', "&lt;");
    ReplaceConcat(a2, b2, '>', "&gt;");
    ReplaceConcat(a3, b3, '"', "&quot;");
    ReplaceConcat(a4, b4, '\'', "&apos;");
  }

  /** Replacing in a one-character string, or in a string that lacks the character. */
  lemma ReplaceInOne(x: char, c: char, with: string)
    ensures ReplaceChar([x], c, with) == if x == c then with else [x]
  {
    assert [x][1..] == "";
  }

  /** Text that the last four replacements leave alone. */
  predicate Settled(t: string) {
    '<' !in t && '>' !in t && '"' !in t && '\'' !in t
  }

  lemma EscapeXmlOne(c: char)
    ensures EscapeXml([c]) == EscapeChar(c)
  {
    ReplaceInOne(c, '&', "&amp;");
    if c == '&' {
      SettledStays("&amp;");
    } else {
      ReplaceInOne(c, '<', "&lt;");
      if c == '<' {
        SettledStays("&lt;");
      } else {
        ReplaceInOne(c, '>', "&gt;");
        if c == '>' {
          SettledStays("&gt;");
        } else {
          ReplaceInOne(c, '"', "&quot;");
          if c == '"' {
            SettledStays("&quot;");
          } else {
            ReplaceInOne(c, '\'', "&apos;");
          }
        }
      }
    }
  }

  lemma SettledStays(t: string)
    requires Settled(t)
    ensures ReplaceChar(t, '<', "&lt;") == t && ReplaceChar(t, '>', "&gt;") == t
    ensures ReplaceChar(t, '"', "&quot;") == t && ReplaceChar(t, '\'', "&apos;") == t
  {
    ReplaceAbsent(t, '<', "&lt;");
    ReplaceAbsent(t, '>', "&gt;");
    ReplaceAbsent(t, '"', "&quot;");
    ReplaceAbsent(t, '\'', "&apos;");
  }

  /** Main result: five whole-string replacements in sequence equal one substitution per character. */
  lemma {:induction false} SequentialIsPerChar(s: string)
    ensures EscapeXml(s) == EscapePerChar(s)
  {
    if s != "" {
      EscapeXmlOne(s[0]);
      EscapeXmlConcat([s[0]], s[1..]);
      assert s == [s[0]] + s[1..];
      SequentialIsPerChar(s[1..]);
    }
  }

  /** The escaped text is safe as element content and attribute value. */
  lemma {:induction false} NoMarkupLeft(s: string)
    ensures forall c | c in "<>\"'" :: c !in EscapePerChar(s)
  {
    if s != "" {
      NoMarkupLeft(s[1..]);
    }
  }

  // ---- Decoding ------------------------------------------------------------------------------------------

  /** The predefined entity that s starts with: its length and its character. */
  function EntityAt(s: string): (r: Option<(nat, char)>)
    ensures r.Some? ==> 0 < r.value.0 <= |s|
  {
    if IsPrefix("&amp;", s) then Some((5, '&'))
    else if IsPrefix("&lt;", s) then Some((4, '<'))
    else if IsPrefix("&gt;", s) then Some((4, '>'))
    else if IsPrefix("&quot;", s) then Some((6, '"'))
    else if IsPrefix("&apos;", s) then Some((6, '\''))
    else None
  }

  /** Left-to-right decoding; an ampersand that starts no predefined entity is an error. */
  function Unescape(s: string): Option<string>
    decreases |s|
  {
    if s == "" then Some("")
    else if s[0] != '&' then
      match Unescape(s[1..]) { case None => None case Some(t) => Some([s[0]] + t) }
    else match EntityAt(s)
      case None => None
      case Some((n, c)) =>
        match Unescape(s[n..]) { case None => None case Some(t) => Some([c] + t) }
  }

  lemma PrefixAt(p: string, s: string, i: nat)
    requires i < |p|
    ensures IsPrefix(p, s) ==> i < |s| && s[i] == p[i]
  {
  }

  lemma DecodeOne(c: char, rest: string)
    requires Unescape(rest).Some?
    ensures Unescape(EscapeChar(c) + rest) == Some([c] + Unescape(rest).value)
  {
    var s := EscapeChar(c) + rest;
    assert s[|EscapeChar(c)|..] == rest;
    if c in "&<>\"'" {
      assert IsPrefix(EscapeChar(c), s);
      PrefixAt("&amp;", s, 1);
      PrefixAt("&amp;", s, 2);
      PrefixAt("&lt;", s, 1);
      PrefixAt("&gt;", s, 1);
      PrefixAt("&quot;", s, 1);
      assert EntityAt(s) == Some((|EscapeChar(c)|, c));
    }
  }

  /** Main result: decoding gives back the input, so escaping is injective. */
  lemma {:induction false} UnescapeInvertsEscape(s: string)
    ensures Unescape(EscapePerChar(s)) == Some(s)
  {
    if s != "" {
      UnescapeInvertsEscape(s[1..]);
      DecodeOne(s[0], EscapePerChar(s[1..]));
      assert s == [s[0]] + s[1..];
    }
  }

  lemma EscapeXmlRoundTrip(s: string, t: string)
    ensures Unescape(EscapeXml(s)) == Some(s)
    ensures EscapeXml(s) == EscapeXml(t) ==> s == t
    ensures forall c | c in "<>\"'" :: c !in EscapeXml(s)
  {
    SequentialIsPerChar(s);
    SequentialIsPerChar(t);
    UnescapeInvertsEscape(s);
    UnescapeInvertsEscape(t);
    NoMarkupLeft(s);
  }
}
