/**
 shell_quote_path (src-tauri/src/app.rs) against a reader for the quoting rules of sections 2.2.1
 (backslash) and 2.2.2 (single quotes) of the POSIX Shell Command Language.
 */
module ShellQuote {
  import opened Base
  import opened Text

  function ShellQuotePath(s: string): string {
    if s == "" then "''" else "'" + ReplaceChar(s, '\'', "'\\''") + "'"
  }

  // ---- The reader ---------------------------------------------------------------------------------------

  datatype Mode = Between | Unquoted(word: string) | Quoted(word: string)

  /** Characters that mean something else when unquoted; the reader refuses them rather than guess. */
  predicate IsSpecial(c: char) {
    c in "|&;<>()$`\"*?[#~=%\n"
  }

  /** The words of a command line read from the given mode, after the words already done. */
  function ReadFrom(s: string, mode: Mode, done: seq<string>): Option<seq<string>>
    decreases |s|, if mode.Between? then 1 else 0
  {
    match mode
    case Between =>
      if s == "" then Some(done)
      else if s[0] in " \t" then ReadFrom(s[1..], Between, done)
      else if |s| >= 2 && s[0] == '\\' && s[1] == '\n' then ReadFrom(s[2..], Between, done)
      else ReadFrom(s, Unquoted(""), done)
    case Unquoted(word) =>
      if s == "" then Some(done + [word])
      else if s[0] in " \t" then ReadFrom(s[1..], Between, done + [word])
      else if s[0] == '\'' then ReadFrom(s[1..], Quoted(word), done)
      else if s[0] == '\\' then
        if |s| == 1 then None
        else if s[1] == '\n' then ReadFrom(s[2..], Unquoted(word), done)
        else ReadFrom(s[2..], Unquoted(word + [s[1]]), done)
      else if IsSpecial(s[0]) then None
      else ReadFrom(s[1..], Unquoted(word + [s[0]]), done)
    case Quoted(word) =>
      if s == "" then None
      else if s[0] == '\'' then ReadFrom(s[1..], Unquoted(word), done)
      else ReadFrom(s[1..], Quoted(word + [s[0]]), done)
  }

  function ReadWords(s: string): Option<seq<string>> {
    ReadFrom(s, Between, [])
  }

  // ---- Round trip ---------------------------------------------------------------------------------------

  /** The four characters that stand for one quote inside quotes. */
  lemma ReadEscapedQuote(input: string, tail: string, word: string, done: seq<string>)
    requires input == "'\\''" + tail
    ensures ReadFrom(input, Quoted(word), done) == ReadFrom(tail, Quoted(word + ['\'']), done)
  {
    var afterClose := input[1..];
    assert input[0] == '\'' && afterClose[0] == '\\' && afterClose[1] == '\'';
    assert ReadFrom(input, Quoted(word), done) == ReadFrom(afterClose, Unquoted(word), done);
    var reopen := afterClose[2..];
    assert ReadFrom(afterClose, Unquoted(word), done) == ReadFrom(reopen, Unquoted(word + ['\'']), done);
    assert reopen[0] == '\'' && reopen[1..] == tail;
  }

  /** Inside quotes, the escaped text followed by the closing quote contributes exactly the text. */
  lemma {:induction false} ReadEscaped(s: string, rest: string, word: string, done: seq<string>)
    ensures ReadFrom(ReplaceChar(s, '\'', "'\\''") + "'" + rest, Quoted(word), done)
         == ReadFrom(rest, Unquoted(word + s), done)
  {
    var escaped := ReplaceChar(s, '\'', "'\\''");
    var input := escaped + "'" + rest;
    if s == "" {
      assert input == ['\''] + rest && input[1..] == rest;
      assert word + s == word;
    } else {
      var tail := ReplaceChar(s[1..], '\'', "'\\''") + "'" + rest;
      assert word + s == (word + [s[0]]) + s[1..];
      ReadEscaped(s[1..], rest, word + [s[0]], done);
      if s[0] == '\'' {
        assert input == "'\\''" + tail;
        ReadEscapedQuote(input, tail, word, done);
      } else {
        assert input == [s[0]] + tail && input[1..] == tail;
      }
    }
  }

  lemma ReadQuotedPath(p: string, rest: string, done: seq<string>)
    ensures ReadFrom(ShellQuotePath(p) + rest, Between, done) == ReadFrom(rest, Unquoted(p), done)
  {
    var input := ShellQuotePath(p) + rest;
    assert ReplaceChar("", '\'', "'\\''") == "";
    assert input == "'" + (ReplaceChar(p, '\'', "'\\''") + "'" + rest);
    assert input[1..] == ReplaceChar(p, '\'', "'\\''") + "'" + rest;
    ReadEscaped(p, rest, "", done);
    assert "" + p == p;
  }

  /** A command line of quoted paths separated by blanks. */
  function CommandLine(ps: seq<string>): string {
    if ps == [] then "" else ShellQuotePath(ps[0]) + (if |ps| == 1 then "" else " " + CommandLine(ps[1..]))
  }

  lemma {:induction false} ReadCommandLine(ps: seq<string>, done: seq<string>)
    ensures ReadFrom(CommandLine(ps), Between, done) == Some(done + ps)
  {
    if ps == [] {
      assert done + ps == done;
    } else if |ps| == 1 {
      ReadQuotedPath(ps[0], "", done);
      assert done + [ps[0]] == done + ps;
    } else {
      var rest := " " + CommandLine(ps[1..]);
      ReadQuotedPath(ps[0], rest, done);
      assert rest[1..] == CommandLine(ps[1..]);
      ReadCommandLine(ps[1..], done + [ps[0]]);
      assert done + [ps[0]] + ps[1..] == done + ps;
    }
  }

  /** Main result: quoting any strings and reading the line back gives exactly those words. */
  lemma QuotedPathsReadBack(ps: seq<string>, p: string)
    ensures ReadWords(CommandLine(ps)) == Some(ps)
    ensures ReadWords(ShellQuotePath(p)) == Some([p])
  {
    ReadCommandLine(ps, []);
    assert [] + ps == ps;
    ReadQuotedPath(p, "", []);
    assert ShellQuotePath(p) + "" == ShellQuotePath(p);
    assert [] + [p] == [p];
    assert ReadFrom("", Unquoted(p), []) == Some([p]);
  }
}
