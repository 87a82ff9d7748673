/** Shell quoting of a worker's command line (internal/tmux/bootstrap.go:68-77, 159-173, 194-200), against
    the quoting rules of the POSIX shell (sections 2.2.2 and 2.2.3 of the POSIX.1-2017 Shell Command
    Language). */
module ShellQuote {
  import opened Options
  import opened Text

  // ---------------------------------------------------------------------------------------------
  // How a shell reads a line
  // ---------------------------------------------------------------------------------------------

  datatype Mode = Between | Bare(word: string) | Single(word: string) | Double(word: string)

  predicate IsBlankChar(c: char) {
    c == ' ' || c == '\t'
  }

  /** Characters that mean more than themselves when they are not quoted. */
  predicate IsSpecial(c: char) {
    c in "|&;<>()$`*?[#~%!{}\n"
  }

  function Started(mode: Mode): string {
    if mode.Between? then "" else mode.word
  }

  function Ended(mode: Mode, words: seq<string>): seq<string> {
    if mode.Between? then words else words + [mode.word]
  }

  /** The words of a line read from a mode on, with quotes removed. There is none if a quote stays open,
      or if the shell would expand something or see more than one simple command. */
  function Lex(line: string, mode: Mode, words: seq<string>): Option<seq<string>>
    decreases |line|
  {
    if line == "" then
      if mode.Single? || mode.Double? then None else Some(Ended(mode, words))
    else
      var c, rest := line[0], line[1..];
      match mode
      case Single(w) => if c == '\'' then Lex(rest, Bare(w), words) else Lex(rest, Single(w + [c]), words)
      case Double(w) =>
        if c == '"' then Lex(rest, Bare(w), words)
        else if c == '$' || c == '`' then None
        else if c != '\\' then Lex(rest, Double(w + [c]), words)
        else if rest == "" then None
        else if rest[0] == '\n' then Lex(rest[1..], mode, words)
        else if rest[0] in "$`\"\\" then Lex(rest[1..], Double(w + [rest[0]]), words)
        else Lex(rest, Double(w + [c]), words)
      case _ =>
        if IsBlankChar(c) then Lex(rest, Between, Ended(mode, words))
        else if c == '\'' then Lex(rest, Single(Started(mode)), words)
        else if c == '"' then Lex(rest, Double(Started(mode)), words)
        else if IsSpecial(c) then None
        else if c != '\\' then Lex(rest, Bare(Started(mode) + [c]), words)
        else if rest == "" then None
        else if rest[0] == '\n' then Lex(rest[1..], mode, words)
        else Lex(rest[1..], Bare(Started(mode) + [rest[0]]), words)
  }

  function Words(line: string): Option<seq<string>> {
    Lex(line, Between, [])
  }

  // ---------------------------------------------------------------------------------------------
  // Quoting
  // ---------------------------------------------------------------------------------------------

  /** Every single quote replaced by: close, a double-quoted single quote, open again. */
  function Escaped(value: string): string {
    if value == "" then "" else (if value[0] == '\'' then "'\"'\"'" else [value[0]]) + Escaped(value[1..])
  }

  function Quote(value: string): string {
    if value == "" then "''" else "'" + Escaped(value) + "'"
  }

  /** Inside single quotes, an escaped value and the closing quote add the value to the word. */
  lemma {:induction false} EscapedLexes(value: string, w: string, rest: string, words: seq<string>)
    ensures Lex(Escaped(value) + ("'" + rest), Single(w), words) == Lex(rest, Bare(w + value), words)
  {
    if value == "" {
      assert Escaped(value) + ("'" + rest) == "'" + rest;
      assert w + value == w;
    } else {
      var tail := Escaped(value[1..]) + ("'" + rest);
      EscapedLexes(value[1..], w + [value[0]], rest, words);
      assert w + [value[0]] + value[1..] == w + value;
      if value[0] == '\'' {
        assert Escaped(value) + ("'" + rest) == "'\"'\"'" + tail;
        QuoteLexes(w, tail, words);
      } else {
        assert Escaped(value) + ("'" + rest) == [value[0]] + tail;
        OrdinaryLexes(value[0], w, tail, words);
      }
    }
  }

  lemma OrdinaryLexes(c: char, w: string, tail: string, words: seq<string>)
    requires c != '\''
    ensures Lex([c] + tail, Single(w), words) == Lex(tail, Single(w + [c]), words)
  {
    assert ([c] + tail)[1..] == tail;
  }

  lemma QuoteLexes(w: string, tail: string, words: seq<string>)
    ensures Lex("'\"'\"'" + tail, Single(w), words) == Lex(tail, Single(w + "'"), words)
  {
    assert ("'\"'\"'" + tail)[1..] == "\"'\"'" + tail;
    assert ("\"'\"'" + tail)[1..] == "'\"'" + tail;
    assert Lex("'\"'\"'" + tail, Single(w), words) == Lex("'\"'" + tail, Double(w), words);
    assert ("'\"'" + tail)[1..] == "\"'" + tail;
    assert ("\"'" + tail)[1..] == "'" + tail;
    assert Lex("'\"'" + tail, Double(w), words) == Lex("'" + tail, Bare(w + "'"), words);
    assert ("'" + tail)[1..] == tail;
  }

  /** A quoted value adds exactly the value to the word it is read in. */
  lemma QuotedLexes(value: string, mode: Mode, rest: string, words: seq<string>)
    requires mode.Between? || mode.Bare?
    ensures Lex(Quote(value) + rest, mode, words) == Lex(rest, Bare(Started(mode) + value), words)
  {
    var tail := Escaped(value) + ("'" + rest);
    assert Quote(value) + rest == "'" + tail;
    EscapedLexes(value, Started(mode), rest, words);
  }

  // ---------------------------------------------------------------------------------------------
  // The lines a worker is started with
  // ---------------------------------------------------------------------------------------------

  function Join(parts: seq<string>): string {
    if parts == [] then "" else if |parts| == 1 then parts[0] else parts[0] + (" " + Join(parts[1..]))
  }

  function QuoteAll(values: seq<string>): seq<string> {
    seq(|values|, i requires 0 <= i < |values| => Quote(values[i]))
  }

  lemma LastWordLexes(value: string, words: seq<string>)
    ensures Lex(Quote(value), Between, words) == Some(words + [value])
  {
    QuotedLexes(value, Between, "", words);
    assert "" + value == value && Quote(value) + "" == Quote(value);
  }

  lemma WordLexes(value: string, rest: string, words: seq<string>)
    ensures Lex(Quote(value) + (" " + rest), Between, words) == Lex(rest, Between, words + [value])
  {
    QuotedLexes(value, Between, " " + rest, words);
    assert "" + value == value && (" " + rest)[1..] == rest;
  }

  lemma {:induction false} JoinLexes(values: seq<string>, words: seq<string>)
    requires values != []
    ensures Lex(Join(QuoteAll(values)), Between, words) == Some(words + values)
  {
    var parts := QuoteAll(values);
    if |values| == 1 {
      LastWordLexes(values[0], words);
      assert values == [values[0]];
    } else {
      assert parts[1..] == QuoteAll(values[1..]);
      WordLexes(values[0], Join(parts[1..]), words);
      JoinLexes(values[1..], words + [values[0]]);
      assert words + [values[0]] + values[1..] == words + values;
    }
  }

  /** The line that launches a worker, unless its command is blank. The shell reads it as the trimmed
      command followed by the arguments, whatever these contain. */
  method LaunchLine(command: string, args: seq<string>) returns (line: Option<string>)
    ensures line.None? <==> Trim(IsGoSpace, command) == ""
    ensures line.Some? ==> Words(line.value) == Some([Trim(IsGoSpace, command)] + args)
  {
    var trimmed := Trim(IsGoSpace, command);
    if trimmed == "" {
      return None;
    }
    var parts := [Quote(trimmed)];
    for i := 0 to |args|
      invariant parts == QuoteAll([trimmed] + args[..i])
    {
      parts := parts + [Quote(args[i])];
      assert [trimmed] + args[..i + 1] == [trimmed] + args[..i] + [args[i]];
    }
    assert [trimmed] + args[..|args|] == [trimmed] + args;
    JoinLexes([trimmed] + args, []);
    assert [] + ([trimmed] + args) == [trimmed] + args;
    line := Some(Join(parts));
  }

  predicate IsPlain(s: string) {
    forall i :: 0 <= i < |s| ==> !IsBlankChar(s[i]) && !IsSpecial(s[i]) && s[i] !in "'\"\\"
  }

  /** Text without special characters stands for itself. */
  lemma {:induction false} PlainLexes(s: string, mode: Mode, rest: string, words: seq<string>)
    requires IsPlain(s) && s != "" && (mode.Between? || mode.Bare?)
    ensures Lex(s + rest, mode, words) == Lex(rest, Bare(Started(mode) + s), words)
  {
    assert (s + rest)[1..] == s[1..] + rest;
    if |s| == 1 {
      assert s[1..] + rest == rest && s == [s[0]];
    } else {
      PlainLexes(s[1..], Bare(Started(mode) + [s[0]]), rest, words);
      assert Started(mode) + [s[0]] + s[1..] == Started(mode) + s;
    }
  }

  function ChangeDirectoryLine(dir: string): string {
    "cd " + Quote(dir)
  }

  /** The shell changes to exactly the worker's directory. */
  lemma ChangeDirectoryReads(dir: string)
    ensures Words(ChangeDirectoryLine(dir)) == Some(["cd", dir])
  {
    KeywordLexes("cd", Quote(dir) + "");
    QuotedLexes(dir, Between, "", ["cd"]);
    assert "cd " + Quote(dir) == "cd" + (" " + (Quote(dir) + ""));
    assert "" + dir == dir && ["cd"] + [dir] == ["cd", dir];
  }

  lemma KeywordLexes(keyword: string, rest: string)
    requires IsPlain(keyword) && keyword != ""
    ensures Words(keyword + (" " + rest)) == Lex(rest, Between, [keyword])
  {
    PlainLexes(keyword, Between, " " + rest, []);
    assert (" " + rest)[1..] == rest && "" + keyword == keyword && [] + [keyword] == [keyword];
  }

  predicate IsNameStart(c: char) {
    'A' <= c <= 'Z' || 'a' <= c <= 'z' || c == '_'
  }

  /** The names that the environment may hold. */
  predicate IsEnvKey(key: string) {
    && key != "" && IsNameStart(key[0])
    && forall i :: 0 <= i < |key| ==> IsNameStart(key[i]) || '0' <= key[i] <= '9'
  }

  function ExportLine(key: string, value: string): string {
    "export" + " " + key + "=" + Quote(value)
  }

  lemma KeyIsPlain(key: string)
    requires IsEnvKey(key)
    ensures IsPlain(key + "=")
  {
  }

  lemma AssignmentLexes(prefix: string, value: string, words: seq<string>)
    requires IsPlain(prefix) && prefix != ""
    ensures Lex(prefix + Quote(value), Between, words) == Some(words + [prefix + value])
  {
    assert prefix + Quote(value) == prefix + (Quote(value) + "");
    PlainLexes(prefix, Between, Quote(value) + "", words);
    assert "" + prefix == prefix;
    QuotedLexes(value, Bare(prefix), "", words);
  }

  lemma PlainCommandReads(keyword: string, prefix: string, value: string)
    requires IsPlain(keyword) && keyword != "" && IsPlain(prefix) && prefix != ""
    ensures Words(keyword + (" " + (prefix + Quote(value)))) == Some([keyword, prefix + value])
  {
    KeywordLexes(keyword, prefix + Quote(value));
    AssignmentLexes(prefix, value, [keyword]);
    assert [keyword] + [prefix + value] == [keyword, prefix + value];
  }

  /** The shell exports exactly the given value under the given name. */
  lemma ExportReads(key: string, value: string)
    requires IsEnvKey(key)
    ensures Words(ExportLine(key, value)) == Some(["export", key + "=" + value])
  {
    KeyIsPlain(key);
    var keyword := "export";
    PlainCommandReads(keyword, key + "=", value);
    assert keyword + " " + key + "=" + Quote(value) == keyword + (" " + (key + "=" + Quote(value)));
  }
}
