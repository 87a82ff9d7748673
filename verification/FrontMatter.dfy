/** Two splitters of a workflow document into front matter and prompt, and re-rendering of the prompt
    (internal/config/parser.go:76-114 and cloud/src/config/parser.ts:83-97, 112-153). */
module FrontMatter {
  import opened Options
  import opened Text

  datatype Split = Split(frontMatter: string, prompt: string, hasFrontMatter: bool, terminated: bool)

  // ---------------------------------------------------------------------------------------------
  // What a split is
  // ---------------------------------------------------------------------------------------------

  /** The document begins with a fence line. */
  predicate Opens(content: string) {
    "---" <= content && (|content| > 3 ==> content[3] == '\n' || content[3] == '\r')
  }

  function StartOffset(content: string): nat {
    if "---\r\n" <= content then 5 else 4
  }

  predicate EndsLine(s: string) {
    s == "" || s[|s| - 1] == '\n'
  }

  /** A newline, if there is one, is the last character. */
  predicate IsLine(s: string) {
    forall k :: 0 <= k < |s| - 1 ==> s[k] != '\n'
  }

  predicate IsEol(c: char) {
    c == '\r' || c == '\n'
  }

  predicate IsFence(line: string) {
    TrimRight(IsEol, line) == "---"
  }

  /** A whole line of s lies between positions i and j. */
  predicate LineAt(s: string, i: int, j: int) {
    && 0 <= i < j <= |s| && (i == 0 || s[i - 1] == '\n') && (j == |s| || s[j - 1] == '\n')
    && forall k :: i <= k < j - 1 ==> s[k] != '\n'
  }

  ghost predicate NoFence(s: string) {
    forall i, j {:trigger LineAt(s, i, j)} :: LineAt(s, i, j) ==> !IsFence(s[i..j])
  }

  /** The first fence line of `rest` stands between front and prompt. */
  ghost predicate SplitsAt(rest: string, front: string, fence: string, prompt: string) {
    && rest == front + fence + prompt
    && EndsLine(front) && NoFence(front)
    && IsLine(fence) && IsFence(fence) && (EndsLine(fence) || prompt == "")
  }

  ghost predicate Splits(content: string, r: Split) {
    if !Opens(content) then r == Split("", content, false, false)
    else if |content| <= StartOffset(content) then r == Split("", "", true, true)
    else
      var rest := content[StartOffset(content)..];
      && r.hasFrontMatter
      && if r.terminated then exists fence :: SplitsAt(rest, r.frontMatter, fence, r.prompt)
         else r.frontMatter == rest && r.prompt == "" && NoFence(rest)
  }

  // ---------------------------------------------------------------------------------------------
  // A document has one split
  // ---------------------------------------------------------------------------------------------

  lemma {:induction false} FenceIsLong(line: string)
    requires IsFence(line)
    ensures |line| >= 3 && line[..3] == "---"
  {
    if line != [] && IsEol(line[|line| - 1]) {
      FenceIsLong(line[..|line| - 1]);
    }
  }

  /** A longer part of the document contains the fence line. */
  lemma FenceIsLineOf(rest: string, front: string, fence: string, prompt: string, longer: string)
    requires SplitsAt(rest, front, fence, prompt) && longer <= rest && |longer| > |front|
    requires EndsLine(longer) || longer == rest
    ensures !NoFence(longer)
  {
    FenceIsLong(fence);
    FenceFits(rest, front, fence, prompt, longer);
    var i, j := |front|, |front + fence|;
    assert longer[i..j] == fence;
    assert forall k :: i <= k < j ==> longer[k] == fence[k - i];
    assert LineAt(longer, i, j);
  }

  lemma FenceFits(rest: string, front: string, fence: string, prompt: string, longer: string)
    requires rest == front + fence + prompt && IsLine(fence)
    requires longer <= rest && |longer| > |front| && (EndsLine(longer) || longer == rest)
    ensures |longer| >= |front + fence|
  {
    var i := |front|;
    assert forall k :: i <= k < |front + fence| ==> rest[k] == fence[k - i];
  }

  lemma SplitIsUnique(content: string, r: Split, other: Split)
    requires Splits(content, r) && Splits(content, other)
    ensures r == other
  {
    if Opens(content) && |content| > StartOffset(content) {
      var rest := content[StartOffset(content)..];
      if r.terminated {
        var fence :| SplitsAt(rest, r.frontMatter, fence, r.prompt);
        if other.terminated {
          var fence' :| SplitsAt(rest, other.frontMatter, fence', other.prompt);
          SplitPointIsUnique(rest, r.frontMatter, fence, r.prompt, other.frontMatter, fence', other.prompt);
        } else {
          FenceIsLong(fence);
          FenceIsLineOf(rest, r.frontMatter, fence, r.prompt, rest);
        }
      } else if other.terminated {
        var fence :| SplitsAt(rest, other.frontMatter, fence, other.prompt);
        FenceIsLong(fence);
        FenceIsLineOf(rest, other.frontMatter, fence, other.prompt, rest);
      }
    }
  }

  lemma FirstFenceIsFirst(rest: string, front: string, fence: string, prompt: string, front': string, fence': string, prompt': string)
    requires SplitsAt(rest, front, fence, prompt) && SplitsAt(rest, front', fence', prompt')
    ensures |front'| <= |front|
  {
    if |front'| > |front| {
      FenceIsLineOf(rest, front, fence, prompt, front');
    }
  }

  lemma SplitPointIsUnique(rest: string, front: string, fence: string, prompt: string, front': string, fence': string, prompt': string)
    requires SplitsAt(rest, front, fence, prompt) && SplitsAt(rest, front', fence', prompt')
    ensures front == front' && fence == fence' && prompt == prompt'
  {
    FirstFenceIsFirst(rest, front, fence, prompt, front', fence', prompt');
    FirstFenceIsFirst(rest, front', fence', prompt', front, fence, prompt);
    assert front == rest[..|front|] == front';
    FenceIsLong(fence);
    FenceIsLong(fence');
    LineEndsOnce(rest[|front|..], fence, prompt, fence', prompt');
  }

  lemma LineEndsOnce(s: string, line: string, after: string, line': string, after': string)
    requires s == line + after && s == line' + after' && line != "" && line' != ""
    requires IsLine(line) && IsLine(line') && (EndsLine(line) || after == "") && (EndsLine(line') || after' == "")
    ensures line == line' && after == after'
  {
    assert line == s[..|line|] && line' == s[..|line'|];
    assert |line| == |line'|;
    assert after == s[|line|..] && after' == s[|line'|..];
  }

  // ---------------------------------------------------------------------------------------------
  // The splitters
  // ---------------------------------------------------------------------------------------------

  /** The position after the first newline, or the end. */
  function LineEnd(s: string): (e: nat)
    ensures e <= |s| && (s != "" ==> e > 0) && IsLine(s[..e]) && (EndsLine(s[..e]) || e == |s|)
  {
    if s == "" then 0
    else if s[0] == '\n' then 1
    else
      var e := LineEnd(s[1..]);
      assert s[..1 + e] == [s[0]] + s[1..][..e];
      1 + e
  }

  function Concat(lines: seq<string>): string {
    if lines == [] then "" else lines[0] + Concat(lines[1..])
  }

  lemma {:induction false} ConcatAppend(lines: seq<string>, more: seq<string>)
    ensures Concat(lines + more) == Concat(lines) + Concat(more)
  {
    if lines == [] {
      assert lines + more == more;
    } else {
      ConcatAppend(lines[1..], more);
      assert (lines + more)[1..] == lines[1..] + more;
    }
  }

  /** The pieces are the lines of s: only the last may lack its newline. */
  ghost predicate AreLines(lines: seq<string>, s: string) {
    && Concat(lines) == s
    && (forall i :: 0 <= i < |lines| ==> IsLine(lines[i]))
    && (forall i :: 0 <= i < |lines| - 1 ==> EndsLine(lines[i]))
  }

  /** Go's strings.SplitAfter with a newline: a text that ends in a newline gives a last empty piece. */
  function SplitAfter(s: string): (lines: seq<string>)
    ensures AreLines(lines, s)
  {
    if '\n' !in s then
      assert Concat([s]) == s;
      [s]
    else
      var e := LineEnd(s);
      assert s == s[..e] + s[e..];
      [s[..e]] + SplitAfter(s[e..])
  }

  /** All matches of "any characters up to a newline, or a non-empty rest". */
  function MatchLines(s: string): (lines: seq<string>)
    ensures AreLines(lines, s)
  {
    if s == "" then []
    else
      var e := LineEnd(s);
      assert s == s[..e] + s[e..];
      [s[..e]] + MatchLines(s[e..])
  }

  /** The first i lines of a text, with what follows them. */
  lemma Position(lines: seq<string>, s: string, i: nat)
    requires AreLines(lines, s) && i < |lines|
    ensures Concat(lines[..i + 1]) == Concat(lines[..i]) + lines[i] <= s
    ensures i + 1 == |lines| ==> Concat(lines[..i + 1]) == s
  {
    assert lines[..i + 1] == lines[..i] + [lines[i]];
    ConcatAppend(lines[..i], [lines[i]]);
    assert Concat([lines[i]]) == lines[i];
    ConcatAppend(lines[..i + 1], lines[i + 1..]);
    assert lines == lines[..i + 1] + lines[i + 1..];
  }

  lemma NoFenceExtends(front: string, line: string)
    requires NoFence(front) && EndsLine(front) && IsLine(line) && !IsFence(line)
    ensures NoFence(front + line)
  {
    var s, n := front + line, |front|;
    assert forall k :: 0 <= k < n ==> s[k] == front[k];
    forall i, j | LineAt(s, i, j) ensures !IsFence(s[i..j]) {
      if i < n {
        assert s[n - 1] == '\n' && j <= n;
        assert s[i..j] == front[i..j] && LineAt(front, i, j);
      } else {
        assert forall k :: n <= k < |s| ==> s[k] == line[k - n];
        assert s[i..j] == line;
      }
    }
  }

  /** The first i lines hold no fence. */
  ghost predicate Scanned(lines: seq<string>, rest: string, i: nat, front: string) {
    && AreLines(lines, rest) && i <= |lines| && front == Concat(lines[..i])
    && NoFence(front) && (i < |lines| ==> EndsLine(front))
  }

  ghost predicate IsRemainder(content: string, rest: string) {
    Opens(content) && |content| > StartOffset(content) && rest == content[StartOffset(content)..]
  }

  lemma ScanLine(content: string, lines: seq<string>, rest: string, i: nat, front: string)
    requires IsRemainder(content, rest) && Scanned(lines, rest, i, front) && i < |lines|
    ensures |front| + |lines[i]| <= |rest|
    ensures if IsFence(lines[i]) then Splits(content, Split(front, rest[|front| + |lines[i]|..], true, true))
      else Scanned(lines, rest, i + 1, front + lines[i])
  {
    Position(lines, rest, i);
    if IsFence(lines[i]) {
      assert SplitsAt(rest, front, lines[i], rest[|front| + |lines[i]|..]);
    } else {
      NoFenceExtends(front, lines[i]);
    }
  }

  lemma ScanDone(content: string, lines: seq<string>, rest: string, front: string)
    requires IsRemainder(content, rest) && Scanned(lines, rest, |lines|, front)
    ensures Splits(content, Split(front, "", true, false))
  {
    assert lines[..|lines|] == lines;
  }

  /** The splitter of internal/config/parser.go. */
  method SplitFrontMatter(content: string) returns (r: Split)
    ensures Splits(content, r)
  {
    if !("---" <= content) {
      return Split("", content, false, false);
    }
    if |content| > 3 {
      var next := content[3];
      if next != '\n' && next != '\r' {
        return Split("", content, false, false);
      }
    }
    var startOffset := 4;
    if "---\r\n" <= content {
      startOffset := 5;
    }
    if |content| <= startOffset {
      return Split("", "", true, true);
    }
    var remainder := content[startOffset..];
    var lines := SplitAfter(remainder);
    var yaml, offset := "", 0;
    for i := 0 to |lines|
      invariant Scanned(lines, remainder, i, yaml) && offset == |yaml|
    {
      var line := lines[i];
      ScanLine(content, lines, remainder, i, yaml);
      offset := offset + |line|;
      if TrimRight(IsEol, line) == "---" {
        return Split(yaml, remainder[offset..], true, true);
      }
      yaml := yaml + line;
    }
    ScanDone(content, lines, remainder, yaml);
    return Split(yaml, "", true, false);
  }

  /** The splitter of cloud/src/config/parser.ts. */
  method SplitFrontMatterCloud(content: string) returns (r: Split)
    ensures Splits(content, r)
  {
    if !("---" <= content) {
      return Split("", content, false, false);
    }
    if |content| > 3 {
      var next := content[3];
      if next != '\n' && next != '\r' {
        return Split("", content, false, false);
      }
    }
    var startOffset := if "---\r\n" <= content then 5 else 4;
    if |content| <= startOffset {
      return Split("", "", true, true);
    }
    var remainder := content[startOffset..];
    var lines := MatchLines(remainder);
    var offset, frontMatter := 0, "";
    for i := 0 to |lines|
      invariant Scanned(lines, remainder, i, frontMatter) && offset == |frontMatter|
    {
      var line := lines[i];
      ScanLine(content, lines, remainder, i, frontMatter);
      offset := offset + |line|;
      if TrimRight(IsEol, line) == "---" {
        return Split(frontMatter, remainder[offset..], true, true);
      }
      frontMatter := frontMatter + line;
    }
    ScanDone(content, lines, remainder, frontMatter);
    return Split(frontMatter, "", true, false);
  }

  /** Both splitters give the same result on every document. */
  method SplitBothWays(content: string) returns (local: Split, cloud: Split)
    ensures local == cloud && Splits(content, local)
  {
    local := SplitFrontMatter(content);
    cloud := SplitFrontMatterCloud(content);
    SplitIsUnique(content, local, cloud);
  }

  // ---------------------------------------------------------------------------------------------
  // Re-rendering the prompt
  // ---------------------------------------------------------------------------------------------

  function Head(content: string, r: Split): string
    requires |r.prompt| <= |content|
  {
    content[..|content| - |r.prompt|]
  }

  predicate IsOpening(s: string) {
    s == "---" || s == "---\n" || s == "---\r" || s == "---\r\n"
  }

  lemma OpeningOf(content: string) returns (opening: string)
    requires Opens(content)
    ensures IsOpening(opening) && opening <= content
    ensures opening == if |content| <= StartOffset(content) then content else content[..StartOffset(content)]
    ensures content == opening + content[|opening|..]
  {
    var n := if |content| <= StartOffset(content) then |content| else StartOffset(content);
    opening := content[..n];
    assert content[..3] == "---";
    if |opening| == 4 {
      assert opening == content[..3] + [content[3]];
    } else if |opening| == 5 {
      assert opening == "---\r\n";
    }
  }

  /** A document has front matter exactly if it starts with three dashes and an end of line, or is just the
      dashes. */
  lemma OpensIff(content: string, r: Split)
    requires Splits(content, r)
    ensures r.hasFrontMatter <==> content == "---" || "---\n" <= content || "---\r" <= content
  {
    if "---" <= content && |content| > 3 {
      assert content[..4] == "---" + [content[3]];
    }
  }

  /** A fence line is three dashes and any ends of line. */
  lemma {:induction false} FenceIff(line: string)
    ensures IsFence(line) <==> "---" <= line && forall i :: 3 <= i < |line| ==> line[i] == '\r' || line[i] == '\n'
  {
    if line != [] && (line[|line| - 1] == '\r' || line[|line| - 1] == '\n') {
      FenceIff(line[..|line| - 1]);
      assert "---" <= line ==> line[2] == '-';
    }
  }

  /** Opening, front matter, closing fence and prompt make up the document. */
  lemma DocumentReassembles(content: string, r: Split) returns (opening: string, fence: string)
    requires Splits(content, r)
    ensures if r.hasFrontMatter then IsOpening(opening) else opening == ""
    ensures r.hasFrontMatter ==> |opening| == if "---\r\n" <= content then 5 else if |content| > 3 then 4 else 3
    ensures content == opening + r.frontMatter + fence + r.prompt
    ensures if HasFence(content, r) then IsFenced(content, r, opening, fence) else fence == ""
  {
    opening, fence := "", "";
    if r.hasFrontMatter {
      opening := OpeningOf(content);
      if |content| > StartOffset(content) {
        if r.terminated {
          fence := FenceOf(content, r, opening);
        } else {
          assert content[|opening|..] == r.frontMatter + "" + r.prompt;
        }
      }
    }
  }

  ghost predicate IsFenced(content: string, r: Split, opening: string, fence: string) {
    |opening| == StartOffset(content) <= |content| && SplitsAt(content[|opening|..], r.frontMatter, fence, r.prompt)
  }

  lemma FenceOf(content: string, r: Split, opening: string) returns (fence: string)
    requires Splits(content, r) && HasFence(content, r) && opening == content[..StartOffset(content)]
    ensures IsFenced(content, r, opening, fence) && content == opening + r.frontMatter + fence + r.prompt
  {
    fence :| SplitsAt(content[|opening|..], r.frontMatter, fence, r.prompt);
    assert content == opening + (r.frontMatter + fence + r.prompt);
  }

  /** The front matter is closed by a fence line of its own. */
  predicate HasFence(content: string, r: Split) {
    r.hasFrontMatter && r.terminated && |content| > StartOffset(content)
  }

  /** That fence line ends in a newline. */
  predicate ClosesWithNewline(content: string, r: Split) {
    HasFence(content, r) && |r.prompt| < |content| && content[|content| - |r.prompt| - 1] == '\n'
  }

  lemma ClosingOf(content: string, r: Split, opening: string, fence: string)
    requires HasFence(content, r) && IsFenced(content, r, opening, fence)
    requires content == opening + r.frontMatter + fence + r.prompt
    ensures fence != "" && (ClosesWithNewline(content, r) <==> EndsLine(fence))
    ensures r.prompt != "" ==> ClosesWithNewline(content, r)
    ensures Head(content, r) == opening + r.frontMatter + fence
  {
    FenceIsLong(fence);
    assert content == (opening + r.frontMatter + fence) + r.prompt;
    assert content[|content| - |r.prompt| - 1] == fence[|fence| - 1];
  }

  /** With another prompt in place of the present one, a terminated document splits into the same front
      matter and that prompt exactly when the prompt is empty or the closing fence line ends in a newline. */
  lemma ReplacedPromptIff(content: string, r: Split, prompt: string)
    requires Splits(content, r) && r.hasFrontMatter && r.terminated && |r.prompt| <= |content|
    ensures Splits(Head(content, r) + prompt, r.(prompt := prompt)) <==> prompt == "" || ClosesWithNewline(content, r)
  {
    var opening, fence := DocumentReassembles(content, r);
    if !HasFence(content, r) {
      assert Head(content, r) == content;
      MinimalDocument(content, prompt);
    } else {
      ClosingOf(content, r, opening, fence);
      FencedDocument(content, r, opening, fence, prompt);
    }
  }

  lemma FencedDocument(content: string, r: Split, opening: string, fence: string, prompt: string)
    requires Opens(content) && HasFence(content, r) && IsFenced(content, r, opening, fence) && fence != ""
    requires content == opening + r.frontMatter + fence + r.prompt
    ensures Splits(opening + r.frontMatter + fence + prompt, r.(prompt := prompt)) <==> prompt == "" || EndsLine(fence)
  {
    var replaced := opening + r.frontMatter + fence + prompt;
    var rest := r.frontMatter + fence + prompt;
    SameOpening(content, replaced, opening);
    assert replaced == opening + rest;
    assert replaced[|opening|..] == rest;
    if EndsLine(fence) || prompt == "" {
      assert SplitsAt(rest, r.frontMatter, fence, prompt);
    }
    if Splits(replaced, r.(prompt := prompt)) {
      var fence' :| SplitsAt(rest, r.frontMatter, fence', prompt);
      SameMiddle(r.frontMatter, fence, fence', prompt);
    }
  }

  lemma SameMiddle(before: string, middle: string, middle': string, after: string)
    requires before + middle + after == before + middle' + after
    ensures middle == middle'
  {
    var s := before + middle + after;
    assert middle == s[|before|..|s| - |after|] == middle';
  }

  /** What follows the opening does not decide where it ends. */
  lemma SameOpening(content: string, other: string, opening: string)
    requires Opens(content) && |content| > StartOffset(content) && |other| > StartOffset(content)
    requires opening == content[..StartOffset(content)] <= other
    requires content[4] == other[4]
    ensures Opens(other) && StartOffset(other) == StartOffset(content)
  {
    assert content[..3] == "---" && forall k :: 0 <= k < 4 ==> content[k] == opening[k] == other[k];
  }

  lemma MinimalDocument(content: string, prompt: string)
    requires Opens(content) && |content| <= StartOffset(content)
    ensures Splits(content + prompt, Split("", prompt, true, true)) <==> prompt == ""
  {
    if prompt == "" {
      assert content + prompt == content;
    } else if Splits(content + prompt, Split("", prompt, true, true)) {
      var rest := (content + prompt)[StartOffset(content + prompt)..];
      var fence :| SplitsAt(rest, "", fence, prompt);
      FenceIsLong(fence);
      assert false;
    }
  }

  /** The prompt after rendering the trimmed template by f. */
  function NewPrompt(prompt: string, f: string -> string): string {
    var template := Trim(IsJsSpace, prompt);
    var rendered := f(template);
    if rendered == template then prompt
    else rendered + if prompt != "" && EndsLine(prompt) then "\n" else ""
  }

  lemma HeadBeforePrompt(content: string, r: Split)
    requires Splits(content, r)
    ensures |r.prompt| <= |content| && content == Head(content, r) + r.prompt
    ensures !r.hasFrontMatter ==> Head(content, r) == ""
  {
    var opening, fence := DocumentReassembles(content, r);
    assert content == (opening + r.frontMatter + fence) + r.prompt;
  }

  /** Renders the prompt of a document. Unterminated front matter is an error. */
  method RenderWorkflowConfig(content: string, f: string -> string) returns (rendered: Option<string>, r: Split)
    ensures Splits(content, r) && |r.prompt| <= |content|
    ensures rendered == if r.hasFrontMatter && !r.terminated then None else Some(Head(content, r) + NewPrompt(r.prompt, f))
  {
    r := SplitFrontMatterCloud(content);
    HeadBeforePrompt(content, r);
    if r.hasFrontMatter && !r.terminated {
      return None, r;
    }
    var template := Trim(IsJsSpace, r.prompt);
    var prompt := f(template);
    if prompt == template {
      return Some(content), r;
    }
    var suffix := if r.prompt != "" && r.prompt[|r.prompt| - 1] == '\n' then "\n" else "";
    if !r.hasFrontMatter {
      assert "" + (prompt + suffix) == prompt + suffix;
      return Some(prompt + suffix), r;
    }
    return Some(content[..|content| - |r.prompt|] + (prompt + suffix)), r;
  }

  /** Re-rendering a terminated document by any function keeps the front matter and replaces the prompt if
      and only if the function maps the empty template to itself or the document's closing fence line
      ends in a newline. */
  lemma RenderingKeepsFrontMatterIff(content: string, r: Split, f: string -> string)
    requires Splits(content, r) && r.hasFrontMatter && r.terminated && |r.prompt| <= |content|
    ensures Splits(Head(content, r) + NewPrompt(r.prompt, f), r.(prompt := NewPrompt(r.prompt, f)))
       <==> f("") == "" || ClosesWithNewline(content, r)
  {
    ReplacedPromptIff(content, r, NewPrompt(r.prompt, f));
    if r.prompt == "" {
      assert Trim(IsJsSpace, "") == "";
      assert NewPrompt("", f) == f("");
    } else {
      var opening, fence := DocumentReassembles(content, r);
      ClosingOf(content, r, opening, fence);
    }
  }

  /** In particular every function that maps the empty template to itself, as Liquid does, keeps the front
      matter of every terminated document. */
  lemma RenderingKeepsFrontMatter(content: string, r: Split, f: string -> string)
    requires Splits(content, r) && r.hasFrontMatter && r.terminated && |r.prompt| <= |content|
    requires f("") == ""
    ensures Splits(Head(content, r) + NewPrompt(r.prompt, f), r.(prompt := NewPrompt(r.prompt, f)))
  {
    RenderingKeepsFrontMatterIff(content, r, f);
  }

  /** The template is the part of the prompt between its leading and its trailing white space. A rendering
      that leaves it as it is leaves the prompt as it is; any other takes the place of the whole prompt,
      with a final newline exactly if the prompt had one. */
  lemma PromptIsRendered(prompt: string, f: string -> string) returns (i: nat, j: nat)
    ensures i <= j <= |prompt| && IsBlank(IsJsSpace, prompt[..i]) && IsBlank(IsJsSpace, prompt[j..])
    ensures i < j ==> !IsJsSpace(prompt[i]) && !IsJsSpace(prompt[j - 1])
    ensures f(prompt[i..j]) == prompt[i..j] ==> NewPrompt(prompt, f) == prompt
    ensures f(prompt[i..j]) != prompt[i..j] ==>
              NewPrompt(prompt, f) == f(prompt[i..j]) + if prompt != "" && prompt[|prompt| - 1] == '\n' then "\n" else ""
  {
    i, j := TrimmedPart(IsJsSpace, prompt);
  }
}
