/** White space and trimming. */
module Text {
  /** White space for Go's strings.TrimSpace. */
  predicate IsGoSpace(c: char) {
    c in " \t\n\r" || c == '\U{0B}' || c == '\U{0C}' || c == '\U{85}' || c == '\U{A0}' || c == '\U{1680}'
    || '\U{2000}' <= c <= '\U{200A}' || c in "\U{2028}\U{2029}\U{202F}\U{205F}\U{3000}"
  }

  /** White space for JavaScript's String.prototype.trim. */
  predicate IsJsSpace(c: char) {
    c == '\U{FEFF}' || (IsGoSpace(c) && c != '\U{85}')
  }

  predicate IsBlank(space: char -> bool, s: string) {
    forall i :: 0 <= i < |s| ==> space(s[i])
  }

  function TrimLeft(space: char -> bool, s: string): string {
    if s == [] || !space(s[0]) then s else TrimLeft(space, s[1..])
  }

  function TrimRight(space: char -> bool, s: string): string {
    if s == [] || !space(s[|s| - 1]) then s else TrimRight(space, s[..|s| - 1])
  }

  function Trim(space: char -> bool, s: string): string {
    TrimRight(space, TrimLeft(space, s))
  }

  /** Trimming gives a part of the text with no white space at its ends. */
  lemma TrimmedPart(space: char -> bool, s: string) returns (i: nat, j: nat)
    ensures i <= j <= |s| && Trim(space, s) == s[i..j]
    ensures i < j ==> !space(s[i]) && !space(s[j - 1])
    ensures IsBlank(space, s[..i]) && IsBlank(space, s[j..])
  {
    i := LeftPart(space, s);
    var n := RightPart(space, s[i..]);
    j := i + n;
    assert s[i..][n..] == s[j..];
    assert s[i..][..n] == s[i..j];
  }

  lemma {:induction false} LeftPart(space: char -> bool, s: string) returns (i: nat)
    ensures i <= |s| && TrimLeft(space, s) == s[i..] && (i < |s| ==> !space(s[i])) && IsBlank(space, s[..i])
  {
    if s == [] || !space(s[0]) {
      i := 0;
    } else {
      var k := LeftPart(space, s[1..]);
      assert s[1..][k..] == s[k + 1..];
      i := k + 1;
    }
  }

  lemma {:induction false} RightPart(space: char -> bool, s: string) returns (j: nat)
    ensures j <= |s| && TrimRight(space, s) == s[..j] && (j > 0 ==> !space(s[j - 1])) && IsBlank(space, s[j..])
  {
    if s == [] || !space(s[|s| - 1]) {
      j := |s|;
    } else {
      j := RightPart(space, s[..|s| - 1]);
      assert s[..|s| - 1][..j] == s[..j];
    }
  }

  lemma TrimmedStays(space: char -> bool, s: string)
    requires s != "" ==> !space(s[0]) && !space(s[|s| - 1])
    ensures Trim(space, s) == s
  {
  }
}
