/** JavaScript's `String.prototype.trim`, on strings as sequences of characters. */
module Strings {

  /** ECMAScript WhiteSpace and LineTerminator code points: what `trim` removes. */
  predicate IsWhiteSpace(c: char) {
    || c == ' ' || c == '\t' || c == '\n' || c == '\r'
    || c == '\U{000B}' || c == '\U{000C}'
    || c == '\U{00A0}' || c == '\U{1680}'
    || ('\U{2000}' <= c <= '\U{200A}')
    || c == '\U{2028}' || c == '\U{2029}' || c == '\U{202F}'
    || c == '\U{205F}' || c == '\U{3000}' || c == '\U{FEFF}'
  }

  predicate IsBlank(s: string) {
    forall i :: 0 <= i < |s| ==> IsWhiteSpace(s[i])
  }

  /** How many characters of leading white space `s` has: everything before
      that position is white space, the character at it is not. */
  function LeadingSpace(s: string): (n: nat)
    ensures n <= |s|
    ensures forall k :: 0 <= k < n ==> IsWhiteSpace(s[k])
    ensures n == |s| || !IsWhiteSpace(s[n])
  {
    if |s| > 0 && IsWhiteSpace(s[0]) then
      var n := 1 + LeadingSpace(s[1..]);
      assert forall k :: 1 <= k < n ==> s[k] == s[1..][k - 1];
      n
    else 0
  }

  /** Where the content of `s` ends: everything from that position on is
      white space, the character just before it is not. */
  function ContentEnd(s: string): (n: nat)
    ensures n <= |s|
    ensures forall k :: n <= k < |s| ==> IsWhiteSpace(s[k])
    ensures n == 0 || !IsWhiteSpace(s[n - 1])
  {
    if |s| > 0 && IsWhiteSpace(s[|s| - 1]) then
      var n := ContentEnd(s[..|s| - 1]);
      assert forall k :: n <= k < |s| - 1 ==> s[k] == s[..|s| - 1][k];
      n
    else |s|
  }

  /** `trim`: white space is removed at both ends and the middle is kept
      verbatim. The result is the slice of `s` starting after its leading
      white space; every character outside that slice is white space; and
      the result neither starts nor ends with white space. */
  function Trim(s: string): (r: string)
    ensures LeadingSpace(s) + |r| <= |s| && r == s[LeadingSpace(s)..LeadingSpace(s) + |r|]
    ensures forall k :: 0 <= k < |s| && !(LeadingSpace(s) <= k < LeadingSpace(s) + |r|) ==> IsWhiteSpace(s[k])
    ensures r == [] || (!IsWhiteSpace(r[0]) && !IsWhiteSpace(r[|r| - 1]))
  {
    var i := LeadingSpace(s);
    var j := ContentEnd(s[i..]);
    KeptSlice(s, i, j);
    s[i..i + j]
  }

  /** The slice `s[i..i+j]` kept by `trim`, given that `i` ends the leading
      white space and `j` ends the content of what follows. */
  lemma KeptSlice(s: string, i: nat, j: nat)
    requires i <= |s| && j <= |s| - i
    requires forall k :: 0 <= k < i ==> IsWhiteSpace(s[k])
    requires i == |s| || !IsWhiteSpace(s[i])
    requires forall k :: j <= k < |s[i..]| ==> IsWhiteSpace(s[i..][k])
    requires j == 0 || !IsWhiteSpace(s[i..][j - 1])
    ensures forall k :: 0 <= k < |s| && !(i <= k < i + j) ==> IsWhiteSpace(s[k])
    ensures j == 0 || (!IsWhiteSpace(s[i..i + j][0]) && !IsWhiteSpace(s[i..i + j][j - 1]))
  {
    assert forall k :: i + j <= k < |s| ==> s[k] == s[i..][k - i];
  }

  /** Trimming leaves nothing exactly when the string is all white space
      (JavaScript's `!s.trim()`). */
  lemma TrimEmptyIffBlank(s: string)
    ensures Trim(s) == [] <==> IsBlank(s)
  {
    var r := Trim(s);
    if r != [] {
      assert s[LeadingSpace(s)] == r[0] && !IsWhiteSpace(r[0]);
    }
  }

  /** Neither end is white space. */
  predicate IsTrimmed(s: string) {
    s == [] || (!IsWhiteSpace(s[0]) && !IsWhiteSpace(s[|s| - 1]))
  }

  /** `trim` leaves a string unchanged exactly when neither end is white space. */
  lemma TrimFixesTrimmed(s: string)
    ensures Trim(s) == s <==> IsTrimmed(s)
    ensures IsTrimmed(s) ==> LeadingSpace(s) == 0
  {
    if IsTrimmed(s) && s != [] {
      assert LeadingSpace(s) == 0;
      assert ContentEnd(s) == |s|;
    }
  }

  /** Trimming twice is trimming once. */
  lemma TrimIdempotent(s: string)
    ensures Trim(Trim(s)) == Trim(s)
  {
    TrimFixesTrimmed(Trim(s));
  }
}
