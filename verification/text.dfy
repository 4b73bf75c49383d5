/** A minimal optional value, standing in for JavaScript's `undefined`/`null`. */
module Optional {
  datatype Option<+T> = None | Some(value: T)
}

/**
 * Character classes and string helpers as the JavaScript code uses them.
 *
 * Strings are sequences of `char`. A character stands for one UTF-16 code
 * unit of a basic-multilingual-plane string; `.length` is `|s|`.
 */
module Text {

  /** The regex class `[A-Z]`. */
  predicate IsUpper(c: char) { 'A' <= c <= 'Z' }

  /** The regex class `[a-z]`. */
  predicate IsLower(c: char) { 'a' <= c <= 'z' }

  /** The regex class `\d` (ASCII digits only, as in JavaScript without the `u` flag). */
  predicate IsDigit(c: char) { '0' <= c <= '9' }

  /** The regex class `[a-zA-Z]`. */
  predicate IsLetter(c: char) { IsUpper(c) || IsLower(c) }

  /** Line terminators: the characters the regex `.` does not match. */
  predicate IsLineTerminator(c: char) {
    c == '\n' || c == '\r' || c == '\U{2028}' || c == '\U{2029}'
  }

  /**
   * WhiteSpace and LineTerminator of the ECMAScript grammar: what
   * `String.prototype.trim` strips and what the regex class `\s` matches.
   */
  predicate IsSpace(c: char) {
    || c == '\t' || c == '\U{000B}' || c == '\U{000C}' || c == ' '
    || c == '\U{00A0}' || c == '\U{FEFF}' || c == '\U{1680}'
    || ('\U{2000}' <= c <= '\U{200A}')
    || c == '\U{202F}' || c == '\U{205F}' || c == '\U{3000}'
    || IsLineTerminator(c)
  }

  /** `toLowerCase` of one character, restricted to the ASCII letters. */
  function LowerChar(c: char): (r: char)
    ensures IsUpper(c) ==> IsLower(r) && r as int == c as int + 32
    ensures !IsUpper(c) ==> r == c
  {
    if IsUpper(c) then (c as int + 32) as char else c
  }

  /** `toLowerCase` of a string: length-preserving and character-wise. */
  function Lower(s: string): (r: string)
    ensures |r| == |s|
    ensures forall k :: 0 <= k < |s| ==> r[k] == LowerChar(s[k])
  {
    seq(|s|, k requires 0 <= k < |s| => LowerChar(s[k]))
  }

  /** Some character of `s` satisfies `p` (a regex class test). */
  predicate Exists(s: string, p: char -> bool) {
    exists k :: 0 <= k < |s| && p(s[k])
  }

  /** Every character of `s` satisfies `p`. */
  predicate All(s: string, p: char -> bool) {
    forall k :: 0 <= k < |s| ==> p(s[k])
  }

  /** `t` occurs in `s` starting at index `i`. */
  predicate OccursAt(s: string, t: string, i: int) {
    0 <= i && i + |t| <= |s| && s[i..i + |t|] == t
  }

  /** `s.includes(t)`; the empty string occurs in every string. */
  predicate Contains(s: string, t: string) {
    exists i | 0 <= i <= |s| - |t| :: OccursAt(s, t, i)
  }

  /** Position of the first character of `s` that is not whitespace, or `|s|`. */
  function FirstNonSpace(s: string, i: nat): (r: nat)
    requires i <= |s|
    ensures i <= r <= |s|
    ensures forall k :: i <= k < r ==> IsSpace(s[k])
    ensures r < |s| ==> !IsSpace(s[r])
    decreases |s| - i
  {
    if i == |s| || !IsSpace(s[i]) then i else FirstNonSpace(s, i + 1)
  }

  /** One past the position of the last character of `s[..j]` that is not whitespace, or 0. */
  function EndNonSpace(s: string, j: nat): (r: nat)
    requires j <= |s|
    ensures r <= j
    ensures forall k :: r <= k < j ==> IsSpace(s[k])
    ensures r > 0 ==> !IsSpace(s[r - 1])
  {
    if j == 0 || !IsSpace(s[j - 1]) then j else EndNonSpace(s, j - 1)
  }

  /** `s[i..j]` is `s` with only whitespace removed before `i` and after `j`. */
  ghost predicate TrimmedAt(s: string, i: int, j: int) {
    && 0 <= i <= j <= |s|
    && (forall k :: 0 <= k < i ==> IsSpace(s[k]))
    && (forall k :: j <= k < |s| ==> IsSpace(s[k]))
  }

  /** `s.trim()`: strips leading and trailing whitespace. */
  function Trim(s: string): (r: string)
    ensures exists i, j :: TrimmedAt(s, i, j) && r == s[i..j]
    ensures r == [] <==> All(s, IsSpace)
    ensures r != [] ==> !IsSpace(r[0]) && !IsSpace(r[|r| - 1])
  {
    var i := FirstNonSpace(s, 0);
    var j := EndNonSpace(s, |s|);
    if i == |s| then
      assert TrimmedAt(s, |s|, |s|) && s[|s|..|s|] == [];
      []
    else
      assert TrimmedAt(s, i, j);
      assert !IsSpace(s[i]);
      assert i < j;
      s[i..j]
  }

  /** Trimming twice is trimming once. */
  lemma TrimIdempotent(s: string)
    ensures Trim(Trim(s)) == Trim(s)
  {
    var t := Trim(s);
    if t != [] {
      assert FirstNonSpace(t, 0) == 0;
      assert EndNonSpace(t, |t|) == |t|;
    }
  }
}
