/** The part of ECMAScript string handling the text tool relies on:
    `text && text.trim() !== ""` decides whether a prompt answer is stamped. */
module JsText {
  import opened Options

  /** The characters String.prototype.trim strips: the WhiteSpace code points
      (tab, vertical tab, form feed, the byte-order mark and every space
      separator) and the LineTerminator code points. */
  predicate IsJsSpace(c: char) {
    c == '\t' || c == '\n' || c == '\U{B}' || c == '\U{C}' || c == '\r' ||
    c == ' ' || c == '\U{A0}' || c == '\U{1680}' ||
    ('\U{2000}' <= c <= '\U{200A}') ||
    c == '\U{2028}' || c == '\U{2029}' || c == '\U{202F}' || c == '\U{205F}' ||
    c == '\U{3000}' || c == '\U{FEFF}'
  }

  /** Drops the leading white space, and only that. */
  function TrimStart(s: string): (r: string)
    ensures |r| <= |s| && r == s[|s| - |r|..]
    ensures forall k :: 0 <= k < |s| - |r| ==> IsJsSpace(s[k])
    ensures r == [] || !IsJsSpace(r[0])
  {
    if s != [] && IsJsSpace(s[0]) then TrimStart(s[1..]) else s
  }

  /** Drops the trailing white space, and only that. */
  function TrimEnd(s: string): (r: string)
    ensures |r| <= |s| && r == s[..|r|]
    ensures forall k :: |r| <= k < |s| ==> IsJsSpace(s[k])
    ensures r == [] || !IsJsSpace(r[|r| - 1])
  {
    if s != [] && IsJsSpace(s[|s| - 1]) then TrimEnd(s[..|s| - 1]) else s
  }

  /** r is the slice of s that starts at i, and everything of s outside
      that slice is white space. */
  predicate SpaceAround(s: string, i: int, r: string) {
    0 <= i <= |s| - |r| && r == s[i..i + |r|] &&
    (forall k :: 0 <= k < i ==> IsJsSpace(s[k])) &&
    (forall k :: i + |r| <= k < |s| ==> IsJsSpace(s[k]))
  }

  /** String.prototype.trim: the result is the slice of the input left once
      the leading and trailing white space are dropped, so it is empty
      exactly when every character is white space, and otherwise starts and
      ends with a visible character. */
  function Trim(s: string): (r: string)
    ensures |r| <= |s|
    ensures exists i :: SpaceAround(s, i, r)
    ensures r == [] <==> forall k :: 0 <= k < |s| ==> IsJsSpace(s[k])
    ensures r != [] ==> !IsJsSpace(r[0]) && !IsJsSpace(r[|r| - 1])
  {
    var t := TrimStart(s);
    assert TrimEnd(t) == [] ==> t == [];
    TrimmedIsSlice(s, t, TrimEnd(t));
    TrimEnd(t)
  }

  /** Dropping leading and then trailing white space leaves a slice whose
      surroundings are all white space. */
  lemma TrimmedIsSlice(s: string, t: string, u: string)
    requires |t| <= |s| && t == s[|s| - |t|..]
    requires forall k :: 0 <= k < |s| - |t| ==> IsJsSpace(s[k])
    requires |u| <= |t| && u == t[..|u|]
    requires forall k :: |u| <= k < |t| ==> IsJsSpace(t[k])
    ensures SpaceAround(s, |s| - |t|, u)
  {
    var i := |s| - |t|;
    assert u == s[i..i + |u|];
    forall k | i + |u| <= k < |s| ensures IsJsSpace(s[k]) {
      assert s[k] == t[k - i];
    }
  }

  /** The text tool's test on the prompt answer as the component writes it:
      a non-null, non-empty string whose trimmed form is not empty; None
      stands for a cancelled prompt. */
  predicate TrimmedNonEmpty(answer: Option<string>) {
    answer.Some? && answer.value != "" && Trim(answer.value) != ""
  }

  /** An answer holding a character that is not white space. */
  predicate HasText(answer: Option<string>) {
    answer.Some? && exists k :: 0 <= k < |answer.value| && !IsJsSpace(answer.value[k])
  }

  /** The component's test accepts exactly the answers with a visible
      character; null, empty and blank answers are discarded. */
  lemma HasTextIffTrimmedNonEmpty(answer: Option<string>)
    ensures TrimmedNonEmpty(answer) <==> HasText(answer)
  {
  }
}
