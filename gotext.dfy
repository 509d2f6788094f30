/** Go text as the grok library sees it: a Go `string` and a `[]byte` are both
    sequences of bytes, so converting one into the other changes nothing. */
module GoText {

  type Byte = b: int | 0 <= b < 256

  type GoString = seq<Byte>

  /** The ASCII white-space bytes that strings.TrimSpace removes:
      tab, line feed, vertical tab, form feed, carriage return and space. */
  predicate IsSpace(b: Byte) {
    b == 9 || b == 10 || b == 11 || b == 12 || b == 13 || b == 32
  }

  predicate AllSpace(s: GoString) {
    forall i :: 0 <= i < |s| ==> IsSpace(s[i])
  }

  /** True of a string that neither starts nor ends with white space. */
  predicate IsTrimmed(s: GoString) {
    s == [] || (!IsSpace(s[0]) && !IsSpace(s[|s| - 1]))
  }

  /** The length of the white-space run that starts the string. */
  function LeadingSpaces(s: GoString): (k: nat)
    ensures k <= |s| && AllSpace(s[..k])
    ensures k < |s| ==> !IsSpace(s[k])
  {
    if |s| > 0 && IsSpace(s[0]) then
      var k' := LeadingSpaces(s[1..]);
      assert s[..1 + k'] == [s[0]] + s[1..][..k'];
      1 + k'
    else
      0
  }

  /** The length of the white-space run that ends the string. */
  function TrailingSpaces(s: GoString): (k: nat)
    ensures k <= |s| && AllSpace(s[|s| - k..])
    ensures k < |s| ==> !IsSpace(s[|s| - 1 - k])
  {
    if |s| > 0 && IsSpace(s[|s| - 1]) then
      var init := s[..|s| - 1];
      var k' := TrailingSpaces(init);
      assert s[|s| - (1 + k')..] == init[|init| - k'..] + [s[|s| - 1]];
      1 + k'
    else
      0
  }

  /** strings.TrimSpace: the string with its leading and trailing white space
      removed. The result is an infix of the input, what was cut off on either
      side is white space only, and the result itself is trimmed. */
  function TrimSpace(s: GoString): (r: GoString)
    ensures exists i :: 0 <= i <= |s| - |r| && s[i..i + |r|] == r && AllSpace(s[..i]) && AllSpace(s[i + |r|..])
    ensures IsTrimmed(r)
  {
    var a := LeadingSpaces(s);
    var rest := s[a..];
    var b := TrailingSpaces(rest);
    var r := rest[..|rest| - b];
    assert s[a..a + |r|] == r;
    assert s[a + |r|..] == rest[|rest| - b..];
    assert r != [] ==> r[0] == s[a] && r[|r| - 1] == rest[|rest| - 1 - b];
    r
  }

  /** Trimming twice is trimming once. */
  lemma TrimSpaceIdempotent(s: GoString)
    ensures TrimSpace(TrimSpace(s)) == TrimSpace(s)
  {
  }

  /** A trimmed string is left unchanged by TrimSpace. */
  lemma TrimmedIsFixed(s: GoString)
    requires IsTrimmed(s)
    ensures TrimSpace(s) == s
  {
  }
}
