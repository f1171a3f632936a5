/** Spring's `StringUtils.hasText`, over Java's `Character.isWhitespace`. */
module StringUtils {
  import opened Wrappers

  /**
   * Java 8's `Character.isWhitespace` (Unicode 6.2): the Unicode space, line and
   * paragraph separators other than the no-break spaces U+00A0, U+2007 and
   * U+202F, and the control characters U+0009 to U+000D and U+001C to U+001F.
   * U+180E, MONGOLIAN VOWEL SEPARATOR, is still a space separator in Unicode 6.2.
   */
  function IsWhitespace(c: char): (r: bool)
    ensures r ==> c as int < 0x1_0000
    ensures c as int < 0x80 ==> (r <==> c in "\t\n\U{000B}\U{000C}\r\U{001C}\U{001D}\U{001E}\U{001F} ")
    ensures c == '\U{00A0}' || c == '\U{2007}' || c == '\U{202F}' ==> !r
  {
    || '\U{0009}' <= c <= '\U{000D}'
    || '\U{001C}' <= c <= '\U{0020}'
    || c == '\U{1680}'
    || c == '\U{180E}'
    || ('\U{2000}' <= c <= '\U{200A}' && c != '\U{2007}')
    || c == '\U{2028}' || c == '\U{2029}'
    || c == '\U{205F}'
    || c == '\U{3000}'
  }

  /** Whether `s` holds some character that is not whitespace, scanning from the front. */
  function ContainsText(s: string): (r: bool)
    ensures r <==> exists i :: 0 <= i < |s| && !IsWhitespace(s[i])
  {
    if s == [] then false
    else if !IsWhitespace(s[0]) then true
    else
      var rest := ContainsText(s[1..]);
      assert forall i :: 0 < i < |s| ==> s[i] == s[1..][i - 1];
      rest
  }

  /** `StringUtils.hasText`: the string is non-null, non-empty and not all whitespace. */
  function HasText(s: Option<string>): (r: bool)
    ensures r <==> s.Some? && exists i :: 0 <= i < |s.value| && !IsWhitespace(s.value[i])
  {
    s.Some? && |s.value| > 0 && ContainsText(s.value)
  }
}
