/** Header-field sanitiser for outgoing mail (backend/helper/sanitize.go). */
module Sanitize {
  import opened Text

  /**
   * `SanitizeEmailField`: every carriage return, then every line feed, is
   * removed; nothing else changes.
   */
  function SanitizeEmailField(input: string): (r: string)
    ensures '\r' !in r && '\n' !in r
    ensures |r| <= |input|
  {
    RemoveChar(RemoveChar(input, '\r'), '\n')
  }

  /** The characters that survive, in order: the input minus CR and LF. */
  function WithoutLineBreaks(s: string): string {
    if s == [] then []
    else (if s[0] == '\r' || s[0] == '\n' then [] else [s[0]]) + WithoutLineBreaks(s[1..])
  }

  /** The sanitiser keeps every other character, in order. */
  lemma {:induction false} SanitizeKeepsOthers(input: string)
    ensures SanitizeEmailField(input) == WithoutLineBreaks(input)
  {
    if input != [] {
      SanitizeKeepsOthers(input[1..]);
      var head := if input[0] == '\r' then [] else [input[0]];
      RemoveCharAppend(head, RemoveChar(input[1..], '\r'), '\n');
    }
  }

  /** Sanitising twice gives the same result as sanitising once. */
  lemma SanitizeIdempotent(input: string)
    ensures SanitizeEmailField(SanitizeEmailField(input)) == SanitizeEmailField(input)
  {
    var once := SanitizeEmailField(input);
    RemoveCharAbsent(once, '\r');
    RemoveCharAbsent(once, '\n');
  }
}
