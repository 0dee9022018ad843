/** What the two escape-sequence scanners share. */
module ControlText {

  const MAX_REMNANT := 64
  const ESC: char := '\U{1B}'

  predicate IsDigit(c: char) {
    '0' <= c <= '9'
  }

  function DigitValue(c: char): nat {
    if IsDigit(c) then c as int - '0' as int else 0
  }

  /** Final bytes of a control sequence (section 5.4 of ECMA-48). */
  predicate IsFinal(c: char) {
    '@' <= c <= '~'
  }

  /** An unfinished sequence is kept for the next chunk, unless it is too long. */
  function Hold(partial: string): string {
    if |partial| > MAX_REMNANT then "" else partial
  }

  function Concat(chunks: seq<string>): string {
    if chunks == [] then "" else chunks[0] + Concat(chunks[1..])
  }

  method IndexOfEsc(text: string, from: nat) returns (k: nat)
    requires from <= |text|
    ensures from <= k <= |text| && (k < |text| ==> text[k] == ESC) && forall j | from <= j < k :: text[j] != ESC
  {
    k := from;
    while k < |text| && text[k] != ESC
      invariant from <= k <= |text| && forall j | from <= j < k :: text[j] != ESC
    {
      k := k + 1;
    }
  }
}
