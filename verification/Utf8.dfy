/** The sizes Go gives text: strings here are sequences of scalar values, there bytes of UTF-8. */
module Utf8 {
  /** len of one rune in UTF-8. */
  function RuneLen(c: char): nat {
    if c < '\U{80}' then 1 else if c < '\U{800}' then 2 else if c < '\U{10000}' then 3 else 4
  }

  /** What n bytes can encode, as section 3 of RFC 3629 has it: 7, 11, 16 and 21 bits. */
  function Capacity(n: nat): nat
    requires 1 <= n <= 4
  {
    match n
    case 1 => 0x80
    case 2 => 0x800
    case 3 => 0x1_0000
    case 4 => 0x20_0000
  }

  /** A rune takes as few bytes as can hold it. */
  lemma RuneLenIsLeast(c: char)
    ensures 1 <= RuneLen(c) <= 4 && c as int < Capacity(RuneLen(c))
    ensures RuneLen(c) > 1 ==> Capacity(RuneLen(c) - 1) <= c as int
  {
  }

  /** len of a string, in bytes. */
  function ByteLen(s: string): (n: nat)
    ensures |s| <= n
  {
    if s == "" then 0 else RuneLen(s[0]) + ByteLen(s[1..])
  }
}
