/** Hexadecimal digits, as quoted literals and percent-encoding use them. */
module HexDigits {

  /** The value of a digit; -1 when it is none. */
  function HexValue(c: char): (v: int)
    ensures -1 <= v < 16
  {
    if '0' <= c <= '9' then c as int - '0' as int
    else if 'a' <= c <= 'f' then c as int - 'a' as int + 10
    else if 'A' <= c <= 'F' then c as int - 'A' as int + 10
    else -1
  }
}
