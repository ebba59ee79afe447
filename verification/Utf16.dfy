/** JavaScript strings are sequences of UTF-16 code units, paired or not. */
module Utf16 {
  type CodeUnit = n: int | 0 <= n < 0x1_0000

  type JsString = seq<CodeUnit>

  function Take<T>(s: seq<T>, n: nat): seq<T> {
    if |s| <= n then s else s[..n]
  }

  predicate IsHighSurrogate(u: int) { 0xD800 <= u <= 0xDBFF }

  predicate IsLowSurrogate(u: int) { 0xDC00 <= u <= 0xDFFF }
}
