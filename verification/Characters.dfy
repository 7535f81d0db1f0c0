/**
 Bytes, and characters as the C locale folds them.
 */
module Characters {

  type Byte = b: nat | b < 256

  /** `tolower`. */
  function ToLower(c: char): char {
    if 'A' <= c <= 'Z' then (c as int + 32) as char else c
  }
}
