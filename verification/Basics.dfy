/** Definitions shared by all modules. */
module Basics {

  datatype Option<T> = None | Some(value: T)

  function Min(a: int, b: int): int {
    if a < b then a else b
  }

  /** The sequence without the element at `i`. */
  function Without<T>(s: seq<T>, i: nat): seq<T>
    requires i < |s|
  {
    s[..i] + s[i+1..]
  }

  lemma WithoutBehind<T>(x: T, s: seq<T>, i: nat)
    requires i < |s|
    ensures Without([x] + s, i + 1) == [x] + Without(s, i)
  {
  }

  /** A string that is `n` characters longer than `s`. */
  function Longer(s: string, n: nat): (r: string)
    ensures |r| == |s| + n
  {
    if n == 0 then s else Longer(s, n - 1) + "+"
  }

  function ValueOf(digit: char): int {
    digit as int - '0' as int
  }

  /** Reading a decimal numeral. */
  function Parse(s: string): int {
    if s == "" then 0 else Parse(s[..|s|-1]) * 10 + ValueOf(s[|s|-1])
  }

  function Max(a: int, b: int): int {
    if a < b then b else a
  }
}
