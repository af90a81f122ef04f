/** Facts about sequences that several views share. */
module Sequences {

  /**
   * `r` is `s` with some entries dropped and the rest in their order: matching from the
   * end, each entry of `r` is found in `s` before the entries already matched.
   */
  predicate Subsequence<T(==)>(r: seq<T>, s: seq<T>)
    decreases |s|
  {
    if r == [] then true
    else if s == [] then false
    else if r[|r| - 1] == s[|s| - 1] then Subsequence(r[..|r| - 1], s[..|s| - 1])
    else Subsequence(r, s[..|s| - 1])
  }
}
