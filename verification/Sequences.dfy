/** Notions that several components share. */
module Sequences {
  type Byte = b: int | 0 <= b < 256

  /** No number is in s twice. */
  ghost predicate Distinct(s: seq<nat>) {
    forall i, j :: 0 <= i < j < |s| ==> s[i] != s[j]
  }
}
