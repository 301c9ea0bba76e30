// Small shared vocabulary.
module Basics {

  datatype Option<+T> = None | Some(value: T)

  /** The sequence with the element at position i taken out. */
  function Without<T>(s: seq<T>, i: nat): seq<T>
    requires i < |s|
  {
    s[..i] + s[i + 1..]
  }

  lemma Regroup(a: string, b: string, c: string)
    ensures a + (b + c) == a + b + c
  {}
}
