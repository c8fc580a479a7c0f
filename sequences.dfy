/** Identities about sequences that the other modules use as single steps. */
module Sequences {

  /** A text is its part before `i`, its part from `i` to `j`, and its part from `j`. */
  lemma SliceParts<T>(s: seq<T>, i: nat, j: nat)
    requires i <= j <= |s|
    ensures s == s[..i] + s[i..j] + s[j..]
  {
    assert s[..i] + s[i..j] == s[..j];
  }

  /** A non-empty sequence is its front followed by its last element. */
  lemma FrontLast<T>(s: seq<T>)
    requires s != []
    ensures s == s[..|s| - 1] + [s[|s| - 1]]
  {
  }

  /** Appending two elements one after the other appends the pair. */
  lemma AppendTwo<T>(s: seq<T>, first: T, second: T)
    ensures s + [first] + [second] == s + [first, second]
  {
  }

  /** Appending a run that ends in `x` is appending its front, then `x`. */
  lemma AppendSnoc<T>(s: seq<T>, front: seq<T>, x: T)
    ensures s + (front + [x]) == (s + front) + [x]
    ensures (s + front + [x])[..|s + front|] == s + front
  {
  }
}
