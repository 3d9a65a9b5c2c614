/** Small facts about sequences that the solver should not have to find. */
module Sequences {
  lemma Associates<T>(a: seq<T>, b: seq<T>, c: seq<T>)
    ensures a + (b + c) == (a + b) + c
  {
  }

  lemma DropDrop<T>(s: seq<T>, m: nat, n: nat)
    requires m + n <= |s|
    ensures s[m..][n..] == s[m + n..]
  {
  }

  /** A slice, cut in two. */
  lemma Halves<T>(s: seq<T>, from: nat, n: nat, to: nat)
    requires from + n <= to <= |s|
    ensures s[from..to][..n] == s[from..from + n] && s[from..to][n..] == s[from + n..to]
  {
  }

  /** Neighbouring slices, joined. */
  lemma Joined<T>(s: seq<T>, from: nat, mid: nat, to: nat)
    requires from <= mid <= to <= |s|
    ensures s[from..mid] + s[mid..to] == s[from..to]
  {
  }
}
