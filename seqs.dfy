/** Facts about list concatenation, stated once for any element type so
    that proofs over lists of records need not re-derive them. */
module Seqs {

  lemma Assoc<T>(a: seq<T>, b: seq<T>, c: seq<T>)
    ensures (a + b) + c == a + (b + c)
  {
  }

  /** Splitting off the last element of the second part. */
  lemma SnocSplit<T>(a: seq<T>, b: seq<T>)
    requires b != []
    ensures a + b == (a + b[..|b| - 1]) + [b[|b| - 1]]
  {
    assert b == b[..|b| - 1] + [b[|b| - 1]];
  }

  lemma AppendNil<T>(a: seq<T>)
    ensures a + [] == a && [] + a == a
  {
  }

  /** A non-empty list is its front and its last element. */
  lemma InitLast<T>(s: seq<T>)
    requires s != []
    ensures s == s[..|s| - 1] + [s[|s| - 1]]
    ensures forall x :: x in s <==> x in s[..|s| - 1] || x == s[|s| - 1]
  {
  }

  /** A non-empty list is its first element and the rest. */
  lemma HeadTail<T>(s: seq<T>, x: T)
    requires s != []
    ensures s == [s[0]] + s[1..]
    ensures x in s <==> x == s[0] || x in s[1..]
    ensures [s[0]] + (s[1..] + [x]) == s + [x]
  {
  }

  /** The slices of a list in terms of the slices of its tail. */
  lemma DropFirst<T>(s: seq<T>, m: nat)
    requires s != [] && m < |s|
    ensures s[..|s| - m] == [s[0]] + s[1..][..|s| - 1 - m]
    ensures s[|s| - m..] == s[1..][|s| - 1 - m..]
  {
  }

  /** The slices of a list in terms of the slices of its front. */
  lemma DropLast<T>(s: seq<T>, m: nat)
    requires s != [] && m < |s|
    ensures s[m..] == s[..|s| - 1][m..] + [s[|s| - 1]]
    ensures s[..m] == s[..|s| - 1][..m]
  {
  }
}
