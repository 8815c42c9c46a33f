/** Facts about sequences whose element type does not matter. */
module Seqs {

  lemma TakeAll<T>(s: seq<T>)
    ensures s[..|s|] == s
  {
  }

  lemma TakeNext<T>(s: seq<T>, i: nat)
    requires i < |s|
    ensures s[..i + 1] == s[..i] + [s[i]]
  {
  }

  lemma Assoc<T>(a: seq<T>, b: seq<T>, c: seq<T>)
    ensures a + b + c == a + (b + c)
  {
  }

  lemma Assoc4<T>(a: seq<T>, b: seq<T>, c: seq<T>, d: seq<T>)
    ensures a + b + c + d == a + (b + c + d) == a + (b + (c + d))
  {
  }

  /** What follows a known head. */
  lemma DropHead<T>(a: seq<T>, b: seq<T>)
    ensures (a + b)[|a|..] == b && (a + b)[..|a|] == a
  {
  }

  lemma Uncons<T>(s: seq<T>)
    requires s != []
    ensures s == [s[0]] + s[1..]
  {
  }

  lemma DropTwice<T>(s: seq<T>, i: nat, j: nat)
    requires i + j <= |s|
    ensures s[i..][j..] == s[i + j..]
  {
  }

  /** Each element is good, and each joins the one before it. */
  ghost predicate Train<T(!new)>(s: seq<T>, good: T -> bool, joins: (T, T) -> bool) {
    && (forall i | 0 <= i < |s| :: good(s[i]))
    && (forall i | 0 < i < |s| :: joins(s[i - 1], s[i]))
  }

  lemma LongerTrain<T(!new)>(s: seq<T>, x: T, good: T -> bool, joins: (T, T) -> bool)
    requires Train(s, good, joins) && good(x) && (s != [] ==> joins(s[|s| - 1], x))
    ensures Train(s + [x], good, joins)
  {
  }
}
