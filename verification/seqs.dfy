/** Facts about sequences that the proofs below call by name. */
module Seqs {
  lemma ConcatAssociates<T>(a: seq<T>, b: seq<T>, c: seq<T>)
    ensures a + (b + c) == a + b + c
  {
  }

  lemma HeadTail<T>(a: seq<T>)
    requires a != []
    ensures [a[0]] + a[1..] == a
  {
  }

  lemma EmptyUnit<T>(a: seq<T>)
    ensures [] + a == a && a + [] == a
  {
  }

  lemma FourParts<T>(a: seq<T>, b: seq<T>, c: seq<T>, d: seq<T>, rest: seq<T>)
    ensures var s := a + (b + c) + d + rest;
      && s[..|a|] == a
      && s[|a|..|a| + |b| + |c|] == b + c
      && s[|a|..|a| + |b|] == b
      && s[|a| + |b|..|a| + |b| + |c|] == c
      && s[|a| + |b| + |c|..|a| + |b| + |c| + |d|] == d
  {
  }

  lemma PrefixOfConcat<T>(a: seq<T>, b: seq<T>, k: nat)
    requires k <= |a| + |b|
    ensures k <= |a| ==> (a + b)[..k] == a[..k]
    ensures k >= |a| ==> (a + b)[..k] == a + b[..k - |a|]
  {
  }

  lemma PrefixOfTail<T>(a: seq<T>, m: nat)
    requires a != [] && m <= |a| - 1
    ensures a[..m + 1] == [a[0]] + a[1..][..m] && a[..m + 1][1..] == a[1..][..m]
  {
  }

  lemma Around<T>(a: seq<T>, i: nat, x: T)
    requires i < |a|
    ensures a == a[..i] + ([a[i]] + a[i + 1..]) && a[i := x] == a[..i] + ([x] + a[i + 1..])
  {
  }

  /** A slice does not see a change outside it. */
  lemma UpdateBefore<T>(a: seq<T>, i: nat, x: T, m: nat, n: nat)
    requires i < |a| && m <= n <= |a| && !(m <= i < n)
    ensures a[i := x][m..n] == a[m..n]
  {
  }

  lemma UpdateLeft<T>(a: seq<T>, b: seq<T>, i: nat, x: T)
    requires i < |a|
    ensures a[i := x] + b == (a + b)[i := x] && (a + b)[i] == a[i]
  {
  }

  /** Two adjacent slices see a change inside them in its place. */
  lemma UpdateInside<T>(a: seq<T>, i: nat, x: T, m: nat, k: nat, n: nat)
    requires m <= i < n <= |a| && m <= k <= n
    ensures a[i := x][m..k] + a[i := x][k..n] == (a[m..k] + a[k..n])[i - m := x]
    ensures (a[m..k] + a[k..n])[i - m] == a[i]
  {
  }

  lemma SliceShift<T>(a: seq<T>, b: seq<T>, m: nat, n: nat)
    requires m <= n <= |b|
    ensures (a + b)[|a| + m..|a| + n] == b[m..n]
  {
  }

  lemma AfterPrefix<T>(a: seq<T>, b: seq<T>)
    ensures (a + b)[|a|..] == b && (a + b)[..|a|] == a
  {
  }

  lemma TailOfCons<T>(x: T, a: seq<T>)
    ensures ([x] + a)[1..] == a && ([x] + a)[0] == x
  {
  }

  lemma SliceOfPrefix<T>(a: seq<T>, m: nat, k: nat)
    requires m + k <= |a|
    ensures a[..m + k][m..] == a[m..][..k]
  {
  }

  lemma TakeSnoc<T>(a: seq<T>, n: nat)
    requires n < |a|
    ensures a[..n + 1] == a[..n] + [a[n]]
  {
  }
}
