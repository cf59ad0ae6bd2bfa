/** Small helpers shared by the quiz engine: an Option type, the JavaScript
    array and number primitives the engine relies on (findIndex, slice,
    Math.round, Math.floor of a random draw), ASCII lower-casing, and facts
    about sequences without duplicates. */
module Util {

  datatype Option<+T> = None | Some(value: T)

  function Min(a: int, b: int): (m: int)
    ensures m <= a && m <= b && (m == a || m == b)
  {
    if a <= b then a else b
  }

  function Max(a: int, b: int): (m: int)
    ensures m >= a && m >= b && (m == a || m == b)
  {
    if a >= b then a else b
  }

  function MinR(a: real, b: real): real { if a <= b then a else b }

  function MaxR(a: real, b: real): real { if a >= b then a else b }

  /** Math.round: the nearest integer, a half rounded towards +infinity. */
  function RoundHalfUp(x: real): (n: int)
    ensures x - 0.5 < n as real <= x + 0.5
  {
    (x + 0.5).Floor
  }

  /** `Math.floor(u * n)` for a draw `u` of Math.random, i.e. a uniform
      position in a list of length n. */
  function UniformIndex(u: real, n: nat): (k: int)
    requires 0.0 <= u < 1.0
    ensures n > 0 ==> 0 <= k < n
  {
    if n == 0 then 0
    else
      assert u * n as real < n as real by { LessThanOneScales(u, n as real); }
      (u * n as real).Floor
  }

  lemma LessThanOneScales(u: real, x: real)
    requires 0.0 <= u < 1.0 && x > 0.0
    ensures 0.0 <= u * x < x
  {
  }

  /** A supply of at least n draws of Math.random, each in [0, 1). */
  predicate UnitDraws(us: seq<real>, n: nat)
  {
    |us| >= n && forall i :: 0 <= i < |us| ==> 0.0 <= us[i] < 1.0
  }

  /** Array.prototype.findIndex with a `=== x` test: the first position
      holding x, or -1. */
  function IndexOf<T(==)>(s: seq<T>, x: T): (i: int)
    ensures i == -1 <==> x !in s
    ensures 0 <= i ==> i < |s| && s[i] == x && x !in s[..i]
  {
    if s == [] then -1
    else if s[0] == x then 0
    else
      var j := IndexOf(s[1..], x);
      if j < 0 then -1
      else
        assert s[..j + 1] == [s[0]] + s[1..][..j];
        j + 1
  }

  /** In a sequence without duplicates the first position of an element
      is its only position. */
  lemma IndexOfNoDup<T>(s: seq<T>, j: nat)
    requires NoDup(s) && j < |s|
    ensures IndexOf(s, s[j]) == j
  {
  }

  /** `s.slice(0, n)`: a negative end counts from the back, an end past the
      length stops at the length. */
  function SliceTo<T>(s: seq<T>, n: int): (r: seq<T>)
    ensures |r| == if n >= 0 then Min(n, |s|) else Max(0, |s| + n)
    ensures r == s[..|r|]
  {
    if n >= 0 then s[..Min(n, |s|)] else s[..Max(0, |s| + n)]
  }

  function LowerChar(c: char): char
  {
    if 'A' <= c <= 'Z' then (c as int + 32) as char else c
  }

  /** String.prototype.toLowerCase, restricted to ASCII letters. */
  function ToLower(s: string): string
  {
    seq(|s|, i requires 0 <= i < |s| => LowerChar(s[i]))
  }

  predicate NoDup<T(==)>(s: seq<T>)
  {
    forall i, j :: 0 <= i < j < |s| ==> s[i] != s[j]
  }

  lemma {:induction false} NoDupCountsOnce<T>(s: seq<T>, x: T)
    requires NoDup(s)
    ensures multiset(s)[x] <= 1
  {
    if s != [] {
      assert s == [s[0]] + s[1..];
      NoDupCountsOnce(s[1..], x);
      if s[0] == x {
        assert x !in s[1..] by {
          forall k | 0 <= k < |s[1..]| ensures s[1..][k] != x {
            assert s[1..][k] == s[k + 1];
          }
        }
      }
    }
  }

  lemma DuplicateCountsTwice<T>(s: seq<T>, i: int, j: int)
    requires 0 <= i < j < |s| && s[i] == s[j]
    ensures multiset(s)[s[i]] >= 2
  {
    assert s == s[..i] + [s[i]] + s[i + 1..j] + [s[j]] + s[j + 1..];
  }

  /** A permutation of a sequence without duplicates has none either. */
  lemma PermutationKeepsNoDup<T>(a: seq<T>, b: seq<T>)
    requires multiset(a) == multiset(b) && NoDup(a)
    ensures NoDup(b)
  {
    forall i, j | 0 <= i < j < |b| ensures b[i] != b[j] {
      if b[i] == b[j] {
        DuplicateCountsTwice(b, i, j);
        NoDupCountsOnce(a, b[i]);
      }
    }
  }

  /** Mapping a sequence without duplicates through an injective function
      keeps it without duplicates. */
  lemma MapKeepsNoDup<T, U>(s: seq<T>, f: T -> U)
    requires NoDup(s)
    requires forall x, y :: x in s && y in s && x != y ==> f(x) != f(y)
    ensures NoDup(seq(|s|, k requires 0 <= k < |s| => f(s[k])))
  {
  }
}
