/**
 The Ruby built-ins that example.rb iterates with, as pure functions on
 sequences: `Array#map`, `Array#select`, `String#reverse` and the values
 `5.times` walks through in the doubling generator. Each carries the
 contract the methods of module Blocks are proved against.
 */
module Builtins {

  /** `s.map { |x| f(x) }`: one result per element, in element order. */
  function Apply<T, R>(f: T -> R, s: seq<T>): (r: seq<R>)
    ensures |r| == |s|
    ensures forall i :: 0 <= i < |s| ==> r[i] == f(s[i])
  {
    if s == [] then [] else [f(s[0])] + Apply(f, s[1..])
  }

  /** Appending one element appends exactly its image. */
  lemma ApplySnoc<T, R>(f: T -> R, s: seq<T>, x: T)
    ensures Apply(f, s + [x]) == Apply(f, s) + [f(x)]
  {
  }

  /** `s.select { |x| p(x) }`: the elements for which p holds, in their original order. */
  function Select<T(==)>(p: T -> bool, s: seq<T>): (r: seq<T>)
    ensures |r| <= |s|
    ensures forall i :: 0 <= i < |r| ==> p(r[i])
  {
    if s == [] then []
    else if p(s[0]) then [s[0]] + Select(p, s[1..])
    else Select(p, s[1..])
  }

  /** An element is selected exactly when it occurs in the list and p holds of it. */
  lemma {:induction false} SelectMembers<T>(p: T -> bool, s: seq<T>, x: T)
    ensures x in Select(p, s) <==> x in s && p(x)
  {
    if s != [] {
      SelectMembers(p, s[1..], x);
      assert s == [s[0]] + s[1..];
    }
  }

  /** a can be obtained from b by deleting elements: b keeps a's elements in a's order. */
  predicate IsSubsequence<T(==)>(a: seq<T>, b: seq<T>)
    decreases |b|
  {
    a == [] || (b != [] && ((a[0] == b[0] && IsSubsequence(a[1..], b[1..])) || IsSubsequence(a, b[1..])))
  }

  /** Selecting keeps relative order: the result is a subsequence of the input. */
  lemma {:induction false} SelectIsSubsequence<T>(p: T -> bool, s: seq<T>)
    ensures IsSubsequence(Select(p, s), s)
  {
    if s != [] {
      SelectIsSubsequence(p, s[1..]);
      if p(s[0]) {
        var r := Select(p, s);
        assert r[0] == s[0] && r[1..] == Select(p, s[1..]);
      }
    }
  }

  /** Selecting keeps every element for which p holds, as often as it occurs, and drops every other. */
  lemma {:induction false} SelectMultiset<T>(p: T -> bool, s: seq<T>, x: T)
    ensures multiset(Select(p, s))[x] == if p(x) then multiset(s)[x] else 0
  {
    if s != [] {
      SelectMultiset(p, s[1..], x);
      assert s == [s[0]] + s[1..];
      assert multiset(s) == multiset([s[0]]) + multiset(s[1..]);
    }
  }

  /** Selecting on a list extended by one element extends the selection by that element when it qualifies. */
  lemma {:induction false} SelectSnoc<T>(p: T -> bool, s: seq<T>, x: T)
    ensures Select(p, s + [x]) == if p(x) then Select(p, s) + [x] else Select(p, s)
  {
    if s == [] {
      assert [x][1..] == [];
    } else {
      assert (s + [x])[0] == s[0];
      assert (s + [x])[1..] == s[1..] + [x];
      SelectSnoc(p, s[1..], x);
    }
  }

  /**
   Selecting by p and by its negation partitions the list: the two lengths add
   up to the whole, and together they hold every element exactly as often as s does.
   */
  lemma {:induction false} SelectPartition<T>(p: T -> bool, q: T -> bool, s: seq<T>)
    requires forall x :: q(x) == !p(x)
    ensures |Select(p, s)| + |Select(q, s)| == |s|
    ensures multiset(Select(p, s)) + multiset(Select(q, s)) == multiset(s)
  {
    if s != [] {
      SelectPartition(p, q, s[1..]);
      assert s == [s[0]] + s[1..];
      assert multiset(s) == multiset([s[0]]) + multiset(s[1..]);
    }
  }

  /** `s.reverse`: the same elements, last first. */
  function Reverse<T>(s: seq<T>): (r: seq<T>)
  {
    seq(|s|, i requires 0 <= i < |s| => s[|s| - 1 - i])
  }

  /** 2 to the power k. */
  function Pow2(k: nat): (r: nat)
    ensures r >= 1
  {
    if k == 0 then 1 else 2 * Pow2(k - 1)
  }

  /**
   The values `n.times` hands to a block that doubles its running value after
   each visit, starting from num: num, 2 * num, 4 * num, ...
   */
  function Doublings(num: int, n: nat): (r: seq<int>)
    ensures |r| == n
    decreases n
  {
    if n == 0 then [] else [num] + Doublings(num * 2, n - 1)
  }

  /** Closed form of the doublings: the k-th value is num * 2^k. */
  lemma {:induction false} DoublingsAt(num: int, n: nat, k: nat)
    requires k < n
    ensures Doublings(num, n)[k] == num * Pow2(k)
    decreases n
  {
    if k > 0 {
      DoublingsAt(num * 2, n - 1, k - 1);
      assert num * 2 * Pow2(k - 1) == num * (2 * Pow2(k - 1));
    }
  }
}
