/**
  Order-preserving list operations shared by the client and both backends:
  `Array.prototype.filter` / a SQL `WHERE` (Where) and `Array.prototype.map`
  with a conditional replacement (MapWhere).
*/
module Seqs {

  /** The elements of s that satisfy keep, in their original order. */
  function Where<T>(s: seq<T>, keep: T -> bool): (r: seq<T>)
    ensures |r| <= |s|
    ensures forall x :: x in r ==> x in s && keep(x)
    ensures forall x :: x in s && keep(x) ==> x in r
  {
    if s == [] then []
    else
      assert forall x :: x in s ==> x == s[0] || x in s[1..];
      (if keep(s[0]) then [s[0]] else []) + Where(s[1..], keep)
  }

  /** s with every element that satisfies hit replaced by f of it; the rest stay in place. */
  function MapWhere<T>(s: seq<T>, hit: T -> bool, f: T -> T): (r: seq<T>)
    ensures |r| == |s|
    ensures forall i :: 0 <= i < |s| && hit(s[i]) ==> r[i] == f(s[i])
    ensures forall i :: 0 <= i < |s| && !hit(s[i]) ==> r[i] == s[i]
  {
    if s == [] then []
    else [if hit(s[0]) then f(s[0]) else s[0]] + MapWhere(s[1..], hit, f)
  }

  /** Filtering distributes over concatenation: this is what "keeps the relative order" means. */
  lemma {:induction false} WhereConcat<T>(a: seq<T>, b: seq<T>, keep: T -> bool)
    ensures Where(a + b, keep) == Where(a, keep) + Where(b, keep)
  {
    if a == [] {
      assert a + b == b;
    } else {
      assert (a + b)[0] == a[0];
      assert (a + b)[1..] == a[1..] + b;
      WhereConcat(a[1..], b, keep);
    }
  }

  /** A filter that keeps everything is the identity. */
  lemma {:induction false} WhereAll<T>(s: seq<T>, keep: T -> bool)
    requires forall x :: x in s ==> keep(x)
    ensures Where(s, keep) == s
  {
    if s != [] {
      assert forall x :: x in s[1..] ==> x in s;
      WhereAll(s[1..], keep);
    }
  }

  /** A filter that keeps nothing empties the list. */
  lemma {:induction false} WhereNone<T>(s: seq<T>, keep: T -> bool)
    requires forall x :: x in s ==> !keep(x)
    ensures Where(s, keep) == []
  {
    if s != [] {
      assert forall x :: x in s[1..] ==> x in s;
      WhereNone(s[1..], keep);
    }
  }

  /** Filtering twice with the same predicate is filtering once. */
  lemma WhereIdempotent<T>(s: seq<T>, keep: T -> bool)
    ensures Where(Where(s, keep), keep) == Where(s, keep)
  {
    WhereAll(Where(s, keep), keep);
  }

  /** Two complementary filters split the list: what one drops the other keeps. */
  lemma {:induction false} WherePartition<T>(s: seq<T>, p: T -> bool, q: T -> bool)
    requires forall x :: q(x) == !p(x)
    ensures |Where(s, p)| + |Where(s, q)| == |s|
  {
    if s != [] {
      WherePartition(s[1..], p, q);
    }
  }

  /** Filters that agree on every element of s select the same list. */
  lemma {:induction false} WhereSame<T>(s: seq<T>, p: T -> bool, q: T -> bool)
    requires forall x :: x in s ==> p(x) == q(x)
    ensures Where(s, p) == Where(s, q)
  {
    if s != [] {
      assert forall x :: x in s[1..] ==> x in s;
      WhereSame(s[1..], p, q);
    }
  }

  /** Filtering by p and then by q is filtering once by their conjunction r. */
  lemma {:induction false} WhereWhere<T>(s: seq<T>, p: T -> bool, q: T -> bool, r: T -> bool)
    requires forall x :: x in s ==> r(x) == (p(x) && q(x))
    ensures Where(Where(s, p), q) == Where(s, r)
  {
    if s != [] {
      assert forall x :: x in s[1..] ==> x in s;
      var tail := Where(s[1..], p);
      WhereWhere(s[1..], p, q, r);
      var head := if p(s[0]) then [s[0]] else [];
      assert Where(s, p) == head + tail;
      WhereConcat(head, tail, q);
      assert Where(head, q) == if r(s[0]) then [s[0]] else [] by {
        if head != [] {
          assert head[1..] == [];
        }
      }
    }
  }
}
