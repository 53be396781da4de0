/** Facts about sequences and sets that the solver should not rediscover in every
    proof. */
module Sequences {

  function Min(a: int, b: int): int { if a < b then a else b }

  lemma Assoc<X>(a: seq<X>, b: seq<X>, c: seq<X>)
    ensures a + b + c == a + (b + c)
  {}

  lemma SliceMore<X>(s: seq<X>, a: nat, b: nat)
    requires a <= b <= |s|
    ensures s[..b] == s[..a] + s[a..b]
  {}

  lemma SplitAt<X>(s: seq<X>, n: nat)
    requires n <= |s|
    ensures s == s[..n] + s[n..]
  {}

  lemma WholePrefix<X>(s: seq<X>, n: nat)
    requires n == |s|
    ensures s[..n] == s
  {}

  lemma AppendNothing<X>(s: seq<X>)
    ensures s + [] == s
  {}

  predicate NoDup<X(==)>(q: seq<X>) {
    forall i, j :: 0 <= i < j < |q| ==> q[i] != q[j]
  }

  /** list_remove, on the sequence a list stands for. */
  function Without<X(==)>(q: seq<X>, x: X): (r: seq<X>)
    ensures forall y :: y in r ==> y in q && y != x
    ensures forall y :: y in q && y != x ==> y in r
    ensures NoDup(q) ==> NoDup(r)
  {
    if q == [] then []
    else
      assert NoDup(q) ==> NoDup(q[1..]) && q[0] !in q[1..];
      if q[0] == x then Without(q[1..], x) else [q[0]] + Without(q[1..], x)
  }

  lemma {:induction false} WithoutAt<X>(q: seq<X>, k: nat)
    requires NoDup(q) && k < |q|
    ensures Without(q, q[k]) == q[..k] + q[k + 1..]
  {
    if k > 0 {
      var rest := q[1..];
      assert rest[k - 1] == q[k] && NoDup(rest);
      WithoutAt(rest, k - 1);
      assert [q[0]] + rest[..k - 1] == q[..k] && rest[k..] == q[k + 1..];
      Assoc([q[0]], rest[..k - 1], rest[k..]);
    } else {
      WithoutNone(q[1..], q[0]);
    }
  }

  lemma {:induction false} WithoutNone<X>(q: seq<X>, x: X)
    requires x !in q
    ensures Without(q, x) == q
  {
    if q != [] { WithoutNone(q[1..], x); }
  }

  lemma AppendMember<X(!new)>(q: seq<X>, x: X)
    requires NoDup(q) && x !in q
    ensures NoDup(q + [x]) && forall y :: y in q + [x] <==> y in q || y == x
  {}

  lemma PopMember<X(!new)>(q: seq<X>)
    requires NoDup(q) && q != []
    ensures NoDup(q[1..]) && forall y :: y in q[1..] <==> y in q && y != q[0]
  {}

  lemma {:induction false} SubsetSize<X>(a: set<X>, b: set<X>)
    requires a <= b
    ensures |a| <= |b|
    ensures |a| == |b| ==> a == b
  {
    assert b == a + (b - a);
  }
}
