/** Counting, ordering and sorting facts shared by the models. */
module Counting {

  function Count<T>(p: T -> bool, s: seq<T>): nat {
    if s == [] then 0 else Count(p, s[..|s| - 1]) + if p(s[|s| - 1]) then 1 else 0
  }

  lemma CountSnoc<T>(p: T -> bool, s: seq<T>, x: T)
    ensures Count(p, s + [x]) == Count(p, s) + if p(x) then 1 else 0
  {
    assert (s + [x])[..|s|] == s;
  }

  lemma {:induction false} CountConcat<T>(p: T -> bool, s: seq<T>, t: seq<T>)
    ensures Count(p, s + t) == Count(p, s) + Count(p, t)
  {
    if t == [] {
      assert s + t == s;
    } else {
      var init, x := t[..|t| - 1], t[|t| - 1];
      CountConcat(p, s, init);
      assert s + t == (s + init) + [x];
      CountSnoc(p, s + init, x);
    }
  }

  lemma CountRemove<T>(p: T -> bool, s: seq<T>, k: nat)
    requires k < |s|
    ensures Count(p, s) == Count(p, s[..k] + s[k + 1..]) + if p(s[k]) then 1 else 0
  {
    CountConcat(p, s[..k], s[k + 1..]);
    CountSnoc(p, s[..k], s[k]);
    CountConcat(p, s[..k] + [s[k]], s[k + 1..]);
    assert s == (s[..k] + [s[k]]) + s[k + 1..];
  }

  lemma MultisetRemove<T>(s: seq<T>, k: nat)
    requires k < |s|
    ensures multiset(s[..k] + s[k + 1..]) == multiset(s) - multiset{s[k]}
  {
    assert s == s[..k] + [s[k]] + s[k + 1..];
  }

  /** A count does not depend on the order of what is counted. */
  lemma {:induction false} CountPermuted<T>(p: T -> bool, s: seq<T>, t: seq<T>)
    requires multiset(s) == multiset(t)
    ensures Count(p, s) == Count(p, t)
    decreases |s|
  {
    if s == [] {
      assert |multiset(t)| == 0;
    } else {
      var n := |s| - 1;
      assert s[n] in multiset(t);
      var k :| 0 <= k < |t| && t[k] == s[n];
      assert s[..n] + s[n + 1..] == s[..n];
      MultisetRemove(s, n);
      MultisetRemove(t, k);
      CountPermuted(p, s[..n], t[..k] + t[k + 1..]);
      CountRemove(p, t, k);
    }
  }

  lemma {:induction false} CountPositive<T>(p: T -> bool, s: seq<T>)
    ensures Count(p, s) <= |s|
    ensures Count(p, s) > 0 <==> exists k :: 0 <= k < |s| && p(s[k])
  {
    if s != [] {
      var init := s[..|s| - 1];
      CountPositive(p, init);
      if k :| 0 <= k < |s| && p(s[k]) {
        if k < |init| { assert p(init[k]); }
      }
      if k :| 0 <= k < |init| && p(init[k]) { assert p(s[k]); }
      if p(s[|s| - 1]) { assert p(s[|s| - 1]); }
    }
  }

  /** No element satisfies both of two exclusive conditions. */
  lemma {:induction false} CountDisjoint<T>(p: T -> bool, q: T -> bool, s: seq<T>)
    requires forall k :: 0 <= k < |s| ==> !(p(s[k]) && q(s[k]))
    ensures Count(p, s) + Count(q, s) <= |s|
  {
    if s != [] { CountDisjoint(p, q, s[..|s| - 1]); }
  }

  predicate Increasing(s: seq<int>) {
    forall i, j :: 0 <= i < j < |s| ==> s[i] < s[j]
  }

  predicate Distinct<T(==)>(s: seq<T>) {
    forall i, j :: 0 <= i < j < |s| ==> s[i] != s[j]
  }

  function Elements<T>(s: seq<T>): set<T> {
    set x | x in s
  }

  /** The indices of a slice of length n. */
  function Range(n: nat): (s: set<nat>)
    ensures forall i :: i in s <==> 0 <= i < n
    ensures |s| == n
  {
    if n == 0 then {} else Range(n - 1) + {n - 1}
  }

  lemma {:induction false} ElementsSize<T>(s: seq<T>)
    ensures |Elements(s)| <= |s|
    ensures Distinct(s) ==> |Elements(s)| == |s|
  {
    if s != [] {
      var init, x := s[..|s| - 1], s[|s| - 1];
      ElementsSize(init);
      assert Elements(s) == Elements(init) + {x};
    }
  }

  lemma {:induction false} SubsetSize<T>(a: set<T>, b: set<T>)
    requires a <= b
    ensures |a| <= |b|
  {
    if a != {} {
      var x :| x in a;
      SubsetSize(a - {x}, b - {x});
    }
  }

  lemma DistinctConcat<T>(a: seq<T>, b: seq<T>)
    requires Distinct(a) && Distinct(b) && forall x :: !(x in a && x in b)
    ensures Distinct(a + b)
  {
    var c := a + b;
    forall i, j | 0 <= i < j < |c| ensures c[i] != c[j] {
      assert j < |a| ==> c[i] == a[i] && c[j] == a[j];
      assert i >= |a| ==> c[i] == b[i - |a|] && c[j] == b[j - |a|];
      assert i < |a| <= j ==> c[i] in a && c[j] in b;
    }
  }

  // ----- The order of strings, rune by rune

  predicate Less(a: string, b: string) {
    b != "" && (a == "" || a[0] < b[0] || (a[0] == b[0] && Less(a[1..], b[1..])))
  }

  lemma {:induction false} LessTransitive(a: string, b: string, c: string)
    requires Less(a, b) && Less(b, c)
    ensures Less(a, c)
  {
    if a != "" && a[0] == b[0] == c[0] { LessTransitive(a[1..], b[1..], c[1..]); }
  }

  lemma {:induction false} LessTotal(a: string, b: string)
    ensures a != b ==> Less(a, b) || Less(b, a)
    ensures !(Less(a, b) && Less(b, a))
  {
    if a != "" && b != "" && a[0] == b[0] {
      LessTotal(a[1..], b[1..]);
      assert a == [a[0]] + a[1..] && b == [b[0]] + b[1..];
    }
  }
}
