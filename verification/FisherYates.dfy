/** The partial Fisher-Yates draw of egresshealth/egresshealth.go, as a map from draw sequences
    to arrangements, and the count of the draws behind every subset. */
module FisherYates {
  import opened Counting

  /** Draw i is the i-th result of r.Intn(len - i). */
  predicate ValidDraws(m: nat, ds: seq<nat>) {
    ds == [] || (ds[0] < m && ValidDraws(m - 1, ds[1..]))
  }

  /** What is left to draw from once position d has been swapped to the front. */
  function Rest(a: seq<nat>, d: nat): (r: seq<nat>)
    requires d < |a|
    ensures |r| == |a| - 1
  {
    a[d := a[0]][1..]
  }

  /** The elements drawn, in draw order. */
  function Take(a: seq<nat>, ds: seq<nat>): (p: seq<nat>)
    requires ValidDraws(|a|, ds)
    ensures |p| == |ds|
    decreases |ds|
  {
    if ds == [] then [] else [a[ds[0]]] + Take(Rest(a, ds[0]), ds[1..])
  }

  /** p lists different elements of a. */
  ghost predicate Arrangement(a: seq<nat>, p: seq<nat>) {
    Distinct(p) && Elements(p) <= Elements(a)
  }

  function IndexOf(a: seq<nat>, x: nat): (i: nat)
    requires x in a
    ensures i < |a| && a[i] == x
  {
    if a[0] == x then 0 else 1 + IndexOf(a[1..], x)
  }

  lemma RestIsRest(a: seq<nat>, d: nat)
    requires Distinct(a) && d < |a|
    ensures Distinct(Rest(a, d)) && Elements(Rest(a, d)) == Elements(a) - {a[d]}
  {
    var b := a[d := a[0]];
    assert forall i :: 0 <= i < |a| - 1 ==> Rest(a, d)[i] == b[i + 1];
    forall x | x in Elements(a) && x != a[d] ensures x in Rest(a, d) {
      var i :| 0 <= i < |a| && a[i] == x;
      assert if i == 0 then Rest(a, d)[d - 1] == x else Rest(a, d)[i - 1] == x;
    }
  }

  /** No destination is drawn twice, and only the class's own are drawn. */
  lemma {:induction false} TakeArranges(a: seq<nat>, ds: seq<nat>)
    requires Distinct(a) && ValidDraws(|a|, ds)
    ensures Arrangement(a, Take(a, ds))
    decreases |ds|
  {
    if ds != [] {
      RestIsRest(a, ds[0]);
      TakeArranges(Rest(a, ds[0]), ds[1..]);
      var p := Take(Rest(a, ds[0]), ds[1..]);
      assert forall i :: 0 <= i < |p| ==> p[i] in Elements(p);
      assert Elements(Take(a, ds)) == {a[ds[0]]} + Elements(p);
    }
  }

  /** The draw sequence that produces a given arrangement. */
  function DrawsOf(a: seq<nat>, p: seq<nat>): (ds: seq<nat>)
    requires Distinct(a) && Arrangement(a, p)
    ensures |ds| == |p| && ValidDraws(|a|, ds)
    decreases |p|
  {
    if p == [] then []
    else
      assert p[0] in Elements(p);
      var d := IndexOf(a, p[0]);
      TailArranges(a, p);
      [d] + DrawsOf(Rest(a, d), p[1..])
  }

  lemma TailArranges(a: seq<nat>, p: seq<nat>)
    requires Distinct(a) && Arrangement(a, p) && p != []
    ensures p[0] in a && Arrangement(Rest(a, IndexOf(a, p[0])), p[1..])
  {
    assert p[0] in Elements(p);
    RestIsRest(a, IndexOf(a, p[0]));
    forall x | x in Elements(p[1..]) ensures x in Elements(p) && x != p[0] {
      var i :| 0 <= i < |p| - 1 && p[1..][i] == x;
      assert p[i + 1] == x;
    }
  }

  /** Every arrangement is drawn ... */
  lemma {:induction false} DrawsOfTake(a: seq<nat>, p: seq<nat>)
    requires Distinct(a) && Arrangement(a, p)
    ensures Take(a, DrawsOf(a, p)) == p
    decreases |p|
  {
    if p != [] {
      TailArranges(a, p);
      DrawsOfTake(Rest(a, IndexOf(a, p[0])), p[1..]);
    }
  }

  /** ... by exactly one draw sequence. */
  lemma {:induction false} TakeDrawsOf(a: seq<nat>, ds: seq<nat>)
    requires Distinct(a) && ValidDraws(|a|, ds)
    ensures Arrangement(a, Take(a, ds)) && DrawsOf(a, Take(a, ds)) == ds
    decreases |ds|
  {
    TakeArranges(a, ds);
    if ds != [] {
      var p := Take(a, ds);
      assert IndexOf(a, p[0]) == ds[0];
      assert p[1..] == Take(Rest(a, ds[0]), ds[1..]);
      TakeDrawsOf(Rest(a, ds[0]), ds[1..]);
    }
  }

  // ----- Counting the draws

  function Cons(d: nat, t: seq<nat>): seq<nat> {
    [d] + t
  }

  /** Sequences that start with some d of `heads` and go on with some tail of f(d). */
  ghost function Prepend(heads: set<nat>, f: nat -> set<seq<nat>>): set<seq<nat>> {
    set d, t | d in heads && t in f(d) :: Cons(d, t)
  }

  /** All sequences of n draws from m. */
  ghost function AllDraws(m: nat, n: nat): set<seq<nat>>
    requires n <= m
  {
    if n == 0 then {[]} else set d, t | d in Range(m) && t in AllDraws(m - 1, n - 1) :: Cons(d, t)
  }

  function Factorial(n: nat): nat {
    if n == 0 then 1 else n * Factorial(n - 1)
  }

  /** m * (m - 1) * ... with n factors. */
  function Falling(m: nat, n: nat): nat
    requires n <= m
  {
    if n == 0 then 1 else m * Falling(m - 1, n - 1)
  }

  lemma {:induction false} ConsSize(d: nat, tails: set<seq<nat>>)
    ensures |set t | t in tails :: Cons(d, t)| == |tails|
  {
    if tails != {} {
      var t0 :| t0 in tails;
      ConsSize(d, tails - {t0});
      var all, fewer := set t | t in tails :: Cons(d, t), set t | t in tails - {t0} :: Cons(d, t);
      assert Cons(d, t0) !in fewer by {
        forall t | t in tails && Cons(d, t) == Cons(d, t0) ensures t == t0 {
          assert Cons(d, t)[1..] == t && Cons(d, t0)[1..] == t0;
        }
      }
      assert all == fewer + {Cons(d, t0)};
    }
  }

  lemma PrependOne(heads: set<nat>, f: nat -> set<seq<nat>>, d0: nat)
    requires d0 in heads
    ensures |Prepend(heads, f)| == |Prepend(heads - {d0}, f)| + |f(d0)|
  {
    var fewer, one := Prepend(heads - {d0}, f), set t | t in f(d0) :: Cons(d0, t);
    ConsSize(d0, f(d0));
    assert Prepend(heads, f) == fewer + one;
    assert forall x :: x in fewer ==> x[0] != d0;
    assert forall x :: x in one ==> x[0] == d0;
    assert fewer !! one;
  }

  lemma {:induction false} PrependSize(heads: set<nat>, f: nat -> set<seq<nat>>, k: nat)
    requires forall d :: d in heads ==> |f(d)| == k
    ensures |Prepend(heads, f)| == |heads| * k
  {
    if heads == {} {
      assert Prepend(heads, f) == {};
    } else {
      var d0 :| d0 in heads;
      PrependSize(heads - {d0}, f, k);
      PrependOne(heads, f, d0);
      assert (|heads| - 1) * k + k == |heads| * k;
    }
  }

  lemma InAllDraws(m: nat, n: nat, ds: seq<nat>)
    requires 0 < n <= m
    ensures ds in AllDraws(m, n) <==> ds != [] && ds[0] < m && ds[1..] in AllDraws(m - 1, n - 1)
  {
    forall d, t ensures Cons(d, t) != [] && Cons(d, t)[0] == d && Cons(d, t)[1..] == t {}
    if ds != [] { assert ds == Cons(ds[0], ds[1..]); }
  }

  lemma {:induction false} AllDrawsAreValid(m: nat, n: nat, ds: seq<nat>)
    requires n <= m
    ensures ds in AllDraws(m, n) <==> |ds| == n && ValidDraws(m, ds)
  {
    if n > 0 {
      InAllDraws(m, n, ds);
      if ds != [] { AllDrawsAreValid(m - 1, n - 1, ds[1..]); }
    }
  }

  lemma AllDrawsPrepend(m: nat, n: nat)
    requires 0 < n <= m
    ensures AllDraws(m, n) == Prepend(Range(m), (d: nat) => AllDraws(m - 1, n - 1))
  {
  }

  lemma {:induction false} AllDrawsSize(m: nat, n: nat)
    requires n <= m
    ensures |AllDraws(m, n)| == Falling(m, n)
  {
    if n > 0 {
      AllDrawsSize(m - 1, n - 1);
      AllDrawsPrepend(m, n);
      PrependSize(Range(m), (d: nat) => AllDraws(m - 1, n - 1), Falling(m - 1, n - 1));
    }
  }

  /** ds draws exactly the elements of s, in some order. */
  ghost predicate Selects(a: seq<nat>, s: set<nat>, ds: seq<nat>) {
    |ds| == |s| && ValidDraws(|a|, ds) && Elements(Take(a, ds)) == s
  }

  /** The draw sequences that select exactly the subset s. */
  ghost function DrawsSelecting(a: seq<nat>, s: set<nat>): set<seq<nat>>
    requires |s| <= |a|
  {
    set ds | ds in AllDraws(|a|, |s|) && Selects(a, s, ds)
  }

  lemma InDrawsSelecting(a: seq<nat>, s: set<nat>, ds: seq<nat>)
    requires |s| <= |a|
    ensures ds in DrawsSelecting(a, s) <==> Selects(a, s, ds)
  {
    AllDrawsAreValid(|a|, |s|, ds);
  }

  /** The first draws that pick an element of s. */
  function Heads(a: seq<nat>, s: set<nat>): set<nat> {
    set d | d in Range(|a|) && a[d] in s
  }

  lemma HeadsWithout(a: seq<nat>, s: set<nat>, i: nat)
    requires Distinct(a) && i < |a| && a[i] in s
    ensures Heads(a, s) == Heads(a, s - {a[i]}) + {i} && i !in Heads(a, s - {a[i]})
  {
  }

  lemma {:induction false} HeadsSize(a: seq<nat>, s: set<nat>)
    requires Distinct(a) && s <= Elements(a)
    ensures |Heads(a, s)| == |s|
    decreases |s|
  {
    if s == {} {
      assert Heads(a, s) == {};
    } else {
      var x :| x in s;
      var i :| 0 <= i < |a| && a[i] == x;
      HeadsSize(a, s - {x});
      HeadsWithout(a, s, i);
    }
  }

  /** The draws that go on to select the rest of s once position d has been drawn. */
  ghost function TailsFor(a: seq<nat>, s: set<nat>, d: nat): set<seq<nat>> {
    if d < |a| && a[d] in s && |s| <= |a| then DrawsSelecting(Rest(a, d), s - {a[d]}) else {}
  }

  lemma SelectsHead(a: seq<nat>, s: set<nat>, ds: seq<nat>)
    requires Distinct(a) && s != {} && Selects(a, s, ds)
    ensures ds != [] && ds == Cons(ds[0], ds[1..]) && ds[0] in Heads(a, s)
    ensures Selects(Rest(a, ds[0]), s - {a[ds[0]]}, ds[1..])
  {
    assert ds == Cons(ds[0], ds[1..]);
    SelectingTail(a, s, ds[0], ds[1..]);
  }

  lemma SelectsCons(a: seq<nat>, s: set<nat>, d: nat, t: seq<nat>)
    requires Distinct(a) && d in Heads(a, s) && Selects(Rest(a, d), s - {a[d]}, t)
    ensures Selects(a, s, Cons(d, t))
  {
    SelectingTail(a, s, d, t);
  }

  /** Selecting s starts with one of its elements and goes on to select the others. */
  lemma SelectingSplits(a: seq<nat>, s: set<nat>)
    requires Distinct(a) && s <= Elements(a) && 0 < |s| <= |a|
    ensures DrawsSelecting(a, s) == Prepend(Heads(a, s), (d: nat) => TailsFor(a, s, d))
  {
    var f := (d: nat) => TailsFor(a, s, d);
    forall ds | ds in DrawsSelecting(a, s) ensures ds in Prepend(Heads(a, s), f) {
      InDrawsSelecting(a, s, ds);
      SelectsHead(a, s, ds);
      InDrawsSelecting(Rest(a, ds[0]), s - {a[ds[0]]}, ds[1..]);
      assert ds[1..] in f(ds[0]);
    }
    forall d, t | d in Heads(a, s) && t in f(d) ensures Cons(d, t) in DrawsSelecting(a, s) {
      InDrawsSelecting(Rest(a, d), s - {a[d]}, t);
      SelectsCons(a, s, d, t);
      InDrawsSelecting(a, s, Cons(d, t));
    }
  }

  lemma SelectingTail(a: seq<nat>, s: set<nat>, d: nat, t: seq<nat>)
    requires Distinct(a) && d < |a| && ValidDraws(|a| - 1, t)
    ensures ValidDraws(|a|, Cons(d, t)) && Take(a, Cons(d, t)) == [a[d]] + Take(Rest(a, d), t)
    ensures Elements(Take(a, Cons(d, t))) == s <==> a[d] in s && Elements(Take(Rest(a, d), t)) == s - {a[d]}
  {
    assert Cons(d, t)[1..] == t;
    var p := Take(Rest(a, d), t);
    RestIsRest(a, d);
    TakeArranges(Rest(a, d), t);
    assert Elements([a[d]] + p) == {a[d]} + Elements(p);
    assert a[d] !in Elements(p);
  }

  lemma {:induction false} SelectingSize(a: seq<nat>, s: set<nat>)
    requires Distinct(a) && s <= Elements(a) && |s| <= |a|
    ensures |DrawsSelecting(a, s)| == Factorial(|s|)
    decreases |s|
  {
    if s == {} {
      InDrawsSelecting(a, s, []);
      assert Elements(Take(a, [])) == {};
      assert DrawsSelecting(a, s) == {[]};
    } else {
      var f := (d: nat) => TailsFor(a, s, d);
      forall d | d in Heads(a, s) ensures |f(d)| == Factorial(|s| - 1) {
        RestIsRest(a, d);
        SelectingSize(Rest(a, d), s - {a[d]});
      }
      SelectingSplits(a, s);
      HeadsSize(a, s);
      PrependSize(Heads(a, s), f, Factorial(|s| - 1));
    }
  }

  /** Every subset of a class is equally likely: a subset of n elements is selected by exactly
      n! of the m * (m - 1) * ... draw sequences, whatever the subset. */
  lemma EverySubsetEquallyLikely(a: seq<nat>, s: set<nat>)
    requires Distinct(a) && s <= Elements(a)
    ensures |s| <= |a|
    ensures |DrawsSelecting(a, s)| == Factorial(|s|) && |AllDraws(|a|, |s|)| == Falling(|a|, |s|)
  {
    ElementsSize(a);
    SubsetSize(s, Elements(a));
    AllDrawsSize(|a|, |s|);
    SelectingSize(a, s);
  }

  // ----- The code

  /** The answer an entry of the tape gives to Intn(n): itself, or the largest answer allowed. */
  function Clamp(t: nat, n: nat): (v: nat)
    requires n > 0
    ensures v < n
  {
    if t < n then t else n - 1
  }

  /** The generator as an explicit tape, one entry a call: every sequence of answers in range is
      some tape's. */
  class Rand {
    const tape: nat -> nat
    var used: nat

    constructor (tape: nat -> nat)
      ensures this.tape == tape && used == 0
    {
      this.tape := tape;
      used := 0;
    }

    method Intn(n: nat) returns (v: nat)
      requires n > 0
      modifies this
      ensures used == old(used) + 1 && v == Clamp(tape(old(used)), n)
    {
      v := Clamp(tape(used), n);
      used := used + 1;
    }
  }

  /** n draws from m elements, starting at the given point of the tape. */
  function Draws(tape: nat -> nat, used: nat, m: nat, n: nat): (ds: seq<nat>)
    requires n <= m
    ensures |ds| == n && ValidDraws(m, ds)
    decreases n
  {
    if n == 0 then [] else [Clamp(tape(used), m)] + Draws(tape, used + 1, m - 1, n - 1)
  }

  function TapeOf(ds: seq<nat>): nat -> nat {
    (k: nat) => if k < |ds| then ds[k] else 0
  }

  /** Every valid draw sequence is on some tape: the bijection misses nothing. */
  lemma {:induction false} EveryDrawHasATape(m: nat, ds: seq<nat>, i: nat)
    requires i <= |ds| && |ds| - i <= m && ValidDraws(m, ds[i..])
    ensures Draws(TapeOf(ds), i, m, |ds| - i) == ds[i..]
    decreases |ds| - i
  {
    if i < |ds| {
      assert ds[i..][1..] == ds[i + 1..];
      EveryDrawHasATape(m - 1, ds, i + 1);
      assert Clamp(TapeOf(ds)(i), m) == ds[i];
    }
  }

  function Swap(a: seq<nat>, i: nat, j: nat): (b: seq<nat>)
    requires i < |a| && j < |a|
    ensures |b| == |a|
  {
    a[i := a[j]][j := a[i]]
  }

  /** The slice after the swaps that the draws ds ask for, the first of them into place i. */
  function Shuffled(a: seq<nat>, i: nat, ds: seq<nat>): (b: seq<nat>)
    requires i <= |a| && ValidDraws(|a| - i, ds)
    ensures |b| == |a|
    decreases |ds|
  {
    if ds == [] then a else Shuffled(Swap(a, i, i + ds[0]), i + 1, ds[1..])
  }

  lemma RestAfterSwap(a: seq<nat>, i: nat, d: nat)
    requires i + d < |a|
    ensures Swap(a, i, i + d)[i + 1..] == Rest(a[i..], d) && Swap(a, i, i + d)[..i + 1] == a[..i] + [a[i..][d]]
  {
  }

  lemma TakeOne(drawn: seq<nat>, rest: seq<nat>, ds: seq<nat>)
    requires ds != [] && ValidDraws(|rest|, ds)
    ensures drawn + Take(rest, ds) == (drawn + [rest[ds[0]]]) + Take(Rest(rest, ds[0]), ds[1..])
  {
    var x, t := rest[ds[0]], Take(Rest(rest, ds[0]), ds[1..]);
    assert drawn + ([x] + t) == (drawn + [x]) + t;
  }

  /** After the swaps the first places hold what was drawn. */
  lemma {:induction false} ShuffledDraws(a: seq<nat>, i: nat, ds: seq<nat>)
    requires i <= |a| && |ds| <= |a| - i && ValidDraws(|a| - i, ds)
    ensures Shuffled(a, i, ds)[..i + |ds|] == a[..i] + Take(a[i..], ds)
    decreases |ds|
  {
    if ds == [] {
      assert a[..i] + [] == a[..i];
    } else {
      ShuffledDraws(Swap(a, i, i + ds[0]), i + 1, ds[1..]);
      RestAfterSwap(a, i, ds[0]);
      TakeOne(a[..i], a[i..], ds);
    }
  }

  lemma ShuffledFromStart(a: seq<nat>, ds: seq<nat>)
    requires |ds| <= |a| && ValidDraws(|a|, ds)
    ensures Shuffled(a, 0, ds)[..|ds|] == Take(a, ds)
  {
    ShuffledDraws(a, 0, ds);
    assert a[0..] == a && a[..0] + Take(a, ds) == Take(a, ds);
  }

  /** The body of the loop: a random one of the elements not yet drawn goes to place i. */
  method DrawOne(shuffled: array<nat>, i: nat, rand: Rand)
    requires i < shuffled.Length
    modifies shuffled, rand
    ensures rand.used == old(rand.used) + 1
    ensures shuffled[..] == Swap(old(shuffled[..]), i, i + Clamp(rand.tape(old(rand.used)), shuffled.Length - i))
  {
    var j := rand.Intn(shuffled.Length - i);
    j := i + j;
    shuffled[i], shuffled[j] := shuffled[j], shuffled[i];
  }

  /** Draws n of the elements of `shuffled` into its first n places, in place. */
  method PartialShuffle(shuffled: array<nat>, n: nat, rand: Rand)
    requires n <= shuffled.Length
    modifies shuffled, rand
    ensures shuffled[..n] == Take(old(shuffled[..]), Draws(rand.tape, old(rand.used), shuffled.Length, n))
    ensures rand.used == old(rand.used) + n
  {
    ghost var m, start := shuffled.Length, shuffled[..];
    ghost var all := Draws(rand.tape, rand.used, m, n);
    ghost var todo := all;
    for i := 0 to n
      invariant rand.used == old(rand.used) + i
      invariant todo == Draws(rand.tape, rand.used, m - i, n - i)
      invariant Shuffled(shuffled[..], i, todo) == Shuffled(start, 0, all)
    {
      ghost var before := shuffled[..];
      assert todo[0] == Clamp(rand.tape(rand.used), m - i)
        && todo[1..] == Draws(rand.tape, rand.used + 1, m - i - 1, n - i - 1);
      DrawOne(shuffled, i, rand);
      assert shuffled[..] == Swap(before, i, i + todo[0]);
      todo := todo[1..];
    }
    ShuffledFromStart(start, all);
  }
}
