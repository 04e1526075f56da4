/** How many runs of the generator lead to each sample (sampleDestinations of
    egresshealth/egresshealth.go): the classes are drawn one after another from one generator, and
    every possible sample comes from equally many sequences of draws. */
module SampleOdds {
  import opened Counting
  import opened FisherYates
  import opened Sampling

  // ----- Sequences of draws, one part after another

  ghost function Append(heads: set<seq<nat>>, tails: set<seq<nat>>): set<seq<nat>> {
    set p, q | p in heads && q in tails :: p + q
  }

  lemma {:induction false} AppendOneSize(p: seq<nat>, tails: set<seq<nat>>)
    ensures |Append({p}, tails)| == |tails|
  {
    if tails == {} {
      assert Append({p}, tails) == {};
    } else {
      var q :| q in tails;
      AppendOneSize(p, tails - {q});
      assert Append({p}, tails) == Append({p}, tails - {q}) + {p + q};
      forall t | t in tails && p + t == p + q ensures t == q {
        assert (p + t)[|p|..] == t && (p + q)[|p|..] == q;
      }
    }
  }

  lemma HeadsOf(heads: set<seq<nat>>, tails: set<seq<nat>>, n: nat)
    requires forall p :: p in heads ==> |p| == n
    ensures forall x :: x in Append(heads, tails) ==> n <= |x| && x[..n] in heads
  {
    forall p, q | p in heads && q in tails ensures (p + q)[..n] == p {
    }
  }

  /** Parts of equal length can be told apart again. */
  lemma {:induction false} AppendSize(heads: set<seq<nat>>, tails: set<seq<nat>>, n: nat)
    requires forall p :: p in heads ==> |p| == n
    ensures |Append(heads, tails)| == |heads| * |tails|
  {
    if heads == {} {
      assert Append(heads, tails) == {};
    } else {
      var p :| p in heads;
      var fewer, one := Append(heads - {p}, tails), Append({p}, tails);
      AppendSize(heads - {p}, tails, n);
      AppendOneSize(p, tails);
      assert Append(heads, tails) == fewer + one;
      HeadsOf(heads - {p}, tails, n);
      HeadsOf({p}, tails, n);
      assert fewer !! one;
      Distribute(|heads|, |tails|);
    }
  }

  lemma Distribute(a: nat, b: nat)
    requires a > 0
    ensures (a - 1) * b + b == a * b
  {
  }

  // ----- The draws of a run

  /** Does the class draw at all? A class that is taken whole does not. */
  predicate DrawsAtAll(dests: seq<Destination>, c: Class, sizes: map<Class, int>) {
    SampleCount(dests, c, sizes) < Count(OfClass(c), dests)
  }

  function DrawsOfClass(dests: seq<Destination>, c: Class, sizes: map<Class, int>): nat {
    if DrawsAtAll(dests, c, sizes) then SampleCount(dests, c, sizes) else 0
  }

  function RunLength(dests: seq<Destination>, classes: seq<Class>, sizes: map<Class, int>): nat {
    if classes == [] then 0
    else RunLength(dests, classes[..|classes| - 1], sizes) + DrawsOfClass(dests, classes[|classes| - 1], sizes)
  }

  ghost function ClassDraws(dests: seq<Destination>, c: Class, sizes: map<Class, int>): set<seq<nat>> {
    if DrawsAtAll(dests, c, sizes) then AllDraws(Count(OfClass(c), dests), SampleCount(dests, c, sizes)) else {[]}
  }

  /** All sequences of draws a run can make. */
  ghost function RunDraws(dests: seq<Destination>, classes: seq<Class>, sizes: map<Class, int>): set<seq<nat>> {
    if classes == [] then {[]}
    else Append(RunDraws(dests, classes[..|classes| - 1], sizes), ClassDraws(dests, classes[|classes| - 1], sizes))
  }

  /** m! / (m - n)! for every class that draws. */
  function RunCount(dests: seq<Destination>, classes: seq<Class>, sizes: map<Class, int>): nat {
    if classes == [] then 1
    else
      var c := classes[|classes| - 1];
      RunCount(dests, classes[..|classes| - 1], sizes)
      * if DrawsAtAll(dests, c, sizes) then Falling(Count(OfClass(c), dests), SampleCount(dests, c, sizes)) else 1
  }

  /** n! for every class that draws. */
  function Odds(dests: seq<Destination>, classes: seq<Class>, sizes: map<Class, int>): nat {
    if classes == [] then 1
    else
      var c := classes[|classes| - 1];
      Odds(dests, classes[..|classes| - 1], sizes)
      * if DrawsAtAll(dests, c, sizes) then Factorial(SampleCount(dests, c, sizes)) else 1
  }

  lemma ClassDrawsLength(dests: seq<Destination>, c: Class, sizes: map<Class, int>, q: seq<nat>)
    requires q in ClassDraws(dests, c, sizes)
    ensures |q| == DrawsOfClass(dests, c, sizes)
    ensures DrawsAtAll(dests, c, sizes) ==> ValidDraws(Count(OfClass(c), dests), q)
  {
    if DrawsAtAll(dests, c, sizes) {
      AllDrawsAreValid(Count(OfClass(c), dests), SampleCount(dests, c, sizes), q);
    }
  }

  lemma {:induction false} RunDrawsLength(dests: seq<Destination>, classes: seq<Class>, sizes: map<Class, int>,
                                          ds: seq<nat>)
    requires ds in RunDraws(dests, classes, sizes)
    ensures |ds| == RunLength(dests, classes, sizes)
  {
    if classes != [] {
      var init, c := classes[..|classes| - 1], classes[|classes| - 1];
      var p, q :| p in RunDraws(dests, init, sizes) && q in ClassDraws(dests, c, sizes) && ds == p + q;
      RunDrawsLength(dests, init, sizes, p);
      ClassDrawsLength(dests, c, sizes, q);
    }
  }

  lemma {:induction false} RunDrawsSize(dests: seq<Destination>, classes: seq<Class>, sizes: map<Class, int>)
    ensures |RunDraws(dests, classes, sizes)| == RunCount(dests, classes, sizes)
  {
    if classes != [] {
      var init, c := classes[..|classes| - 1], classes[|classes| - 1];
      RunDrawsSize(dests, init, sizes);
      if DrawsAtAll(dests, c, sizes) {
        AllDrawsSize(Count(OfClass(c), dests), SampleCount(dests, c, sizes));
      }
      forall p | p in RunDraws(dests, init, sizes) ensures |p| == RunLength(dests, init, sizes) {
        RunDrawsLength(dests, init, sizes, p);
      }
      AppendSize(RunDraws(dests, init, sizes), ClassDraws(dests, c, sizes), RunLength(dests, init, sizes));
    }
  }

  // ----- What a sequence of draws picks

  ghost predicate SameUpTo(tape: nat -> nat, tape': nat -> nat, n: nat) {
    forall k: nat :: k < n ==> tape(k) == tape'(k)
  }

  lemma {:induction false} DrawsLocal(tape: nat -> nat, tape': nat -> nat, used: nat, m: nat, n: nat)
    requires n <= m && SameUpTo(tape, tape', used + n)
    ensures Draws(tape, used, m, n) == Draws(tape', used, m, n)
    decreases n
  {
    if n > 0 { DrawsLocal(tape, tape', used + 1, m - 1, n - 1); }
  }

  /** A run looks no further along the tape than its own draws. */
  lemma {:induction false} RunLocal(dests: seq<Destination>, classes: seq<Class>, sizes: map<Class, int>,
                                    tape: nat -> nat, tape': nat -> nat)
    requires SameUpTo(tape, tape', RunLength(dests, classes, sizes))
    ensures DrawClasses(dests, classes, sizes, tape, 0) == DrawClasses(dests, classes, sizes, tape', 0)
    ensures DrawClasses(dests, classes, sizes, tape, 0).used == RunLength(dests, classes, sizes)
  {
    if classes != [] {
      var init, c := classes[..|classes| - 1], classes[|classes| - 1];
      RunLocal(dests, init, sizes, tape, tape');
      if DrawsAtAll(dests, c, sizes) {
        DrawsLocal(tape, tape', RunLength(dests, init, sizes), Count(OfClass(c), dests), SampleCount(dests, c, sizes));
      }
    }
  }

  function ClassPicked(dests: seq<Destination>, c: Class, sizes: map<Class, int>, q: seq<nat>): seq<nat>
    requires DrawsAtAll(dests, c, sizes) ==> ValidDraws(Count(OfClass(c), dests), q)
  {
    if DrawsAtAll(dests, c, sizes) then Take(ClassIndices(dests, c), q) else ClassIndices(dests, c)
  }

  function RunPicked(dests: seq<Destination>, classes: seq<Class>, sizes: map<Class, int>, ds: seq<nat>): seq<nat> {
    DrawClasses(dests, classes, sizes, TapeOf(ds), 0).picked
  }

  /** A run's draws split into those of the earlier classes and those of the last one. */
  lemma RunSplits(dests: seq<Destination>, classes: seq<Class>, sizes: map<Class, int>, p: seq<nat>, q: seq<nat>)
    requires classes != [] && p in RunDraws(dests, classes[..|classes| - 1], sizes)
    requires q in ClassDraws(dests, classes[|classes| - 1], sizes)
    requires DrawsAtAll(dests, classes[|classes| - 1], sizes) ==>
      ValidDraws(Count(OfClass(classes[|classes| - 1]), dests), q)
    ensures RunPicked(dests, classes, sizes, p + q) ==
            RunPicked(dests, classes[..|classes| - 1], sizes, p) + ClassPicked(dests, classes[|classes| - 1], sizes, q)
  {
    var init, c := classes[..|classes| - 1], classes[|classes| - 1];
    RunDrawsLength(dests, init, sizes, p);
    ClassDrawsLength(dests, c, sizes, q);
    assert SameUpTo(TapeOf(p + q), TapeOf(p), |p|);
    RunLocal(dests, init, sizes, TapeOf(p + q), TapeOf(p));
    if DrawsAtAll(dests, c, sizes) {
      assert (p + q)[|p|..] == q;
      EveryDrawHasATape(Count(OfClass(c), dests), p + q, |p|);
    }
  }

  // ----- The runs behind one sample

  /** The positions of s that are of class c. */
  function Part(dests: seq<Destination>, s: set<nat>, c: Class): set<nat> {
    set i | i in s && i < |dests| && dests[i].class_ == c
  }

  /** s is a possible sample of these classes: exactly the sample count of each. */
  ghost predicate Possible(dests: seq<Destination>, classes: seq<Class>, sizes: map<Class, int>, s: set<nat>) {
    && (forall i :: i in s ==> i < |dests| && dests[i].class_ in classes)
    && forall c :: c in classes ==> |Part(dests, s, c)| == SampleCount(dests, c, sizes)
  }

  /** The sequences of draws with which a run picks exactly s. */
  ghost function RunSelecting(dests: seq<Destination>, classes: seq<Class>, sizes: map<Class, int>,
                              s: set<nat>): set<seq<nat>> {
    set ds | ds in RunDraws(dests, classes, sizes) && Elements(RunPicked(dests, classes, sizes, ds)) == s
  }

  ghost function ClassSelecting(dests: seq<Destination>, c: Class, sizes: map<Class, int>, s: set<nat>): set<seq<nat>> {
    set q | q in ClassDraws(dests, c, sizes) && ClassSelects(dests, c, sizes, s, q)
  }

  ghost predicate ClassSelects(dests: seq<Destination>, c: Class, sizes: map<Class, int>, s: set<nat>, q: seq<nat>) {
    (DrawsAtAll(dests, c, sizes) ==> ValidDraws(Count(OfClass(c), dests), q))
    && Elements(ClassPicked(dests, c, sizes, q)) == Part(dests, s, c)
  }

  lemma PartOfClass(dests: seq<Destination>, s: set<nat>, c: Class)
    ensures Part(dests, s, c) <= Elements(ClassIndices(dests, c))
  {
    forall i | i in Part(dests, s, c) ensures i in ClassIndices(dests, c) {
      HasPosition(dests, c, i);
    }
  }

  lemma {:induction false} HasPosition(dests: seq<Destination>, c: Class, i: nat)
    requires i < |dests| && dests[i].class_ == c
    ensures i in ClassIndices(dests, c)
  {
    if i < |dests| - 1 { HasPosition(dests[..|dests| - 1], c, i); }
  }

  /** One class: n! sequences of draws, or the one empty sequence when the class is taken whole. */
  lemma ClassSelectingSize(dests: seq<Destination>, c: Class, sizes: map<Class, int>, s: set<nat>)
    requires |Part(dests, s, c)| == SampleCount(dests, c, sizes)
    ensures |ClassSelecting(dests, c, sizes, s)| ==
            if DrawsAtAll(dests, c, sizes) then Factorial(SampleCount(dests, c, sizes)) else 1
  {
    var idx, part := ClassIndices(dests, c), Part(dests, s, c);
    PartOfClass(dests, s, c);
    if DrawsAtAll(dests, c, sizes) {
      EverySubsetEquallyLikely(idx, part);
      forall q ensures q in ClassSelecting(dests, c, sizes, s) <==> q in DrawsSelecting(idx, part) {
        InDrawsSelecting(idx, part, q);
        AllDrawsAreValid(|idx|, |part|, q);
      }
      assert ClassSelecting(dests, c, sizes, s) == DrawsSelecting(idx, part);
    } else {
      ElementsSize(idx);
      SameSize(part, Elements(idx));
      assert ClassSelecting(dests, c, sizes, s) == {[]};
    }
  }

  lemma SameSize(a: set<nat>, b: set<nat>)
    requires a <= b && |b| <= |a|
    ensures a == b
  {
    assert b == a + (b - a);
    assert |b| == |a| + |b - a|;
  }

  lemma ClassPickedIsOfClass(dests: seq<Destination>, c: Class, sizes: map<Class, int>, q: seq<nat>)
    requires q in ClassDraws(dests, c, sizes)
    ensures DrawsAtAll(dests, c, sizes) ==> ValidDraws(Count(OfClass(c), dests), q)
    ensures forall i :: i in ClassPicked(dests, c, sizes, q) ==> i < |dests| && dests[i].class_ == c
  {
    ClassDrawsLength(dests, c, sizes, q);
    if DrawsAtAll(dests, c, sizes) {
      TakeArranges(ClassIndices(dests, c), q);
      assert forall i :: i in Take(ClassIndices(dests, c), q) ==> i in Elements(Take(ClassIndices(dests, c), q));
    }
  }

  /** What the earlier classes pick and what the last one picks do not mix. */
  lemma PicksDecompose(dests: seq<Destination>, c: Class, s: set<nat>, a: seq<nat>, b: seq<nat>)
    requires forall i :: i in s ==> i < |dests|
    requires forall i :: i in a ==> i < |dests| && dests[i].class_ != c
    requires forall i :: i in b ==> i < |dests| && dests[i].class_ == c
    ensures Elements(a + b) == s <==> Elements(a) == s - Part(dests, s, c) && Elements(b) == Part(dests, s, c)
  {
    assert Elements(a + b) == Elements(a) + Elements(b);
    assert Part(dests, Elements(a), c) == {};
    if Elements(a + b) == s {
      assert Elements(b) == Part(dests, s, c);
      assert Elements(a) == s - Part(dests, s, c);
    }
  }

  lemma SelectsBoth(dests: seq<Destination>, classes: seq<Class>, sizes: map<Class, int>, s: set<nat>, p: seq<nat>,
                    q: seq<nat>)
    requires Distinct(classes) && classes != [] && forall i :: i in s ==> i < |dests|
    requires p in RunDraws(dests, classes[..|classes| - 1], sizes)
      && q in ClassDraws(dests, classes[|classes| - 1], sizes)
    ensures var init, c := classes[..|classes| - 1], classes[|classes| - 1];
            p + q in RunSelecting(dests, classes, sizes, s) <==>
            p in RunSelecting(dests, init, sizes, s - Part(dests, s, c)) && q in ClassSelecting(dests, c, sizes, s)
  {
    var init, c := classes[..|classes| - 1], classes[|classes| - 1];
    ClassPickedIsOfClass(dests, c, sizes, q);
    RunSplits(dests, classes, sizes, p, q);
    DrawShape(dests, init, sizes, TapeOf(p), 0);
    var a, b := RunPicked(dests, init, sizes, p), ClassPicked(dests, c, sizes, q);
    forall i | i in a ensures i < |dests| && dests[i].class_ != c {
      var k :| 0 <= k < |a| && a[k] == i;
    }
    PicksDecompose(dests, c, s, a, b);
    assert p + q in RunDraws(dests, classes, sizes);
  }

  lemma SelectingIsAppend(dests: seq<Destination>, classes: seq<Class>, sizes: map<Class, int>, s: set<nat>)
    requires Distinct(classes) && classes != [] && forall i :: i in s ==> i < |dests|
    ensures var init, c := classes[..|classes| - 1], classes[|classes| - 1];
            RunSelecting(dests, classes, sizes, s) ==
            Append(RunSelecting(dests, init, sizes, s - Part(dests, s, c)), ClassSelecting(dests, c, sizes, s))
  {
    var init, c := classes[..|classes| - 1], classes[|classes| - 1];
    var heads, tails := RunSelecting(dests, init, sizes, s - Part(dests, s, c)), ClassSelecting(dests, c, sizes, s);
    forall ds | ds in RunSelecting(dests, classes, sizes, s) ensures ds in Append(heads, tails) {
      var p, q :| p in RunDraws(dests, init, sizes) && q in ClassDraws(dests, c, sizes) && ds == p + q;
      SelectsBoth(dests, classes, sizes, s, p, q);
    }
    forall p, q | p in heads && q in tails ensures p + q in RunSelecting(dests, classes, sizes, s) {
      SelectsBoth(dests, classes, sizes, s, p, q);
    }
  }

  lemma PossibleWithout(dests: seq<Destination>, classes: seq<Class>, sizes: map<Class, int>, s: set<nat>)
    requires Distinct(classes) && classes != [] && Possible(dests, classes, sizes, s)
    ensures Possible(dests, classes[..|classes| - 1], sizes, s - Part(dests, s, classes[|classes| - 1]))
  {
    var init, c := classes[..|classes| - 1], classes[|classes| - 1];
    assert classes == init + [c];
    forall e | e in init ensures |Part(dests, s - Part(dests, s, c), e)| == SampleCount(dests, e, sizes) {
      assert e != c;
      assert Part(dests, s - Part(dests, s, c), e) == Part(dests, s, e);
    }
  }

  /** Every possible choice of positions is picked by equally many sequences of draws: the product
      of n! over the classes that draw. */
  lemma {:induction false} SelectingSize(dests: seq<Destination>, classes: seq<Class>, sizes: map<Class, int>,
                                         s: set<nat>)
    requires Distinct(classes) && Possible(dests, classes, sizes, s)
    ensures |RunSelecting(dests, classes, sizes, s)| == Odds(dests, classes, sizes)
  {
    if classes == [] {
      assert Elements(RunPicked(dests, classes, sizes, [])) == {};
      assert s == {};
      assert RunSelecting(dests, classes, sizes, s) == {[]};
    } else {
      var init, c := classes[..|classes| - 1], classes[|classes| - 1];
      var s' := s - Part(dests, s, c);
      PossibleWithout(dests, classes, sizes, s);
      SelectingSize(dests, init, sizes, s');
      assert c in classes;
      ClassSelectingSize(dests, c, sizes, s);
      forall p | p in RunSelecting(dests, init, sizes, s') ensures |p| == RunLength(dests, init, sizes) {
        RunDrawsLength(dests, init, sizes, p);
      }
      AppendSize(RunSelecting(dests, init, sizes, s'), ClassSelecting(dests, c, sizes, s),
        RunLength(dests, init, sizes));
      SelectingIsAppend(dests, classes, sizes, s);
    }
  }

  // ----- Whole runs over the table

  ghost predicate PossibleSample(dests: seq<Destination>, sizes: map<Class, int>, s: set<nat>) {
    Possible(dests, Classes(dests), sizes, s)
  }

  /** The sequences of draws with which the run returns the sample s. */
  ghost function DrawsChoosing(dests: seq<Destination>, sizes: map<Class, int>, s: set<nat>): set<seq<nat>> {
    set ds | ds in RunDraws(dests, Classes(dests), sizes) && Elements(Chosen(dests, sizes, TapeOf(ds), 0)) == s
  }

  lemma ChosenIsPicked(dests: seq<Destination>, sizes: map<Class, int>, ds: seq<nat>)
    ensures Elements(Chosen(dests, sizes, TapeOf(ds), 0)) == Elements(RunPicked(dests, Classes(dests), sizes, ds))
  {
    var p := RunPicked(dests, Classes(dests), sizes, ds);
    ClassesPartition(dests);
    DrawShape(dests, Classes(dests), sizes, TapeOf(ds), 0);
    SortIncreasing(p);
    assert forall x :: x in SortInts(p) <==> x in multiset(SortInts(p));
    assert forall x :: x in p <==> x in multiset(p);
  }

  /** Every possible sample is equally likely: of all the sequences of draws a run can make, each
      sample is returned by the same number of them, whatever the sample. */
  lemma EverySampleEquallyLikely(dests: seq<Destination>, sizes: map<Class, int>, s: set<nat>)
    requires PossibleSample(dests, sizes, s)
    ensures |DrawsChoosing(dests, sizes, s)| == Odds(dests, Classes(dests), sizes)
    ensures |RunDraws(dests, Classes(dests), sizes)| == RunCount(dests, Classes(dests), sizes)
  {
    ClassesPartition(dests);
    RunDrawsSize(dests, Classes(dests), sizes);
    SelectingSize(dests, Classes(dests), sizes, s);
    forall ds | ds in RunDraws(dests, Classes(dests), sizes)
      ensures Elements(Chosen(dests, sizes, TapeOf(ds), 0)) == Elements(RunPicked(dests, Classes(dests), sizes, ds))
    {
      ChosenIsPicked(dests, sizes, ds);
    }
    assert DrawsChoosing(dests, sizes, s) == RunSelecting(dests, Classes(dests), sizes, s);
  }

  /** And a run of the generator is one of the sequences counted. */
  lemma {:induction false} RunIsCounted(dests: seq<Destination>, classes: seq<Class>, sizes: map<Class, int>,
                                        tape: nat -> nat)
    returns (ds: seq<nat>)
    ensures ds in RunDraws(dests, classes, sizes)
    ensures RunPicked(dests, classes, sizes, ds) == DrawClasses(dests, classes, sizes, tape, 0).picked
  {
    ds := [];
    if classes != [] {
      var init, c := classes[..|classes| - 1], classes[|classes| - 1];
      var p := RunIsCounted(dests, init, sizes, tape);
      RunLocal(dests, init, sizes, tape, tape);
      var q := [];
      if DrawsAtAll(dests, c, sizes) {
        q := Draws(tape, RunLength(dests, init, sizes), Count(OfClass(c), dests), SampleCount(dests, c, sizes));
        AllDrawsAreValid(Count(OfClass(c), dests), SampleCount(dests, c, sizes), q);
      }
      ds := p + q;
      RunSplits(dests, classes, sizes, p, q);
    }
  }
}
