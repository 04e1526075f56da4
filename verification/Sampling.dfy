/** Drawing one run's destinations from the table (egresshealth/egresshealth.go). */
module Sampling {
  import opened Counting
  import opened FisherYates

  type Class = string

  datatype Destination = Destination(name: string, class_: Class)

  function OfClass(c: Class): Destination -> bool {
    (d: Destination) => d.class_ == c
  }

  /** Table positions of class c, in table order. */
  function ClassIndices(dests: seq<Destination>, c: Class): (idx: seq<nat>)
    ensures Increasing(idx)
    ensures forall k :: 0 <= k < |idx| ==> idx[k] < |dests| && dests[idx[k]].class_ == c
    ensures |idx| == Count(OfClass(c), dests)
  {
    if dests == [] then []
    else
      var n := |dests| - 1;
      var init := ClassIndices(dests[..n], c);
      if dests[n].class_ == c then init + [n] else init
  }

  /** The classes present, each where it first appears. */
  function Classes(dests: seq<Destination>): seq<Class> {
    if dests == [] then []
    else
      var init, c := Classes(dests[..|dests| - 1]), dests[|dests| - 1].class_;
      if c in init then init else init + [c]
  }

  /** tableClasses lists every class of the table, once. */
  lemma {:induction false} ClassesPartition(dests: seq<Destination>)
    ensures Distinct(Classes(dests))
    ensures forall c :: c in Classes(dests) <==> Count(OfClass(c), dests) > 0
  {
    if dests != [] { ClassesPartition(dests[..|dests| - 1]); }
  }

  /** How many of class c a run draws: the declared size, or the whole class when that is
      smaller or no size is declared. */
  function SampleCount(dests: seq<Destination>, c: Class, sizes: map<Class, int>): (n: nat)
    ensures n <= Count(OfClass(c), dests)
  {
    var total := Count(OfClass(c), dests);
    if c !in sizes || sizes[c] <= 0 || total < sizes[c] then total else sizes[c]
  }

  function SumCounts(dests: seq<Destination>, classes: seq<Class>, sizes: map<Class, int>): nat {
    if classes == [] then 0
    else
      var c := classes[|classes| - 1];
      SumCounts(dests, classes[..|classes| - 1], sizes) + SampleCount(dests, c, sizes)
  }

  /** The positions drawn for a list of classes, and how much of the tape they used. */
  datatype Drawn = Drawn(picked: seq<nat>, used: nat)

  function DrawFrom(idx: seq<nat>, n: nat, tape: nat -> nat, used: nat): Drawn {
    if n >= |idx| then Drawn(idx, used) else Drawn(Take(idx, Draws(tape, used, |idx|, n)), used + n)
  }

  function DrawClass(dests: seq<Destination>, c: Class, sizes: map<Class, int>, tape: nat -> nat, used: nat): (r: Drawn)
    ensures |r.picked| == SampleCount(dests, c, sizes)
  {
    DrawFrom(ClassIndices(dests, c), SampleCount(dests, c, sizes), tape, used)
  }

  function DrawClasses(dests: seq<Destination>, classes: seq<Class>, sizes: map<Class, int>, tape: nat -> nat,
                       used: nat): Drawn {
    if classes == [] then Drawn([], used)
    else
      var before := DrawClasses(dests, classes[..|classes| - 1], sizes, tape, used);
      var here := DrawClass(dests, classes[|classes| - 1], sizes, tape, before.used);
      Drawn(before.picked + here.picked, here.used)
  }

  // ----- sort.Ints

  function Insert(x: nat, s: seq<nat>): seq<nat> {
    if s == [] || s[|s| - 1] <= x then s + [x] else Insert(x, s[..|s| - 1]) + [s[|s| - 1]]
  }

  function SortInts(s: seq<nat>): seq<nat> {
    if s == [] then [] else Insert(s[|s| - 1], SortInts(s[..|s| - 1]))
  }

  lemma {:induction false} InsertIncreasing(x: nat, s: seq<nat>)
    requires Increasing(s) && x !in s
    ensures Increasing(Insert(x, s)) && multiset(Insert(x, s)) == multiset(s) + multiset{x}
  {
    if s != [] {
      var init, l := s[..|s| - 1], s[|s| - 1];
      assert s == init + [l];
      if l > x {
        InsertIncreasing(x, init);
        var t := Insert(x, init);
        forall i | 0 <= i < |t| ensures t[i] < l {
          assert t[i] in multiset(t);
          assert t[i] == x || t[i] in init;
        }
      }
    }
  }

  lemma {:induction false} SortIncreasing(s: seq<nat>)
    requires Distinct(s)
    ensures Increasing(SortInts(s)) && multiset(SortInts(s)) == multiset(s)
  {
    if s != [] {
      var init, x := s[..|s| - 1], s[|s| - 1];
      assert s == init + [x];
      SortIncreasing(init);
      assert x !in multiset(init);
      assert forall y :: y in SortInts(init) <==> y in multiset(SortInts(init));
      InsertIncreasing(x, SortInts(init));
    }
  }

  // ----- The shape of a sample

  function At(dests: seq<Destination>, c: Class): nat -> bool {
    (i: nat) => i < |dests| && dests[i].class_ == c
  }

  lemma {:induction false} CountAllOrNone(p: nat -> bool, s: seq<nat>, all: bool)
    requires forall k :: 0 <= k < |s| ==> p(s[k]) == all
    ensures Count(p, s) == if all then |s| else 0
  {
    if s != [] { CountAllOrNone(p, s[..|s| - 1], all); }
  }

  /** One class's draw holds different positions of that class only. */
  lemma ClassDrawShape(dests: seq<Destination>, c: Class, sizes: map<Class, int>, tape: nat -> nat, used: nat)
    ensures var p := DrawClass(dests, c, sizes, tape, used).picked;
            Distinct(p) && forall k :: 0 <= k < |p| ==> At(dests, c)(p[k])
  {
    var idx, n := ClassIndices(dests, c), SampleCount(dests, c, sizes);
    if n < |idx| {
      TakeArranges(idx, Draws(tape, used, |idx|, n));
      var p := Take(idx, Draws(tape, used, |idx|, n));
      forall k | 0 <= k < |p| ensures At(dests, c)(p[k]) {
        assert p[k] in Elements(p);
        assert p[k] in Elements(idx);
      }
    }
  }

  lemma {:induction false} DrawShape(dests: seq<Destination>, classes: seq<Class>, sizes: map<Class, int>,
                                     tape: nat -> nat, used: nat)
    requires Distinct(classes)
    ensures var p := DrawClasses(dests, classes, sizes, tape, used).picked;
            && Distinct(p) && |p| == SumCounts(dests, classes, sizes)
            && (forall k :: 0 <= k < |p| ==> p[k] < |dests| && dests[p[k]].class_ in classes)
            && (forall c :: Count(At(dests, c), p) == if c in classes then SampleCount(dests, c, sizes) else 0)
  {
    if classes != [] {
      var init, c := classes[..|classes| - 1], classes[|classes| - 1];
      assert classes == init + [c] && c !in init;
      DrawShape(dests, init, sizes, tape, used);
      var before := DrawClasses(dests, init, sizes, tape, used);
      ClassDrawShape(dests, c, sizes, tape, before.used);
      var here := DrawClass(dests, c, sizes, tape, before.used).picked;
      forall e
        ensures Count(At(dests, e), before.picked + here) == if e in classes then SampleCount(dests, e, sizes) else 0
      {
        CountConcat(At(dests, e), before.picked, here);
        CountAllOrNone(At(dests, e), here, e == c);
      }
    }
  }

  ghost predicate IsSample(dests: seq<Destination>, sizes: map<Class, int>, chosen: seq<nat>) {
    && Increasing(chosen)
    && (forall k :: 0 <= k < |chosen| ==> chosen[k] < |dests|)
    && (forall c :: Count(At(dests, c), chosen) == SampleCount(dests, c, sizes))
    && |chosen| == SumCounts(dests, Classes(dests), sizes)
  }

  /** What a run must draw, class by class: as many as declared where that many are there, and the
      whole class where fewer are, or none or no size is declared. */
  ghost predicate DrawsDeclared(dests: seq<Destination>, sizes: map<Class, int>, chosen: seq<nat>) {
    && (forall c :: HasDeclared(dests, sizes, c) ==> Count(At(dests, c), chosen) == sizes[c])
    && (forall i :: 0 <= i < |dests| && !HasDeclared(dests, sizes, dests[i].class_) ==> i in chosen)
  }

  predicate HasDeclared(dests: seq<Destination>, sizes: map<Class, int>, c: Class) {
    c in sizes && 0 < sizes[c] <= Count(OfClass(c), dests)
  }

  lemma {:induction false} CountIsSize(p: nat -> bool, s: seq<nat>)
    requires Distinct(s)
    ensures Count(p, s) == |set x | x in s && p(x)|
  {
    if s != [] {
      var init, x := s[..|s| - 1], s[|s| - 1];
      assert s == init + [x] && x !in init;
      CountIsSize(p, init);
      assert (set y | y in s && p(y)) == (set y | y in init && p(y)) + if p(x) then {x} else {};
    }
  }

  lemma {:induction false} IndicesAreAll(dests: seq<Destination>, c: Class)
    ensures forall i :: 0 <= i < |dests| && dests[i].class_ == c ==> i in ClassIndices(dests, c)
  {
    if dests != [] {
      var n := |dests| - 1;
      IndicesAreAll(dests[..n], c);
      forall i | 0 <= i < |dests| && dests[i].class_ == c
        ensures i in ClassIndices(dests, c)
      {
        if i < n { assert dests[..n][i].class_ == c; }
      }
    }
  }

  /** Different positions of a class that are as many as the class has are all of them. */
  lemma AllOfClass(dests: seq<Destination>, c: Class, chosen: seq<nat>, i: nat)
    requires Distinct(chosen) && Count(At(dests, c), chosen) == Count(OfClass(c), dests)
    requires i < |dests| && dests[i].class_ == c
    ensures i in chosen
  {
    var idx, mine := ClassIndices(dests, c), set x | x in chosen && At(dests, c)(x);
    IndicesAreAll(dests, c);
    ElementsSize(idx);
    CountIsSize(At(dests, c), chosen);
    if i !in chosen {
      SubsetSize(mine, Elements(idx) - {i});
    }
  }

  lemma SampleIsDeclared(dests: seq<Destination>, sizes: map<Class, int>, chosen: seq<nat>)
    requires IsSample(dests, sizes, chosen)
    ensures DrawsDeclared(dests, sizes, chosen)
  {
    forall i | 0 <= i < |dests| && !HasDeclared(dests, sizes, dests[i].class_) ensures i in chosen {
      AllOfClass(dests, dests[i].class_, chosen, i);
    }
  }

  function Chosen(dests: seq<Destination>, sizes: map<Class, int>, tape: nat -> nat, used: nat): seq<nat> {
    SortInts(DrawClasses(dests, Classes(dests), sizes, tape, used).picked)
  }

  /** Whatever the table, the sizes and the draws: the sample is in table order without repeats,
      holds exactly the sample count of every class, and so has SamplePerRun entries; that is what
      is declared of each class, or all of it. */
  lemma SampleShape(dests: seq<Destination>, sizes: map<Class, int>, tape: nat -> nat, used: nat)
    ensures IsSample(dests, sizes, Chosen(dests, sizes, tape, used))
    ensures DrawsDeclared(dests, sizes, Chosen(dests, sizes, tape, used))
  {
    var classes := Classes(dests);
    ClassesPartition(dests);
    DrawShape(dests, classes, sizes, tape, used);
    var p := DrawClasses(dests, classes, sizes, tape, used).picked;
    SortIncreasing(p);
    SortKeeps(p, SortInts(p));
    forall c ensures Count(At(dests, c), SortInts(p)) == SampleCount(dests, c, sizes) {
      CountPermuted(At(dests, c), SortInts(p), p);
    }
    SampleIsDeclared(dests, sizes, SortInts(p));
  }

  lemma SortKeeps(p: seq<nat>, s: seq<nat>)
    requires multiset(p) == multiset(s)
    ensures |s| == |p| && forall k :: 0 <= k < |s| ==> s[k] in p
  {
    assert |multiset(s)| == |multiset(p)|;
    forall k | 0 <= k < |s| ensures s[k] in p {
      assert s[k] in multiset(p);
    }
  }

  /** The classes partition the table: with no sizes declared, a run is the whole table. */
  lemma {:induction false} CountsAddUp(dests: seq<Destination>, classes: seq<Class>)
    requires Distinct(classes)
    ensures SumCounts(dests, classes, map[]) <= |dests|
    ensures (forall c :: Count(OfClass(c), dests) > 0 ==> c in classes) ==> SumCounts(dests, classes, map[]) == |dests|
  {
    if dests == [] {
      NoDestinations(classes);
    } else {
      var init, d := dests[..|dests| - 1], dests[|dests| - 1];
      CountsAddUp(init, classes);
      OneMore(init, d, classes);
      assert init + [d] == dests;
      assert forall c :: Count(OfClass(c), init) <= Count(OfClass(c), dests);
      assert Count(OfClass(d.class_), dests) > 0;
    }
  }

  lemma {:induction false} NoDestinations(classes: seq<Class>)
    ensures SumCounts([], classes, map[]) == 0
  {
    if classes != [] { NoDestinations(classes[..|classes| - 1]); }
  }

  lemma {:induction false} OneMore(dests: seq<Destination>, d: Destination, classes: seq<Class>)
    requires Distinct(classes)
    ensures SumCounts(dests + [d], classes, map[]) ==
            SumCounts(dests, classes, map[]) + if d.class_ in classes then 1 else 0
  {
    if classes != [] {
      var init, c := classes[..|classes| - 1], classes[|classes| - 1];
      assert classes == init + [c] && c !in init;
      OneMore(dests, d, init);
      CountSnoc(OfClass(c), dests, d);
    }
  }

  lemma WholeTable(dests: seq<Destination>)
    ensures SumCounts(dests, Classes(dests), map[]) == |dests|
  {
    ClassesPartition(dests);
    CountsAddUp(dests, Classes(dests));
  }

  /** Every set of SampleCount positions of a class is the outcome of equally many draws, n! of
      them, and each of those draws is one the run can make, whatever it drew before. */
  lemma ClassSubsetEquallyLikely(dests: seq<Destination>, c: Class, sizes: map<Class, int>, s: set<nat>,
                                 before: seq<nat>)
    requires s <= Elements(ClassIndices(dests, c)) && |s| == SampleCount(dests, c, sizes) < Count(OfClass(c), dests)
    ensures |DrawsSelecting(ClassIndices(dests, c), s)| == Factorial(|s|)
    ensures forall ds :: ds in DrawsSelecting(ClassIndices(dests, c), s) ==>
              Elements(DrawClass(dests, c, sizes, TapeOf(before + ds), |before|).picked) == s
  {
    var idx := ClassIndices(dests, c);
    EverySubsetEquallyLikely(idx, s);
    forall ds | ds in DrawsSelecting(idx, s)
      ensures Elements(DrawClass(dests, c, sizes, TapeOf(before + ds), |before|).picked) == s
    {
      assert (before + ds)[|before|..] == ds;
      EveryDrawHasATape(|idx|, before + ds, |before|);
    }
  }

  // ----- The code

  method TableClasses(dests: seq<Destination>) returns (out: seq<Class>)
    ensures out == Classes(dests)
  {
    var seen: map<Class, bool> := map[];
    out := [];
    for i := 0 to |dests|
      invariant out == Classes(dests[..i])
      invariant forall c :: c in seen <==> c in out
    {
      assert dests[..i + 1][..i] == dests[..i];
      var c := dests[i].class_;
      if c in seen {
        continue;
      }
      seen := seen[c := true];
      out := out + [c];
    }
    assert dests[..|dests|] == dests;
  }

  method CountToDraw(dests: seq<Destination>, c: Class, sizes: map<Class, int>) returns (n: nat)
    ensures n == SampleCount(dests, c, sizes)
  {
    var total := 0;
    for i := 0 to |dests|
      invariant total == Count(OfClass(c), dests[..i])
    {
      assert dests[..i + 1][..i] == dests[..i];
      if dests[i].class_ == c {
        total := total + 1;
      }
    }
    assert dests[..|dests|] == dests;
    if c !in sizes || sizes[c] <= 0 || total < sizes[c] {
      return total;
    }
    return sizes[c];
  }

  method SamplePerRun(dests: seq<Destination>, sizes: map<Class, int>) returns (n: nat)
    ensures n == SumCounts(dests, Classes(dests), sizes)
  {
    n := 0;
    var classes := TableClasses(dests);
    for i := 0 to |classes|
      invariant n == SumCounts(dests, classes[..i], sizes)
    {
      assert classes[..i + 1][..i] == classes[..i];
      var k := CountToDraw(dests, classes[i], sizes);
      n := n + k;
    }
    assert classes[..|classes|] == classes;
  }

  /** n positions of one class: all of them when it has no more, else a random draw. */
  method DrawPositions(idx: seq<nat>, n: nat, rand: Rand) returns (picks: seq<nat>)
    modifies rand
    ensures Drawn(picks, rand.used) == DrawFrom(idx, n, rand.tape, old(rand.used))
  {
    if n >= |idx| {
      return idx;
    }
    var shuffled := new nat[|idx|](k requires 0 <= k < |idx| => idx[k]);
    assert shuffled[..] == idx;
    PartialShuffle(shuffled, n, rand);
    picks := shuffled[..n];
  }

  lemma DrawNext(dests: seq<Destination>, classes: seq<Class>, i: nat, sizes: map<Class, int>, tape: nat -> nat,
                 used: nat)
    requires i < |classes|
    ensures var before := DrawClasses(dests, classes[..i], sizes, tape, used);
            var n := SampleCount(dests, classes[i], sizes);
            var here := DrawFrom(ClassIndices(dests, classes[i]), n, tape, before.used);
            DrawClasses(dests, classes[..i + 1], sizes, tape, used) == Drawn(before.picked + here.picked, here.used)
  {
    assert classes[..i + 1][..i] == classes[..i];
  }

  method PickIndices(dests: seq<Destination>, sizes: map<Class, int>, rand: Rand) returns (picked: seq<nat>)
    modifies rand
    ensures picked == DrawClasses(dests, Classes(dests), sizes, rand.tape, old(rand.used)).picked
  {
    ghost var start := rand.used;
    var byClass := IndexByClass(dests);
    var classes := TableClasses(dests);
    picked := [];
    for i := 0 to |classes|
      invariant Drawn(picked, rand.used) == DrawClasses(dests, classes[..i], sizes, rand.tape, start)
    {
      DrawNext(dests, classes, i, sizes, rand.tape, start);
      var c := classes[i];
      var idx := if c in byClass then byClass[c] else [];
      var n := CountToDraw(dests, c, sizes);
      var picks := DrawPositions(idx, n, rand);
      picked := picked + picks;
    }
    assert classes[..|classes|] == classes;
  }

  method SampleDestinations(dests: seq<Destination>, sizes: map<Class, int>, rand: Rand)
    returns (out: seq<Destination>, ghost chosen: seq<nat>)
    modifies rand
    ensures chosen == Chosen(dests, sizes, rand.tape, old(rand.used)) && IsSample(dests, sizes, chosen)
    ensures DrawsDeclared(dests, sizes, chosen)
    ensures |out| == |chosen| && forall k :: 0 <= k < |out| ==> out[k] == dests[chosen[k]]
  {
    SampleShape(dests, sizes, rand.tape, rand.used);
    var picked := PickIndices(dests, sizes, rand);
    picked := SortInts(picked);
    chosen := picked;
    out := Rows(dests, picked);
  }

  method Rows(dests: seq<Destination>, picked: seq<nat>) returns (out: seq<Destination>)
    requires forall k :: 0 <= k < |picked| ==> picked[k] < |dests|
    ensures |out| == |picked| && forall k :: 0 <= k < |out| ==> out[k] == dests[picked[k]]
  {
    out := [];
    for k := 0 to |picked|
      invariant |out| == k && forall j :: 0 <= j < k ==> out[j] == dests[picked[j]]
    {
      out := out + [dests[picked[k]]];
    }
  }

  method IndexByClass(dests: seq<Destination>) returns (byClass: map<Class, seq<nat>>)
    ensures forall c :: (if c in byClass then byClass[c] else []) == ClassIndices(dests, c)
  {
    byClass := map[];
    for i := 0 to |dests|
      invariant forall c :: (if c in byClass then byClass[c] else []) == ClassIndices(dests[..i], c)
    {
      assert dests[..i + 1][..i] == dests[..i];
      var c := dests[i].class_;
      byClass := byClass[c := (if c in byClass then byClass[c] else []) + [i]];
    }
    assert dests[..|dests|] == dests;
  }
}
