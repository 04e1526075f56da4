/** Tallying one run's outcomes (check, orderedClasses and FailedNames of
    egresshealth/egresshealth.go). */
module Tally {
  import opened Counting
  import opened Sampling

  const REPUTATION: Class := "reputation"

  predicate Scored(c: Class) { c != REPUTATION }

  datatype CheckResult = CheckResult(name: string, class_: Class, ok: bool)

  datatype ClassSummary = ClassSummary(ok: nat, total: nat)

  datatype Result = Result(
    checks: seq<CheckResult>, okCount: nat, total: nat, byClass: map<Class, ClassSummary>, reputation: ClassSummary)

  /** One outcome a destination, under the destination's name and class. */
  ghost predicate Outcomes(dests: seq<Destination>, results: seq<CheckResult>) {
    |results| == |dests| && forall i :: 0 <= i < |dests| ==>
      results[i].name == dests[i].name && results[i].class_ == dests[i].class_
  }

  function InClass(c: Class): CheckResult -> bool {
    (r: CheckResult) => r.class_ == c
  }

  function OkIn(c: Class): CheckResult -> bool {
    (r: CheckResult) => r.class_ == c && r.ok
  }

  function IsScored(): CheckResult -> bool {
    (r: CheckResult) => Scored(r.class_)
  }

  function IsScoredOk(): CheckResult -> bool {
    (r: CheckResult) => Scored(r.class_) && r.ok
  }

  /** ok/total of one class. */
  function Summary(results: seq<CheckResult>, c: Class): ClassSummary {
    ClassSummary(Count(OkIn(c), results), Count(InClass(c), results))
  }

  /** What the tally of a run must say. */
  ghost predicate IsTally(results: seq<CheckResult>, t: Result) {
    && t.checks == results
    && t.total == Count(IsScored(), results) && t.okCount == Count(IsScoredOk(), results)
    && (forall c :: c in t.byClass <==> Scored(c) && Count(InClass(c), results) > 0)
    && (forall c :: c in t.byClass ==> t.byClass[c] == Summary(results, c))
    && t.reputation == Summary(results, REPUTATION)
  }

  // ----- The code

  /** The requests are made by goroutines that finish in any order, each writing its own slot;
      passed[i] is what judging destination i comes to. */
  method RunChecks(dests: seq<Destination>, passed: seq<bool>) returns (results: seq<CheckResult>)
    requires |passed| == |dests|
    ensures Outcomes(dests, results) && forall i :: 0 <= i < |dests| ==> results[i].ok == passed[i]
  {
    var slots := new CheckResult[|dests|](i => CheckResult("", "", false));
    var running := Range(|dests|);
    while running != {}
      invariant running <= Range(|dests|)
      invariant forall i :: 0 <= i < |dests| && i !in running ==>
                  slots[i] == CheckResult(dests[i].name, dests[i].class_, passed[i])
      decreases |running|
    {
      var i :| i in running;
      slots[i] := CheckResult(dests[i].name, dests[i].class_, passed[i]);
      running := running - {i};
    }
    results := slots[..];
  }

  /** The totals are taken from the sample, so that a class in which everything failed still
      appears as 0/n. */
  method SeedTotals(dests: seq<Destination>, ghost results: seq<CheckResult>)
    returns (byClass: map<Class, ClassSummary>, reputationTotal: nat, total: nat)
    requires Outcomes(dests, results)
    ensures total == Count(IsScored(), results) && reputationTotal == Count(InClass(REPUTATION), results)
    ensures forall c :: c in byClass <==> Scored(c) && Count(InClass(c), results) > 0
    ensures forall c :: c in byClass ==> byClass[c] == ClassSummary(0, Count(InClass(c), results))
  {
    byClass, reputationTotal, total := map[], 0, 0;
    for i := 0 to |dests|
      invariant total == Count(IsScored(), results[..i]) && reputationTotal == Count(InClass(REPUTATION), results[..i])
      invariant forall c :: c in byClass <==> Scored(c) && Count(InClass(c), results[..i]) > 0
      invariant forall c :: c in byClass ==> byClass[c] == ClassSummary(0, Count(InClass(c), results[..i]))
    {
      assert results[..i + 1][..i] == results[..i];
      var c := dests[i].class_;
      if !Scored(c) {
        reputationTotal := reputationTotal + 1;
        continue;
      }
      total := total + 1;
      byClass := byClass[c := ClassSummary(0, (if c in byClass then byClass[c].total else 0) + 1)];
    }
    assert results[..|dests|] == results;
  }

  method TallyRun(dests: seq<Destination>, results: seq<CheckResult>) returns (t: Result)
    requires Outcomes(dests, results)
    ensures IsTally(results, t)
  {
    var byClass, reputationTotal, total := SeedTotals(dests, results);
    var okCount, reputationOk := 0, 0;
    for i := 0 to |results|
      invariant okCount == Count(IsScoredOk(), results[..i]) && reputationOk == Count(OkIn(REPUTATION), results[..i])
      invariant forall c :: c in byClass <==> Scored(c) && Count(InClass(c), results) > 0
      invariant forall c :: c in byClass ==>
        byClass[c] == ClassSummary(Count(OkIn(c), results[..i]), Count(InClass(c), results))
    {
      assert results[..i + 1][..i] == results[..i];
      var r := results[i];
      if !r.ok {
        continue;
      }
      if !Scored(r.class_) {
        reputationOk := reputationOk + 1;
        continue;
      }
      okCount := okCount + 1;
      assert InClass(r.class_)(results[i]);
      CountPositive(InClass(r.class_), results);
      byClass := byClass[r.class_ := byClass[r.class_].(ok := byClass[r.class_].ok + 1)];
    }
    assert results[..|results|] == results;
    t := Result(results, okCount, total, byClass, ClassSummary(reputationOk, reputationTotal));
  }

  // ----- Reading a result

  /** The declared order of the scored classes. */
  const DECLARED: seq<Class> := ["dns", "connectivity", "cdn", "site"]

  predicate StringsIncreasing(s: seq<string>) {
    forall i, j :: 0 <= i < j < |s| ==> Less(s[i], s[j])
  }

  function InsertString(x: string, s: seq<string>): seq<string> {
    if s == [] || !Less(x, s[|s| - 1]) then s + [x] else InsertString(x, s[..|s| - 1]) + [s[|s| - 1]]
  }

  /** sort.Strings */
  function SortStrings(s: seq<string>): seq<string> {
    if s == [] then [] else InsertString(s[|s| - 1], SortStrings(s[..|s| - 1]))
  }

  lemma {:induction false} InsertStringIncreasing(x: string, s: seq<string>)
    requires StringsIncreasing(s) && x !in s
    ensures StringsIncreasing(InsertString(x, s)) && forall y :: y in InsertString(x, s) <==> y == x || y in s
  {
    if s != [] {
      var init, l := s[..|s| - 1], s[|s| - 1];
      LessTotal(x, l);
      if Less(x, l) {
        InsertStringIncreasing(x, init);
        var t := InsertString(x, init);
        forall i | 0 <= i < |t| ensures Less(t[i], l) { assert t[i] == x || t[i] in init; }
      } else {
        forall i | 0 <= i < |init| ensures Less(s[i], x) { LessTransitive(s[i], l, x); }
      }
    }
  }

  lemma {:induction false} SortStringsIncreasing(s: seq<string>)
    requires Distinct(s)
    ensures StringsIncreasing(SortStrings(s)) && forall y :: y in SortStrings(s) <==> y in s
  {
    if s != [] {
      var init, x := s[..|s| - 1], s[|s| - 1];
      SortStringsIncreasing(init);
      assert forall y :: y in s <==> y in init || y == x;
      InsertStringIncreasing(x, SortStrings(init));
    }
  }

  /** The declared classes that are present come first, in declared order, then all others
      sorted: an order that the map's own iteration order cannot influence. */
  ghost predicate IsOrder(byClass: map<Class, ClassSummary>, out: seq<Class>) {
    exists n | 0 <= n <= |out| ::
      && out[..n] == KeepKeys(DECLARED, byClass) && StringsIncreasing(out[n..])
      && forall c :: c in out[n..] <==> c in byClass && c !in DECLARED
  }

  function KeepKeys(order: seq<Class>, byClass: map<Class, ClassSummary>): seq<Class> {
    if order == [] then []
    else
      var init, c := KeepKeys(order[..|order| - 1], byClass), order[|order| - 1];
      if c in byClass then init + [c] else init
  }

  method OrderedClasses(byClass: map<Class, ClassSummary>) returns (out: seq<Class>)
    ensures IsOrder(byClass, out)
  {
    out := [];
    var declared: set<Class> := {};
    for i := 0 to |DECLARED|
      invariant out == KeepKeys(DECLARED[..i], byClass)
      invariant forall c :: c in declared <==> c in DECLARED[..i]
    {
      assert DECLARED[..i + 1][..i] == DECLARED[..i];
      var c := DECLARED[i];
      declared := declared + {c};
      if c in byClass {
        out := out + [c];
      }
    }
    assert DECLARED[..|DECLARED|] == DECLARED;
    var extra: seq<Class> := [];
    var rest := byClass.Keys;
    while rest != {}
      invariant rest <= byClass.Keys && Distinct(extra)
      invariant forall c :: c in extra <==> c in byClass.Keys - rest && c !in DECLARED
      decreases |rest|
    {
      var c :| c in rest;
      rest := rest - {c};
      if c !in declared {
        extra := extra + [c];
      }
    }
    SortStringsIncreasing(extra);
    ghost var n := |out|;
    out := out + SortStrings(extra);
    assert out[..n] == KeepKeys(DECLARED, byClass) && out[n..] == SortStrings(extra);
  }

  function Failures(results: seq<CheckResult>, scored: bool): seq<CheckResult> {
    if results == [] then []
    else
      var init, r := Failures(results[..|results| - 1], scored), results[|results| - 1];
      if !r.ok && Scored(r.class_) == scored then init + [r] else init
  }

  method FailedNames(results: seq<CheckResult>, scored: bool) returns (names: seq<string>)
    ensures |names| == |Failures(results, scored)|
    ensures forall k :: 0 <= k < |names| ==> names[k] == Failures(results, scored)[k].name
  {
    names := [];
    for i := 0 to |results|
      invariant |names| == |Failures(results[..i], scored)|
      invariant forall k :: 0 <= k < |names| ==> names[k] == Failures(results[..i], scored)[k].name
    {
      assert results[..i + 1][..i] == results[..i];
      if !results[i].ok && Scored(results[i].class_) == scored {
        names := names + [results[i].name];
      }
    }
    assert results[..|results|] == results;
  }

  // ----- Conservation

  lemma {:induction false} KeepKeysIsFilter(order: seq<Class>, byClass: map<Class, ClassSummary>)
    requires Distinct(order)
    ensures Distinct(KeepKeys(order, byClass))
      && forall c :: c in KeepKeys(order, byClass) <==> c in order && c in byClass
  {
    if order != [] {
      var init, c := order[..|order| - 1], order[|order| - 1];
      KeepKeysIsFilter(init, byClass);
      assert order == init + [c] && c !in init;
    }
  }

  /** The order lists every key once. */
  lemma OrderIsKeys(byClass: map<Class, ClassSummary>, out: seq<Class>)
    requires IsOrder(byClass, out)
    ensures Distinct(out) && forall c :: c in out <==> c in byClass
  {
    var n :| 0 <= n <= |out| && out[..n] == KeepKeys(DECLARED, byClass) && StringsIncreasing(out[n..])
             && forall c :: c in out[n..] <==> c in byClass && c !in DECLARED;
    KeepKeysIsFilter(DECLARED, byClass);
    var a, b := out[..n], out[n..];
    assert out == a + b;
    forall s, t | Less(s, t) ensures s != t { LessTotal(s, t); }
    DistinctConcat(a, b);
  }

  function SumOk(results: seq<CheckResult>, classes: seq<Class>): nat {
    if classes == [] then 0 else SumOk(results, classes[..|classes| - 1]) + Count(OkIn(classes[|classes| - 1]), results)
  }

  function SumTotal(results: seq<CheckResult>, classes: seq<Class>): nat {
    if classes == [] then 0
    else SumTotal(results, classes[..|classes| - 1]) + Count(InClass(classes[|classes| - 1]), results)
  }

  lemma {:induction false} SumsStep(results: seq<CheckResult>, r: CheckResult, classes: seq<Class>)
    requires Distinct(classes)
    ensures SumOk(results + [r], classes) == SumOk(results, classes) + if r.class_ in classes && r.ok then 1 else 0
    ensures SumTotal(results + [r], classes) == SumTotal(results, classes) + if r.class_ in classes then 1 else 0
  {
    if classes != [] {
      var init, c := classes[..|classes| - 1], classes[|classes| - 1];
      assert classes == init + [c] && c !in init;
      SumsStep(results, r, init);
      CountSnoc(OkIn(c), results, r);
      CountSnoc(InClass(c), results, r);
    }
  }

  lemma {:induction false} SumsAddUp(results: seq<CheckResult>, classes: seq<Class>)
    requires Distinct(classes) && forall k :: 0 <= k < |results| ==>
      (results[k].class_ in classes <==> Scored(results[k].class_))
    ensures SumOk(results, classes) == Count(IsScoredOk(), results)
      && SumTotal(results, classes) == Count(IsScored(), results)
  {
    if results == [] {
      NoResults(classes);
    } else {
      var init, r := results[..|results| - 1], results[|results| - 1];
      assert init + [r] == results;
      SumsAddUp(init, classes);
      SumsStep(init, r, classes);
    }
  }

  lemma {:induction false} NoResults(classes: seq<Class>)
    ensures SumOk([], classes) == 0 && SumTotal([], classes) == 0
  {
    if classes != [] { NoResults(classes[..|classes| - 1]); }
  }

  /** The per-class figures on the summary line add up to ok=N/M exactly. */
  lemma ClassesAddUp(results: seq<CheckResult>, t: Result, out: seq<Class>)
    requires IsTally(results, t) && IsOrder(t.byClass, out)
    ensures SumOk(results, out) == t.okCount && SumTotal(results, out) == t.total
    ensures forall c :: c in out ==> c in t.byClass && t.byClass[c] == Summary(results, c)
  {
    OrderIsKeys(t.byClass, out);
    forall k | 0 <= k < |results| ensures results[k].class_ in out <==> Scored(results[k].class_) {
      assert InClass(results[k].class_)(results[k]);
      CountPositive(InClass(results[k].class_), results);
    }
    SumsAddUp(results, out);
  }

  /** Every destination is accounted for once: passed or named as failed, scored or not. */
  lemma {:induction false} NothingLost(results: seq<CheckResult>)
    ensures Count(IsScoredOk(), results) + |Failures(results, true)| == Count(IsScored(), results)
    ensures Count(OkIn(REPUTATION), results) + |Failures(results, false)| == Count(InClass(REPUTATION), results)
    ensures Count(IsScored(), results) + Count(InClass(REPUTATION), results) == |results|
  {
    if results != [] { NothingLost(results[..|results| - 1]); }
  }

  // ----- The unscored class cannot influence the score

  function ScoredOnly(results: seq<CheckResult>): seq<CheckResult> {
    if results == [] then []
    else
      var init, r := ScoredOnly(results[..|results| - 1]), results[|results| - 1];
      if Scored(r.class_) then init + [r] else init
  }

  lemma {:induction false} CountScoredOnly(p: CheckResult -> bool, results: seq<CheckResult>)
    requires forall r :: p(r) ==> Scored(r.class_)
    ensures Count(p, ScoredOnly(results)) == Count(p, results)
  {
    if results != [] {
      var init, r := results[..|results| - 1], results[|results| - 1];
      CountScoredOnly(p, init);
      if Scored(r.class_) { CountSnoc(p, ScoredOnly(init), r); }
    }
  }

  lemma {:induction false} FailuresScoredOnly(results: seq<CheckResult>)
    ensures Failures(ScoredOnly(results), true) == Failures(results, true)
  {
    if results != [] {
      var init, r := results[..|results| - 1], results[|results| - 1];
      FailuresScoredOnly(init);
      if Scored(r.class_) { assert (ScoredOnly(init) + [r])[..|ScoredOnly(init)|] == ScoredOnly(init); }
    }
  }

  /** Two runs with the same scored outcomes have the same score, per-class tallies and failure
      list, whatever reputation outcomes were added, removed or altered. */
  lemma ReputationCannotInfluence(results: seq<CheckResult>, results': seq<CheckResult>, t: Result, t': Result)
    requires IsTally(results, t) && IsTally(results', t') && ScoredOnly(results) == ScoredOnly(results')
    ensures t.okCount == t'.okCount && t.total == t'.total && t.byClass == t'.byClass
    ensures Failures(results, true) == Failures(results', true)
  {
    CountScoredOnly(IsScored(), results);
    CountScoredOnly(IsScored(), results');
    CountScoredOnly(IsScoredOk(), results);
    CountScoredOnly(IsScoredOk(), results');
    forall c | Scored(c) ensures Summary(results, c) == Summary(results', c) {
      CountScoredOnly(OkIn(c), results);
      CountScoredOnly(OkIn(c), results');
      CountScoredOnly(InClass(c), results);
      CountScoredOnly(InClass(c), results');
    }
    assert forall c :: Scored(c) ==> Count(InClass(c), results) == Summary(results, c).total;
    assert forall c :: Scored(c) ==> Count(InClass(c), results') == Summary(results', c).total;
    assert t.byClass.Keys == t'.byClass.Keys;
    FailuresScoredOnly(results);
    FailuresScoredOnly(results');
  }

  lemma {:induction false} CountIsPositions<T>(p: T -> bool, s: seq<T>, at: set<nat>)
    requires forall k :: k in at <==> 0 <= k < |s| && p(s[k])
    ensures Count(p, s) == |at|
  {
    if s != [] {
      var n := |s| - 1;
      CountIsPositions(p, s[..n], at - {n});
      assert n !in at ==> at - {n} == at;
    }
  }

  function Passing(results: seq<CheckResult>): set<nat> {
    set k | 0 <= k < |results| && results[k].ok
  }

  function OfReputation(results: seq<CheckResult>): set<nat> {
    set k | 0 <= k < |results| && results[k].class_ == "reputation"
  }

  /** The score is how many checks passed out of all that are not reputation checks; those are
      counted apart. */
  lemma ScoreIs(results: seq<CheckResult>, t: Result)
    requires IsTally(results, t)
    ensures t.total == |Range(|results|) - OfReputation(results)|
    ensures t.okCount == |Passing(results) - OfReputation(results)|
    ensures t.reputation == ClassSummary(|Passing(results) * OfReputation(results)|, |OfReputation(results)|)
  {
    AllScored(results);
    PassingScored(results);
    AllReputation(results);
    PassingReputation(results);
  }

  lemma AllScored(results: seq<CheckResult>)
    ensures Count(IsScored(), results) == |Range(|results|) - OfReputation(results)|
  {
    CountIsPositions(IsScored(), results, Range(|results|) - OfReputation(results));
  }

  lemma PassingScored(results: seq<CheckResult>)
    ensures Count(IsScoredOk(), results) == |Passing(results) - OfReputation(results)|
  {
    CountIsPositions(IsScoredOk(), results, Passing(results) - OfReputation(results));
  }

  lemma AllReputation(results: seq<CheckResult>)
    ensures Count(InClass(REPUTATION), results) == |OfReputation(results)|
  {
    CountIsPositions(InClass(REPUTATION), results, OfReputation(results));
  }

  lemma PassingReputation(results: seq<CheckResult>)
    ensures Count(OkIn(REPUTATION), results) == |Passing(results) * OfReputation(results)|
  {
    CountIsPositions(OkIn(REPUTATION), results, Passing(results) * OfReputation(results));
  }

  /** The failures listed are those of the checks that did not pass, health or reputation checks
      as asked for, each once and in table order. */
  lemma {:induction false} FailuresInOrder(results: seq<CheckResult>, scored: bool) returns (at: seq<nat>)
    ensures Increasing(at) && |at| == |Failures(results, scored)|
    ensures forall k :: 0 <= k < |at| ==> at[k] < |results| && Failures(results, scored)[k] == results[at[k]]
    ensures forall i :: i in at <==>
      0 <= i < |results| && !results[i].ok && (results[i].class_ != "reputation") == scored
  {
    at := [];
    if results != [] {
      var n := |results| - 1;
      var init := FailuresInOrder(results[..n], scored);
      at := init;
      if !results[n].ok && (results[n].class_ != "reputation") == scored {
        at := init + [n];
      }
    }
  }
}
