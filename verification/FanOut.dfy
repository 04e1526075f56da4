/** The bounded fan-out of one egress-health run against its deadline (check and
    BudgetForAllDestinations in egresshealth/egresshealth.go, egressHealthOptions in
    cmd/egress-prober/main.go). Times are nanoseconds from the start of the run. */
module FanOut {
  import opened Counting

  /** n requests through c slots, each lasting at most p. */
  datatype Config = Config(n: nat, c: nat, p: nat) {
    predicate Valid() { n > 0 && c > 0 && p > 0 }
  }

  /** Requests are numbered in the order in which they were admitted. */
  datatype State = State(time: nat, starts: seq<nat>, running: set<nat>)

  datatype Event = Admit | Finish(k: nat) | Tick(d: nat)

  const INITIAL := State(0, [], {})

  /** A request lasts at most p, and time does not pass while a slot is free and a request is
      waiting for one. Which request is admitted and when one finishes is arbitrary. */
  predicate Enabled(cfg: Config, s: State, e: Event) {
    match e
    case Admit => |s.starts| < cfg.n && |s.running| < cfg.c
    case Finish(k) => k in s.running
    case Tick(d) =>
      && (|s.starts| == cfg.n || |s.running| == cfg.c)
      && forall k :: k in s.running && k < |s.starts| ==> s.time + d <= s.starts[k] + cfg.p
  }

  function Next(s: State, e: Event): State {
    match e
    case Admit => s.(starts := s.starts + [s.time], running := s.running + {|s.starts|})
    case Finish(k) => s.(running := s.running - {k})
    case Tick(d) => s.(time := s.time + d)
  }

  function After(es: seq<Event>): State {
    if es == [] then INITIAL else Next(After(es[..|es| - 1]), es[|es| - 1])
  }

  ghost predicate Legal(cfg: Config, es: seq<Event>) {
    es == [] || (Legal(cfg, es[..|es| - 1]) && Enabled(cfg, After(es[..|es| - 1]), es[|es| - 1]))
  }

  /** The list-scheduling invariant: request k starts within floor(k / c) rounds, and while some
      request waits the clock has not passed the round of the next one. */
  ghost predicate OnSchedule(cfg: Config, s: State)
    requires cfg.Valid()
  {
    && |s.starts| <= cfg.n && |s.running| <= cfg.c
    && (forall k :: k in s.running ==> k < |s.starts| && s.time <= s.starts[k] + cfg.p)
    && (forall k :: 0 <= k < |s.starts| ==> s.starts[k] <= (k / cfg.c) * cfg.p)
    && (|s.starts| < cfg.n ==> s.time <= (|s.starts| / cfg.c) * cfg.p)
  }

  /** Among c different numbers below a, one is at most a - c. */
  lemma SomeEarly(s: set<nat>, a: nat, c: nat) returns (k: nat)
    requires |s| == c > 0 && forall x :: x in s ==> x < a
    ensures k in s && k + c <= a
  {
    if forall x :: x in s ==> x + c > a {
      var lo := if a < c then 0 else a - c + 1;
      var late := Range(a) - Range(lo);
      SubsetSize(s, late);
      RangeDifference(a, lo);
    }
    k :| k in s && k + c <= a;
  }

  lemma RangeDifference(a: nat, lo: nat)
    requires lo <= a
    ensures |Range(a) - Range(lo)| == a - lo
  {
    assert Range(a) * Range(lo) == Range(lo);
  }

  lemma MulMonotone(a: nat, b: nat, p: nat)
    requires a <= b
    ensures a * p <= b * p
  {
  }

  lemma QuotientUnique(x: nat, c: nat, q: nat, r: nat)
    requires c > 0 && x == q * c + r && r < c
    ensures x / c == q
  {
    var q', r' := x / c, x % c;
    assert x == q' * c + r' && r' < c;
    assert (q' + 1) * c == q' * c + c && (q + 1) * c == q * c + c;
    if q' < q {
      MulMonotone(q' + 1, q, c);
    } else if q < q' {
      MulMonotone(q + 1, q', c);
    }
  }

  lemma DivPlusOne(k: nat, c: nat)
    requires c > 0
    ensures (k + c) / c == k / c + 1
  {
    assert k == (k / c) * c + k % c;
    assert (k / c + 1) * c == (k / c) * c + c;
    QuotientUnique(k + c, c, k / c + 1, k % c);
  }

  lemma {:induction false} DivMonotone(k: nat, m: nat, c: nat)
    requires k <= m && c > 0
    ensures k / c <= m / c
  {
    if k < c {
      QuotientUnique(k, c, 0, k);
    } else {
      DivMonotone(k - c, m - c, c);
      DivPlusOne(k - c, c);
      DivPlusOne(m - c, c);
    }
  }

  /** Rounds are monotone in the request's number. */
  lemma RoundMonotone(k: nat, m: nat, c: nat, p: nat)
    requires k <= m && c > 0
    ensures (k / c) * p <= (m / c) * p
  {
    DivMonotone(k, m, c);
    MulMonotone(k / c, m / c, p);
  }

  lemma NextRound(k: nat, a: nat, c: nat, p: nat)
    requires k + c <= a && c > 0
    ensures (k / c) * p + p <= (a / c) * p
  {
    RoundMonotone(k + c, a, c, p);
    DivPlusOne(k, c);
    assert (k / c + 1) * p == (k / c) * p + p;
  }

  lemma StepOnSchedule(cfg: Config, s: State, e: Event)
    requires cfg.Valid() && OnSchedule(cfg, s) && Enabled(cfg, s, e)
    ensures OnSchedule(cfg, Next(s, e))
  {
    var a := |s.starts|;
    match e
    case Admit =>
      RoundMonotone(a, a + 1, cfg.c, cfg.p);
    case Finish(k) =>
    case Tick(d) =>
      if a < cfg.n {
        var k := SomeEarly(s.running, a, cfg.c);
        NextRound(k, a, cfg.c, cfg.p);
      }
  }

  /** In every run, request k is admitted by floor(k / c) * p. */
  lemma {:induction false} AdmittedInTime(cfg: Config, es: seq<Event>)
    requires cfg.Valid() && Legal(cfg, es)
    ensures OnSchedule(cfg, After(es))
  {
    if es != [] {
      AdmittedInTime(cfg, es[..|es| - 1]);
      StepOnSchedule(cfg, After(es[..|es| - 1]), es[|es| - 1]);
    } else {
      assert 0 <= (0 / cfg.c) * cfg.p;
    }
  }

  // ----- The bound is attained

  /** At time t, after `base` requests have come and gone and r further ones were admitted. */
  ghost predicate WorstCase(base: nat, t: nat, r: nat, s: State) {
    && s.time == t && |s.starts| == base + r
    && |s.running| == r && (forall k :: k in s.running <==> base <= k < base + r)
    && forall k :: base <= k < base + r ==> s.starts[k] == t
  }

  lemma AdmitWorst(cfg: Config, base: nat, t: nat, r: nat, s: State)
    requires WorstCase(base, t, r, s) && r < cfg.c && base + r < cfg.n
    ensures Enabled(cfg, s, Admit) && WorstCase(base, t, r + 1, Next(s, Admit))
  {
  }

  lemma TickWorst(cfg: Config, base: nat, t: nat, s: State)
    requires WorstCase(base, t, cfg.c, s)
    ensures Enabled(cfg, s, Tick(cfg.p)) && WorstCase(base + cfg.c, t + cfg.p, 0, Next(s, Tick(cfg.p)).(running := {}))
  {
  }

  lemma AppendLegal(cfg: Config, es: seq<Event>, e: Event)
    requires Legal(cfg, es) && Enabled(cfg, After(es), e)
    ensures Legal(cfg, es + [e]) && After(es + [e]) == Next(After(es), e)
  {
    assert (es + [e])[..|es|] == es;
  }

  lemma {:induction false} FinishAll(cfg: Config, es: seq<Event>) returns (es': seq<Event>)
    requires Legal(cfg, es)
    ensures Legal(cfg, es') && After(es') == After(es).(running := {})
    decreases |After(es).running|
  {
    es' := es;
    if After(es).running != {} {
      var k :| k in After(es).running;
      AppendLegal(cfg, es, Finish(k));
      es' := FinishAll(cfg, es + [Finish(k)]);
    }
  }

  function Times(q: nat, c: nat): nat {
    if q == 0 then 0 else Times(q - 1, c) + c
  }

  lemma {:induction false} TimesIsProduct(q: nat, c: nat)
    ensures Times(q, c) == q * c
  {
    if q > 0 {
      TimesIsProduct(q - 1, c);
      assert (q - 1) * c + c == q * c;
    }
  }

  /** Every request lasting p, r requests into round q. */
  lemma {:induction false} ReachWorstCase(cfg: Config, q: nat, r: nat) returns (es: seq<Event>)
    requires cfg.Valid() && r <= cfg.c && Times(q, cfg.c) + r <= cfg.n
    ensures Legal(cfg, es) && WorstCase(Times(q, cfg.c), Times(q, cfg.p), r, After(es))
    decreases q, r
  {
    if r > 0 {
      es := ReachWorstCase(cfg, q, r - 1);
      AdmitWorst(cfg, Times(q, cfg.c), Times(q, cfg.p), r - 1, After(es));
      AppendLegal(cfg, es, Admit);
      es := es + [Admit];
    } else if q > 0 {
      es := ReachWorstCase(cfg, q - 1, cfg.c);
      TickWorst(cfg, Times(q - 1, cfg.c), Times(q - 1, cfg.p), After(es));
      AppendLegal(cfg, es, Tick(cfg.p));
      es := FinishAll(cfg, es + [Tick(cfg.p)]);
    } else {
      es := [];
    }
  }

  // ----- Deadlines

  function Rounds(n: nat, c: nat): nat
    requires c > 0
  {
    (n + c - 1) / c
  }

  /** No request's own deadline is cut short by the run's budget, in any run. */
  ghost predicate NeverCut(cfg: Config, budget: int) {
    forall es, k :: Legal(cfg, es) && 0 <= k < |After(es).starts| ==> After(es).starts[k] + cfg.p <= budget
  }

  lemma LastRound(n: nat, c: nat)
    requires n > 0 && c > 0
    ensures Rounds(n, c) == (n - 1) / c + 1
  {
    DivPlusOne(n - 1, c);
  }

  lemma CutInLastRound(cfg: Config) returns (es: seq<Event>)
    requires cfg.Valid()
    ensures Legal(cfg, es) && |After(es).starts| == cfg.n
      && After(es).starts[cfg.n - 1] == ((cfg.n - 1) / cfg.c) * cfg.p
  {
    var q, r := (cfg.n - 1) / cfg.c, (cfg.n - 1) % cfg.c;
    TimesIsProduct(q, cfg.c);
    TimesIsProduct(q, cfg.p);
    assert cfg.n - 1 == q * cfg.c + r;
    es := ReachWorstCase(cfg, q, r + 1);
  }

  /** A run never cuts a request exactly when its budget covers all its rounds. */
  lemma NeverCutIffRoundsFit(cfg: Config, budget: int)
    requires cfg.Valid()
    ensures NeverCut(cfg, budget) <==> Rounds(cfg.n, cfg.c) * cfg.p <= budget
  {
    var last := ((cfg.n - 1) / cfg.c) * cfg.p;
    LastRound(cfg.n, cfg.c);
    assert Rounds(cfg.n, cfg.c) * cfg.p == last + cfg.p;
    if last + cfg.p <= budget {
      forall es, k | Legal(cfg, es) && 0 <= k < |After(es).starts| ensures After(es).starts[k] + cfg.p <= budget {
        AdmittedInTime(cfg, es);
        RoundMonotone(k, cfg.n - 1, cfg.c, cfg.p);
      }
    } else {
      var es := CutInLastRound(cfg);
      assert After(es).starts[cfg.n - 1] + cfg.p > budget;
    }
  }

  /** The run's context ends a request at the budget if its own deadline has not: while one is
      running, time does not pass the budget. */
  predicate CutEnabled(cfg: Config, budget: int, s: State, e: Event) {
    Enabled(cfg, s, e) && (e.Tick? && s.running != {} ==> s.time + e.d <= budget)
  }

  ghost predicate LegalCut(cfg: Config, budget: int, es: seq<Event>) {
    es == [] || (LegalCut(cfg, budget, es[..|es| - 1]) && CutEnabled(cfg, budget, After(es[..|es| - 1]), es[|es| - 1]))
  }

  /** Every request has been admitted and has ended. */
  predicate Over(cfg: Config, s: State) {
    |s.starts| == cfg.n && s.running == {}
  }

  lemma {:induction false} CutRunIsBounded(cfg: Config, budget: nat, es: seq<Event>)
    requires cfg.Valid() && LegalCut(cfg, budget, es)
    ensures |After(es).starts| <= cfg.n && (!Over(cfg, After(es)) ==> After(es).time <= budget)
  {
    if es != [] { CutRunIsBounded(cfg, budget, es[..|es| - 1]); }
  }

  /** When the budget never cuts a request, the run's context changes nothing. */
  lemma {:induction false} BudgetNeverBites(cfg: Config, budget: int, es: seq<Event>)
    requires cfg.Valid() && NeverCut(cfg, budget)
    ensures Legal(cfg, es) <==> LegalCut(cfg, budget, es)
  {
    if es != [] {
      var init := es[..|es| - 1];
      BudgetNeverBites(cfg, budget, init);
      if Legal(cfg, init) {
        AdmittedInTime(cfg, init);
        var s := After(init);
        if k :| k in s.running {
          assert After(init).starts[k] + cfg.p <= budget;
        }
      }
    }
  }

  // ----- The budgets the prober derives

  const SECOND: nat := 1_000_000_000
  const DEFAULT_PER_REQUEST := 10 * SECOND
  const DEFAULT_BUDGET := 60 * SECOND
  const DEFAULT_CONCURRENCY: nat := 6

  datatype Options = Options(perRequest: int, budget: int, concurrency: int) {
    /** Zero and negative options mean the defaults. */
    function PerRequest(): nat { if 0 < perRequest then perRequest else DEFAULT_PER_REQUEST }

    function Budget(): nat { if 0 < budget then budget else DEFAULT_BUDGET }

    function Concurrency(): nat { if 0 < concurrency then concurrency else DEFAULT_CONCURRENCY }

    function RunOf(n: nat): Config { Config(n, Concurrency(), PerRequest()) }
  }

  /** Go's integer division, which truncates toward zero. */
  function TruncDiv(a: int, b: nat): int
    requires b > 0
  {
    if a >= 0 then a / b else -((-a) / b)
  }

  function EgressHealthOptions(probeTimeout: int, samplePerRun: nat): Options {
    var rounds := Rounds(samplePerRun, DEFAULT_CONCURRENCY);
    var rounds := if rounds < 1 then 1 else rounds;
    var perRequest := TruncDiv(probeTimeout, rounds);
    Options(if perRequest <= 0 then probeTimeout else perRequest, probeTimeout, 0)
  }

  function BudgetForAllDestinations(perRequest: int, table: nat): (int, int) {
    var concurrency := 10;
    (Rounds(table, concurrency) * perRequest, concurrency)
  }

  function AllDestinationsOptions(probeTimeout: int, samplePerRun: nat, table: nat): Options {
    var opts := EgressHealthOptions(probeTimeout, samplePerRun);
    var (budget, concurrency) := BudgetForAllDestinations(opts.perRequest, table);
    opts.(budget := budget, concurrency := concurrency)
  }

  lemma DivFits(a: nat, b: nat)
    requires b > 0
    ensures b * (a / b) <= a && (a >= b ==> a / b > 0) && (a < b ==> a / b == 0)
  {
  }

  /** A sampled run never cuts a request exactly when the probe timeout has a nanosecond for
      every round. A positive timeout below that, which flag validation does not exclude, gives
      every request the whole budget and cuts the second round; a timeout that is not positive
      falls back to the defaults, which cover six rounds. */
  lemma SampledRunNeverCut(probeTimeout: int, n: nat)
    requires n > 0
    ensures var opts, rounds := EgressHealthOptions(probeTimeout, n), Rounds(n, DEFAULT_CONCURRENCY);
            NeverCut(opts.RunOf(n), opts.Budget()) <==> probeTimeout >= rounds || (probeTimeout <= 0 && rounds <= 6)
  {
    var opts, rounds := EgressHealthOptions(probeTimeout, n), Rounds(n, DEFAULT_CONCURRENCY);
    LastRound(n, DEFAULT_CONCURRENCY);
    NeverCutIffRoundsFit(opts.RunOf(n), opts.Budget());
    if probeTimeout > 0 {
      DivFits(probeTimeout, rounds);
      if probeTimeout < rounds {
        MulMonotone(2, rounds, probeTimeout);
      }
    } else {
      DivFits(-probeTimeout, rounds);
    }
  }

  /** For instance, with a timeout of one nanosecond the last of thirty requests can start only
      after four times the budget. */
  lemma ShortTimeoutCuts() returns (es: seq<Event>)
    ensures var opts := EgressHealthOptions(1, 30);
            Legal(opts.RunOf(30), es) && |After(es).starts| == 30 && After(es).starts[29] == 4 * opts.Budget()
  {
    es := CutInLastRound(EgressHealthOptions(1, 30).RunOf(30));
  }

  /** A sampled run is over within one probe timeout, whatever the requests do. */
  lemma SampledRunWithinProbeTimeout(probeTimeout: int, n: nat, es: seq<Event>)
    requires n > 0 && probeTimeout > 0
    requires var opts := EgressHealthOptions(probeTimeout, n); LegalCut(opts.RunOf(n), opts.Budget(), es)
    ensures !Over(EgressHealthOptions(probeTimeout, n).RunOf(n), After(es)) ==> After(es).time <= probeTimeout
  {
    var opts := EgressHealthOptions(probeTimeout, n);
    CutRunIsBounded(opts.RunOf(n), opts.Budget(), es);
  }

  /** With a nanosecond for every round that does not even take the run's context. */
  lemma SampledRunNeedsNoContext(probeTimeout: int, n: nat, es: seq<Event>)
    requires n > 0 && probeTimeout >= Rounds(n, DEFAULT_CONCURRENCY)
      && Legal(EgressHealthOptions(probeTimeout, n).RunOf(n), es)
    ensures !Over(EgressHealthOptions(probeTimeout, n).RunOf(n), After(es)) ==> After(es).time <= probeTimeout
  {
    var opts := EgressHealthOptions(probeTimeout, n);
    LastRound(n, DEFAULT_CONCURRENCY);
    SampledRunNeverCut(probeTimeout, n);
    BudgetNeverBites(opts.RunOf(n), opts.Budget(), es);
    SampledRunWithinProbeTimeout(probeTimeout, n, es);
  }

  lemma NonPositiveTimeout(probeTimeout: int, n: nat)
    requires probeTimeout <= 0
    ensures EgressHealthOptions(probeTimeout, n) == Options(probeTimeout, probeTimeout, 0)
  {
    var r := Rounds(n, DEFAULT_CONCURRENCY);
    DivFits(-probeTimeout, if r < 1 then 1 else r);
  }

  lemma WholeTableFits(perRequest: int, table: nat)
    requires table > 0
    ensures var (budget, concurrency) := BudgetForAllDestinations(perRequest, table);
            var opts := Options(perRequest, budget, concurrency);
            NeverCut(opts.RunOf(table), opts.Budget()) <==> perRequest > 0 || Rounds(table, 10) <= 6
  {
    var (budget, concurrency) := BudgetForAllDestinations(perRequest, table);
    var opts, rounds := Options(perRequest, budget, concurrency), Rounds(table, 10);
    LastRound(table, 10);
    NeverCutIffRoundsFit(opts.RunOf(table), opts.Budget());
    if perRequest > 0 {
      MulMonotone(1, rounds, perRequest);
    } else {
      MulMonotone(0, rounds, -perRequest);
      assert budget == -(rounds * -perRequest);
    }
  }

  /** A run over the whole table never cuts a request for any positive probe timeout. */
  lemma AllDestinationsNeverCut(probeTimeout: int, samplePerRun: nat, table: nat)
    requires table > 0
    ensures var opts := AllDestinationsOptions(probeTimeout, samplePerRun, table);
            NeverCut(opts.RunOf(table), opts.Budget()) <==> probeTimeout > 0 || Rounds(table, 10) <= 6
  {
    if probeTimeout <= 0 { NonPositiveTimeout(probeTimeout, samplePerRun); }
    WholeTableFits(EgressHealthOptions(probeTimeout, samplePerRun).perRequest, table);
  }

  /** The sampled run gives each request the longest timeout that its budget, the whole probe
      timeout, never cuts. */
  lemma DerivedTimeoutIsLargest(probeTimeout: int, n: nat, p: nat)
    requires n > 0 && p > 0 && probeTimeout >= Rounds(n, DEFAULT_CONCURRENCY)
    ensures var opts := EgressHealthOptions(probeTimeout, n);
            && opts.Budget() == probeTimeout && opts.Concurrency() == 6
            && (NeverCut(Config(n, opts.Concurrency(), p), opts.Budget()) <==> p <= opts.PerRequest())
  {
    var opts, rounds := EgressHealthOptions(probeTimeout, n), Rounds(n, DEFAULT_CONCURRENCY);
    LastRound(n, DEFAULT_CONCURRENCY);
    NeverCutIffRoundsFit(Config(n, DEFAULT_CONCURRENCY, p), probeTimeout);
    DivFits(probeTimeout, rounds);
    LargestQuotient(probeTimeout, rounds, p);
  }

  lemma LargestQuotient(a: nat, b: nat, p: nat)
    requires b > 0
    ensures b * p <= a <==> p <= a / b
  {
    assert a == b * (a / b) + a % b;
    if p <= a / b {
      MulMonotone(p, a / b, b);
    } else {
      MulMonotone(a / b + 1, p, b);
      assert (a / b + 1) * b == b * (a / b) + b;
    }
  }

  /** Where there is no such timeout: a positive probe timeout of less than a nanosecond a round
      gives every request all of it, as does a run of one round; one that is not positive means
      the defaults of 10 and 60 seconds. */
  lemma OtherTimeouts(probeTimeout: int, n: nat)
    ensures var opts := EgressHealthOptions(probeTimeout, n);
            && (probeTimeout <= 0 ==>
                  opts.PerRequest() == 10_000_000_000 && opts.Budget() == 60_000_000_000 && opts.Concurrency() == 6)
            && (0 < probeTimeout < Rounds(n, DEFAULT_CONCURRENCY) || (n <= 6 && 0 < probeTimeout) ==>
                  opts.PerRequest() == opts.Budget() == probeTimeout)
  {
    var r := Rounds(n, DEFAULT_CONCURRENCY);
    if probeTimeout <= 0 {
      NonPositiveTimeout(probeTimeout, n);
    } else if probeTimeout < r {
      DivFits(probeTimeout, r);
    }
  }

  /** A run over the whole table keeps the sampled run's timeout and has the smallest budget that
      never cuts it with ten requests at a time. */
  lemma WholeTableBudgetIsSmallest(probeTimeout: int, samplePerRun: nat, table: nat, b: int)
    requires table > 0 && probeTimeout > 0
    ensures var opts := AllDestinationsOptions(probeTimeout, samplePerRun, table);
            && opts.PerRequest() == EgressHealthOptions(probeTimeout, samplePerRun).PerRequest()
            && opts.Concurrency() == 10
            && (NeverCut(opts.RunOf(table), b) <==> opts.Budget() <= b)
  {
    var opts, rounds := AllDestinationsOptions(probeTimeout, samplePerRun, table), Rounds(table, 10);
    LastRound(table, 10);
    NeverCutIffRoundsFit(opts.RunOf(table), b);
    PositiveTimeout(probeTimeout, samplePerRun);
    MulMonotone(1, rounds, opts.perRequest);
  }

  lemma PositiveTimeout(probeTimeout: int, n: nat)
    requires probeTimeout > 0
    ensures EgressHealthOptions(probeTimeout, n).perRequest > 0
  {
  }
}
