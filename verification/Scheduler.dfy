/** The probe scheduler (prober/schedule.go; newSchedulers in cmd/egress-prober/main.go): a cache of
    successful probes, and passes of semaphore-bounded goroutines as interleaved steps. */
module Scheduler {
  import opened PassLog

  // ----- The cache

  predicate Recent(probed: map<Id, int>, id: Id, ttl: int, now: int) {
    id in probed && now - probed[id] < ttl
  }

  function Pruned(probed: map<Id, int>, ttl: int, now: int): map<Id, int> {
    map id | id in probed && now - probed[id] < ttl :: probed[id]
  }

  // ----- The scheduler's steps

  /** `prunes` is false for a scheduler that never evicts, to compare the real one with. */
  datatype Config = Config(concurrency: int, ttl: int, prunes: bool) {
    function Slots(): nat { if concurrency < 1 then 1 else concurrency }
  }

  datatype Phase = Spawned | Probing | Succeeded | Marked | Failed | Finished(ok: bool)

  datatype Worker = Worker(id: Id, phase: Phase)

  datatype Mark = Mark(id: Id, t: int)

  /** The cache and what the current pass shares. `slots` counts the tokens in the semaphore;
      `marks`, `succeeded` and `failures` only record what happened. */
  datatype State = State(
    probed: map<Id, int>, clock: int, running: bool, ids: seq<Id>, next: nat, acquiring: bool, slots: nat,
    workers: seq<Worker>, sum: Summary, log: ErrorLog, marks: seq<Mark>, succeeded: set<Id>, failures: seq<Failure>)

  datatype Outcome = Ok | Err(msg: string)

  datatype Event =
    | Begin(ids: seq<Id>, t: int)            // prune, and start the pass
    | Check(t: int)                          // recentlyProbed for the next id, and count a skip
    | Acquire                                // the semaphore, and spawn
    | Start(w: nat)
    | Account(w: nat, outcome: Outcome)      // ProbeOne has returned
    | MarkOk(w: nat, t: int)
    | Release(w: nat)
    | Return

  const START := State(map[], 0, false, [], 0, false, 0, [], ZERO, EMPTY, [], {}, [])

  predicate In(s: State, w: nat, phase: Phase) {
    w < |s.workers| && s.workers[w].phase == phase
  }

  predicate AllFinished(s: State) {
    forall w :: 0 <= w < |s.workers| ==> s.workers[w].phase.Finished?
  }

  predicate Enabled(cfg: Config, s: State, e: Event) {
    match e
    case Begin(_, t) => !s.running && s.clock <= t
    case Check(t) => s.running && !s.acquiring && s.next < |s.ids| && s.clock <= t
    case Acquire => s.running && s.acquiring && s.next < |s.ids| && s.slots < cfg.Slots()
    case Start(w) => In(s, w, Spawned)
    case Account(w, _) => In(s, w, Probing)
    case MarkOk(w, t) => In(s, w, Succeeded) && s.clock <= t
    case Release(w) => (In(s, w, Marked) || In(s, w, Failed)) && s.slots > 0
    case Return => s.running && !s.acquiring && s.next == |s.ids| && AllFinished(s)
  }

  function Move(s: State, w: nat, phase: Phase): seq<Worker>
    requires w < |s.workers|
  {
    s.workers[w := Worker(s.workers[w].id, phase)]
  }

  function Next(cfg: Config, s: State, e: Event): State
    requires Enabled(cfg, s, e)
  {
    match e
    case Begin(ids, t) =>
      s.(probed := if cfg.prunes then Pruned(s.probed, cfg.ttl, t) else s.probed, clock := t, running := true,
         ids := ids, next := 0, acquiring := false, slots := 0, workers := [],
         sum := ZERO, log := EMPTY, failures := [])
    case Check(t) =>
      if Recent(s.probed, s.ids[s.next], cfg.ttl, t) then
        s.(clock := t, sum := s.sum.(skipped := s.sum.skipped + 1), next := s.next + 1)
      else s.(clock := t, acquiring := true)
    case Acquire =>
      s.(acquiring := false, slots := s.slots + 1, workers := s.workers + [Worker(s.ids[s.next], Spawned)],
        next := s.next + 1)
    case Start(w) => s.(workers := Move(s, w, Probing), sum := s.sum.(attempted := s.sum.attempted + 1))
    case Account(w, Ok) =>
      s.(workers := Move(s, w, Succeeded), sum := s.sum.(submitted := s.sum.submitted + 1),
        succeeded := s.succeeded + {s.workers[w].id})
    case Account(w, Err(msg)) =>
      var f := Failure(s.workers[w].id, msg);
      s.(workers := Move(s, w, Failed), sum := s.sum.(failed := s.sum.failed + 1), log := Note(s.log, f),
        failures := s.failures + [f])
    case MarkOk(w, t) =>
      s.(workers := Move(s, w, Marked), clock := t, probed := s.probed[s.workers[w].id := t],
        marks := s.marks + [Mark(s.workers[w].id, t)])
    case Release(w) =>
      s.(workers := Move(s, w, Finished(s.workers[w].phase == Marked)), slots := s.slots - 1)
    case Return => s.(running := false)
  }

  // ----- Counting the workers of a pass

  datatype Quantity = Active | InFlight | Started | Submissions | Failures | StepsLeft

  /** A worker's share: does it hold a slot, is it probing, was it counted as attempted, submitted
      or failed, and how many steps does it have left? */
  function Share(q: Quantity, p: Phase): int {
    match q
    case Active => if p.Finished? then 0 else 1
    case InFlight => if p == Probing then 1 else 0
    case Started => if p == Spawned then 0 else 1
    case Submissions => if p == Succeeded || p == Marked || p == Finished(true) then 1 else 0
    case Failures => if p == Failed || p == Finished(false) then 1 else 0
    case StepsLeft =>
      if p == Spawned then 4
      else if p == Probing then 3
      else if p == Succeeded then 2
      else if p.Finished? then 0
      else 1
  }

  function Total(q: Quantity, workers: seq<Worker>): int {
    if workers == [] then 0 else Total(q, workers[..|workers| - 1]) + Share(q, workers[|workers| - 1].phase)
  }

  lemma TotalSnoc(q: Quantity, workers: seq<Worker>, w: Worker)
    ensures Total(q, workers + [w]) == Total(q, workers) + Share(q, w.phase)
  {
    assert (workers + [w])[..|workers|] == workers;
  }

  lemma {:induction false} TotalMove(q: Quantity, workers: seq<Worker>, i: nat, w: Worker)
    requires i < |workers|
    ensures Total(q, workers[i := w]) == Total(q, workers) - Share(q, workers[i].phase) + Share(q, w.phase)
  {
    var n := |workers| - 1;
    if i == n {
      assert workers[i := w][..n] == workers[..n];
    } else {
      assert workers[i := w][..n] == workers[..n][i := w];
      TotalMove(q, workers[..n], i, w);
    }
  }

  lemma {:induction false} TotalBounds(workers: seq<Worker>)
    ensures 0 <= Total(InFlight, workers) <= Total(Active, workers)
    ensures Total(Started, workers) <= |workers|
    ensures |workers| <= Total(Active, workers) + Total(Submissions, workers) + Total(Failures, workers)
    ensures 0 <= Total(Submissions, workers) + Total(Failures, workers) <= Total(Started, workers)
      && 0 <= Total(StepsLeft, workers)
  {
    if workers != [] { TotalBounds(workers[..|workers| - 1]); }
  }

  lemma {:induction false} SomeActive(workers: seq<Worker>) returns (w: nat)
    requires Total(Active, workers) > 0
    ensures w < |workers| && !workers[w].phase.Finished?
  {
    var n := |workers| - 1;
    if workers[n].phase.Finished? {
      w := SomeActive(workers[..n]);
    } else {
      w := n;
    }
  }

  lemma {:induction false} NoneActive(workers: seq<Worker>)
    requires forall w :: 0 <= w < |workers| ==> workers[w].phase.Finished?
    ensures Total(Active, workers) == 0
  {
    if workers != [] { NoneActive(workers[..|workers| - 1]); }
  }

  // ----- What every step keeps

  /** The semaphore, the counters and the log, against the workers. */
  ghost predicate PassOk(cfg: Config, s: State) {
    Counted(cfg, s) && s.sum.failed == |s.failures| && s.log == NoteAll(s.failures)
  }

  predicate Counted(cfg: Config, s: State) {
    && s.slots == Total(Active, s.workers) <= cfg.Slots() && s.next <= |s.ids| && (s.acquiring ==> s.next < |s.ids|)
    && |s.workers| + s.sum.skipped == s.next && SumOk(s)
    && (!s.running ==> s.next == |s.ids| && !s.acquiring && AllFinished(s))
  }

  predicate SumOk(s: State) {
    && s.sum.attempted == Total(Started, s.workers)
    && s.sum.submitted == Total(Submissions, s.workers)
    && s.sum.failed == Total(Failures, s.workers)
  }

  /** The cache against the record of all successful probes, of this pass and earlier ones. */
  ghost predicate CacheOk(cfg: Config, s: State) {
    && (forall id :: id in s.probed ==> Mark(id, s.probed[id]) in s.marks)
    && (forall m :: m in s.marks ==> m.t <= s.clock)
    && (forall m :: m in s.marks && s.clock - m.t < cfg.ttl ==> m.id in s.probed && m.t <= s.probed[m.id])
  }

  /** Only ids probed with success are marked, and each of them is, once its worker got to it. */
  ghost predicate MarksOk(s: State) {
    && (forall m :: m in s.marks ==> m.id in s.succeeded)
    && (forall w :: 0 <= w < |s.workers| && s.workers[w].phase == Succeeded ==> s.workers[w].id in s.succeeded)
    && (forall id :: id in s.succeeded ==> IsMarked(s.marks, id) || IsMarking(s.workers, id))
  }

  ghost predicate IsMarking(workers: seq<Worker>, id: Id) {
    exists w :: 0 <= w < |workers| && workers[w] == Worker(id, Succeeded)
  }

  ghost predicate IsMarked(marks: seq<Mark>, id: Id) {
    exists m :: m in marks && m.id == id
  }

  ghost predicate Inv(cfg: Config, s: State) {
    PassOk(cfg, s) && CacheOk(cfg, s) && MarksOk(s)
  }

  predicate Moves(e: Event) {
    e.Start? || e.Account? || e.MarkOk? || e.Release?
  }

  lemma MainStepCounted(cfg: Config, s: State, e: Event)
    requires PassOk(cfg, s) && Enabled(cfg, s, e) && !Moves(e)
    ensures Counted(cfg, Next(cfg, s, e))
  {
    if e.Acquire? {
      forall q ensures Total(q, Next(cfg, s, e).workers) == Total(q, s.workers) + Share(q, Spawned) {
        TotalSnoc(q, s.workers, Worker(s.ids[s.next], Spawned));
      }
    }
  }

  /** What a worker's step changes in a total. */
  function Shift(q: Quantity, e: Event): int
    requires Moves(e)
  {
    match q
    case Active => if e.Release? then -1 else 0
    case InFlight => if e.Start? then 1 else if e.Account? then -1 else 0
    case Started => if e.Start? then 1 else 0
    case Submissions => if e.Account? && e.outcome.Ok? then 1 else 0
    case Failures => if e.Account? && e.outcome.Err? then 1 else 0
    case StepsLeft => if e.Account? && e.outcome.Err? then -2 else -1
  }

  lemma TotalStep(cfg: Config, s: State, e: Event, q: Quantity)
    requires Enabled(cfg, s, e) && Moves(e)
    ensures Total(q, Next(cfg, s, e).workers) == Total(q, s.workers) + Shift(q, e)
  {
    var s' := Next(cfg, s, e);
    assert s'.workers == s.workers[e.w := s'.workers[e.w]];
    TotalMove(q, s.workers, e.w, s'.workers[e.w]);
  }

  lemma WorkerStepSum(cfg: Config, s: State, e: Event)
    requires PassOk(cfg, s) && Enabled(cfg, s, e) && Moves(e)
    ensures SumOk(Next(cfg, s, e))
  {
    TotalStep(cfg, s, e, Started);
    TotalStep(cfg, s, e, Submissions);
    TotalStep(cfg, s, e, Failures);
  }

  lemma WorkerStepCounted(cfg: Config, s: State, e: Event)
    requires PassOk(cfg, s) && Enabled(cfg, s, e) && Moves(e)
    ensures Counted(cfg, Next(cfg, s, e))
  {
    assert !AllFinished(s);
    WorkerStepSum(cfg, s, e);
    TotalStep(cfg, s, e, Active);
  }

  lemma StepLog(cfg: Config, s: State, e: Event)
    requires PassOk(cfg, s) && Enabled(cfg, s, e)
    ensures var s' := Next(cfg, s, e); s'.sum.failed == |s'.failures| && s'.log == NoteAll(s'.failures)
  {
    var s' := Next(cfg, s, e);
    if e.Account? && e.outcome.Err? {
      assert s'.failures[..|s.failures|] == s.failures;
    }
  }

  lemma StepCache(cfg: Config, s: State, e: Event)
    requires CacheOk(cfg, s) && Enabled(cfg, s, e)
    ensures CacheOk(cfg, Next(cfg, s, e))
  {
  }

  lemma StepMarks(cfg: Config, s: State, e: Event)
    requires PassOk(cfg, s) && MarksOk(s) && Enabled(cfg, s, e)
    ensures MarksOk(Next(cfg, s, e))
  {
    var s' := Next(cfg, s, e);
    forall id | id in s'.succeeded
      ensures IsMarked(s'.marks, id) || IsMarking(s'.workers, id)
    {
      StillMarked(cfg, s, e, id);
    }
  }

  lemma StillMarked(cfg: Config, s: State, e: Event, id: Id)
    requires PassOk(cfg, s) && MarksOk(s) && Enabled(cfg, s, e) && id in Next(cfg, s, e).succeeded
    ensures var s' := Next(cfg, s, e);
            IsMarked(s'.marks, id) || IsMarking(s'.workers, id)
  {
    var s' := Next(cfg, s, e);
    if e.Account? && e.outcome.Ok? && s.workers[e.w].id == id {
      assert s'.workers[e.w] == Worker(id, Succeeded);
    } else if IsMarked(s.marks, id) {
      var m :| m in s.marks && m.id == id;
      assert m in s'.marks;
    } else {
      var w :| 0 <= w < |s.workers| && s.workers[w] == Worker(id, Succeeded);
      if e.MarkOk? && e.w == w {
        assert Mark(id, e.t) in s'.marks;
      } else {
        assert s'.workers[w] == s.workers[w];
      }
    }
  }

  // ----- Whole runs

  /** A legal history of a scheduler: any number of passes, any interleaving of each, any probe
      outcomes, and a clock that does not run backwards. */
  ghost predicate Legal(cfg: Config, es: seq<Event>)
    decreases |es|, 0
  {
    es == [] || (Legal(cfg, es[..|es| - 1]) && Enabled(cfg, After(cfg, es[..|es| - 1]), es[|es| - 1]))
  }

  ghost function After(cfg: Config, es: seq<Event>): State
    requires Legal(cfg, es)
    decreases |es|, 1
  {
    if es == [] then START else Next(cfg, After(cfg, es[..|es| - 1]), es[|es| - 1])
  }

  lemma StepInv(cfg: Config, s: State, e: Event)
    requires Inv(cfg, s) && Enabled(cfg, s, e)
    ensures Inv(cfg, Next(cfg, s, e))
  {
    if Moves(e) {
      WorkerStepCounted(cfg, s, e);
    } else {
      MainStepCounted(cfg, s, e);
    }
    StepLog(cfg, s, e);
    StepCache(cfg, s, e);
    StepMarks(cfg, s, e);
  }

  lemma {:induction false} RunInv(cfg: Config, es: seq<Event>)
    requires Legal(cfg, es)
    ensures Inv(cfg, After(cfg, es))
  {
    if es != [] {
      RunInv(cfg, es[..|es| - 1]);
      StepInv(cfg, After(cfg, es[..|es| - 1]), es[|es| - 1]);
    }
  }

  /** At no point are more probes in flight than the concurrency allows, and at least one may be. */
  lemma InFlightWithinConcurrency(cfg: Config, es: seq<Event>)
    requires Legal(cfg, es)
    ensures Total(InFlight, After(cfg, es).workers) <= (if cfg.concurrency < 1 then 1 else cfg.concurrency)
  {
    RunInv(cfg, es);
    TotalBounds(After(cfg, es).workers);
  }

  /** When a pass returns, its Summary accounts for every id it was given, its log shows the first
      failure with each of the first MAX_LOGGED_DISTINCT_ERRORS messages and one notice if there
      were more, and every id ever probed with success has been marked. */
  lemma PassIsAccountedFor(cfg: Config, es: seq<Event>)
    requires Legal(cfg, es) && es != [] && es[|es| - 1].Return?
    ensures var s := After(cfg, es);
            && s.sum.attempted == s.sum.submitted + s.sum.failed
            && s.sum.attempted + s.sum.skipped == |s.ids|
            && s.sum.failed == |s.failures| && s.log == NoteAll(s.failures)
            && |Details(s.log.lines)| == Min(|Messages(s.failures)|, MAX_LOGGED_DISTINCT_ERRORS)
            && Notices(s.log.lines) == (if |Messages(s.failures)| > MAX_LOGGED_DISTINCT_ERRORS then 1 else 0)
            && forall id :: id in s.succeeded <==> IsMarked(s.marks, id)
  {
    RunInv(cfg, es);
    var s := After(cfg, es);
    NoneActive(s.workers);
    TotalBounds(s.workers);
    LogIsFirstOfEach(s.failures);
  }

  /** The semaphore never deadlocks: while a pass is running some step is possible. */
  lemma NeverStuck(cfg: Config, s: State) returns (e: Event)
    requires Inv(cfg, s) && s.running
    ensures Enabled(cfg, s, e)
  {
    if Total(Active, s.workers) > 0 {
      var w := SomeActive(s.workers);
      e := match s.workers[w].phase
           case Spawned => Start(w)
           case Probing => Account(w, Ok)
           case Succeeded => MarkOk(w, s.clock)
           case _ => Release(w);
    } else if s.acquiring {
      e := Acquire;
    } else if s.next < |s.ids| {
      e := Check(s.clock);
    } else {
      AllDone(s.workers);
      e := Return;
    }
  }

  lemma {:induction false} AllDone(workers: seq<Worker>)
    requires Total(Active, workers) <= 0
    ensures forall w :: 0 <= w < |workers| ==> workers[w].phase.Finished?
  {
    if workers != [] {
      TotalBounds(workers[..|workers| - 1]);
      AllDone(workers[..|workers| - 1]);
    }
  }

  /** Steps a pass still has to take. */
  function StepsToGo(s: State): int {
    6 * (|s.ids| - s.next) - (if s.acquiring then 1 else 0) + Total(StepsLeft, s.workers) + if s.running then 1 else 0
  }

  lemma WorkerProgresses(cfg: Config, s: State, e: Event)
    requires Enabled(cfg, s, e) && Moves(e)
    ensures StepsToGo(Next(cfg, s, e)) < StepsToGo(s)
  {
    TotalStep(cfg, s, e, StepsLeft);
  }

  lemma MainProgresses(cfg: Config, s: State, e: Event)
    requires s.running && Enabled(cfg, s, e) && !Moves(e)
    ensures StepsToGo(Next(cfg, s, e)) < StepsToGo(s)
  {
    var s' := Next(cfg, s, e);
    if e.Acquire? {
      TotalSnoc(StepsLeft, s.workers, Worker(s.ids[s.next], Spawned));
      assert s'.next == s.next + 1 && !s'.acquiring && s.acquiring;
    } else if e.Check? {
      assert s'.workers == s.workers && !s.acquiring && s'.running;
      assert if s'.acquiring then s'.next == s.next else s'.next == s.next + 1;
    } else {
      assert s' == s.(running := false);
    }
  }

  /** Every step of a pass brings it closer to its return, so that it takes at most six steps for
      each id and one more. */
  lemma EveryStepProgresses(cfg: Config, s: State, e: Event)
    requires Inv(cfg, s) && s.running && Enabled(cfg, s, e)
    ensures 0 <= StepsToGo(Next(cfg, s, e)) < StepsToGo(s)
  {
    StepInv(cfg, s, e);
    StepsRemain(cfg, Next(cfg, s, e));
    if Moves(e) {
      WorkerProgresses(cfg, s, e);
    } else {
      MainProgresses(cfg, s, e);
    }
  }

  lemma StepsRemain(cfg: Config, s: State)
    requires PassOk(cfg, s)
    ensures 0 <= StepsToGo(s)
  {
    TotalBounds(s.workers);
  }

  // ----- The cache over many passes

  /** A successful probe of the id less than the ttl ago. */
  ghost predicate MarkedWithin(marks: seq<Mark>, id: Id, ttl: int, now: int) {
    exists m :: m in marks && m.id == id && now - m.t < ttl
  }

  /** Pruned or not, the cache answers for the whole history: an id is skipped exactly when some
      probe of it, in this pass or any earlier one, succeeded less than the ttl ago. */
  lemma CacheIsHistory(cfg: Config, es: seq<Event>, id: Id, now: int)
    requires Legal(cfg, es) && After(cfg, es).clock <= now
    ensures var s := After(cfg, es); Recent(s.probed, id, cfg.ttl, now) <==> MarkedWithin(s.marks, id, cfg.ttl, now)
  {
    RunInv(cfg, es);
    SkipsByHistory(cfg, After(cfg, es), id, now);
  }

  lemma SkipsByHistory(cfg: Config, s: State, id: Id, now: int)
    requires CacheOk(cfg, s) && s.clock <= now
    ensures Recent(s.probed, id, cfg.ttl, now) <==> MarkedWithin(s.marks, id, cfg.ttl, now)
  {
    if Recent(s.probed, id, cfg.ttl, now) {
      assert Mark(id, s.probed[id]) in s.marks;
    }
    if MarkedWithin(s.marks, id, cfg.ttl, now) {
      var m :| m in s.marks && m.id == id && now - m.t < cfg.ttl;
      assert s.clock - m.t < cfg.ttl;
    }
  }

  /** At step k a worker of the current pass marks a successful probe of id at time t. */
  ghost predicate MarksAt(cfg: Config, es: seq<Event>, k: int, id: Id, t: int) {
    && 0 <= k < |es| && es[k].MarkOk? && es[k].t == t && Legal(cfg, es[..k])
    && es[k].w < |After(cfg, es[..k]).workers| && After(cfg, es[..k]).workers[es[k].w].id == id
  }

  ghost predicate Marks(cfg: Config, es: seq<Event>, id: Id, t: int) {
    exists k :: MarksAt(cfg, es, k, id, t)
  }

  lemma MarksAtPrefix(cfg: Config, es: seq<Event>, k: int, id: Id, t: int)
    requires es != [] && k != |es| - 1
    ensures MarksAt(cfg, es, k, id, t) <==> MarksAt(cfg, es[..|es| - 1], k, id, t)
  {
    if 0 <= k < |es| - 1 {
      assert es[..|es| - 1][..k] == es[..k];
    }
  }

  lemma MarksStep(cfg: Config, es: seq<Event>, id: Id, t: int)
    requires es != []
    ensures Marks(cfg, es, id, t) <==> Marks(cfg, es[..|es| - 1], id, t) || MarksAt(cfg, es, |es| - 1, id, t)
  {
    if k :| MarksAt(cfg, es, k, id, t) && k != |es| - 1 {
      MarksAtPrefix(cfg, es, k, id, t);
    }
    var init := es[..|es| - 1];
    if k :| MarksAt(cfg, init, k, id, t) {
      MarksAtPrefix(cfg, es, k, id, t);
    }
  }

  lemma {:induction false} MarksAreSteps(cfg: Config, es: seq<Event>, id: Id, t: int)
    requires Legal(cfg, es)
    ensures Mark(id, t) in After(cfg, es).marks <==> Marks(cfg, es, id, t)
  {
    if es != [] {
      var init, e := es[..|es| - 1], es[|es| - 1];
      MarksAreSteps(cfg, init, id, t);
      MarksStep(cfg, es, id, t);
    }
  }

  /** The next id of a pass is skipped, and counted as skipped, exactly when some probe of it was
      marked less than the ttl ago, in whatever pass; otherwise it waits for a slot. */
  lemma SkippedIff(cfg: Config, es: seq<Event>, t: int)
    requires Legal(cfg, es) && Enabled(cfg, After(cfg, es), Check(t))
    ensures var s, s' := After(cfg, es), Next(cfg, After(cfg, es), Check(t));
            if exists t0 :: Marks(cfg, es, s.ids[s.next], t0) && t - t0 < cfg.ttl then
              s'.sum == s.sum.(skipped := s.sum.skipped + 1) && s'.next == s.next + 1 && !s'.acquiring
            else s'.sum == s.sum && s'.next == s.next && s'.acquiring
  {
    var s := After(cfg, es);
    CacheIsHistory(cfg, es, s.ids[s.next], t);
    forall t0 ensures Mark(s.ids[s.next], t0) in s.marks <==> Marks(cfg, es, s.ids[s.next], t0) {
      MarksAreSteps(cfg, es, s.ids[s.next], t0);
    }
  }

  /** Two states that differ at most in what their caches still hold. */
  predicate SameButCache(s: State, t: State) {
    s == t.(probed := s.probed)
  }

  /** Pruning changes no behaviour: a scheduler that never evicts can take the same steps, skips
      the same ids at the same checks, and ends with the same counters, log and successes. */
  lemma {:induction false} PruningChangesNothing(cfg: Config, es: seq<Event>)
    requires Legal(cfg, es)
    ensures var other := cfg.(prunes := !cfg.prunes);
            Legal(other, es) && SameButCache(After(cfg, es), After(other, es))
  {
    if es != [] {
      var other, init, e := cfg.(prunes := !cfg.prunes), es[..|es| - 1], es[|es| - 1];
      PruningChangesNothing(cfg, init);
      RunInv(cfg, init);
      RunInv(other, init);
      SameStep(cfg, other, After(cfg, init), After(other, init), e);
    }
  }

  lemma SameStep(cfg: Config, other: Config, s: State, t: State, e: Event)
    requires other == cfg.(prunes := !cfg.prunes) && SameButCache(s, t) && CacheOk(cfg, s) && CacheOk(other, t)
    requires Enabled(cfg, s, e)
    ensures Enabled(other, t, e) && SameButCache(Next(cfg, s, e), Next(other, t, e))
  {
    if e.Check? {
      SkipsByHistory(cfg, s, s.ids[s.next], e.t);
      SkipsByHistory(other, t, s.ids[s.next], e.t);
    }
  }

  /** The due scheduler and the one for the enumeration fallback. */
  function NewSchedulers(concurrency: int, cacheTTL: int): (Config, Config) {
    (Config(concurrency, 0, true), Config(concurrency, cacheTTL, true))
  }

  /** Without a positive ttl nothing is ever skipped. */
  lemma {:induction false} NoTtlNoSkips(cfg: Config, es: seq<Event>)
    requires Legal(cfg, es) && cfg.ttl <= 0
    ensures After(cfg, es).sum.skipped == 0
  {
    if es != [] {
      var init, e := es[..|es| - 1], es[|es| - 1];
      NoTtlNoSkips(cfg, init);
      RunInv(cfg, init);
      var s := After(cfg, init);
      if e.Check? {
        SkipsByHistory(cfg, s, s.ids[s.next], e.t);
        assert forall m :: m in s.marks ==> m.t <= s.clock;
      }
    }
  }

  /** So the server-driven scheduler attempts every id it is given, duplicates included. */
  lemma DueSchedulerAttemptsAll(concurrency: int, cacheTTL: int, es: seq<Event>)
    requires Legal(NewSchedulers(concurrency, cacheTTL).0, es) && es != [] && es[|es| - 1].Return?
    ensures var s := After(NewSchedulers(concurrency, cacheTTL).0, es); s.sum.attempted == |s.ids|
  {
    PassIsAccountedFor(NewSchedulers(concurrency, cacheTTL).0, es);
    NoTtlNoSkips(NewSchedulers(concurrency, cacheTTL).0, es);
  }

  /** The enumeration's scheduler skips by the configured ttl. */
  lemma EnumSchedulerSkips(concurrency: int, cacheTTL: int, es: seq<Event>, t: int)
    requires Legal(NewSchedulers(concurrency, cacheTTL).1, es)
      && Enabled(NewSchedulers(concurrency, cacheTTL).1, After(NewSchedulers(concurrency, cacheTTL).1, es), Check(t))
    ensures var cfg := NewSchedulers(concurrency, cacheTTL).1;
            var s := After(cfg, es);
            Next(cfg, s, Check(t)).acquiring <==>
            forall t0 :: Marks(cfg, es, s.ids[s.next], t0) ==> cacheTTL <= t - t0
  {
    SkippedIff(NewSchedulers(concurrency, cacheTTL).1, es, t);
  }

  lemma LegalSnoc(cfg: Config, es: seq<Event>, e: Event)
    requires Legal(cfg, es) && Enabled(cfg, After(cfg, es), e)
    ensures Legal(cfg, es + [e]) && After(cfg, es + [e]) == Next(cfg, After(cfg, es), e)
  {
    assert (es + [e])[..|es|] == es;
  }
}
