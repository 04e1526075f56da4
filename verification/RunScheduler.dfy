/** The scheduler as the object it is in prober/schedule.go: its cache, and the variables that one
    Run shares with its goroutines. Run takes its turns from an arbitrary oracle, and what it does
    is a legal history of the steps of module Scheduler. */
module RunScheduler {
  import opened PassLog
  import opened Scheduler

  /** Who moves next, how much time has passed, and what a probe that ends now returns. */
  datatype Turn = Turn(worker: nat, delay: nat, outcome: Outcome)

  class ProbeScheduler {
    const cfg: Config
    var probed: map<Id, int>
    var clock: int

    // The variables of Run.
    var running: bool
    var ids: seq<Id>
    var next: nat
    var acquiring: bool
    var sem: nat
    var workers: seq<Worker>
    var sum: Summary
    var log: ErrorLog

    ghost var marks: seq<Mark>
    ghost var succeeded: set<Id>
    ghost var failures: seq<Failure>
    ghost var history: seq<Event>

    constructor (concurrency: int, cacheTTL: int)
      ensures Valid() && !running && history == [] && cfg == Config(concurrency, cacheTTL, true)
    {
      cfg := Config(concurrency, cacheTTL, true);
      probed, clock := map[], 0;
      running, ids, next, acquiring, sem, workers := false, [], 0, false, 0, [];
      sum, log := ZERO, EMPTY;
      marks, succeeded, failures, history := [], {}, [], [];
    }

    ghost function Now(): State
      reads this
    {
      State(probed, clock, running, ids, next, acquiring, sem, workers, sum, log, marks, succeeded, failures)
    }

    /** The object is where its history leads. */
    ghost predicate Valid()
      reads this
    {
      Legal(cfg, history) && After(cfg, history) == Now()
    }

    /** The step e has been taken. */
    twostate predicate Took(e: Event)
      requires old(Possible(e))
      reads this
    {
      Now() == Next(cfg, old(Now()), e) && history == old(history)
    }

    ghost predicate Possible(e: Event)
      reads this
    {
      Enabled(cfg, Now(), e)
    }

    ghost method Record(e: Event, before: State)
      requires Legal(cfg, history) && After(cfg, history) == before && Enabled(cfg, before, e)
        && Now() == Next(cfg, before, e)
      modifies this`history
      ensures Valid() && history == old(history) + [e]
    {
      LegalSnoc(cfg, history, e);
      history := history + [e];
    }

    method RecentlyProbed(id: Id, now: int) returns (recent: bool)
      ensures recent <==> Recent(probed, id, cfg.ttl, now)
    {
      if id !in probed {
        return false;
      }
      return now - probed[id] < cfg.ttl;
    }

    /** Deletes while ranging over the map, in any order. */
    method Prune(now: int)
      modifies this`probed
      ensures probed == Pruned(old(probed), cfg.ttl, now)
    {
      var left := probed.Keys;
      while left != {}
        invariant left <= probed.Keys <= old(probed).Keys
        invariant forall id :: id in probed ==>
          probed[id] == old(probed)[id] && (id in left || now - probed[id] < cfg.ttl)
        invariant forall id :: id in old(probed) && id !in probed ==> cfg.ttl <= now - old(probed)[id]
        decreases |left|
      {
        var id :| id in left;
        left := left - {id};
        if cfg.ttl <= now - probed[id] {
          probed := probed - {id};
        }
      }
    }

    method Start(batch: seq<Id>, now: int)
      requires cfg.prunes && Possible(Begin(batch, now))
      modifies this
      ensures Took(Begin(batch, now))
    {
      Prune(now);
      Reset(batch, now);
    }

    /** The variables Run declares. */
    method Reset(batch: seq<Id>, now: int)
      modifies this
      ensures history == old(history)
      ensures Now() == State(
                         old(probed), now, true, batch, 0, false, 0, [], ZERO, EMPTY, old(marks), old(succeeded), [])
    {
      clock, running := now, true;
      ids, next, acquiring, sem, workers := batch, 0, false, 0, [];
      sum, log := ZERO, EMPTY;
      failures := [];
    }

    /** The head of the loop over the ids. */
    method CheckNext(now: int)
      requires Possible(Check(now))
      modifies this
      ensures Took(Check(now))
    {
      clock := now;
      var recent := RecentlyProbed(ids[next], now);
      if recent {
        sum := sum.(skipped := sum.skipped + 1);
        next := next + 1;
      } else {
        acquiring := true;
      }
    }

    method Spawn()
      requires Possible(Acquire)
      modifies this
      ensures Took(Acquire)
    {
      acquiring, sem := false, sem + 1;
      workers := workers + [Worker(ids[next], Spawned)];
      next := next + 1;
    }

    method Attempt(w: nat)
      requires Possible(Event.Start(w))
      modifies this
      ensures Took(Event.Start(w))
    {
      sum := sum.(attempted := sum.attempted + 1);
      workers := workers[w := Worker(workers[w].id, Probing)];
    }

    method Succeed(w: nat)
      requires Possible(Account(w, Ok))
      modifies this
      ensures Took(Account(w, Ok))
    {
      sum := sum.(submitted := sum.submitted + 1);
      succeeded := succeeded + {workers[w].id};
      workers := workers[w := Worker(workers[w].id, Succeeded)];
    }

    method LogOnce(f: Failure)
      modifies this`log
      ensures log == Note(old(log), f)
    {
      if f.msg !in log.logged {
        if |log.logged| < MAX_LOGGED_DISTINCT_ERRORS {
          log := log.(logged := log.logged + {f.msg}, lines := log.lines + [Detail(f)]);
        } else if !log.noted {
          log := log.(noted := true, lines := log.lines + [Suppressed]);
        }
      }
    }

    method Fail(w: nat, msg: string)
      requires Possible(Account(w, Err(msg)))
      modifies this
      ensures Took(Account(w, Err(msg)))
    {
      var f := Failure(workers[w].id, msg);
      sum := sum.(failed := sum.failed + 1);
      LogOnce(f);
      failures := failures + [f];
      workers := workers[w := Worker(workers[w].id, Failed)];
    }

    method MarkProbed(w: nat, now: int)
      requires Possible(MarkOk(w, now))
      modifies this
      ensures Took(MarkOk(w, now))
    {
      clock := now;
      probed := probed[workers[w].id := now];
      marks := marks + [Mark(workers[w].id, now)];
      workers := workers[w := Worker(workers[w].id, Marked)];
    }

    method Finish(w: nat)
      requires Possible(Release(w))
      modifies this
      ensures Took(Release(w))
    {
      sem := sem - 1;
      workers := workers[w := Worker(workers[w].id, Finished(workers[w].phase == Marked))];
    }

    // ----- Run

    /** One more step of the pass has been taken. */
    twostate predicate Stepped()
      reads this
    {
      Valid() && running && ids == old(ids) && Extends(old(history), history)
        && 0 <= StepsToGo(Now()) < old(StepsToGo(Now()))
    }

    /** What the pass has done so far is recorded, and it is closer to its return. */
    ghost method Progress(e: Event, before: State)
      requires Legal(cfg, history) && After(cfg, history) == before && Enabled(cfg, before, e)
        && Now() == Next(cfg, before, e)
      requires before.running && Inside(e)
      modifies this`history
      ensures Valid() && history == old(history) + [e] && Extends(old(history), history)
      ensures 0 <= StepsToGo(Now()) < StepsToGo(before)
    {
      RunInv(cfg, history);
      EveryStepProgresses(cfg, before, e);
      Record(e, before);
    }

    method MoveWorker(w: nat, turn: Turn)
      requires Valid() && running && w < |workers| && !workers[w].phase.Finished?
      modifies this
      ensures Stepped()
    {
      ghost var before := Now();
      SlotHeld(cfg, history, w);
      var phase := workers[w].phase;
      if phase == Spawned {
        Attempt(w);
        Progress(Event.Start(w), before);
      } else if phase == Probing && turn.outcome.Ok? {
        Succeed(w);
        Progress(Account(w, Ok), before);
      } else if phase == Probing {
        Fail(w, turn.outcome.msg);
        Progress(Account(w, turn.outcome), before);
      } else if phase == Succeeded {
        MarkProbed(w, clock + turn.delay);
        Progress(MarkOk(w, before.clock + turn.delay), before);
      } else {
        Finish(w);
        Progress(Release(w), before);
      }
    }

    method MoveMain(turn: Turn)
      requires Valid() && running && MainCanMove()
      modifies this
      ensures Stepped()
    {
      ghost var before := Now();
      if acquiring {
        Spawn();
        Progress(Acquire, before);
      } else {
        CheckNext(clock + turn.delay);
        Progress(Check(before.clock + turn.delay), before);
      }
    }

    predicate MainCanMove()
      reads this
    {
      next < |ids| && (acquiring ==> sem < cfg.Slots())
    }

    /** A worker that has not finished, if there is one. */
    method FindWorker() returns (w: nat)
      ensures w <= |workers|
      ensures w < |workers| ==> !workers[w].phase.Finished?
      ensures w == |workers| ==> AllFinished(Now())
    {
      w := 0;
      while w < |workers|
        invariant w <= |workers| && forall v :: 0 <= v < w ==> workers[v].phase.Finished?
      {
        if !workers[w].phase.Finished? {
          return;
        }
        w := w + 1;
      }
    }

    method TakeTurn(turn: Turn, w: nat)
      requires Valid() && running && (MainCanMove() || (w < |workers| && !workers[w].phase.Finished?))
      modifies this
      ensures Stepped()
    {
      if turn.worker < |workers| && !workers[turn.worker].phase.Finished? {
        MoveWorker(turn.worker, turn);
      } else if MainCanMove() {
        MoveMain(turn);
      } else {
        MoveWorker(w, turn);
      }
    }

    method Close()
      requires Valid() && Possible(Return)
      modifies this
      ensures Valid() && !running && history == old(history) + [Return] && sum == old(sum) && log == old(log)
      ensures failures == old(failures) && ids == old(ids)
    {
      ghost var before := Now();
      running := false;
      Record(Return, before);
    }

    /** One pass over a batch, in the interleaving, the times and the probe outcomes of the oracle;
        a turn given to someone who cannot move goes to someone who can. */
    method Run(batch: seq<Id>, now: int, oracle: nat -> Turn) returns (result: Summary)
      requires Valid() && !running && cfg.prunes && clock <= now
      modifies this
      ensures Valid() && !running && IsPass(old(history), history, batch, now)
      ensures result.attempted == result.submitted + result.failed && result.attempted + result.skipped == |batch|
      ensures |Details(log.lines)| == Min(|Messages(failures)|, MAX_LOGGED_DISTINCT_ERRORS)
        && |failures| == result.failed
    {
      ghost var before := Now();
      Start(batch, now);
      Record(Begin(batch, now), before);
      var turns := 0;
      var w: nat := FindWorker();
      while MainCanMove() || w < |workers|
        invariant Valid() && running && ids == batch && w <= |workers|
        invariant if w < |workers| then !workers[w].phase.Finished? else AllFinished(Now())
        invariant PassSoFar(old(history), history, batch, now) && 0 <= StepsToGo(Now())
        decreases StepsToGo(Now())
      {
        ghost var soFar := history;
        TakeTurn(oracle(turns), w);
        StillSoFar(old(history), soFar, history, batch, now);
        turns := turns + 1;
        w := FindWorker();
      }
      MainIsDone(cfg, history);
      ghost var steps := history;
      Close();
      assert history[..|history| - 1] == steps;
      PassIsAccountedFor(cfg, history);
      result := sum;
    }
  }

  /** Neither the start of a pass nor its return. */
  predicate Inside(e: Event) {
    !e.Begin? && !e.Return?
  }

  predicate Extends(h: seq<Event>, h': seq<Event>) {
    |h'| == |h| + 1 && h'[..|h|] == h && Inside(h'[|h|])
  }

  /** h' goes on from h with the start of a pass over the batch and steps of that pass. */
  predicate PassSoFar(h: seq<Event>, h': seq<Event>, batch: seq<Id>, now: int) {
    && |h| < |h'| && h'[..|h|] == h && h'[|h|] == Begin(batch, now)
    && forall k :: |h| < k < |h'| ==> Inside(h'[k])
  }

  /** h' goes on from h with exactly one whole pass over the batch. */
  predicate IsPass(h: seq<Event>, h': seq<Event>, batch: seq<Id>, now: int) {
    h' != [] && h'[|h'| - 1] == Return && PassSoFar(h, h'[..|h'| - 1], batch, now)
  }

  lemma StillSoFar(h: seq<Event>, h': seq<Event>, h'': seq<Event>, batch: seq<Id>, now: int)
    requires PassSoFar(h, h', batch, now) && Extends(h', h'')
    ensures PassSoFar(h, h'', batch, now)
  {
    forall k | |h| < k < |h''| ensures Inside(h''[k]) {
      if k < |h'| { assert h''[k] == h'[k]; }
    }
    assert h''[..|h|] == h'[..|h|];
  }

  lemma SlotHeld(cfg: Config, es: seq<Event>, w: nat)
    requires Legal(cfg, es) && w < |After(cfg, es).workers| && !After(cfg, es).workers[w].phase.Finished?
    ensures After(cfg, es).slots > 0
  {
    RunInv(cfg, es);
    if Total(Active, After(cfg, es).workers) <= 0 {
      AllDone(After(cfg, es).workers);
    }
  }

  /** When all workers have finished and the main loop cannot move, it is through the batch. */
  lemma MainIsDone(cfg: Config, es: seq<Event>)
    requires Legal(cfg, es)
    requires var s := After(cfg, es);
             && s.running && AllFinished(s)
             && !(s.next < |s.ids| && (s.acquiring ==> s.slots < cfg.Slots()))
    ensures Enabled(cfg, After(cfg, es), Return)
  {
    RunInv(cfg, es);
    NoneActive(After(cfg, es).workers);
  }
}
