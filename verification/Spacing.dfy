/** How far apart two successful probes of the same provider are, over any number of passes
    (prober/schedule.go). The cache is consulted before the semaphore is acquired and filled after
    the probe, so within one pass it does not always keep them a ttl apart. */
module Spacing {
  import opened Counting
  import opened PassLog
  import opened Scheduler

  /** Successful probes of the same id are at least a ttl apart. */
  ghost predicate Spaced(marks: seq<Mark>, ttl: int) {
    forall i, j :: 0 <= i < j < |marks| && marks[i].id == marks[j].id ==> marks[i].t + ttl <= marks[j].t
  }

  /** The batches of the passes started so far. */
  function Batches(es: seq<Event>): seq<seq<Id>> {
    if es == [] then []
    else
      var e := es[|es| - 1];
      Batches(es[..|es| - 1]) + if e.Begin? then [e.ids] else []
  }

  function IdsOf(batches: seq<seq<Id>>): set<Id> {
    if batches == [] then {} else IdsOf(batches[..|batches| - 1]) + Elements(batches[|batches| - 1])
  }

  /** An id that came up in an earlier batch, or in this one before position i. */
  predicate Known(seen: set<Id>, ids: seq<Id>, i: nat, id: Id)
    requires i <= |ids|
  {
    id in seen || id in ids[..i]
  }

  /** The second of two occurrences of an id can be checked while the first is still being probed:
      always with two slots, and with one slot if everything between them can be skipped. */
  ghost predicate Twice(slots: nat, seen: set<Id>, ids: seq<Id>, i: nat, j: nat) {
    && i < j < |ids| && ids[i] == ids[j]
    && (slots >= 2 || forall k :: i < k < j ==> Known(seen, ids, i, ids[k]))
  }

  ghost predicate Safe(slots: nat, seen: set<Id>, ids: seq<Id>) {
    forall i, j :: !Twice(slots, seen, ids, i, j)
  }

  ghost predicate AllSafe(slots: nat, batches: seq<seq<Id>>) {
    forall b :: 0 <= b < |batches| ==> Safe(slots, IdsOf(batches[..b]), batches[b])
  }

  // ----- Safe batches are probed a ttl apart

  predicate Live(w: Worker) {
    w.phase == Spawned || w.phase == Probing || w.phase == Succeeded
  }

  /** With one slot: the worker's id stands at position i, and all that was checked since, and all
      that was ever marked, was known there. */
  ghost predicate Lone(s: State, seen: set<Id>, i: nat, id: Id) {
    && i < s.next <= |s.ids| && s.ids[i] == id
    && (forall k :: i < k < s.next ==> Known(seen, s.ids, i, s.ids[k]))
    && forall m :: m in s.marks ==> Known(seen, s.ids, i, m.id)
  }

  ghost predicate IsLone(s: State, seen: set<Id>, id: Id) {
    exists i :: Lone(s, seen, i, id)
  }

  /** No worker that may still mark its id has been overtaken by a mark younger than the ttl, by
      another such worker, or by the check of the same id. */
  ghost predicate Apart(cfg: Config, s: State, seen: set<Id>) {
    && Spaced(s.marks, cfg.ttl) && s.next <= |s.ids|
    && (forall w :: 0 <= w < |s.workers| && Live(s.workers[w]) ==>
          !MarkedWithin(s.marks, s.workers[w].id, cfg.ttl, s.clock))
    && (forall v, w :: 0 <= v < w < |s.workers| && Live(s.workers[v]) && Live(s.workers[w]) ==>
          s.workers[v].id != s.workers[w].id)
    && (s.acquiring ==> s.next < |s.ids| && AtGate(cfg, s))
  }

  ghost predicate AtGate(cfg: Config, s: State)
    requires s.next < |s.ids|
  {
    && !MarkedWithin(s.marks, s.ids[s.next], cfg.ttl, s.clock)
    && forall w :: 0 <= w < |s.workers| && Live(s.workers[w]) ==> s.workers[w].id != s.ids[s.next]
  }

  /** Where the ids of workers and marks come from. */
  ghost predicate Sourced(cfg: Config, s: State, seen: set<Id>) {
    && s.next <= |s.ids|
    && (forall w :: 0 <= w < |s.workers| ==> s.workers[w].id in s.ids[..s.next])
    && (forall m :: m in s.marks ==> Known(seen, s.ids, s.next, m.id))
    && (cfg.Slots() == 1 ==> forall w :: 0 <= w < |s.workers| && Live(s.workers[w]) ==>
          IsLone(s, seen, s.workers[w].id))
  }

  lemma TwoActive(workers: seq<Worker>, v: nat, w: nat)
    requires v < w < |workers| && !workers[v].phase.Finished? && !workers[w].phase.Finished?
    ensures Total(Active, workers) >= 2
  {
    var one := workers[v := Worker(workers[v].id, Finished(true))];
    TotalMove(Active, workers, v, one[v]);
    if Total(Active, one) <= 0 {
      AllDone(one);
    }
  }

  /** A check that does not skip is not of an id that a worker may still mark. */
  lemma CheckIsApart(cfg: Config, s: State, seen: set<Id>, w: nat)
    requires Sourced(cfg, s, seen) && Safe(cfg.Slots(), seen, s.ids) && s.next < |s.ids|
    requires w < |s.workers| && Live(s.workers[w])
    ensures s.workers[w].id != s.ids[s.next]
  {
    if s.workers[w].id == s.ids[s.next] {
      if cfg.Slots() >= 2 {
        var i: nat :| i < s.next && s.ids[..s.next][i] == s.workers[w].id;
        assert Twice(cfg.Slots(), seen, s.ids, i, s.next);
      } else {
        var i :| Lone(s, seen, i, s.workers[w].id);
        assert Twice(cfg.Slots(), seen, s.ids, i, s.next);
      }
    }
  }

  /** The batches before the current one. */
  function SeenAfter(s: State, seen: set<Id>, e: Event): set<Id> {
    if e.Begin? then seen + Elements(s.ids) else seen
  }

  lemma MarkIsSpaced(marks: seq<Mark>, ttl: int, clock: int, id: Id, t: int)
    requires Spaced(marks, ttl) && !MarkedWithin(marks, id, ttl, clock) && clock <= t
    ensures Spaced(marks + [Mark(id, t)], ttl)
  {
    var marks' := marks + [Mark(id, t)];
    forall i, j | 0 <= i < j < |marks'| && marks'[i].id == marks'[j].id ensures marks'[i].t + ttl <= marks'[j].t {
      if j == |marks| {
        assert marks[i] in marks;
      }
    }
  }

  lemma MainApart(cfg: Config, s: State, seen: set<Id>, e: Event)
    requires Inv(cfg, s) && Apart(cfg, s, seen) && Sourced(cfg, s, seen) && Enabled(cfg, s, e) && !Moves(e)
    requires Safe(cfg.Slots(), seen, s.ids)
    ensures Apart(cfg, Next(cfg, s, e), SeenAfter(s, seen, e))
  {
    if e.Check? {
      SkipsByHistory(cfg, s, s.ids[s.next], e.t);
      forall w | 0 <= w < |s.workers| && Live(s.workers[w]) ensures s.workers[w].id != s.ids[s.next] {
        CheckIsApart(cfg, s, seen, w);
      }
    }
  }

  lemma MarkApart(cfg: Config, s: State, seen: set<Id>, w: nat, t: int)
    requires Apart(cfg, s, seen) && Enabled(cfg, s, MarkOk(w, t))
    ensures Apart(cfg, Next(cfg, s, MarkOk(w, t)), seen)
  {
    var s', id := Next(cfg, s, MarkOk(w, t)), s.workers[w].id;
    MarkIsSpaced(s.marks, cfg.ttl, s.clock, id, t);
    forall other: Id | other != id && !MarkedWithin(s.marks, other, cfg.ttl, s.clock)
      ensures !MarkedWithin(s'.marks, other, cfg.ttl, t)
    {
    }
  }

  lemma WorkerApart(cfg: Config, s: State, seen: set<Id>, e: Event)
    requires Apart(cfg, s, seen) && Enabled(cfg, s, e) && Moves(e)
    ensures Apart(cfg, Next(cfg, s, e), seen)
  {
    if e.MarkOk? {
      MarkApart(cfg, s, seen, e.w, e.t);
    } else {
      SameMarks(cfg, s, e);
    }
  }

  /** The other steps of a worker leave the marks alone and make no worker live. */
  lemma SameMarks(cfg: Config, s: State, e: Event)
    requires Enabled(cfg, s, e) && Moves(e) && !e.MarkOk?
    ensures var s' := Next(cfg, s, e);
            && s'.marks == s.marks && s'.clock == s.clock && s'.ids == s.ids && s'.next == s.next
            && s'.acquiring == s.acquiring
            && |s'.workers| == |s.workers|
            && forall w :: 0 <= w < |s.workers| ==>
                 s'.workers[w].id == s.workers[w].id && (Live(s'.workers[w]) ==> Live(s.workers[w]))
  {
  }

  lemma StillLone(s: State, s': State, seen: set<Id>, id: Id)
    requires IsLone(s, seen, id) && s'.ids == s.ids && s'.marks == s.marks
    requires s'.next == s.next || (s'.next == s.next + 1 <= |s.ids|
      && exists m :: m in s.marks && m.id == s.ids[s.next])
    ensures IsLone(s', seen, id)
  {
    var i :| Lone(s, seen, i, id);
    assert Lone(s', seen, i, id);
  }

  /** Steps that change neither the workers nor the marks, and pass over an id only if it was
      marked. */
  lemma QuietSourced(cfg: Config, s: State, s': State, seen: set<Id>)
    requires Sourced(cfg, s, seen) && s'.ids == s.ids && s'.marks == s.marks && s'.workers == s.workers
    requires s'.next == s.next || (s'.next == s.next + 1 <= |s.ids|
      && exists m :: m in s.marks && m.id == s.ids[s.next])
    ensures Sourced(cfg, s', seen)
  {
    forall w | cfg.Slots() == 1 && 0 <= w < |s.workers| && Live(s.workers[w])
      ensures IsLone(s', seen, s.workers[w].id)
    {
      StillLone(s, s', seen, s.workers[w].id);
    }
  }

  lemma MainSourced(cfg: Config, s: State, seen: set<Id>, e: Event)
    requires Inv(cfg, s) && Sourced(cfg, s, seen) && Enabled(cfg, s, e) && !Moves(e)
    ensures Sourced(cfg, Next(cfg, s, e), SeenAfter(s, seen, e))
  {
    if e.Acquire? {
      SpawnSourced(cfg, s, seen);
    } else if !e.Begin? {
      if e.Check? {
        SkipsByHistory(cfg, s, s.ids[s.next], e.t);
      }
      QuietSourced(cfg, s, Next(cfg, s, e), seen);
    }
  }

  lemma SpawnSourced(cfg: Config, s: State, seen: set<Id>)
    requires Inv(cfg, s) && Sourced(cfg, s, seen) && Enabled(cfg, s, Acquire)
    ensures Sourced(cfg, Next(cfg, s, Acquire), seen)
  {
    var s' := Next(cfg, s, Acquire);
    KnownLater(s, seen);
    forall w | cfg.Slots() == 1 && 0 <= w < |s'.workers| && Live(s'.workers[w])
      ensures IsLone(s', seen, s'.workers[w].id)
    {
      SpawnedAlone(cfg, s, w);
      assert Lone(s', seen, s.next, s'.workers[w].id);
    }
  }

  lemma KnownLater(s: State, seen: set<Id>)
    requires s.next < |s.ids|
    ensures s.ids[s.next] in s.ids[..s.next + 1]
    ensures forall id :: Known(seen, s.ids, s.next, id) ==> Known(seen, s.ids, s.next + 1, id)
    ensures forall id :: id in s.ids[..s.next] ==> id in s.ids[..s.next + 1]
  {
    assert s.ids[..s.next + 1] == s.ids[..s.next] + [s.ids[s.next]];
  }

  lemma SpawnedAlone(cfg: Config, s: State, w: nat)
    requires Inv(cfg, s) && Enabled(cfg, s, Acquire) && cfg.Slots() == 1 && w <= |s.workers|
    requires Live(Next(cfg, s, Acquire).workers[w])
    ensures w == |s.workers|
  {
    AllDone(s.workers);
  }

  lemma WorkerSourced(cfg: Config, s: State, seen: set<Id>, e: Event)
    requires Inv(cfg, s) && Sourced(cfg, s, seen) && Enabled(cfg, s, e) && Moves(e)
    ensures Sourced(cfg, Next(cfg, s, e), seen)
  {
    if e.MarkOk? {
      MarkSourced(cfg, s, seen, e.w, e.t);
    } else {
      SameMarks(cfg, s, e);
      var s' := Next(cfg, s, e);
      forall w | cfg.Slots() == 1 && 0 <= w < |s'.workers| && Live(s'.workers[w])
        ensures IsLone(s', seen, s'.workers[w].id)
      {
        StillLone(s, s', seen, s.workers[w].id);
      }
    }
  }

  lemma MarkSourced(cfg: Config, s: State, seen: set<Id>, v: nat, t: int)
    requires Inv(cfg, s) && Sourced(cfg, s, seen) && Enabled(cfg, s, MarkOk(v, t))
    ensures Sourced(cfg, Next(cfg, s, MarkOk(v, t)), seen)
  {
    var s' := Next(cfg, s, MarkOk(v, t));
    forall w | cfg.Slots() == 1 && 0 <= w < |s'.workers| && w != v ensures !Live(s'.workers[w]) {
      if Live(s.workers[w]) {
        OnlyOneActive(cfg, s, v, w);
      }
    }
  }

  lemma OnlyOneActive(cfg: Config, s: State, v: nat, w: nat)
    requires Inv(cfg, s) && cfg.Slots() == 1 && v < |s.workers| && w < |s.workers|
    requires !s.workers[v].phase.Finished? && !s.workers[w].phase.Finished?
    ensures v == w
  {
    if v < w {
      TwoActive(s.workers, v, w);
    } else if w < v {
      TwoActive(s.workers, w, v);
    }
  }

  /** The ids of the batches before the current one. */
  function SeenBefore(es: seq<Event>): set<Id> {
    var batches := Batches(es);
    if batches == [] then {} else IdsOf(batches[..|batches| - 1])
  }

  lemma BatchesSnoc(es: seq<Event>)
    requires es != []
    ensures var init, e := es[..|es| - 1], es[|es| - 1];
            Batches(es) == if e.Begin? then Batches(init) + [e.ids] else Batches(init)
  {
  }

  lemma {:induction false} CurrentBatch(cfg: Config, es: seq<Event>)
    requires Legal(cfg, es)
    ensures var batches, s := Batches(es), After(cfg, es);
            if batches == [] then s.ids == [] && !s.running else s.ids == batches[|batches| - 1]
  {
    if es != [] {
      CurrentBatch(cfg, es[..|es| - 1]);
      BatchesSnoc(es);
    }
  }

  lemma {:induction false} SeenStep(cfg: Config, es: seq<Event>)
    requires Legal(cfg, es) && es != []
    ensures SeenBefore(es) == SeenAfter(After(cfg, es[..|es| - 1]), SeenBefore(es[..|es| - 1]), es[|es| - 1])
  {
    var init, e := es[..|es| - 1], es[|es| - 1];
    CurrentBatch(cfg, init);
    BatchesSnoc(es);
    var before := Batches(init);
    if e.Begin? {
      assert (before + [e.ids])[..|before|] == before;
    }
  }

  lemma SafePrefix(slots: nat, batches: seq<seq<Id>>, n: nat)
    requires AllSafe(slots, batches) && n <= |batches|
    ensures AllSafe(slots, batches[..n])
  {
    forall b | 0 <= b < n ensures Safe(slots, IdsOf(batches[..n][..b]), batches[..n][b]) {
      assert batches[..n][..b] == batches[..b];
      assert Safe(slots, IdsOf(batches[..b]), batches[b]);
    }
  }

  lemma {:induction false} RunApart(cfg: Config, es: seq<Event>)
    requires Legal(cfg, es) && AllSafe(cfg.Slots(), Batches(es))
    ensures Apart(cfg, After(cfg, es), SeenBefore(es)) && Sourced(cfg, After(cfg, es), SeenBefore(es))
  {
    if es != [] {
      var init, e := es[..|es| - 1], es[|es| - 1];
      var s, seen := After(cfg, init), SeenBefore(init);
      BatchesSnoc(es);
      SafePrefix(cfg.Slots(), Batches(es), |Batches(init)|);
      assert Batches(es)[..|Batches(init)|] == Batches(init);
      RunApart(cfg, init);
      RunInv(cfg, init);
      CurrentIsSafe(cfg, init);
      SeenStep(cfg, es);
      if Moves(e) {
        WorkerApart(cfg, s, seen, e);
        WorkerSourced(cfg, s, seen, e);
      } else {
        MainApart(cfg, s, seen, e);
        MainSourced(cfg, s, seen, e);
      }
    }
  }

  lemma CurrentIsSafe(cfg: Config, es: seq<Event>)
    requires Legal(cfg, es) && AllSafe(cfg.Slots(), Batches(es))
    ensures Safe(cfg.Slots(), SeenBefore(es), After(cfg, es).ids)
  {
    CurrentBatch(cfg, es);
    var batches := Batches(es);
    if batches != [] {
      assert Safe(cfg.Slots(), IdsOf(batches[..|batches| - 1]), batches[|batches| - 1]);
    }
  }

  /** With no ttl, marks only have to be in order. */
  lemma {:induction false} NoTtlSpaced(cfg: Config, es: seq<Event>)
    requires Legal(cfg, es) && cfg.ttl <= 0
    ensures Spaced(After(cfg, es).marks, cfg.ttl)
  {
    if es != [] {
      var init, e := es[..|es| - 1], es[|es| - 1];
      NoTtlSpaced(cfg, init);
      RunInv(cfg, init);
      var s := After(cfg, init);
      if e.MarkOk? {
        assert forall m :: m in s.marks ==> m.t <= s.clock;
        MarkIsSpaced(s.marks, cfg.ttl, s.clock, s.workers[e.w].id, e.t);
      }
    }
  }

  // ----- Batches that are not safe can be probed twice within the ttl

  /** Some history with these batches leads to s. */
  ghost predicate Reach(cfg: Config, batches: seq<seq<Id>>, s: State) {
    exists es :: Legal(cfg, es) && After(cfg, es) == s && Batches(es) == batches
  }

  lemma ReachStep(cfg: Config, batches: seq<seq<Id>>, s: State, e: Event)
    requires Reach(cfg, batches, s) && Enabled(cfg, s, e)
    ensures Reach(cfg, if e.Begin? then batches + [e.ids] else batches, Next(cfg, s, e))
  {
    var es :| Legal(cfg, es) && After(cfg, es) == s && Batches(es) == batches;
    LegalSnoc(cfg, es, e);
    var es' := es + [e];
    assert es'[..|es|] == es;
    BatchesSnoc(es');
  }

  lemma ReachInv(cfg: Config, batches: seq<seq<Id>>, s: State)
    requires Reach(cfg, batches, s)
    ensures Inv(cfg, s)
  {
    var es :| Legal(cfg, es) && After(cfg, es) == s && Batches(es) == batches;
    RunInv(cfg, es);
  }

  /** s' is s after worker w went through its probe, without time passing. */
  ghost predicate Finishes(s: State, s': State, w: nat, ok: bool)
    requires w < |s.workers|
  {
    && s'.workers == s.workers[w := Worker(s.workers[w].id, Finished(ok))] && s'.slots == s.slots - 1
    && s'.ids == s.ids && s'.next == s.next && s'.acquiring == s.acquiring && s'.running == s.running
    && s'.clock == s.clock
    && (if ok then s'.probed == s.probed[s.workers[w].id := s.clock]
          && s'.marks == s.marks + [Mark(s.workers[w].id, s.clock)]
        else s'.probed == s.probed && s'.marks == s.marks)
  }

  lemma Finish(cfg: Config, batches: seq<seq<Id>>, s: State, w: nat, ok: bool) returns (s': State)
    requires Reach(cfg, batches, s) && In(s, w, Spawned) && s.slots > 0
    ensures Reach(cfg, batches, s') && Finishes(s, s', w, ok)
  {
    var s1 := Next(cfg, s, Start(w));
    ReachStep(cfg, batches, s, Start(w));
    var outcome := if ok then Ok else Err("");
    var s2 := Next(cfg, s1, Account(w, outcome));
    ReachStep(cfg, batches, s1, Account(w, outcome));
    var s3 := s2;
    if ok {
      s3 := Next(cfg, s2, MarkOk(w, s2.clock));
      ReachStep(cfg, batches, s2, MarkOk(w, s2.clock));
    }
    s' := Next(cfg, s3, Release(w));
    ReachStep(cfg, batches, s3, Release(w));
  }

  /** s' is s with the next id dealt with, and the workers there were still as they were. */
  ghost predicate Served(s: State, s': State) {
    && s'.next == s.next + 1 && s'.ids == s.ids && s'.running == s.running && s'.acquiring == s.acquiring
    && s'.slots == s.slots && s'.clock == s.clock
    && |s.workers| <= |s'.workers| && s'.workers[..|s.workers|] == s.workers
  }

  /** The next id is skipped, or spawned and probed to the end. */
  lemma Serve(cfg: Config, batches: seq<seq<Id>>, s: State, ok: bool) returns (s': State)
    requires Reach(cfg, batches, s) && s.running && !s.acquiring && s.next < |s.ids|
    requires Recent(s.probed, s.ids[s.next], cfg.ttl, s.clock) || s.slots < cfg.Slots()
    ensures Reach(cfg, batches, s') && Served(s, s')
    ensures s'.probed ==
            if ok && !Recent(s.probed, s.ids[s.next], cfg.ttl, s.clock) then s.probed[s.ids[s.next] := s.clock]
            else s.probed
  {
    var s1 := Next(cfg, s, Check(s.clock));
    ReachStep(cfg, batches, s, Check(s.clock));
    if Recent(s.probed, s.ids[s.next], cfg.ttl, s.clock) {
      s' := s1;
    } else {
      var s2 := Next(cfg, s1, Acquire);
      ReachStep(cfg, batches, s1, Acquire);
      s' := Finish(cfg, batches, s2, |s.workers|, ok);
    }
  }

  /** At time 0: all of `known` but a has been probed with success, and a has not. */
  ghost predicate Warm(s: State, a: Id, known: set<Id>) {
    && s.clock == 0 && a !in s.probed && (forall x :: x in known ==> x == a || x in s.probed)
    && forall x :: x in s.probed ==> s.probed[x] == 0
  }

  /** The main loop is between ids. */
  predicate Between(s: State) {
    s.running && !s.acquiring
  }

  lemma SliceHead(ids: seq<Id>, i: nat, n: nat, known: set<Id>)
    requires i < n <= |ids|
    ensures known + {ids[i]} + Elements(ids[i + 1..n]) == known + Elements(ids[i..n])
  {
    assert ids[i..n] == [ids[i]] + ids[i + 1..n];
  }

  lemma PrefixOfPrefix(a: seq<Worker>, b: seq<Worker>, c: seq<Worker>)
    requires |a| <= |b| <= |c| && b[..|a|] == a && c[..|b|] == b
    ensures c[..|a|] == a
  {
    assert c[..|a|] == c[..|b|][..|a|];
  }

  /** The next ids up to position n are dealt with; probes of a fail, all others succeed. */
  lemma {:induction false} ServeUpTo(cfg: Config, batches: seq<seq<Id>>, s: State, a: Id, known: set<Id>, n: nat)
    returns (s': State)
    requires cfg.ttl > 0 && Reach(cfg, batches, s) && Between(s) && Warm(s, a, known) && s.next <= n <= |s.ids|
    requires s.slots < cfg.Slots() || forall k :: s.next <= k < n ==> s.ids[k] in s.probed
    ensures Reach(cfg, batches, s') && Between(s') && s'.ids == s.ids && s'.next == n && s'.slots == s.slots
    ensures Warm(s', a, known + Elements(s.ids[s.next..n]))
    ensures |s.workers| <= |s'.workers| && s'.workers[..|s.workers|] == s.workers
    decreases n - s.next
  {
    if s.next == n {
      s' := s;
    } else {
      var id := s.ids[s.next];
      var s1 := Serve(cfg, batches, s, id != a);
      s' := ServeUpTo(cfg, batches, s1, a, known + {id}, n);
      SliceHead(s.ids, s.next, n, known);
      PrefixOfPrefix(s.workers, s1.workers, s'.workers);
    }
  }

  lemma EndPass(cfg: Config, batches: seq<seq<Id>>, s: State) returns (s': State)
    requires Reach(cfg, batches, s) && Between(s) && s.next == |s.ids| && s.slots == 0
    ensures Reach(cfg, batches, s') && s' == s.(running := false)
  {
    ReachInv(cfg, batches, s);
    AllDone(s.workers);
    s' := Next(cfg, s, Return);
    ReachStep(cfg, batches, s, Return);
  }

  lemma BeginAt0(cfg: Config, batches: seq<seq<Id>>, s: State, ids: seq<Id>, a: Id, known: set<Id>) returns (s': State)
    requires cfg.ttl > 0 && Reach(cfg, batches, s) && !s.running && Warm(s, a, known)
    ensures Reach(cfg, batches + [ids], s') && Between(s') && s'.ids == ids && s'.next == 0 && s'.slots == 0
      && Warm(s', a, known)
  {
    s' := Next(cfg, s, Begin(ids, 0));
    ReachStep(cfg, batches, s, Begin(ids, 0));
  }

  /** All batches so far, each probed to the end; probes of a failed, all others succeeded. */
  lemma {:induction false} WarmUp(cfg: Config, batches: seq<seq<Id>>, a: Id) returns (s: State)
    requires cfg.ttl > 0
    ensures Reach(cfg, batches, s) && !s.running && Warm(s, a, IdsOf(batches))
  {
    if batches == [] {
      s := START;
      assert Legal(cfg, []) && After(cfg, []) == START && Batches([]) == [];
    } else {
      var init, ids := batches[..|batches| - 1], batches[|batches| - 1];
      var s0 := WarmUp(cfg, init, a);
      var s1 := BeginAt0(cfg, init, s0, ids, a, IdsOf(init));
      assert init + [ids] == batches;
      var s2 := ServeUpTo(cfg, batches, s1, a, IdsOf(init), |ids|);
      assert s1.ids[0..|ids|] == ids;
      s := EndPass(cfg, batches, s2);
    }
  }

  lemma {:induction false} NextOccurrence(ids: seq<Id>, i: nat, j: nat) returns (n: nat)
    requires i < j < |ids| && ids[i] == ids[j]
    ensures i < n <= j && ids[i] == ids[n] && forall k :: i < k < n ==> ids[k] != ids[i]
    decreases j
  {
    if k: nat :| i < k < j && ids[k] == ids[i] {
      n := NextOccurrence(ids, i, k);
    } else {
      n := j;
    }
  }

  /** The worker of the first occurrence is still alive when the second is checked. */
  lemma Overtake(cfg: Config, batches: seq<seq<Id>>, s: State, a: Id, known: set<Id>, j: nat) returns (s': State)
    requires cfg.ttl > 0 && Reach(cfg, batches, s) && Between(s) && Warm(s, a, known) && s.slots == 0
    requires s.next < j < |s.ids| && s.ids[s.next] == a == s.ids[j] && forall k :: s.next < k < j ==> s.ids[k] != a
    requires cfg.Slots() >= 2 || forall k :: s.next < k < j ==> s.ids[k] in known
    ensures Reach(cfg, batches, s') && Between(s') && Warm(s', a, {}) && s'.ids == s.ids && s'.next == j
      && s'.slots == 1
    ensures |s.workers| < |s'.workers| && s'.workers[|s.workers|] == Worker(a, Spawned)
  {
    var s1 := Next(cfg, s, Check(0));
    ReachStep(cfg, batches, s, Check(0));
    var s2 := Next(cfg, s1, Acquire);
    ReachStep(cfg, batches, s1, Acquire);
    s' := ServeUpTo(cfg, batches, s2, a, known, j);
    assert s2.workers[|s.workers|] == Worker(a, Spawned);
    assert s'.workers[..|s2.workers|][|s.workers|] == Worker(a, Spawned);
  }

  /** Both are probed with success, at the same time. */
  lemma Collide(cfg: Config, batches: seq<seq<Id>>, s: State, a: Id, w: nat) returns (s': State)
    requires cfg.ttl > 0 && Reach(cfg, batches, s) && Between(s) && Warm(s, a, {}) && s.slots == 1
    requires s.next < |s.ids| && s.ids[s.next] == a && w < |s.workers| && s.workers[w] == Worker(a, Spawned)
    ensures Reach(cfg, batches, s') && !Spaced(s'.marks, cfg.ttl)
  {
    var s1 := Next(cfg, s, Check(0));
    ReachStep(cfg, batches, s, Check(0));
    var s2 := Finish(cfg, batches, s1, w, true);
    var s3 := Next(cfg, s2, Acquire);
    ReachStep(cfg, batches, s2, Acquire);
    s' := Finish(cfg, batches, s3, |s2.workers|, true);
    assert s'.marks == s.marks + [Mark(a, 0)] + [Mark(a, 0)];
    assert s'.marks[|s.marks|] == Mark(a, 0) == s'.marks[|s.marks| + 1];
  }

  /** A batch that is not safe can be probed twice: some history whose last pass is over it marks
      one id twice at the same time. */
  lemma UnsafeCollides(cfg: Config, batches: seq<seq<Id>>, ids: seq<Id>, i: nat, j: nat) returns (s: State)
    requires cfg.ttl > 0 && Twice(cfg.Slots(), IdsOf(batches), ids, i, j)
    ensures Reach(cfg, batches + [ids], s) && !Spaced(s.marks, cfg.ttl)
  {
    var a, known := ids[i], IdsOf(batches);
    var n := NextOccurrence(ids, i, j);
    var s0 := WarmUp(cfg, batches, a);
    var s1 := BeginAt0(cfg, batches, s0, ids, a, known);
    var s2 := ServeUpTo(cfg, batches + [ids], s1, a, known, i);
    assert ids[0..i] == ids[..i];
    var s3 := Overtake(cfg, batches + [ids], s2, a, known + Elements(ids[..i]), n);
    s := Collide(cfg, batches + [ids], s3, a, |s2.workers|);
  }

  /** In every history with these batches, or with the first few of them, successful probes of the
      same id are at least a ttl apart. */
  ghost predicate KeepsApart(cfg: Config, batches: seq<seq<Id>>) {
    forall es :: Legal(cfg, es) && Batches(es) <= batches ==> Spaced(After(cfg, es).marks, cfg.ttl)
  }

  lemma SafeKeepsApart(cfg: Config, batches: seq<seq<Id>>, es: seq<Event>)
    requires cfg.ttl <= 0 || AllSafe(cfg.Slots(), batches)
    requires Legal(cfg, es) && Batches(es) <= batches
    ensures Spaced(After(cfg, es).marks, cfg.ttl)
  {
    if cfg.ttl <= 0 {
      NoTtlSpaced(cfg, es);
    } else {
      SafePrefix(cfg.Slots(), batches, |Batches(es)|);
      assert batches[..|Batches(es)|] == Batches(es);
      RunApart(cfg, es);
    }
  }

  lemma UnsafeBreaksApart(cfg: Config, batches: seq<seq<Id>>)
    requires cfg.ttl > 0 && !AllSafe(cfg.Slots(), batches)
    ensures !KeepsApart(cfg, batches)
  {
    var b :| 0 <= b < |batches| && !Safe(cfg.Slots(), IdsOf(batches[..b]), batches[b]);
    var i, j :| Twice(cfg.Slots(), IdsOf(batches[..b]), batches[b], i, j);
    var s := UnsafeCollides(cfg, batches[..b], batches[b], i, j);
    var es :| Legal(cfg, es) && After(cfg, es) == s && Batches(es) == batches[..b] + [batches[b]];
    assert Batches(es) <= batches && !Spaced(After(cfg, es).marks, cfg.ttl);
  }

  /** Over any number of passes, the successful probes of each provider are at least a ttl apart in
      every history if and only if every batch is safe, or there is no ttl to keep. */
  lemma SpacedIff(cfg: Config, batches: seq<seq<Id>>)
    ensures KeepsApart(cfg, batches) <==> cfg.ttl <= 0 || AllSafe(cfg.Slots(), batches)
  {
    if cfg.ttl <= 0 || AllSafe(cfg.Slots(), batches) {
      forall es | Legal(cfg, es) && Batches(es) <= batches ensures Spaced(After(cfg, es).marks, cfg.ttl) {
        SafeKeepsApart(cfg, batches, es);
      }
    } else {
      UnsafeBreaksApart(cfg, batches);
    }
  }

  // ----- What a safe batch is

  /** With two slots or more, exactly a batch without repeated ids. */
  lemma SafeIsDistinct(slots: nat, seen: set<Id>, ids: seq<Id>)
    requires slots >= 2
    ensures Safe(slots, seen, ids) <==> Distinct(ids)
  {
    if Safe(slots, seen, ids) {
      forall i, j | 0 <= i < j < |ids| ensures ids[i] != ids[j] {
        assert !Twice(slots, seen, ids, i, j);
      }
    }
  }

  /** A batch without repeated ids is safe with any number of slots. */
  lemma DistinctIsSafe(slots: nat, seen: set<Id>, ids: seq<Id>)
    requires Distinct(ids)
    ensures Safe(slots, seen, ids)
  {
  }

  ghost predicate AllDistinct(batches: seq<seq<Id>>) {
    forall b :: 0 <= b < |batches| ==> Distinct(batches[b])
  }

  /** Batches without repeated ids keep the probes apart, and with two slots and a ttl no others
      do. */
  lemma DistinctKeepsApart(cfg: Config, batches: seq<seq<Id>>)
    ensures AllDistinct(batches) ==> KeepsApart(cfg, batches)
    ensures cfg.Slots() >= 2 && cfg.ttl > 0 ==> (KeepsApart(cfg, batches) <==> AllDistinct(batches))
  {
    SpacedIff(cfg, batches);
    if AllDistinct(batches) {
      forall b | 0 <= b < |batches| ensures Safe(cfg.Slots(), IdsOf(batches[..b]), batches[b]) {
        DistinctIsSafe(cfg.Slots(), IdsOf(batches[..b]), batches[b]);
      }
    }
    if cfg.Slots() >= 2 && AllSafe(cfg.Slots(), batches) {
      forall b | 0 <= b < |batches| ensures Distinct(batches[b]) {
        SafeIsDistinct(cfg.Slots(), IdsOf(batches[..b]), batches[b]);
      }
    }
  }

  /** With one slot a repeated id is safe when something new stands between its occurrences, which
      has to wait for the first probe to end, and not when nothing does. */
  lemma OneSlot(a: Id, b: Id)
    requires a != b
    ensures Safe(1, {}, [a, b, a]) && !Safe(1, {}, [a, a]) && !Safe(1, {b}, [a, b, a]) && !Safe(1, {}, [b, a, b, a])
  {
    assert Twice(1, {}, [a, a], 0, 1);
    assert Twice(1, {b}, [a, b, a], 0, 2);
    assert [b, a, b, a][..1] == [b] && Known({}, [b, a, b, a], 1, b);
    assert Twice(1, {}, [b, a, b, a], 1, 3);
    forall i, j ensures !Twice(1, {}, [a, b, a], i, j) {
      if i == 0 && j == 2 {
        assert !Known({}, [a, b, a], 0, [a, b, a][1]);
      }
    }
  }
}
