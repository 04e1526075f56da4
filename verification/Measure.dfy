/** One bandwidth measurement (measure, openStream and readStream of bandwidth/bandwidth.go) as
    interleaved steps: STREAM_COUNT goroutines, a start gun, adversarial servers and a shared
    clock that does not run backwards. */
module Measure {
  import opened Window

  const STREAM_COUNT: nat := 8
  const STREAM_BYTES: nat := 2 * 1024 * 1024
  const MAX_SAMPLE_BYTES: nat := STREAM_COUNT * STREAM_BYTES
  const BUFFER: nat := 32 * 1024
  const EXCERPT: nat := 512
  const WARMUP := 500_000_000
  const SECOND := 1_000_000_000

  datatype Error = NoError | Error(code: nat)

  datatype Phase = Opening | AtGun | Reading | Done

  /** A stream and what has happened to the response body it received, if any: how often it was
      closed and how many bytes of it were read as an error excerpt. */
  datatype Stream = Stream(
    phase: Phase, resp: bool, err: Error, sums: Totals, received: bool, closes: nat, excerpt: nat)

  const FRESH := Stream(Opening, false, NoError, NOTHING, false, 0, 0)

  /** How a Body.Read ended: with more to come, at EOF, because the measurement's own deadline
      fired while the probe was alive, or with any other error. */
  datatype ReadEnd = More | Eof | TimeCap | Failed(code: nat)

  datatype Event =
    | OpenFails(i: nat, code: nat)
    | OpenRefused(i: nat, code: nat, excerpt: nat)   // a status other than 200
    | OpenOk(i: nat)
    | Fire(t: int)
    | Leave(i: nat)                                  // past the gun
    | Read(i: nat, n: nat, outcome: ReadEnd, t: int)

  datatype Config = Config(measureStart: int, timeout: int)

  datatype State = State(streams: seq<Stream>, fired: bool, abort: bool, start: int, clock: int, log: seq<ReadRecord>) {
    function From(): int { start + WARMUP }
  }

  function Initial(cfg: Config): State {
    State(seq(STREAM_COUNT, i => FRESH), false, false, 0, cfg.measureStart, [])
  }

  /** Room for the next read: never more than the stream's remaining allowance. */
  function Room(sums: Totals): int {
    if STREAM_BYTES - sums.total < BUFFER then STREAM_BYTES - sums.total else BUFFER
  }

  /** Does readStream return after this read? */
  predicate Stops(cfg: Config, sums: Totals, outcome: ReadEnd, t: int) {
    STREAM_BYTES <= sums.total || outcome != More || cfg.timeout <= t - cfg.measureStart
  }

  /** What it returns: a stream that has its bytes is not failed by an error behind them. */
  function ErrorOf(sums: Totals, outcome: ReadEnd): Error {
    if sums.total < STREAM_BYTES && outcome.Failed? then Error(outcome.code) else NoError
  }

  predicate Opens(e: Event, i: nat) {
    (e.OpenFails? || e.OpenRefused? || e.OpenOk?) && e.i == i
  }

  ghost predicate Enabled(cfg: Config, m: State, e: Event)
    requires |m.streams| == STREAM_COUNT
  {
    match e
    case OpenFails(i, _) => i < STREAM_COUNT && m.streams[i].phase == Opening
    case OpenRefused(i, _, excerpt) => i < STREAM_COUNT && m.streams[i].phase == Opening && excerpt <= EXCERPT
    case OpenOk(i) => i < STREAM_COUNT && m.streams[i].phase == Opening
    case Fire(t) => !m.fired && m.clock <= t && forall i :: 0 <= i < STREAM_COUNT ==> m.streams[i].phase == AtGun
    case Leave(i) => i < STREAM_COUNT && m.fired && m.streams[i].phase == AtGun
    case Read(i, n, _, t) =>
      i < STREAM_COUNT && m.streams[i].phase == Reading && n <= Room(m.streams[i].sums) && m.clock <= t
  }

  /** One pass of the read loop: the first read at or after the warmup boundary opens the steady
      part, every later one counts towards it, and the last read so far is the end. */
  function Observe(sums: Totals, n: nat, t: int, from: int): Totals {
    if from <= t then
      Totals(sums.total + n, sums.steadyBytes + n, if sums.steadyStart.Zero? then At(t) else sums.steadyStart, At(t))
    else Totals(sums.total + n, sums.steadyBytes, sums.steadyStart, At(t))
  }

  function AfterRead(cfg: Config, s: Stream, n: nat, outcome: ReadEnd, t: int, from: int): Stream {
    var sums := Observe(s.sums, n, t, from);
    if Stops(cfg, sums, outcome, t) then
      s.(sums := sums, err := ErrorOf(sums, outcome), phase := Done, closes := s.closes + 1)
    else s.(sums := sums)
  }

  ghost function Next(cfg: Config, m: State, e: Event): (m': State)
    requires |m.streams| == STREAM_COUNT && Enabled(cfg, m, e)
    ensures |m'.streams| == STREAM_COUNT
  {
    match e
    case OpenFails(i, code) =>
      m.(streams := m.streams[i := m.streams[i].(phase := AtGun, err := Error(code))])
    case OpenRefused(i, code, excerpt) =>
      var s := m.streams[i].(phase := AtGun, err := Error(code), received := true, closes := 1, excerpt := excerpt);
      m.(streams := m.streams[i := s])
    case OpenOk(i) =>
      m.(streams := m.streams[i := m.streams[i].(phase := AtGun, resp := true, received := true)])
    case Fire(t) =>
      var failed := exists i :: 0 <= i < STREAM_COUNT && m.streams[i].err != NoError;
      m.(fired := true, abort := failed, start := t, clock := t)
    case Leave(i) =>
      var s := m.streams[i];
      var s' := if !s.resp then s.(phase := Done)
                else if m.abort || s.err != NoError then s.(phase := Done, closes := s.closes + 1)
                else s.(phase := Reading);
      m.(streams := m.streams[i := s'])
    case Read(i, n, outcome, t) =>
      m.(streams := m.streams[i := AfterRead(cfg, m.streams[i], n, outcome, t, m.From())],
         clock := t, log := m.log + [ReadRecord(i, n, t)])
  }

  /** A legal run of the measurement, as the states it goes through. */
  ghost predicate Legal(cfg: Config, es: seq<Event>)
    decreases |es|, 0
  {
    es == [] || (Legal(cfg, es[..|es| - 1]) && Enabled(cfg, After(cfg, es[..|es| - 1]), es[|es| - 1]))
  }

  ghost function After(cfg: Config, es: seq<Event>): (m: State)
    requires Legal(cfg, es)
    ensures |m.streams| == STREAM_COUNT
    decreases |es|, 1
  {
    if es == [] then Initial(cfg) else Next(cfg, After(cfg, es[..|es| - 1]), es[|es| - 1])
  }

  // ----- What every step keeps

  /** One stream, given the barrier's state. */
  ghost predicate StreamOk(s: Stream, fired: bool, abort: bool) {
    && s.sums.total <= STREAM_BYTES && s.excerpt <= EXCERPT && (if s.resp then s.excerpt == 0 else s.sums == NOTHING)
    && (s.phase != Reading && s.phase != Done ==> s.sums == NOTHING)
    && match s.phase
       case Opening => s == FRESH && !fired
       case AtGun =>
         (s.resp <==> s.err == NoError) && s.closes == (if s.received && !s.resp then 1 else 0)
           && (s.resp ==> s.received)
       case Reading =>
         fired && !abort && s.resp && s.err == NoError && s.received && s.closes == 0 && s.sums.total < STREAM_BYTES
       case Done =>
         fired && s.closes == (if s.received then 1 else 0)
           && (abort ==> s.sums == NOTHING && (s.resp <==> s.err == NoError))
  }

  /** Before the gun nothing was read; after it, `abort` says whether some open failed, and each
      stream's sums are those of its own reads in the merged log. */
  ghost predicate Inv(cfg: Config, m: State) {
    && |m.streams| == STREAM_COUNT
    && (forall i :: 0 <= i < STREAM_COUNT ==> StreamOk(m.streams[i], m.fired, m.abort))
    && (!m.fired ==> !m.abort && m.log == [])
    && (m.abort ==> m.log == [] && exists i :: 0 <= i < STREAM_COUNT && !m.streams[i].resp)
    && (m.fired && !m.abort ==> forall i :: 0 <= i < STREAM_COUNT ==> m.streams[i].resp)
    && (forall k :: 0 <= k < |m.log| ==> m.log[k].i < STREAM_COUNT && m.start <= m.log[k].t <= m.clock)
    && (m.fired ==> m.start <= m.clock)
  }

  predicate By(sums: Totals, clock: int) {
    (sums.steadyStart.At? ==> sums.steadyStart.t <= clock) && (sums.end.At? ==> sums.end.t <= clock)
  }

  ghost predicate SumsMatchLog(m: State)
    requires |m.streams| == STREAM_COUNT
  {
    forall i :: 0 <= i < STREAM_COUNT ==>
      m.streams[i].sums == OfStream(m.log, i, m.From()) && By(m.streams[i].sums, m.clock)
  }

  /** As the clock does not run backwards, the first read is the earliest and the last the
      latest. */
  lemma ObserveIsAdd(sums: Totals, r: ReadRecord, from: int)
    requires By(sums, r.t)
    ensures Observe(sums, r.n, r.t, from) == Add(sums, OneRead(r, from)) && By(Observe(sums, r.n, r.t, from), r.t)
  {
  }

  lemma InitialInv(cfg: Config)
    ensures Inv(cfg, Initial(cfg)) && SumsMatchLog(Initial(cfg))
  {
  }

  lemma StepInv(cfg: Config, m: State, e: Event)
    requires Inv(cfg, m) && Enabled(cfg, m, e)
    ensures Inv(cfg, Next(cfg, m, e))
  {
    var m' := Next(cfg, m, e);
    if m'.abort {
      if e.Fire? {
        var i :| 0 <= i < STREAM_COUNT && m.streams[i].err != NoError;
        assert !m'.streams[i].resp;
      } else {
        var i :| 0 <= i < STREAM_COUNT && !m.streams[i].resp;
        assert !m'.streams[i].resp;
      }
    }
  }

  lemma StepSums(cfg: Config, m: State, e: Event)
    requires Inv(cfg, m) && SumsMatchLog(m) && Enabled(cfg, m, e)
    ensures SumsMatchLog(Next(cfg, m, e))
  {
    var m' := Next(cfg, m, e);
    if e.Read? {
      var r := ReadRecord(e.i, e.n, e.t);
      assert m'.log[..|m.log|] == m.log;
      forall i | 0 <= i < STREAM_COUNT
        ensures m'.streams[i].sums == OfStream(m'.log, i, m'.From()) && By(m'.streams[i].sums, m'.clock)
      {
        assert m.streams[i].sums == OfStream(m.log, i, m.From()) && By(m.streams[i].sums, m.clock);
        ObserveIsAdd(m.streams[i].sums, r, m.From());
      }
    } else {
      forall i | 0 <= i < STREAM_COUNT
        ensures m'.streams[i].sums == OfStream(m'.log, i, m'.From()) && By(m'.streams[i].sums, m'.clock)
      {
        assert StreamOk(m.streams[i], m.fired, m.abort);
        assert m.streams[i].sums == OfStream(m.log, i, m.From()) && By(m.streams[i].sums, m.clock);
      }
    }
  }

  lemma {:induction false} RunInv(cfg: Config, es: seq<Event>)
    requires Legal(cfg, es)
    ensures Inv(cfg, After(cfg, es)) && SumsMatchLog(After(cfg, es))
  {
    if es == [] {
      InitialInv(cfg);
    } else {
      var init := es[..|es| - 1];
      RunInv(cfg, init);
      StepInv(cfg, After(cfg, init), es[|es| - 1]);
      StepSums(cfg, After(cfg, init), es[|es| - 1]);
    }
  }

  // ----- The barrier

  ghost predicate AllDone(m: State) {
    forall i :: 0 <= i < |m.streams| ==> m.streams[i].phase == Done
  }

  /** The start gun never deadlocks: until every goroutine has returned, some step is possible. */
  lemma NeverDeadlocks(cfg: Config, m: State) returns (e: Event)
    requires Inv(cfg, m) && !AllDone(m)
    ensures Enabled(cfg, m, e)
  {
    if i :| 0 <= i < STREAM_COUNT && m.streams[i].phase == Opening {
      e := OpenOk(i);
    } else if !m.fired {
      assert forall i :: 0 <= i < STREAM_COUNT ==> StreamOk(m.streams[i], false, m.abort);
      e := Fire(m.clock);
    } else {
      var i :| 0 <= i < STREAM_COUNT && m.streams[i].phase != Done;
      e := if m.streams[i].phase == AtGun then Leave(i) else Read(i, 0, Eof, m.clock);
    }
  }

  /** What later states keep of earlier ones: the gun stays fired, an open that has ended stays
      ended, with the response or the error it got. */
  ghost predicate Keeps(m: State, m': State)
    requires |m.streams| == |m'.streams| == STREAM_COUNT
  {
    && (m.fired ==> m'.fired)
    && forall i :: 0 <= i < STREAM_COUNT ==> KeepsStream(m.streams[i], m'.streams[i])
  }

  predicate KeepsStream(s: Stream, s': Stream) {
    s.phase != Opening ==> s'.phase != Opening && s'.resp == s.resp && (!s.resp ==> s'.err == s.err)
  }

  lemma StepKeeps(cfg: Config, m: State, e: Event)
    requires Inv(cfg, m) && Enabled(cfg, m, e)
    ensures Keeps(m, Next(cfg, m, e))
  {
    var m' := Next(cfg, m, e);
    forall i | 0 <= i < STREAM_COUNT
      ensures KeepsStream(m.streams[i], m'.streams[i])
    {
      assert StreamOk(m.streams[i], m.fired, m.abort);
    }
  }

  lemma KeepsTransitive(a: State, b: State, c: State)
    requires |a.streams| == |b.streams| == |c.streams| == STREAM_COUNT && Keeps(a, b) && Keeps(b, c)
    ensures Keeps(a, c)
  {
    forall i | 0 <= i < STREAM_COUNT
      ensures KeepsStream(a.streams[i], c.streams[i])
    {
      assert KeepsStream(a.streams[i], b.streams[i]) && KeepsStream(b.streams[i], c.streams[i]);
    }
  }

  lemma LegalPrefix(cfg: Config, es: seq<Event>, k: nat)
    requires Legal(cfg, es) && k <= |es|
    ensures Legal(cfg, es[..k])
    decreases |es|
  {
    if k < |es| {
      LegalPrefix(cfg, es[..|es| - 1], k);
      assert es[..|es| - 1][..k] == es[..k];
    } else {
      assert es[..k] == es;
    }
  }

  /** The event at position k is a step from the state its prefix leads to. */
  lemma StepAt(cfg: Config, es: seq<Event>, k: nat)
    requires Legal(cfg, es) && k < |es|
    ensures Legal(cfg, es[..k]) && Legal(cfg, es[..k + 1]) && Enabled(cfg, After(cfg, es[..k]), es[k])
    ensures After(cfg, es[..k + 1]) == Next(cfg, After(cfg, es[..k]), es[k])
    ensures Inv(cfg, After(cfg, es[..k]))
  {
    LegalPrefix(cfg, es, k);
    LegalPrefix(cfg, es, k + 1);
    assert es[..k + 1][..k] == es[..k];
    RunInv(cfg, es[..k]);
  }

  lemma {:induction false} KeptUntil(cfg: Config, es: seq<Event>, j: nat, k: nat)
    requires Legal(cfg, es) && j <= k <= |es|
    ensures Legal(cfg, es[..j]) && Legal(cfg, es[..k]) && Keeps(After(cfg, es[..j]), After(cfg, es[..k]))
    decreases k
  {
    LegalPrefix(cfg, es, j);
    if j < k {
      KeptUntil(cfg, es, j, k - 1);
      StepAt(cfg, es, k - 1);
      StepKeeps(cfg, After(cfg, es[..k - 1]), es[k - 1]);
      KeepsTransitive(After(cfg, es[..j]), After(cfg, es[..k - 1]), After(cfg, es[..k]));
    }
  }

  lemma {:induction false} OpenedBefore(cfg: Config, es: seq<Event>, i: nat) returns (k: nat)
    requires Legal(cfg, es) && i < STREAM_COUNT && After(cfg, es).streams[i].phase != Opening
    ensures k < |es| && Opens(es[k], i)
  {
    var n := |es| - 1;
    if Opens(es[n], i) {
      k := n;
    } else {
      k := OpenedBefore(cfg, es[..n], i);
    }
  }

  /** No read released by the gun happens before all opens have ended, in any interleaving. */
  lemma ReadsFollowOpens(cfg: Config, es: seq<Event>, j: nat, i: nat) returns (k: nat)
    requires Legal(cfg, es) && j < |es| && es[j].Read? && i < STREAM_COUNT
    ensures k < j && Opens(es[k], i)
  {
    StepAt(cfg, es, j);
    assert StreamOk(After(cfg, es[..j]).streams[es[j].i], After(cfg, es[..j]).fired, After(cfg, es[..j]).abort);
    assert StreamOk(After(cfg, es[..j]).streams[i], true, After(cfg, es[..j]).abort);
    k := OpenedBefore(cfg, es[..j], i);
  }

  predicate OpenFailed(e: Event) {
    e.OpenFails? || e.OpenRefused?
  }

  /** If any open failed, no stream drains a body: a run with a failed open has no reads. */
  lemma FailedOpenDrainsNothing(cfg: Config, es: seq<Event>, j: nat, k: nat)
    requires Legal(cfg, es) && j < |es| && k < |es| && OpenFailed(es[j])
    ensures !es[k].Read?
  {
    if es[k].Read? {
      StepAt(cfg, es, j);
      StepAt(cfg, es, k);
      var m, m' := After(cfg, es[..k]), After(cfg, es[..j]);
      var i := es[j].i;
      assert StreamOk(m.streams[es[k].i], m.fired, m.abort) && StreamOk(m'.streams[i], m'.fired, m'.abort);
      if j < k {
        assert m.streams[i].resp;
        assert !After(cfg, es[..j + 1]).streams[i].resp;
        KeptUntil(cfg, es, j + 1, k);
      } else {
        KeptUntil(cfg, es, k, j);
      }
    }
  }

  /** Then the measurement fails, with no bytes and the error of the lowest-numbered stream whose
      open failed. */
  lemma LowestFailureReported(cfg: Config, es: seq<Event>, j: nat)
    requires Legal(cfg, es) && AllDone(After(cfg, es)) && j < |es| && OpenFailed(es[j])
    requires forall k :: 0 <= k < |es| && OpenFailed(es[k]) ==> es[j].i <= es[k].i
    ensures Report(After(cfg, es).streams, After(cfg, es).start) == Broken(Error(es[j].code), 0)
  {
    var m := After(cfg, es);
    RunInv(cfg, es);
    AbortedAfter(cfg, es, j);
    forall i | 0 <= i < es[j].i
      ensures m.streams[i].err == NoError
    {
      assert StreamOk(m.streams[i], true, true);
      var k := OpenedBefore(cfg, es, i);
      OpenOkKept(cfg, es, k);
    }
    FirstErrorAt(m.streams, es[j].i);
    SumOfNothing(STREAM_COUNT);
    assert SumsOf(m.streams) == seq(STREAM_COUNT, i => NOTHING);
  }

  /** Once an open has failed the run is aborted when all have returned, and the stream keeps its
      error. */
  lemma AbortedAfter(cfg: Config, es: seq<Event>, j: nat)
    requires Legal(cfg, es) && j < |es| && OpenFailed(es[j]) && AllDone(After(cfg, es))
    ensures var m := After(cfg, es);
            es[j].i < STREAM_COUNT && m.streams[es[j].i].err == Error(es[j].code) && m.fired && m.abort
  {
    StepAt(cfg, es, j);
    var m := After(cfg, es);
    RunInv(cfg, es);
    assert es[..|es|] == es;
    var i := es[j].i;
    assert StreamOk(m.streams[i], m.fired, m.abort);
    KeptUntil(cfg, es, j + 1, |es|);
    assert KeepsStream(After(cfg, es[..j + 1]).streams[i], m.streams[i]);
  }

  lemma OpenOkKept(cfg: Config, es: seq<Event>, k: nat)
    requires Legal(cfg, es) && k < |es| && es[k].OpenOk?
    ensures es[k].i < STREAM_COUNT && After(cfg, es).streams[es[k].i].resp
  {
    StepAt(cfg, es, k);
    KeptUntil(cfg, es, k + 1, |es|);
    assert es[..|es|] == es;
    assert KeepsStream(After(cfg, es[..k + 1]).streams[es[k].i], After(cfg, es).streams[es[k].i]);
  }

  /** Every body received is closed exactly once, and never twice on the way. */
  lemma ClosedExactlyOnce(cfg: Config, es: seq<Event>, i: nat)
    requires Legal(cfg, es) && i < STREAM_COUNT
    ensures var m := After(cfg, es);
            m.streams[i].closes <= 1 && (AllDone(m) ==> m.streams[i].closes == if m.streams[i].received then 1 else 0)
  {
    RunInv(cfg, es);
    assert StreamOk(After(cfg, es).streams[i], After(cfg, es).fired, After(cfg, es).abort);
  }

  // ----- The byte cap

  /** Bytes read from response bodies, error excerpts included. */
  function BodyBytes(streams: seq<Stream>): nat {
    if streams == [] then 0
    else
      var s := streams[|streams| - 1];
      BodyBytes(streams[..|streams| - 1]) + s.sums.total + s.excerpt
  }

  lemma {:induction false} BodyBytesAtMost(streams: seq<Stream>, fired: bool, abort: bool)
    requires forall i :: 0 <= i < |streams| ==> StreamOk(streams[i], fired, abort)
    ensures BodyBytes(streams) <= |streams| * STREAM_BYTES
  {
    if streams != [] {
      BodyBytesAtMost(streams[..|streams| - 1], fired, abort);
      assert StreamOk(streams[|streams| - 1], fired, abort);
    }
  }

  /** At no point has a measurement moved more than it reserved. */
  lemma NeverOverReserved(cfg: Config, es: seq<Event>)
    requires Legal(cfg, es)
    ensures BodyBytes(After(cfg, es).streams) <= MAX_SAMPLE_BYTES
  {
    RunInv(cfg, es);
    BodyBytesAtMost(After(cfg, es).streams, After(cfg, es).fired, After(cfg, es).abort);
  }

  // ----- The figure

  datatype Outcome =
    | Broken(err: Error, bytes: nat)
    | NoSample(bytes: nat)
    | Measured(rate: real, bytes: nat, warmupExcluded: bool, elapsed: int)

  function Rate(bytes: nat, elapsed: int): real
    requires elapsed > 0
  {
    (bytes as real) * (SECOND as real) / (elapsed as real)
  }

  function Elapsed(from: Time, to: Time): int {
    if from.At? && to.At? then to.t - from.t else 0
  }

  /** The rate of a window: over the steady state when it has one, else over the whole transfer. */
  function Figure(w: Totals, start: int): Outcome {
    var steady, whole := Elapsed(w.steadyStart, w.end), Elapsed(At(start), w.end);
    if w.total == 0 then NoSample(0)
    else if steady > 0 && w.steadyBytes > 0 then Measured(Rate(w.steadyBytes, steady), w.total, true, steady)
    else if whole > 0 then Measured(Rate(w.total, whole), w.total, false, whole)
    else NoSample(w.total)
  }

  function SumsOf(streams: seq<Stream>): seq<Totals> {
    seq(|streams|, i requires 0 <= i < |streams| => streams[i].sums)
  }

  /** The error of the lowest-numbered stream that has one. */
  function FirstError(streams: seq<Stream>): Error {
    if streams == [] then NoError
    else if FirstError(streams[..|streams| - 1]) != NoError then FirstError(streams[..|streams| - 1])
    else streams[|streams| - 1].err
  }

  lemma {:induction false} FirstErrorIsLowest(streams: seq<Stream>)
    ensures if FirstError(streams) == NoError then forall i :: 0 <= i < |streams| ==> streams[i].err == NoError
            else
              exists i :: 0 <= i < |streams| && streams[i].err == FirstError(streams) &&
                          forall j :: 0 <= j < i ==> streams[j].err == NoError
  {
    if streams != [] {
      var init := streams[..|streams| - 1];
      FirstErrorIsLowest(init);
      if FirstError(init) != NoError {
        var i :| 0 <= i < |init| && init[i].err == FirstError(init)
          && forall j :: 0 <= j < i ==> init[j].err == NoError;
        assert streams[i].err == FirstError(streams);
      } else {
        assert forall j :: 0 <= j < |init| ==> init[j].err == NoError;
      }
    }
  }

  lemma FirstErrorAt(streams: seq<Stream>, i: nat)
    requires i < |streams| && streams[i].err != NoError && forall j :: 0 <= j < i ==> streams[j].err == NoError
    ensures FirstError(streams) == streams[i].err
  {
    FirstErrorIsLowest(streams);
  }

  function Report(streams: seq<Stream>, start: int): Outcome {
    var w := Sum(SumsOf(streams));
    if FirstError(streams) != NoError then Broken(FirstError(streams), w.total) else Figure(w, start)
  }

  /** In every interleaving, what the per-stream accumulators add up to is the window of the
      merged log of all reads. */
  lemma AccumulatorsAreWindow(cfg: Config, es: seq<Event>)
    requires Legal(cfg, es)
    ensures var m := After(cfg, es); IsWindow(m.log, m.From(), Sum(SumsOf(m.streams)))
  {
    RunInv(cfg, es);
    var m := After(cfg, es);
    StreamsAddUp(m.log, STREAM_COUNT, m.From());
    assert SumsOf(m.streams) == PerStream(m.log, STREAM_COUNT, m.From());
    LogIsWindow(m.log, m.From());
  }

  /** A published figure is a positive rate, over a window of the merged log, for no more bytes
      than were reserved. */
  lemma FigureIsSound(cfg: Config, es: seq<Event>)
    requires Legal(cfg, es) && Report(After(cfg, es).streams, After(cfg, es).start).Measured?
    ensures var m := After(cfg, es);
            var o, w := Report(m.streams, m.start), Sum(SumsOf(m.streams));
            && IsWindow(m.log, m.From(), w) && w.end.At?
            && o.rate > 0.0 && o.bytes == AllBytes(m.log) <= MAX_SAMPLE_BYTES
            && if o.warmupExcluded then
                 && w.steadyStart.At?
                 && o.rate == Rate(BytesWithin(m.log, w.steadyStart.t, w.end.t), w.end.t - w.steadyStart.t)
               else o.rate == Rate(AllBytes(m.log), w.end.t - m.start)
  {
    AccumulatorsAreWindow(cfg, es);
    var m := After(cfg, es);
    NeverOverReserved(cfg, es);
    TotalIsBody(m.streams);
    var o := Report(m.streams, m.start);
    RatePositive(if o.warmupExcluded then Sum(SumsOf(m.streams)).steadyBytes else o.bytes, o.elapsed);
  }

  lemma RatePositive(bytes: nat, elapsed: int)
    requires bytes > 0 && elapsed > 0
    ensures Rate(bytes, elapsed) > 0.0
  {
    assert (bytes as real) * (SECOND as real) > 0.0;
  }

  lemma {:induction false} TotalIsBody(streams: seq<Stream>)
    ensures Sum(SumsOf(streams)).total <= BodyBytes(streams)
  {
    if streams != [] {
      TotalIsBody(streams[..|streams| - 1]);
      assert SumsOf(streams)[..|streams| - 1] == SumsOf(streams[..|streams| - 1]);
    }
  }

  /** The aggregation at the end of measure. */
  method Aggregate(streams: seq<Stream>, start: int) returns (o: Outcome)
    ensures o == Report(streams, start)
  {
    var total: nat, steadyBytes: nat := 0, 0;
    var windowStart, windowEnd, firstErr := Zero, Zero, NoError;
    for i := 0 to |streams|
      invariant Totals(total, steadyBytes, windowStart, windowEnd) == Sum(SumsOf(streams[..i]))
      invariant firstErr == FirstError(streams[..i])
    {
      assert streams[..i + 1][..i] == streams[..i];
      assert SumsOf(streams[..i + 1])[..i] == SumsOf(streams[..i]);
      var s := streams[i];
      total := total + s.sums.total;
      steadyBytes := steadyBytes + s.sums.steadyBytes;
      if s.sums.end.At? && (windowEnd.Zero? || windowEnd.t < s.sums.end.t) {
        windowEnd := s.sums.end;
      }
      if s.sums.steadyStart.At? {
        if windowStart.Zero? || s.sums.steadyStart.t < windowStart.t {
          windowStart := s.sums.steadyStart;
        }
      }
      if firstErr == NoError {
        firstErr := s.err;
      }
    }
    assert streams[..|streams|] == streams;
    if firstErr != NoError {
      return Broken(firstErr, total);
    }
    if total <= 0 {
      return NoSample(0);
    }
    var steadyElapsed := Elapsed(windowStart, windowEnd);
    if windowStart.At? && 0 < steadyElapsed && 0 < steadyBytes {
      return Measured(Rate(steadyBytes, steadyElapsed), total, true, steadyElapsed);
    }
    var totalElapsed := Elapsed(At(start), windowEnd);
    if totalElapsed <= 0 {
      return NoSample(total);
    }
    return Measured(Rate(total, totalElapsed), total, false, totalElapsed);
  }
}
