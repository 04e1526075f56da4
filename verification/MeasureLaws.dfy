/** What a measurement reports, said of its log of reads and of its events alone
    (bandwidth/bandwidth.go): when the warmup is excluded, when there is no sample, and when the
    measurement fails. */
module MeasureLaws {
  import opened Measure
  import opened Window

  // ----- Which figure is published

  /** Bytes of the reads that completed at or after an instant. */
  function BytesFrom(log: seq<ReadRecord>, from: int): nat {
    if log == [] then 0
    else BytesFrom(log[..|log| - 1], from) + if from <= log[|log| - 1].t then log[|log| - 1].n else 0
  }

  /** Two reads past the warmup boundary completed at different instants. */
  ghost predicate HasSteadyPart(log: seq<ReadRecord>, from: int) {
    exists j, k :: 0 <= j < |log| && 0 <= k < |log| && from <= log[j].t < log[k].t
  }

  ghost predicate ReadAfter(log: seq<ReadRecord>, start: int) {
    exists k :: 0 <= k < |log| && start < log[k].t
  }

  lemma {:induction false} WindowBytes(log: seq<ReadRecord>, from: int, lo: int, hi: int)
    requires forall k :: 0 <= k < |log| ==> log[k].t <= hi && (from <= log[k].t <==> lo <= log[k].t)
    ensures BytesWithin(log, lo, hi) == BytesFrom(log, from)
  {
    if log != [] { WindowBytes(log[..|log| - 1], from, lo, hi); }
  }

  lemma {:induction false} NoBytesFrom(log: seq<ReadRecord>, from: int)
    requires forall k :: 0 <= k < |log| ==> log[k].t < from
    ensures BytesFrom(log, from) == 0
  {
    if log != [] { NoBytesFrom(log[..|log| - 1], from); }
  }

  /** A window has length exactly when two reads fall on different instants of it. */
  lemma WindowLength(log: seq<ReadRecord>, from: int, w: Totals)
    requires IsWindow(log, from, w)
    ensures HasSteadyPart(log, from) <==> Elapsed(w.steadyStart, w.end) > 0
    ensures w.steadyBytes == BytesFrom(log, from)
  {
    if w.steadyStart.At? {
      var lo, hi := w.steadyStart.t, w.end.t;
      WindowBytes(log, from, lo, hi);
      var j :| 0 <= j < |log| && log[j].t == lo;
      var k :| 0 <= k < |log| && log[k].t == hi;
      assert lo < hi ==> from <= log[j].t < log[k].t;
    } else {
      NoBytesFrom(log, from);
    }
  }

  lemma WholeLength(log: seq<ReadRecord>, from: int, start: int, w: Totals)
    requires IsWindow(log, from, w)
    ensures ReadAfter(log, start) <==> Elapsed(At(start), w.end) > 0
  {
  }

  lemma RateIs(bytes: nat, elapsed: int)
    requires elapsed > 0
    ensures Rate(bytes, elapsed) * (elapsed as real) == (bytes as real) * 1_000_000_000.0
  {
  }

  ghost predicate NoErrors(streams: seq<Stream>) {
    forall i :: 0 <= i < |streams| ==> streams[i].err == NoError
  }

  /** Over every run without a stream error: the figure excludes the warmup exactly when two reads
      past the boundary completed at different instants and the reads from there on moved bytes;
      otherwise it is over the whole transfer, if that moved bytes and has a length; otherwise
      there is no sample. */
  lemma WhichFigure(cfg: Config, es: seq<Event>)
    requires Legal(cfg, es) && NoErrors(After(cfg, es).streams)
    ensures var m := After(cfg, es);
            var o := Report(m.streams, m.start);
            var steady := HasSteadyPart(m.log, m.From()) && BytesFrom(m.log, m.From()) > 0;
            var whole := AllBytes(m.log) > 0 && ReadAfter(m.log, m.start);
            && o.bytes == AllBytes(m.log)
            && (o.Measured? && o.warmupExcluded <==> steady)
            && (o.Measured? && !o.warmupExcluded <==> !steady && whole)
            && (o.NoSample? <==> !steady && !whole)
  {
    var m := After(cfg, es);
    var w := Sum(SumsOf(m.streams));
    AccumulatorsAreWindow(cfg, es);
    WindowLength(m.log, m.From(), w);
    WholeLength(m.log, m.From(), m.start, w);
    FirstErrorIsLowest(m.streams);
    BytesFromAtMostAll(m.log, m.From());
  }

  lemma {:induction false} BytesFromAtMostAll(log: seq<ReadRecord>, from: int)
    ensures BytesFrom(log, from) <= AllBytes(log)
  {
    if log != [] { BytesFromAtMostAll(log[..|log| - 1], from); }
  }

  /** o is the rate, in bytes a second, of these bytes over the time between two instants. */
  predicate IsRate(o: Outcome, bytes: nat, first: int, last: int) {
    && o.Measured? && o.elapsed == last - first > 0
    && o.rate * ((last - first) as real) == (bytes as real) * 1_000_000_000.0
  }

  lemma FigureRate(log: seq<ReadRecord>, from: int, w: Totals, start: int) returns (first: int, last: int)
    requires IsWindow(log, from, w) && Figure(w, start).Measured?
    ensures Latest(log, last)
    ensures Figure(w, start).warmupExcluded ==>
      EarliestFrom(log, from, first) && IsRate(Figure(w, start), BytesFrom(log, from), first, last)
    ensures !Figure(w, start).warmupExcluded ==>
      first == start && IsRate(Figure(w, start), AllBytes(log), first, last)
  {
    last := w.end.t;
    WindowLength(log, from, w);
    if Figure(w, start).warmupExcluded {
      first := w.steadyStart.t;
      RateIs(w.steadyBytes, last - first);
    } else {
      first := start;
      RateIs(w.total, last - first);
    }
  }

  /** The rate published is bytes a second: those read from the warmup boundary on, over the time
      from the first read there to the last, or all of them, over the time from the gun to the
      last. */
  lemma RateOfFigure(cfg: Config, es: seq<Event>) returns (first: int, last: int)
    requires Legal(cfg, es) && Report(After(cfg, es).streams, After(cfg, es).start).Measured?
    ensures var m := After(cfg, es);
            var o := Report(m.streams, m.start);
            && Latest(m.log, last)
            && if o.warmupExcluded then
                 EarliestFrom(m.log, m.start + 500_000_000, first)
                 && IsRate(o, BytesFrom(m.log, m.start + 500_000_000), first, last)
               else first == m.start && IsRate(o, AllBytes(m.log), first, last)
  {
    var m := After(cfg, es);
    AccumulatorsAreWindow(cfg, es);
    first, last := FigureRate(m.log, m.From(), Sum(SumsOf(m.streams)), m.start);
  }

  // ----- When a measurement fails

  predicate IsOf(e: Event, i: int) {
    !e.Fire? && e.i == i
  }

  /** Bytes of stream i's body read during a run. */
  function Delivered(es: seq<Event>, i: int): nat {
    if es == [] then 0
    else
      var e := es[|es| - 1];
      Delivered(es[..|es| - 1], i) + if e.Read? && e.i == i then e.n else 0
  }

  lemma {:induction false} TotalIsDelivered(cfg: Config, es: seq<Event>, i: nat)
    requires Legal(cfg, es) && i < STREAM_COUNT
    ensures After(cfg, es).streams[i].sums.total == Delivered(es, i)
  {
    if es != [] { TotalIsDelivered(cfg, es[..|es| - 1], i); }
  }

  /** The event at position k is a failure of stream i: its open failed, or a read of it ended in
      an error other than EOF and the measurement's own deadline, short of its bytes. */
  ghost predicate Fails(es: seq<Event>, i: int, k: int) {
    && 0 <= k < |es| && IsOf(es[k], i)
    && (OpenFailed(es[k]) || (es[k].Read? && es[k].outcome.Failed? && Delivered(es[..k + 1], i) < STREAM_BYTES))
  }

  function CodeOf(e: Event): nat
    requires OpenFailed(e) || (e.Read? && e.outcome.Failed?)
  {
    if e.Read? then e.outcome.code else e.code
  }

  lemma FailsBefore(es: seq<Event>, i: nat, k: int)
    requires es != [] && k != |es| - 1
    ensures Fails(es, i, k) <==> Fails(es[..|es| - 1], i, k)
  {
    if 0 <= k < |es| - 1 {
      assert es[..|es| - 1][..k + 1] == es[..k + 1];
    }
  }

  /** What a step does to the error of stream i. */
  lemma StepError(cfg: Config, m: State, e: Event, i: nat)
    requires Inv(cfg, m) && Enabled(cfg, m, e) && i < STREAM_COUNT
    ensures var s, s' := m.streams[i], Next(cfg, m, e).streams[i];
            if IsOf(e, i) && (OpenFailed(e) || (e.Read? && e.outcome.Failed? && s'.sums.total < STREAM_BYTES))
            then s.err == NoError && s'.err == Error(CodeOf(e)) else s'.err == s.err
  {
    assert StreamOk(m.streams[i], m.fired, m.abort);
  }

  /** What the last event does to it. */
  lemma LastEvent(cfg: Config, es: seq<Event>, i: nat)
    requires Legal(cfg, es) && es != [] && i < STREAM_COUNT
    ensures var before, after := After(cfg, es[..|es| - 1]).streams[i].err, After(cfg, es).streams[i].err;
            if Fails(es, i, |es| - 1) then before == NoError && after == Error(CodeOf(es[|es| - 1]))
            else after == before
  {
    var n := |es| - 1;
    RunInv(cfg, es[..n]);
    StepError(cfg, After(cfg, es[..n]), es[n], i);
    assert es[..n + 1] == es;
    TotalIsDelivered(cfg, es, i);
  }

  /** A stream returns an error exactly when it failed, and that one. */
  lemma {:induction false} ErrorIsFailure(cfg: Config, es: seq<Event>, i: nat)
    requires Legal(cfg, es) && i < STREAM_COUNT
    ensures var err := After(cfg, es).streams[i].err;
            && (forall k :: Fails(es, i, k) ==> err == Error(CodeOf(es[k])))
            && (err != NoError ==> exists k :: Fails(es, i, k))
  {
    if es != [] {
      var n := |es| - 1;
      ErrorIsFailure(cfg, es[..n], i);
      LastEvent(cfg, es, i);
      forall k | Fails(es, i, k) && k != n ensures Fails(es[..n], i, k) {
        FailsBefore(es, i, k);
      }
      if Fails(es, i, n) {
      } else if k :| Fails(es[..n], i, k) {
        FailsBefore(es, i, k);
      }
    }
  }

  ghost predicate StreamFails(es: seq<Event>, i: int) {
    exists k :: Fails(es, i, k)
  }

  ghost predicate SomeFails(es: seq<Event>) {
    exists i :: 0 <= i < STREAM_COUNT && StreamFails(es, i)
  }

  /** The failure at position k of stream i, the lowest-numbered stream that failed. */
  ghost predicate LowestFails(es: seq<Event>, i: int, k: int) {
    0 <= i < STREAM_COUNT && Fails(es, i, k) && forall j :: 0 <= j < i ==> !StreamFails(es, j)
  }

  lemma ErrorIffFails(cfg: Config, es: seq<Event>)
    requires Legal(cfg, es)
    ensures var streams := After(cfg, es).streams;
            forall i :: 0 <= i < STREAM_COUNT ==> (streams[i].err != NoError <==> StreamFails(es, i))
  {
    forall i | 0 <= i < STREAM_COUNT
      ensures After(cfg, es).streams[i].err != NoError <==> StreamFails(es, i)
    {
      ErrorIsFailure(cfg, es, i);
    }
  }

  lemma LowestError(cfg: Config, es: seq<Event>) returns (i: int, k: int)
    requires Legal(cfg, es)
    ensures FirstError(After(cfg, es).streams) != NoError ==>
      LowestFails(es, i, k) && FirstError(After(cfg, es).streams) == Error(CodeOf(es[k]))
    ensures FirstError(After(cfg, es).streams) != NoError <==> SomeFails(es)
  {
    var streams := After(cfg, es).streams;
    FirstErrorIsLowest(streams);
    ErrorIffFails(cfg, es);
    i, k := 0, 0;
    if FirstError(streams) != NoError {
      i :| 0 <= i < |streams| && streams[i].err == FirstError(streams) &&
        forall j :: 0 <= j < i ==> streams[j].err == NoError;
      assert streams[i].err != NoError && StreamFails(es, i);
      k :| Fails(es, i, k);
      ErrorIsFailure(cfg, es, i);
    }
  }

  /** A measurement fails exactly when some stream did, with the error of the lowest-numbered one
      that did and the bytes of all. */
  lemma FailsIff(cfg: Config, es: seq<Event>) returns (i: int, k: int)
    requires Legal(cfg, es)
    ensures var m := After(cfg, es);
            var o := Report(m.streams, m.start);
            && (o.Broken? <==> SomeFails(es))
            && (o.Broken? ==> LowestFails(es, i, k) && o.err == Error(CodeOf(es[k])) && o.bytes == AllBytes(m.log))
  {
    AccumulatorsAreWindow(cfg, es);
    i, k := LowestError(cfg, es);
  }

  // ----- When a stream is done

  /** A read is possible up to the buffer's size and the stream's allowance, and no further. */
  lemma ReadsFillTheAllowance(cfg: Config, es: seq<Event>, i: nat, n: nat, outcome: ReadEnd, t: int)
    requires Legal(cfg, es) && i < STREAM_COUNT
    ensures var m := After(cfg, es);
            Enabled(cfg, m, Read(i, n, outcome, t)) <==>
            m.streams[i].phase == Reading && n <= 32768 && Delivered(es, i) + n <= 2097152 && m.clock <= t
  {
    TotalIsDelivered(cfg, es, i);
  }

  /** After a read its stream returns exactly when it has its bytes, the read did not say there is
      more, or the measurement's time is up. */
  lemma ReturnsWhen(cfg: Config, es: seq<Event>, i: nat)
    requires Legal(cfg, es) && es != [] && es[|es| - 1].Read? && es[|es| - 1].i == i
    ensures var e := es[|es| - 1];
            i < STREAM_COUNT && (After(cfg, es).streams[i].phase == Done <==>
              Delivered(es, i) == 2097152 || e.outcome != More || cfg.timeout <= e.t - cfg.measureStart)
  {
    TotalIsDelivered(cfg, es, i);
    RunInv(cfg, es);
    assert StreamOk(After(cfg, es).streams[i], After(cfg, es).fired, After(cfg, es).abort);
    StepAt(cfg, es, |es| - 1);
  }
}
