/** Measuring every target of one provider against a deployment-wide byte budget (Sampler.Sample
    and sampleOne of bandwidth/bandwidth.go). */
module Sampler {
  import opened Measure
  import opened MeasureLaws

  const MIN_TIME_BUDGET := SECOND
  const DEFAULT_TIMEOUT := 5 * SECOND

  datatype Deadline = NoDeadline | Remaining(ns: int)

  datatype Reply = Granted | NoBudget | Unsupported | Refused(code: nat)

  /** What the world answers while one target is measured: the probe's remaining time, the
      reservation endpoint, the target's URL, the streams as a complete run of the measurement
      leaves them, and the submission endpoint. */
  datatype Visit = Visit(
    cancelled: bool, deadline: Deadline, reply: Reply, badUrl: Error,
    streams: seq<Stream>, start: int, submitError: Error)

  datatype Skip = NotSkipped | SkipNoTime | SkipNoBudget | SkipUnsupported

  datatype Failure = NoFailure | Because(err: Error) | ErrNoSample

  datatype Result = Result(target: nat, rate: real, bytes: nat, skip: Skip, failure: Failure) {
    predicate Measured() { skip == NotSkipped && failure == NoFailure && rate > 0.0 }
  }

  /** What a measurement does to the world. */
  datatype Effect =
    | Reserve(target: nat)                          // MAX_SAMPLE_BYTES, granted
    | Download(target: nat, bytes: nat)             // body bytes, error excerpts included
    | Submit(target: nat, rate: real, bytes: nat)

  /** The cap a Sampler with this Timeout gives each measurement. */
  function Timeout(configured: int): int {
    if 0 < configured then configured else DEFAULT_TIMEOUT
  }

  /** The streams are those of some complete run, in some interleaving. */
  ghost predicate IsMeasurement(timeout: int, streams: seq<Stream>, start: int) {
    exists cfg: Config, es: seq<Event> ::
      Legal(cfg, es) && cfg.timeout == timeout && AllDone(After(cfg, es))
      && After(cfg, es).streams == streams && After(cfg, es).start == start
  }

  /** The visit's measurement ran under the cap of a Sampler with this Timeout. */
  ghost predicate ByMeasurement(configured: int, v: Visit) {
    IsMeasurement(Timeout(configured), v.streams, v.start)
  }

  /** A stream that reads on has not passed the Sampler's cap: its Timeout, or five seconds. */
  lemma CapStopsReading(configured: int, cfg: Config, es: seq<Event>, i: nat)
    requires Legal(cfg, es) && cfg.timeout == Timeout(configured)
    requires es != [] && es[|es| - 1].Read? && es[|es| - 1].i == i
    ensures i < STREAM_COUNT
    ensures After(cfg, es).streams[i].phase != Done ==>
      es[|es| - 1].t - cfg.measureStart < if 0 < configured then configured else 5_000_000_000
  {
    ReturnsWhen(cfg, es, i);
  }

  predicate HasTime(v: Visit) {
    !v.cancelled && (v.deadline.Remaining? ==> MIN_TIME_BUDGET <= v.deadline.ns)
  }

  // ----- What a trace of effects must look like

  /** Every download is at most one reservation's worth and directly follows the reservation for
      the same target; every submission follows a download and has a positive rate. */
  ghost predicate Covered(trace: seq<Effect>) {
    forall k :: 0 <= k < |trace| ==> CoveredAt(trace, k)
  }

  ghost predicate CoveredAt(trace: seq<Effect>, k: nat)
    requires k < |trace|
  {
    match trace[k]
    case Reserve(_) => true
    case Download(i, bytes) => bytes <= MAX_SAMPLE_BYTES && k > 0 && trace[k - 1] == Reserve(i)
    case Submit(i, rate, bytes) =>
      rate > 0.0 && k > 0 && trace[k - 1].Download? && trace[k - 1].target == i && bytes <= trace[k - 1].bytes
  }

  function Reservations(trace: seq<Effect>): nat {
    if trace == [] then 0
    else Reservations(trace[..|trace| - 1]) + if trace[|trace| - 1].Reserve? then 1 else 0
  }

  function Downloaded(trace: seq<Effect>): nat {
    if trace == [] then 0
    else Downloaded(trace[..|trace| - 1]) + if trace[|trace| - 1].Download? then trace[|trace| - 1].bytes else 0
  }

  /** A covered trace never moves more than it has reserved, at any point. */
  lemma {:induction false} CoveredIsWithinBudget(trace: seq<Effect>)
    requires Covered(trace)
    ensures Downloaded(trace) <= MAX_SAMPLE_BYTES * Reservations(trace)
    ensures trace != [] && trace[|trace| - 1].Reserve? ==>
      Downloaded(trace) <= MAX_SAMPLE_BYTES * (Reservations(trace) - 1)
  {
    if trace != [] {
      var init := trace[..|trace| - 1];
      CoveredPrefix(trace, |trace| - 1);
      CoveredIsWithinBudget(init);
      assert CoveredAt(trace, |trace| - 1);
    }
  }

  lemma CoveredPrefix(trace: seq<Effect>, k: nat)
    requires Covered(trace) && k <= |trace|
    ensures Covered(trace[..k])
  {
    forall j | 0 <= j < k
      ensures CoveredAt(trace[..k], j)
    {
      assert CoveredAt(trace, j);
    }
  }

  lemma CoveredConcat(a: seq<Effect>, b: seq<Effect>)
    requires Covered(a) && Covered(b)
    ensures Covered(a + b)
  {
    forall k | 0 <= k < |a + b|
      ensures CoveredAt(a + b, k)
    {
      if k < |a| {
        assert CoveredAt(a, k);
      } else {
        assert CoveredAt(b, k - |a|);
      }
    }
  }

  function About(trace: seq<Effect>, target: nat): seq<Effect> {
    if trace == [] then []
    else
      About(trace[..|trace| - 1], target) + if trace[|trace| - 1].target == target then [trace[|trace| - 1]] else []
  }

  lemma {:induction false} AboutConcat(a: seq<Effect>, b: seq<Effect>, n: nat, target: nat)
    requires forall k :: 0 <= k < |b| ==> b[k].target == n
    ensures About(a + b, target) == About(a, target) + if n == target then b else []
  {
    if b == [] {
      assert a + b == a;
    } else {
      assert (a + b)[..|a + b| - 1] == a + b[..|b| - 1];
      AboutConcat(a, b[..|b| - 1], n, target);
    }
  }

  // ----- One target

  predicate Allowed(reserver: bool, v: Visit) {
    HasTime(v) && (!reserver || v.reply == Granted)
  }

  function EffectsOf(reserver: bool, submitter: bool, target: nat, v: Visit): seq<Effect> {
    if !Allowed(reserver, v) then []
    else
      var o := Report(v.streams, v.start);
      (if reserver then [Reserve(target)] else [])
      + (if v.badUrl != NoError then [] else [Download(target, BodyBytes(v.streams))])
      + (if v.badUrl == NoError && submitter && o.Measured? && o.rate > 0.0
         then [Submit(target, o.rate, o.bytes)] else [])
  }

  function ResultOf(reserver: bool, submitter: bool, target: nat, v: Visit): Result {
    var none := Result(target, 0.0, 0, NotSkipped, NoFailure);
    if !HasTime(v) then none.(skip := SkipNoTime)
    else if reserver && v.reply == NoBudget then none.(skip := SkipNoBudget)
    else if reserver && v.reply == Unsupported then none.(skip := SkipUnsupported)
    else if reserver && v.reply.Refused? then none.(failure := Because(Error(v.reply.code)))
    else if v.badUrl != NoError then none.(failure := Because(v.badUrl))
    else
      match Report(v.streams, v.start)
      case Broken(err, bytes) => none.(bytes := bytes, failure := Because(err))
      case NoSample(bytes) => none.(bytes := bytes, failure := ErrNoSample)
      case Measured(rate, bytes, _, _) =>
        Result(target, rate, bytes, NotSkipped,
          if rate <= 0.0 then ErrNoSample
          else if submitter && v.submitError != NoError then Because(v.submitError)
          else NoFailure)
  }

  /** What a result says about the effects behind it: a skip did nothing; a target without a
      granted reservation read and submitted nothing; what was submitted is the figure of the
      result, positive and for no more bytes than were read. */
  ghost predicate Explains(reserver: bool, submitter: bool, r: Result, effects: seq<Effect>) {
    && (r.skip != NotSkipped ==> effects == [] && !r.Measured())
    && (reserver ==> Covered(effects) && (effects != [] ==> effects[0] == Reserve(r.target)))
    && (r.Measured() ==> exists e :: e in effects && e.Download? && r.bytes <= e.bytes <= MAX_SAMPLE_BYTES)
    && (r.Measured() && submitter ==> Submit(r.target, r.rate, r.bytes) in effects)
    && (forall e :: e in effects && e.Submit? ==> submitter && e == Submit(r.target, r.rate, r.bytes) && r.rate > 0.0)
  }

  /** A complete measurement reads no more than it reserved, and its rate is positive: the branch
      of sampleOne for a rate that is not is never taken. */
  lemma MeasurementIsSound(timeout: int, streams: seq<Stream>, start: int)
    requires IsMeasurement(timeout, streams, start)
    ensures BodyBytes(streams) <= MAX_SAMPLE_BYTES
    ensures var o := Report(streams, start); o.Measured? ==> o.rate > 0.0 && o.bytes <= BodyBytes(streams)
  {
    var cfg: Config, es: seq<Event> :|
      Legal(cfg, es) && cfg.timeout == timeout && AllDone(After(cfg, es))
      && After(cfg, es).streams == streams && After(cfg, es).start == start;
    NeverOverReserved(cfg, es);
    if Report(streams, start).Measured? {
      FigureIsSound(cfg, es);
      TotalIsBody(streams);
    }
  }

  lemma ResultExplains(reserver: bool, submitter: bool, target: nat, v: Visit, configured: int)
    requires ByMeasurement(configured, v)
    ensures Explains(reserver, submitter, ResultOf(reserver, submitter, target, v),
      EffectsOf(reserver, submitter, target, v))
  {
    MeasurementIsSound(Timeout(configured), v.streams, v.start);
    var r, effects := ResultOf(reserver, submitter, target, v), EffectsOf(reserver, submitter, target, v);
    if r.Measured() {
      assert effects[if reserver then 1 else 0] == Download(target, BodyBytes(v.streams));
      if submitter {
        assert effects[|effects| - 1] == Submit(target, r.rate, r.bytes);
      }
    }
  }

  /** What is done about a target: a reservation exactly when there is time and the Reserver grants
      one; a download exactly when nothing stands in its way, of what the streams moved; a
      submission exactly when that came to a figure, of that figure. */
  lemma WhatIsDone(reserver: bool, submitter: bool, target: nat, v: Visit, configured: int)
    requires ByMeasurement(configured, v)
    ensures var es, o := EffectsOf(reserver, submitter, target, v), Report(v.streams, v.start);
            var time := !v.cancelled && (v.deadline.NoDeadline? || v.deadline.ns >= 1_000_000_000);
            var download := time && (reserver ==> v.reply == Granted) && v.badUrl == NoError;
            && (Reserve(target) in es <==> reserver && time && v.reply == Granted)
            && (forall n :: Download(target, n) in es <==> download && n == BodyBytes(v.streams))
            && (forall r, n :: Submit(target, r, n) in es <==>
                  download && submitter && o.Measured? && r == o.rate && n == o.bytes)
  {
    MeasurementIsSound(Timeout(configured), v.streams, v.start);
    var es, o := EffectsOf(reserver, submitter, target, v), Report(v.streams, v.start);
    assert Allowed(reserver, v) ==> forall e :: e in es <==>
      (reserver && e == Reserve(target))
      || (v.badUrl == NoError && e == Download(target, BodyBytes(v.streams)))
      || (v.badUrl == NoError && submitter && o.Measured? && e == Submit(target, o.rate, o.bytes));
  }

  /** What is said about it: each reason to skip under its own condition, and a target that was
      neither skipped nor failed measured to the figure. */
  lemma WhatIsSaid(reserver: bool, submitter: bool, target: nat, v: Visit, configured: int)
    requires ByMeasurement(configured, v)
    ensures var r, o := ResultOf(reserver, submitter, target, v), Report(v.streams, v.start);
            var time := !v.cancelled && (v.deadline.NoDeadline? || v.deadline.ns >= 1_000_000_000);
            var download := time && (reserver ==> v.reply == Granted) && v.badUrl == NoError;
            && r.target == target
            && (r.skip == SkipNoTime <==> !time)
            && (r.skip == SkipNoBudget <==> time && reserver && v.reply == NoBudget)
            && (r.skip == SkipUnsupported <==> time && reserver && v.reply == Unsupported)
            && (r.Measured() <==> download && o.Measured? && (submitter ==> v.submitError == NoError))
            && r.bytes == (if download then o.bytes else 0)
            && r.rate == (if download && o.Measured? then o.rate else 0.0)
  {
    MeasurementIsSound(Timeout(configured), v.streams, v.start);
  }

  /** Which error a target that was not skipped fails with. */
  lemma WhyItFailed(reserver: bool, submitter: bool, target: nat, v: Visit, configured: int)
    requires ByMeasurement(configured, v) && HasTime(v)
    ensures var f, o := ResultOf(reserver, submitter, target, v).failure, Report(v.streams, v.start);
            var granted := reserver ==> v.reply == Granted;
            && (reserver && v.reply.Refused? ==> f == Because(Error(v.reply.code)))
            && (granted && v.badUrl != NoError ==> f == Because(v.badUrl))
            && (granted && v.badUrl == NoError && o.Broken? ==> f == Because(o.err))
            && (f == ErrNoSample <==> granted && v.badUrl == NoError && o.NoSample?)
            && (granted && v.badUrl == NoError && o.Measured? && submitter && v.submitError != NoError ==>
                  f == Because(v.submitError))
  {
    MeasurementIsSound(Timeout(configured), v.streams, v.start);
  }

  // ----- Every target

  function AllEffects(reserver: bool, submitter: bool, visits: seq<Visit>): seq<Effect> {
    if visits == [] then []
    else
      var n := |visits| - 1;
      AllEffects(reserver, submitter, visits[..n]) + EffectsOf(reserver, submitter, n, visits[n])
  }

  /** With a Reserver, whatever the targets answer, at every point of the run the bytes read from
      response bodies are at most MAX_SAMPLE_BYTES for each reservation granted so far. */
  lemma NeverOverBudget(submitter: bool, visits: seq<Visit>, configured: int, k: nat)
    requires forall i :: 0 <= i < |visits| ==> ByMeasurement(configured, visits[i])
    requires k <= |AllEffects(true, submitter, visits)|
    ensures var sofar := AllEffects(true, submitter, visits)[..k];
            Downloaded(sofar) <= MAX_SAMPLE_BYTES * Reservations(sofar)
  {
    AllCovered(submitter, visits, configured);
    CoveredPrefix(AllEffects(true, submitter, visits), k);
    CoveredIsWithinBudget(AllEffects(true, submitter, visits)[..k]);
  }

  lemma {:induction false} AllCovered(submitter: bool, visits: seq<Visit>, configured: int)
    requires forall i :: 0 <= i < |visits| ==> ByMeasurement(configured, visits[i])
    ensures Covered(AllEffects(true, submitter, visits))
  {
    if visits != [] {
      var n := |visits| - 1;
      AllCovered(submitter, visits[..n], configured);
      ResultExplains(true, submitter, n, visits[n], configured);
      CoveredConcat(AllEffects(true, submitter, visits[..n]), EffectsOf(true, submitter, n, visits[n]));
    }
  }

  function AllResults(reserver: bool, submitter: bool, visits: seq<Visit>): seq<Result> {
    if visits == [] then []
    else
      var n := |visits| - 1;
      AllResults(reserver, submitter, visits[..n]) + [ResultOf(reserver, submitter, n, visits[n])]
  }

  /** One result per target, in target order. */
  lemma {:induction false} ResultPerTarget(reserver: bool, submitter: bool, visits: seq<Visit>, i: nat)
    requires i < |visits|
    ensures var results := AllResults(reserver, submitter, visits);
            |results| == |visits| && results[i] == ResultOf(reserver, submitter, i, visits[i])
  {
    var n := |visits| - 1;
    if n > 0 {
      ResultPerTarget(reserver, submitter, visits[..n], if i < n then i else 0);
    }
  }

  lemma ResultsSnoc(reserver: bool, submitter: bool, visits: seq<Visit>, n: nat)
    requires n < |visits|
    ensures AllResults(reserver, submitter, visits[..n + 1]) ==
            AllResults(reserver, submitter, visits[..n]) + [ResultOf(reserver, submitter, n, visits[n])]
  {
    assert visits[..n + 1][..n] == visits[..n];
  }

  lemma EffectsSnoc(reserver: bool, submitter: bool, visits: seq<Visit>, n: nat)
    requires n < |visits|
    ensures AllEffects(reserver, submitter, visits[..n + 1]) ==
            AllEffects(reserver, submitter, visits[..n]) + EffectsOf(reserver, submitter, n, visits[n])
    ensures forall k :: 0 <= k < |EffectsOf(reserver, submitter, n, visits[n])| ==>
      EffectsOf(reserver, submitter, n, visits[n])[k].target == n
  {
    assert visits[..n + 1][..n] == visits[..n];
  }

  /** The whole run's effects about one target are those of that target's visit alone. */
  lemma {:induction false} EffectsAreOwn(reserver: bool, submitter: bool, visits: seq<Visit>, n: nat, i: nat)
    requires i < |visits| && n <= |visits|
    ensures About(AllEffects(reserver, submitter, visits[..n]), i) ==
            if i < n then EffectsOf(reserver, submitter, i, visits[i]) else []
    decreases n
  {
    if n > 0 {
      EffectsAreOwn(reserver, submitter, visits, n - 1, i);
      var before, now := AllEffects(reserver, submitter, visits[..n - 1]),
        EffectsOf(reserver, submitter, n - 1, visits[n - 1]);
      EffectsSnoc(reserver, submitter, visits, n - 1);
      AboutConcat(before, now, n - 1, i);
    }
  }

  /** Over any list of targets, each result explains exactly the effects the run had on its own
      target. */
  lemma ResultsExplainRun(reserver: bool, submitter: bool, visits: seq<Visit>, configured: int, i: nat)
    requires i < |visits| && ByMeasurement(configured, visits[i])
    ensures var results, trace := AllResults(reserver, submitter, visits), AllEffects(reserver, submitter, visits);
            |results| == |visits| && Explains(reserver, submitter, results[i], About(trace, i))
  {
    ResultPerTarget(reserver, submitter, visits, i);
    EffectsAreOwn(reserver, submitter, visits, |visits|, i);
    assert visits[..|visits|] == visits;
    ResultExplains(reserver, submitter, i, visits[i], configured);
  }

  lemma Associative(a: seq<Effect>, b: seq<Effect>, c: seq<Effect>)
    ensures a + b + c == a + (b + c)
  {
  }

  class Sampler {
    const reserver: bool     // is Reserve set?
    const submitter: bool    // is Submit set?
    var trace: seq<Effect>

    constructor (reserver: bool, submitter: bool)
      ensures this.reserver == reserver && this.submitter == submitter && trace == []
    {
      this.reserver, this.submitter := reserver, submitter;
      trace := [];
    }

    method SampleOne(target: nat, v: Visit) returns (r: Result)
      modifies this`trace
      ensures r == ResultOf(reserver, submitter, target, v)
      ensures trace == old(trace) + EffectsOf(reserver, submitter, target, v)
    {
      r := Result(target, 0.0, 0, NotSkipped, NoFailure);
      if !HasTime(v) {
        return r.(skip := SkipNoTime);
      }
      if reserver {
        if v.reply == NoBudget {
          return r.(skip := SkipNoBudget);
        }
        if v.reply == Unsupported {
          return r.(skip := SkipUnsupported);
        }
        if v.reply.Refused? {
          return r.(failure := Because(Error(v.reply.code)));
        }
        trace := trace + [Reserve(target)];
      }
      if v.badUrl != NoError {
        return r.(failure := Because(v.badUrl));
      }
      var o := Aggregate(v.streams, v.start);
      trace := trace + [Download(target, BodyBytes(v.streams))];
      if o.Broken? {
        return r.(bytes := o.bytes, failure := Because(o.err));
      }
      if o.NoSample? {
        return r.(bytes := o.bytes, failure := ErrNoSample);
      }
      r := r.(rate := o.rate, bytes := o.bytes);
      if o.rate <= 0.0 {
        return r.(failure := ErrNoSample);
      }
      if submitter {
        trace := trace + [Submit(target, o.rate, o.bytes)];
        if v.submitError != NoError {
          return r.(failure := Because(v.submitError));
        }
      }
      return r;
    }

    method Sample(visits: seq<Visit>) returns (results: seq<Result>)
      modifies this`trace
      ensures results == AllResults(reserver, submitter, visits)
      ensures trace == old(trace) + AllEffects(reserver, submitter, visits)
    {
      results := [];
      for i := 0 to |visits|
        invariant results == AllResults(reserver, submitter, visits[..i])
        invariant trace == old(trace) + AllEffects(reserver, submitter, visits[..i])
      {
        var r := SampleOne(i, visits[i]);
        results := results + [r];
        ResultsSnoc(reserver, submitter, visits, i);
        EffectsSnoc(reserver, submitter, visits, i);
        Associative(old(trace), AllEffects(reserver, submitter, visits[..i]),
          EffectsOf(reserver, submitter, i, visits[i]));
      }
      assert visits[..|visits|] == visits;
    }
  }
}
