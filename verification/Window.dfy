/** The shared timing window of a bandwidth measurement: what one stream accumulates, what the
    streams add up to, and what that says about the merged log of all reads
    (bandwidth/bandwidth.go). Times are nanoseconds. */
module Window {

  /** time.Time, with its zero value. */
  datatype Time = Zero | At(t: int)

  function Later(a: Time, b: Time): Time {
    if a.At? && b.At? then (if a.t < b.t then b else a) else if a.At? then a else b
  }

  /** The earlier of two times; the zero time means none. */
  function Earlier(a: Time, b: Time): Time {
    if a.At? && b.At? then (if b.t < a.t then b else a) else if a.At? then a else b
  }

  /** total, steadyBytes, steadyStart and end of a stream, or of several streams together. */
  datatype Totals = Totals(total: nat, steadyBytes: nat, steadyStart: Time, end: Time)

  const NOTHING := Totals(0, 0, Zero, Zero)

  /** One Body.Read of stream i that moved n bytes and completed at t. */
  datatype ReadRecord = ReadRecord(i: nat, n: nat, t: int)

  function OneRead(r: ReadRecord, from: int): Totals {
    if from <= r.t then Totals(r.n, r.n, At(r.t), At(r.t)) else Totals(r.n, 0, Zero, At(r.t))
  }

  function Add(a: Totals, b: Totals): Totals {
    Totals(a.total + b.total, a.steadyBytes + b.steadyBytes, Earlier(a.steadyStart, b.steadyStart), Later(a.end, b.end))
  }

  /** The totals of a merged log. */
  function OfLog(log: seq<ReadRecord>, from: int): Totals {
    if log == [] then NOTHING else Add(OfLog(log[..|log| - 1], from), OneRead(log[|log| - 1], from))
  }

  /** The totals of one stream's part of the log. */
  function OfStream(log: seq<ReadRecord>, i: nat, from: int): Totals {
    if log == [] then NOTHING
    else
      var before, r := OfStream(log[..|log| - 1], i, from), log[|log| - 1];
      if r.i == i then Add(before, OneRead(r, from)) else before
  }

  /** The totals of several streams, as measure adds them up. */
  function Sum(parts: seq<Totals>): Totals {
    if parts == [] then NOTHING else Add(Sum(parts[..|parts| - 1]), parts[|parts| - 1])
  }

  lemma AddLaws(a: Totals, b: Totals, c: Totals)
    ensures Add(Add(a, b), c) == Add(Add(a, c), b)
    ensures Add(a, Add(b, c)) == Add(Add(a, b), c)
    ensures Add(a, NOTHING) == a == Add(NOTHING, a)
  {
  }

  lemma {:induction false} SumUpdate(parts: seq<Totals>, i: nat, x: Totals)
    requires i < |parts|
    ensures Sum(parts[i := Add(parts[i], x)]) == Add(Sum(parts), x)
  {
    var n, parts' := |parts| - 1, parts[i := Add(parts[i], x)];
    if i == n {
      assert parts'[..n] == parts[..n];
      AddLaws(Sum(parts[..n]), parts[n], x);
    } else {
      assert parts'[..n] == parts[..n][i := Add(parts[i], x)];
      SumUpdate(parts[..n], i, x);
      AddLaws(Sum(parts[..n]), x, parts[n]);
    }
  }

  lemma {:induction false} SumOfNothing(n: nat)
    ensures Sum(seq(n, i => NOTHING)) == NOTHING
  {
    if n > 0 {
      SumOfNothing(n - 1);
      assert seq(n, i => NOTHING)[..n - 1] == seq(n - 1, i => NOTHING);
    }
  }

  function PerStream(log: seq<ReadRecord>, streams: nat, from: int): seq<Totals> {
    seq(streams, i requires 0 <= i < streams => OfStream(log, i, from))
  }

  /** Adding up the streams gives the totals of the merged log, however the reads interleaved. */
  lemma {:induction false} StreamsAddUp(log: seq<ReadRecord>, streams: nat, from: int)
    requires forall k :: 0 <= k < |log| ==> log[k].i < streams
    ensures Sum(PerStream(log, streams, from)) == OfLog(log, from)
  {
    if log == [] {
      SumOfNothing(streams);
      assert PerStream(log, streams, from) == seq(streams, i => NOTHING);
    } else {
      var init, r := log[..|log| - 1], log[|log| - 1];
      StreamsAddUp(init, streams, from);
      var before := PerStream(init, streams, from);
      SumUpdate(before, r.i, OneRead(r, from));
      assert PerStream(log, streams, from) == before[r.i := Add(before[r.i], OneRead(r, from))];
    }
  }

  // ----- What the totals of a log mean

  /** Bytes of the reads that completed between two instants. */
  function BytesWithin(log: seq<ReadRecord>, lo: int, hi: int): nat {
    if log == [] then 0
    else
      var r := log[|log| - 1];
      BytesWithin(log[..|log| - 1], lo, hi) + if lo <= r.t <= hi then r.n else 0
  }

  function AllBytes(log: seq<ReadRecord>): nat {
    if log == [] then 0 else AllBytes(log[..|log| - 1]) + log[|log| - 1].n
  }

  /** `t` is the time of the earliest read at or after `from`. */
  ghost predicate EarliestFrom(log: seq<ReadRecord>, from: int, t: int) {
    (exists k :: 0 <= k < |log| && log[k].t == t) && from <= t
      && forall k :: 0 <= k < |log| && from <= log[k].t ==> t <= log[k].t
  }

  /** `t` is the time of the last read. */
  ghost predicate Latest(log: seq<ReadRecord>, t: int) {
    (exists k :: 0 <= k < |log| && log[k].t == t) && forall k :: 0 <= k < |log| ==> log[k].t <= t
  }

  /** The window opens at the earliest read at or after the warmup boundary and closes at the
      last read; steadyBytes are exactly the bytes of the reads that completed inside it. */
  ghost predicate IsWindow(log: seq<ReadRecord>, from: int, w: Totals) {
    && w.total == AllBytes(log)
    && (if w.end.Zero? then log == [] else Latest(log, w.end.t))
    && (if w.steadyStart.Zero? then w.steadyBytes == 0 && forall k :: 0 <= k < |log| ==> log[k].t < from
        else
          EarliestFrom(log, from, w.steadyStart.t) && w.end.At?
          && w.steadyBytes == BytesWithin(log, w.steadyStart.t, w.end.t))
  }

  lemma {:induction false} SameBytes(log: seq<ReadRecord>, lo: int, hi: int, lo': int, hi': int)
    requires forall k :: 0 <= k < |log| ==> (lo <= log[k].t <= hi <==> lo' <= log[k].t <= hi')
    ensures BytesWithin(log, lo, hi) == BytesWithin(log, lo', hi')
  {
    if log != [] { SameBytes(log[..|log| - 1], lo, hi, lo', hi'); }
  }

  lemma {:induction false} NoBytes(log: seq<ReadRecord>, lo: int, hi: int)
    requires forall k :: 0 <= k < |log| ==> log[k].t < lo
    ensures BytesWithin(log, lo, hi) == 0
  {
    if log != [] { NoBytes(log[..|log| - 1], lo, hi); }
  }

  lemma EarliestStep(log: seq<ReadRecord>, from: int, before: Time, r: ReadRecord)
    requires if before.Zero? then forall k :: 0 <= k < |log| ==> log[k].t < from else EarliestFrom(log, from, before.t)
    ensures var now := Earlier(before, OneRead(r, from).steadyStart);
            if now.Zero? then forall k :: 0 <= k < |log + [r]| ==> (log + [r])[k].t < from
            else EarliestFrom(log + [r], from, now.t)
  {
    var log' := log + [r];
    if before.At? {
      var k :| 0 <= k < |log| && log[k].t == before.t;
      assert log'[k].t == before.t;
    }
    assert log'[|log|] == r;
  }

  lemma LatestStep(log: seq<ReadRecord>, from: int, before: Time, r: ReadRecord)
    requires if before.Zero? then log == [] else Latest(log, before.t)
    ensures Later(before, OneRead(r, from).end).At? && Latest(log + [r], Later(before, OneRead(r, from).end).t)
  {
    var log' := log + [r];
    if before.At? {
      var k :| 0 <= k < |log| && log[k].t == before.t;
      assert log'[k].t == before.t;
    }
    assert log'[|log|] == r;
  }

  lemma {:induction false} LogIsWindow(log: seq<ReadRecord>, from: int)
    ensures IsWindow(log, from, OfLog(log, from))
  {
    if log != [] {
      var init, r := log[..|log| - 1], log[|log| - 1];
      LogIsWindow(init, from);
      assert init + [r] == log;
      var before, w := OfLog(init, from), OfLog(log, from);
      EarliestStep(init, from, before.steadyStart, r);
      LatestStep(init, from, before.end, r);
      if w.steadyStart.At? {
        if before.steadyStart.At? {
          SameBytes(init, before.steadyStart.t, before.end.t, w.steadyStart.t, w.end.t);
        } else {
          NoBytes(init, w.steadyStart.t, w.end.t);
        }
      }
    }
  }
}
