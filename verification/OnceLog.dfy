/** Logging an error once while probes run concurrently (logHealthErrOnce and reportAttempt of
    prober/prober.go): the map is tested and set under a mutex, the line is printed after it. */
module OnceLog {
  import opened Counting

  /** A report that failed: before the mutex, about to print, and through. */
  datatype Phase = Waiting | Printing | Through

  /** The shared map, the failed reports and the log. */
  datatype State = State(logged: set<string>, phases: seq<Phase>, lines: seq<string>)

  datatype Event = TestAndSet(i: nat) | Print(i: nat)

  /** msgs[i] is the error message of report i. */
  function Initial(msgs: seq<string>): State {
    State({}, seq(|msgs|, i => Waiting), [])
  }

  predicate Enabled(s: State, e: Event) {
    e.i < |s.phases| && s.phases[e.i] == if e.TestAndSet? then Waiting else Printing
  }

  function Next(msgs: seq<string>, s: State, e: Event): State
    requires |s.phases| == |msgs| && Enabled(s, e)
  {
    if e.Print? then s.(phases := s.phases[e.i := Through], lines := s.lines + [msgs[e.i]])
    else if msgs[e.i] in s.logged then s.(phases := s.phases[e.i := Through])
    else s.(logged := s.logged + {msgs[e.i]}, phases := s.phases[e.i := Printing])
  }

  ghost predicate Legal(msgs: seq<string>, es: seq<Event>)
    decreases |es|, 0
  {
    es == [] || (Legal(msgs, es[..|es| - 1]) && Enabled(After(msgs, es[..|es| - 1]), es[|es| - 1]))
  }

  ghost function After(msgs: seq<string>, es: seq<Event>): (s: State)
    requires Legal(msgs, es)
    ensures |s.phases| == |msgs|
    decreases |es|, 1
  {
    if es == [] then Initial(msgs) else Next(msgs, After(msgs, es[..|es| - 1]), es[|es| - 1])
  }

  /** The map holds the messages of the reports that have been at it, and each of those is either
      in the log or about to be printed by one report. */
  ghost predicate Inv(msgs: seq<string>, s: State) {
    && |s.phases| == |msgs| && Distinct(s.lines)
    && (forall i :: 0 <= i < |msgs| && s.phases[i] != Waiting ==> msgs[i] in s.logged)
    && (forall msg :: msg in s.lines ==> msg in s.logged && msg in msgs)
    && (forall i :: 0 <= i < |msgs| && s.phases[i] == Printing ==> msgs[i] !in s.lines)
    && (forall i, j :: 0 <= i < j < |msgs| && s.phases[i] == Printing && s.phases[j] == Printing ==> msgs[i] != msgs[j])
    && (forall msg :: msg in s.logged ==> msg in s.lines || IsPrinting(msgs, s, msg))
  }

  ghost predicate IsPrinting(msgs: seq<string>, s: State, msg: string) {
    exists i :: 0 <= i < |msgs| && i < |s.phases| && s.phases[i] == Printing && msgs[i] == msg
  }

  lemma StillCovered(msgs: seq<string>, s: State, e: Event, msg: string)
    requires Inv(msgs, s) && Enabled(s, e) && msg in Next(msgs, s, e).logged
    ensures var s' := Next(msgs, s, e); msg in s'.lines || IsPrinting(msgs, s', msg)
  {
    var s' := Next(msgs, s, e);
    if msg !in s.logged {
      assert s'.phases[e.i] == Printing && msgs[e.i] == msg;
    } else if msg !in s'.lines {
      var i :| 0 <= i < |msgs| && i < |s.phases| && s.phases[i] == Printing && msgs[i] == msg;
      assert s'.phases[i] == Printing;
    }
  }

  lemma StepInv(msgs: seq<string>, s: State, e: Event)
    requires Inv(msgs, s) && Enabled(s, e)
    ensures Inv(msgs, Next(msgs, s, e))
  {
    forall msg | msg in Next(msgs, s, e).logged
      ensures msg in Next(msgs, s, e).lines || IsPrinting(msgs, Next(msgs, s, e), msg)
    {
      StillCovered(msgs, s, e, msg);
    }
  }

  lemma {:induction false} RunInv(msgs: seq<string>, es: seq<Event>)
    requires Legal(msgs, es)
    ensures Inv(msgs, After(msgs, es))
  {
    if es != [] {
      RunInv(msgs, es[..|es| - 1]);
      StepInv(msgs, After(msgs, es[..|es| - 1]), es[|es| - 1]);
    }
  }

  ghost predicate AllThrough(s: State) {
    forall i :: 0 <= i < |s.phases| ==> s.phases[i] == Through
  }

  /** However concurrent probes interleave, no message is ever logged twice, and when all reports are
      through each of their messages has been logged. */
  lemma OneLineEach(msgs: seq<string>, es: seq<Event>)
    requires Legal(msgs, es)
    ensures Distinct(After(msgs, es).lines)
    ensures AllThrough(After(msgs, es)) ==> Elements(After(msgs, es).lines) == Elements(msgs)
  {
    RunInv(msgs, es);
    var s := After(msgs, es);
    if AllThrough(s) {
      forall msg | msg in msgs ensures msg in s.lines {
        var i :| 0 <= i < |msgs| && msgs[i] == msg;
        assert s.phases[i] == Through;
      }
    }
  }
}
