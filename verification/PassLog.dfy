/** The counters and the error log of one pass (the mutex-guarded sections of Scheduler.Run in
    prober/schedule.go). */
module PassLog {

  const MAX_LOGGED_DISTINCT_ERRORS := 10

  type Id = string

  datatype Failure = Failure(id: Id, msg: string)

  datatype Line = Detail(failure: Failure) | Suppressed

  datatype Summary = Summary(attempted: nat, submitted: nat, skipped: nat, failed: nat)

  const ZERO := Summary(0, 0, 0, 0)

  datatype ErrorLog = ErrorLog(logged: set<string>, noted: bool, lines: seq<Line>)

  const EMPTY := ErrorLog({}, false, [])

  /** The branches taken for one failure. */
  function Note(l: ErrorLog, f: Failure): ErrorLog {
    if f.msg in l.logged then l
    else if |l.logged| < MAX_LOGGED_DISTINCT_ERRORS then
      l.(logged := l.logged + {f.msg}, lines := l.lines + [Detail(f)])
    else if !l.noted then l.(noted := true, lines := l.lines + [Suppressed])
    else l
  }

  function NoteAll(failures: seq<Failure>): ErrorLog {
    if failures == [] then EMPTY
    else Note(NoteAll(failures[..|failures| - 1]), failures[|failures| - 1])
  }

  // ----- What the log says about the failures

  function Messages(failures: seq<Failure>): set<string> {
    if failures == [] then {} else Messages(failures[..|failures| - 1]) + {failures[|failures| - 1].msg}
  }

  lemma {:induction false} MessagesAre(failures: seq<Failure>, msg: string)
    ensures msg in Messages(failures) <==> exists k :: 0 <= k < |failures| && failures[k].msg == msg
  {
    if failures != [] {
      var init := failures[..|failures| - 1];
      MessagesAre(init, msg);
      if k :| 0 <= k < |init| && init[k].msg == msg { assert failures[k].msg == msg; }
      if k :| 0 <= k < |failures| && failures[k].msg == msg {
        assert k < |init| ==> init[k].msg == msg;
      }
    }
  }

  function Details(lines: seq<Line>): seq<Failure> {
    if lines == [] then []
    else Details(lines[..|lines| - 1]) + if lines[|lines| - 1].Detail? then [lines[|lines| - 1].failure] else []
  }

  function Notices(lines: seq<Line>): nat {
    if lines == [] then 0 else Notices(lines[..|lines| - 1]) + if lines[|lines| - 1].Suppressed? then 1 else 0
  }

  lemma LinesSnoc(lines: seq<Line>, l: Line)
    ensures Details(lines + [l]) == Details(lines) + if l.Detail? then [l.failure] else []
    ensures Notices(lines + [l]) == Notices(lines) + if l.Suppressed? then 1 else 0
  {
    assert (lines + [l])[..|lines|] == lines;
  }

  /** The first failure with each message, in the order the messages appeared. */
  function FirstOfEach(failures: seq<Failure>): seq<Failure> {
    if failures == [] then []
    else
      var init, f := failures[..|failures| - 1], failures[|failures| - 1];
      FirstOfEach(init) + if f.msg in Messages(init) then [] else [f]
  }

  /** Messages(failures) counts the elements of FirstOfEach. */
  lemma {:induction false} OnePerMessage(failures: seq<Failure>)
    ensures |FirstOfEach(failures)| == |Messages(failures)|
    ensures forall k :: 0 <= k < |FirstOfEach(failures)| ==> FirstOfEach(failures)[k] in failures
  {
    if failures != [] {
      var init, f := failures[..|failures| - 1], failures[|failures| - 1];
      OnePerMessage(init);
      if f.msg in Messages(init) {
        assert Messages(failures) == Messages(init);
      }
    }
  }

  function Min(a: nat, b: nat): nat {
    if a < b then a else b
  }

  /** What a pass logs, given its different messages and the first failure with each: those
      first failures, up to MAX_LOGGED_DISTINCT_ERRORS, and one notice if there were more. */
  ghost predicate Logs(messages: set<string>, first: seq<Failure>, l: ErrorLog) {
    && |first| == |messages|
    && l.logged <= messages && |l.logged| == Min(|messages|, MAX_LOGGED_DISTINCT_ERRORS)
    && (l.noted <==> |messages| > MAX_LOGGED_DISTINCT_ERRORS)
    && Details(l.lines) == first[..Min(|first|, MAX_LOGGED_DISTINCT_ERRORS)]
    && Notices(l.lines) == (if |messages| > MAX_LOGGED_DISTINCT_ERRORS then 1 else 0)
  }

  lemma SameSet(a: set<string>, b: set<string>)
    requires a <= b && |a| == |b|
    ensures a == b
  {
    assert b == a + (b - a) && a * (b - a) == {};
    assert |b| == |a| + |b - a|;
  }

  lemma OldMessage(messages: set<string>, first: seq<Failure>, l: ErrorLog, f: Failure)
    requires Logs(messages, first, l) && f.msg in messages
    ensures Logs(messages, first, Note(l, f))
  {
    if |messages| <= MAX_LOGGED_DISTINCT_ERRORS {
      SameSet(l.logged, messages);
    }
  }

  lemma NewMessage(messages: set<string>, first: seq<Failure>, l: ErrorLog, f: Failure)
    requires Logs(messages, first, l) && f.msg !in messages
    ensures Logs(messages + {f.msg}, first + [f], Note(l, f))
  {
    LinesSnoc(l.lines, if |messages| < MAX_LOGGED_DISTINCT_ERRORS then Detail(f) else Suppressed);
  }

  /** The detail lines are the first failures with the first MAX_LOGGED_DISTINCT_ERRORS different
      messages, and there is one notice exactly when there were more messages than that. */
  lemma {:induction false} LogIsFirstOfEach(failures: seq<Failure>)
    ensures Logs(Messages(failures), FirstOfEach(failures), NoteAll(failures))
  {
    if failures != [] {
      var init, f := failures[..|failures| - 1], failures[|failures| - 1];
      LogIsFirstOfEach(init);
      if f.msg in Messages(init) {
        OldMessage(Messages(init), FirstOfEach(init), NoteAll(init), f);
        assert Messages(failures) == Messages(init);
      } else {
        NewMessage(Messages(init), FirstOfEach(init), NoteAll(init), f);
      }
    }
  }
}
