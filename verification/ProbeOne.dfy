/** The effects of probing one provider (ProbeOne, probeOne, checkEgressHealth, reportEgressHealth
    and reportAttempt of prober/prober.go) on its injected dependencies. */
module ProbeOne {
  import opened Counting

  const FAILURE_TUNNEL := "tunnel_failed"
  const FAILURE_NO_CONSENSUS := "no_consensus"
  const FAILURE_LOCATE := "locate_failed"
  const FAILURE_NOT_CONFIDENT := "not_confident"
  const FAILURE_SUBMIT := "submit_failed"

  /** An error return; msg is what err.Error() says. */
  datatype Error = Nil | Error(msg: string)

  datatype OpenReply = NoTunnel(err: string) | Tunnel(closes: bool)   // closes: is the close function set?

  datatype LocateReply =
    | NoConsensus(err: string)
    | LocateFailed(err: string)
    | Nowhere
    | Located(countryConfident: bool)

  datatype HealthReply = DidNotRun(err: string) | Ran

  datatype SubmitReply = Accepted | Unsupported(err: string) | Rejected(err: string)

  /** What every dependency answers if it is called, and whether the context has expired when the
      health check is about to start. */
  datatype Script = Script(
    id: string, open: OpenReply, locate: LocateReply, expired: bool, health: HealthReply, healthSubmit: SubmitReply,
    submit: SubmitReply, attempt: SubmitReply)

  datatype Effect = Open | Locate | Health | SubmitHealth | Submit | Bandwidth | Close | Report(failure: string)

  /** Which of the optional dependencies are set. */
  datatype Wiring = Wiring(health: bool, healthResults: bool, bandwidth: bool, attempts: bool)

  /** One probe's dependencies, recording the calls made to them. */
  class World {
    const script: Script
    var effects: seq<Effect>

    constructor (script: Script)
      ensures this.script == script && effects == []
    {
      this.script := script;
      effects := [];
    }

    method Call(e: Effect)
      modifies this`effects
      ensures effects == old(effects) + [e]
    {
      effects := effects + [e];
    }
  }

  // ----- What a probe returns, and what it does

  /** The failure class and the error: they depend on the tunnel, the lookups and the submission,
      and on nothing else. */
  function VerdictOf(id: string, open: OpenReply, locate: LocateReply, submit: SubmitReply): (string, Error) {
    if open.NoTunnel? then (FAILURE_TUNNEL, Error("open tunnel to " + id + ": " + open.err))
    else if locate.NoConsensus? then (FAILURE_NO_CONSENSUS, Error(locate.err))
    else if locate.LocateFailed? then (FAILURE_LOCATE, Error(locate.err))
    else if submit.Accepted? then ("", Nil)
    else (if locate == Located(true) then FAILURE_SUBMIT else FAILURE_NOT_CONFIDENT, Error(submit.err))
  }

  function Verdict(s: Script): (string, Error) {
    VerdictOf(s.id, s.open, s.locate, s.submit)
  }

  function HealthEffects(d: Wiring, s: Script): seq<Effect> {
    if !d.health || s.expired then []
    else [Health] + if s.health.Ran? && d.healthResults then [SubmitHealth] else []
  }

  /** What is done with an open tunnel. */
  function Uses(d: Wiring, s: Script): seq<Effect> {
    [Locate] + HealthEffects(d, s)
    + (if s.locate.NoConsensus? || s.locate.LocateFailed? then []
       else [Submit] + if s.submit.Accepted? && d.bandwidth then [Bandwidth] else [])
  }

  function ProbeEffects(d: Wiring, s: Script): seq<Effect> {
    if s.open.NoTunnel? then [Open]
    else if s.open.closes then [Open] + Uses(d, s) + [Close]
    else [Open] + Uses(d, s)
  }

  function Effects(d: Wiring, s: Script): seq<Effect> {
    ProbeEffects(d, s) + if d.attempts then [Report(Verdict(s).0)] else []
  }

  // ----- Errors logged once

  /** One line per distinct message. */
  function LogOnce(lines: seq<string>, msg: string): seq<string> {
    if msg in lines then lines else lines + [msg]
  }

  function AttemptLines(d: Wiring, s: Script, lines: seq<string>): seq<string> {
    if d.attempts && s.attempt != Accepted then LogOnce(lines, s.attempt.err) else lines
  }

  function HealthLines(d: Wiring, s: Script, lines: seq<string>): seq<string> {
    if s.open.Tunnel? && SubmitHealth in HealthEffects(d, s) && s.healthSubmit != Accepted
      then LogOnce(lines, s.healthSubmit.err)
    else lines
  }

  class Prober {
    const wiring: Wiring
    var attemptErrLogged: set<string>
    var healthErrLogged: set<string>
    var attemptLines: seq<string>
    var healthLines: seq<string>

    ghost predicate Valid()
      reads this
    {
      && attemptErrLogged == Elements(attemptLines) && Distinct(attemptLines)
      && healthErrLogged == Elements(healthLines) && Distinct(healthLines)
    }

    constructor (wiring: Wiring)
      ensures Valid() && this.wiring == wiring && attemptLines == [] && healthLines == []
    {
      this.wiring := wiring;
      attemptErrLogged, healthErrLogged := {}, {};
      attemptLines, healthLines := [], [];
    }

    method LogHealthErrOnce(msg: string)
      requires Valid()
      modifies this`healthErrLogged, this`healthLines
      ensures Valid() && healthLines == LogOnce(old(healthLines), msg)
    {
      var logged := msg in healthErrLogged;
      if !logged {
        healthErrLogged := healthErrLogged + {msg};
      }
      if !logged {
        healthLines := healthLines + [msg];
      }
    }

    method ReportEgressHealth(w: World)
      requires Valid()
      modifies this`healthErrLogged, this`healthLines, w`effects
      ensures Valid()
      ensures w.effects == old(w.effects) + if wiring.healthResults then [SubmitHealth] else []
      ensures healthLines == if wiring.healthResults && w.script.healthSubmit != Accepted
                             then LogOnce(old(healthLines), w.script.healthSubmit.err) else old(healthLines)
    {
      if !wiring.healthResults {
        return;
      }
      w.Call(SubmitHealth);
      match w.script.healthSubmit {
        case Accepted =>
        case Unsupported(err) => LogHealthErrOnce(err);
        case Rejected(err) => LogHealthErrOnce(err);
      }
    }

    method CheckEgressHealth(w: World)
      requires Valid()
      modifies this`healthErrLogged, this`healthLines, w`effects
      ensures Valid()
      ensures w.effects == old(w.effects) + HealthEffects(wiring, w.script)
      ensures w.script.open.Tunnel? ==> healthLines == HealthLines(wiring, w.script, old(healthLines))
    {
      if !wiring.health {
        return;
      }
      if w.script.expired {
        return;
      }
      w.Call(Health);
      if w.script.health.DidNotRun? {
        return;
      }
      ReportEgressHealth(w);
    }

    /** The body of probeOne once the tunnel is open; its close is deferred to the caller. */
    method ThroughTunnel(w: World) returns (failure: string, err: Error)
      requires Valid() && w.script.open.Tunnel?
      modifies this`healthErrLogged, this`healthLines, w`effects
      ensures Valid()
      ensures (failure, err) == Verdict(w.script)
      ensures w.effects == old(w.effects) + Uses(wiring, w.script)
      ensures healthLines == HealthLines(wiring, w.script, old(healthLines))
    {
      w.Call(Locate);
      CheckEgressHealth(w);
      var loc := w.script.locate;
      if loc.NoConsensus? {
        return FAILURE_NO_CONSENSUS, Error(loc.err);
      }
      if loc.LocateFailed? {
        return FAILURE_LOCATE, Error(loc.err);
      }
      w.Call(Submit);
      if w.script.submit != Accepted {
        if loc.Nowhere? || !loc.countryConfident {
          return FAILURE_NOT_CONFIDENT, Error(w.script.submit.err);
        }
        return FAILURE_SUBMIT, Error(w.script.submit.err);
      }
      if wiring.bandwidth {
        w.Call(Bandwidth);
      }
      return "", Nil;
    }

    method Probe(w: World) returns (failure: string, err: Error)
      requires Valid()
      modifies this`healthErrLogged, this`healthLines, w`effects
      ensures Valid()
      ensures (failure, err) == Verdict(w.script)
      ensures w.effects == old(w.effects) + ProbeEffects(wiring, w.script)
      ensures healthLines == HealthLines(wiring, w.script, old(healthLines))
    {
      w.Call(Open);
      if w.script.open.NoTunnel? {
        return FAILURE_TUNNEL, Error("open tunnel to " + w.script.id + ": " + w.script.open.err);
      }
      failure, err := ThroughTunnel(w);
      if w.script.open.closes {
        w.Call(Close);
      }
    }

    method ReportAttempt(w: World, failure: string)
      requires Valid()
      modifies this`attemptErrLogged, this`attemptLines, w`effects
      ensures Valid()
      ensures w.effects == old(w.effects) + if wiring.attempts then [Report(failure)] else []
      ensures attemptLines == AttemptLines(wiring, w.script, old(attemptLines))
    {
      if !wiring.attempts {
        return;
      }
      w.Call(Report(failure));
      if w.script.attempt == Accepted {
        return;
      }
      var msg := w.script.attempt.err;
      var logged := msg in attemptErrLogged;
      if !logged {
        attemptErrLogged := attemptErrLogged + {msg};
      }
      if !logged {
        attemptLines := attemptLines + [msg];
      }
    }

    method ProbeOne(w: World) returns (err: Error)
      requires Valid()
      modifies this, w`effects
      ensures Valid()
      ensures err == Verdict(w.script).1
      ensures w.effects == old(w.effects) + Effects(wiring, w.script)
      ensures attemptLines == AttemptLines(wiring, w.script, old(attemptLines))
      ensures healthLines == HealthLines(wiring, w.script, old(healthLines))
    {
      var failure: string;
      failure, err := Probe(w);
      ReportAttempt(w, failure);
    }
  }

  // ----- The protocol

  /** e happens at position k and nowhere else. */
  ghost predicate OnlyAt(es: seq<Effect>, e: Effect, k: nat) {
    k < |es| && es[k] == e && forall j :: 0 <= j < |es| && j != k ==> es[j] != e
  }

  /** Every probe reports exactly one attempt, last, and the class it reports is empty exactly when
      the probe returns no error. */
  lemma ReportedOnceAndLast(d: Wiring, s: Script)
    ensures var es := Effects(d, s);
            if d.attempts then OnlyAt(es, Report(Verdict(s).0), |es| - 1)
              && forall j :: 0 <= j < |es| - 1 ==> !es[j].Report?
            else forall j :: 0 <= j < |es| ==> !es[j].Report?
    ensures Verdict(s).0 == "" <==> Verdict(s).1 == Nil
  {
    assert forall e :: e in ProbeEffects(d, s) ==> !e.Report?;
  }

  predicate Refused(s: Script) {
    s.submit != Accepted
  }

  predicate CountryKnown(s: Script) {
    s.locate == Located(true)
  }

  /** The class reported names the first reply that ended the probe: no tunnel, no consensus, any
      other lookup error, a submission refused of a location without a confident country, or of
      one with it; the empty class names an accepted submission. */
  lemma ClassNamesReply(d: Wiring, s: Script)
    requires d.attempts
    ensures var es := Effects(d, s);
            && (Report("tunnel_failed") in es <==> s.open.NoTunnel?)
            && (Report("no_consensus") in es <==> s.open.Tunnel? && s.locate.NoConsensus?)
            && (Report("locate_failed") in es <==> s.open.Tunnel? && s.locate.LocateFailed?)
            && (Report("not_confident") in es <==> Submit in es && Refused(s) && !CountryKnown(s))
            && (Report("submit_failed") in es <==> Submit in es && Refused(s) && CountryKnown(s))
            && (Report("") in es <==> Submit in es && !Refused(s))
  {
    WhatIsDone(d, s);
    OneReport(d, s);
    ClassesDiffer();
  }

  lemma OneReport(d: Wiring, s: Script)
    requires d.attempts
    ensures forall c :: Report(c) in Effects(d, s) <==> c == Verdict(s).0
  {
    ReportedOnceAndLast(d, s);
    forall c ensures Report(c) in Effects(d, s) <==> c == Verdict(s).0 {
      assert Effects(d, s)[|Effects(d, s)| - 1] == Report(Verdict(s).0);
    }
  }

  lemma ClassesDiffer()
    ensures Distinct(["", "tunnel_failed", "no_consensus", "locate_failed", "not_confident", "submit_failed"])
  {
    assert "tunnel_failed"[0] == 't' && "no_consensus"[..3] == "no_" && "not_confident"[..3] == "not"
      && "locate_failed"[0] == 'l' && "submit_failed"[0] == 's';
  }

  /** The error returned carries the message of that reply, and there is none on success. */
  lemma ErrorIsReplys(d: Wiring, s: Script)
    ensures var es, err := Effects(d, s), Verdict(s).1;
            && (s.open.NoTunnel? ==> err == Error("open tunnel to " + s.id + ": " + s.open.err))
            && (s.open.Tunnel? && (s.locate.NoConsensus? || s.locate.LocateFailed?) ==> err == Error(s.locate.err))
            && (Submit in es && Refused(s) ==> err == Error(s.submit.err))
            && (Submit in es && !Refused(s) <==> err == Nil)
  {
    WhatIsDone(d, s);
  }

  /** There is one tunnel, opened first. If it opens and has a close function, it is closed once,
      after everything that is done through it; if it does not open, nothing is. */
  lemma ClosedOnceAfterUse(d: Wiring, s: Script) returns (k: nat)
    ensures var es := Effects(d, s);
            && OnlyAt(es, Open, 0)
            && if s.open == Tunnel(true) then OnlyAt(es, Close, k) && forall j :: k < j < |es| ==> es[j].Report?
               else Close !in es
    ensures s.open.NoTunnel? ==> forall e :: e in Effects(d, s) ==> e.Open? || e.Report?
  {
    k := |Through(d, s)| + 1;
    SplitEffects(d, s);
    NothingTwice(d, s);
    UsesAre(d, s);
    if s.open == Tunnel(true) {
      ClosedAt(Through(d, s), Ending(d, s));
    }
  }

  function Through(d: Wiring, s: Script): seq<Effect> {
    if s.open.NoTunnel? then [] else Uses(d, s)
  }

  function Ending(d: Wiring, s: Script): seq<Effect> {
    (if s.open == Tunnel(true) then [Close] else []) + if d.attempts then [Report(Verdict(s).0)] else []
  }

  lemma SplitEffects(d: Wiring, s: Script)
    ensures Effects(d, s) == [Open] + Through(d, s) + Ending(d, s)
  {
  }

  predicate IsUse(e: Effect) {
    e != Open && e != Close && !e.Report?
  }

  /** A probe assembled from its uses of the tunnel and its ending. */
  lemma Assembled(uses: seq<Effect>, ending: seq<Effect>)
    requires Distinct(uses) && Distinct(ending) && (forall e :: e in uses ==> IsUse(e))
      && forall e :: e in ending ==> e == Close || e.Report?
    ensures Distinct([Open] + uses + ending)
  {
    DistinctConcat([Open], uses);
    DistinctConcat([Open] + uses, ending);
  }

  lemma ClosedAt(uses: seq<Effect>, ending: seq<Effect>)
    requires (forall e :: e in uses ==> IsUse(e)) && ending != [] && ending[0] == Close
      && forall j :: 0 < j < |ending| ==> ending[j].Report?
    ensures var es := [Open] + uses + ending;
            OnlyAt(es, Close, |uses| + 1) && forall j :: |uses| + 1 < j < |es| ==> es[j].Report?
  {
    var es := [Open] + uses + ending;
    forall j | 0 <= j < |es| && j != |uses| + 1
      ensures es[j] != Close && (j > |uses| + 1 ==> es[j].Report?)
    {
      if 1 <= j <= |uses| {
        assert es[j] == uses[j - 1] && IsUse(uses[j - 1]);
      } else if j > 0 {
        assert es[j] == ending[j - |uses| - 1];
      }
    }
  }

  /** Nothing is done twice, and the lookups are the first thing done through the tunnel. */
  lemma NothingTwice(d: Wiring, s: Script)
    ensures Distinct(Effects(d, s))
    ensures s.open.Tunnel? ==> |Effects(d, s)| > 1 && Effects(d, s)[1] == Locate
  {
    SplitEffects(d, s);
    UsesAre(d, s);
    UsesDistinct(d, s);
    Assembled(Through(d, s), Ending(d, s));
  }

  lemma UsesDistinct(d: Wiring, s: Script)
    ensures Distinct(Uses(d, s))
  {
    var health := HealthEffects(d, s);
    var product := if s.locate.NoConsensus? || s.locate.LocateFailed? then []
                   else [Submit] + if s.submit.Accepted? && d.bandwidth then [Bandwidth] else [];
    DistinctConcat([Locate], health);
    DistinctConcat([Locate] + health, product);
  }

  /** Every b comes directly after an a. */
  ghost predicate Follows(es: seq<Effect>, a: Effect, b: Effect) {
    forall k :: 0 <= k < |es| && es[k] == b ==> k > 0 && es[k - 1] == a
  }

  lemma FollowsConcat(xs: seq<Effect>, ys: seq<Effect>, a: Effect, b: Effect)
    requires Follows(xs, a, b) && Follows(ys, a, b)
    ensures Follows(xs + ys, a, b)
  {
    forall k | 0 <= k < |xs + ys| && (xs + ys)[k] == b
      ensures k > 0 && (xs + ys)[k - 1] == a
    {
      if k >= |xs| {
        assert ys[k - |xs|] == b;
      }
    }
  }

  lemma UsesFollow(d: Wiring, s: Script)
    ensures Follows(Uses(d, s), Submit, Bandwidth) && Follows(Uses(d, s), Health, SubmitHealth)
  {
    var health := HealthEffects(d, s);
    var product := if s.locate.NoConsensus? || s.locate.LocateFailed? then []
                   else [Submit] + if s.submit.Accepted? && d.bandwidth then [Bandwidth] else [];
    FollowsConcat([Locate], health, Submit, Bandwidth);
    FollowsConcat([Locate], health, Health, SubmitHealth);
    FollowsConcat([Locate] + health, product, Submit, Bandwidth);
    FollowsConcat([Locate] + health, product, Health, SubmitHealth);
  }

  /** Bandwidth runs only directly after a submission, and a health result is recorded only
      directly after a check. */
  lemma DiagnosticsFollow(d: Wiring, s: Script)
    ensures Follows(Effects(d, s), Submit, Bandwidth) && Follows(Effects(d, s), Health, SubmitHealth)
  {
    SplitEffects(d, s);
    UsesFollow(d, s);
    FollowsConcat([Open], Through(d, s), Submit, Bandwidth);
    FollowsConcat([Open], Through(d, s), Health, SubmitHealth);
    FollowsConcat([Open] + Through(d, s), Ending(d, s), Submit, Bandwidth);
    FollowsConcat([Open] + Through(d, s), Ending(d, s), Health, SubmitHealth);
  }

  /** The place of an effect in a probe. */
  function Turn(e: Effect): nat {
    match e
    case Open => 0
    case Locate => 1
    case Health => 2
    case SubmitHealth => 3
    case Submit => 4
    case Bandwidth => 5
    case Close => 6
    case Report(_) => 7
  }

  ghost predicate InTurn(es: seq<Effect>) {
    forall j, k :: 0 <= j < k < |es| ==> Turn(es[j]) < Turn(es[k])
  }

  ghost predicate Between(es: seq<Effect>, lo: int, hi: int) {
    forall k :: 0 <= k < |es| ==> lo <= Turn(es[k]) < hi
  }

  lemma InTurnConcat(xs: seq<Effect>, ys: seq<Effect>, lo: int, mid: int, hi: int)
    requires InTurn(xs) && InTurn(ys) && Between(xs, lo, mid) && Between(ys, mid, hi) && lo <= mid <= hi
    ensures InTurn(xs + ys) && Between(xs + ys, lo, hi)
  {
    var es := xs + ys;
    forall k | 0 <= k < |es| ensures lo <= Turn(es[k]) < hi && (mid <= Turn(es[k]) <==> |xs| <= k) {
      if k < |xs| {
        assert es[k] == xs[k];
      } else {
        assert es[k] == ys[k - |xs|];
      }
    }
  }

  lemma UsesInTurn(d: Wiring, s: Script)
    ensures InTurn(Uses(d, s)) && Between(Uses(d, s), 1, 6)
  {
    var health := HealthEffects(d, s);
    var product := if s.locate.NoConsensus? || s.locate.LocateFailed? then []
                   else [Submit] + if s.submit.Accepted? && d.bandwidth then [Bandwidth] else [];
    InTurnConcat([Locate], health, 1, 2, 4);
    InTurnConcat([Locate] + health, product, 1, 4, 6);
  }

  /** Everything a probe does it does in one order: the lookups before the health check, both
      before the submission, that before bandwidth, the report after the tunnel is closed. */
  lemma DoneInTurn(d: Wiring, s: Script)
    ensures InTurn(Effects(d, s))
  {
    SplitEffects(d, s);
    UsesInTurn(d, s);
    InTurnConcat([Open], Through(d, s), 0, 1, 6);
    InTurnConcat([Open] + Through(d, s), Ending(d, s), 0, 6, 8);
  }

  /** Exactly when each thing is done: the lookups with any tunnel, the health check whatever they
      found, a submission only on consensus, bandwidth only when the submission was accepted. */
  lemma WhatIsDone(d: Wiring, s: Script)
    ensures var es, open := Effects(d, s), s.open.Tunnel?;
            && (Locate in es <==> open)
            && (Health in es <==> open && d.health && !s.expired)
            && (SubmitHealth in es <==> open && d.health && !s.expired && s.health.Ran? && d.healthResults)
            && (Submit in es <==> open && !s.locate.NoConsensus? && !s.locate.LocateFailed?)
            && (Bandwidth in es <==> Verdict(s).1 == Nil && d.bandwidth)
  {
    var e1, e2 := Effects(d, s), ProbeEffects(d, s);
    assert forall e :: e in e1 <==> e in e2 || (d.attempts && e == Report(Verdict(s).0));
    if s.open.Tunnel? {
      assert forall e :: e in e2 <==> e in Uses(d, s) || e == Open || (s.open.closes && e == Close);
      UsesAre(d, s);
    }
  }

  lemma UsesAre(d: Wiring, s: Script)
    ensures var es := Uses(d, s);
            && (forall e :: e in es ==>
                  e == Locate || e == Health || e == SubmitHealth || e == Submit || e == Bandwidth)
            && Locate in es
            && (Health in es <==> d.health && !s.expired)
            && (SubmitHealth in es <==> d.health && !s.expired && s.health.Ran? && d.healthResults)
            && (Submit in es <==> !s.locate.NoConsensus? && !s.locate.LocateFailed?)
            && (Bandwidth in es <==>
                  !s.locate.NoConsensus? && !s.locate.LocateFailed? && s.submit.Accepted? && d.bandwidth)
  {
    var health := HealthEffects(d, s);
    var found := !s.locate.NoConsensus? && !s.locate.LocateFailed?;
    assert forall e :: e in health ==> e == Health || e == SubmitHealth;
    assert forall e :: e in Uses(d, s) ==>
      e == Locate || e in health || (found && (e == Submit || (e == Bandwidth && s.submit.Accepted? && d.bandwidth)));
    assert Uses(d, s)[0] == Locate && (health != [] ==> Uses(d, s)[1] == Health)
      && (|health| == 2 ==> Uses(d, s)[2] == SubmitHealth);
    assert found ==> Uses(d, s)[1 + |health|] == Submit;
    assert found && s.submit.Accepted? && d.bandwidth ==> Uses(d, s)[2 + |health|] == Bandwidth;
  }

  // ----- Many probes

  /** The lines logged for attempt reports that failed, over any sequence of probes. */
  function AttemptLog(d: Wiring, scripts: seq<Script>): seq<string> {
    if scripts == [] then []
    else AttemptLines(d, scripts[|scripts| - 1], AttemptLog(d, scripts[..|scripts| - 1]))
  }

  function HealthLog(d: Wiring, scripts: seq<Script>): seq<string> {
    if scripts == [] then []
    else HealthLines(d, scripts[|scripts| - 1], HealthLog(d, scripts[..|scripts| - 1]))
  }

  predicate AttemptFails(d: Wiring, s: Script, msg: string) {
    d.attempts && s.attempt != Accepted && s.attempt.err == msg
  }

  predicate HealthSubmitFails(d: Wiring, s: Script, msg: string) {
    s.open.Tunnel? && SubmitHealth in HealthEffects(d, s) && s.healthSubmit != Accepted && s.healthSubmit.err == msg
  }

  /** Over any sequence of probes each message is logged once if some report failed with it, and
      otherwise not at all. */
  lemma {:induction false} OneLinePerMessage(d: Wiring, scripts: seq<Script>)
    ensures Distinct(AttemptLog(d, scripts)) && Distinct(HealthLog(d, scripts))
    ensures forall msg :: msg in AttemptLog(d, scripts) <==>
      exists k :: 0 <= k < |scripts| && AttemptFails(d, scripts[k], msg)
    ensures forall msg :: msg in HealthLog(d, scripts) <==>
      exists k :: 0 <= k < |scripts| && HealthSubmitFails(d, scripts[k], msg)
  {
    if scripts != [] {
      var n := |scripts| - 1;
      var init := scripts[..n];
      OneLinePerMessage(d, init);
      forall msg
        ensures msg in AttemptLog(d, scripts) <==> exists k :: 0 <= k < |scripts| && AttemptFails(d, scripts[k], msg)
      {
        if k :| 0 <= k < n && AttemptFails(d, init[k], msg) { assert AttemptFails(d, scripts[k], msg); }
        if k :| 0 <= k < |scripts| && AttemptFails(d, scripts[k], msg) {
          if k < n { assert AttemptFails(d, init[k], msg); }
        }
      }
      forall msg
        ensures msg in HealthLog(d, scripts) <==>
          exists k :: 0 <= k < |scripts| && HealthSubmitFails(d, scripts[k], msg)
      {
        if k :| 0 <= k < n && HealthSubmitFails(d, init[k], msg) { assert HealthSubmitFails(d, scripts[k], msg); }
        if k :| 0 <= k < |scripts| && HealthSubmitFails(d, scripts[k], msg) {
          if k < n { assert HealthSubmitFails(d, init[k], msg); }
        }
      }
    }
  }
}
