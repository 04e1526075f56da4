/** One stream of a measurement read on its own (stream and readStream of bandwidth/bandwidth.go),
    and why that is what it does in every interleaving with the other streams. */
module StreamReader {
  import opened Measure
  import opened Window

  /** What the server would give the next Body.Read: at most n bytes, and how the read ends. */
  datatype Reply = Reply(n: nat, outcome: ReadEnd, t: int)

  /** A stream past the gun that has not read yet. */
  const RELEASED := Stream(Reading, true, NoError, NOTHING, true, 0, 0)

  /** The io.Reader contract: no more than the buffer holds. */
  function Fits(n: nat, room: int): nat {
    if room < 0 then 0 else if n < room then n else room
  }

  /** The stream after the replies given so far; nothing is read once it has returned. */
  function Drain(cfg: Config, replies: seq<Reply>, steadyFrom: int): Stream {
    if replies == [] then RELEASED
    else
      var s, r := Drain(cfg, replies[..|replies| - 1], steadyFrom), replies[|replies| - 1];
      if s.phase == Done then s else AfterRead(cfg, s, Fits(r.n, Room(s.sums)), r.outcome, r.t, steadyFrom)
  }

  lemma DrainStep(cfg: Config, replies: seq<Reply>, r: Reply, steadyFrom: int)
    ensures var s := Drain(cfg, replies, steadyFrom);
            Drain(cfg, replies + [r], steadyFrom) ==
            if s.phase == Done then s else AfterRead(cfg, s, Fits(r.n, Room(s.sums)), r.outcome, r.t, steadyFrom)
  {
    assert (replies + [r])[..|replies|] == replies;
  }

  /** A server that ends its body at some point. */
  predicate Ends(replies: seq<Reply>) {
    replies != [] && replies[|replies| - 1].outcome != More
  }

  lemma DrainEnds(cfg: Config, replies: seq<Reply>, steadyFrom: int)
    requires Ends(replies)
    ensures Drain(cfg, replies, steadyFrom).phase == Done
  {
    DrainPhase(cfg, replies[..|replies| - 1], steadyFrom);
  }

  lemma {:induction false} DrainPhase(cfg: Config, replies: seq<Reply>, steadyFrom: int)
    ensures var s := Drain(cfg, replies, steadyFrom); s.phase == Reading || s.phase == Done
  {
    if replies != [] { DrainPhase(cfg, replies[..|replies| - 1], steadyFrom); }
  }

  lemma {:induction false} DoneStays(cfg: Config, replies: seq<Reply>, k: nat, steadyFrom: int)
    requires k <= |replies| && Drain(cfg, replies[..k], steadyFrom).phase == Done
    ensures Drain(cfg, replies, steadyFrom) == Drain(cfg, replies[..k], steadyFrom)
    decreases |replies|
  {
    if k == |replies| {
      assert replies[..k] == replies;
    } else {
      assert replies[..|replies| - 1][..k] == replies[..k];
      DoneStays(cfg, replies[..|replies| - 1], k, steadyFrom);
    }
  }

  class Connection {
    var body: seq<Reply>
    var total: nat
    var steadyBytes: nat
    var steadyStart: Time
    var end: Time

    constructor (replies: seq<Reply>)
      ensures body == replies && Sums() == NOTHING
    {
      body, total, steadyBytes, steadyStart, end := replies, 0, 0, Zero, Zero;
    }

    function Sums(): Totals
      reads this
    {
      Totals(total, steadyBytes, steadyStart, end)
    }

    method Read(room: nat) returns (n: nat, outcome: ReadEnd, t: int)
      requires body != []
      modifies this`body
      ensures body == old(body)[1..] && n == Fits(old(body)[0].n, room)
      ensures outcome == old(body)[0].outcome && t == old(body)[0].t
    {
      n, outcome, t := Fits(body[0].n, room), body[0].outcome, body[0].t;
      body := body[1..];
    }

    method ReadStream(cfg: Config, steadyFrom: int) returns (err: Error)
      requires Ends(body) && Sums() == NOTHING
      modifies this
      ensures Drain(cfg, old(body), steadyFrom).phase == Done
      ensures Sums() == Drain(cfg, old(body), steadyFrom).sums && err == Drain(cfg, old(body), steadyFrom).err
    {
      ghost var replies, k := body, 0;
      DrainEnds(cfg, replies, steadyFrom);
      assert replies[..|replies|] == replies;
      while true
        invariant 0 <= k <= |replies| && body == replies[k..] && total < STREAM_BYTES
        invariant Drain(cfg, replies[..k], steadyFrom) == RELEASED.(sums := Sums())
        decreases |body|
      {
        DrainStep(cfg, replies[..k], replies[k], steadyFrom);
        assert replies[..k] + [replies[k]] == replies[..k + 1] && replies[k..][1..] == replies[k + 1..];
        var room := BUFFER;
        var remaining := STREAM_BYTES - total;
        if remaining < room {
          room := remaining;
        }
        var n, readErr, now := Read(room);
        end := At(now);
        total := total + n;
        if steadyFrom <= now {
          if steadyStart.Zero? {
            steadyStart := At(now);
          }
          steadyBytes := steadyBytes + n;
        }
        k := k + 1;
        if STREAM_BYTES <= total || readErr.Eof? || readErr.TimeCap? {
          DoneStays(cfg, replies, k, steadyFrom);
          return NoError;
        }
        if readErr.Failed? {
          DoneStays(cfg, replies, k, steadyFrom);
          return Error(readErr.code);
        }
        if cfg.timeout <= now - cfg.measureStart {
          DoneStays(cfg, replies, k, steadyFrom);
          return NoError;
        }
      }
    }
  }

  // ----- In any interleaving

  /** The replies stream i got during a run. */
  function OwnReads(es: seq<Event>, i: nat): seq<Reply> {
    if es == [] then []
    else
      var e := es[|es| - 1];
      OwnReads(es[..|es| - 1], i) + if e.Read? && e.i == i then [Reply(e.n, e.outcome, e.t)] else []
  }

  ghost predicate OnItsOwn(cfg: Config, m: State, i: nat, own: seq<Reply>)
    requires i < |m.streams|
  {
    if m.streams[i].phase == Opening || m.streams[i].phase == AtGun then own == []
    else !m.abort ==> m.streams[i] == Drain(cfg, own, m.From())
  }

  lemma ReadOnItsOwn(cfg: Config, m: State, e: Event, own: seq<Reply>)
    requires Inv(cfg, m) && Enabled(cfg, m, e) && e.Read? && OnItsOwn(cfg, m, e.i, own)
    ensures OnItsOwn(cfg, Next(cfg, m, e), e.i, own + [Reply(e.n, e.outcome, e.t)])
  {
    assert StreamOk(m.streams[e.i], m.fired, m.abort);
    DrainStep(cfg, own, Reply(e.n, e.outcome, e.t), m.From());
    assert Fits(e.n, Room(m.streams[e.i].sums)) == e.n;
  }

  lemma OtherStepsKeepIt(cfg: Config, m: State, e: Event, i: nat, own: seq<Reply>)
    requires Inv(cfg, m) && Enabled(cfg, m, e) && i < STREAM_COUNT && !(e.Read? && e.i == i) && OnItsOwn(cfg, m, i, own)
    ensures OnItsOwn(cfg, Next(cfg, m, e), i, own)
  {
    assert StreamOk(m.streams[i], m.fired, m.abort);
  }

  /** However the streams interleave, each one past the gun of a run that was not aborted is where
      reading on its own would have left it. */
  lemma {:induction false} StreamIsItsReads(cfg: Config, es: seq<Event>, i: nat)
    requires Legal(cfg, es) && i < STREAM_COUNT
    ensures OnItsOwn(cfg, After(cfg, es), i, OwnReads(es, i))
  {
    if es != [] {
      var init, e := es[..|es| - 1], es[|es| - 1];
      StreamIsItsReads(cfg, init, i);
      RunInv(cfg, init);
      assert After(cfg, es) == Next(cfg, After(cfg, init), e);
      if e.Read? && e.i == i {
        ReadOnItsOwn(cfg, After(cfg, init), e, OwnReads(init, i));
        assert OwnReads(es, i) == OwnReads(init, i) + [Reply(e.n, e.outcome, e.t)];
      } else {
        OtherStepsKeepIt(cfg, After(cfg, init), e, i, OwnReads(init, i));
        assert OwnReads(es, i) == OwnReads(init, i);
      }
    }
  }
}
