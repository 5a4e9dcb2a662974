/**
 The books of a pipe: what its two counters say in every state, which failure decides about BE,
 and that nobody is left waiting once `Stop` is done.
 */
module PipeAccounts {
  import opened Bytes
  import opened Options
  import opened RingModel
  import opened SessionEnd
  import opened Pipe

  /* Counters. */

  /** Every byte read is counted in, but for the buffer just read; every byte accepted is counted out, but for the last write. */
  predicate Counted(d: Direction) {
    && d.ingress == |d.consumed| - (if d.source.AtCount? then |d.source.buf| else 0)
    && (match d.sink
        case AtTake => d.egress == |d.delivered|
        case AtSend(rest, n) => |rest| <= n && d.egress == |d.delivered| - (n - |rest|)
        case AtTally(n) => d.egress == |d.delivered| - n
        case SinkStops(rest, n) => |rest| <= n && d.egress == |d.delivered| - (n - |rest|)
        case SinkDone => d.egress <= |d.delivered| <= d.egress + CHUNK)
  }

  lemma SourceCounted(d: Direction, e: Event)
    requires Shaped(d.ring) && Counted(d)
    ensures Counted(SourceStep(d, e))
  {
  }

  lemma SinkCounted(d: Direction, e: Event)
    requires Shaped(d.ring) && Limits(d) && Counted(d)
    ensures Counted(SinkStep(d, e))
  {
  }

  lemma StopCounted(d: Direction, e: Event)
    requires Shaped(d.ring) && Counted(d)
    ensures Counted(StopStep(d, e))
  {
  }

  /**
   In every run, before and after `Stop`, ingress is the number of bytes read from the source
   and egress the number the destination has accepted, each but for the operation under way.
   */
  lemma {:induction false} CountersExact(to: Side, maxSize: int, events: seq<Event>)
    ensures Counted(Run(to, maxSize, events))
  {
    if events != [] {
      var before, e := Run(to, maxSize, events[..|events| - 1]), events[|events| - 1];
      CountersExact(to, maxSize, events[..|events| - 1]);
      RunSound(to, maxSize, events[..|events| - 1]);
      SourceCounted(before, e);
      SinkCounted(before, e);
      StopCounted(before, e);
    }
  }

  /* Causes. */

  /** The first failure of the session, a failed read: BE is kept exactly if the read was from FE and FE was gone. */
  lemma ReadFailureDecides(d: Direction, err: Failure)
    requires Shaped(d.ring) && (d.source.AtRead? || d.source.AtCheck?) && d.ending.cause.None?
    ensures
      var d' := Step(d, SourceFails(err));
      && d'.source.SourceStops?
      && d'.ending.cause == Some(Cause(if d.to.BE? then "FE->BE" else "BE->FE", "read", Some(err)))
      && (Decide(d'.ending).keepBE <==> d.to.BE? && FEClosed(err))
  {
    assert "BE->FE"[0] != "FE->BE"[0] && "read"[0] != "write"[0];
  }

  /** A failed write: BE is kept exactly if the write was to FE and FE was gone. */
  lemma WriteFailureDecides(d: Direction, err: Failure)
    requires Shaped(d.ring) && d.sink.AtSend? && d.ending.cause.None?
    ensures
      var d' := Step(d, SendFails(err));
      && d'.sink == SinkStops(d.sink.rest, d.sink.n)
      && d'.ending.cause == Some(Cause(if d.to.BE? then "FE->BE" else "BE->FE", "write", Some(err)))
      && (Decide(d'.ending).keepBE <==> d.to.FE? && FEClosed(err))
  {
    assert "BE->FE"[0] != "FE->BE"[0] && "read"[0] != "write"[0];
  }

  /** A failure of the other direction comes under that direction's name. */
  lemma FailureElsewhereDecides(d: Direction, op: string, err: Failure)
    requires Shaped(d.ring) && d.ending.cause.None?
    ensures
      var d' := Step(d, CauseElsewhere(op, err));
      && d'.ending.cause == Some(Cause(if d.to.BE? then "BE->FE" else "FE->BE", op, Some(err)))
      && (Decide(d'.ending).keepBE <==> op == (if d.to.BE? then "write" else "read") && FEClosed(err))
  {
    assert "BE->FE"[0] != "FE->BE"[0];
  }

  lemma CauseDecides(e: Ending, f: Ending)
    requires e.cause == f.cause
    ensures Decide(e).keepBE == Decide(f).keepBE
  {
  }

  lemma SourceKeepsCause(d: Direction, e: Event)
    requires Shaped(d.ring) && d.ending.cause.Some?
    ensures SourceStep(d, e).ending.cause == d.ending.cause
  {
  }

  lemma SinkKeepsCause(d: Direction, e: Event)
    requires Shaped(d.ring) && d.ending.cause.Some?
    ensures SinkStep(d, e).ending.cause == d.ending.cause
  {
  }

  lemma StopKeepsCause(d: Direction, e: Event)
    requires Shaped(d.ring) && d.ending.cause.Some?
    ensures StopStep(d, e).ending.cause == d.ending.cause
  {
  }

  /** A later failure changes neither the cause nor the decision. */
  lemma LaterFailuresDoNot(d: Direction, e: Event)
    requires Shaped(d.ring) && d.ending.cause.Some?
    ensures Step(d, e).ending.cause == d.ending.cause
    ensures Decide(Step(d, e).ending).keepBE == Decide(d.ending).keepBE
  {
    SourceKeepsCause(d, e);
    SinkKeepsCause(d, e);
    StopKeepsCause(d, e);
    CauseDecides(Step(d, e).ending, d.ending);
  }

  /* The end. */

  lemma {:induction false} StoppedIsClosed(to: Side, maxSize: int, events: seq<Event>)
    ensures
      var d := Run(to, maxSize, events);
      && (d.stop.Stopped? ==> d.ring.closed)
      && (d.source.SourceDone? ==> !d.stop.Running?)
  {
    if events != [] {
      var before, e := Run(to, maxSize, events[..|events| - 1]), events[|events| - 1];
      StoppedIsClosed(to, maxSize, events[..|events| - 1]);
      StepStaysClosed(before, e);
    }
  }

  lemma StepStaysClosed(d: Direction, e: Event)
    requires Shaped(d.ring)
    requires (d.stop.Stopped? ==> d.ring.closed) && (d.source.SourceDone? ==> !d.stop.Running?)
    ensures
      var d' := Step(d, e);
      && (d'.stop.Stopped? ==> d'.ring.closed)
      && (d'.source.SourceDone? ==> !d'.stop.Running?)
  {
  }

  /** Once `Stop` is done, neither goroutine can be waiting for the ring. */
  lemma NobodyWaitsAfterStop(to: Side, maxSize: int, events: seq<Event>, rest: seq<Byte>)
    ensures
      var d := Run(to, maxSize, events);
      d.stop.Stopped? ==>
        && !WritePass(d.ring, rest).end.WriterWaits? && !WritePass(d.ring, rest).end.Moved?
        && ReadSection(d.ring, CHUNK).end.ReadClosed?
  {
    StoppedIsClosed(to, maxSize, events);
  }

  function Then(d: Direction, events: seq<Event>): (d': Direction)
    requires Shaped(d.ring)
    ensures Shaped(d'.ring)
    decreases |events|
  {
    if events == [] then d else Then(Step(d, events[0]), events[1..])
  }

  lemma OneMore(d: Direction, e: Event, more: seq<Event>)
    requires Shaped(d.ring)
    ensures Then(d, [e] + more) == Then(Step(d, e), more)
  {
    assert ([e] + more)[1..] == more;
  }

  lemma TwoMore(d: Direction, e: Event, f: Event)
    requires Shaped(d.ring)
    ensures Then(d, [e, f]) == Step(Step(d, e), f)
  {
    OneMore(d, e, [f]);
    OneMore(Step(d, e), f, []);
    assert [e, f] == [e] + [f] && [f] == [f] + [];
  }

  /** What a source goroutine inside `Write` has still to do once `Stop` is done. */
  function PutRest(rest: seq<Byte>): seq<Event> {
    [PutPass, if rest == [] then SourceChecks else SourceReturns]
  }

  function SourceRest(s: Source): seq<Event> {
    match s
    case AtRead => [SourceTimesOut]
    case AtCount(buf) => [CountIngress] + PutRest(buf)
    case AtPut(rest) => PutRest(rest)
    case AtCheck => [SourceChecks]
    case SourceStops => [SourceReturns]
    case SourceDone => []
  }

  lemma PutEnds(d: Direction)
    requires Shaped(d.ring) && d.stop.Stopped? && d.ring.closed && d.source.AtPut?
    ensures Then(d, PutRest(d.source.rest)).source.SourceDone?
  {
    var last := if d.source.rest == [] then SourceChecks else SourceReturns;
    TwoMore(d, PutPass, last);
    assert Step(d, PutPass) == d.(source := if d.source.rest == [] then AtCheck else SourceStops);
  }

  /** After `Stop` the source goroutine leaves its loop within three steps of its own. */
  lemma SourceEnds(d: Direction)
    requires Shaped(d.ring) && d.stop.Stopped? && d.ring.closed
    ensures Then(d, SourceRest(d.source)).source.SourceDone?
    ensures |SourceRest(d.source)| <= 3
  {
    match d.source
    case AtCount(buf) =>
      OneMore(d, CountIngress, PutRest(buf));
      PutEnds(Step(d, CountIngress));
    case AtPut(rest) => PutEnds(d);
    case AtRead => OneMore(d, SourceTimesOut, []);
    case AtCheck => OneMore(d, SourceChecks, []);
    case SourceStops => OneMore(d, SourceReturns, []);
    case SourceDone =>
  }

  /** What the sink goroutine has still to do, if a write under way fails. */
  function SinkRest(s: Sink, err: Failure): seq<Event> {
    match s
    case AtTake => [TakeRing, SinkReturns]
    case AtSend(rest, n) => [SendFails(err), SinkReturns]
    case AtTally(n) => [CountEgress] + [TakeRing, SinkReturns]
    case SinkStops(_, _) => [SinkReturns]
    case SinkDone => []
  }

  lemma TakeEnds(d: Direction)
    requires Shaped(d.ring) && d.stop.Stopped? && d.ring.closed && d.sink.AtTake?
    ensures Then(d, [TakeRing, SinkReturns]).sink.SinkDone?
  {
    TwoMore(d, TakeRing, SinkReturns);
    assert Step(d, TakeRing) == d.(sink := SinkStops([], 0));
  }

  lemma FailureStops(d: Direction, err: Failure)
    requires Shaped(d.ring) && d.sink.AtSend?
    ensures Step(d, SendFails(err)).sink.SinkStops? && Step(d, SendFails(err)).stop == d.stop
  {
  }

  lemma StopReturns(d: Direction)
    requires Shaped(d.ring) && d.stop.Stopped? && d.sink.SinkStops?
    ensures Step(d, SinkReturns).sink.SinkDone?
  {
  }

  lemma SendEnds(d: Direction, err: Failure)
    requires Shaped(d.ring) && d.stop.Stopped? && d.sink.AtSend?
    ensures Then(d, [SendFails(err), SinkReturns]).sink.SinkDone?
  {
    TwoMore(d, SendFails(err), SinkReturns);
    FailureStops(d, err);
    StopReturns(Step(d, SendFails(err)));
  }

  /** So does the sink goroutine. */
  lemma SinkEnds(d: Direction, err: Failure)
    requires Shaped(d.ring) && d.stop.Stopped? && d.ring.closed
    ensures Then(d, SinkRest(d.sink, err)).sink.SinkDone?
    ensures |SinkRest(d.sink, err)| <= 3
  {
    match d.sink
    case AtTake => TakeEnds(d);
    case AtSend(rest, n) => SendEnds(d, err);
    case AtTally(n) =>
      OneMore(d, CountEgress, [TakeRing, SinkReturns]);
      TakeEnds(Step(d, CountEgress));
    case SinkStops(_, _) => OneMore(d, SinkReturns, []);
    case SinkDone =>
  }
}
