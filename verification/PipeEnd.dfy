/**
 What a destination receives once `Stop` has begun. `Stop` closes FE, and BE unless it keeps
 it, before it flushes the ring; so only a kept BE can receive anything after the flush.
 */
module PipeEnd {
  import opened Bytes
  import opened Options
  import opened RingModel
  import opened SessionEnd
  import opened Pipe

  /* At most one stretch is missing. */

  /** What was read from the source, without the bytes `Stop` has flushed. */
  function Kept(d: Direction): seq<Byte>
    requires d.lo <= d.hi <= |d.consumed|
  {
    d.consumed[..d.lo] + d.consumed[d.hi..]
  }

  predicate PastFlush(s: Stopping) {
    s.Flushed? || s.HalfClosed? || s.Stopped?
  }

  /** While the ring takes bytes and the sink is at work, nothing but the flushed stretch is missing. */
  predicate OneGap(d: Direction) {
    && d.lo <= d.hi <= |d.consumed|
    && (!PastFlush(d.stop) ==> d.lo == d.hi == 0)
    && d.hi - d.lo <= SizeBound(d.ring.maxSize)
    && d.delivered <= Kept(d)
    && (MaySend(d.sink) ==>
          && Ahead(d) <= Kept(d)
          && (!MayPut(d.source) || d.ring.closed || d.ring.writeClosed || Kept(d) == Ahead(d) + Unput(d.source)))
  }

  lemma ReadOneGap(d: Direction, buf: seq<Byte>)
    requires Shaped(d.ring) && OneGap(d)
    ensures OneGap(SourceStep(d, SourceRead(buf)))
  {
    var d' := SourceStep(d, SourceRead(buf));
    if d' != d {
      assert Kept(d') == Kept(d) + buf;
    }
  }

  lemma PutOneGap(d: Direction)
    requires Shaped(d.ring) && OneGap(d)
    ensures OneGap(SourceStep(d, PutPass))
  {
    if d.source.AtPut? {
      PassAppends(d.ring, d.source.rest);
      PutMoves(d.delivered + Unsent(d.sink), d.ring, d.source.rest);
    }
  }

  lemma SourceOneGap(d: Direction, e: Event)
    requires Shaped(d.ring) && OneGap(d) && OfSource(e)
    ensures OneGap(SourceStep(d, e))
  {
    match e
    case SourceRead(buf) => ReadOneGap(d, buf);
    case PutPass => PutOneGap(d);
    case _ =>
  }

  lemma TakeOneGap(d: Direction)
    requires Shaped(d.ring) && OneGap(d)
    ensures OneGap(SinkStep(d, TakeRing))
  {
    ReadTakes(d.ring, CHUNK);
    TakeMoves(d.delivered, d.ring);
    assert d.delivered + [] == d.delivered;
  }

  lemma SendOneGap(d: Direction, k: nat)
    requires Shaped(d.ring) && OneGap(d)
    ensures OneGap(SinkStep(d, SendPart(k)))
  {
    if d.sink.AtSend? && k <= |d.sink.rest| {
      SendMoves(d.delivered, d.sink.rest, k);
      assert d.delivered + d.sink.rest[..k] <= Ahead(d);
    }
  }

  lemma SinkOneGap(d: Direction, e: Event)
    requires Shaped(d.ring) && OneGap(d) && OfSink(e)
    ensures OneGap(SinkStep(d, e))
  {
    match e
    case TakeRing => TakeOneGap(d);
    case SendPart(k) => SendOneGap(d, k);
    case _ =>
  }

  /** Cutting `queue` out of `s`. */
  lemma GapOpens(s: seq<Byte>, front: seq<Byte>, queue: seq<Byte>, rest: seq<Byte>)
    requires front + queue <= s
    ensures front <= s && front <= s[..|front|] + s[|front| + |queue|..]
    ensures s == front + queue + rest ==> s[..|front|] + s[|front| + |queue|..] == front + rest
  {
    assert s[..|front|] == (front + queue)[..|front|] == front;
  }

  lemma FlushOneGap(d: Direction)
    requires Shaped(d.ring) && Bounded(d.ring) && OneGap(d)
    ensures OneGap(StopStep(d, StopFlushes))
  {
    if d.stop.Shut? && MaySend(d.sink) {
      var front := d.delivered + Unsent(d.sink);
      assert Kept(d) == d.consumed;
      assert front + [] == front;
      GapOpens(d.consumed, front, d.ring.queue, Unput(d.source));
    }
  }

  lemma StepOneGap(d: Direction, e: Event)
    requires Shaped(d.ring) && Bounded(d.ring) && OneGap(d)
    ensures OneGap(Step(d, e))
  {
    if OfSource(e) {
      SourceOneGap(d, e);
    } else if OfSink(e) {
      SinkOneGap(d, e);
    } else if e.StopFlushes? {
      FlushOneGap(d);
    }
  }

  /* What has been closed. */

  /** How far `Stop` has come shows in the connections, and nothing reaches a closed one. */
  predicate Closing(d: Direction) {
    && (d.ending.stopped <==> !d.stop.Running? && !d.stop.Begun?)
    && (d.ending.openFE <==> d.stop.Running? || d.stop.Begun? || d.stop.Decided?)
    && (d.ending.openBE <==> d.ending.keepBE || !(d.stop.Shut? || PastFlush(d.stop)))
    && (d.ending.keepBE ==> d.ending.stopped)
    && (PastFlush(d.stop) && !IsOpen(d.ending, d.to) ==> d.lo == d.hi || |d.delivered| <= d.lo)
  }

  lemma SourceClosing(d: Direction, e: Event)
    requires Shaped(d.ring) && Closing(d)
    ensures Closing(SourceStep(d, e))
  {
  }

  lemma SinkClosing(d: Direction, e: Event)
    requires Shaped(d.ring) && Closing(d)
    ensures Closing(SinkStep(d, e))
  {
  }

  lemma StopClosing(d: Direction, e: Event)
    requires Shaped(d.ring) && Closing(d) && (!PastFlush(d.stop) ==> d.lo == d.hi == 0)
    ensures Closing(StopStep(d, e))
  {
  }

  lemma StepClosing(d: Direction, e: Event)
    requires Shaped(d.ring) && Closing(d) && (!PastFlush(d.stop) ==> d.lo == d.hi == 0)
    ensures Closing(Step(d, e))
  {
    if OfSource(e) {
      SourceClosing(d, e);
    } else if OfSink(e) {
      SinkClosing(d, e);
    } else {
      StopClosing(d, e);
    }
  }

  /** The part of an ending that the log determines. */
  ghost function Decisive(e: Ending): (Option<Cause>, bool, bool) {
    (e.cause, e.stopped, e.keepBE)
  }

  /** The session's ending is the one its causes and its `Stop` lead to. */
  ghost predicate Follows(d: Direction) {
    Decisive(d.ending) == Decisive(After(d.log))
  }

  /** What a step does to the log, and to the part of the ending that the log determines. */
  ghost predicate Logs(d: Direction, d': Direction) {
    || (d'.log == d.log && Decisive(d'.ending) == Decisive(d.ending))
    || (exists c :: d'.log == d.log + [RecordCause(c)] && Decisive(d'.ending) == Decisive(Record(d.ending, c)))
    || (!d.ending.stopped && d'.log == d.log + [EndEvent.Stop] && Decisive(d'.ending) == Decisive(Decide(d.ending)))
  }

  lemma SourceLogs(d: Direction, e: Event)
    requires Shaped(d.ring)
    ensures Logs(d, SourceStep(d, e))
  {
  }

  lemma SinkLogs(d: Direction, e: Event)
    requires Shaped(d.ring)
    ensures Logs(d, SinkStep(d, e))
  {
  }

  lemma StopLogs(d: Direction, e: Event)
    requires Shaped(d.ring) && (d.stop.Begun? ==> !d.ending.stopped)
    ensures Logs(d, StopStep(d, e))
  {
  }

  lemma StepLogs(d: Direction, e: Event)
    requires Shaped(d.ring) && (d.stop.Begun? ==> !d.ending.stopped)
    ensures Logs(d, Step(d, e))
  {
    if OfSource(e) {
      SourceLogs(d, e);
    } else if OfSink(e) {
      SinkLogs(d, e);
    } else {
      StopLogs(d, e);
    }
  }

  lemma SameDecision(e: Ending, f: Ending)
    requires Decisive(e) == Decisive(f)
    ensures Decisive(Decide(e)) == Decisive(Decide(f))
    ensures forall c :: Decisive(Record(e, c)) == Decisive(Record(f, c))
  {
  }

  lemma RecordFollows(log: seq<EndEvent>, e: Ending, c: Cause, f: Ending)
    requires Decisive(e) == Decisive(After(log)) && Decisive(f) == Decisive(Record(e, c))
    ensures Decisive(f) == Decisive(After(log + [RecordCause(c)]))
  {
    AfterMore(log, RecordCause(c));
    SameDecision(e, After(log));
  }

  lemma DecisionFollows(log: seq<EndEvent>, e: Ending, f: Ending)
    requires Decisive(e) == Decisive(After(log)) && !e.stopped && Decisive(f) == Decisive(Decide(e))
    ensures Decisive(f) == Decisive(After(log + [EndEvent.Stop]))
  {
    AfterMore(log, EndEvent.Stop);
    SameDecision(e, After(log));
  }

  lemma LogFollows(d: Direction, d': Direction)
    requires Logs(d, d') && Follows(d)
    ensures Follows(d')
  {
    if d'.log == d.log && Decisive(d'.ending) == Decisive(d.ending) {
    } else if c :| d'.log == d.log + [RecordCause(c)] && Decisive(d'.ending) == Decisive(Record(d.ending, c)) {
      RecordFollows(d.log, d.ending, c, d'.ending);
    } else {
      DecisionFollows(d.log, d.ending, d'.ending);
    }
  }

  lemma StepFollows(d: Direction, e: Event)
    requires Shaped(d.ring) && (d.stop.Begun? ==> !d.ending.stopped) && Follows(d)
    ensures Follows(Step(d, e))
  {
    StepLogs(d, e);
    LogFollows(d, Step(d, e));
  }

  lemma {:induction false} RunEnds(to: Side, maxSize: int, events: seq<Event>)
    ensures
      var d := Run(to, maxSize, events);
      OneGap(d) && Closing(d) && Follows(d) && d.to == to && d.ring.maxSize == maxSize
  {
    RunSound(to, maxSize, events);
    if events != [] {
      var before, e := Run(to, maxSize, events[..|events| - 1]), events[|events| - 1];
      RunEnds(to, maxSize, events[..|events| - 1]);
      RunSound(to, maxSize, events[..|events| - 1]);
      StepOneGap(before, e);
      StepClosing(before, e);
      StepFollows(before, e);
    }
  }

  /** Nothing is missing in front of the gap. */
  lemma PrefixBeforeGap(d: Direction)
    requires OneGap(d) && (d.lo == d.hi || |d.delivered| <= d.lo)
    ensures d.delivered <= d.consumed
  {
    if d.lo == d.hi {
      assert Kept(d) == d.consumed;
    } else {
      assert d.delivered == Kept(d)[..|d.delivered|] == d.consumed[..|d.delivered|];
    }
  }

  /**
   In every run, before and after `Stop`: the destination has a prefix of the source's bytes,
   unless it is a BE that `Stop` kept. BE is kept exactly if the first cause recorded before
   `Stop` decided was that FE left.
   */
  lemma PrefixUnlessKept(to: Side, maxSize: int, events: seq<Event>)
    ensures
      var d := Run(to, maxSize, events);
      && (to.FE? || !d.ending.keepBE ==> d.delivered <= d.consumed)
      && (d.ending.keepBE <==>
            EndEvent.Stop in d.log
            && var first := FirstCause(BeforeStop(d.log)); first.Some? && FELeft(first.value))
  {
    RunEnds(to, maxSize, events);
    var d := Run(to, maxSize, events);
    FirstCauseDecides(d.log);
    if to.FE? || !d.ending.keepBE {
      PrefixBeforeGap(d);
    }
  }

  /** `t` is the beginning of `s` without the positions from `lo` to `hi`. */
  predicate Skips(s: seq<Byte>, t: seq<Byte>, lo: nat, hi: nat) {
    && lo <= hi && |t| + (hi - lo) <= |s|
    && (forall k :: 0 <= k < |t| ==> t[k] == s[if k < lo then k else k + (hi - lo)])
  }

  lemma GapByPosition(d: Direction)
    requires OneGap(d)
    ensures Skips(d.consumed, d.delivered, d.lo, d.hi)
  {
    var kept := Kept(d);
    forall k | 0 <= k < |d.delivered|
      ensures d.delivered[k] == d.consumed[if k < d.lo then k else k + (d.hi - d.lo)]
    {
      assert d.delivered[k] == kept[k];
    }
  }

  /**
   In every run, a kept BE included, the destination has the source's bytes in order with at
   most one stretch missing: what `Stop` flushed, never more than a full ring.
   */
  lemma MissesAtMostOneStretch(to: Side, maxSize: int, events: seq<Event>)
    ensures
      var d := Run(to, maxSize, events);
      && Skips(d.consumed, d.delivered, d.lo, d.hi)
      && d.hi - d.lo <= SizeBound(maxSize)
      && (!PastFlush(d.stop) ==> d.lo == d.hi)
  {
    RunEnds(to, maxSize, events);
    GapByPosition(Run(to, maxSize, events));
  }

  /* A kept BE can miss bytes. */

  /** A ring whose only chunk holds `data`. */
  function OneChunk(data: seq<Byte>, r: Ring): Ring {
    r.(queue := data, chunks := 1, readOff := 0, writeOff := |data|)
  }

  /** A writer finds an empty ring and fills one chunk of it. */
  lemma PutIntoEmpty(d: Direction, k: nat)
    requires d.ring == RingModel.Flushed(d.ring) && !d.ring.closed && !d.ring.writeClosed && d.ring.maxSize > 0
    requires d.source.AtPut? && d.source.rest != [] && k == Min(|d.source.rest|, CHUNK)
    ensures
      var d', data := Step(d, PutPass), d.source.rest[..k];
      d' == d.(source := AtPut(d.source.rest[k..]), ring := OneChunk(data, d.ring))
  {
    assert [] + d.source.rest[..k] == d.source.rest[..k];
  }

  /** The sink takes the only chunk and hands it all to an open destination. */
  lemma TakeAndSend(d: Direction, data: seq<Byte>)
    requires 0 < |data| <= CHUNK && d.ring == OneChunk(data, d.ring) && !d.ring.closed
    requires d.sink.AtTake? && IsOpen(d.ending, d.to)
    ensures
      var d' := Step(Step(d, TakeRing), SendPart(|data|));
      d'.delivered == d.delivered + data && d'.consumed == d.consumed && d'.lo == d.lo && d'.hi == d.hi
  {
    assert data[..|data|] == data;
    assert Step(d, TakeRing).sink == AtSend(data, |data|);
  }

  /**
   When `Stop` flushes a non-empty ring towards a kept BE while the source goroutine is inside
   `Write`, that goroutine can still put its bytes in before the write side is closed, and BE
   then receives them directly after what it had.
   */
  lemma HoleReachesKeptBE(d: Direction)
    requires Shaped(d.ring) && d.to.BE? && d.stop.Shut? && d.ending.keepBE && d.ending.openBE
    requires d.sink.AtTake? && d.source.AtPut? && d.source.rest != [] && d.ring.queue != []
    requires !d.ring.closed && !d.ring.writeClosed && d.ring.maxSize > 0
    ensures
      var k := Min(|d.source.rest|, CHUNK);
      var d' := Step(Step(Step(Step(d, StopFlushes), PutPass), TakeRing), SendPart(k));
      && k > 0 && d'.delivered == d.delivered + d.source.rest[..k] && d'.consumed == d.consumed
      && d'.lo < d'.hi && d'.lo < |d'.delivered|
  {
    var rest, k := d.source.rest, Min(|d.source.rest|, CHUNK);
    var a := Step(d, StopFlushes);
    assert a.lo == |d.delivered| && a.hi == a.lo + |d.ring.queue| && a.ring == RingModel.Flushed(d.ring) by {
      assert d.delivered + [] == d.delivered;
    }
    PutIntoEmpty(a, k);
    TakeAndSend(Step(a, PutPass), rest[..k]);
  }

  function Full(b: Byte): Ring {
    Ring([b], 1, 0, 1, 1, false, false)
  }

  /** One byte fills an empty ring of limit one, and one read empties it again. */
  lemma OneByte(b: Byte)
    ensures WritePass(Empty(1), [b]) == Written(Full(b), 1, Moved)
    ensures ReadSection(Full(b), CHUNK) == Taken(Empty(1), [b], Got)
    ensures [b][1..] == []
  {
    assert [b][..1] == [b];
    assert [] + [b] == [b];
  }

  /** FE was gone when the other direction wrote to it. */
  const FE_GONE := Failure(false, true, "")

  /** The source goroutine has put `a` into a ring of limit one and waits inside `Write` with `b`. */
  function Stalled(a: Byte, b: Byte): Direction {
    Direction(BE, Full(a), AtPut([b]), AtTake, Running, RUNNING, [a, b], [], 2, 0, 0, 0, [])
  }

  ghost predicate Steps(run: seq<Direction>, events: seq<Event>) {
    && |run| == |events| + 1
    && (forall i {:trigger events[i]} :: 0 <= i < |events| ==> Shaped(run[i].ring) && run[i + 1] == Step(run[i], events[i]))
  }

  lemma StallSteps(a: Byte, b: Byte) returns (run: seq<Direction>, events: seq<Event>)
    ensures Steps(run, events) && run[0] == Start(BE, 1) && run[|events|] == Stalled(a, b)
  {
    OneByte(a);
    var d0 := Start(BE, 1);
    var d1 := d0.(source := AtCount([a]), consumed := [a]);
    assert Step(d0, SourceRead([a])) == d1 by {
      assert [] + [a] == [a];
    }
    var d2 := d1.(source := AtPut([a]), ingress := 1);
    var d3 := d2.(source := AtPut([]), ring := Full(a));
    assert Step(d2, PutPass) == d3;
    var d4 := d3.(source := AtCheck);
    var d5 := d4.(source := AtRead);
    var d6 := d5.(source := AtCount([b]), consumed := [a, b]);
    assert Step(d5, SourceRead([b])) == d6 by {
      assert [a] + [b] == [a, b];
    }
    events := [SourceRead([a]), CountIngress, PutPass, PutPass, SourceChecks, SourceRead([b]), CountIngress];
    run := [d0, d1, d2, d3, d4, d5, d6, Stalled(a, b)];
  }

  /** `Stalled`, with FE found gone by the other direction, and BE kept. */
  function Keeping(a: Byte, b: Byte): Direction {
    var c := Cause("BE->FE", "write", Some(FE_GONE));
    Stalled(a, b).(stop := Decided, ending := Ending(Some(c), true, true, true, true), log := [RecordCause(c), EndEvent.Stop])
  }

  /** The other direction finds FE gone, and `Stop` decides. */
  lemma DecideSteps(a: Byte, b: Byte) returns (run: seq<Direction>, events: seq<Event>)
    ensures Steps(run, events) && run[0] == Stalled(a, b) && run[|events|] == Keeping(a, b)
  {
    var c := Cause("BE->FE", "write", Some(FE_GONE));
    var fail := CauseElsewhere("write", FE_GONE);
    var d0 := Stalled(a, b);
    var d1 := d0.(ending := RUNNING.(cause := Some(c)), log := [RecordCause(c)]);
    assert Step(d0, fail) == d1;
    var d2 := d1.(stop := Begun);
    assert Step(d1, StopBegins) == d2;
    var d3 := Keeping(a, b);
    assert Step(d2, StopDecides) == d3 by {
      assert FELeft(c);
    }
    events := [fail, StopBegins, StopDecides];
    run := [d0, d1, d2, d3];
  }

  /** FE is closed, BE is not. */
  lemma ShutSteps(a: Byte, b: Byte) returns (run: seq<Direction>, events: seq<Event>)
    ensures Steps(run, events) && run[0] == Keeping(a, b)
    ensures
      var d := run[|events|];
      && d.to.BE? && d.stop.Shut? && d.ending.keepBE && d.ending.openBE
      && d == Stalled(a, b).(stop := d.stop, ending := d.ending, log := d.log)
  {
    var d0 := Keeping(a, b);
    var d1 := d0.(stop := FEShut, ending := d0.ending.(openFE := false));
    assert Step(d0, StopShutsFE) == d1;
    var d2 := d1.(stop := Shut);
    assert Step(d1, StopShutsBE) == d2;
    events := [StopShutsFE, StopShutsBE];
    run := [d0, d1, d2];
  }

  /** From there BE receives `b` and has missed `a`. */
  lemma SkipSteps(d: Direction, a: Byte, b: Byte) returns (run: seq<Direction>, events: seq<Event>)
    requires d.to.BE? && d.stop.Shut? && d.ending.keepBE && d.ending.openBE
    requires d == Stalled(a, b).(stop := d.stop, ending := d.ending, log := d.log)
    ensures Steps(run, events) && run[0] == d
    ensures
      var last := run[|events|];
      last.to.BE? && last.ending.keepBE && last.consumed == [a, b] && last.delivered == [b]
  {
    OneByte(b);
    assert [b][..1] == [b];
    var d1 := d.(stop := Flushed, ring := Empty(1), hi := 1);
    assert Step(d, StopFlushes) == d1;
    var d2 := d1.(source := AtPut([]), ring := Full(b));
    assert Step(d1, PutPass) == d2;
    var d3 := d2.(ring := Empty(1), sink := AtSend([b], 1));
    assert Step(d2, TakeRing) == d3;
    var d4 := d3.(sink := AtSend([], 1), delivered := [b]);
    assert Step(d3, SendPart(1)) == d4 by {
      assert [] + [b] == [b];
    }
    events := [StopFlushes, PutPass, TakeRing, SendPart(1)];
    run := [d, d1, d2, d3, d4];
  }

  lemma Joined(run: seq<Direction>, events: seq<Event>, more: seq<Direction>, further: seq<Event>)
    requires Steps(run, events) && Steps(more, further) && run[|events|] == more[0]
    ensures Steps(run + more[1..], events + further)
    ensures (run + more[1..])[0] == run[0] && (run + more[1..])[|events + further|] == more[|further|]
  {
    var r, es := run + more[1..], events + further;
    forall i | 0 <= i < |es|
      ensures Shaped(r[i].ring) && r[i + 1] == Step(r[i], es[i])
    {
      if i < |events| {
        assert es[i] == events[i] && r[i] == run[i] && r[i + 1] == run[i + 1];
      } else {
        assert es[i] == further[i - |events|];
        assert r[i] == more[i - |events|] && r[i + 1] == more[i - |events| + 1];
      }
    }
  }

  /**
   A run in which a kept BE loses byte `a` and receives the byte `b` that followed it: `a`
   fills a ring of limit one, `b` waits inside `Write`, the other direction finds FE gone,
   `Stop` keeps BE and flushes, and `b` gets through.
   */
  lemma KeptBECanSkipBytes(a: Byte, b: Byte) returns (run: seq<Direction>, events: seq<Event>)
    requires a != b
    ensures Steps(run, events) && run[0] == Start(BE, 1)
    ensures
      var last := run[|events|];
      && last.to.BE? && last.ending.keepBE
      && last.consumed == [a, b] && last.delivered == [b] && !(last.delivered <= last.consumed)
  {
    run, events := StallSteps(a, b);
    var run2, events2 := DecideSteps(a, b);
    Joined(run, events, run2, events2);
    run, events := run + run2[1..], events + events2;
    run2, events2 := ShutSteps(a, b);
    Joined(run, events, run2, events2);
    run, events := run + run2[1..], events + events2;
    run2, events2 := SkipSteps(run[|events|], a, b);
    Joined(run, events, run2, events2);
    run, events := run + run2[1..], events + events2;
    assert [b][0] != [a, b][0];
  }
}
