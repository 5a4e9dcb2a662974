/**
 One direction of a `PipeSession`: a goroutine that reads the source into the ring, a
 goroutine that writes the ring to the destination, and `Stop`, which any goroutine of the
 session may begin at any time. Every event below is one step of one of them; a step that is
 not possible in the current state leaves it unchanged. What the other direction does shows
 here in the cause it records and in the `Stop` it begins.
 */
module Pipe {
  import opened Bytes
  import opened Options
  import opened RingModel
  import opened SessionEnd

  /** The destination of this direction; the source is the other side. */
  datatype Side = FE | BE

  /** Where the source goroutine stands. */
  datatype Source =
    | AtRead                            // about to read the source
    | AtCount(buf: seq<Byte>)           // has read `buf`, ingress not yet counted
    | AtPut(rest: seq<Byte>)            // inside `rb.Write`, `rest` still to go
    | AtCheck                           // has written, about to look at the error and at `stopping`
    | SourceStops                       // inside `Stop`, or about to call it
    | SourceDone                        // has left its loop

  /** Where the sink goroutine stands. */
  datatype Sink =
    | AtTake                            // about to read the ring
    | AtSend(rest: seq<Byte>, n: nat)   // inside `dst.Write` of `n` bytes, `rest` not yet accepted
    | AtTally(n: nat)                   // has delivered `n` bytes, egress not yet counted
    | SinkStops(rest: seq<Byte>, n: nat)  // inside `Stop`, or about to call it, without having delivered `rest`
    | SinkDone                          // has left its loop

  /** How far `Stop` has come; only its steps that concern this direction's ring are shown. */
  datatype Stopping = Running | Begun | Decided | FEShut | Shut | Flushed | HalfClosed | Stopped

  datatype Direction = Direction(
    to: Side,
    ring: Ring,
    source: Source,
    sink: Sink,
    stop: Stopping,
    ending: Ending,                     // the session's recorded cause, `keepBE`, and open connections
    consumed: seq<Byte>,                // bytes read from the source so far
    delivered: seq<Byte>,               // bytes the destination has accepted so far
    ingress: int,
    egress: int,
    lo: nat,                            // `Stop` has flushed the bytes of `consumed` from position `lo`
    hi: nat,                            // to `hi` with both goroutines still at work; none if equal
    log: seq<EndEvent>)         // the causes recorded so far, and when `Stop` decided

  datatype Event =
    | SourceRead(buf: seq<Byte>)
    | CountIngress
    | PutPass
    | SourceChecks
    | SourceTimesOut
    | SourceFails(err: Failure)
    | SourceReturns
    | SourceLeaves
    | TakeRing
    | SendPart(k: nat)
    | SendDone
    | SendFails(err: Failure)
    | CountEgress
    | SinkReturns
    | SinkLeaves
    | CauseElsewhere(op: string, err: Failure)
    | StopBegins
    | StopDecides
    | StopShutsFE
    | StopShutsBE
    | StopFlushes
    | StopHalfCloses
    | StopCloses

  function Opposite(s: Side): Side {
    if s.FE? then BE else FE
  }

  predicate IsOpen(e: Ending, s: Side) {
    if s.FE? then e.openFE else e.openBE
  }

  /** The direction that ends at this side, as the code spells it. */
  function Towards(s: Side): string {
    if s.BE? then "FE->BE" else "BE->FE"
  }

  /** Bytes read from the source that have not reached the ring. */
  function Unput(s: Source): seq<Byte> {
    match s
    case AtCount(buf) => buf
    case AtPut(rest) => rest
    case _ => []
  }

  /** Bytes taken from the ring that have not reached the destination. */
  function Unsent(s: Sink): seq<Byte> {
    match s
    case AtSend(rest, _) => rest
    case SinkStops(rest, _) => rest
    case _ => []
  }

  predicate MayPut(s: Source) {
    !s.SourceStops? && !s.SourceDone?
  }

  predicate MaySend(s: Sink) {
    !s.SinkStops? && !s.SinkDone?
  }

  function WithCause(d: Direction, c: Cause): Direction {
    d.(ending := Record(d.ending, c), log := d.log + [RecordCause(c)])
  }

  function SourceStep(d: Direction, e: Event): (d': Direction)
    requires Shaped(d.ring)
    ensures Shaped(d'.ring)
  {
    match e
    case SourceRead(buf) =>
      if d.source.AtRead? && 0 < |buf| <= CHUNK && IsOpen(d.ending, Opposite(d.to)) then
        d.(source := AtCount(buf), consumed := d.consumed + buf) else d
    case CountIngress =>
      if d.source.AtCount? then
        d.(source := AtPut(d.source.buf), ingress := d.ingress + |d.source.buf|) else d
    case PutPass =>
      if !d.source.AtPut? then d
      else
        var w := WritePass(d.ring, d.source.rest);
        (match w.end
         case Finished => d.(source := AtCheck)
         case Refused => d.(source := SourceStops)
         case WriterWaits => d
         case Moved => d.(ring := w.ring, source := AtPut(d.source.rest[w.n..])))
    case SourceChecks =>
      if d.source.AtCheck? then d.(source := if d.stop.Running? then AtRead else SourceDone) else d
    case SourceTimesOut =>
      if d.source.AtRead? && !d.stop.Running? then d.(source := SourceDone) else d
    case SourceFails(err) =>
      if d.source.AtRead? || d.source.AtCheck? then
        WithCause(d, Cause(Towards(d.to), "read", Some(err))).(source := SourceStops) else d
    case SourceReturns =>
      if d.source.SourceStops? && d.stop.Stopped? then d.(source := SourceDone) else d
    case SourceLeaves =>
      if d.source.SourceDone? then d.(ring := WriteClosed(d.ring)) else d
    case _ => d
  }

  function SinkStep(d: Direction, e: Event): (d': Direction)
    requires Shaped(d.ring)
    ensures Shaped(d'.ring)
  {
    match e
    case TakeRing =>
      if !d.sink.AtTake? then d
      else
        var t := ReadSection(d.ring, CHUNK);
        (match t.end
         case ReaderWaits => d
         case Got => d.(ring := t.ring, sink := AtSend(t.data, |t.data|))
         case _ => d.(sink := SinkStops([], 0)))
    case SendPart(k) =>
      if d.sink.AtSend? && 0 < k <= |d.sink.rest| && IsOpen(d.ending, d.to) then
        d.(sink := AtSend(d.sink.rest[k..], d.sink.n), delivered := d.delivered + d.sink.rest[..k]) else d
    case SendDone =>
      if d.sink.AtSend? && d.sink.rest == [] then d.(sink := AtTally(d.sink.n)) else d
    case SendFails(err) =>
      if d.sink.AtSend? then
        WithCause(d, Cause(Towards(d.to), "write", Some(err))).(sink := SinkStops(d.sink.rest, d.sink.n)) else d
    case CountEgress =>
      if d.sink.AtTally? then d.(sink := AtTake, egress := d.egress + d.sink.n) else d
    case SinkReturns =>
      if d.sink.SinkStops? && d.stop.Stopped? then d.(sink := SinkDone) else d
    case SinkLeaves =>
      if d.sink.SinkDone? then d.(ring := Closed(d.ring)) else d
    case _ => d
  }

  function StopStep(d: Direction, e: Event): (d': Direction)
    requires Shaped(d.ring)
    ensures Shaped(d'.ring)
  {
    match e
    case CauseElsewhere(op, err) => WithCause(d, Cause(Towards(Opposite(d.to)), op, Some(err)))
    case StopBegins =>
      if d.stop.Running? then d.(stop := Begun) else d
    case StopDecides =>
      if d.stop.Begun? then
        d.(stop := Decided, ending := Decide(d.ending), log := d.log + [EndEvent.Stop]) else d
    case StopShutsFE =>
      if d.stop.Decided? then d.(stop := FEShut, ending := ShutFE(d.ending)) else d
    case StopShutsBE =>
      if d.stop.FEShut? then d.(stop := Shut, ending := ShutBE(d.ending)) else d
    case StopFlushes =>
      if d.stop.Shut? then
        var front := |d.delivered + Unsent(d.sink)|;
        var gap := MayPut(d.source) && MaySend(d.sink);
        d.(stop := Flushed, ring := RingModel.Flushed(d.ring),
           lo := if gap then front else d.lo,
           hi := if gap then front + |d.ring.queue| else d.hi) else d
    case StopHalfCloses =>
      if d.stop.Flushed? then d.(stop := HalfClosed, ring := WriteClosed(d.ring)) else d
    case StopCloses =>
      if d.stop.HalfClosed? then d.(stop := Stopped, ring := Closed(d.ring)) else d
    case _ => d
  }

  predicate OfSource(e: Event) {
    || e.SourceRead? || e.CountIngress? || e.PutPass? || e.SourceChecks? || e.SourceTimesOut?
    || e.SourceFails? || e.SourceReturns? || e.SourceLeaves?
  }

  predicate OfSink(e: Event) {
    || e.TakeRing? || e.SendPart? || e.SendDone? || e.SendFails? || e.CountEgress? || e.SinkReturns? || e.SinkLeaves?
  }

  function Step(d: Direction, e: Event): (d': Direction)
    requires Shaped(d.ring)
    ensures Shaped(d'.ring)
  {
    if OfSource(e) then SourceStep(d, e)
    else if OfSink(e) then SinkStep(d, e)
    else StopStep(d, e)
  }

  function Start(to: Side, maxSize: int): Direction {
    Direction(to, Empty(maxSize), AtRead, AtTake, Running, RUNNING, [], [], 0, 0, 0, 0, [])
  }

  function Run(to: Side, maxSize: int, events: seq<Event>): (d: Direction)
    ensures Shaped(d.ring)
  {
    if events == [] then Start(to, maxSize)
    else Step(Run(to, maxSize, events[..|events| - 1]), events[|events| - 1])
  }

  /** Bytes counted in whose egress is still to be counted, outside the ring. */
  function InHand(d: Direction): nat {
    (if d.source.AtPut? then |d.source.rest| else 0)
    + (match d.sink case AtSend(_, n) => n case AtTally(n) => n case SinkStops(_, n) => n case _ => 0)
  }

  predicate Limits(d: Direction) {
    && |Unput(d.source)| <= CHUNK
    && (match d.sink case AtSend(_, n) => n <= CHUNK case AtTally(n) => n <= CHUNK
        case SinkStops(_, n) => n <= CHUNK case _ => true)
    && Bounded(d.ring)
  }

  /** What the destination has, or would get from the sink and the ring, in order. */
  function Ahead(d: Direction): seq<Byte> {
    d.delivered + Unsent(d.sink) + d.ring.queue
  }

  /** What holds until `Stop` begins. */
  predicate Intact(d: Direction) {
    && !d.source.SourceDone? && !d.sink.SinkDone?
    && !d.ring.closed && !d.ring.writeClosed
    && d.consumed == Ahead(d) + Unput(d.source)
    && d.ingress == d.egress + |d.ring.queue| + InHand(d)
  }

  ghost predicate Sound(d: Direction) {
    Shaped(d.ring) && Limits(d) && (d.stop.Running? ==> Intact(d))
  }

  /** A pass moves bytes from the front of the goroutine's hand to the end of the queue. */
  lemma PutMoves(front: seq<Byte>, r: Ring, rest: seq<Byte>)
    requires Shaped(r)
    ensures
      var w := WritePass(r, rest);
      front + w.ring.queue + rest[w.n..] == front + r.queue + rest
  {
    PassAppends(r, rest);
    var w := WritePass(r, rest);
    assert w.ring.queue + rest[w.n..] == r.queue + rest by {
      assert rest[..w.n] + rest[w.n..] == rest;
    }
    assert front + w.ring.queue + rest[w.n..] == front + (w.ring.queue + rest[w.n..]);
    assert front + r.queue + rest == front + (r.queue + rest);
  }

  /** Taking from the ring moves bytes from the front of the queue to the sink's hand. */
  lemma TakeMoves(front: seq<Byte>, r: Ring)
    requires Shaped(r)
    ensures
      var t := ReadSection(r, CHUNK);
      front + t.data + t.ring.queue == front + r.queue
  {
    ReadTakes(r, CHUNK);
    var t := ReadSection(r, CHUNK);
    assert front + t.data + t.ring.queue == front + (t.data + t.ring.queue);
  }

  /** Handing `k` bytes over moves them from the sink's hand to the destination. */
  lemma SendMoves(delivered: seq<Byte>, rest: seq<Byte>, k: nat)
    requires k <= |rest|
    ensures delivered + rest[..k] + rest[k..] == delivered + rest
  {
    assert rest[..k] + rest[k..] == rest;
  }

  /** The ring after bytes have been appended to it. */
  predicate Appended(r: Ring, rest: seq<Byte>, w: Written) {
    && w.n <= |rest| && Shaped(w.ring) && w.ring.queue == r.queue + rest[..w.n]
    && w.ring.closed == r.closed && w.ring.writeClosed == r.writeClosed
    && w.ring.maxSize == r.maxSize && (Bounded(r) ==> Bounded(w.ring))
  }

  lemma AppendSound(d: Direction, w: Written)
    requires Sound(d) && d.source.AtPut? && Appended(d.ring, d.source.rest, w)
    ensures Sound(d.(ring := w.ring, source := AtPut(d.source.rest[w.n..])))
  {
    var front, rest := d.delivered + Unsent(d.sink), d.source.rest;
    assert front + (d.ring.queue + rest[..w.n]) + rest[w.n..] == front + d.ring.queue + rest by {
      assert rest[..w.n] + rest[w.n..] == rest;
    }
  }

  lemma PutSound(d: Direction)
    requires Sound(d)
    ensures Sound(SourceStep(d, PutPass))
  {
    if d.source.AtPut? {
      PassAppends(d.ring, d.source.rest);
      var w := WritePass(d.ring, d.source.rest);
      if w.end.Moved? {
        AppendSound(d, w);
      }
    }
  }

  lemma SourceSound(d: Direction, e: Event)
    requires Sound(d) && OfSource(e)
    ensures Sound(SourceStep(d, e))
  {
    if e.PutPass? {
      PutSound(d);
    }
  }

  lemma TakeSound(d: Direction)
    requires Sound(d)
    ensures Sound(SinkStep(d, TakeRing))
  {
    ReadTakes(d.ring, CHUNK);
    TakeMoves(d.delivered, d.ring);
    assert d.delivered + [] == d.delivered;
  }

  lemma SinkSound(d: Direction, e: Event)
    requires Sound(d) && OfSink(e)
    ensures Sound(SinkStep(d, e))
  {
    match e
    case TakeRing => TakeSound(d);
    case SendPart(k) =>
      if d.sink.AtSend? && k <= |d.sink.rest| {
        SendMoves(d.delivered, d.sink.rest, k);
      }
    case _ =>
  }

  lemma StopSound(d: Direction, e: Event)
    requires Sound(d) && !OfSource(e) && !OfSink(e)
    ensures Sound(StopStep(d, e))
  {
  }

  lemma StepSound(d: Direction, e: Event)
    requires Sound(d)
    ensures Sound(Step(d, e))
  {
    if OfSource(e) {
      SourceSound(d, e);
    } else if OfSink(e) {
      SinkSound(d, e);
    } else {
      StopSound(d, e);
    }
  }

  lemma StepKeeps(d: Direction, e: Event)
    requires Shaped(d.ring)
    ensures Step(d, e).to == d.to && Step(d, e).ring.maxSize == d.ring.maxSize
  {
  }

  lemma {:induction false} RunSound(to: Side, maxSize: int, events: seq<Event>)
    ensures
      var d := Run(to, maxSize, events);
      Sound(d) && d.to == to && d.ring.maxSize == maxSize
  {
    if events != [] {
      var before := Run(to, maxSize, events[..|events| - 1]);
      RunSound(to, maxSize, events[..|events| - 1]);
      StepSound(before, events[|events| - 1]);
      StepKeeps(before, events[|events| - 1]);
    }
  }

  /**
   Until `Stop` begins, what the destination has accepted is a prefix of what was read from
   the source; the counters differ by exactly the bytes in the ring and in the hands of the
   two goroutines, and that gap never exceeds the ring's bound and two chunks.
   */
  lemma DeliversPrefix(to: Side, maxSize: int, events: seq<Event>)
    requires Run(to, maxSize, events).stop.Running?
    ensures
      var d := Run(to, maxSize, events);
      && d.delivered <= d.consumed
      && d.ingress == d.egress + |d.ring.queue| + InHand(d)
      && 0 <= d.ingress - d.egress <= SizeBound(maxSize) + 2 * CHUNK
  {
    RunSound(to, maxSize, events);
  }
}
