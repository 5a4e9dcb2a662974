/**
 Which runs of a pipe deliver a prefix of the source's bytes whatever those bytes are. The
 steps of a run depend on how many bytes there are and not on their values, so the bytes of
 a run can be chosen freely; that makes the condition exact.
 */
module PipeBytes {
  import opened Bytes
  import opened RingModel
  import opened Pipe
  import opened PipeEnd

  /** The same event, but for the values of the bytes read. */
  predicate SameEvent(e: Event, f: Event) {
    e == f || (e.SourceRead? && f.SourceRead? && |e.buf| == |f.buf|)
  }

  ghost predicate SameShape(events: seq<Event>, other: seq<Event>) {
    |events| == |other| && forall i :: 0 <= i < |events| ==> SameEvent(events[i], other[i])
  }

  predicate SameRing(r: Ring, s: Ring) {
    |r.queue| == |s.queue| && s == r.(queue := s.queue)
  }

  predicate SameSource(s: Source, t: Source) {
    match s
    case AtCount(buf) => t.AtCount? && |buf| == |t.buf|
    case AtPut(rest) => t.AtPut? && |rest| == |t.rest|
    case _ => s == t
  }

  predicate SameSink(s: Sink, t: Sink) {
    match s
    case AtSend(rest, n) => t.AtSend? && |rest| == |t.rest| && n == t.n
    case SinkStops(rest, n) => t.SinkStops? && |rest| == |t.rest| && n == t.n
    case _ => s == t
  }

  /** The same state, but for the values of the bytes. */
  predicate SameState(d: Direction, c: Direction) {
    && SameRing(d.ring, c.ring) && SameSource(d.source, c.source) && SameSink(d.sink, c.sink)
    && |d.consumed| == |c.consumed| && |d.delivered| == |c.delivered|
    && d.to == c.to && d.stop == c.stop && d.ending == c.ending && d.log == c.log
    && d.ingress == c.ingress && d.egress == c.egress && d.lo == c.lo && d.hi == c.hi
  }

  lemma PassSame(r: Ring, s: Ring, rest: seq<Byte>, other: seq<Byte>)
    requires Shaped(r) && Shaped(s) && SameRing(r, s) && |rest| == |other|
    ensures
      var w, v := WritePass(r, rest), WritePass(s, other);
      SameRing(w.ring, v.ring) && w.n == v.n && w.end == v.end
  {
  }

  lemma ReadSame(r: Ring, s: Ring)
    requires Shaped(r) && Shaped(s) && SameRing(r, s)
    ensures
      var t, u := ReadSection(r, CHUNK), ReadSection(s, CHUNK);
      SameRing(t.ring, u.ring) && |t.data| == |u.data| && t.end == u.end
  {
  }

  lemma PutSame(d: Direction, c: Direction)
    requires Shaped(d.ring) && Shaped(c.ring) && SameState(d, c)
    ensures SameState(SourceStep(d, PutPass), SourceStep(c, PutPass))
  {
    if d.source.AtPut? {
      PassSame(d.ring, c.ring, d.source.rest, c.source.rest);
    }
  }

  lemma SourceSame(d: Direction, c: Direction, e: Event, f: Event)
    requires Shaped(d.ring) && Shaped(c.ring) && SameState(d, c) && SameEvent(e, f)
    ensures SameState(SourceStep(d, e), SourceStep(c, f))
  {
    if e.PutPass? {
      PutSame(d, c);
    }
  }

  lemma TakeSame(d: Direction, c: Direction)
    requires Shaped(d.ring) && Shaped(c.ring) && SameState(d, c)
    ensures SameState(SinkStep(d, TakeRing), SinkStep(c, TakeRing))
  {
    ReadSame(d.ring, c.ring);
  }

  lemma SinkSame(d: Direction, c: Direction, e: Event, f: Event)
    requires Shaped(d.ring) && Shaped(c.ring) && SameState(d, c) && SameEvent(e, f)
    ensures SameState(SinkStep(d, e), SinkStep(c, f))
  {
    if e.TakeRing? {
      TakeSame(d, c);
    }
  }

  lemma StopSame(d: Direction, c: Direction, e: Event, f: Event)
    requires Shaped(d.ring) && Shaped(c.ring) && SameState(d, c) && SameEvent(e, f)
    ensures SameState(StopStep(d, e), StopStep(c, f))
  {
  }

  lemma StepSame(d: Direction, c: Direction, e: Event, f: Event)
    requires Shaped(d.ring) && Shaped(c.ring) && SameState(d, c) && SameEvent(e, f)
    ensures SameState(Step(d, e), Step(c, f))
  {
    SourceSame(d, c, e, f);
    SinkSame(d, c, e, f);
    StopSame(d, c, e, f);
  }

  /** Runs of the same shape go through the same states, but for the values of the bytes. */
  lemma {:induction false} RunSame(to: Side, maxSize: int, events: seq<Event>, other: seq<Event>)
    requires SameShape(events, other)
    ensures SameState(Run(to, maxSize, events), Run(to, maxSize, other))
  {
    if events != [] {
      var n := |events| - 1;
      RunSame(to, maxSize, events[..n], other[..n]);
      StepSame(Run(to, maxSize, events[..n]), Run(to, maxSize, other[..n]), events[n], other[n]);
    }
  }

  /** The event with the bytes that `g` puts at position `from` and after. */
  function Relabel(e: Event, from: nat, g: nat -> Byte): (f: Event)
    ensures SameEvent(e, f)
  {
    match e
    case SourceRead(buf) => SourceRead(seq(|buf|, i requires 0 <= i < |buf| => g(from + i)))
    case _ => e
  }

  /** The run with the byte at position `i` of the source set to `g(i)`. */
  function Relabelled(to: Side, maxSize: int, events: seq<Event>, g: nat -> Byte): seq<Event> {
    if events == [] then []
    else
      var n := |events| - 1;
      Relabelled(to, maxSize, events[..n], g) + [Relabel(events[n], |Run(to, maxSize, events[..n]).consumed|, g)]
  }

  lemma SameShapeMore(events: seq<Event>, other: seq<Event>, f: Event)
    requires events != [] && SameShape(events[..|events| - 1], other) && SameEvent(events[|events| - 1], f)
    ensures SameShape(events, other + [f])
  {
    forall i | 0 <= i < |events| ensures SameEvent(events[i], (other + [f])[i]) {
      assert i < |events| - 1 ==> events[..|events| - 1][i] == events[i];
    }
  }

  lemma {:induction false} RelabelledSame(to: Side, maxSize: int, events: seq<Event>, g: nat -> Byte)
    ensures SameShape(events, Relabelled(to, maxSize, events, g))
  {
    if events != [] {
      var init := events[..|events| - 1];
      RelabelledSame(to, maxSize, init, g);
      SameShapeMore(events, Relabelled(to, maxSize, init, g),
                    Relabel(events[|events| - 1], |Run(to, maxSize, init).consumed|, g));
    }
  }

  ghost predicate Reads(s: seq<Byte>, g: nat -> Byte) {
    forall i: nat {:trigger s[i]} :: i < |s| ==> s[i] == g(i)
  }

  lemma ReadsOn(s: seq<Byte>, e: Event, g: nat -> Byte)
    requires Reads(s, g) && e.SourceRead?
    ensures Reads(s + Relabel(e, |s|, g).buf, g)
  {
    var buf := Relabel(e, |s|, g).buf;
    forall i: nat | i < |s + buf| ensures (s + buf)[i] == g(i) {
      if i >= |s| {
        assert (s + buf)[i] == buf[i - |s|] == g(|s| + (i - |s|));
      }
    }
  }

  /** Only reading the source adds to what was read. */
  lemma StepConsumes(d: Direction, e: Event)
    requires Shaped(d.ring)
    ensures Step(d, e).consumed == d.consumed || (e.SourceRead? && Step(d, e).consumed == d.consumed + e.buf)
  {
  }

  lemma StepReads(d: Direction, e: Event, g: nat -> Byte)
    requires Shaped(d.ring) && Reads(d.consumed, g)
    ensures Reads(Step(d, Relabel(e, |d.consumed|, g)).consumed, g)
  {
    StepConsumes(d, Relabel(e, |d.consumed|, g));
    if e.SourceRead? {
      ReadsOn(d.consumed, e, g);
    }
  }

  lemma RunMore(to: Side, maxSize: int, events: seq<Event>, e: Event)
    ensures Run(to, maxSize, events + [e]) == Step(Run(to, maxSize, events), e)
  {
    assert (events + [e])[..|events|] == events;
  }

  lemma {:induction false} RelabelledReads(to: Side, maxSize: int, events: seq<Event>, g: nat -> Byte)
    ensures Reads(Run(to, maxSize, Relabelled(to, maxSize, events, g)).consumed, g)
  {
    if events != [] {
      var n := |events| - 1;
      var less := Relabelled(to, maxSize, events[..n], g);
      RelabelledReads(to, maxSize, events[..n], g);
      RelabelledSame(to, maxSize, events[..n], g);
      RunSame(to, maxSize, events[..n], less);
      var before := Run(to, maxSize, less);
      StepReads(before, events[n], g);
      RunMore(to, maxSize, less, Relabel(events[n], |before.consumed|, g));
    }
  }

  /** Every run of this shape delivers a prefix of what it reads. */
  ghost predicate PrefixForAllBytes(to: Side, maxSize: int, events: seq<Event>) {
    forall other :: SameShape(events, other) ==>
      Run(to, maxSize, other).delivered <= Run(to, maxSize, other).consumed
  }

  lemma SafeForAllBytes(to: Side, maxSize: int, events: seq<Event>)
    requires var d := Run(to, maxSize, events); d.lo == d.hi || |d.delivered| <= d.lo
    ensures PrefixForAllBytes(to, maxSize, events)
  {
    forall other | SameShape(events, other)
      ensures Run(to, maxSize, other).delivered <= Run(to, maxSize, other).consumed
    {
      RunSame(to, maxSize, events, other);
      RunEnds(to, maxSize, other);
      PrefixBeforeGap(Run(to, maxSize, other));
    }
  }

  /** Zeros up to the end of the gap and ones behind it show the gap. */
  lemma SomeBytesBreak(to: Side, maxSize: int, events: seq<Event>)
    requires var d := Run(to, maxSize, events); d.lo != d.hi && |d.delivered| > d.lo
    ensures !PrefixForAllBytes(to, maxSize, events)
  {
    var d := Run(to, maxSize, events);
    var g: nat -> Byte := i => if i < d.hi then 0 else 1;
    var other := Relabelled(to, maxSize, events, g);
    RelabelledReads(to, maxSize, events, g);
    RelabelledSame(to, maxSize, events, g);
    RunSame(to, maxSize, events, other);
    RunEnds(to, maxSize, other);
    var c := Run(to, maxSize, other);
    GapByPosition(c);
    assert c.delivered[c.lo] == c.consumed[c.hi] == 1;
    assert c.consumed[c.lo] == 0;
  }

  /**
   A run delivers a prefix whatever the bytes are, if and only if `Stop` found the ring empty
   (or a goroutine gone) when it flushed, or nothing was delivered past what `Stop` flushed.
   */
  lemma PrefixExactly(to: Side, maxSize: int, events: seq<Event>)
    ensures
      var d := Run(to, maxSize, events);
      PrefixForAllBytes(to, maxSize, events) <==> d.lo == d.hi || |d.delivered| <= d.lo
  {
    var d := Run(to, maxSize, events);
    if d.lo == d.hi || |d.delivered| <= d.lo {
      SafeForAllBytes(to, maxSize, events);
    } else {
      SomeBytesBreak(to, maxSize, events);
    }
  }
}
