/**
 What every run of a ring keeps, however the lock sections of writers and readers
 interleave. An event is one lock section: one pass of a `Write` loop (any writer, any
 remaining input), one `Read`, or one of the closing operations.
 */
module RingRuns {
  import opened Bytes
  import opened RingModel

  datatype Event =
    | Pass(rest: seq<Byte>)
    | Read(want: nat)
    | HalfClose
    | Flush
    | Close

  /** A ring with the bytes that have gone in and come out since it was made. */
  datatype History = History(ring: Ring, written: seq<Byte>, read: seq<Byte>)

  function Step(h: History, e: Event): (h': History)
    requires Shaped(h.ring)
    ensures Shaped(h'.ring)
  {
    match e
    case Pass(rest) =>
      var w := WritePass(h.ring, rest);
      h.(ring := w.ring, written := h.written + rest[..w.n])
    case Read(want) =>
      var t := ReadSection(h.ring, want);
      h.(ring := t.ring, read := h.read + t.data)
    case HalfClose => h.(ring := WriteClosed(h.ring))
    case Flush => h.(ring := Flushed(h.ring))
    case Close => h.(ring := Closed(h.ring))
  }

  function Run(maxSize: int, events: seq<Event>): (h: History)
    ensures Shaped(h.ring)
  {
    if events == [] then History(Empty(maxSize), [], [])
    else Step(Run(maxSize, events[..|events| - 1]), events[|events| - 1])
  }

  ghost predicate NoLoss(events: seq<Event>) {
    forall e <- events :: !e.Flush? && !e.Close?
  }

  /** First in, first out: what was read, then what is buffered, is what was written. */
  lemma {:induction false} Fifo(maxSize: int, events: seq<Event>)
    requires NoLoss(events)
    ensures
      var h := Run(maxSize, events);
      h.read + h.ring.queue == h.written && !h.ring.closed
  {
    if events != [] {
      var last := events[|events| - 1];
      var before := events[..|events| - 1];
      Fifo(maxSize, before);
      var h := Run(maxSize, before);
      FifoStep(h, last);
    }
  }

  lemma FifoStep(h: History, e: Event)
    requires Shaped(h.ring) && !e.Flush? && !e.Close?
    requires h.read + h.ring.queue == h.written && !h.ring.closed
    ensures
      var h' := Step(h, e);
      h'.read + h'.ring.queue == h'.written && !h'.ring.closed
  {
    match e
    case Pass(rest) =>
      PassAppends(h.ring, rest);
      var w := WritePass(h.ring, rest);
      assert h.read + (h.ring.queue + rest[..w.n]) == h.read + h.ring.queue + rest[..w.n];
    case Read(want) =>
      ReadTakes(h.ring, want);
      var t := ReadSection(h.ring, want);
      assert h.read + t.data + t.ring.queue == h.read + (t.data + t.ring.queue);
    case _ =>
  }

  /** `Read` reports the end of the stream only when everything written has been read, and then for good. */
  lemma {:induction false} EndOfFileIsFinal(maxSize: int, events: seq<Event>, more: seq<Event>, want: nat)
    requires NoLoss(events + more)
    requires ReadSection(Run(maxSize, events).ring, want).end.EndOfFile?
    ensures Run(maxSize, events).read == Run(maxSize, events).written
    ensures
      var h := Run(maxSize, events + more);
      h.ring == Run(maxSize, events).ring && h.written == Run(maxSize, events).written
    decreases |more|
  {
    assert forall e <- events :: e in events + more;
    Fifo(maxSize, events);
    ReadTakes(Run(maxSize, events).ring, want);
    if more == [] {
      assert events + more == events;
    } else {
      var less := more[..|more| - 1];
      assert (events + more)[..|events + more| - 1] == events + less;
      assert forall e <- events + less :: e in events + more;
      EndOfFileIsFinal(maxSize, events, less, want);
      assert (events + more)[|events + more| - 1] == more[|more| - 1];
      assert more[|more| - 1] in events + more;
    }
  }

  lemma {:induction false} HalfClosedSince(maxSize: int, events: seq<Event>)
    requires NoLoss(events)
    ensures Run(maxSize, events).ring.writeClosed <==> HalfClose in events
  {
    if events != [] {
      var before, last := events[..|events| - 1], events[|events| - 1];
      assert events == before + [last];
      HalfClosedSince(maxSize, before);
      var h := Run(maxSize, before);
      match last
      case Pass(rest) => PassAppends(h.ring, rest);
      case Read(want) => ReadTakes(h.ring, want);
      case _ =>
    }
  }

  /**
   Without flush or close, `Read` reports the end of the stream exactly when the write side was
   closed before and everything written has been read; until then it yields bytes, or waits
   because nothing is buffered.
   */
  lemma EndOfFileExactly(maxSize: int, events: seq<Event>, want: nat)
    requires NoLoss(events)
    ensures
      var h := Run(maxSize, events);
      var end := ReadSection(h.ring, want).end;
      && (end.EndOfFile? <==> HalfClose in events && h.read == h.written)
      && (end.ReaderWaits? <==> HalfClose !in events && h.read == h.written)
      && (end.Got? <==> h.read != h.written)
  {
    Fifo(maxSize, events);
    HalfClosedSince(maxSize, events);
    ReadTakes(Run(maxSize, events).ring, want);
  }

  /** Once the write side is closed, no `Write` takes anything in. */
  lemma HalfClosedTakesNothing(maxSize: int, events: seq<Event>, rest: seq<Byte>)
    requires NoLoss(events) && HalfClose in events
    ensures
      var h := Run(maxSize, events);
      Step(h, Pass(rest)).ring == h.ring && Step(h, Pass(rest)).written == h.written && (rest != [] ==> WritePass(h.ring, rest).end.Refused?)
  {
    HalfClosedSince(maxSize, events);
    PassAppends(Run(maxSize, events).ring, rest);
  }

  /**
   Memory: in every run the ring holds at most `maxSize` plus one chunk less a byte, and all
   chunks but the first and the last are full.
   */
  lemma {:induction false} MemoryBound(maxSize: int, events: seq<Event>)
    ensures
      var r := Run(maxSize, events).ring;
      && r.maxSize == maxSize
      && |r.queue| <= Max(0, maxSize + CHUNK - 1)
      && (maxSize <= 0 ==> r.queue == [])
      && (r.chunks >= 2 ==> Capacity(r.chunks - 2) + 2 <= |r.queue|)
  {
    BoundedRun(maxSize, events);
  }

  lemma {:induction false} BoundedRun(maxSize: int, events: seq<Event>)
    ensures Bounded(Run(maxSize, events).ring) && Run(maxSize, events).ring.maxSize == maxSize
  {
    if events != [] {
      var last := events[|events| - 1];
      var before := events[..|events| - 1];
      BoundedRun(maxSize, before);
      var h := Run(maxSize, before);
      match last
      case Pass(rest) => PassAppends(h.ring, rest);
      case Read(want) => ReadTakes(h.ring, want);
      case _ =>
    }
  }

  /** The bound is reached: one pass can fill a whole chunk above a limit of one byte. */
  lemma BoundIsTight(chunk: seq<Byte>)
    requires |chunk| == CHUNK
    ensures |Run(1, [Pass(chunk)]).ring.queue| == 1 + CHUNK - 1
  {
    assert [Pass(chunk)][..0] == [];
  }

  /** Once closed, a ring stays empty: nothing written afterwards is taken in, nothing more comes out. */
  lemma {:induction false} ClosedStaysEmpty(maxSize: int, events: seq<Event>, more: seq<Event>)
    requires Run(maxSize, events).ring.closed
    ensures
      var h, h' := Run(maxSize, events), Run(maxSize, events + more);
      && h'.ring.closed && h'.ring.queue == [] && h'.ring.chunks == 0
      && h'.read == h.read && h'.written == h.written
    decreases |more|
  {
    if more == [] {
      assert events + more == events;
    } else {
      var less := more[..|more| - 1];
      assert (events + more)[..|events + more| - 1] == events + less;
      ClosedStaysEmpty(maxSize, events, less);
      var h := Run(maxSize, events + less);
      match more[|more| - 1]
      case Pass(rest) => PassAppends(h.ring, rest);
      case Read(want) => ReadTakes(h.ring, want);
      case _ =>
    }
  }
}
