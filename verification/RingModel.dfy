/**
 The observable state of one `RingBuffer` and what one critical section does to it.

 The bytes are kept as a plain queue; the chunk layout (how many 32 KiB chunks are
 held, where the next read and the next write fall) is kept beside it because
 `Write` and `Read` decide from the layout how many bytes they move.
 */
module RingModel {
  import opened Bytes

  const CHUNK: nat := 32768

  /** How many bytes fill `k` chunks. */
  function Capacity(k: int): int {
    32768 * k
  }

  datatype Ring = Ring(
    queue: seq<Byte>,
    chunks: nat,
    readOff: nat,
    writeOff: nat,
    maxSize: int,
    closed: bool,
    writeClosed: bool)

  function Empty(maxSize: int): Ring {
    Ring([], 0, 0, 0, maxSize, false, false)
  }

  /** The layout and the queue describe the same number of bytes. */
  predicate Shaped(r: Ring) {
    if r.chunks == 0 then
      r.queue == [] && r.readOff == 0 && r.writeOff == 0
    else
      && !r.closed
      && r.readOff < CHUNK
      && 1 <= r.writeOff <= CHUNK
      && (r.chunks == 1 ==> r.readOff < r.writeOff)
      && |r.queue| == Capacity(r.chunks - 1) + r.writeOff - r.readOff
  }

  /** The most bytes a ring with this limit can ever hold. */
  function SizeBound(maxSize: int): nat {
    if maxSize <= 0 then 0 else maxSize + CHUNK - 1
  }

  predicate Bounded(r: Ring) {
    |r.queue| <= SizeBound(r.maxSize)
  }

  datatype WriteEnd = Finished | Refused | WriterWaits | Moved

  /** What a step of `Write` leaves behind: the ring, how many bytes went in, and why it ended. */
  datatype Written = Written(ring: Ring, n: nat, end: WriteEnd)

  /** One pass through the loop of `Write` with `rest` still to be written. */
  function WritePass(r: Ring, rest: seq<Byte>): (w: Written)
    requires Shaped(r)
    ensures w.n <= |rest| && Shaped(w.ring)
    ensures w.end.Moved? <==> w.n > 0
  {
    if rest == [] then Written(r, 0, Finished)
    else if r.closed || r.writeClosed then Written(r, 0, Refused)
    else if |r.queue| >= r.maxSize then Written(r, 0, WriterWaits)
    else
      var grow := r.chunks == 0 || r.writeOff == CHUNK;
      var off := if grow then 0 else r.writeOff;
      var n := Min(|rest|, CHUNK - off);
      Written(r.(queue := r.queue + rest[..n],
                 chunks := if grow then r.chunks + 1 else r.chunks,
                 writeOff := off + n), n, Moved)
  }

  /**
   A pass appends exactly the prefix it reports, makes progress unless it ends the call,
   fails only on a closed ring and waits only on a ring that has reached its limit.
   */
  lemma PassAppends(r: Ring, rest: seq<Byte>)
    requires Shaped(r)
    ensures
      var w := WritePass(r, rest);
      && w.ring.queue == r.queue + rest[..w.n]
      && (w.end.Finished? <==> rest == [])
      && (w.end.Refused? <==> rest != [] && (r.closed || r.writeClosed))
      && (w.end.WriterWaits? <==> rest != [] && !r.closed && !r.writeClosed && |r.queue| >= r.maxSize)
      && w.ring.maxSize == r.maxSize && w.ring.readOff == r.readOff
      && w.ring.closed == r.closed && w.ring.writeClosed == r.writeClosed
      && (!w.end.Moved? ==> w.ring == r)
      && (w.end.Moved? ==>
            w.n == Min(|rest|, if r.chunks == 0 || r.writeOff == CHUNK then CHUNK else CHUNK - r.writeOff))
      && (Bounded(r) ==> Bounded(w.ring))
  {
  }

  /** A pass that continues a call which has put `p` up to position `n` behind `q` already, from `start` on. */
  lemma PassContinues(q: seq<Byte>, p: seq<Byte>, start: nat, n: nat, r: Ring)
    requires Shaped(r) && start <= n <= |p| && r.queue == q + p[start..n]
    ensures
      var w := WritePass(r, p[n..]);
      && n + w.n <= |p| && w.ring.queue == q + p[start..n + w.n]
      && (w.end.Finished? <==> n == |p|)
      && (w.end.Refused? <==> n < |p| && (r.closed || r.writeClosed))
      && (w.end.WriterWaits? ==> |r.queue| >= r.maxSize && !r.closed && !r.writeClosed && w.ring == r)
      && w.ring.closed == r.closed && w.ring.writeClosed == r.writeClosed
  {
    var w := WritePass(r, p[n..]);
    PassAppends(r, p[n..]);
    assert p[start..n] + p[n..][..w.n] == p[start..n + w.n];
  }

  datatype ReadEnd = ReaderWaits | ReadClosed | EndOfFile | Got

  /** What a lock section of `Read` leaves behind: the ring, the bytes taken, and why it ended. */
  datatype Taken = Taken(ring: Ring, data: seq<Byte>, end: ReadEnd)

  /** `Read` into a destination of `want` bytes. */
  function ReadSection(r: Ring, want: nat): (t: Taken)
    requires Shaped(r)
    ensures |t.data| <= want && Shaped(t.ring)
  {
    if r.queue == [] then
      Taken(r, [], if r.closed then ReadClosed else if r.writeClosed then EndOfFile else ReaderWaits)
    else
      var stop := if r.chunks == 1 then r.writeOff else CHUNK;
      var n := Min(want, stop - r.readOff);
      var rest := r.(queue := r.queue[n..], readOff := r.readOff + n);
      Taken(if r.readOff + n == stop then
              rest.(chunks := r.chunks - 1, readOff := 0,
                    writeOff := if r.chunks == 1 then 0 else r.writeOff)
            else rest,
            r.queue[..n], Got)
  }

  /**
   A lock section of `Read` takes a prefix of the queue, at least one byte of a non-empty
   queue into a non-empty destination, and reports the end of the stream only for an
   empty, half-closed ring.
   */
  lemma ReadTakes(r: Ring, want: nat)
    requires Shaped(r)
    ensures
      var t := ReadSection(r, want);
      && t.data + t.ring.queue == r.queue
      && (t.end.Got? <==> r.queue != [])
      && (t.end.Got? && want > 0 ==> t.data != [])
      && (t.end.Got? ==> |t.data| == Min(want, if r.chunks == 1 then |r.queue| else CHUNK - r.readOff))
      && (t.end.EndOfFile? <==> r.queue == [] && r.writeClosed && !r.closed)
      && (t.end.ReaderWaits? <==> r.queue == [] && !r.writeClosed && !r.closed)
      && t.ring.maxSize == r.maxSize
      && t.ring.closed == r.closed && t.ring.writeClosed == r.writeClosed
      && (Bounded(r) ==> Bounded(t.ring))
  {
  }

  /** `cleanup`: every buffered byte is dropped and every chunk given back. */
  function Flushed(r: Ring): Ring {
    r.(queue := [], chunks := 0, readOff := 0, writeOff := 0)
  }

  function Closed(r: Ring): Ring {
    if r.closed then r else Flushed(r).(closed := true)
  }

  function WriteClosed(r: Ring): Ring {
    r.(writeClosed := true)
  }
}
