/** A pipe session: two rings over one chunk pool, the cause of its end, and `Stop`. */
module PipeSessions {
  import opened Bytes
  import opened Options
  import opened RingModel
  import opened RingBuffers
  import opened SessionEnd

  /** `Stop`'s treatment of a ring: flush, close the write side, close. */
  function Ended(r: Ring): Ring {
    Closed(WriteClosed(Flushed(r)))
  }

  ghost predicate Apart(s: seq<array<Byte>>, t: seq<array<Byte>>) {
    forall i, j :: 0 <= i < |s| && 0 <= j < |t| ==> s[i] != t[j]
  }

  /** Two rings on one pool that share no chunk. */
  ghost predicate Separate(a: RingBuffer, b: RingBuffer)
    reads a, b, a.pool, b.pool, a.buffers, b.buffers
  {
    a != b && a.pool == b.pool && a.Valid() && b.Valid() && Apart(a.buffers, b.buffers)
  }

  /** The write in one copy loop takes chunks from the shared pool and leaves the other ring alone. */
  method CopyLoopPut(rb: RingBuffer, other: RingBuffer, data: seq<Byte>, start: nat) returns (n: nat, end: WriteEnd)
    requires Separate(rb, other) && start <= |data|
    modifies rb, rb.pool, rb.buffers, rb.pool.free
    ensures Separate(rb, other) && unchanged(other)
    ensures start <= n <= |data| && rb.view.queue == old(rb.view).queue + data[start..n]
    ensures end.Finished? <==> n == |data|
  {
    n, end := rb.Write(data, start);
  }

  /** The read in one copy loop gives chunks back to the shared pool and leaves the other ring alone. */
  method CopyLoopTake(rb: RingBuffer, other: RingBuffer, p: array<Byte>) returns (n: nat, end: ReadEnd)
    requires Separate(rb, other) && p !in rb.buffers && p !in other.buffers && p !in rb.pool.free
    modifies rb, rb.pool, p
    ensures Separate(rb, other) && unchanged(other)
    ensures n <= p.Length && Taken(rb.view, p[..n], end) == ReadSection(old(rb.view), p.Length)
  {
    n, end := rb.Read(p);
  }

  class PipeSession {
    const pool: BufferPool
    const rbFE2BE: RingBuffer
    const rbBE2FE: RingBuffer
    var openFE: bool
    var openBE: bool
    var cause: Option<Cause>
    var keepBE: bool
    var stopping: bool

    /** The two rings draw from the same pool, and no chunk is in both. */
    ghost predicate Valid()
      reads this, pool, rbFE2BE, rbBE2FE, rbFE2BE.buffers, rbBE2FE.buffers
    {
      rbFE2BE.pool == pool && rbBE2FE.pool == pool && Separate(rbFE2BE, rbBE2FE)
    }

    function State(): Ending
      reads this
    {
      Ending(cause, stopping, keepBE, openFE, openBE)
    }

    constructor (pool: BufferPool, ringSize: int)
      requires pool.Valid()
      ensures Valid() && State() == RUNNING && this.pool == pool
      ensures rbFE2BE.view == Empty(ringSize) && rbBE2FE.view == Empty(ringSize)
    {
      this.pool := pool;
      rbFE2BE := new RingBuffer(pool, ringSize);
      rbBE2FE := new RingBuffer(pool, ringSize);
      openFE, openBE, cause, keepBE, stopping := true, true, None, false, false;
    }

    /** Only the first cause is kept. */
    method RecordCause(c: Cause)
      modifies this`cause
      ensures State() == Apply(old(State()), EndEvent.RecordCause(c))
      ensures cause == if old(cause).None? then Some(c) else old(cause)
    {
      if cause.None? {
        cause := Some(c);
      }
    }

    /**
     BE is kept for a failed read from FE or a failed write to FE, if the error is the end of
     input, a closed connection, or says one of three things in any case; and for nothing else.
     */
    method ShouldKeepBE() returns (keep: bool)
      ensures keep <==> cause.Some? && FELeft(cause.value)
      ensures keep <==>
        && cause.Some? && cause.value.err.Some?
        && ((cause.value.dir == "FE->BE" && cause.value.op == "read")
            || (cause.value.dir == "BE->FE" && cause.value.op == "write"))
        && var f := cause.value.err.value;
           || f.isEOF
           || f.isClosed
           || Says(f.message, "broken pipe")
           || Says(f.message, "connection reset by peer")
           || Says(f.message, "use of closed network connection")
    {
      if cause.Some? && cause.value.err.Some? {
        FEClosedExactly(cause.value.err.value);
      }
      if cause.None? || cause.value.err.None? {
        return false;
      }
      if cause.value.dir == "FE->BE" {
        return cause.value.op == "read" && FEClosed(cause.value.err.value);
      }
      if cause.value.dir == "BE->FE" {
        return cause.value.op == "write" && FEClosed(cause.value.err.value);
      }
      return false;
    }

    /**
     The first call closes the connections the cause asks for and empties both rings, giving
     every chunk of either back to the pool once; a later call changes nothing.
     */
    method Stop()
      requires Valid()
      modifies this, rbFE2BE, rbBE2FE, pool
      ensures Valid()
      ensures State() == Apply(old(State()), EndEvent.Stop)
      ensures stopping && cause == old(cause)
      ensures !old(stopping) ==>
                && !openFE && openBE == (old(openBE) && keepBE)
                && (keepBE <==> cause.Some? && FELeft(cause.value))
                && rbFE2BE.buffers == [] && rbFE2BE.currentSize == 0 && rbFE2BE.closed && rbFE2BE.writeClosed
                && rbBE2FE.buffers == [] && rbBE2FE.currentSize == 0 && rbBE2FE.closed && rbBE2FE.writeClosed
      ensures !old(stopping) ==>
                && rbFE2BE.view == Ended(old(rbFE2BE.view)) && rbBE2FE.view == Ended(old(rbBE2FE.view))
                && rbFE2BE.taken == rbFE2BE.returned && rbBE2FE.taken == rbBE2FE.returned
                && rbFE2BE.taken == old(rbFE2BE.taken) && rbBE2FE.taken == old(rbBE2FE.taken)
                && pool.free == old(pool.free) + Elements(old(rbFE2BE.buffers)) + Elements(old(rbBE2FE.buffers))
      ensures old(stopping) ==> unchanged(this, rbFE2BE, rbBE2FE, pool)
    {
      if stopping {
        return;
      }
      stopping := true;
      keepBE := ShouldKeepBE();
      openFE := false;
      if !keepBE {
        openBE := false;
      }
      FlushBoth();
      CloseBoth();
    }

    method FlushBoth()
      requires Valid()
      modifies rbFE2BE, rbBE2FE, pool
      ensures Valid()
      ensures rbFE2BE.buffers == [] && rbBE2FE.buffers == []
      ensures rbFE2BE.view == Flushed(old(rbFE2BE.view)) && rbBE2FE.view == Flushed(old(rbBE2FE.view))
      ensures rbFE2BE.taken == old(rbFE2BE.taken) && rbBE2FE.taken == old(rbBE2FE.taken)
      ensures pool.free == old(pool.free) + Elements(old(rbFE2BE.buffers)) + Elements(old(rbBE2FE.buffers))
    {
      rbFE2BE.Flush();
      rbBE2FE.Flush();
    }

    method CloseBoth()
      requires Valid() && rbFE2BE.buffers == [] && rbBE2FE.buffers == []
      modifies rbFE2BE, rbBE2FE, pool
      ensures Valid()
      ensures rbFE2BE.view == Closed(WriteClosed(old(rbFE2BE.view)))
      ensures rbBE2FE.view == Closed(WriteClosed(old(rbBE2FE.view)))
      ensures rbFE2BE.taken == rbFE2BE.returned == old(rbFE2BE.taken)
      ensures rbBE2FE.taken == rbBE2FE.returned == old(rbBE2FE.taken)
      ensures pool.free == old(pool.free)
    {
      rbFE2BE.CloseWrite();
      rbBE2FE.CloseWrite();
      rbFE2BE.Close();
      rbBE2FE.Close();
    }
  }
}
