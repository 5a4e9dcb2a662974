/**
 The chunked FIFO as it is laid out in memory: a list of 32 KiB arrays taken from a
 shared free pool, a read offset into the first and a write offset into the last.

 Every method is proved against the lock sections of module `RingModel`, and keeps the
 ownership discipline: a chunk is held by one ring or lies in the pool, never both,
 and never twice.
 */
module RingBuffers {
  import opened Bytes
  import opened RingModel

  /** The free-chunk pool. `PutBuffer` may only be given a chunk that is not in the pool already. */
  class BufferPool {
    var free: set<array<Byte>>

    ghost predicate Valid()
      reads this
    {
      forall b <- free :: b.Length == CHUNK
    }

    constructor ()
      ensures Valid() && free == {}
    {
      free := {};
    }

    /** Some chunk of the pool, or a new one. */
    method GetBuffer() returns (b: array<Byte>)
      requires Valid()
      modifies this
      ensures Valid() && b.Length == CHUNK
      ensures if b in old(free) then free == old(free) - {b} else fresh(b) && free == old(free)
    {
      if free != {} {
        b :| b in free;
        free := free - {b};
      } else {
        b := new Byte[CHUNK](_ => 0);
      }
    }

    /** Arrays smaller than a chunk are not taken back. */
    method PutBuffer(b: array<Byte>)
      requires b !in free
      modifies this
      ensures free == if b.Length >= CHUNK then old(free) + {b} else old(free)
    {
      if b.Length >= CHUNK {
        free := free + {b};
      }
    }
  }

  ghost function Elements(chunks: seq<array<Byte>>): set<array<Byte>> {
    set b | b in chunks
  }

  /** `mem` is the chunks read one after the other. */
  ghost predicate Backs(chunks: seq<array<Byte>>, mem: seq<Byte>)
    reads chunks
  {
    && |mem| == Capacity(|chunks|)
    && (forall b <- chunks :: b.Length == CHUNK)
    && (forall i, o :: 0 <= i < |chunks| && 0 <= o < CHUNK ==> chunks[i][o] == mem[Capacity(i) + o])
  }

  lemma BacksMore(chunks: seq<array<Byte>>, mem: seq<Byte>, chunk: array<Byte>)
    requires Backs(chunks, mem) && chunk.Length == CHUNK
    ensures Backs(chunks + [chunk], mem + chunk[..])
  {
  }

  lemma BacksRest(chunks: seq<array<Byte>>, mem: seq<Byte>)
    requires Backs(chunks, mem) && chunks != []
    ensures mem == chunks[0][..] + mem[CHUNK..] && Backs(chunks[1..], mem[CHUNK..])
  {
    assert mem[..CHUNK] == chunks[0][..] by {
      forall o | 0 <= o < CHUNK ensures mem[o] == chunks[0][o] {
        assert chunks[0][o] == mem[Capacity(0) + o];
      }
    }
    forall i, o | 0 <= i < |chunks| - 1 && 0 <= o < CHUNK
      ensures chunks[1..][i][o] == mem[CHUNK..][Capacity(i) + o]
    {
      assert chunks[i + 1][o] == mem[Capacity(i + 1) + o];
    }
  }

  /** `q` is what `flat` holds from position `off` on. */
  ghost predicate Window(flat: seq<Byte>, off: nat, q: seq<Byte>) {
    off + |q| <= |flat| && flat[off..off + |q|] == q
  }

  lemma WindowGrow(flat: seq<Byte>, off: nat, q: seq<Byte>, more: seq<Byte>)
    requires Window(flat, off, q)
    ensures Window(flat + more, off, q)
  {
  }

  /** Overwriting the last chunk behind the window's end extends the window. */
  lemma WindowFill(front: seq<Byte>, chunk: seq<Byte>, chunk': seq<Byte>, off: nat, q: seq<Byte>, data: seq<Byte>)
    requires |front| <= off + |q| && off + |q| + |data| <= |front| + |chunk'|
    requires Window(front + chunk, off, q)
    requires
      var end := off + |q| - |front|;
      end <= |chunk| && chunk'[..end] == chunk[..end] && chunk'[end..end + |data|] == data
    ensures Window(front + chunk', off, q + data)
  {
    var end := off + |q| - |front|;
    assert (front + chunk')[..off + |q|] == front + chunk'[..end] == (front + chunk)[..off + |q|];
    assert (front + chunk')[off + |q|..off + |q| + |data|] == chunk'[end..end + |data|];
  }

  /** Taking `n` bytes that lie in the first chunk. */
  lemma WindowTake(first: seq<Byte>, rest: seq<Byte>, off: nat, q: seq<Byte>, n: nat)
    requires Window(first + rest, off, q)
    requires n <= |q| && off + n <= |first|
    ensures q[..n] == first[off..off + n]
    ensures Window(first + rest, off + n, q[n..])
    ensures off + n == |first| ==> Window(rest, 0, q[n..])
  {
    var flat := first + rest;
    assert q[..n] == flat[off..off + |q|][..n] == flat[off..off + n];
    assert q[n..] == flat[off..off + |q|][n..] == flat[off + n..off + |q|];
    if off + n == |first| {
      assert flat[|first|..] == rest;
      assert rest[..|q| - n] == flat[|first|..off + |q|];
    }
  }

  lemma BacksFront(chunks: seq<array<Byte>>, mem: seq<Byte>)
    requires Backs(chunks, mem) && chunks != []
    ensures
      var k := |chunks| - 1;
      mem == mem[..Capacity(k)] + chunks[k][..] && Backs(chunks[..k], mem[..Capacity(k)])
  {
    var k := |chunks| - 1;
    assert mem[Capacity(k)..] == chunks[k][..];
  }

  lemma BacksLast(chunks: seq<array<Byte>>, front: seq<Byte>)
    requires chunks != [] && Backs(chunks[..|chunks| - 1], front) && chunks[|chunks| - 1].Length == CHUNK
    ensures Backs(chunks, front + chunks[|chunks| - 1][..])
  {
    var k := |chunks| - 1;
    BacksMore(chunks[..k], front, chunks[k]);
    assert chunks == chunks[..k] + [chunks[k]];
  }

  /** `copy` into an array. */
  method CopyIn(dst: array<Byte>, off: nat, data: seq<Byte>)
    requires off + |data| <= dst.Length
    modifies dst
    ensures dst[..off] == old(dst[..off])
    ensures dst[off..off + |data|] == data
    ensures dst[off + |data|..] == old(dst[off + |data|..])
  {
    forall j | off <= j < off + |data| {
      dst[j] := data[j - off];
    }
  }

  class RingBuffer {
    const pool: BufferPool
    const maxSize: int
    var buffers: seq<array<Byte>>
    var writeOff: nat
    var readOff: nat
    var currentSize: int
    var closed: bool
    var writeClosed: bool

    ghost var view: Ring         // the observable state
    ghost var mem: seq<Byte>     // the chunks read one after the other
    ghost var taken: nat         // chunks this ring has drawn from the pool so far
    ghost var returned: nat      // chunks it has given back so far

    /** Chunks are distinct arrays of the right size, and none of them is in the pool. */
    ghost predicate Owns()
      reads this, pool
    {
      && pool.Valid()
      && taken == returned + |buffers|
      && (forall i :: 0 <= i < |buffers| ==> buffers[i].Length == CHUNK && buffers[i] !in pool.free)
      && (forall i, j :: 0 <= i < j < |buffers| ==> buffers[i] != buffers[j])
    }

    /** The chunks hold the queue from the read offset on. */
    ghost predicate Stores(q: seq<Byte>)
      reads this, buffers
    {
      Backs(buffers, mem) && Window(mem, readOff, q)
    }

    /** The fields agree with the observable state. */
    ghost predicate Agrees()
      reads this
    {
      && Shaped(view)
      && view.chunks == |buffers|
      && view.readOff == readOff
      && view.writeOff == writeOff
      && view.maxSize == maxSize
      && view.closed == closed
      && view.writeClosed == writeClosed
      && |view.queue| == currentSize
    }

    ghost predicate Valid()
      reads this, pool, buffers
    {
      && Owns()
      && Agrees()
      && Stores(view.queue)
    }

    constructor (pool: BufferPool, maxSize: int)
      requires pool.Valid()
      ensures Valid() && this.pool == pool && view == Empty(maxSize)
      ensures taken == returned == 0
    {
      this.pool := pool;
      this.maxSize := maxSize;
      buffers := [];
      writeOff, readOff, currentSize := 0, 0, 0;
      closed, writeClosed := false, false;
      view, mem := Empty(maxSize), [];
      taken, returned := 0, 0;
    }

    /** Only new chunks are gained; they come from the pool, or are newly allocated. */
    twostate predicate Draws()
      reads this, pool
    {
      && old(buffers) <= buffers
      && returned == old(returned)
      && pool.free <= old(pool.free)
      && (forall i :: |old(buffers)| <= i < |buffers| ==> buffers[i] in old(pool.free) || fresh(buffers[i]))
    }

    /** The first `k` chunks go back to the pool, each once. */
    twostate predicate GivesBack(k: int)
      reads this, pool
    {
      && 0 <= k <= |old(buffers)|
      && taken == old(taken)
      && buffers == old(buffers)[k..]
      && pool.free == old(pool.free) + Elements(old(buffers)[..k])
    }

    method DrawChunk() returns (chunk: array<Byte>)
      requires Owns()
      modifies this`buffers, this`taken, pool
      ensures Owns() && Draws()
      ensures buffers == old(buffers) + [chunk]
    {
      chunk := pool.GetBuffer();
      buffers := buffers + [chunk];
      taken := taken + 1;
    }

    /** Draws a new chunk when the last one is full or missing. */
    method ReserveRoom(ghost q: seq<Byte>)
      requires Owns() && Stores(q)
      modifies this`buffers, this`writeOff, this`taken, this`mem, pool
      ensures Owns() && Draws()
      ensures Stores(q) && |buffers| > 0
      ensures if |old(buffers)| > 0 && old(writeOff) != CHUNK then
                buffers == old(buffers) && writeOff == old(writeOff)
              else
                |buffers| == |old(buffers)| + 1 && writeOff == 0
    {
      if |buffers| == 0 || writeOff == CHUNK {
        ghost var held := buffers;
        var chunk := DrawChunk();
        assert chunk == buffers[|buffers| - 1];
        BacksMore(held, mem, chunk);
        WindowGrow(mem, readOff, q, chunk[..]);
        mem := mem + chunk[..];
        writeOff := 0;
      }
    }

    /** Copies `data` behind the write offset. */
    method Fill(data: seq<Byte>, ghost q: seq<Byte>)
      requires Stores(q) && |buffers| > 0 && buffers[|buffers| - 1] !in buffers[..|buffers| - 1]
      requires writeOff + |data| <= CHUNK
      requires readOff + |q| == Capacity(|buffers| - 1) + writeOff
      modifies this`writeOff, this`currentSize, this`mem, buffers[|buffers| - 1]
      ensures Stores(q + data)
      ensures writeOff == old(writeOff) + |data| && currentSize == old(currentSize) + |data|
    {
      var k := |buffers| - 1;
      BacksFront(buffers, mem);
      ghost var front, chunk := mem[..Capacity(k)], buffers[k][..];
      CopyIn(buffers[k], writeOff, data);
      WindowFill(front, chunk, buffers[k][..], readOff, q, data);
      BacksLast(buffers, front);
      writeOff := writeOff + |data|;
      currentSize := currentSize + |data|;
      mem := front + buffers[k][..];
    }

    /** The part of a pass that moves bytes, field by field. */
    method Store(rest: seq<Byte>, ghost q: seq<Byte>) returns (n: nat)
      requires Owns() && Stores(q) && writeOff <= CHUNK
      requires if |buffers| == 0 then readOff == |q| == 0 else readOff + |q| == Capacity(|buffers| - 1) + writeOff
      modifies this`buffers, this`writeOff, this`taken, this`mem, this`currentSize, pool, buffers, pool.free
      ensures Owns() && Draws()
      ensures n <= |rest| && Stores(q + rest[..n])
      ensures currentSize == old(currentSize) + n
      ensures var grow := |old(buffers)| == 0 || old(writeOff) == CHUNK;
              var off := if grow then 0 else old(writeOff);
              && |buffers| == |old(buffers)| + (if grow then 1 else 0)
              && n == Min(|rest|, CHUNK - off)
              && writeOff == off + n
    {
      ReserveRoom(q);
      n := Min(|rest|, CHUNK - writeOff);
      Fill(rest[..n], q);
    }

    /** One pass through the loop of `Write`. */
    method WritePass(rest: seq<Byte>) returns (n: nat, end: WriteEnd)
      requires Valid()
      modifies this, pool, buffers, pool.free
      ensures Valid()
      ensures Written(view, n, end) == RingModel.WritePass(old(view), rest)
      ensures Draws()
    {
      if rest == [] {
        return 0, Finished;
      }
      if closed || writeClosed {
        return 0, Refused;
      }
      if currentSize >= maxSize {
        return 0, WriterWaits;
      }
      ghost var pass := RingModel.WritePass(view, rest);
      n := Store(rest, view.queue);
      end := Moved;
      view := pass.ring;
    }

    /** A call of `Write` has stored `p` from `start` to `n`; `end` says why it stopped, if it has. */
    ghost predicate Wrote(was: Ring, p: seq<Byte>, start: nat, n: nat, end: WriteEnd)
      reads this
    {
      && start <= n <= |p|
      && view.queue == was.queue + p[start..n]
      && view.closed == was.closed && view.writeClosed == was.writeClosed
      && (end.Finished? ==> n == |p|)
      && (end.Refused? ==> start == n < |p| && (was.closed || was.writeClosed))
      && (end.WriterWaits? ==> n < |p| && |view.queue| >= view.maxSize && !was.closed && !was.writeClosed)
      && (n > start ==> !was.closed && !was.writeClosed)
    }

    /** One more pass of the call. */
    method Proceed(ghost was: Ring, p: seq<Byte>, ghost start: nat, n: nat) returns (next: nat, end: WriteEnd)
      requires Valid() && Wrote(was, p, start, n, Moved)
      modifies this, pool, buffers, pool.free
      ensures Valid() && Wrote(was, p, start, next, end)
      ensures Draws()
      ensures n <= next && (end.Moved? ==> n < next)
    {
      PassContinues(was.queue, p, start, n, view);
      next, end := WritePass(p[n..]);
      next := n + next;
    }

    /** The loop of `Write`. */
    method Passes(p: seq<Byte>, start: nat) returns (n: nat, end: WriteEnd)
      requires Valid() && start <= |p|
      modifies this, pool, buffers, pool.free
      ensures Valid() && Wrote(old(view), p, start, n, end) && !end.Moved?
      ensures Draws()
    {
      n, end := start, Moved;
      while end == Moved
        invariant Valid() && Wrote(old(view), p, start, n, end)
        invariant Draws()
        invariant forall b <- buffers :: b in old(buffers) || b in old(pool.free) || fresh(b)
        decreases |p| - n, end == Moved
      {
        n, end := Proceed(old(view), p, start, n);
      }
    }

    /**
     `Write` with `start` bytes of `p` already stored, from taking the lock (first with none
     stored, then after each wait) until it returns or waits on the condition variable. The
     count is that of the whole call.
     */
    method Write(p: seq<Byte>, start: nat) returns (n: nat, end: WriteEnd)
      requires Valid() && start <= |p|
      modifies this, pool, buffers, pool.free
      ensures Valid()
      ensures start <= n <= |p| && view.queue == old(view).queue + p[start..n]
      ensures !end.Moved? && (end.Finished? <==> n == |p|)
      ensures end.Refused? ==> n == start && (closed || writeClosed)
      ensures end.WriterWaits? ==> currentSize >= maxSize && !closed && !writeClosed
      ensures closed == old(closed) && writeClosed == old(writeClosed)
      ensures Draws()
    {
      n, end := Passes(p, start);
    }

    /** Gives the first chunk back once every byte in it has been read. */
    method DropFirst(ghost q: seq<Byte>)
      requires Owns() && Stores(q) && |buffers| > 0
      requires readOff == CHUNK || (|buffers| == 1 && q == [])
      modifies this`buffers, this`mem, this`returned, this`readOff, this`writeOff, pool
      ensures Owns() && GivesBack(1) && readOff == 0 && Stores(q)
      ensures writeOff == if |buffers| == 0 then 0 else old(writeOff)
    {
      BacksRest(buffers, mem);
      assert mem[CHUNK..][..|q|] == q;
      pool.PutBuffer(buffers[0]);
      buffers := buffers[1..];
      mem := mem[CHUNK..];
      returned := returned + 1;
      readOff := 0;
      if |buffers| == 0 {
        writeOff := 0;
      }
    }

    /** Copies `n` bytes of the first chunk out and moves the read offset past them. */
    method CopyOut(p: array<Byte>, n: nat, ghost q: seq<Byte>)
      requires Stores(q) && p !in buffers && |buffers| > 0
      requires n <= p.Length && n <= |q| && readOff + n <= CHUNK
      modifies this`readOff, this`currentSize, p
      ensures Stores(q[n..])
      ensures p[..n] == q[..n] && p[n..] == old(p[n..])
      ensures readOff == old(readOff) + n && currentSize == old(currentSize) - n
    {
      BacksRest(buffers, mem);
      var first := buffers[0];
      WindowTake(first[..], mem[CHUNK..], readOff, q, n);
      CopyIn(p, 0, first[readOff..readOff + n]);
      assert p[..n] == p[0..0 + n];
      readOff := readOff + n;
      currentSize := currentSize - n;
    }

    /** The part of `Read` that finds bytes: copy from the first chunk, drop it once it is read. */
    method Take(p: array<Byte>, ghost q: seq<Byte>) returns (n: nat)
      requires Owns() && Stores(q) && p !in buffers && |buffers| > 0
      requires readOff < CHUNK && writeOff <= CHUNK && (|buffers| == 1 ==> readOff <= writeOff)
      requires readOff + |q| == Capacity(|buffers| - 1) + writeOff
      modifies this`buffers, this`readOff, this`writeOff, this`currentSize, this`mem, this`returned, pool, p
      ensures Owns()
      ensures |buffers| <= |old(buffers)| && GivesBack(|old(buffers)| - |buffers|)
      ensures var stop := if |old(buffers)| == 1 then old(writeOff) else CHUNK;
              var done := old(readOff) + n == stop;
              && n == Min(p.Length, stop - old(readOff))
              && n <= |q|
              && |buffers| == |old(buffers)| - (if done then 1 else 0)
              && readOff == (if done then 0 else old(readOff) + n)
              && writeOff == (if done && |buffers| == 0 then 0 else old(writeOff))
      ensures p[..n] == q[..n] && p[n..] == old(p[n..]) && Stores(q[n..])
      ensures currentSize == old(currentSize) - n
    {
      var stop := if |buffers| == 1 then writeOff else buffers[0].Length;
      n := Min(p.Length, stop - readOff);
      CopyOut(p, n, q);
      if readOff == stop {
        DropFirst(q[n..]);
      }
    }

    /** `Read` on a ring that holds bytes. */
    method ReadFound(p: array<Byte>) returns (n: nat)
      requires Valid() && p !in buffers && p !in pool.free && currentSize > 0
      modifies this, pool, p
      ensures Valid() && n <= p.Length
      ensures p[n..] == old(p[n..])
      ensures Taken(view, p[..n], Got) == ReadSection(old(view), p.Length)
      ensures GivesBack(|old(buffers)| - |buffers|)
    {
      ghost var t := ReadSection(view, p.Length);
      n := Take(p, view.queue);
      assert p[..n] == t.data;
      assert view.queue[n..] == t.ring.queue;
      view := t.ring;
    }

    /** One look at the ring by `Read`; with nothing buffered it fails or would wait. */
    method Look(p: array<Byte>) returns (n: nat, end: ReadEnd)
      requires Valid() && p !in buffers && p !in pool.free
      modifies this, pool, p
      ensures Valid() && n <= p.Length
      ensures p[n..] == old(p[n..])
      ensures Taken(view, p[..n], end) == ReadSection(old(view), p.Length)
      ensures GivesBack(|old(buffers)| - |buffers|)
    {
      n := 0;
      if currentSize <= 0 {
        if closed {
          return 0, ReadClosed;
        }
        if writeClosed {
          return 0, EndOfFile;
        }
        return 0, ReaderWaits;
      }
      n := ReadFound(p);
      end := Got;
    }

    /** `Read` into `p`, from taking the lock until it returns or waits on the condition variable. */
    method Read(p: array<Byte>) returns (n: nat, end: ReadEnd)
      requires Valid() && p !in buffers && p !in pool.free
      modifies this, pool, p
      ensures Valid() && n <= p.Length
      ensures p[n..] == old(p[n..])
      ensures Taken(view, p[..n], end) == ReadSection(old(view), p.Length)
      ensures GivesBack(|old(buffers)| - |buffers|)
      ensures p[..n] + view.queue == old(view).queue
      ensures old(view).queue != [] ==> end.Got? && (p.Length > 0 ==> n > 0)
      ensures old(view).queue == [] ==>
                end == (if old(view).closed then ReadClosed else if old(view).writeClosed then EndOfFile else ReaderWaits)
    {
      ghost var t := ReadSection(view, p.Length);
      ReadTakes(view, p.Length);
      n, end := Look(p);
      assert t == Taken(view, p[..n], end);
    }

    /** Gives every chunk back, one by one. */
    method GiveBackChunks()
      requires Owns()
      modifies this`buffers, this`returned, pool
      ensures Owns() && buffers == [] && GivesBack(|old(buffers)|)
    {
      ghost var k := 0;
      while |buffers| > 0
        invariant Owns() && k + |buffers| == |old(buffers)| && GivesBack(k)
      {
        pool.PutBuffer(buffers[0]);
        buffers := buffers[1..];
        returned := returned + 1;
        k := k + 1;
      }
    }

    /** Gives every chunk back and forgets the buffered bytes. */
    method Cleanup()
      requires Valid()
      modifies this, pool
      ensures Valid() && view == Flushed(old(view))
      ensures GivesBack(|old(buffers)|)
    {
      GiveBackChunks();
      view, mem := Flushed(view), [];
      currentSize, readOff, writeOff := 0, 0, 0;
    }

    /** Afterwards the ring is closed and holds nothing; the write side stays as it was. */
    method Close()
      requires Valid()
      modifies this, pool
      ensures Valid() && view == Closed(old(view))
      ensures closed && writeClosed == old(writeClosed) && buffers == [] && currentSize == 0
      ensures GivesBack(|old(buffers)|)
    {
      if !closed {
        Cleanup();
        closed := true;
        view := Closed(view);
      }
    }

    method CloseWrite()
      requires Valid()
      modifies this`writeClosed, this`view
      ensures Valid() && view == WriteClosed(old(view))
      ensures writeClosed && view.queue == old(view).queue
    {
      writeClosed := true;
      view := WriteClosed(view);
    }

    method Flush()
      requires Valid()
      modifies this, pool
      ensures Valid() && view == Flushed(old(view))
      ensures buffers == [] && currentSize == 0 && closed == old(closed) && writeClosed == old(writeClosed)
      ensures GivesBack(|old(buffers)| - |buffers|)
    {
      Cleanup();
    }
  }
}
