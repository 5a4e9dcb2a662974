/**
 The condition variable of a ring. A lock section either ends or puts its goroutine to sleep,
 and some sections wake every sleeper. No wake-up is lost: whoever sleeps has to wait.
 */
module RingWaits {
  import opened Bytes
  import opened Options
  import opened RingModel
  import RingRuns

  /** What a sleeping goroutine goes on with when it is woken. */
  datatype Sleeper = Writer(rest: seq<Byte>) | Reader(want: nat)

  /** The goroutine would go back to sleep. */
  predicate MustWait(r: Ring, s: Sleeper)
    requires Shaped(r)
  {
    match s
    case Writer(rest) => WritePass(r, rest).end.WriterWaits?
    case Reader(want) => ReadSection(r, want).end.ReaderWaits?
  }

  /** The ring after one lock section. */
  function Section(r: Ring, e: RingRuns.Event): (s: Ring)
    requires Shaped(r)
    ensures Shaped(s)
  {
    RingRuns.Step(RingRuns.History(r, [], []), e).ring
  }

  /** Whether the section calls `Broadcast`. */
  predicate Broadcasts(r: Ring, e: RingRuns.Event)
    requires Shaped(r)
  {
    match e
    case Pass(rest) => WritePass(r, rest).end.Moved?
    case Read(want) => ReadSection(r, want).end.Got?
    case HalfClose => true
    case Flush => true
    case Close => !r.closed
  }

  /** The sleeper the section leaves behind, if it ends in a wait. */
  function Falls(r: Ring, e: RingRuns.Event): Option<Sleeper>
    requires Shaped(r)
  {
    match e
    case Pass(rest) => if WritePass(r, rest).end.WriterWaits? then Some(Writer(rest)) else None
    case Read(want) => if ReadSection(r, want).end.ReaderWaits? then Some(Reader(want)) else None
    case _ => None
  }

  /** The ring and the goroutines asleep on it, by number. */
  datatype State = State(ring: Ring, asleep: map<nat, Sleeper>)

  /** Goroutine `g`, unless it is asleep, runs a lock section. */
  datatype Turn = Turn(g: nat, section: RingRuns.Event)

  function Next(st: State, t: Turn): (st': State)
    requires Shaped(st.ring)
    ensures Shaped(st'.ring)
  {
    if t.g in st.asleep then st
    else
      var still := if Broadcasts(st.ring, t.section) then map[] else st.asleep;
      var falls := Falls(st.ring, t.section);
      State(Section(st.ring, t.section), if falls.Some? then still[t.g := falls.value] else still)
  }

  /** A section that changes whether some sleeper must wait wakes it; a section that waits leaves the ring alone. */
  lemma WakesWhenItMatters(r: Ring, e: RingRuns.Event, s: Sleeper)
    requires Shaped(r) && MustWait(r, s)
    ensures MustWait(Section(r, e), s) || Broadcasts(r, e)
  {
  }

  lemma WaitingIsNoProgress(r: Ring, e: RingRuns.Event)
    requires Shaped(r) && Falls(r, e).Some?
    ensures Section(r, e) == r && MustWait(r, Falls(r, e).value)
  {
  }

  /**
   A goroutine falls asleep exactly if it has bytes left to write and the ring is open and full,
   or wants to read and the ring is open, not half-closed and empty; it sleeps as what it was.
   The others stay asleep exactly unless the section broadcasts.
   */
  lemma FallsAsleepExactly(st: State, t: Turn)
    requires Shaped(st.ring) && t.g !in st.asleep
    ensures
      var r, st' := st.ring, Next(st, t);
      && (t.g in st'.asleep <==>
            || (t.section.Pass? && t.section.rest != [] && !r.closed && !r.writeClosed && |r.queue| >= r.maxSize)
            || (t.section.Read? && !r.closed && !r.writeClosed && r.queue == []))
      && (t.g in st'.asleep ==>
            st'.asleep[t.g] == if t.section.Pass? then Writer(t.section.rest) else Reader(t.section.want))
      && (forall g <- st.asleep :: g in st'.asleep <==> !Broadcasts(r, t.section))
  {
  }

  ghost predicate WaitRun(maxSize: int, run: seq<State>, turns: seq<Turn>) {
    && |run| == |turns| + 1 && run[0] == State(Empty(maxSize), map[])
    && (forall i :: 0 <= i < |run| ==> Shaped(run[i].ring))
    && (forall i {:trigger turns[i]} :: 0 <= i < |turns| ==> run[i + 1] == Next(run[i], turns[i]))
  }

  /** Whoever sleeps has to wait. */
  ghost predicate Rightly(st: State)
    requires Shaped(st.ring)
  {
    forall g <- st.asleep :: MustWait(st.ring, st.asleep[g])
  }

  lemma NextRightly(st: State, t: Turn)
    requires Shaped(st.ring) && Rightly(st)
    ensures Rightly(Next(st, t))
  {
    if t.g !in st.asleep {
      forall g | g in Next(st, t).asleep ensures MustWait(Next(st, t).ring, Next(st, t).asleep[g]) {
        if Falls(st.ring, t.section).Some? {
          WaitingIsNoProgress(st.ring, t.section);
        }
        if g in st.asleep {
          WakesWhenItMatters(st.ring, t.section, st.asleep[g]);
        }
      }
    }
  }

  /**
   No wake-up is lost: in every run, a goroutine that is asleep would have to wait again, that
   is, the ring is open and full for a writer, open, not half-closed and empty for a reader.
   */
  lemma {:induction false} NoLostWakeUp(maxSize: int, run: seq<State>, turns: seq<Turn>, n: nat, g: nat)
    requires WaitRun(maxSize, run, turns) && n <= |turns|
    ensures Rightly(run[n])
    ensures g in run[n].asleep && run[n].asleep[g].Writer? ==>
              |run[n].ring.queue| >= run[n].ring.maxSize && !run[n].ring.closed && !run[n].ring.writeClosed
    ensures g in run[n].asleep && run[n].asleep[g].Reader? ==>
              run[n].ring.queue == [] && !run[n].ring.closed && !run[n].ring.writeClosed
  {
    if n > 0 {
      NoLostWakeUp(maxSize, run, turns, n - 1, g);
      NextRightly(run[n - 1], turns[n - 1]);
      assert run[n] == Next(run[n - 1], turns[n - 1]);
    }
    if g in run[n].asleep {
      assert MustWait(run[n].ring, run[n].asleep[g]);
    }
  }

  lemma {:induction false} RunLimit(maxSize: int, run: seq<State>, turns: seq<Turn>, n: nat)
    requires WaitRun(maxSize, run, turns) && n <= |turns|
    ensures run[n].ring.maxSize == maxSize
  {
    if n > 0 {
      RunLimit(maxSize, run, turns, n - 1);
      SectionLimit(run[n - 1].ring, turns[n - 1].section);
      assert run[n] == Next(run[n - 1], turns[n - 1]);
    }
  }

  lemma SectionLimit(r: Ring, e: RingRuns.Event)
    requires Shaped(r)
    ensures Section(r, e).maxSize == r.maxSize
  {
  }

  /** With room for a byte, a writer and a reader are never asleep together: one of them can go on. */
  lemma NoDeadlock(maxSize: int, run: seq<State>, turns: seq<Turn>, n: nat, g: nat, h: nat)
    requires WaitRun(maxSize, run, turns) && n <= |turns| && maxSize > 0
    requires g in run[n].asleep && h in run[n].asleep
    ensures run[n].asleep[g].Writer? <==> run[n].asleep[h].Writer?
  {
    NoLostWakeUp(maxSize, run, turns, n, g);
    NoLostWakeUp(maxSize, run, turns, n, h);
    RunLimit(maxSize, run, turns, n);
  }
}
