/**
 The TCP side of a v3 port slot. One accept loop per port takes connections through two lock
 sections (decide the role, then park or pair); sessions end through `Stop` and then their
 `onStop`; `ResetPort` and the probing of pending connections come in between.
 */
module Slot {

  import opened Options

  datatype Role = BE | FE

  type Conn = nat

  /** A session is an object; `id` stands for its identity. */
  datatype Session = Session(id: nat, fe: Conn, be: Conn)

  datatype Slot = Slot(
    busy: bool, session: Option<Session>, pendingBE: Option<Conn>, pendingFE: Option<Conn>)

  const FREE := Slot(false, None, None, None)

  /* The lock sections. */

  /** The first section of the accept loop: refuse on a busy port, else settle the role. */
  function Decide(s: Slot, hello: Option<Role>): Option<Role> {
    if s.busy then None
    else if hello.Some? then hello
    else if s.pendingBE.None? then Some(BE)
    else if s.pendingFE.None? then Some(FE)
    else Some(BE)
  }

  /** The session the second section starts with this connection, if it starts one. */
  function Matched(s: Slot, c: Conn, role: Role, id: nat): Option<Session> {
    match role
    case BE =>
      if s.pendingBE.None? && s.pendingFE.Some? then Some(Session(id, s.pendingFE.value, c)) else None
    case FE =>
      if s.pendingFE.None? && s.pendingBE.Some? then Some(Session(id, c, s.pendingBE.value)) else None
  }

  /** Whether the second section turns the connection away. */
  predicate Refuses(s: Slot, role: Role) {
    if role.BE? then s.pendingBE.Some? else s.pendingFE.Some?
  }

  /** The second section: pair with the other end, or park. It does not look at `busy` again. */
  function Route(s: Slot, c: Conn, role: Role, id: nat): Slot {
    if Refuses(s, role) then s
    else
      match Matched(s, c, role, id)
      case Some(sess) =>
        var s' := if role.BE? then s.(pendingFE := None) else s.(pendingBE := None);
        s'.(busy := true, session := Some(sess))
      case None => if role.BE? then s.(pendingBE := Some(c)) else s.(pendingFE := Some(c))
  }

  /** `onStop` of a session; `kept` says that its `Stop` spared the BE connection. */
  function Ended(s: Slot, sess: Session, kept: bool): Slot {
    if s.session != Some(sess) then s
    else
      s.(busy := false, session := None,
         pendingBE := if kept && s.pendingBE.None? then Some(sess.be) else s.pendingBE)
  }

  /* The slot and everything that works on it. */

  /** Where the accept loop stands. */
  datatype Loop = Listening | Routing(conn: Conn, role: Role)

  datatype World = World(
    slot: Slot,
    loop: Loop,
    started: set<Session>,
    stopped: map<Session, bool>,    // `Stop` has run: did it keep the BE connection?
    finished: set<Session>,         // `onStop` has run
    closed: set<Conn>,
    seen: set<Conn>,
    next: nat)

  datatype Event =
    | Accept(conn: Conn, hello: Option<Role>)
    | Continue
    | Stop(session: Session, keep: bool)
    | OnStop(session: Session)
    | Reset(keep: bool)
    | Reap(role: Role)

  const START := World(FREE, Listening, {}, map[], {}, {}, {}, 0)

  /** `Stop` of a session, once: it closes FE, and BE unless the recorded cause says to keep it. */
  function StopSession(w: World, s: Session, keep: bool): World {
    if s !in w.started || s in w.stopped then w
    else w.(stopped := w.stopped[s := keep], closed := w.closed + {s.fe} + (if keep then {} else {s.be}))
  }

  function Opt(c: Option<Conn>): set<Conn> {
    if c.Some? then {c.value} else {}
  }

  function Step(w: World, e: Event): World {
    match e
    case Accept(c, hello) =>
      if w.loop != Listening || c in w.seen then w
      else
        (match Decide(w.slot, hello)
         case None => w.(seen := w.seen + {c}, closed := w.closed + {c})
         case Some(role) => w.(seen := w.seen + {c}, loop := Routing(c, role)))
    case Continue =>
      if w.loop == Listening then w
      else
        var c, role := w.loop.conn, w.loop.role;
        if Refuses(w.slot, role) then w.(loop := Listening, closed := w.closed + {c})
        else
          var m := Matched(w.slot, c, role, w.next);
          w.(loop := Listening, slot := Route(w.slot, c, role, w.next),
             started := w.started + (if m.Some? then {m.value} else {}),
             next := if m.Some? then w.next + 1 else w.next)
    case Stop(s, keep) => StopSession(w, s, keep)
    case OnStop(s) =>
      if s !in w.stopped || s in w.finished then w
      else w.(finished := w.finished + {s}, slot := Ended(w.slot, s, w.stopped[s]))
    case Reset(keep) =>
      var w' := if w.slot.session.Some? then StopSession(w, w.slot.session.value, keep) else w;
      w'.(slot := FREE, closed := w'.closed + Opt(w.slot.pendingBE) + Opt(w.slot.pendingFE))
    case Reap(role) =>
      if role.BE? then
        w.(slot := w.slot.(pendingBE := None), closed := w.closed + Opt(w.slot.pendingBE))
      else
        w.(slot := w.slot.(pendingFE := None), closed := w.closed + Opt(w.slot.pendingFE))
  }

  ghost predicate SlotRun(run: seq<World>, events: seq<Event>) {
    && |run| == |events| + 1 && run[0] == START
    && (forall i {:trigger events[i]} :: 0 <= i < |events| ==> run[i + 1] == Step(run[i], events[i]))
  }

  /** Busy means a session, a session means nothing pending, and the two ends never wait side by side. */
  ghost predicate Agrees(w: World) {
    && (w.slot.busy <==> w.slot.session.Some?)
    && (w.slot.busy ==> w.slot.pendingBE.None? && w.slot.pendingFE.None? && w.loop == Listening)
    && (w.slot.pendingBE.None? || w.slot.pendingFE.None?)
  }

  /** The connections somebody is looking after. */
  function Held(w: World): set<Conn> {
    Opt(w.slot.pendingBE) + Opt(w.slot.pendingFE)
    + (if w.loop.Routing? then {w.loop.conn} else {})
    + (if w.slot.session.Some? then {w.slot.session.value.fe, w.slot.session.value.be} else {})
  }

  /** Sessions have their own identity; only the slot's session can be unstopped, and it has not ended. */
  ghost predicate Sessions(w: World) {
    && (forall s <- w.started :: s.id < w.next && (s in w.stopped || w.slot.session == Some(s)))
    && (forall s <- w.stopped :: s in w.started)
    && (forall s <- w.finished :: s in w.stopped)
    && (forall s <- w.stopped :: s.fe in w.closed && (w.stopped[s] || s.be in w.closed))
    && (w.slot.session.Some? ==>
          var s := w.slot.session.value;
          s in w.started && s !in w.finished && s.fe != s.be)
  }

  /** Pending and routed connections are open and distinct; a session's BE is open until a `Stop` closes it. */
  ghost predicate Open(w: World) {
    && Held(w) <= w.seen && w.closed <= w.seen
    && Opt(w.slot.pendingBE) !! w.closed && Opt(w.slot.pendingFE) !! w.closed
    && (w.loop.Routing? ==>
          w.loop.conn !in w.closed && w.loop.conn !in Opt(w.slot.pendingBE) + Opt(w.slot.pendingFE))
    && (w.slot.session.Some? ==>
          var s := w.slot.session.value;
          && (s !in w.stopped ==> s.fe !in w.closed && s.be !in w.closed)
          && (s in w.stopped && w.stopped[s] ==> s.be !in w.closed))
  }

  ghost predicate Inv(w: World) {
    Agrees(w) && Sessions(w) && Open(w)
  }

  lemma StepAgrees(w: World, e: Event)
    requires Agrees(w)
    ensures Agrees(Step(w, e))
  {
  }

  lemma ContinueSessions(w: World)
    requires Inv(w)
    ensures Sessions(Step(w, Continue))
  {
  }

  lemma StopSessions(w: World, s: Session, keep: bool)
    requires Sessions(w)
    ensures Sessions(StopSession(w, s, keep))
  {
  }

  lemma StepSessions(w: World, e: Event)
    requires Inv(w)
    ensures Sessions(Step(w, e))
  {
    match e
    case Continue => ContinueSessions(w);
    case Stop(s, keep) => StopSessions(w, s, keep);
    case Reset(keep) =>
      if w.slot.session.Some? {
        StopSessions(w, w.slot.session.value, keep);
      }
    case Accept(_, _) | OnStop(_) | Reap(_) =>
  }

  lemma StepOpen(w: World, e: Event)
    requires Inv(w)
    ensures Open(Step(w, e))
  {
  }

  lemma {:induction false} RunInv(run: seq<World>, events: seq<Event>, n: nat)
    requires SlotRun(run, events) && n <= |events|
    ensures Inv(run[n])
  {
    if n > 0 {
      RunInv(run, events, n - 1);
      StepAgrees(run[n - 1], events[n - 1]);
      StepSessions(run[n - 1], events[n - 1]);
      StepOpen(run[n - 1], events[n - 1]);
    }
  }

  /**
   In every reachable state the slot is busy exactly when it has a session, then nothing is
   pending, and the two ends never wait side by side, so the third branch of the role
   inference is never taken.
   */
  lemma SlotAgrees(run: seq<World>, events: seq<Event>, n: nat)
    requires SlotRun(run, events) && n <= |events|
    ensures
      var s := run[n].slot;
      && (s.busy <==> s.session.Some?)
      && (s.busy ==> s.pendingBE.None? && s.pendingFE.None?)
      && !(s.pendingBE.Some? && s.pendingFE.Some?)
  {
    RunInv(run, events, n);
  }

  /** A session that is not the slot's never becomes it again, and its `onStop` leaves the slot alone. */
  lemma {:induction false} StaleStaysStale(run: seq<World>, events: seq<Event>, i: nat, j: nat, s: Session)
    requires SlotRun(run, events) && i <= j <= |events|
    requires s in run[i].started && run[i].slot.session != Some(s)
    ensures s in run[j].started && run[j].slot.session != Some(s)
    ensures Step(run[j], OnStop(s)).slot == run[j].slot
  {
    if i < j {
      StaleStaysStale(run, events, i, j - 1, s);
      RunInv(run, events, j - 1);
      assert run[j] == Step(run[j - 1], events[j - 1]);
    }
  }

  /** A pending connection, the re-parked BE of an ended session included, has not been closed by the server. */
  lemma PendingIsOpen(run: seq<World>, events: seq<Event>, n: nat, c: Conn)
    requires SlotRun(run, events) && n <= |events|
    requires run[n].slot.pendingBE == Some(c) || run[n].slot.pendingFE == Some(c)
    ensures c !in run[n].closed
  {
    RunInv(run, events, n);
    assert c in Opt(run[n].slot.pendingBE) + Opt(run[n].slot.pendingFE);
  }

  /** When a session ends whose `Stop` kept the BE connection, that connection is pending again. */
  lemma KeptBEIsReparked(run: seq<World>, events: seq<Event>, n: nat, s: Session)
    requires SlotRun(run, events) && n <= |events|
    requires run[n].slot.session == Some(s) && s in run[n].stopped
    ensures
      var w := Step(run[n], OnStop(s));
      && w.slot == FREE.(pendingBE := if run[n].stopped[s] then Some(s.be) else None)
      && (run[n].stopped[s] ==> s.be !in w.closed)
  {
    RunInv(run, events, n);
  }

  /** What closes connections: a refusal, `Stop` (BE only if it is not kept), a reset, and a failed probe, of one end. */
  lemma ClosesExactly(w: World, e: Event)
    ensures
      Step(w, e).closed == w.closed +
      (match e
       case Accept(c, _) => if w.loop == Listening && c !in w.seen && w.slot.busy then {c} else {}
       case Continue =>
         if w.loop.Routing? && (if w.loop.role.BE? then w.slot.pendingBE.Some? else w.slot.pendingFE.Some?)
         then {w.loop.conn} else {}
       case Stop(s, keep) =>
         if s in w.started && s !in w.stopped then (if keep then {s.fe} else {s.fe, s.be}) else {}
       case OnStop(_) => {}
       case Reset(keep) =>
         Opt(w.slot.pendingBE) + Opt(w.slot.pendingFE)
         + (if w.slot.session.Some? && w.slot.session.value in w.started && w.slot.session.value !in w.stopped then
              if keep then {w.slot.session.value.fe} else {w.slot.session.value.fe, w.slot.session.value.be}
            else {})
       case Reap(role) => if role.BE? then Opt(w.slot.pendingBE) else Opt(w.slot.pendingFE))
    ensures e.Reap? ==>
      Step(w, e).slot == if e.role.BE? then w.slot.(pendingBE := None) else w.slot.(pendingFE := None)
  {
  }

  /** Every connection the server has accepted is closed or looked after. */
  ghost predicate NothingLost(w: World) {
    w.seen <= w.closed + Held(w)
  }

  /** A reset that meets a session whose `Stop` keeps the BE connection. */
  predicate ResetsKept(w: World, e: Event) {
    && e.Reset? && w.slot.session.Some?
    && var s := w.slot.session.value;
       if s in w.stopped then w.stopped[s] else e.keep
  }

  /**
   A step loses a connection exactly when it is such a reset: the BE connection is then
   neither closed nor parked, and the session's `onStop` finds the slot no longer its own.
   */
  lemma LosesExactlyOnReset(run: seq<World>, events: seq<Event>, n: nat, e: Event)
    requires SlotRun(run, events) && n <= |events| && NothingLost(run[n])
    ensures NothingLost(Step(run[n], e)) <==> !ResetsKept(run[n], e)
  {
    RunInv(run, events, n);
    var w := run[n];
    if ResetsKept(w, e) {
      assert w.slot.session.value.be in w.seen;
    }
  }

  lemma {:induction false} RunLosesNothing(run: seq<World>, events: seq<Event>, n: nat)
    requires SlotRun(run, events) && n <= |events|
    requires forall i :: 0 <= i < n ==> !ResetsKept(run[i], events[i])
    ensures NothingLost(run[n])
  {
    if n > 0 {
      RunLosesNothing(run, events, n - 1);
      LosesExactlyOnReset(run, events, n - 1, events[n - 1]);
    }
  }

  /** Such a run exists: the BE connection `b` ends up neither closed nor looked after. */
  lemma ResetCanLoseBE(b: Conn, f: Conn) returns (run: seq<World>, events: seq<Event>)
    requires b != f
    ensures SlotRun(run, events)
    ensures
      var w := run[|events|];
      b in w.seen && b !in w.closed && b !in Held(w) && Step(w, OnStop(Session(0, f, b))).slot == w.slot
  {
    var s := Session(0, f, b);
    var w1 := Step(START, Accept(b, Some(BE)));
    var w2 := Step(w1, Continue);
    assert w2 == START.(slot := FREE.(pendingBE := Some(b)), seen := {b});
    var w3 := Step(w2, Accept(f, Some(FE)));
    var w4 := Step(w3, Continue);
    assert w4 == START.(slot := Slot(true, Some(s), None, None), seen := {b, f}, started := {s}, next := 1);
    var w5 := Step(w4, Stop(s, true));
    var w6 := Step(w5, Reset(false));
    events := [Accept(b, Some(BE)), Continue, Accept(f, Some(FE)), Continue, Stop(s, true), Reset(false)];
    run := [START, w1, w2, w3, w4, w5, w6];
  }

  /** The slot object. Each method is one lock section, proved against the functions above. */
  class PortSlot {
    var tcpBusy: bool
    var tcpSession: Option<Session>
    var pendingBE: Option<Conn>
    var pendingFE: Option<Conn>

    ghost function View(): Slot
      reads this
    {
      Slot(tcpBusy, tcpSession, pendingBE, pendingFE)
    }

    /** What every section keeps, as `Agrees` says. */
    ghost predicate Valid()
      reads this
    {
      Agrees(START.(slot := View()))
    }

    constructor ()
      ensures Valid() && View() == FREE
    {
      tcpBusy, tcpSession, pendingBE, pendingFE := false, None, None, None;
    }

    method DecideRole(hello: Option<Role>) returns (role: Option<Role>)
      requires Valid()
      ensures role == Decide(View(), hello)
      ensures tcpBusy ==> role == None
      ensures !tcpBusy && hello.Some? ==> role == hello
      ensures !tcpBusy && hello.None? ==> role == Some(if pendingBE.None? then BE else FE)
    {
      if tcpBusy {
        return None;
      }
      if hello.Some? {
        return hello;
      }
      return Some(if pendingBE.None? then BE else if pendingFE.None? then FE else BE);
    }

    /** Returns the new session, if the connection found its other end; `closed` if it was turned away. */
    method RouteConn(c: Conn, role: Role, id: nat) returns (sess: Option<Session>, closed: bool)
      requires Valid() && !tcpBusy
      modifies this
      ensures Valid() && View() == Route(old(View()), c, role, id)
      ensures closed <==> Refuses(old(View()), role)
      ensures sess == Matched(old(View()), c, role, id)
      ensures (role.BE? && old(pendingBE).Some?) || (role.FE? && old(pendingFE).Some?) ==>
                closed && sess == None && View() == old(View())
      ensures role.BE? && old(pendingBE).None? && old(pendingFE).None? ==>
                !closed && sess == None && !tcpBusy && tcpSession == None && pendingBE == Some(c) && pendingFE == None
      ensures role.FE? && old(pendingFE).None? && old(pendingBE).None? ==>
                !closed && sess == None && !tcpBusy && tcpSession == None && pendingFE == Some(c) && pendingBE == None
      ensures role.BE? && old(pendingBE).None? && old(pendingFE).Some? ==>
                && !closed && sess == Some(Session(id, old(pendingFE).value, c))
                && tcpBusy && tcpSession == sess && pendingBE == None && pendingFE == None
      ensures role.FE? && old(pendingFE).None? && old(pendingBE).Some? ==>
                && !closed && sess == Some(Session(id, c, old(pendingBE).value))
                && tcpBusy && tcpSession == sess && pendingBE == None && pendingFE == None
    {
      match role
      case BE =>
        if pendingBE.Some? {
          return None, true;
        }
        if pendingFE.None? {
          pendingBE := Some(c);
          return None, false;
        }
        sess := Some(Session(id, pendingFE.value, c));
        pendingFE := None;
        tcpSession, tcpBusy := sess, true;
        return sess, false;
      case FE =>
        if pendingFE.Some? {
          return None, true;
        }
        if pendingBE.None? {
          pendingFE := Some(c);
          return None, false;
        }
        sess := Some(Session(id, c, pendingBE.value));
        pendingBE := None;
        tcpSession, tcpBusy := sess, true;
        return sess, false;
    }

    method SessionEnded(s: Session, kept: bool)
      requires Valid()
      modifies this
      ensures Valid() && View() == Ended(old(View()), s, kept)
      ensures old(tcpSession) != Some(s) ==> View() == old(View())
      ensures old(tcpSession) == Some(s) ==>
                && !tcpBusy && tcpSession == None && pendingFE == None
                && pendingBE == (if kept then Some(s.be) else None)
    {
      if tcpSession == Some(s) {
        tcpSession, tcpBusy := None, false;
        if kept && pendingBE.None? {
          pendingBE := Some(s.be);
        }
      }
    }

    /** Forgets the session and the pending ends; they are returned so that they can be stopped and closed. */
    method ResetPort() returns (sess: Option<Session>, be: Option<Conn>, fe: Option<Conn>)
      requires Valid()
      modifies this
      ensures Valid() && View() == FREE
      ensures !tcpBusy && tcpSession == None && pendingBE == None && pendingFE == None
      ensures sess == old(tcpSession) && be == old(pendingBE) && fe == old(pendingFE)
    {
      sess, be, fe := tcpSession, pendingBE, pendingFE;
      tcpSession, tcpBusy := None, false;
      pendingBE, pendingFE := None, None;
    }
  }
}
