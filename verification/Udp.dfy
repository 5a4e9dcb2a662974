/**
 The UDP side of a v3 port slot: the first two senders are bound as peers A and B, datagrams
 are relayed between them, and an idle sweep or a reset unbinds them.
 */
module Udp {
  import opened Bytes
  import opened Options

  /** An IP is a byte string, and may be absent. */
  datatype Addr = Addr(ip: Option<seq<Byte>>, port: int, zone: string)

  const V4_IN_V6: seq<Byte> := [0, 0, 0, 0, 0, 0, 0, 0, 0, 0, 255, 255]

  /** `net.IP.Equal`: a 4-byte address equals its 16-byte form. */
  predicate IPEqual(a: seq<Byte>, b: seq<Byte>) {
    if |a| == |b| then a == b
    else if |a| == 4 && |b| == 16 then b[..12] == V4_IN_V6 && a == b[12..]
    else |a| == 16 && |b| == 4 && a[..12] == V4_IN_V6 && b == a[12..]
  }

  predicate AddrEqual(a: Addr, b: Addr) {
    && a.port == b.port && a.zone == b.zone
    && (if a.ip.None? && b.ip.None? then true
        else a.ip.Some? && b.ip.Some? && IPEqual(a.ip.value, b.ip.value))
  }

  /** The copy that is stored: an absent IP becomes an empty one. */
  function Clone(a: Addr): Addr {
    a.(ip := Some(if a.ip.Some? then a.ip.value else []))
  }

  /** One spelling per address: 4-byte IPs are widened. */
  function Canon(a: Addr): Addr {
    if a.ip.Some? && |a.ip.value| == 4 then a.(ip := Some(V4_IN_V6 + a.ip.value)) else a
  }

  /** Address equality is equality of the canonical spellings. */
  lemma EqualIsCanonical(a: Addr, b: Addr)
    ensures AddrEqual(a, b) <==> Canon(a) == Canon(b)
  {
    if a.ip.Some? && b.ip.Some? {
      var x, y := a.ip.value, b.ip.value;
      if |x| == 4 && |y| == 16 {
        assert y == y[..12] + y[12..];
      } else if |x| == 16 && |y| == 4 {
        assert x == x[..12] + x[12..];
      } else if |x| == 4 && |y| == 4 {
        assert (V4_IN_V6 + x)[12..] == x && (V4_IN_V6 + y)[12..] == y;
      }
    }
  }

  /** The 16-byte form of a 4-byte address: ten zeros, two bytes of ones, the address. */
  lemma WideForm(ip: seq<Byte>, port: int, zone: string)
    requires |ip| == 4
    ensures
      var wide := (Canon(Addr(Some(ip), port, zone))).ip.value;
      && |wide| == 16 && (forall i :: 0 <= i < 10 ==> wide[i] == 0) && wide[10] == 255 && wide[11] == 255
      && wide[12..] == ip
  {
  }

  /** The bound peers, with the time each was last heard; zero is the zero time. */
  datatype Binding = Binding(a: Option<Addr>, b: Option<Addr>, lastA: int, lastB: int)

  const UNBOUND := Binding(None, None, 0, 0)

  datatype Event =
    | Receive(from: Addr, data: seq<Byte>, now: int)
    | Sweep(now: int)
    | Reset

  /** A datagram sent on. */
  datatype Datagram = Datagram(to: Addr, data: seq<Byte>)

  predicate Idle(last: int, now: int, timeout: int) {
    last != 0 && now - last > timeout
  }

  /** An empty datagram is dropped before anything else. */
  function Step(s: Binding, e: Event, timeout: int): Binding {
    match e
    case Receive(from, data, now) =>
      if data == [] then s
      else if s.a.None? then s.(a := Some(Clone(from)), lastA := now)
      else if AddrEqual(from, s.a.value) then s.(lastA := now)
      else if s.b.None? then s.(b := Some(Clone(from)), lastB := now)
      else if AddrEqual(from, s.b.value) then s.(lastB := now)
      else s
    case Sweep(now) =>
      if s.a.Some? && s.b.None? then
        if Idle(s.lastA, now, timeout) then s.(a := None, lastA := 0) else s
      else if s.a.Some? && s.b.Some? && Idle(s.lastA, now, timeout) && Idle(s.lastB, now, timeout) then UNBOUND
      else s
    case Reset => UNBOUND
  }

  /** What the datagram loop sends for one event. */
  function Sent(s: Binding, e: Event): seq<Datagram> {
    if !e.Receive? || e.data == [] || s.a.None? || s.b.None? then []
    else if AddrEqual(e.from, s.a.value) then [Datagram(s.b.value, e.data)]
    else if AddrEqual(e.from, s.b.value) then [Datagram(s.a.value, e.data)]
    else []
  }

  ghost predicate UdpRun(run: seq<Binding>, events: seq<Event>, timeout: int) {
    && |run| == |events| + 1 && run[0] == UNBOUND
    && (forall i {:trigger events[i]} :: 0 <= i < |events| ==> run[i + 1] == Step(run[i], events[i], timeout))
  }

  /** B is bound only while A is, and never to the same address. */
  ghost predicate TwoPeers(s: Binding) {
    && (s.b.Some? ==> s.a.Some? && !AddrEqual(s.a.value, s.b.value))
    && (s.a.Some? ==> s.a.value.ip.Some?) && (s.b.Some? ==> s.b.value.ip.Some?)
  }

  /** Every sender has an IP, as the sockets deliver them. */
  ghost predicate SendersHaveIPs(events: seq<Event>) {
    forall e <- events :: e.Receive? ==> e.from.ip.Some?
  }

  /** A sender without an IP whose stored copy is peer A: he does not match A, and becomes B as well. */
  predicate BindsTwice(s: Binding, e: Event) {
    && e.Receive? && e.data != [] && e.from.ip.None?
    && s.a.Some? && s.b.None? && AddrEqual(s.a.value, Clone(e.from))
  }

  /** A step breaks the rule exactly when it binds one sender twice. */
  lemma StepTwoPeers(s: Binding, e: Event, timeout: int)
    requires TwoPeers(s)
    ensures TwoPeers(Step(s, e, timeout)) <==> !BindsTwice(s, e)
  {
    if e.Receive? && s.a.Some? {
      EqualIsCanonical(e.from, s.a.value);
      EqualIsCanonical(s.a.value, e.from);
    }
  }

  lemma {:induction false} RunTwoPeers(run: seq<Binding>, events: seq<Event>, timeout: int, n: nat)
    requires UdpRun(run, events, timeout) && SendersHaveIPs(events) && n <= |events|
    ensures TwoPeers(run[n])
  {
    if n > 0 {
      RunTwoPeers(run, events, timeout, n - 1);
      assert events[n - 1] in events;
      StepTwoPeers(run[n - 1], events[n - 1], timeout);
    }
  }

  /** Why senders need an IP: without one the stored copy differs from the sender, who is then bound twice. */
  lemma MissingIPBindsTwice(port: int, zone: string, data: seq<Byte>, timeout: int)
    requires data != []
    ensures
      var e := Receive(Addr(None, port, zone), data, 1);
      var s := Step(Step(UNBOUND, e, timeout), e, timeout);
      s.b.Some? && AddrEqual(s.a.value, s.b.value)
  {
  }

  /** The data received from `peer` in events `i` to `j`, without the empty datagrams. */
  ghost function From(events: seq<Event>, peer: Addr, i: nat, j: nat): seq<seq<Byte>>
    requires i <= j <= |events|
    decreases j
  {
    if i == j then []
    else
      From(events, peer, i, j - 1)
      + (if events[j - 1].Receive? && events[j - 1].data != [] && AddrEqual(events[j - 1].from, peer) then
           [events[j - 1].data] else [])
  }

  /** The data sent to `peer` during events `i` to `j`. */
  ghost function SentTo(run: seq<Binding>, events: seq<Event>, peer: Addr, i: nat, j: nat): seq<seq<Byte>>
    requires i <= j <= |events| < |run|
    decreases j
  {
    if i == j then []
    else
      var sent := Sent(run[j - 1], events[j - 1]);
      SentTo(run, events, peer, i, j - 1) + (if |sent| == 1 && sent[0].to == peer then [sent[0].data] else [])
  }

  /** From event `i` to event `j` the two peers stay bound. */
  ghost predicate Bound(run: seq<Binding>, i: nat, j: nat, a: Addr, b: Addr)
    requires i <= j < |run|
  {
    forall k :: i <= k <= j ==> run[k].a == Some(a) && run[k].b == Some(b)
  }

  /**
   While two peers are bound, each is sent exactly the datagrams that came from the other
   since and were not empty, in order.
   */
  lemma {:induction false} RelaysExactly(
    run: seq<Binding>, events: seq<Event>, timeout: int, i: nat, j: nat, a: Addr, b: Addr)
    requires UdpRun(run, events, timeout) && SendersHaveIPs(events)
    requires i <= j <= |events| && Bound(run, i, j, a, b)
    ensures SentTo(run, events, b, i, j) == From(events, a, i, j)
    ensures SentTo(run, events, a, i, j) == From(events, b, i, j)
    decreases j
  {
    if i < j {
      RelaysExactly(run, events, timeout, i, j - 1, a, b);
      RunTwoPeers(run, events, timeout, j - 1);
      EqualIsCanonical(a, b);
      if events[j - 1].Receive? {
        EqualIsCanonical(events[j - 1].from, a);
        EqualIsCanonical(events[j - 1].from, b);
      }
      assert run[j - 1].a == Some(a) && run[j - 1].b == Some(b);
    }
  }

  /** A datagram is sent only between the two bound peers. */
  lemma OnlyBetweenPeers(run: seq<Binding>, events: seq<Event>, timeout: int, n: nat, d: Datagram)
    requires UdpRun(run, events, timeout) && SendersHaveIPs(events) && n < |events|
    requires d in Sent(run[n], events[n])
    ensures
      var s, e := run[n], events[n];
      && s.a.Some? && s.b.Some? && e.Receive? && d.data == e.data != []
      && ((AddrEqual(e.from, s.a.value) && d.to == s.b.value) || (AddrEqual(e.from, s.b.value) && d.to == s.a.value))
      && !AddrEqual(e.from, d.to)
  {
    RunTwoPeers(run, events, timeout, n);
    var s, e := run[n], events[n];
    EqualIsCanonical(e.from, s.a.value);
    EqualIsCanonical(e.from, s.b.value);
    EqualIsCanonical(s.a.value, s.b.value);
  }

  /** The binding fields of the slot, changed in place by the datagram loop and the sweep. */
  class Peers {
    var udpA: Option<Addr>
    var udpB: Option<Addr>
    var udpLastA: int
    var udpLastB: int

    ghost function View(): Binding
      reads this
    {
      Binding(udpA, udpB, udpLastA, udpLastB)
    }

    constructor ()
      ensures View() == UNBOUND
    {
      udpA, udpB, udpLastA, udpLastB := None, None, 0, 0;
    }

    /** One datagram: it is dropped, or binds its sender, or goes to the returned address. */
    method Receive(from: Addr, data: seq<Byte>, now: int) returns (dst: Option<Addr>)
      modifies this
      ensures forall timeout :: View() == Step(old(View()), Event.Receive(from, data, now), timeout)
      ensures Sent(old(View()), Event.Receive(from, data, now)) ==
              if dst.Some? then [Datagram(dst.value, data)] else []
      ensures data == [] ==> View() == old(View()) && dst == None
      ensures data != [] && old(udpA).None? ==>
                && udpA.Some? && udpA.value.ip.Some? && (from.ip.Some? ==> udpA.value == from)
                && udpLastA == now && udpB == old(udpB) && udpLastB == old(udpLastB) && dst == None
      ensures data != [] && old(udpA).Some? ==> udpA == old(udpA)
      ensures data != [] && old(udpA).Some? && AddrEqual(from, old(udpA).value) ==>
                udpLastA == now && udpB == old(udpB) && udpLastB == old(udpLastB) && dst == old(udpB)
      ensures data != [] && old(udpA).Some? && !AddrEqual(from, old(udpA).value) ==> udpLastA == old(udpLastA)
      ensures data != [] && old(udpA).Some? && !AddrEqual(from, old(udpA).value) && old(udpB).None? ==>
                udpB.Some? && (from.ip.Some? ==> udpB.value == from) && udpLastB == now && dst == None
      ensures data != [] && old(udpA).Some? && !AddrEqual(from, old(udpA).value) && old(udpB).Some? ==>
                if AddrEqual(from, old(udpB).value) then udpB == old(udpB) && udpLastB == now && dst == old(udpA)
                else View() == old(View()) && dst == None
    {
      dst := None;
      if |data| == 0 {
        return;
      }
      if udpA.None? {
        udpA, udpLastA := Some(Clone(from)), now;
      } else if AddrEqual(from, udpA.value) {
        udpLastA := now;
        dst := udpB;
      } else if udpB.None? {
        udpB, udpLastB := Some(Clone(from)), now;
      } else if AddrEqual(from, udpB.value) {
        udpLastB := now;
        dst := udpA;
      }
    }

    method Reset()
      modifies this
      ensures forall timeout :: View() == Step(old(View()), Event.Reset, timeout)
      ensures udpA == None && udpB == None && udpLastA == 0 && udpLastB == 0
    {
      udpA, udpB, udpLastA, udpLastB := None, None, 0, 0;
    }

    method SweepIdle(now: int, timeout: int)
      modifies this
      ensures View() == Step(old(View()), Event.Sweep(now), timeout)
      ensures
        var idleA := old(udpLastA) != 0 && now - old(udpLastA) > timeout;
        var idleB := old(udpLastB) != 0 && now - old(udpLastB) > timeout;
        && (old(udpA).Some? && old(udpB).None? && idleA ==> udpA == None && udpLastA == 0 && udpB == None)
        && (old(udpA).Some? && old(udpB).Some? && idleA && idleB ==> View() == Binding(None, None, 0, 0))
        && (old(udpA).None? || !idleA || (old(udpB).Some? && !idleB) ==> View() == old(View()))
    {
      if udpA.Some? && udpB.None? {
        if udpLastA != 0 && now - udpLastA > timeout {
          udpA, udpLastA := None, 0;
        }
      } else if udpA.Some? && udpB.Some? {
        var aIdle := udpLastA != 0 && now - udpLastA > timeout;
        var bIdle := udpLastB != 0 && now - udpLastB > timeout;
        if aIdle && bIdle {
          udpA, udpB, udpLastA, udpLastB := None, None, 0, 0;
        }
      }
    }
  }
}
