/**
 How a pipe session ends: the first recorded cause decides whether the BE connection
 survives, and `Stop` acts once.
 */
module SessionEnd {
  import opened Options

  /** An error, by what the code asks of it. */
  datatype Failure = Failure(isEOF: bool, isClosed: bool, message: string)

  datatype Cause = Cause(dir: string, op: string, err: Option<Failure>)

  /**
   `strings.ToLower`, as far as a comparison with ASCII text can tell: besides the ASCII
   capitals, only the Kelvin sign and the dotted capital I have lower cases in ASCII.
   */
  function LowerChar(c: char): char {
    if 'A' <= c <= 'Z' then c + 32 as char
    else if c == '\U{212A}' then 'k'
    else if c == '\U{0130}' then 'i'
    else c
  }

  function ToLower(s: string): string {
    seq(|s|, i requires 0 <= i < |s| => LowerChar(s[i]))
  }

  predicate Contains(s: string, part: string) {
    exists i {:trigger s[i..]} :: 0 <= i <= |s| && part <= s[i..]
  }

  /** The FE side went away: end of input, a closed connection, or one of three messages. */
  predicate FEClosed(f: Failure) {
    var message := ToLower(f.message);
    || f.isEOF || f.isClosed
    || Contains(message, "broken pipe")
    || Contains(message, "connection reset by peer")
    || Contains(message, "use of closed network connection")
  }

  /** Reading from FE or writing to FE failed because FE went away. */
  predicate FELeft(c: Cause) {
    && ((c.dir == "FE->BE" && c.op == "read") || (c.dir == "BE->FE" && c.op == "write"))
    && c.err.Some? && FEClosed(c.err.value)
  }

  /* The decision in terms of the error, whatever case its message is written in. */

  /** `c` is `d`, in either case. */
  predicate SameLetter(c: char, d: char) {
    || c == d
    || ('a' <= d <= 'z' && c == d - 32 as char)
    || (d == 'k' && c == '\U{212A}') || (d == 'i' && c == '\U{0130}')
  }

  predicate SaysAt(message: string, text: string, i: nat) {
    i + |text| <= |message| && forall k :: 0 <= k < |text| ==> SameLetter(message[i + k], text[k])
  }

  /** The text stands somewhere in the message, in any case. */
  predicate Says(message: string, text: string) {
    exists i: nat | i <= |message| :: SaysAt(message, text, i)
  }

  /** No capital letters. */
  predicate Small(text: string) {
    forall k :: 0 <= k < |text| ==> text[k] == ' ' || 'a' <= text[k] <= 'z'
  }

  lemma LowerAt(message: string, text: string, i: nat)
    requires Small(text) && i <= |message|
    ensures text <= ToLower(message)[i..] <==> SaysAt(message, text, i)
  {
    var rest := ToLower(message)[i..];
    if text <= rest {
      forall k | 0 <= k < |text| ensures SameLetter(message[i + k], text[k]) {
        assert rest[k] == LowerChar(message[i + k]) == text[k];
      }
    }
    if SaysAt(message, text, i) {
      forall k | 0 <= k < |text| ensures rest[k] == text[k] {
        assert SameLetter(message[i + k], text[k]);
      }
    }
  }

  lemma LowerContains(message: string, text: string)
    requires Small(text)
    ensures Contains(ToLower(message), text) <==> Says(message, text)
  {
    var lower := ToLower(message);
    if Contains(lower, text) {
      var i :| 0 <= i <= |lower| && text <= lower[i..];
      LowerAt(message, text, i);
    }
    if Says(message, text) {
      var i: nat :| i <= |message| && SaysAt(message, text, i);
      LowerAt(message, text, i);
      assert text <= lower[i..];
    }
  }

  /**
   FE counts as gone exactly for the end of input, a closed connection, or a message that says
   one of three things in upper or lower case.
   */
  lemma FEClosedExactly(f: Failure)
    ensures FEClosed(f) <==>
            || f.isEOF
            || f.isClosed
            || Says(f.message, "broken pipe")
            || Says(f.message, "connection reset by peer")
            || Says(f.message, "use of closed network connection")
  {
    LowerContains(f.message, "broken pipe");
    LowerContains(f.message, "connection reset by peer");
    LowerContains(f.message, "use of closed network connection");
  }

  datatype Ending = Ending(cause: Option<Cause>, stopped: bool, keepBE: bool, openFE: bool, openBE: bool)

  const RUNNING := Ending(None, false, false, true, true)

  function Record(e: Ending, c: Cause): Ending {
    if e.cause.None? then e.(cause := Some(c)) else e
  }

  /** The three parts of `Stop` before it turns to the rings. */
  function Decide(e: Ending): Ending {
    e.(stopped := true, keepBE := e.cause.Some? && FELeft(e.cause.value))
  }

  function ShutFE(e: Ending): Ending {
    e.(openFE := false)
  }

  function ShutBE(e: Ending): Ending {
    e.(openBE := e.openBE && e.keepBE)
  }

  datatype EndEvent = RecordCause(cause: Cause) | Stop

  function Apply(e: Ending, ev: EndEvent): Ending {
    match ev
    case RecordCause(c) => Record(e, c)
    case Stop => if e.stopped then e else ShutBE(ShutFE(Decide(e)))
  }

  function After(events: seq<EndEvent>): Ending {
    if events == [] then RUNNING else Apply(After(events[..|events| - 1]), events[|events| - 1])
  }

  lemma AfterMore(events: seq<EndEvent>, e: EndEvent)
    ensures After(events + [e]) == Apply(After(events), e)
  {
    assert (events + [e])[..|events|] == events;
  }

  /** The first cause among the events, if any. */
  function FirstCause(events: seq<EndEvent>): Option<Cause> {
    if events == [] then None
    else if events[0].RecordCause? then Some(events[0].cause)
    else FirstCause(events[1..])
  }

  /** The events before the first `Stop`. */
  function BeforeStop(events: seq<EndEvent>): (r: seq<EndEvent>)
    ensures r <= events
    ensures Stop !in r
    ensures Stop in events ==> |r| < |events| && events[|r|] == Stop
    ensures Stop !in events ==> r == events
  {
    if events == [] || events[0] == Stop then []
    else [events[0]] + BeforeStop(events[1..])
  }

  lemma {:induction false} FirstCauseMore(events: seq<EndEvent>, e: EndEvent)
    ensures FirstCause(events + [e])
         == if FirstCause(events).Some? then FirstCause(events)
            else if e.RecordCause? then Some(e.cause) else None
  {
    if events == [] {
      assert ([] + [e])[1..] == [];
    } else {
      FirstCauseMore(events[1..], e);
      assert (events + [e])[1..] == events[1..] + [e];
    }
  }

  lemma {:induction false} BeforeStopMore(events: seq<EndEvent>, e: EndEvent)
    ensures BeforeStop(events + [e]) == if Stop in events || e == Stop then BeforeStop(events) else events + [e]
  {
    if events == [] {
      assert [] + [e] == [e] && [e][1..] == [];
    } else {
      var more := events + [e];
      assert more[0] == events[0] && more[1..] == events[1..] + [e];
      if events[0] != Stop {
        BeforeStopMore(events[1..], e);
        assert events == [events[0]] + events[1..];
        assert [events[0]] + (events[1..] + [e]) == more;
      }
    }
  }

  /**
   After any sequence of causes and stops, the BE connection is open exactly if no `Stop`
   came yet or the first cause recorded before the first `Stop` was that FE left; nothing
   after the first `Stop` changes that, and FE is closed by it.
   */
  lemma {:induction false} FirstCauseDecides(events: seq<EndEvent>)
    ensures
      var e, first := After(events), FirstCause(BeforeStop(events));
      && e.cause == FirstCause(events)
      && (e.stopped <==> Stop in events)
      && (e.openFE <==> Stop !in events)
      && (e.keepBE <==> Stop in events && first.Some? && FELeft(first.value))
      && (e.openBE <==> Stop !in events || e.keepBE)
  {
    if events != [] {
      var init, last := events[..|events| - 1], events[|events| - 1];
      assert events == init + [last];
      FirstCauseDecides(init);
      FirstCauseMore(init, last);
      BeforeStopMore(init, last);
    }
  }
}
