/** The manager that scans the sessions periodically and files their figures by metric key. */
module Metrics {
  import opened Bytes
  import opened Sequences
  import opened MetricKeys
  import opened MetricScans

  function SampleKeys(zmq: seq<Sample>): (keys: seq<string>)
    ensures |keys| == |zmq|
  {
    seq(|zmq|, i requires 0 <= i < |zmq| => Key(zmq[i].session, ZMQ, zmq[i].port))
  }

  function StatKeys(srt: seq<Metric>): (keys: seq<string>)
    ensures |keys| == |srt|
  {
    seq(|srt|, i requires 0 <= i < |srt| => Key(srt[i].session, SRT, srt[i].port))
  }

  function ScanOf(zmq: seq<Sample>, srt: seq<Metric>): Scan {
    Scan(SampleKeys(zmq), zmq, StatKeys(srt), srt)
  }

  /** A scan sees at most one session per port, and `itoa` prints every port. */
  predicate OnePerPort(zmq: seq<Sample>, srt: seq<Metric>) {
    && (forall i :: 0 <= i < |zmq| ==> Fits(zmq[i].port))
    && (forall i :: 0 <= i < |srt| ==> Fits(srt[i].port))
    && (forall i, j :: 0 <= i < j < |zmq| ==> zmq[i].port != zmq[j].port)
    && (forall i, j :: 0 <= i < j < |srt| ==> srt[i].port != srt[j].port)
  }

  /** The metric keys keep the entries of a scan apart. */
  lemma KeysDiffer(zmq: seq<Sample>, srt: seq<Metric>)
    requires OnePerPort(zmq, srt)
    ensures Apart(ScanOf(zmq, srt))
  {
    forall i, j | 0 <= i < j < |zmq| ensures SampleKeys(zmq)[i] != SampleKeys(zmq)[j] {
      if SampleKeys(zmq)[i] == SampleKeys(zmq)[j] {
        KeyInjective(zmq[i].session, ZMQ, zmq[i].port, zmq[j].session, ZMQ, zmq[j].port);
      }
    }
    forall i, j | 0 <= i < j < |srt| ensures StatKeys(srt)[i] != StatKeys(srt)[j] {
      if StatKeys(srt)[i] == StatKeys(srt)[j] {
        KeyInjective(srt[i].session, SRT, srt[i].port, srt[j].session, SRT, srt[j].port);
      }
    }
    forall k | k in StatKeys(srt) ensures k !in SampleKeys(zmq) {
      forall j | 0 <= j < |zmq| ensures SampleKeys(zmq)[j] != k {
        NotAStatKey(srt, zmq[j].session, zmq[j].port);
      }
    }
  }

  /** No SRT figure has the key of a ZMQ session. */
  lemma NotAStatKey(srt: seq<Metric>, session: string, port: I64)
    ensures Key(session, ZMQ, port) !in StatKeys(srt)
  {
    forall i | 0 <= i < |srt| ensures StatKeys(srt)[i] != Key(session, ZMQ, port) {
      if StatKeys(srt)[i] == Key(session, ZMQ, port) {
        KeyInjective(srt[i].session, SRT, srt[i].port, session, ZMQ, port);
      }
    }
  }

  method KeyOf(session: string, kind: Kind, port: I64) returns (key: string)
    requires Fits(port)
    ensures key == Key(session, kind, port)
  {
    var name := Itoa(port);
    key := session + ":" + KindName(kind) + ":" + name.value;
  }

  class Manager {
    var prevCtrs: map<string, Counters>
    var metrics: map<string, Metric>

    function View(): State
      reads this
    {
      State(prevCtrs, metrics)
    }

    constructor ()
      ensures View() == State(map[], map[])
    {
      prevCtrs, metrics := map[], map[];
    }

    method UpdateMetrics(zmq: seq<Sample>, srt: seq<Metric>)
      requires OnePerPort(zmq, srt)
      modifies this
      ensures View() == AfterScan(old(View()), ScanOf(zmq, srt))
    {
      KeysDiffer(zmq, srt);
      var mm := ScanSessions(zmq, SampleKeys(zmq));
      ghost var first, keys := mm, StatKeys(srt);
      for i := 0 to |srt|
        invariant mm == Filled(first, keys[..i], srt[..i])
        invariant prevCtrs == Filled(old(prevCtrs), SampleKeys(zmq), CountersOf(zmq))
      {
        FilledMore(first, keys, srt, i);
        var key := KeyOf(srt[i].session, SRT, srt[i].port);
        mm := mm[key := srt[i]];
      }
      assert keys[..|srt|] == keys && srt[..|srt|] == srt;
      metrics := mm;
    }

    method ScanSessions(zmq: seq<Sample>, ghost keys: seq<string>) returns (mm: map<string, Metric>)
      requires |keys| == |zmq| && Distinct(keys)
      requires forall i :: 0 <= i < |zmq| ==> Fits(zmq[i].port) && keys[i] == Key(zmq[i].session, ZMQ, zmq[i].port)
      modifies this`prevCtrs
      ensures mm == Filled(map[], keys, MeasuredAll(old(prevCtrs), keys, zmq))
      ensures prevCtrs == Filled(old(prevCtrs), keys, CountersOf(zmq))
    {
      mm := map[];
      ghost var cs, ms := CountersOf(zmq), MeasuredAll(prevCtrs, keys, zmq);
      for i := 0 to |zmq|
        invariant mm == Filled(map[], keys[..i], ms[..i])
        invariant prevCtrs == Filled(old(prevCtrs), keys[..i], cs[..i])
      {
        EarlierEntries(old(prevCtrs), keys, zmq, i);
        FilledMore(old(prevCtrs), keys, cs, i);
        FilledMore(map[], keys, ms, i);
        var key, metric := Observe(zmq[i], keys[i]);
        mm := mm[key := metric];
      }
      assert keys[..|zmq|] == keys && cs[..|zmq|] == cs && ms[..|zmq|] == ms;
    }

    method Observe(s: Sample, ghost k: string) returns (key: string, metric: Metric)
      requires Fits(s.port) && k == Key(s.session, ZMQ, s.port)
      modifies this`prevCtrs
      ensures key == k && metric == Measured(old(prevCtrs), k, s)
      ensures prevCtrs == old(prevCtrs)[k := s.counters]
    {
      key := KeyOf(s.session, ZMQ, s.port);
      metric := Measured(prevCtrs, key, s);
      prevCtrs := prevCtrs[key := s.counters];
    }
  }

  /** The scans of a manager as `UpdateMetrics` makes them. */
  ghost predicate ManagerScans(scans: seq<Scan>) {
    forall i {:trigger scans[i]} :: 0 <= i < |scans| ==>
      OnePerPort(scans[i].zmq, scans[i].srt) && scans[i] == ScanOf(scans[i].zmq, scans[i].srt)
  }

  /** One call of `UpdateMetrics` after the other. */
  ghost predicate ManagerRun(run: seq<State>, scans: seq<Scan>) {
    && ManagerScans(scans) && |run| == |scans| + 1 && run[0] == State(map[], map[])
    && (forall i {:trigger scans[i]} :: 0 <= i < |scans| ==> run[i + 1] == AfterScan(run[i], scans[i]))
  }

  lemma ManagerRunScans(run: seq<State>, scans: seq<Scan>, session: string, port: I64)
    requires ManagerRun(run, scans)
    ensures ScanRun(run, scans)
    ensures forall i {:trigger scans[i]} :: 0 <= i < |scans| ==> Key(session, ZMQ, port) !in scans[i].statKeys
  {
    forall i {:trigger scans[i]} | 0 <= i < |scans|
      ensures Apart(scans[i]) && Key(session, ZMQ, port) !in scans[i].statKeys
    {
      KeysDiffer(scans[i].zmq, scans[i].srt);
      NotAStatKey(scans[i].srt, session, port);
    }
  }

  /**
   However many other sessions come and go meanwhile, the scans of a manager report for a
   session in sum exactly the bytes it had counted when it was last seen, in and out.
   */
  lemma ReportedIsTotal(run: seq<State>, scans: seq<Scan>, n: nat, i: nat)
    requires ManagerRun(run, scans) && n < |scans| && i < |scans[n].zmq|
    ensures scans[n].keys[i] == Key(scans[n].zmq[i].session, ZMQ, scans[n].zmq[i].port)
    ensures Reported(run, scans[n].keys[i], IN, n + 1) == TOTAL_IN(scans[n].zmq[i].counters)
    ensures Reported(run, scans[n].keys[i], OUT, n + 1) == TOTAL_OUT(scans[n].zmq[i].counters)
  {
    var s, key := scans[n].zmq[i], scans[n].keys[i];
    ManagerRunScans(run, scans, s.session, s.port);
    PresentInScan(run[n], scans[n], i);
    BothTrack();
    ReportsAddUp(run, scans, key, n + 1, IN, TOTAL_IN);
    ReportsAddUp(run, scans, key, n + 1, OUT, TOTAL_OUT);
  }
}
