/**
 What the metrics scan does, for any keys that keep the entries of a scan apart: one entry
 per session, and the growth of its counters since the scan before.
 */
module MetricScans {
  import opened Bytes
  import opened Sequences
  import opened MetricKeys

  datatype Counters = Counters(feIn: int, feOut: int, beIn: int, beOut: int)

  datatype Sample = Sample(session: string, server: string, client: string, port: I64, counters: Counters)

  /** Rates are kept as the byte counts they are computed from. */
  datatype Metric = Metric(
    kind: Kind, session: string, server: string, client: string, port: I64, deltaIn: int, deltaOut: int)

  // ----- Maps filled entry by entry

  /** The map after the entries `keys[i] := vals[i]`, in order. */
  function Filled<V>(m: map<string, V>, keys: seq<string>, vals: seq<V>): map<string, V>
    requires |keys| == |vals|
  {
    if keys == [] then m
    else
      var n := |keys| - 1;
      Filled(m, keys[..n], vals[..n])[keys[n] := vals[n]]
  }

  lemma FilledMore<V>(m: map<string, V>, keys: seq<string>, vals: seq<V>, i: nat)
    requires |keys| == |vals| && i < |keys|
    ensures Filled(m, keys[..i + 1], vals[..i + 1]) == Filled(m, keys[..i], vals[..i])[keys[i] := vals[i]]
  {
    assert keys[..i + 1][..i] == keys[..i] && vals[..i + 1][..i] == vals[..i];
  }

  lemma {:induction false} FilledElsewhere<V>(m: map<string, V>, keys: seq<string>, vals: seq<V>, k: string)
    requires |keys| == |vals| && k !in keys
    ensures k in Filled(m, keys, vals) <==> k in m
    ensures k in m ==> Filled(m, keys, vals)[k] == m[k]
  {
    if keys != [] {
      var n := |keys| - 1;
      assert k != keys[n];
      FilledElsewhere(m, keys[..n], vals[..n], k);
    }
  }

  lemma {:induction false} FilledAt<V>(m: map<string, V>, keys: seq<string>, vals: seq<V>, i: nat)
    requires |keys| == |vals| && i < |keys| && Distinct(keys)
    ensures keys[i] in Filled(m, keys, vals) && Filled(m, keys, vals)[keys[i]] == vals[i]
  {
    var n := |keys| - 1;
    if i < n {
      FilledAt(m, keys[..n], vals[..n], i);
    }
  }

  lemma {:induction false} FilledSize<V>(m: map<string, V>, keys: seq<string>, vals: seq<V>)
    requires |keys| == |vals| && Distinct(keys) && forall k <- keys :: k !in m
    ensures |Filled(m, keys, vals)| == |m| + |keys|
  {
    if keys != [] {
      var n := |keys| - 1;
      FilledSize(m, keys[..n], vals[..n]);
      FilledElsewhere(m, keys[..n], vals[..n], keys[n]);
    }
  }

  // ----- One scan

  /** What one scan sees: the ZMQ sessions and the SRT figures, each with its key. */
  datatype Scan = Scan(keys: seq<string>, zmq: seq<Sample>, statKeys: seq<string>, srt: seq<Metric>)

  /** No entry of the scan overwrites another. */
  ghost predicate Apart(scan: Scan) {
    && |scan.keys| == |scan.zmq| && |scan.statKeys| == |scan.srt|
    && Distinct(scan.keys) && Distinct(scan.statKeys)
    && (forall k <- scan.statKeys :: k !in scan.keys)
  }

  /** The counters remembered for a key; one not seen before starts from zero. */
  function Last(prev: map<string, Counters>, key: string): Counters {
    if key in prev then prev[key] else Counters(0, 0, 0, 0)
  }

  /** The growth since the previous scan. */
  function Measured(prev: map<string, Counters>, key: string, s: Sample): Metric {
    var c, p := s.counters, Last(prev, key);
    Metric(ZMQ, s.session, s.server, s.client, s.port,
           c.feIn + c.beIn - (p.feIn + p.beIn), c.feOut + c.beOut - (p.feOut + p.beOut))
  }

  /** The entry names the session, its two ends and its port, and shows the growth of its counters in and out. */
  predicate FiguresOf(m: Metric, s: Sample, last: Counters) {
    && m.kind.ZMQ? && m.session == s.session && m.server == s.server && m.client == s.client && m.port == s.port
    && m.deltaIn == (s.counters.feIn + s.counters.beIn) - (last.feIn + last.beIn)
    && m.deltaOut == (s.counters.feOut + s.counters.beOut) - (last.feOut + last.beOut)
  }

  function CountersOf(zmq: seq<Sample>): (cs: seq<Counters>)
    ensures |cs| == |zmq|
  {
    seq(|zmq|, i requires 0 <= i < |zmq| => zmq[i].counters)
  }

  function MeasuredAll(prev: map<string, Counters>, keys: seq<string>, zmq: seq<Sample>): (ms: seq<Metric>)
    requires |keys| == |zmq|
    ensures |ms| == |zmq|
  {
    seq(|zmq|, i requires 0 <= i < |zmq| => Measured(prev, keys[i], zmq[i]))
  }

  /** A manager's remembered counters and its metrics. */
  datatype State = State(prev: map<string, Counters>, metrics: map<string, Metric>)

  function AfterScan(s: State, scan: Scan): State
    requires |scan.keys| == |scan.zmq| && |scan.statKeys| == |scan.srt|
  {
    State(Filled(s.prev, scan.keys, CountersOf(scan.zmq)),
          Filled(Filled(map[], scan.keys, MeasuredAll(s.prev, scan.keys, scan.zmq)), scan.statKeys, scan.srt))
  }

  /** The entries a scan has already stored do not disturb the next session's figures. */
  lemma EarlierEntries(prev: map<string, Counters>, keys: seq<string>, zmq: seq<Sample>, i: nat)
    requires |keys| == |zmq| && Distinct(keys) && i < |zmq|
    ensures
      Measured(Filled(prev, keys[..i], CountersOf(zmq)[..i]), keys[i], zmq[i]) == MeasuredAll(prev, keys, zmq)[i]
  {
    FilledElsewhere(prev, keys[..i], CountersOf(zmq)[..i], keys[i]);
  }

  lemma SessionEntry(s: State, scan: Scan, i: nat)
    requires Apart(scan) && i < |scan.zmq|
    ensures
      var m := AfterScan(s, scan).metrics;
      scan.keys[i] in m && m[scan.keys[i]] == Measured(s.prev, scan.keys[i], scan.zmq[i])
  {
    var vals := MeasuredAll(s.prev, scan.keys, scan.zmq);
    FilledAt(map[], scan.keys, vals, i);
    FilledElsewhere(Filled(map[], scan.keys, vals), scan.statKeys, scan.srt, scan.keys[i]);
  }

  /** One entry per session of the scan and no other, each holding its own session's figures. */
  lemma ScannedExactly(s: State, scan: Scan)
    requires Apart(scan)
    ensures
      var m := AfterScan(s, scan).metrics;
      && |m| == |scan.zmq| + |scan.srt|
      && (forall i :: 0 <= i < |scan.zmq| ==>
            && scan.keys[i] in m && m[scan.keys[i]] == Measured(s.prev, scan.keys[i], scan.zmq[i])
            && FiguresOf(m[scan.keys[i]], scan.zmq[i], Last(s.prev, scan.keys[i])))
      && (forall i :: 0 <= i < |scan.srt| ==> scan.statKeys[i] in m && m[scan.statKeys[i]] == scan.srt[i])
  {
    var vals := MeasuredAll(s.prev, scan.keys, scan.zmq);
    var first: map<string, Metric> := Filled(map[], scan.keys, vals);
    FilledSize(map[], scan.keys, vals);
    forall k | k in scan.statKeys ensures k !in first {
      FilledElsewhere(map[], scan.keys, vals, k);
    }
    FilledSize(first, scan.statKeys, scan.srt);
    forall i | 0 <= i < |scan.zmq| {
      SessionEntry(s, scan, i);
    }
    forall i | 0 <= i < |scan.srt| {
      FilledAt(first, scan.statKeys, scan.srt, i);
    }
  }

  // ----- Successive scans

  /** The states a manager goes through while it scans again and again. */
  ghost predicate ScanRun(run: seq<State>, scans: seq<Scan>) {
    && |run| == |scans| + 1
    && (forall i {:trigger scans[i]} :: 0 <= i < |scans| ==> Apart(scans[i]) && run[i + 1] == AfterScan(run[i], scans[i]))
  }

  /** A total of the counters, and the figure of a metric that is meant to show its growth. */
  ghost predicate Tracks(delta: Metric -> int, total: Counters -> int) {
    && (forall prev, key, s :: delta(Measured(prev, key, s)) == total(s.counters) - total(Last(prev, key)))
    && total(Counters(0, 0, 0, 0)) == 0
  }

  const IN: Metric -> int := (m: Metric) => m.deltaIn
  const OUT: Metric -> int := (m: Metric) => m.deltaOut
  const TOTAL_IN: Counters -> int := (c: Counters) => c.feIn + c.beIn
  const TOTAL_OUT: Counters -> int := (c: Counters) => c.feOut + c.beOut

  lemma BothTrack()
    ensures Tracks(IN, TOTAL_IN) && Tracks(OUT, TOTAL_OUT)
  {
  }

  /** What a state reports for a key; nothing if it has no entry. */
  function Report(s: State, key: string, delta: Metric -> int): int {
    if key in s.metrics then delta(s.metrics[key]) else 0
  }

  /** What the first `n` scans have reported for a key, in sum. */
  function Reported(run: seq<State>, key: string, delta: Metric -> int, n: nat): int
    requires n < |run|
  {
    if n == 0 then 0 else Reported(run, key, delta, n - 1) + Report(run[n], key, delta)
  }

  lemma PresentInScan(s: State, scan: Scan, i: nat)
    requires Apart(scan) && i < |scan.zmq|
    ensures
      var key, later := scan.keys[i], AfterScan(s, scan);
      && key in later.metrics && later.metrics[key] == Measured(s.prev, key, scan.zmq[i])
      && Last(later.prev, key) == scan.zmq[i].counters
  {
    SessionEntry(s, scan, i);
    FilledAt(s.prev, scan.keys, CountersOf(scan.zmq), i);
  }

  /** A scan without the session leaves its counters alone and has no entry for it. */
  lemma AbsentFromScan(s: State, scan: Scan, key: string)
    requires Apart(scan) && key !in scan.keys && key !in scan.statKeys
    ensures key !in AfterScan(s, scan).metrics && Last(AfterScan(s, scan).prev, key) == Last(s.prev, key)
  {
    var vals := MeasuredAll(s.prev, scan.keys, scan.zmq);
    FilledElsewhere(s.prev, scan.keys, CountersOf(scan.zmq), key);
    FilledElsewhere(map[], scan.keys, vals, key);
    FilledElsewhere(Filled(map[], scan.keys, vals), scan.statKeys, scan.srt, key);
  }

  /** A scan reports exactly the growth of the counters remembered for a key. */
  lemma ScanReports(s: State, scan: Scan, key: string, delta: Metric -> int, total: Counters -> int)
    requires Apart(scan) && key !in scan.statKeys && Tracks(delta, total)
    ensures Report(AfterScan(s, scan), key, delta) == total(Last(AfterScan(s, scan).prev, key)) - total(Last(s.prev, key))
  {
    if i :| 0 <= i < |scan.keys| && scan.keys[i] == key {
      PresentInScan(s, scan, i);
    } else {
      AbsentFromScan(s, scan, key);
    }
  }

  /** Whatever other sessions come and go, the reports for a key add up to the growth of its counters. */
  lemma {:induction false} ReportsAddUp(
    run: seq<State>, scans: seq<Scan>, key: string, n: nat, delta: Metric -> int, total: Counters -> int)
    requires ScanRun(run, scans) && n <= |scans| && Tracks(delta, total)
    requires forall i {:trigger scans[i]} :: 0 <= i < |scans| ==> key !in scans[i].statKeys
    ensures Reported(run, key, delta, n) == total(Last(run[n].prev, key)) - total(Last(run[0].prev, key))
  {
    if n > 0 {
      ReportsAddUp(run, scans, key, n - 1, delta, total);
      ScanReports(run[n - 1], scans[n - 1], key, delta, total);
      assert run[n] == AfterScan(run[n - 1], scans[n - 1]);
    }
  }
}
