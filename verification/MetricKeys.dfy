/** Decimal conversion into a fixed 16-byte array, and the metric keys built from it. */
module MetricKeys {
  import opened Bytes
  import opened Options

  const MIN: int := -0x8000_0000_0000_0000

  /** Negation of a 64-bit integer: the smallest one has no negative and stays as it is. */
  function Negate(v: I64): I64 {
    if v == MIN then v else -v
  }

  function Digit(d: int): char
    requires 0 <= d < 10
  {
    '0' + d as char
  }

  /** The decimal digits of a number; none for zero. */
  function Digits(n: nat): string {
    if n == 0 then "" else Digits(n / 10) + [Digit(n % 10)]
  }

  /** What `itoa` means to print. The smallest integer keeps only its sign. */
  function Decimal(v: I64): string {
    if v == 0 then "0"
    else if v == MIN then "-"
    else if v < 0 then "-" + Digits(-v)
    else Digits(v)
  }

  function Pow10(k: nat): (p: nat)
    ensures p >= 1
  {
    if k == 0 then 1 else 10 * Pow10(k - 1)
  }

  lemma {:induction false} DigitCount(n: nat, k: nat)
    ensures |Digits(n)| <= k <==> n < Pow10(k)
  {
    if n > 0 && k > 0 {
      DigitCount(n / 10, k - 1);
    }
  }

  lemma Pow10Values()
    ensures Pow10(15) == 1_000_000_000_000_000 && Pow10(16) == 10_000_000_000_000_000
  {
    assert Pow10(4) == 10_000;
    assert Pow10(8) == 100_000_000;
    assert Pow10(12) == 1_000_000_000_000;
  }

  /** The integers whose decimal form has room in sixteen bytes. */
  predicate Fits(v: I64) {
    v == MIN || -1_000_000_000_000_000 < v < 10_000_000_000_000_000
  }

  lemma FitsIsLength(v: I64)
    ensures Fits(v) <==> |Decimal(v)| <= 16
  {
    Pow10Values();
    if v != MIN {
      DigitCount(if v < 0 then -v else v, if v < 0 then 15 else 16);
    }
  }

  /** Fills the end of the array with the digits of a positive number; false when an index falls below it. */
  method FillDigits(b: array<char>, v: int) returns (ok: bool, i: nat)
    modifies b
    ensures ok <==> |Digits(if v > 0 then v else 0)| <= b.Length
    ensures ok ==> i <= b.Length && b[i..] == Digits(if v > 0 then v else 0)
  {
    i := b.Length;
    var n := if v > 0 then v else 0;
    ghost var all := Digits(n);
    assert b[i..] == "";
    while n > 0
      invariant i <= b.Length && n >= 0
      invariant all == Digits(n) + b[i..]
    {
      if i == 0 {
        return false, 0;
      }
      ghost var done := b[i..];
      i := i - 1;
      b[i] := Digit(n % 10);
      assert b[i..] == [Digit(n % 10)] + done;
      n := n / 10;
    }
    ok := true;
  }

  // ----- Parsing back

  predicate IsDigit(c: char) {
    '0' <= c <= '9'
  }

  function ParseNat(s: string): Option<int> {
    if s == "" then Some(0)
    else
      var n, c := |s| - 1, s[|s| - 1];
      var front := ParseNat(s[..n]);
      if front.None? || !IsDigit(c) then None else Some(front.value * 10 + (c - '0') as int)
  }

  /** An optional sign and at least one digit. */
  function ParseInt(s: string): Option<int> {
    if s == "" || s == "-" then None
    else if s[0] == '-' then
      var p := ParseNat(s[1..]);
      if p.None? then None else Some(-p.value)
    else ParseNat(s)
  }

  lemma {:induction false} ParseDigits(n: nat)
    ensures ParseNat(Digits(n)) == Some(n)
  {
    if n > 0 {
      ParseDigits(n / 10);
      var s := Digits(n);
      assert s[..|s| - 1] == Digits(n / 10);
    }
  }

  /** Nothing but digits, and no colon or sign among them. */
  predicate Numeral(s: string) {
    forall i :: 0 <= i < |s| ==> IsDigit(s[i])
  }

  lemma {:induction false} DigitsAreNumeral(n: nat)
    ensures Numeral(Digits(n)) && (n > 0 ==> |Digits(n)| > 0)
  {
    if n > 0 {
      DigitsAreNumeral(n / 10);
    }
  }

  /** A numeral is parsed as a natural number, with or without a sign. */
  lemma ParseSigned(s: string, n: int)
    requires |s| > 0 && Numeral(s) && ParseNat(s) == Some(n)
    ensures ParseInt(s) == Some(n) && ':' !in s
    ensures ParseInt("-" + s) == Some(-n) && ':' !in "-" + s
  {
    assert IsDigit(s[0]);
    var t := "-" + s;
    assert t[0] == '-' && t[1..] == s && |t| > 1;
  }

  /** Every 64-bit integer but the smallest parses back to itself, and no colon is printed. */
  lemma ParseDecimal(v: I64)
    ensures ParseInt(Decimal(v)) == if v == MIN then None else Some(v)
    ensures ':' !in Decimal(v)
  {
    if v == 0 {
      assert "0"[..0] == "";
    } else if v != MIN {
      var n := if v < 0 then -v else v;
      ParseDigits(n);
      DigitsAreNumeral(n);
      ParseSigned(Digits(n), n);
    }
  }

  /**
   `itoa`; None stands for the panic of an index below the array. There is a result that parses
   back to the integer if and only if the integer lies strictly between -10^15 and 10^16.
   */
  method Itoa(v: I64) returns (r: Option<string>)
    ensures r.Some? <==> Fits(v)
    ensures r.Some? ==> r.value == Decimal(v)
    ensures r.Some? && ParseInt(r.value) == Some(v) <==> -1_000_000_000_000_000 < v < 10_000_000_000_000_000
  {
    ParseDecimal(v);
    if v == 0 {
      return Some("0");
    }
    FitsIsLength(v);
    var neg, n := v < 0, v;
    if neg {
      n := Negate(n);
    }
    var b := new char[16](_ => '0');
    var ok, i := FillDigits(b, n);
    if !ok {
      return None;
    }
    if neg {
      if i == 0 {
        return None;
      }
      ghost var done := b[i..];
      i := i - 1;
      b[i] := '-';
      assert b[i..] == "-" + done;
    }
    r := Some(b[i..]);
  }

  lemma DecimalInjective(v: I64, w: I64)
    requires Decimal(v) == Decimal(w)
    ensures v == w
  {
    ParseDecimal(v);
    ParseDecimal(w);
  }

  // ----- Keys

  datatype Kind = ZMQ | SRT

  function KindName(k: Kind): string {
    match k case ZMQ => "zmq" case SRT => "srt"
  }

  function Key(session: string, kind: Kind, port: I64): string {
    session + ":" + KindName(kind) + ":" + Decimal(port)
  }

  lemma AfterColon(a: string, x: string, i: nat)
    requires |a| < i < |a| + 1 + |x|
    ensures (a + ":" + x)[i] in x
  {
    assert (a + ":" + x)[i] == x[i - |a| - 1];
  }

  /** A string is cut in one way at its last colon. */
  lemma LastColon(a: string, x: string, b: string, y: string)
    requires ':' !in x && ':' !in y
    requires a + ":" + x == b + ":" + y
    ensures a == b && x == y
  {
    if |a| < |b| {
      AfterColon(a, x, |b|);
      assert false;
    }
    if |b| < |a| {
      AfterColon(b, y, |a|);
      assert false;
    }
    var s := a + ":" + x;
    assert s[..|a|] == a && s[..|b|] == b;
    assert s[|a| + 1..] == x && s[|b| + 1..] == y;
  }

  /** Keys are injective, whatever the session IDs contain. */
  lemma KeyInjective(s: string, j: Kind, p: I64, t: string, k: Kind, q: I64)
    requires Key(s, j, p) == Key(t, k, q)
    ensures s == t && j == k && p == q
  {
    ParseDecimal(p);
    ParseDecimal(q);
    LastColon(s + ":" + KindName(j), Decimal(p), t + ":" + KindName(k), Decimal(q));
    DecimalInjective(p, q);
    LastColon(s, KindName(j), t, KindName(k));
    assert KindName(j)[0] == KindName(k)[0];
  }

  /** What a key looks like. */
  lemma KeySpelled(session: string, port: I64)
    ensures Key(session, ZMQ, port) == session + ":zmq:" + Decimal(port)
    ensures Key(session, SRT, port) == session + ":srt:" + Decimal(port)
  {
    assert ":" + "zmq" + ":" == ":zmq:" && ":" + "srt" + ":" == ":srt:";
    assert session + ":" + "zmq" + ":" == session + (":" + "zmq" + ":");
    assert session + ":" + "srt" + ":" == session + (":" + "srt" + ":");
  }
}
