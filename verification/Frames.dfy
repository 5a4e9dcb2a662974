/**
 The frames of the video test protocol: a 48-byte big-endian header followed by the
 payload. The checksum is an unknown function of the payload.
 */
module Frames {
  import opened Bytes

  const MAGIC: U32 := 0x56345654
  const VERSION: Byte := 1
  const HEADER := 48

  type U32 = n: int | 0 <= n < 0x1_0000_0000
  type U64 = n: int | 0 <= n < 0x1_0000_0000_0000_0000
  type Payload = s: seq<Byte> | |s| < 0x1_0000_0000
  type Checksum = seq<Byte> -> U32

  datatype Frame = Frame(
    kind: Byte,
    number: U64,
    sent: I64,
    serverRecv: I64,
    serverSend: I64,
    crc: U32,
    payload: Payload)

  datatype Error = EndOfInput | Truncated | BadMagic | BadVersion | PayloadTooLarge | BadChecksum

  /** The outcome of one read and the input left after it. */
  datatype Decoded =
    | Good(frame: Frame, rest: seq<Byte>)
    | Bad(error: Error, rest: seq<Byte>)

  // ----- Big-endian words and two's complement

  function Put32(n: U32): (s: seq<Byte>)
    ensures |s| == 4
  {
    [n / 0x100_0000, n / 0x1_0000 % 0x100, n / 0x100 % 0x100, n % 0x100]
  }

  function Get32(s: seq<Byte>): U32
    requires |s| == 4
  {
    var a: int, b: int, c: int, d: int := s[0], s[1], s[2], s[3];
    a * 0x100_0000 + b * 0x1_0000 + c * 0x100 + d
  }

  function Put64(n: U64): (s: seq<Byte>)
    ensures |s| == 8
  {
    Put32(n / 0x1_0000_0000) + Put32(n % 0x1_0000_0000)
  }

  function Get64(s: seq<Byte>): U64
    requires |s| == 8
  {
    Get32(s[..4]) * 0x1_0000_0000 + Get32(s[4..])
  }

  function Unsigned(n: I64): U64 {
    if n < 0 then n + 0x1_0000_0000_0000_0000 else n
  }

  function Signed(n: U64): I64 {
    if n >= 0x8000_0000_0000_0000 then n - 0x1_0000_0000_0000_0000 else n
  }

  lemma Word32(n: U32)
    ensures Get32(Put32(n)) == n
  {
    var a, b, c := n / 0x100, n / 0x1_0000, n / 0x100_0000;
    assert b == a / 0x100 && c == b / 0x100;
    assert n == a * 0x100 + n % 0x100 && a == b * 0x100 + a % 0x100 && b == c * 0x100 + b % 0x100;
  }

  lemma Bytes32(s: seq<Byte>)
    requires |s| == 4
    ensures Put32(Get32(s)) == s
  {
    var a: int, b: int, c: int, d: int, m := s[0], s[1], s[2], s[3], Get32(s);
    assert m / 0x100_0000 == a;
    assert m / 0x1_0000 == a * 0x100 + b;
    assert m / 0x100 == a * 0x1_0000 + b * 0x100 + c;
    assert m % 0x100 == d && (a * 0x100 + b) % 0x100 == b;
    assert (a * 0x1_0000 + b * 0x100 + c) % 0x100 == c;
    assert Put32(m) == [a, b, c, d];
  }

  lemma Word64(n: U64)
    ensures Get64(Put64(n)) == n
  {
    var hi, lo := n / 0x1_0000_0000, n % 0x1_0000_0000;
    Word32(hi);
    Word32(lo);
    assert Put64(n)[..4] == Put32(hi) && Put64(n)[4..] == Put32(lo);
  }

  lemma Bytes64(s: seq<Byte>)
    requires |s| == 8
    ensures Put64(Get64(s)) == s
  {
    var a, b := s[..4], s[4..];
    Bytes32(a);
    Bytes32(b);
    var hi: int, lo: int := Get32(a), Get32(b);
    assert Get64(s) == hi * 0x1_0000_0000 + lo;
    assert Get64(s) / 0x1_0000_0000 == hi && Get64(s) % 0x1_0000_0000 == lo;
    assert a + b == s;
  }

  // ----- Encoding

  /** The part of the header between the reserved bytes and the checksum. */
  function Stamps(f: Frame): (s: seq<Byte>)
    ensures |s| == 32
  {
    Put64(f.number) + Put64(Unsigned(f.sent)) + Put64(Unsigned(f.serverRecv)) + Put64(Unsigned(f.serverSend))
  }

  /** What a frame looks like on the wire; the readers ignore the two reserved bytes. */
  function Header(f: Frame, reserved: (Byte, Byte)): (s: seq<Byte>)
    ensures |s| == HEADER
  {
    Put32(MAGIC) + [VERSION, f.kind, reserved.0, reserved.1] + Stamps(f) + Put32(f.crc) + Put32(|f.payload|)
  }

  function Wire(f: Frame, reserved: (Byte, Byte)): (s: seq<Byte>)
    ensures |s| == HEADER + |f.payload|
  {
    Header(f, reserved) + f.payload
  }

  /** The writers leave the reserved bytes zero. */
  function Encode(f: Frame): (s: seq<Byte>)
    ensures |s| == HEADER + |f.payload|
  {
    Wire(f, (0, 0))
  }

  // ----- Decoding

  /** A header's fields, with the payload's length and not its bytes. */
  datatype Parsed = Parsed(magic: U32, version: Byte, frame: Frame, length: U32)

  function Parse(h: seq<Byte>): Parsed
    requires |h| == HEADER
  {
    Parsed(
      Get32(h[0..4]),
      h[4],
      Frame(h[5], Get64(h[8..16]), Signed(Get64(h[16..24])), Signed(Get64(h[24..32])), Signed(Get64(h[32..40])),
            Get32(h[40..44]), []),
      Get32(h[44..48]))
  }

  function Short(s: seq<Byte>): Decoded {
    Bad(if s == [] then EndOfInput else Truncated, [])
  }

  /** One `ReadFrame` on the input `s`; a limit of zero or less means no limit. */
  function Decode(checksum: Checksum, s: seq<Byte>, limit: int): Decoded {
    if |s| < HEADER then Short(s) else
    var p, rest := Parse(s[..HEADER]), s[HEADER..];
    if p.magic != MAGIC then Bad(BadMagic, rest)
    else if p.version != VERSION then Bad(BadVersion, rest)
    else if limit > 0 && p.length > limit then Bad(PayloadTooLarge, rest)
    else if p.length == 0 then Good(p.frame, rest)
    else if |rest| < p.length then Short(rest)
    else if checksum(rest[..p.length]) != p.frame.crc then Bad(BadChecksum, rest[p.length..])
    else Good(p.frame.(payload := rest[..p.length]), rest[p.length..])
  }

  /** What a reader with this limit takes: the length fits, and so does the checksum of a payload that is there. */
  predicate Acceptable(checksum: Checksum, f: Frame, limit: int) {
    && (limit > 0 ==> |f.payload| <= limit)
    && (f.payload != [] ==> f.crc == checksum(f.payload))
  }

  lemma ParseStamps(f: Frame)
    ensures
      var s := Stamps(f);
      && Get64(s[0..8]) == f.number
      && Signed(Get64(s[8..16])) == f.sent
      && Signed(Get64(s[16..24])) == f.serverRecv
      && Signed(Get64(s[24..32])) == f.serverSend
  {
    var s := Stamps(f);
    var a, b, c, d := Put64(f.number), Put64(Unsigned(f.sent)), Put64(Unsigned(f.serverRecv)), Put64(Unsigned(f.serverSend));
    assert s[0..8] == a && s[8..16] == b && s[16..24] == c && s[24..32] == d;
    Word64(f.number);
    Word64(Unsigned(f.sent));
    Word64(Unsigned(f.serverRecv));
    Word64(Unsigned(f.serverSend));
  }

  /** Where the parts of a header stand. */
  lemma HeaderParts(f: Frame, reserved: (Byte, Byte))
    ensures
      var h := Header(f, reserved);
      && h[0..4] == Put32(MAGIC) && h[4] == VERSION && h[5] == f.kind
      && h[8..40] == Stamps(f) && h[40..44] == Put32(f.crc) && h[44..48] == Put32(|f.payload|)
  {
  }

  lemma SliceOfSlice(s: seq<Byte>, a: nat, b: nat, i: nat, j: nat)
    requires a <= b <= |s| && i <= j <= b - a
    ensures s[a..b][i..j] == s[a + i..a + j]
  {
    var left, right := s[a..b][i..j], s[a + i..a + j];
    assert |left| == |right|;
    forall k | 0 <= k < j - i ensures left[k] == right[k] {
      assert left[k] == s[a..b][i + k] == s[a + i + k];
    }
    assert left == right;
  }

  lemma StampParts(h: seq<Byte>, s: seq<Byte>)
    requires |h| == HEADER && |s| == 32 && h[8..40] == s
    ensures h[8..16] == s[0..8] && h[16..24] == s[8..16] && h[24..32] == s[16..24] && h[32..40] == s[24..32]
  {
    SliceOfSlice(h, 8, 40, 0, 8);
    SliceOfSlice(h, 8, 40, 8, 16);
    SliceOfSlice(h, 8, 40, 16, 24);
    SliceOfSlice(h, 8, 40, 24, 32);
  }

  lemma ParseHeader(f: Frame, reserved: (Byte, Byte))
    ensures Parse(Header(f, reserved)) == Parsed(MAGIC, VERSION, f.(payload := []), |f.payload|)
  {
    HeaderParts(f, reserved);
    StampParts(Header(f, reserved), Stamps(f));
    ParseStamps(f);
    Word32(MAGIC);
    Word32(f.crc);
    Word32(|f.payload|);
  }

  /* The bytes themselves. */

  /** The number that bytes stand for, the most significant first. */
  function BigEndian(s: seq<Byte>): int {
    if s == [] then 0 else BigEndian(s[..|s| - 1]) * 256 + s[|s| - 1]
  }

  lemma BigEndian4(s: seq<Byte>)
    requires |s| == 4
    ensures Get32(s) == BigEndian(s)
  {
    var a, b, c := s[..3], s[..2], s[..1];
    assert a[..2] == b && b[..1] == c && c[..0] == [];
    assert BigEndian(c) == s[0] && BigEndian(b) == BigEndian(c) * 256 + s[1] && BigEndian(a) == BigEndian(b) * 256 + s[2];
  }

  /** Four bytes after others: the number moves up by 32 bits. */
  lemma BigEndianMore(s: seq<Byte>, t: seq<Byte>)
    requires |t| == 4
    ensures BigEndian(s + t) == BigEndian(s) * 0x1_0000_0000 + BigEndian(t)
  {
    var u := s + t;
    var n := |s|;
    assert u[..n + 3] == s + t[..3] && u[..n + 2] == s + t[..2] && u[..n + 1] == s + t[..1] && u[..n] == s;
    assert u[..n + 3][..n + 2] == u[..n + 2] && u[..n + 2][..n + 1] == u[..n + 1] && u[..n + 1][..n] == s;
    BigEndian4(t);
    var w, x, y, z := BigEndian(s), BigEndian(u[..n + 1]), BigEndian(u[..n + 2]), BigEndian(u[..n + 3]);
    assert x == w * 256 + t[0];
    assert y == x * 256 + t[1];
    assert z == y * 256 + t[2];
  }

  lemma BigEndian8(s: seq<Byte>)
    requires |s| == 8
    ensures Get64(s) == BigEndian(s)
  {
    BigEndian4(s[..4]);
    BigEndian4(s[4..]);
    BigEndianMore(s[..4], s[4..]);
    assert s == s[..4] + s[4..];
  }

  /** Two's complement, eight bytes wide. */
  predicate Stands(s: seq<Byte>, n: I64) {
    |s| == 8 && (BigEndian(s) - n) % 0x1_0000_0000_0000_0000 == 0
  }

  lemma SignedStands(s: seq<Byte>)
    requires |s| == 8
    ensures Stands(s, Signed(Get64(s)))
  {
    BigEndian8(s);
  }

  lemma MagicSpelled()
    ensures Put32(MAGIC) == [0x56, 0x34, 0x56, 0x54]
  {
  }

  lemma FirstEight(a: seq<Byte>, b: seq<Byte>, c: seq<Byte>, d: seq<Byte>, e: seq<Byte>)
    requires |a| == 4 && |b| == 4
    ensures (a + b + c + d + e)[0..8] == a + b
  {
  }

  lemma HeaderStart(f: Frame, reserved: (Byte, Byte))
    ensures Header(f, reserved)[0..8] == [0x56, 0x34, 0x56, 0x54] + [1, f.kind, reserved.0, reserved.1]
  {
    MagicSpelled();
    FirstEight(Put32(MAGIC), [VERSION, f.kind, reserved.0, reserved.1], Stamps(f), Put32(f.crc), Put32(|f.payload|));
  }

  lemma ReservedAreZero(f: Frame)
    ensures Encode(f)[6] == 0 && Encode(f)[7] == 0
  {
    var h := Header(f, (0, 0));
    HeaderStart(f, (0, 0));
    assert h[6] == h[0..8][6] && h[7] == h[0..8][7];
  }

  /**
   The wire format: the magic number, version one, the kind, two reserved bytes, then the number,
   the three timestamps, the checksum and the payload's length, all big-endian, then the payload.
   */
  lemma WireLayout(f: Frame, reserved: (Byte, Byte))
    ensures
      var s := Wire(f, reserved);
      && s[0..8] == [0x56, 0x34, 0x56, 0x54] + [1, f.kind, reserved.0, reserved.1]
      && BigEndian(s[8..16]) == f.number
      && Stands(s[16..24], f.sent) && Stands(s[24..32], f.serverRecv) && Stands(s[32..40], f.serverSend)
      && BigEndian(s[40..44]) == f.crc && BigEndian(s[44..48]) == |f.payload|
      && s[48..] == f.payload
  {
    var s, h := Wire(f, reserved), Header(f, reserved);
    assert h == s[..48];
    forall i: nat, j: nat | i <= j <= 48 ensures s[i..j] == h[i..j] {
      SliceOfSlice(s, 0, 48, i, j);
      assert s[0..48] == h;
    }
    ParseHeader(f, reserved);
    HeaderParts(f, reserved);
    HeaderStart(f, reserved);
    BigEndian8(h[8..16]);
    BigEndian8(h[16..24]);
    BigEndian8(h[24..32]);
    BigEndian8(h[32..40]);
    BigEndian4(h[40..44]);
    BigEndian4(h[44..48]);
    SignedStands(h[16..24]);
    SignedStands(h[24..32]);
    SignedStands(h[32..40]);
  }

  /** Every acceptable frame is read back exactly, whatever follows it and whatever its reserved bytes hold. */
  lemma RoundTrip(checksum: Checksum, f: Frame, reserved: (Byte, Byte), rest: seq<Byte>, limit: int)
    requires Acceptable(checksum, f, limit)
    ensures Decode(checksum, Wire(f, reserved) + rest, limit) == Good(f, rest)
  {
    var s := Wire(f, reserved) + rest;
    ParseHeader(f, reserved);
    assert s[..HEADER] == Header(f, reserved);
    assert s[HEADER..] == f.payload + rest;
    assert (f.payload + rest)[..|f.payload|] == f.payload;
    assert (f.payload + rest)[|f.payload|..] == rest;
  }

  /** What is read as a timestamp is written back. */
  lemma StampBytes(s: seq<Byte>)
    requires |s| == 8
    ensures Put64(Unsigned(Signed(Get64(s)))) == s
  {
    Bytes64(s);
  }

  lemma StampsParse(s: seq<Byte>, f: Frame)
    requires |s| == 32
    requires f.number == Get64(s[0..8]) && f.sent == Signed(Get64(s[8..16]))
    requires f.serverRecv == Signed(Get64(s[16..24])) && f.serverSend == Signed(Get64(s[24..32]))
    ensures Stamps(f) == s
  {
    Bytes64(s[0..8]);
    StampBytes(s[8..16]);
    StampBytes(s[16..24]);
    StampBytes(s[24..32]);
    assert s == s[0..8] + s[8..16] + s[16..24] + s[24..32];
  }

  lemma HeaderParse(h: seq<Byte>, payload: seq<Byte>)
    requires |h| == HEADER && Parse(h).magic == MAGIC && Parse(h).version == VERSION && Parse(h).length == |payload|
    ensures Header(Parse(h).frame.(payload := payload), (h[6], h[7])) == h
  {
    var f := Parse(h).frame.(payload := payload);
    var s := h[8..40];
    assert s[0..8] == h[8..16] && s[8..16] == h[16..24] && s[16..24] == h[24..32] && s[24..32] == h[32..40];
    StampsParse(s, f);
    Bytes32(h[0..4]);
    Bytes32(h[40..44]);
    Bytes32(h[44..48]);
    assert h == h[0..4] + [h[4], h[5], h[6], h[7]] + s + h[40..44] + h[44..48];
  }

  lemma Split(s: seq<Byte>, a: nat, b: nat)
    requires a + b <= |s|
    ensures s == s[..a] + s[a..][..b] + s[a..][b..]
    ensures s[a..][0..] == s[a..]
  {
  }

  /** A reader accepts nothing but encodings: the input was an acceptable frame on the wire, then the rest. */
  lemma OnlyEncodings(checksum: Checksum, s: seq<Byte>, limit: int) returns (reserved: (Byte, Byte))
    requires Decode(checksum, s, limit).Good?
    ensures
      var r := Decode(checksum, s, limit);
      Acceptable(checksum, r.frame, limit) && s == Wire(r.frame, reserved) + r.rest
  {
    var r, h := Decode(checksum, s, limit), s[..HEADER];
    reserved := (h[6], h[7]);
    HeaderParse(h, r.frame.payload);
    Split(s, HEADER, |r.frame.payload|);
  }

  /**
   Every strict prefix of an encoding is refused and used up. The error is the one for a
   clean end of input exactly when nothing arrived or the cut falls between header and payload.
   */
  lemma PrefixFails(checksum: Checksum, f: Frame, limit: int, k: nat)
    requires Acceptable(checksum, f, limit) && k < |Encode(f)|
    ensures Decode(checksum, Encode(f)[..k], limit) == Bad(if k == 0 || k == HEADER then EndOfInput else Truncated, [])
  {
    var s := Encode(f)[..k];
    if k >= HEADER {
      ParseHeader(f, (0, 0));
      assert s[..HEADER] == Header(f, (0, 0));
      assert |s[HEADER..]| == k - HEADER;
    }
  }

  /** Of what a failing writer may leave on the wire, a reader takes the whole frame and nothing less. */
  lemma TakenOnlyWhole(checksum: Checksum, f: Frame, limit: int, k: nat)
    requires Acceptable(checksum, f, limit) && k <= |Encode(f)|
    ensures Decode(checksum, Encode(f)[..k], limit).Good? <==> k == |Encode(f)|
    ensures k == |Encode(f)| ==> Decode(checksum, Encode(f)[..k], limit) == Good(f, [])
  {
    if k < |Encode(f)| {
      PrefixFails(checksum, f, limit, k);
    } else {
      assert Encode(f)[..k] == Wire(f, (0, 0)) + [];
      RoundTrip(checksum, f, (0, 0), [], limit);
    }
  }

  lemma MagicBytes(s: seq<Byte>)
    requires |s| == 4
    ensures Get32(s) == MAGIC <==> s == [0x56, 0x34, 0x56, 0x54]
  {
    Bytes32(s);
    MagicSpelled();
    assert Get32([0x56, 0x34, 0x56, 0x54]) == MAGIC;
  }

  /**
   Why a frame is refused, in the order of the checks: too few bytes for a header, another magic
   number, another version, a length above the limit, too few bytes for the payload, or another
   checksum. A limit of zero or less is none, and the checksum of an empty payload is not looked at.
   */
  lemma RefusedExactly(checksum: Checksum, s: seq<Byte>, limit: int)
    ensures
      var r := Decode(checksum, s, limit);
      if |s| < 48 then r == Bad(if |s| == 0 then EndOfInput else Truncated, [])
      else
        var length, rest := BigEndian(s[44..48]), s[48..];
        if s[0..4] != [0x56, 0x34, 0x56, 0x54] then r == Bad(BadMagic, rest)
        else if s[4] != 1 then r == Bad(BadVersion, rest)
        else if limit > 0 && length > limit then r == Bad(PayloadTooLarge, rest)
        else if |rest| < length then r == Bad(if |rest| == 0 then EndOfInput else Truncated, [])
        else
          && length >= 0
          && (if length > 0 && checksum(rest[..length]) != BigEndian(s[40..44]) then r == Bad(BadChecksum, rest[length..])
              else r.Good? && r.frame.payload == rest[..length] && r.rest == rest[length..])
  {
    if |s| >= 48 {
      var h := s[..HEADER];
      assert h[0..4] == s[0..4] && h[40..44] == s[40..44] && h[44..48] == s[44..48] && h[4] == s[4];
      BigEndian4(h[40..44]);
      BigEndian4(h[44..48]);
      MagicBytes(h[0..4]);
    }
  }

  // ----- Streams of frames

  function EncodeAll(frames: seq<Frame>): seq<Byte>
  {
    if frames == [] then [] else Encode(frames[0]) + EncodeAll(frames[1..])
  }

  /** Reads frames until one read fails. */
  function DecodeAll(checksum: Checksum, s: seq<Byte>, limit: int): (seq<Frame>, Decoded)
    decreases |s|
  {
    var r := Decode(checksum, s, limit);
    if r.Bad? then ([], r)
    else
      var (frames, end) := DecodeAll(checksum, r.rest, limit);
      ([r.frame] + frames, end)
  }

  lemma Reattach(frames: seq<Frame>, more: seq<Frame>)
    requires frames != []
    ensures [frames[0]] + (frames[1..] + more) == frames + more
  {
    assert [frames[0]] + frames[1..] == frames;
  }

  lemma EncodeSplit(frames: seq<Frame>, tail: seq<Byte>)
    requires frames != []
    ensures EncodeAll(frames) + tail == Encode(frames[0]) + (EncodeAll(frames[1..]) + tail)
  {
  }

  lemma DecodeNext(checksum: Checksum, f: Frame, s: seq<Byte>, limit: int)
    requires Acceptable(checksum, f, limit)
    ensures
      var (more, end) := DecodeAll(checksum, s, limit);
      DecodeAll(checksum, Encode(f) + s, limit) == ([f] + more, end)
  {
    RoundTrip(checksum, f, (0, 0), s, limit);
  }

  /** The frames come back in order, and reading goes on with whatever follows them. */
  lemma {:induction false} StreamRoundTrip(checksum: Checksum, frames: seq<Frame>, tail: seq<Byte>, limit: int)
    requires forall i :: 0 <= i < |frames| ==> Acceptable(checksum, frames[i], limit)
    ensures
      var (more, end) := DecodeAll(checksum, tail, limit);
      DecodeAll(checksum, EncodeAll(frames) + tail, limit) == (frames + more, end)
  {
    var (more, end) := DecodeAll(checksum, tail, limit);
    if frames == [] {
      assert EncodeAll(frames) + tail == tail;
      assert frames + more == more;
    } else {
      var rest := EncodeAll(frames[1..]) + tail;
      StreamRoundTrip(checksum, frames[1..], tail, limit);
      DecodeNext(checksum, frames[0], rest, limit);
      EncodeSplit(frames, tail);
      Reattach(frames, more);
    }
  }

  /** A stream cut anywhere in its last frame yields exactly the frames before it, then an error. */
  lemma CutStream(checksum: Checksum, frames: seq<Frame>, last: Frame, limit: int, k: nat)
    requires forall i :: 0 <= i < |frames| ==> Acceptable(checksum, frames[i], limit)
    requires Acceptable(checksum, last, limit) && k < |Encode(last)|
    ensures
      DecodeAll(checksum, EncodeAll(frames) + Encode(last)[..k], limit)
      == (frames, Bad(if k == 0 || k == HEADER then EndOfInput else Truncated, []))
  {
    PrefixFails(checksum, last, limit, k);
    StreamRoundTrip(checksum, frames, Encode(last)[..k], limit);
    assert frames + [] == frames;
  }

  /** Decoding a whole stream returns exactly its frames, with nothing left over. */
  lemma WholeStream(checksum: Checksum, frames: seq<Frame>, limit: int)
    requires forall i :: 0 <= i < |frames| ==> Acceptable(checksum, frames[i], limit)
    ensures DecodeAll(checksum, EncodeAll(frames), limit) == (frames, Bad(EndOfInput, []))
  {
    StreamRoundTrip(checksum, frames, [], limit);
    assert EncodeAll(frames) + [] == EncodeAll(frames);
    assert frames + [] == frames;
  }
}
