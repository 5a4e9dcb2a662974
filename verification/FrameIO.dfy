/** The frame writers, which fill a header array at a moving offset, and the reader that takes it apart. */
module FrameIO {
  import opened Bytes
  import opened Frames

  /** A destination that accepts bytes until its room is used up, and then fails. */
  class Writer {
    var out: seq<Byte>
    var room: nat

    constructor (room: nat)
      ensures out == [] && this.room == room
    {
      out := [];
      this.room := room;
    }

    method Write(p: seq<Byte>) returns (ok: bool)
      modifies this
      ensures ok == (|p| <= old(room))
      ensures out == old(out) + p[..Min(|p|, old(room))]
      ensures room == old(room) - Min(|p|, old(room))
    {
      var n := Min(|p|, room);
      ok := n == |p|;
      out := out + p[..n];
      room := room - n;
    }
  }

  datatype FullRead = Filled | Failed(error: Frames.Error)

  /** A source that ends after `data`. */
  class Reader {
    var data: seq<Byte>

    constructor (data: seq<Byte>)
      ensures this.data == data
    {
      this.data := data;
    }

    /** `io.ReadFull`: fills the whole array, or uses up the input and fails. */
    method ReadFull(buf: array<Byte>) returns (r: FullRead)
      requires buf.Length > 0
      modifies this, buf
      ensures |old(data)| >= buf.Length ==>
                r == Filled && buf[..] == old(data)[..buf.Length] && data == old(data)[buf.Length..]
      ensures |old(data)| < buf.Length ==> r == Failed(Short(old(data)).error) && data == []
    {
      var n := Min(buf.Length, |data|);
      forall i | 0 <= i < n {
        buf[i] := data[i];
      }
      if n == buf.Length {
        r := Filled;
      } else {
        r := Failed(if n == 0 then EndOfInput else Truncated);
      }
      data := data[n..];
    }
  }

  datatype Sent = Complete | TooLarge | WriteFailed

  datatype ReadResult = Received(frame: Frame) | Rejected(error: Frames.Error)

  // ----- Writing

  method PutBytes(hdr: array<Byte>, off: nat, data: seq<Byte>) returns (next: nat)
    requires off + |data| <= hdr.Length
    modifies hdr
    ensures next == off + |data|
    ensures hdr[..next] == old(hdr[..off]) + data
    ensures forall i :: next <= i < hdr.Length ==> hdr[i] == old(hdr[i])
  {
    next := off + |data|;
    forall i | off <= i < next {
      hdr[i] := data[i - off];
    }
  }

  /** Fills a zeroed header; the four writers differ only in the values they pass. */
  method MakeHeader(f: Frame) returns (hdr: array<Byte>)
    ensures fresh(hdr) && hdr[..] == Header(f, (0, 0))
  {
    hdr := new Byte[HEADER](_ => 0);
    var off := PutBytes(hdr, 0, Put32(MAGIC));
    off := PutBytes(hdr, off, [VERSION, f.kind]);
    assert hdr[..8] == hdr[..6] + [0, 0];
    off := off + 2;
    assert hdr[..off] == Put32(MAGIC) + [VERSION, f.kind, 0, 0];
    off := PutStamps(hdr, off, f);
    off := PutBytes(hdr, off, Put32(f.crc));
    off := PutBytes(hdr, off, Put32(|f.payload|));
    assert hdr[..] == hdr[..off];
  }

  method PutStamps(hdr: array<Byte>, start: nat, f: Frame) returns (off: nat)
    requires start + 40 <= hdr.Length
    modifies hdr
    ensures off == start + 32 && hdr[..off] == old(hdr[..start]) + Stamps(f)
  {
    off := PutBytes(hdr, start, Put64(f.number));
    off := PutBytes(hdr, off, Put64(Unsigned(f.sent)));
    off := PutBytes(hdr, off, Put64(Unsigned(f.serverRecv)));
    off := PutBytes(hdr, off, Put64(Unsigned(f.serverSend)));
  }

  /** The writer has taken as much of the frame's encoding as it had room for, and says whether that was all. */
  twostate predicate Wrote(w: Writer, f: Frame, r: Sent)
    reads w
  {
    var n := Min(|Encode(f)|, old(w.room));
    && w.out == old(w.out) + Encode(f)[..n]
    && r == (if n == |Encode(f)| then Complete else WriteFailed)
  }

  method Send(w: Writer, f: Frame) returns (r: Sent)
    modifies w
    ensures Wrote(w, f, r)
  {
    var hdr := MakeHeader(f);
    var ok := w.Write(hdr[..]);
    if !ok {
      assert Encode(f)[..old(w.room)] == hdr[..][..old(w.room)];
      return WriteFailed;
    }
    assert hdr[..][..HEADER] == hdr[..];
    if |f.payload| == 0 {
      assert Encode(f)[..HEADER] == hdr[..];
      return Complete;
    }
    ok := w.Write(f.payload);
    assert Encode(f)[..HEADER + Min(|f.payload|, old(w.room) - HEADER)]
           == hdr[..] + f.payload[..Min(|f.payload|, old(w.room) - HEADER)];
    r := if ok then Complete else WriteFailed;
  }

  method WriteDataFrame(w: Writer, checksum: Checksum, number: U64, sent: I64, payload: seq<Byte>) returns (r: Sent)
    modifies w
    ensures |payload| >= 0x1_0000_0000 ==> r == TooLarge && w.out == old(w.out)
    ensures |payload| < 0x1_0000_0000 ==> Wrote(w, Frame(1, number, sent, 0, 0, checksum(payload), payload), r)
  {
    if |payload| > 0xffff_ffff {
      return TooLarge;
    }
    r := Send(w, Frame(1, number, sent, 0, 0, checksum(payload), payload));
  }

  method WriteEchoFrame(w: Writer, checksum: Checksum, number: U64, sent: I64, serverRecv: I64, serverSend: I64,
                        payload: seq<Byte>) returns (r: Sent)
    modifies w
    ensures |payload| >= 0x1_0000_0000 ==> r == TooLarge && w.out == old(w.out)
    ensures |payload| < 0x1_0000_0000 ==>
              Wrote(w, Frame(2, number, sent, serverRecv, serverSend, checksum(payload), payload), r)
  {
    if |payload| > 0xffff_ffff {
      return TooLarge;
    }
    r := Send(w, Frame(2, number, sent, serverRecv, serverSend, checksum(payload), payload));
  }

  method WritePingFrame(w: Writer, number: U64, sent: I64) returns (r: Sent)
    modifies w
    ensures Wrote(w, Frame(3, number, sent, 0, 0, 0, []), r)
  {
    r := Send(w, Frame(3, number, sent, 0, 0, 0, []));
  }

  method WritePongFrame(w: Writer, number: U64, sent: I64, serverRecv: I64, serverSend: I64) returns (r: Sent)
    modifies w
    ensures Wrote(w, Frame(4, number, sent, serverRecv, serverSend, 0, []), r)
  {
    r := Send(w, Frame(4, number, sent, serverRecv, serverSend, 0, []));
  }

  // ----- Reading

  method ReadHeader(hdr: array<Byte>) returns (p: Parsed)
    requires hdr.Length == HEADER
    ensures p == Parse(hdr[..])
  {
    var off := 0;
    var magic := Get32(hdr[off..off + 4]);
    off := off + 4;
    var version := hdr[off];
    off := off + 1;
    var kind := hdr[off];
    off := off + 1 + 2;
    var number := Get64(hdr[off..off + 8]);
    off := off + 8;
    var sent := Signed(Get64(hdr[off..off + 8]));
    off := off + 8;
    var serverRecv := Signed(Get64(hdr[off..off + 8]));
    off := off + 8;
    var serverSend := Signed(Get64(hdr[off..off + 8]));
    off := off + 8;
    var crc := Get32(hdr[off..off + 4]);
    off := off + 4;
    var length := Get32(hdr[off..off + 4]);
    p := Parsed(magic, version, Frame(kind, number, sent, serverRecv, serverSend, crc, []), length);
    ghost var h := hdr[..];
    assert h[0..4] == hdr[0..4] && h[40..44] == hdr[40..44] && h[44..48] == hdr[44..48];
    assert h[8..16] == hdr[8..16] && h[16..24] == hdr[16..24] && h[24..32] == hdr[24..32] && h[32..40] == hdr[32..40];
  }

  method ReadFrame(r: Reader, checksum: Checksum, limit: int) returns (res: ReadResult)
    modifies r
    ensures
      match Decode(checksum, old(r.data), limit)
      case Good(f, rest) => res == Received(f) && r.data == rest
      case Bad(e, rest) => res == Rejected(e) && r.data == rest
  {
    var hdr := new Byte[HEADER](_ => 0);
    var full := r.ReadFull(hdr);
    if full.Failed? {
      return Rejected(full.error);
    }
    var p := ReadHeader(hdr);
    if p.magic != MAGIC {
      return Rejected(BadMagic);
    }
    if p.version != VERSION {
      return Rejected(BadVersion);
    }
    if limit > 0 && p.length > limit {
      return Rejected(PayloadTooLarge);
    }
    if p.length == 0 {
      return Received(p.frame);
    }
    var payload := new Byte[p.length](_ => 0);
    full := r.ReadFull(payload);
    if full.Failed? {
      return Rejected(full.error);
    }
    if checksum(payload[..]) != p.frame.crc {
      return Rejected(BadChecksum);
    }
    res := Received(p.frame.(payload := payload[..]));
  }
}
