/** src/encrypted_stream/mod.rs: messages on a byte stream, a 16-bit big-endian length in front. */
module Framing {
  import opened Wrappers
  import opened Bytes
  import opened Noise

  const MAX_CHUNK_SIZE := 65535

  /** How a receiver would read an octet of a key or of a ciphertext as a number. The model does
      not know, so everything is proved for every choice. */
  type Numeric = Octet -> byte

  function Value(num: Numeric, o: Octet): byte {
    if o.Byte? then o.b else num(o)
  }

  function BigEndian16(n: nat): (s: seq<Octet>)
    ensures |s| == 2
  {
    [Byte(n / 256 % 256), Byte(n % 256)]
  }

  /** What `send` puts on the stream; the length goes through `as u16`. */
  function Frame(payload: seq<Octet>): (f: seq<Octet>)
    ensures |f| == 2 + |payload|
  {
    BigEndian16(|payload| % U16_SIZE) + payload
  }

  /** The number of octets `recv` takes, given the first two. */
  function FrameLength(num: Numeric, s: seq<Octet>): nat
    requires |s| >= 2
  {
    2 + Value(num, s[0]) * 256 + Value(num, s[1])
  }

  datatype Received = Payload(payload: seq<Octet>, rest: seq<Octet>) | EndOfFile

  /** What `recv` makes of a stream that holds `s` and then ends. */
  function Recv(num: Numeric, s: seq<Octet>): Received {
    if |s| < 2 || |s| < FrameLength(num, s) then EndOfFile
    else Payload(s[2..FrameLength(num, s)], s[FrameLength(num, s)..])
  }

  lemma FrameHeader(num: Numeric, payload: seq<Octet>, tail: seq<Octet>)
    ensures FrameLength(num, Frame(payload) + tail) == 2 + |payload| % U16_SIZE
  {
  }

  /** The layout of a frame: the length modulo 65536 in two plain bytes, the more significant one first,
      and then the payload. */
  lemma FrameLayout(payload: seq<Octet>)
    ensures var f := Frame(payload);
            && f[0].Byte? && f[1].Byte? && f[0].b * 256 + f[1].b == |payload| % 65536
            && f[2..] == payload
  {
  }

  /** A frame is read back as the payload that went in exactly when the payload fits in the
      16-bit length. */
  lemma FrameRoundTripExact(num: Numeric, payload: seq<Octet>, tail: seq<Octet>)
    ensures |payload| <= 65535 <==> Recv(num, Frame(payload) + tail) == Payload(payload, tail)
  {
  }

  /** A frame cut anywhere is end of file, never another payload. */
  lemma CutFrameIsEndOfFile(num: Numeric, payload: seq<Octet>, k: nat)
    requires |payload| <= MAX_CHUNK_SIZE && k < |Frame(payload)|
    ensures Recv(num, Frame(payload)[..k]) == EndOfFile
  {
  }

  /** What is taken from a stream depends only on the octets taken. */
  lemma RecvIsLocal(num: Numeric, s: seq<Octet>, tail: seq<Octet>)
    requires Recv(num, s).Payload?
    ensures Recv(num, s + tail) == Payload(Recv(num, s).payload, Recv(num, s).rest + tail)
  {
  }

  function Frames(payloads: seq<seq<Octet>>): seq<Octet> {
    if payloads == [] then [] else Frame(payloads[0]) + Frames(payloads[1..])
  }

  /** `count` calls of `recv` in a row: the payloads, and the stream they leave. */
  function RecvMany(num: Numeric, s: seq<Octet>, count: nat): Option<(seq<seq<Octet>>, seq<Octet>)> {
    if count == 0 then Some(([], s))
    else
      match Recv(num, s)
      case EndOfFile => None
      case Payload(p, rest) =>
        match RecvMany(num, rest, count - 1)
        case None => None
        case Some((ps, left)) => Some(([p] + ps, left))
  }

  lemma FirstOfMany(num: Numeric, s: seq<Octet>, p: seq<Octet>, rest: seq<Octet>, ps: seq<seq<Octet>>, left: seq<Octet>)
    requires Recv(num, s) == Payload(p, rest) && RecvMany(num, rest, |ps|) == Some((ps, left))
    ensures RecvMany(num, s, |ps| + 1) == Some(([p] + ps, left))
  {
    hide Recv;
  }

  lemma FramesSplit(payloads: seq<seq<Octet>>, tail: seq<Octet>)
    requires payloads != []
    ensures Frames(payloads) + tail == Frame(payloads[0]) + (Frames(payloads[1..]) + tail)
  {
    hide Frame;
    assert Frame(payloads[0]) + Frames(payloads[1..]) + tail == Frame(payloads[0]) + (Frames(payloads[1..]) + tail);
  }

  /** Frames delimit themselves: any list of payloads comes back as that list, and whatever follows
      on the stream is left alone. */
  lemma {:induction false} FramesSelfDelimiting(num: Numeric, payloads: seq<seq<Octet>>, tail: seq<Octet>)
    requires forall i :: 0 <= i < |payloads| ==> |payloads[i]| <= 65535
    ensures RecvMany(num, Frames(payloads) + tail, |payloads|) == Some((payloads, tail))
  {
    if payloads == [] {
      assert Frames(payloads) + tail == tail;
    } else {
      var (first, others) := (payloads[0], payloads[1..]);
      var more := Frames(others) + tail;
      FramesSplit(payloads, tail);
      hide Frames, Recv, Frame, RecvMany;
      FrameRoundTripExact(num, first, more);
      FramesSelfDelimiting(num, others, tail);
      FirstOfMany(num, Frame(first) + more, first, more, others, tail);
      assert [first] + others == payloads;
    }
  }

  // ----- the stream operations -----

  datatype IoError = UnexpectedEof | OtherError

  /** The reading side of a connection: what its peer sends, and whether it ends behind that with an
      error or by being closed. */
  class Source {
    var rest: seq<Octet>
    const broken: bool

    constructor (s: seq<Octet>, broken: bool)
      ensures rest == s && this.broken == broken
    {
      rest := s;
      this.broken := broken;
    }

    /** One read: at least one octet unless the stream has ended, at most `n`. */
    method Read(n: nat) returns (r: Result<seq<Octet>, IoError>)
      modifies this
      ensures r.Ok? ==> |r.value| <= n && r.value + rest == old(rest)
      ensures r.Ok? && r.value == [] ==> n == 0 || (old(rest) == [] && !broken)
      ensures r.Err? ==> r.error == OtherError && n > 0 && old(rest) == rest == [] && broken
    {
      if n == 0 {
        return Ok([]);
      }
      if rest == [] {
        return if broken then Err(OtherError) else Ok([]);
      }
      var k: nat :| 1 <= k <= n && k <= |rest|;
      r := Ok(rest[..k]);
      rest := rest[k..];
    }

    method ReadExact(n: nat) returns (r: Result<seq<Octet>, IoError>)
      modifies this
      ensures |old(rest)| >= n ==> r == Ok(old(rest)[..n]) && rest == old(rest)[n..]
      ensures |old(rest)| < n ==> r == Err(if broken then OtherError else UnexpectedEof) && rest == []
    {
      var buf: seq<Octet> := [];
      while |buf| < n
        invariant |buf| <= n && buf + rest == old(rest)
        decreases n - |buf|
      {
        var got := Read(n - |buf|);
        if got.Err? {
          return got;
        }
        if got.value == [] {
          return Err(UnexpectedEof);
        }
        buf := buf + got.value;
      }
      return Ok(buf);
    }
  }

  /** The writing side of a connection: what has gone out on it, and how many octets it will still take
      before it fails. */
  class Sink {
    var written: seq<Octet>
    var room: nat

    constructor (room: nat)
      ensures written == [] && this.room == room
    {
      written, this.room := [], room;
    }

    /** One write: at least one octet of a non-empty buffer, or an error. */
    method Write(buf: seq<Octet>) returns (r: Option<nat>)
      modifies this
      ensures match r
              case Some(n) =>
                && n <= |buf| && (n == 0 <==> buf == [])
                && written == old(written) + buf[..n] && room + n == old(room)
              case None => buf != [] && old(room) == 0 && written == old(written) && room == old(room)
    {
      var n := 0;
      if buf != [] {
        if room == 0 {
          return None;
        }
        n :| 1 <= n <= |buf| && n <= room;
      }
      written, room := written + buf[..n], room - n;
      return Some(n);
    }

    method WriteAll(buf: seq<Octet>) returns (ok: bool)
      modifies this
      ensures ok <==> |buf| <= old(room)
      ensures written == old(written) + buf[..Min(|buf|, old(room))]
      ensures room == old(room) - Min(|buf|, old(room))
    {
      var done := 0;
      while done < |buf|
        invariant done <= |buf| && done <= old(room)
        invariant written == old(written) + buf[..done] && room == old(room) - done
      {
        var n := Write(buf[done..]);
        if n == None {
          return false;
        }
        assert buf[..done] + buf[done..][..n.value] == buf[..done + n.value];
        done := done + n.value;
      }
      return true;
    }
  }

  method ReceiveFrame(num: Numeric, stream: Source) returns (r: Result<seq<Octet>, IoError>)
    modifies stream
    ensures match Recv(num, old(stream.rest))
            case Payload(p, rest) => r == Ok(p) && stream.rest == rest
            case EndOfFile => r == Err(if stream.broken then OtherError else UnexpectedEof) && stream.rest == []
  {
    var before := stream.rest;
    var lengthBuf := stream.ReadExact(2);
    if lengthBuf.Err? {
      return lengthBuf;
    }
    var length: nat := Value(num, lengthBuf.value[0]) * 256 + Value(num, lengthBuf.value[1]);
    assert lengthBuf.value == before[..2] && FrameLength(num, before) == 2 + length;
    r := stream.ReadExact(length);
    if |before| >= 2 + length {
      assert before[2..][..length] == before[2..2 + length];
      assert before[2..][length..] == before[2 + length..];
    }
  }

  method SendFrame(stream: Sink, buf: seq<Octet>) returns (r: Option<nat>)
    modifies stream
    ensures var (frame, room) := (Frame(buf), old(stream.room));
            && r == (if |frame| <= room then Some(|frame|) else None)
            && stream.written == old(stream.written) + frame[..Min(|frame|, room)]
            && stream.room == room - Min(|frame|, room)
  {
    var (before, room) := (stream.written, stream.room);
    var lengthBuf := BigEndian16(|buf| % U16_SIZE);
    var ok := stream.WriteAll(lengthBuf);
    if !ok {
      assert Frame(buf)[..room] == lengthBuf[..room];
      return None;
    }
    ok := stream.WriteAll(buf);
    assert lengthBuf[..2] == lengthBuf;
    var n := Min(|buf|, room - 2);
    assert Frame(buf)[..2 + n] == lengthBuf + buf[..n];
    assert before + lengthBuf + buf[..n] == before + (lengthBuf + buf[..n]);
    return if ok then Some(|lengthBuf| + |buf|) else None;
  }
}
