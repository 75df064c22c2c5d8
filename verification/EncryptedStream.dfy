/** src/encrypted_stream/server.rs and client.rs: the key exchange of each side, and the polls of
    the encrypted stream it returns. */
module EncryptedStream {
  import opened Wrappers
  import opened Bytes
  import opened Noise
  import opened Framing

  /** Snow refuses to use the last nonce. */
  const LAST_NONCE := U64_SIZE - 1

  const MAX_PLAINTEXT := MAX_CHUNK_SIZE - TAG_LEN

  // ----- key exchange -----

  datatype ApprovalStrategy = Interactive | ApproveAll

  /** How a key exchange ends; `ExchangeError` is any error, `ExchangePanic` the panic of approve-all. */
  datatype Exchange = Established(hs: Handshake) | ClientNotAccepted | ExchangeError | ExchangePanic

  /** What `approver.submit` answers for a client id; None is an error. */
  type Approver = seq<Octet> -> Option<bool>

  function ApprovalByte(approved: bool): seq<Octet> {
    [Byte(if approved then 1 else 0)]
  }

  /** The result of the server's `key_exchange` on a stream that brings `input` and then ends or fails,
      and what it writes, as long as it can. */
  function ServerExchange(num: Numeric, input: seq<Octet>, es: SecretKey, ss: SecretKey,
                          strategy: ApprovalStrategy, approve: Approver): (Exchange, seq<Octet>)
  {
    match Recv(num, input)
    case EndOfFile => (ExchangeError, [])
    case Payload(m1, rest) =>
      match ReadMessage(Start(false, es, ss), MSG1, m1)
      case None => (ExchangeError, [])
      case Some(h1) =>
        var w := WriteMessage(h1, MSG2);
        match Recv(num, rest)
        case EndOfFile => (ExchangeError, Frame(w.out))
        case Payload(m3, _) =>
          match ReadMessage(w.hs, MSG3, m3)
          case None => (ExchangeError, Frame(w.out))
          case Some(h3) =>
            if strategy.ApproveAll? then (ExchangePanic, Frame(w.out))
            else
              match approve(h3.rs)
              case None => (ExchangeError, Frame(w.out))
              case Some(true) => (Established(h3), Frame(w.out) + ApprovalByte(true))
              case Some(false) => (ClientNotAccepted, Frame(w.out) + ApprovalByte(false))
  }

  /** The client's `key_exchange` once its first message is out. */
  function ClientReply(num: Numeric, input: seq<Octet>, hs: Handshake): (Exchange, seq<Octet>, seq<Octet>) {
    match Recv(num, input)
    case EndOfFile => (ExchangeError, [], [])
    case Payload(m2, rest) =>
      match ReadMessage(hs, MSG2, m2)
      case None => (ExchangeError, [], rest)
      case Some(h2) =>
        var w3 := WriteMessage(h2, MSG3);
        if rest == [] then (ExchangeError, Frame(w3.out), [])
        else if Value(num, rest[0]) != 1 then (ClientNotAccepted, Frame(w3.out), rest[1..])
        else (Established(w3.hs), Frame(w3.out), rest[1..])
  }

  /** The client's `key_exchange`: its result, what it writes, and what it leaves on the stream. */
  function ClientExchange(num: Numeric, input: seq<Octet>, ec: SecretKey, sc: SecretKey)
    : (Exchange, seq<Octet>, seq<Octet>)
  {
    var w1 := WriteMessage(Start(true, ec, sc), MSG1);
    var (result, out, left) := ClientReply(num, input, w1.hs);
    (result, Frame(w1.out) + out, left)
  }

  /** A write that fails ends an exchange with an error. */
  function Unless(fails: bool, r: Exchange): Exchange {
    if fails then ExchangeError else r
  }

  method ServerKeyExchange(num: Numeric, input: Source, output: Sink, es: SecretKey, ss: SecretKey,
                           strategy: ApprovalStrategy, approve: Approver) returns (r: Exchange)
    modifies input, output
    ensures var ((result, out), room) :=
              (ServerExchange(num, old(input.rest), es, ss, strategy, approve), old(output.room));
            && r == Unless(|out| > room, result)
            && output.written == old(output.written) + out[..Min(|out|, room)]
  {
    hide ReadMessage, WriteMessage, Recv;
    var noise := Start(false, es, ss);
    ghost var out := ServerExchange(num, input.rest, es, ss, strategy, approve).1;
    // <- e
    var msg := ReceiveFrame(num, input);
    if msg.Err? {
      return ExchangeError;
    }
    var read := ReadMessage(noise, MSG1, msg.value);
    if read == None {
      return ExchangeError;
    }
    // -> e, ee, s, es
    var written := WriteMessage(read.value, MSG2);
    ghost var (reply, before, room) := (Frame(written.out), output.written, output.room);
    var sent := SendFrame(output, written.out);
    assert reply <= out;
    if sent == None {
      assert out[..room] == reply[..room];
      return ExchangeError;
    }
    // <- s, se
    msg := ReceiveFrame(num, input);
    if msg.Err? {
      return ExchangeError;
    }
    read := ReadMessage(written.hs, MSG3, msg.value);
    if read == None {
      return ExchangeError;
    }
    noise := read.value;
    if strategy == ApproveAll {
      return ExchangePanic;
    }
    var verdict := approve(noise.rs);
    if verdict == None {
      return ExchangeError;
    }
    var verdictByte := ApprovalByte(verdict.value);
    var ok := output.WriteAll(verdictByte);
    var n := Min(1, room - |reply|);
    assert (reply + verdictByte)[..|reply| + n] == reply + verdictByte[..n];
    assert before + reply + verdictByte[..n] == before + (reply + verdictByte[..n]);
    return Unless(!ok, if verdict.value then Established(noise) else ClientNotAccepted);
  }

  /** The client's exchange from the second message on; when its own message does not go out whole, what
      comes behind the second message stays unread. */
  method ClientReplies(num: Numeric, input: Source, output: Sink, hs: Handshake) returns (r: Exchange)
    modifies input, output
    ensures var ((result, out, left), room) := (ClientReply(num, old(input.rest), hs), old(output.room));
            && r == Unless(|out| > room, result)
            && output.written == old(output.written) + out[..Min(|out|, room)]
            && output.room == room - Min(|out|, room)
            && input.rest == if |out| <= room then left else Recv(num, old(input.rest)).rest
  {
    // <- e, ee, s, es
    var msg := ReceiveFrame(num, input);
    if msg.Err? {
      return ExchangeError;
    }
    var read := ReadMessage(hs, MSG2, msg.value);
    if read == None {
      return ExchangeError;
    }
    // -> s, se
    var w3 := WriteMessage(read.value, MSG3);
    var sent := SendFrame(output, w3.out);
    if sent == None {
      return ExchangeError;
    }
    // the accepted/rejected byte
    var verdict := input.ReadExact(1);
    if verdict.Err? {
      return ExchangeError;
    }
    return if Value(num, verdict.value[0]) != 1 then ClientNotAccepted else Established(w3.hs);
  }

  method ClientKeyExchange(num: Numeric, input: Source, output: Sink, ec: SecretKey, sc: SecretKey)
    returns (r: Exchange)
    modifies input, output
    ensures var ((result, out, left), room) := (ClientExchange(num, old(input.rest), ec, sc), old(output.room));
            && r == Unless(|out| > room, result)
            && output.written == old(output.written) + out[..Min(|out|, room)]
            && (|out| <= room ==> input.rest == left)
            && (room < 2 + LEN1 ==> input.rest == old(input.rest))
  {
    hide ReadMessage, WriteMessage, Recv, BigEndian16;
    // -> e
    var w1 := WriteMessage(Start(true, ec, sc), MSG1);
    ghost var (before, room, first) := (output.written, output.room, Frame(w1.out));
    ghost var reply := ClientReply(num, input.rest, w1.hs).1;
    FirstFrame(ec, sc);
    var sent := SendFrame(output, w1.out);
    if sent == None {
      assert (first + reply)[..room] == first[..room];
      return ExchangeError;
    }
    assert first[..|first|] == first;
    r := ClientReplies(num, input, output, w1.hs);
    ghost var n := Min(|reply|, room - |first|);
    assert (first + reply)[..|first| + n] == first + reply[..n];
    assert before + first + reply[..n] == before + (first + reply[..n]);
  }

  lemma FirstFrame(ec: SecretKey, sc: SecretKey)
    ensures |Frame(WriteMessage(Start(true, ec, sc), MSG1).out)| == 2 + LEN1
  {
    assert MSG1[1..] == [];
  }

  /** The two exchanges, each run on exactly what the other writes, agree: with an approver that
      accepts both are established on the same chaining key and each holds the other's static key;
      with one that refuses both end in ClientNotAccepted. Each takes exactly the octets of the
      exchange and leaves the rest. */
  lemma ExchangesAgree(num: Numeric, k: Secrets, approve: Approver, later: seq<Octet>)
    requires approve(PublicKey(k.sc)).Some?
    ensures var approved := approve(PublicKey(k.sc)).value;
            var (sr, down) := ServerExchange(num, Frame(Write1(k).out) + Frame(Write3(k).out), k.es, k.ss,
                                             Interactive, approve);
            var (cr, up, left) := ClientExchange(num, down + later, k.ec, k.sc);
            && down == Frame(Write2(k).out) + ApprovalByte(approved)
            && up == Frame(Write1(k).out) + Frame(Write3(k).out)
            && left == later
            && (if approved
                then sr == Established(Server3(k)) && cr == Established(Write3(k).hs)
                     && cr.hs.sym == sr.hs.sym && sr.hs.rs == PublicKey(k.sc) && cr.hs.rs == PublicKey(k.ss)
                else sr == cr == ClientNotAccepted)
  {
    ServerHalf(num, k, approve);
    ClientHalf(num, k, approve(PublicKey(k.sc)).value, later);
    HandshakeAgreement(k);
  }

  lemma ServerHalf(num: Numeric, k: Secrets, approve: Approver)
    requires approve(PublicKey(k.sc)).Some?
    ensures var approved := approve(PublicKey(k.sc)).value;
            ServerExchange(num, Frame(Write1(k).out) + Frame(Write3(k).out), k.es, k.ss, Interactive, approve)
            == (if approved then Established(Server3(k)) else ClientNotAccepted,
                Frame(Write2(k).out) + ApprovalByte(approved))
  {
    HandshakeAgreement(k);
    FrameRoundTripExact(num, Write1(k).out, Frame(Write3(k).out));
    FrameRoundTripExact(num, Write3(k).out, []);
    assert Frame(Write3(k).out) + [] == Frame(Write3(k).out);
  }

  lemma ClientHalf(num: Numeric, k: Secrets, approved: bool, later: seq<Octet>)
    ensures ClientExchange(num, Frame(Write2(k).out) + ApprovalByte(approved) + later, k.ec, k.sc)
         == (if approved then Established(Write3(k).hs) else ClientNotAccepted,
             Frame(Write1(k).out) + Frame(Write3(k).out), later)
  {
    HandshakeAgreement(k);
    var after := ApprovalByte(approved) + later;
    assert Frame(Write2(k).out) + ApprovalByte(approved) + later == Frame(Write2(k).out) + after;
    FrameRoundTripExact(num, Write2(k).out, after);
    assert after[1..] == later;
  }

  /** The honest client's messages cut anywhere: an error, and nothing written but the reply, if the first
      of them is whole. */
  lemma ServerCutShort(num: Numeric, k: Secrets, n: nat, strategy: ApprovalStrategy, approve: Approver)
    requires n < 100
    ensures |Frame(Write1(k).out) + Frame(Write3(k).out)| == 100
    ensures ServerExchange(num, (Frame(Write1(k).out) + Frame(Write3(k).out))[..n], k.es, k.ss, strategy, approve)
         == (ExchangeError, if n < 34 then [] else Frame(Write2(k).out))
  {
    HandshakeAgreement(k);
    var (hello, identity) := (Frame(Write1(k).out), Frame(Write3(k).out));
    if n < 34 {
      CutFrameIsEndOfFile(num, Write1(k).out, n);
      assert (hello + identity)[..n] == hello[..n];
    } else {
      FrameRoundTripExact(num, Write1(k).out, identity[..n - 34]);
      CutFrameIsEndOfFile(num, Write3(k).out, n - 34);
      assert (hello + identity)[..n] == hello + identity[..n - 34];
    }
    hide Frame, Recv, ReadMessage, WriteMessage;
  }

  /** And whole: the reply goes out; behind it a one or a zero as the approver says; nothing if it fails, or
      if there is nobody to ask, which is a panic. */
  lemma ServerVerdicts(num: Numeric, k: Secrets, strategy: ApprovalStrategy, approve: Approver)
    ensures var (r, out) := ServerExchange(num, Frame(Write1(k).out) + Frame(Write3(k).out), k.es, k.ss, strategy,
                                           approve);
            var (reply, verdict) := (Frame(Write2(k).out), approve(PublicKey(k.sc)));
            if strategy == ApproveAll then r == ExchangePanic && out == reply
            else if verdict == None then r == ExchangeError && out == reply
            else if verdict == Some(true) then
              r.Established? && r.hs.rs == PublicKey(k.sc) && out == reply + [Byte(1)]
            else r == ClientNotAccepted && out == reply + [Byte(0)]
  {
    HandshakeAgreement(k);
    FrameRoundTripExact(num, Write1(k).out, Frame(Write3(k).out));
    FrameRoundTripExact(num, Write3(k).out, []);
    assert Frame(Write3(k).out) + [] == Frame(Write3(k).out);
    hide Frame, Recv, ReadMessage, WriteMessage;
  }

  /** The honest server's reply and verdict cut anywhere: an error, with nothing unread, and the third
      message written if the reply is whole. */
  lemma ClientCutShort(num: Numeric, k: Secrets, verdict: Octet, n: nat)
    requires n < 99
    ensures |Frame(Write2(k).out) + [verdict]| == 99
    ensures var hello := Frame(Write1(k).out);
            ClientExchange(num, (Frame(Write2(k).out) + [verdict])[..n], k.ec, k.sc)
            == (ExchangeError, if n < 98 then hello else hello + Frame(Write3(k).out), [])
  {
    HandshakeAgreement(k);
    var reply := Frame(Write2(k).out);
    assert Frame(Write1(k).out) + [] == Frame(Write1(k).out);
    if n < 98 {
      CutFrameIsEndOfFile(num, Write2(k).out, n);
      assert (reply + [verdict])[..n] == reply[..n];
    } else {
      FrameRoundTripExact(num, Write2(k).out, []);
      assert (reply + [verdict])[..n] == reply + [] == reply;
    }
    hide Frame, Recv, ReadMessage, WriteMessage;
  }

  /** And whole: the client is established exactly if the verdict is a one, and leaves what comes behind it. */
  lemma ClientVerdicts(num: Numeric, k: Secrets, verdict: byte, later: seq<Octet>)
    ensures var (r, out, left) := ClientExchange(num, Frame(Write2(k).out) + [Byte(verdict)] + later, k.ec, k.sc);
            && (if verdict == 1 then r.Established? && r.hs.rs == PublicKey(k.ss) else r == ClientNotAccepted)
            && out == Frame(Write1(k).out) + Frame(Write3(k).out) && left == later
  {
    HandshakeAgreement(k);
    var after := [Byte(verdict)] + later;
    assert Frame(Write2(k).out) + [Byte(verdict)] + later == Frame(Write2(k).out) + after;
    FrameRoundTripExact(num, Write2(k).out, after);
    assert after[1..] == later;
    hide Frame, Recv, ReadMessage, WriteMessage;
  }

  /** A first message that is too short, and octets in clear for a third, are an error, at which the server
      writes no more. */
  lemma ServerRejects(num: Numeric, k: Secrets, m: seq<Octet>, rest: seq<Octet>, strategy: ApprovalStrategy,
                      approve: Approver)
    requires |m| <= 65535
    ensures |m| < 32 ==> ServerExchange(num, Frame(m) + rest, k.es, k.ss, strategy, approve) == (ExchangeError, [])
    ensures (m != [] ==> m[0].Byte?) ==>
              ServerExchange(num, Frame(Write1(k).out) + Frame(m) + rest, k.es, k.ss, strategy, approve)
              == (ExchangeError, Frame(Write2(k).out))
  {
    FrameRoundTripExact(num, m, rest);
    HandshakeAgreement(k);
    SecondMessage(k);
    assert Frame(Write1(k).out) + Frame(m) + rest == Frame(Write1(k).out) + (Frame(m) + rest);
    FrameRoundTripExact(num, Write1(k).out, Frame(m) + rest);
    if m != [] ==> m[0].Byte? {
      PlainIdentityFails(Write2(k).hs, m);
    }
    hide Frame, Recv, WriteMessage;
  }

  /** So are octets in clear for a second one, at which the client writes no more. */
  lemma ClientRejects(num: Numeric, k: Secrets, m: seq<Octet>, rest: seq<Octet>)
    requires |m| <= 65535 && forall i :: 0 <= i < |m| ==> m[i].Byte?
    ensures ClientExchange(num, Frame(m) + rest, k.ec, k.sc) == (ExchangeError, Frame(Write1(k).out), rest)
  {
    FrameRoundTripExact(num, m, rest);
    PlainReplyFails(Write1(k).hs, m);
    assert Frame(Write1(k).out) + [] == Frame(Write1(k).out);
    hide Frame, Recv, ReadMessage;
  }

  // ----- writing the file -----

  /** Frame number `nonce` of the transport phase. */
  function SealedFrame(key: Key, nonce: nat, chunk: seq<byte>): (f: seq<Octet>)
    ensures |f| == |chunk| + 18
  {
    Frame(Seal(key, nonce, [], Plain(chunk)))
  }

  /** `write_message` fails, and `poll_write` panics, on a chunk that does not fit the 65535-byte
      buffer together with its tag, and on the last nonce. */
  predicate CanSeal(nonce: nat, chunk: seq<byte>) {
    |chunk| <= MAX_PLAINTEXT && nonce < LAST_NONCE
  }

  datatype WritePoll = WriteReady(reported: nat) | WritePending | WriteError | WritePanic

  class EncryptedWriteStream {
    const key: Key
    var nonce: nat
    var underlying: Sink

    constructor (hs: Handshake, stream: Sink)
      ensures key == ToInitiator(hs.sym.ck) && nonce == 0 && underlying == stream
    {
      key := ToInitiator(hs.sym.ck);
      nonce := 0;
      underlying := stream;
    }

    /** One poll while the stream below accepts at most `accept` octets, or fails before. The `send`
        future is made anew by every poll, so when it is pending its position in the frame is lost with
        it; the nonce has moved on all the same. */
    method PollWrite(buf: seq<byte>, accept: nat) returns (r: WritePoll)
      modifies this`nonce, underlying
      ensures !CanSeal(old(nonce), buf) ==>
                r == WritePanic && nonce == old(nonce) && underlying.written == old(underlying.written)
      ensures CanSeal(old(nonce), buf) ==>
                var frame := SealedFrame(key, old(nonce), buf);
                var (n, room) := (Min(accept, |frame|), old(underlying.room));
                && nonce == old(nonce) + 1
                && r == (if room < n then WriteError else if n < |frame| then WritePending else WriteReady(|frame|))
                && underlying.written == old(underlying.written) + frame[..Min(n, room)]
    {
      if |buf| + TAG_LEN > MAX_CHUNK_SIZE || nonce >= LAST_NONCE {
        return WritePanic;
      }
      ghost var (before, room) := (underlying.written, underlying.room);
      var msg := Seal(key, nonce, [], Plain(buf));
      nonce := nonce + 1;
      var lengthBuf := BigEndian16(|msg| % U16_SIZE);
      if accept < 2 {
        var ok := underlying.WriteAll(lengthBuf[..accept]);
        assert Frame(msg)[..Min(accept, room)] == lengthBuf[..accept][..Min(accept, room)];
        return if ok then WritePending else WriteError;
      }
      var ok := underlying.WriteAll(lengthBuf);
      if !ok {
        assert Frame(msg)[..room] == lengthBuf[..room];
        return WriteError;
      }
      assert lengthBuf[..2] == lengthBuf;
      var part := msg[..Min(accept - 2, |msg|)];
      ok := underlying.WriteAll(part);
      ghost var n := Min(|part|, room - 2);
      assert Frame(msg)[..2 + n] == lengthBuf + part[..n];
      assert before + lengthBuf + part[..n] == before + (lengthBuf + part[..n]);
      return if !ok then WriteError else if accept - 2 < |msg| then WritePending else WriteReady(2 + |msg|);
    }
  }

  // ----- reading the file -----

  datatype ReadPoll = Got(data: seq<Octet>) | ReadPending | DecryptionError

  /** What one `poll_read` with room for `cap` bytes returns when the stream below yields `arrived`
      and then is pending, or at its end. */
  function DecodePoll(num: Numeric, key: Key, nonce: nat, cap: nat, arrived: seq<Octet>, ended: bool): ReadPoll {
    match Recv(num, arrived)
    case EndOfFile => if ended then Got([]) else ReadPending
    case Payload(msg, _) =>
      match Open(key, nonce, [], msg)
      case None => DecryptionError
      case Some(plain) => if |plain| <= cap then Got(plain) else DecryptionError
  }

  /** The octets that poll takes off the stream: a whole frame, or everything there is. */
  function TakenByPoll(num: Numeric, arrived: seq<Octet>): (n: nat)
    ensures n <= |arrived|
  {
    if Recv(num, arrived).Payload? then FrameLength(num, arrived) else |arrived|
  }

  class EncryptedReadStream {
    const key: Key
    var nonce: nat
    var underlying: Source

    constructor (hs: Handshake, stream: Source)
      ensures key == ToInitiator(hs.sym.ck) && nonce == 0 && underlying == stream
    {
      key := ToInitiator(hs.sym.ck);
      nonce := 0;
      underlying := stream;
    }

    /** One poll while `available` octets can be had from the stream below; `ended` says that it ends
        behind them, with an error if it is broken. The `recv` future is dropped at the end of the poll
        with what it read. None is a panic: an error other than the end of the file. */
    method PollRead(num: Numeric, cap: nat, available: nat, ended: bool) returns (r: Option<ReadPoll>)
      requires available <= |underlying.rest|
      modifies this`nonce, underlying
      ensures var arrived := old(underlying.rest)[..available];
              && r == (if ended && underlying.broken && Recv(num, arrived).EndOfFile? then None
                       else Some(DecodePoll(num, key, old(nonce), cap, arrived, ended)))
              && underlying.rest == old(underlying.rest)[TakenByPoll(num, arrived)..]
              && nonce == (if r.Some? && Recv(num, arrived).Payload? && r.value.Got? then old(nonce) + 1
                           else old(nonce))
    {
      ghost var before := underlying.rest;
      ghost var arrived := before[..available];
      if available < 2 {
        var _ := underlying.ReadExact(available);
        return EndOf(ended);
      }
      var lengthBuf := underlying.ReadExact(2);
      var length: nat := Value(num, lengthBuf.value[0]) * 256 + Value(num, lengthBuf.value[1]);
      assert FrameLength(num, arrived) == 2 + length;
      if available - 2 < length {
        var _ := underlying.ReadExact(available - 2);
        return EndOf(ended);
      }
      var msg := underlying.ReadExact(length);
      assert msg.value == arrived[2..2 + length];
      var plain := Open(key, nonce, [], msg.value);
      if plain == None || |plain.value| > cap {
        return Some(DecryptionError);
      }
      nonce := nonce + 1;
      return Some(Got(plain.value));
    }

    /** The poll has used up what there was. */
    function EndOf(ended: bool): Option<ReadPoll>
      reads this`underlying
    {
      if !ended then Some(ReadPending) else if underlying.broken then None else Some(Got([]))
    }
  }

  /** A sealed chunk of up to 65519 bytes: its ciphertext fits the buffer, the 16-bit length loses
      nothing, and the reader at the same nonce gets the chunk back and takes just its frame. */
  lemma SealedFrameDecodes(num: Numeric, key: Key, nonce: nat, cap: nat, chunk: seq<byte>, tail: seq<Octet>,
                           ended: bool)
    requires |chunk| <= MAX_PLAINTEXT
    ensures var arrived := SealedFrame(key, nonce, chunk) + tail;
            && Recv(num, arrived) == Payload(Seal(key, nonce, [], Plain(chunk)), tail)
            && TakenByPoll(num, arrived) == |chunk| + 18
            && DecodePoll(num, key, nonce, cap, arrived, ended)
               == (if |chunk| <= cap then Got(Plain(chunk)) else DecryptionError)
  {
    FrameRoundTripExact(num, Seal(key, nonce, [], Plain(chunk)), tail);
    var arrived := SealedFrame(key, nonce, chunk) + tail;
    FrameHeader(num, Seal(key, nonce, [], Plain(chunk)), tail);
  }
}
