/** A connection on which nothing fails runs to its end: some side can always step, the number of
    steps is bounded, and the end is the whole file or a refusal that both sides know of. */
module SessionProgress {
  import opened Wrappers
  import opened Bytes
  import opened Noise
  import opened Framing
  import opened EncryptedStream
  import opened Models
  import opened Session
  import opened SessionSafety
  import opened SessionLosses

  /** Buffers such that every chunk can be sealed and every frame fits its reader, and a name that
      the header can carry. */
  ghost predicate Sound(cfg: Config) {
    && cfg.Valid()
    && |cfg.info.dataName| <= MAX_NAME
    && 1 <= cfg.writerCap <= MAX_PLAINTEXT && cfg.writerCap <= cfg.readerCap
  }

  /** A step without failure: write polls complete their frame, read polls deliver something or meet
      the end with nothing left behind. */
  predicate Clean(cfg: Config, s: Session, step: Step) {
    match step
    case WriteHeader(k) => k == HeaderPiece(cfg, s.server)
    case PollWrite(accept) => if cfg.info.encrypted then accept >= |s.server.chunk| + 18 else accept >= 1
    case PollRead(available, ended) =>
      s.downPos + available <= |s.down| &&
      if cfg.info.encrypted && !(ended && available == 0) then
        Recv(cfg.num, s.down[s.downPos..s.downPos + available]).Payload?
      else true
    case ApproverError => false
    case ServerError => false
    case ClientError => false
    case DiskFull(_) => false
    case Cut(_) => false
    case _ => true
  }

  /** Nothing has failed so far, and a side that has stopped has stopped at its proper end. */
  predicate Unharmed(cfg: Config, s: Session) {
    var (sv, cl) := (s.server, s.client);
    && s.cutAt == None
    && AllComplete(sv.attempts)
    && (forall i :: 0 <= i < |sv.attempts| ==> |sv.attempts[i].chunk| <= cfg.writerCap)
    && |sv.chunk| <= cfg.writerCap
    && cl.lost == 0
    && (sv.status == Running || sv.status == Finished || sv.status == Refused)
    && (cl.status == Running || cl.status == Finished || cl.status == Refused)
    && (cl.status == Finished ==> cl.ending == Some(EndOfStream))
  }

  // ----- clean steps keep a connection unharmed -----

  /** While all polls complete, there are no more of them than bytes they carried. */
  lemma {:induction false} PollsPerByte(file: seq<byte>, polls: seq<Attempt>)
    requires PollsFrom(file, polls) && AllComplete(polls)
    ensures |polls| <= CompletedLen(polls)
    decreases |polls|
  {
    if polls == [] {
    } else {
      AllCompletePrefix(polls, |polls| - 1);
      PollsPerByte(file, polls[..|polls| - 1]);
    }
  }

  /** What any clean poll of such a client gets: the next chunk, or the end of the stream. */
  lemma CleanPoll(cfg: Config, x: Script, s: Session, available: nat, ended: bool)
    requires Sound(cfg) && Works(cfg, x) && Inv(cfg, x, s) && Unharmed(cfg, s) && cfg.info.encrypted
    requires CanPollRead(cfg, s, available, ended) && Clean(cfg, s, PollRead(available, ended))
    ensures var arrived := s.down[s.downPos..s.downPos + available];
            var r := DecodePoll(cfg.num, ClientKey(s.client), s.client.nonce, cfg.readerCap, arrived, ended);
            if Recv(cfg.num, arrived).Payload? then r.Got?
            else arrived == [] && ended && r == Got([]) && TakenByPoll(cfg.num, arrived) == 0
  {
    hide ServerInv, ClientReads, ClientScript, ClientDisk, SealedFrame, Frame, Seal, Open, ReadMessage, WriteMessage;
    FrameAhead(cfg, x, s);
    if s.client.nonce < |s.server.attempts| {
      PollBeforeFrame(cfg, x, s, available, ended);
    }
  }

  lemma CleanServerRead(cfg: Config, x: Script, s: Session, k: nat)
    requires Works(cfg, x) && Inv(cfg, x, s) && s.server.status == Running && CanServerRead(cfg, s, k)
    ensures DoServerRead(cfg, s, k).server.status == Running
  {
    hide ReadMessage, WriteMessage, FrameDone, FrameTakes, Frame, ClientReads, ClientDisk, ServerCopies;
    UpFollowsScript(cfg, x, s);
    if s.server.pc == ReceivingHello {
      ServerReadsOn(cfg, x, s, k, 0, x.hello);
      assert x.hello[..|x.hello|] == x.hello;
    } else {
      ServerReadsOn(cfg, x, s, k, |x.hello|, x.identity);
      assert x.identity[..|x.identity|] == x.identity;
    }
  }

  lemma CleanClientRead(cfg: Config, x: Script, s: Session, k: nat)
    requires Sound(cfg) && Works(cfg, x) && Inv(cfg, x, s) && s.client.status == Running && CanClientRead(cfg, s, k)
    ensures var status := DoClientRead(cfg, s, k).client.status; status == Running || status == Refused
  {
    hide ReadMessage, WriteMessage, FrameDone, FrameTakes, Frame, ServerInv, ReadHeader, HeaderDone, Values, ClientDisk;
    match s.client.pc
    case ReadingHeader =>
      PartOfHeader(cfg, x, s, k);
      HeaderCutShort(cfg.info, s.downPos + k);
    case ReceivingReply =>
      ClientReadsOn(cfg, x, s, k);
      assert x.reply[..|x.reply|] == x.reply;
    case _ =>
  }

  lemma CleanPollWrite(cfg: Config, x: Script, s: Session, accept: nat)
    requires Sound(cfg) && Inv(cfg, x, s) && Unharmed(cfg, s) && s.server.status == Running
    requires s.server.pc == Copying && s.server.chunk != [] && Clean(cfg, s, PollWrite(accept))
    ensures Unharmed(cfg, DoPollWrite(cfg, s, accept))
    ensures var s' := DoPollWrite(cfg, s, accept);
            && s'.server.status == Running && s'.server.off > s.server.off
            && (s'.server.chunk == [] || s'.server.off - s.server.off == |s.server.chunk| - |s'.server.chunk|)
            && (cfg.info.encrypted ==> s'.server.chunk == [])
            && s'.server == s.server.(attempts := s'.server.attempts, off := s'.server.off, chunk := s'.server.chunk)
  {
    hide ServerReads, ServerScript, ClientInv, Wire, SealedFrame;
    if cfg.info.encrypted {
      PollsPerByte(cfg.file, s.server.attempts);
    }
  }

  lemma CleanPollRead(cfg: Config, x: Script, s: Session, available: nat, ended: bool)
    requires Sound(cfg) && Works(cfg, x) && Inv(cfg, x, s) && Unharmed(cfg, s) && s.client.status == Running
    requires CanPollRead(cfg, s, available, ended) && Clean(cfg, s, PollRead(available, ended))
    ensures var s' := DoPollRead(cfg, s, available, ended);
            && Unharmed(cfg, s') && s'.server == s.server
            && (s'.client.status == Finished || |s'.client.received| > |s.client.received|)
            && s'.client.pc == Draining
  {
    hide ServerInv, ClientReads, ClientScript, ClientHasPolls, Works, ReadMessage, WriteMessage,
         DecodePoll, Recv, TakenByPoll;
    if cfg.info.encrypted {
      CleanPoll(cfg, x, s, available, ended);
      if Recv(cfg.num, s.down[s.downPos..s.downPos + available]).Payload? {
        PollDelivers(cfg, x, s, available, ended);
      }
    }
  }

  lemma CleanServerUnharmed(cfg: Config, x: Script, s: Session, step: Step)
    requires Sound(cfg) && Works(cfg, x) && Inv(cfg, x, s) && Unharmed(cfg, s) && s.server.status == Running
    requires OfServer(step) && ServerStep(cfg, s, step).Some? && Clean(cfg, s, step)
    ensures Unharmed(cfg, ServerStep(cfg, s, step).value)
  {
    hide ServerInv, ClientInv, Works, ReadMessage, WriteMessage, DoPollWrite;
    match step
    case ServerRead(k) => CleanServerRead(cfg, x, s, k);
    case PollWrite(accept) => CleanPollWrite(cfg, x, s, accept);
    case _ =>
  }

  lemma CleanClientUnharmed(cfg: Config, x: Script, s: Session, step: Step)
    requires Sound(cfg) && Works(cfg, x) && Inv(cfg, x, s) && Unharmed(cfg, s) && s.client.status == Running
    requires !OfServer(step) && ClientStep(cfg, s, step).Some? && Clean(cfg, s, step)
    ensures Unharmed(cfg, ClientStep(cfg, s, step).value)
  {
    hide ServerInv, ClientInv, Works, ReadMessage, WriteMessage, DoPollRead, ReadHeader, Recv;
    match step
    case ClientRead(k) => CleanClientRead(cfg, x, s, k);
    case PollRead(available, ended) => CleanPollRead(cfg, x, s, available, ended);
    case _ =>
  }

  // ----- a bound on the steps -----

  /** Octets and control steps the server has before it, at most. */
  function ServerWork(cfg: Config, sv: Server): int {
    var copy := 2 * |cfg.file| + 2;
    var (len1, len2, len3) := (2 + LEN1, 2 + LEN2, 2 + LEN3);
    if sv.status != Running then 0
    else
      match sv.pc
      case SendingHeader => |sv.out| + len1 + len2 + len3 + 3 + copy
      case ReceivingHello => len1 - |sv.got| + len2 + len3 + 3 + copy
      case SendingReply => |sv.out| + len3 + 3 + copy
      case ReceivingStatic => len3 - |sv.got| + 3 + copy
      case Submitting => 3 + copy
      case Awaiting => 2 + copy
      case SendingVerdict => |sv.out| + copy
      case Copying => 2 * (|cfg.file| - sv.off) + 1 + if sv.chunk == [] then 1 else 0
  }

  function ClientWork(cfg: Config, cl: Client): int {
    var drain := |cfg.file| + 1;
    var (len1, len2, len3) := (2 + LEN1, 2 + LEN2, 2 + LEN3);
    if cl.status != Running then 0
    else
      match cl.pc
      case ReadingHeader => |HeaderBytes(cfg.info)| - |cl.got| + len1 + len2 + len3 + 1 + drain
      case SendingHello => |cl.out| + len2 + len3 + 1 + drain
      case ReceivingReply => len2 - |cl.got| + len3 + 1 + drain
      case SendingStatic => |cl.out| + 1 + drain
      case AwaitingVerdict => 1 + drain
      case Draining => drain - |cl.received|
  }

  lemma ServerWorks(cfg: Config, x: Script, s: Session, step: Step)
    requires Sound(cfg) && Works(cfg, x) && Inv(cfg, x, s) && Unharmed(cfg, s) && s.server.status == Running
    requires OfServer(step) && ServerStep(cfg, s, step).Some? && Clean(cfg, s, step)
    ensures 0 <= ServerWork(cfg, ServerStep(cfg, s, step).value.server) < ServerWork(cfg, s.server)
  {
    hide ClientReads, ClientDisk, ClientHasPolls, ClientHasPlain, PollsFrom, CompletedLen, ServerScript,
         ReadMessage, WriteMessage, DoPollWrite, DoServerRead;
    match step
    case ServerRead(k) =>
      UpFollowsScript(cfg, x, s);
      ReadWork(cfg, x, s, k);
    case PollWrite(accept) => CleanPollWrite(cfg, x, s, accept);
      PollWriteInBounds(cfg, x, s, accept);
    case _ => OtherServerWork(cfg, x, s, step);
  }

  lemma OtherServerWork(cfg: Config, x: Script, s: Session, step: Step)
    requires Sound(cfg) && Inv(cfg, x, s) && s.server.status == Running && !step.ServerRead? && !step.PollWrite?
    requires OfServer(step) && ServerStep(cfg, s, step).Some? && Clean(cfg, s, step)
    ensures 0 <= ServerWork(cfg, ServerStep(cfg, s, step).value.server) < ServerWork(cfg, s.server)
  {
    var sv := s.server;
    assert if sv.pc == Copying then sv.off + |sv.chunk| <= |cfg.file| else sv.off == 0;
    assert sv.pc == SendingReply || sv.pc == SendingHeader ==> sv.got == [];
    hide Inv, Sound, DoPollWrite, DoServerRead, DoServerWrite, HeaderBytes, HeaderStops;
    match step
    case WriteHeader(k) => WriteWork(cfg, s, k);
    case ServerWrite(k) => WriteWork(cfg, s, k);
    case _ =>
  }

  lemma WriteWork(cfg: Config, s: Session, k: nat)
    requires CanServerWrite(s, k) && s.server.status == Running
    requires s.server.pc == SendingReply || s.server.pc == SendingHeader ==> s.server.got == []
    requires s.server.off == 0
    ensures 0 <= ServerWork(cfg, DoServerWrite(cfg, s, k).server) < ServerWork(cfg, s.server)
  {
  }

  lemma PollWriteInBounds(cfg: Config, x: Script, s: Session, accept: nat)
    requires Inv(cfg, x, s) && s.server.status == Running && s.server.pc == Copying && s.server.chunk != []
    ensures DoPollWrite(cfg, s, accept).server.off <= |cfg.file|
  {
    hide ServerReads, ServerScript, ClientInv, SealedFrame;
  }

  lemma ReadWork(cfg: Config, x: Script, s: Session, k: nat)
    requires Works(cfg, x) && ServerInv(cfg, x, s) && s.up <= x.hello + x.identity
    requires s.server.status == Running && CanServerRead(cfg, s, k)
    ensures 0 <= ServerWork(cfg, DoServerRead(cfg, s, k).server) < ServerWork(cfg, s.server)
  {
    assert k >= 1;
    hide ReadMessage, WriteMessage, FrameDone, FrameTakes, Frame, ServerCopies, ServerScript, DoServerRead, ServerWork;
    if s.server.pc == ReceivingHello {
      ServerReadsOn(cfg, x, s, k, 0, x.hello);
      HelloReadWork(cfg, x, s, k);
    } else {
      ServerReadsOn(cfg, x, s, k, |x.hello|, x.identity);
      IdentityReadWork(cfg, x, s, k);
    }
  }

  lemma HelloReadWork(cfg: Config, x: Script, s: Session, k: nat)
    requires Works(cfg, x) && s.server.status == Running && k >= 1 && CanServerRead(cfg, s, k)
    requires s.server.pc == ReceivingHello && s.server.noise == x.server0 && |s.server.got| + k <= |x.hello|
    requires s.server.got + s.up[s.upPos..s.upPos + k] == x.hello[..|s.server.got| + k]
    requires FrameDone(cfg.num, x.hello[..|s.server.got| + k]) <==> |s.server.got| + k == |x.hello|
    ensures 0 <= ServerWork(cfg, DoServerRead(cfg, s, k).server) < ServerWork(cfg, s.server)
  {
    hide ReadMessage, WriteMessage, FrameDone, FrameTakes, Frame;
    assert x.hello[..|x.hello|] == x.hello;
  }

  lemma IdentityReadWork(cfg: Config, x: Script, s: Session, k: nat)
    requires Works(cfg, x) && s.server.status == Running && k >= 1 && CanServerRead(cfg, s, k)
    requires s.server.pc == ReceivingStatic && s.server.noise == x.server2 && |s.server.got| + k <= |x.identity|
    requires s.server.got + s.up[s.upPos..s.upPos + k] == x.identity[..|s.server.got| + k]
    requires FrameDone(cfg.num, x.identity[..|s.server.got| + k]) <==> |s.server.got| + k == |x.identity|
    ensures 0 <= ServerWork(cfg, DoServerRead(cfg, s, k).server) < ServerWork(cfg, s.server)
  {
    hide ReadMessage, WriteMessage, FrameDone, FrameTakes, Frame;
    assert x.identity[..|x.identity|] == x.identity;
  }

  lemma ClientWorks(cfg: Config, x: Script, s: Session, step: Step)
    requires Sound(cfg) && Works(cfg, x) && Inv(cfg, x, s) && Unharmed(cfg, s) && s.client.status == Running
    requires !OfServer(step) && ClientStep(cfg, s, step).Some? && Clean(cfg, s, step)
    requires Inv(cfg, x, ClientStep(cfg, s, step).value)
    ensures 0 <= ClientWork(cfg, ClientStep(cfg, s, step).value.client) < ClientWork(cfg, s.client)
  {
    hide ServerReads, ServerScript, ServerCopies, ClientDisk, ReadMessage, WriteMessage, ReadHeader, Works,
         DoPollRead, DoClientRead, Recv, AllComplete, CompletedLen;
    var s' := ClientStep(cfg, s, step).value;
    match step
    case ClientRead(k) => ClientReadWork(cfg, x, s, k);
    case PollRead(available, ended) =>
      CleanPollRead(cfg, x, s, available, ended);
      assert |s'.client.received| <= |cfg.file|;
    case _ =>
  }

  lemma ClientReadWork(cfg: Config, x: Script, s: Session, k: nat)
    requires Sound(cfg) && Works(cfg, x) && Inv(cfg, x, s) && s.client.status == Running && CanClientRead(cfg, s, k)
    ensures 0 <= ClientWork(cfg, DoClientRead(cfg, s, k).client) < ClientWork(cfg, s.client)
  {
    if s.client.pc == ReadingHeader {
      HeaderReadWork(cfg, x, s, k);
    } else if s.client.pc == ReceivingReply {
      ReplyReadWork(cfg, x, s, k);
    } else {
      hide ReadMessage, WriteMessage, Frame, ServerInv, ReadHeader, HeaderDone, Values, Works;
    }
  }

  lemma HeaderReadWork(cfg: Config, x: Script, s: Session, k: nat)
    requires Sound(cfg) && Works(cfg, x) && Inv(cfg, x, s) && s.client.status == Running && CanClientRead(cfg, s, k)
    requires s.client.pc == ReadingHeader
    ensures 0 <= ClientWork(cfg, DoClientRead(cfg, s, k).client) < ClientWork(cfg, s.client)
  {
    hide ReadMessage, WriteMessage, Frame, ServerInv, ReadHeader, HeaderDone, Values, ClientDisk, SerializeInfo;
    PartOfHeader(cfg, x, s, k);
    HeaderCutShort(cfg.info, s.downPos + k);
  }

  lemma ReplyReadWork(cfg: Config, x: Script, s: Session, k: nat)
    requires Works(cfg, x) && Inv(cfg, x, s) && s.client.status == Running && CanClientRead(cfg, s, k)
    requires s.client.pc == ReceivingReply
    ensures 0 <= ClientWork(cfg, DoClientRead(cfg, s, k).client) < ClientWork(cfg, s.client)
  {
    assert |x.header| <= s.downPos <= |s.down| && |s.client.got| < |x.reply| && cfg.info.encrypted;
    ClientReadsOn(cfg, x, s, k);
    ReplyGoesOn(cfg, x, s, k);
  }

  lemma ReplyGoesOn(cfg: Config, x: Script, s: Session, k: nat)
    requires Works(cfg, x) && s.client.status == Running && s.client.pc == ReceivingReply && CanClientRead(cfg, s, k)
    requires s.client.noise == x.client1 && |s.client.got| + k <= |x.reply|
    requires s.client.got + s.down[s.downPos..s.downPos + k] == x.reply[..|s.client.got| + k]
    requires FrameDone(cfg.num, x.reply[..|s.client.got| + k]) <==> |s.client.got| + k == |x.reply|
    ensures 0 <= ClientWork(cfg, DoClientRead(cfg, s, k).client) < ClientWork(cfg, s.client)
  {
    var cl := s.client.(got := x.reply[..|s.client.got| + k]);
    assert k >= 1 && |x.reply| == 2 + LEN2 && |x.identity| == 2 + LEN3;
    hide Works, ReadMessage, WriteMessage, FrameDone, FrameTakes, Frame, HeaderBytes;
    if |cl.got| == |x.reply| {
      assert cl.got == x.reply;
      ReplyAnswered(cfg, x, cl);
    } else {
      assert ClientGot(cfg, cl) == cl;
    }
    hide ClientGot;
  }

  lemma ReplyAnswered(cfg: Config, x: Script, cl: Client)
    requires Works(cfg, x) && cl.pc == ReceivingReply && cl.noise == x.client1 && cl.got == x.reply
    requires FrameDone(cfg.num, cl.got)
    ensures ClientGot(cfg, cl) == cl.(pc := SendingStatic, got := [], out := x.identity, noise := x.client3)
  {
    hide ReadMessage, WriteMessage, FrameDone, Frame;
  }

  // ----- progress -----

  /** An unharmed connection that is not over has a clean step to take. */
  lemma SomeStep(cfg: Config, x: Script, s: Session) returns (step: Step)
    requires Sound(cfg) && Works(cfg, x) && Inv(cfg, x, s) && Unharmed(cfg, s)
    requires s.server.status == Running || s.client.status == Running
    ensures Apply(cfg, s, step).Some? && Clean(cfg, s, step)
    ensures OfServer(step) <==> s.server.status == Running && !ServerWaits(s)
  {
    assert Shape(cfg, x);
    hide Works, Shape, ReadMessage, WriteMessage;
    if s.server.status == Running && !ServerWaits(s) {
      step := ServerCanStep(cfg, x, s);
    } else if s.client.status == Running {
      step := ClientCanStep(cfg, x, s);
    } else {
      StoppedClient(cfg, x, s);
      assert false;
    }
  }

  /** The server waits for octets that are not there yet. */
  predicate ServerWaits(s: Session) {
    (s.server.pc == ReceivingHello || s.server.pc == ReceivingStatic) && s.upPos == |s.up|
  }

  lemma ServerCanStep(cfg: Config, x: Script, s: Session) returns (step: Step)
    requires Sound(cfg) && Shape(cfg, x) && Inv(cfg, x, s) && Unharmed(cfg, s)
    requires s.server.status == Running && !ServerWaits(s)
    ensures Apply(cfg, s, step).Some? && Clean(cfg, s, step) && OfServer(step)
  {
    hide ClientInv, ServerScript, DoServerRead, DoServerWrite, DoPollWrite, PollsFrom, Frame;
    var sv := s.server;
    if sv.pc == Submitting {
      step := Submit;
    } else if sv.pc == Awaiting {
      step := Verdict(true);
    } else if sv.pc == Copying {
      step := if sv.chunk != [] then PollWrite(|sv.chunk| + 18)
              else if sv.off < |cfg.file| then Fill(1) else ServerDone;
    } else if sv.pc == SendingHeader {
      step := WriteHeader(HeaderPiece(cfg, sv));
    } else if ServerSends(sv.pc) {
      step := ServerWrite(|sv.out|);
    } else {
      step := ServerRead(1);
      ServerNotDone(cfg, x, s);
    }
  }

  lemma ServerNotDone(cfg: Config, x: Script, s: Session)
    requires Shape(cfg, x) && Inv(cfg, x, s) && (s.server.pc == ReceivingHello || s.server.pc == ReceivingStatic)
    ensures FrameTakes(cfg.num, s.server.got, 1)
  {
    hide ClientReads, ClientDisk, ClientHasPolls, ServerScript, ServerCopies;
    UpFollowsScript(cfg, x, s);
    var (got, frame) := (s.server.got, Expected(x, s.server.pc));
    PartOfScript(s.up, x.hello, x.identity, |got|);
    assert got == frame[..|got|];
    assert frame + [] == frame;
    FrameHeader(cfg.num, frame[2..], []);
  }

  lemma ClientCanStep(cfg: Config, x: Script, s: Session) returns (step: Step)
    requires Sound(cfg) && Shape(cfg, x) && Inv(cfg, x, s) && Unharmed(cfg, s) && s.client.status == Running
    requires s.server.status != Running || ServerWaits(s)
    ensures Apply(cfg, s, step).Some? && Clean(cfg, s, step) && !OfServer(step)
  {
    match s.client.pc
    case SendingHello => step := ClientWrite(|s.client.out|);
    case SendingStatic => step := ClientWrite(|s.client.out|);
    case Draining => step := DrainingCanStep(cfg, x, s);
    case _ =>
      step := ClientRead(1);
      OctetForClient(cfg, x, s);
  }

  /** A client that waits for the header, the reply or the verdict has an octet of it before it. */
  lemma OctetForClient(cfg: Config, x: Script, s: Session)
    requires Sound(cfg) && Shape(cfg, x) && Inv(cfg, x, s) && Unharmed(cfg, s) && s.client.status == Running
    requires s.server.status != Running || ServerWaits(s)
    requires s.client.pc == ReadingHeader || s.client.pc == ReceivingReply || s.client.pc == AwaitingVerdict
    ensures s.downPos < |s.down| && ClientTakes(cfg.num, s.client, 1)
  {
    SomethingUnread(cfg, x, s);
    hide ServerInv, ClientDisk, ClientHasPolls, Frame;
    DownFollowsScript(cfg, x, s);
    var got := s.client.got;
    if s.client.pc == ReadingHeader {
      assert got != [] ==> got[0] == x.header[0];
    } else if s.client.pc == ReceivingReply {
      assert got == x.reply[..|got|];
      ReplyNotDone(cfg, x, got);
    }
  }

  lemma SomethingUnread(cfg: Config, x: Script, s: Session)
    requires Sound(cfg) && Shape(cfg, x) && Inv(cfg, x, s) && Unharmed(cfg, s) && s.client.status == Running
    requires s.server.status != Running || ServerWaits(s)
    requires s.client.pc == ReadingHeader || s.client.pc == ReceivingReply || s.client.pc == AwaitingVerdict
    ensures s.downPos < |s.down|
  {
    hide ServerCopies, ClientDisk, ClientHasPolls, Wire, Frame;
    UpFollowsScript(cfg, x, s);
    assert s.server.out == [] ==> s.down + [] == s.down;
    assert s.client.out == [] && s.up + [] == s.up;
    assert s.upPos == |s.up| ==> s.up[..s.upPos] == s.up;
    if s.client.pc == ReadingHeader && s.downPos == |x.header| {
      HeaderWhole(cfg, x, s);
    }
  }

  /** A client that has all of a readable header is not reading it any more. */
  lemma HeaderWhole(cfg: Config, x: Script, s: Session)
    requires Sound(cfg) && Shape(cfg, x) && Inv(cfg, x, s) && s.client.pc == ReadingHeader
    requires s.client.status == Running
    ensures s.downPos != |x.header|
  {
    hide ServerInv, Frame;
    DownFollowsScript(cfg, x, s);
    assert s.client.got != [] ==> s.client.got[0] == x.header[0];
  }

  lemma ReplyNotDone(cfg: Config, x: Script, got: seq<Octet>)
    requires Shape(cfg, x) && |got| < |x.reply| && got == x.reply[..|got|]
    ensures FrameTakes(cfg.num, got, 1)
  {
    assert x.reply + [] == x.reply;
    FrameHeader(cfg.num, x.reply[2..], []);
  }

  lemma DrainingCanStep(cfg: Config, x: Script, s: Session) returns (step: Step)
    requires Sound(cfg) && Shape(cfg, x) && Inv(cfg, x, s) && Unharmed(cfg, s)
    requires s.client.status == Running && s.client.pc == Draining && s.server.status != Running
    ensures Apply(cfg, s, step).Some? && Clean(cfg, s, step) && !OfServer(step)
  {
    hide ServerReads, ServerScript, ServerCopies, ClientReads, ClientScript, ClientDisk, PollsFrom, DoPollRead, Recv,
         ReadMessage, WriteMessage, Frame, Wire;
    var left := |s.down| - s.downPos;
    if left == 0 {
      step := PollRead(0, true);
    } else if !cfg.info.encrypted {
      step := PollRead(1, false);
    } else {
      var n := WholeFrame(cfg, x, s);
      step := PollRead(n, false);
    }
  }

  lemma WholeFrame(cfg: Config, x: Script, s: Session) returns (n: nat)
    requires Sound(cfg) && Shape(cfg, x) && Inv(cfg, x, s) && Unharmed(cfg, s) && cfg.info.encrypted
    requires s.client.pc == Draining && s.downPos < |s.down|
    ensures n > 0 && s.downPos + n <= |s.down| && Recv(cfg.num, s.down[s.downPos..s.downPos + n]).Payload?
  {
    FrameAhead(cfg, x, s);
    var poll := s.server.attempts[s.client.nonce];
    n := |poll.chunk| + 18;
    var frame := SealedFrame(FileKey(x), s.client.nonce, poll.chunk);
    SealedFrameDecodes(cfg.num, FileKey(x), s.client.nonce, cfg.readerCap, poll.chunk, [], false);
    hide Inv, Shape, Recv, SealedFrame;
    assert frame + [] == frame;
  }

  /** A client that has come to its proper end leaves no server behind. */
  lemma StoppedClient(cfg: Config, x: Script, s: Session)
    requires Shape(cfg, x) && Inv(cfg, x, s) && Unharmed(cfg, s) && s.client.status != Running
    ensures s.server.status != Running
  {
    hide ServerReads, ServerCopies, ClientHasPolls, ClientScript, Wire, Frame;
    DownFollowsScript(cfg, x, s);
  }

  /** How an unharmed connection ends: with the whole file, in the client's hands and on its disk, or
      with a refusal that both sides know of and a disk that was not touched. */
  lemma ProperEnd(cfg: Config, x: Script, s: Session)
    requires Sound(cfg) && Works(cfg, x) && Inv(cfg, x, s) && Unharmed(cfg, s)
    requires s.server.status != Running && s.client.status != Running
    ensures if s.server.pc == Copying
            then s.server.status == s.client.status == Finished
                 && s.client.received == cfg.file && s.client.disk == Some(cfg.file)
            else s.server.status == s.client.status == Refused
                 && s.client.received == [] && s.client.disk == None
  {
    hide ServerReads, ClientScript, Wire, Frame, ReadMessage, WriteMessage;
    DownFollowsScript(cfg, x, s);
    if s.client.pc == Draining {
      if cfg.info.encrypted {
        FrameAhead(cfg, x, s);
        assert s.server.attempts[..|s.server.attempts|] == s.server.attempts;
      } else {
        assert s.down + [] == s.down;
      }
      assert cfg.file[..|cfg.file|] == cfg.file;
    }
  }

  // ----- whole runs -----

  /** A run from `s` in which every step is possible and clean. */
  predicate CleanRun(cfg: Config, s: Session, steps: seq<Step>)
    decreases |steps|
  {
    steps == [] ||
    (&& Apply(cfg, s, steps[0]).Some? && Clean(cfg, s, steps[0])
     && CleanRun(cfg, Apply(cfg, s, steps[0]).value, steps[1..]))
  }

  function Work(cfg: Config, s: Session): int {
    ServerWork(cfg, s.server) + ClientWork(cfg, s.client)
  }

  lemma CleanStep(cfg: Config, x: Script, s: Session, step: Step)
    requires Sound(cfg) && Works(cfg, x) && Inv(cfg, x, s) && Unharmed(cfg, s)
    requires Apply(cfg, s, step).Some? && Clean(cfg, s, step)
    ensures var s' := Apply(cfg, s, step).value;
            Inv(cfg, x, s') && Unharmed(cfg, s') && Work(cfg, s') < Work(cfg, s)
  {
    ApplyInv(cfg, x, s, step);
    hide Inv, Works, Unharmed, ServerWork, ClientWork, ServerStep, ClientStep;
    if OfServer(step) {
      CleanServerUnharmed(cfg, x, s, step);
      ServerWorks(cfg, x, s, step);
      SideLeftAlone(cfg, x, s, step);
    } else {
      CleanClientUnharmed(cfg, x, s, step);
      ClientWorks(cfg, x, s, step);
      SideLeftAlone(cfg, x, s, step);
    }
  }

  lemma SideLeftAlone(cfg: Config, x: Script, s: Session, step: Step)
    requires Inv(cfg, x, s) && Apply(cfg, s, step).Some? && !step.Cut? && !StopsShort(cfg, s, step)
    ensures var s' := Apply(cfg, s, step).value;
            if OfServer(step) then s'.client == s.client else s'.server == s.server
  {
    hide ServerInv, ClientInv, ServerStep, ClientStep;
    if OfServer(step) {
      ServerStepFrame(cfg, x, s, step);
    } else {
      ClientStepFrame(cfg, x, s, step);
    }
  }

  lemma WorkLeft(cfg: Config, x: Script, s: Session)
    requires Shape(cfg, x) && Inv(cfg, x, s) && cfg.Valid()
    ensures Work(cfg, s) >= 0
  {
  }

  lemma {:induction false} CleanRunKeeps(cfg: Config, x: Script, s: Session, steps: seq<Step>)
    requires Sound(cfg) && Works(cfg, x) && Inv(cfg, x, s) && Unharmed(cfg, s) && CleanRun(cfg, s, steps)
    ensures Exec(cfg, s, steps).Some?
    ensures var s' := Exec(cfg, s, steps).value;
            Inv(cfg, x, s') && Unharmed(cfg, s') && Work(cfg, s') + |steps| <= Work(cfg, s)
    decreases |steps|
  {
    hide Inv, Works, Unharmed, Work, Apply;
    if steps == [] {
    } else {
      CleanStep(cfg, x, s, steps[0]);
      CleanRunKeeps(cfg, x, Apply(cfg, s, steps[0]).value, steps[1..]);
    }
  }

  /** A connection on which nothing fails: it takes a bounded number of steps; as long as one side is
      still running, a step is possible; and when both have stopped, either the server approved (or
      nothing is encrypted) and the client has the file, all of it and nothing else, on its disk; or
      the server refused, both sides know, and the client's disk is as it was. */
  lemma CleanRunsDeliver(cfg: Config, steps: seq<Step>)
    requires Sound(cfg) && CleanRun(cfg, Initial(cfg), steps)
    ensures |steps| <= 2 * |HeaderBytes(cfg.info)| + 3 * |cfg.file| + 403
    ensures Exec(cfg, Initial(cfg), steps).Some?
    ensures var s := Exec(cfg, Initial(cfg), steps).value;
            if s.server.status == Running || s.client.status == Running then
              exists step :: Apply(cfg, s, step).Some? && Clean(cfg, s, step)
            else if cfg.info.encrypted && !s.server.approved then
              && s.server.status == s.client.status == Refused
              && s.client.received == [] && s.client.disk == None
            else
              && s.server.status == s.client.status == Finished
              && s.client.received == cfg.file && s.client.disk == Some(cfg.file)
  {
    var x := ScriptOf(cfg);
    var s0 := Initial(cfg);
    ScriptWorks(cfg);
    InitialInv(cfg);
    assert Shape(cfg, x);
    assert Work(cfg, s0) == 2 * |HeaderBytes(cfg.info)| + 3 * |cfg.file| + 403;
    assert Unharmed(cfg, s0);
    hide Works, Shape, ScriptOf, Initial, Work, CleanRun, Exec;
    CleanRunKeeps(cfg, x, s0, steps);
    var s := Exec(cfg, s0, steps).value;
    WorkLeft(cfg, x, s);
    if s.server.status == Running || s.client.status == Running {
      var step := SomeStep(cfg, x, s);
    } else {
      ProperEnd(cfg, x, s);
      hide ServerReads, ServerScript, ClientInv;
    }
  }
}
