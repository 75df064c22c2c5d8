/** A connection whose header did not go out whole: `write_to_stream` writes it with two calls of `write`
    and looks at neither count. Without encryption the file comes right behind the part that went out;
    with encryption nothing comes. */
module ShortHeader {
  import opened Wrappers
  import opened Bytes
  import opened Noise
  import opened Framing
  import opened EncryptedStream
  import opened Models
  import opened Session
  import opened SessionSafety

  /** All that an unencrypted server sends when only `n` bytes of its header go out. */
  function Sent(cfg: Config, n: nat): seq<byte> {
    HeaderBytes(cfg.info)[..Min(n, |HeaderBytes(cfg.info)|)] + cfg.file
  }

  // ----- the invariant of such a connection -----

  predicate ShortServer(cfg: Config, s: Session, n: nat) {
    var sv := s.server;
    && sv.out == [] && sv.got == [] && sv.attempts == [] && s.upPos == 0
    && sv.status != Refused && sv.status != Panicked
    && n < |HeaderBytes(cfg.info)|
    && if cfg.info.encrypted then
         && sv.pc == ReceivingHello && sv.status != Finished && sv.off == 0 && sv.chunk == []
         && s.down == Plain(HeaderBytes(cfg.info)[..n])
       else
         && sv.pc == Copying && sv.off + |sv.chunk| <= |cfg.file|
         && sv.chunk == cfg.file[sv.off..sv.off + |sv.chunk|]
         && s.down == Plain(Sent(cfg, n)[..n + sv.off])
         && (sv.status == Finished ==> sv.chunk == [] && sv.off == |cfg.file|)
  }

  /** The client has not got past the header. */
  predicate BeforeHeader(cfg: Config, x: Script, s: Session) {
    var cl := s.client;
    && cl.pc == ReadingHeader && cl.noise == x.client0 && cl.out == [] && s.up == []
    && (cl.status == Running || cl.status == Failed)
    && cl.received == [] && cl.nonce == 0 && cl.disk == None && cl.ending == None && cl.lost == 0
    && s.downPos <= |s.down| && cl.got == s.down[..s.downPos]
    && (cl.status == Running ==> !HeaderDone(cfg.num, cl.got))
  }

  /** The client takes the start of what was sent for a header, `info`, of `need` bytes. */
  predicate Misread(cfg: Config, n: nat, info: DataSrvInfo, need: nat) {
    need <= |Sent(cfg, n)| && ReadHeader(Sent(cfg, n)[..need]) == Ok(Parsed(info, []))
  }

  /** The misread header says encryption, and the client waits for a reply that is not one. */
  predicate Mistaken(x: Script, s: Session, need: nat) {
    var cl := s.client;
    && (cl.pc == SendingHello || cl.pc == ReceivingReply) && cl.noise == x.client1
    && (cl.status == Running || cl.status == Failed)
    && cl.received == [] && cl.disk == None && cl.ending == None
    && need + |cl.got| == s.downPos && s.downPos <= |s.down| && cl.got == s.down[need..s.downPos]
  }

  /** The client takes all that comes behind the misread header for the file. */
  predicate Shifted(cfg: Config, s: Session, n: nat, need: nat) {
    var cl := s.client;
    && cl.pc == Draining && cl.info.Some? && cl.lost == 0 && need + |cl.received| == s.downPos <= |Sent(cfg, n)|
    && cl.received == Sent(cfg, n)[need..s.downPos]
    && if cl.status == Finished then
         && cl.ending.Some? && cl.disk == Some(Resize(Kept(cl), cl.info.value.dataLength))
         && (cl.ending.value.DiskError? ==> cl.ending.value.kept <= |cl.received|)
         && (cl.ending == Some(EndOfStream) ==> s.Closed() && s.downPos == s.Limit())
       else cl.status == Running && cl.ending == None && cl.disk == Some(cl.received)
  }

  predicate ShortClient(cfg: Config, x: Script, s: Session, n: nat) {
    var cl := s.client;
    && s.downPos <= s.Limit() <= |s.down|
    && if cl.pc == ReadingHeader then BeforeHeader(cfg, x, s)
       else
         && cl.info.Some? && !cfg.info.encrypted && s.down != []
         && var need := HeaderNeed(Value(cfg.num, s.down[0]));
            && Misread(cfg, n, cl.info.value, need)
            && if cl.info.value.encrypted then Mistaken(x, s, need) else Shifted(cfg, s, n, need)
  }

  predicate ShortInv(cfg: Config, x: Script, s: Session, n: nat) {
    ShortServer(cfg, s, n) && ShortClient(cfg, x, s, n)
  }

  /** The invariant of every run: as `SessionSafety` has it while the header went out whole. */
  predicate AnyInv(cfg: Config, x: Script, s: Session) {
    match s.short
    case None => Inv(cfg, x, s)
    case Some(n) => ShortInv(cfg, x, s, n)
  }

  // ----- every step keeps it -----

  lemma HeaderStopsInv(cfg: Config, x: Script, s: Session, k: nat)
    requires Shape(cfg, x) && Inv(cfg, x, s) && s.server.status == Running && s.server.pc == SendingHeader
    requires s.server.out != [] && k < HeaderPiece(cfg, s.server)
    ensures ShortInv(cfg, x, HeaderStops(cfg, s, k), |s.down| + k)
  {
    hide ReadMessage, WriteMessage, ClientScript, ClientDisk, ClientHasPolls, ClientHasPlain, SerializeInfo;
    var (s', n) := (HeaderStops(cfg, s, k), |s.down| + k);
    var header := HeaderBytes(cfg.info);
    assert s'.down == (s.down + s.server.out)[..n] == Plain(header)[..n] == Plain(header[..n]);
    assert Sent(cfg, n)[..n] == header[..n];
    ClientBeforeHeader(cfg, x, s);
    assert s'.down[..s.downPos] == s.down[..s.downPos];
  }

  lemma ClientBeforeHeader(cfg: Config, x: Script, s: Session)
    requires Shape(cfg, x) && Inv(cfg, x, s) && s.server.pc == SendingHeader && s.server.out != []
    ensures BeforeHeader(cfg, x, s)
  {
    hide ReadMessage, WriteMessage, ClientHasPolls, ClientHasPlain, Frame;
    assert |s.down| < |x.header|;
  }

  lemma ShortServerKept(cfg: Config, x: Script, s: Session, step: Step, n: nat)
    requires ShortInv(cfg, x, s, n) && s.server.status == Running
    requires OfServer(step) && ServerStep(cfg, s, step).Some?
    ensures ShortServer(cfg, ServerStep(cfg, s, step).value, n)
    ensures var s' := ServerStep(cfg, s, step).value;
            && s' == s.(server := s'.server, down := s'.down) && s.down <= s'.down
  {
    OnlyCopies(cfg, x, s, step, n);
    hide ShortServer, ShortClient;
    if step.PollWrite? {
      ShortPollWrite(cfg, s, step.accept, n);
    } else {
      ShortControl(cfg, s, step, n);
    }
  }

  lemma ShortControl(cfg: Config, s: Session, step: Step, n: nat)
    requires ShortServer(cfg, s, n) && s.server.status == Running
    requires step.ServerError? || (s.server.pc == Copying && (step.Fill? || step.ServerDone?))
    requires ServerStep(cfg, s, step).Some?
    ensures var s' := ServerStep(cfg, s, step).value;
            && ShortServer(cfg, s', n) && s' == s.(server := s'.server, down := s'.down) && s.down <= s'.down
  {
    hide Sent, Plain, HeaderBytes, DoPollWrite, DoServerRead, DoServerWrite, HeaderStops;
  }

  /** Such a server has nothing to do but to copy the file, and not even that with encryption. */
  lemma OnlyCopies(cfg: Config, x: Script, s: Session, step: Step, n: nat)
    requires ShortInv(cfg, x, s, n) && OfServer(step) && ServerStep(cfg, s, step).Some?
    ensures step.ServerError? || (s.server.pc == Copying && (step.Fill? || step.PollWrite? || step.ServerDone?))
    ensures step.PollWrite? ==> s.server.chunk != []
  {
    hide ReadMessage, WriteMessage, Misread, Mistaken, Shifted, DoPollWrite, DoServerRead, DoServerWrite, HeaderStops, Sent;
  }

  lemma ShortPollWrite(cfg: Config, s: Session, accept: nat, n: nat)
    requires ShortServer(cfg, s, n) && s.server.pc == Copying && s.server.status == Running && s.server.chunk != []
    ensures ShortServer(cfg, DoPollWrite(cfg, s, accept), n)
    ensures var s' := DoPollWrite(cfg, s, accept);
            s' == s.(server := s'.server, down := s'.down) && s.down <= s'.down
  {
    var (sv, m) := (s.server, Min(accept, |s.server.chunk|));
    SentLength(cfg, n);
    SentPart(cfg, n, sv.off, m);
    assert cfg.file[sv.off..sv.off + m] == sv.chunk[..m];
    hide Sent, Plain, HeaderBytes;
  }

  lemma SentPart(cfg: Config, n: nat, off: nat, m: nat)
    requires n < |HeaderBytes(cfg.info)| && off + m <= |cfg.file|
    ensures |Sent(cfg, n)| == n + |cfg.file|
    ensures Plain(Sent(cfg, n)[..n + off]) + Plain(cfg.file[off..off + m]) == Plain(Sent(cfg, n)[..n + off + m])
  {
    var sent := Sent(cfg, n);
    assert sent[n + off..n + off + m] == cfg.file[off..off + m];
    assert sent[..n + off] + sent[n + off..n + off + m] == sent[..n + off + m];
  }

  /** What the client has yet to read, and all it has read, is a piece of what was sent. */
  lemma DownIsSent(cfg: Config, s: Session, n: nat)
    requires ShortServer(cfg, s, n)
    ensures |s.down| <= |Sent(cfg, n)| && s.down == Plain(Sent(cfg, n)[..|s.down|])
    ensures forall i: nat, j: nat :: i <= j <= |s.down| ==> Values(cfg.num, s.down[i..j]) == Sent(cfg, n)[i..j]
  {
    assert cfg.info.encrypted ==> Sent(cfg, n)[..n] == HeaderBytes(cfg.info)[..n];
    assert |s.down| <= |Sent(cfg, n)| && s.down == Plain(Sent(cfg, n)[..|s.down|]);
    var sent := Sent(cfg, n)[..|s.down|];
    hide ShortServer, Sent;
    forall i: nat, j: nat | i <= j <= |s.down|
      ensures Values(cfg.num, s.down[i..j]) == Sent(cfg, n)[i..j]
    {
      PlainPart(cfg.num, sent, i, j);
      PartOfPrefix(Sent(cfg, n), |s.down|, i, j);
    }
  }

  lemma PartOfPrefix<T>(s: seq<T>, m: nat, i: nat, j: nat)
    requires i <= j <= m <= |s|
    ensures s[..m][i..j] == s[i..j]
  {
  }

  lemma PlainPart(num: Numeric, s: seq<byte>, i: nat, j: nat)
    requires i <= j <= |s|
    ensures Values(num, Plain(s)[i..j]) == s[i..j]
  {
  }

  lemma ShortClientWaits(cfg: Config, x: Script, s: Session, s': Session, n: nat)
    requires ShortInv(cfg, x, s, n) && s.server.status == Running
    requires s' == s.(server := s'.server, down := s'.down) && s.down <= s'.down
    requires s.cutAt.Some? ==> s.cutAt.value <= |s.down|
    ensures ShortClient(cfg, x, s', n)
  {
    hide Misread, HeaderDone, HeaderNeed;
    assert forall i: nat, j: nat :: i <= j <= |s.down| ==> s'.down[i..j] == s.down[i..j];
    assert s'.down[..s.downPos] == s.down[..s.downPos];
  }

  /** `k` more octets of what the client takes for the header. */
  lemma ShortReadHeader(cfg: Config, x: Script, s: Session, k: nat, n: nat)
    requires Works(cfg, x) && ShortInv(cfg, x, s, n) && s.client.status == Running && s.client.pc == ReadingHeader
    requires CanClientRead(cfg, s, k)
    ensures ShortClient(cfg, x, DoClientRead(cfg, s, k), n)
  {
    hide ReadMessage, WriteMessage, ReadHeader, Frame, SerializeInfo;
    var m := s.downPos + k;
    var got := s.down[..m];
    assert s.client.got + s.down[s.downPos..m] == got;
    DownIsSent(cfg, s, n);
    assert s.down[0..m] == got && Values(cfg.num, got) == Sent(cfg, n)[0..m] == Sent(cfg, n)[..m];
    if HeaderDone(cfg.num, got) {
      HeaderDoneAt(cfg, s, n, m);
    }
  }

  /** A header that is complete with `m` octets is not the one that was cut short. */
  lemma HeaderDoneAt(cfg: Config, s: Session, n: nat, m: nat)
    requires ShortServer(cfg, s, n) && m <= |s.down| && HeaderDone(cfg.num, s.down[..m])
    ensures m == HeaderNeed(Value(cfg.num, s.down[0]))
    ensures m <= |Sent(cfg, n)|
    ensures match ReadHeader(Sent(cfg, n)[..m])
            case Err(_) => true
            case Ok(Parsed(info, rest)) => rest == [] && !cfg.info.encrypted && m > n
  {
    DownIsSent(cfg, s, n);
    var bytes := Sent(cfg, n)[..m];
    assert bytes[0] == Value(cfg.num, s.down[..m][0]);
    if ReadHeader(bytes).Ok? {
      var Parsed(info, rest) := ReadHeader(bytes).value;
      ReadHeaderExact(bytes, info, rest);
      if m <= n {
        assert bytes == HeaderBytes(cfg.info)[..m];
        HeaderCutShort(cfg.info, m);
        assert false;
      }
    }
  }

  lemma ShortReadReply(cfg: Config, x: Script, s: Session, k: nat, n: nat)
    requires Works(cfg, x) && ShortInv(cfg, x, s, n) && s.client.status == Running && s.client.pc != ReadingHeader
    requires CanClientRead(cfg, s, k)
    ensures ShortClient(cfg, x, DoClientRead(cfg, s, k), n)
  {
    hide ReadMessage, WriteMessage, ReadHeader, Frame, Misread, FrameDone, FrameTakes;
    var (need, m) := (HeaderNeed(Value(cfg.num, s.down[0])), s.downPos + k);
    var got := s.down[need..m];
    Adjacent(s.down, need, s.downPos, m);
    DownIsSent(cfg, s, n);
    if FrameDone(cfg.num, got) {
      FrameDoneIsLong(cfg.num, got);
      PlainReplyFails(s.client.noise, got[2..]);
    }
  }

  lemma FrameDoneIsLong(num: Numeric, got: seq<Octet>)
    requires FrameDone(num, got)
    ensures |got| >= 2
  {
  }

  lemma ShortPollRead(cfg: Config, x: Script, s: Session, available: nat, ended: bool, n: nat)
    requires ShortInv(cfg, x, s, n) && s.client.status == Running && CanPollRead(cfg, s, available, ended)
    ensures ShortClient(cfg, x, DoPollRead(cfg, s, available, ended), n)
  {
    hide Misread, HeaderNeed, DecodePoll, TakenByPoll, Resize, Values;
    var need := HeaderNeed(Value(cfg.num, s.down[0]));
    DownIsSent(cfg, s, n);
    Adjacent(Sent(cfg, n), need, s.downPos, s.downPos + available);
  }

  lemma ShortClientKept(cfg: Config, x: Script, s: Session, step: Step, n: nat)
    requires Works(cfg, x) && ShortInv(cfg, x, s, n) && s.client.status == Running
    requires !OfServer(step) && !step.Cut? && ClientStep(cfg, s, step).Some?
    ensures ShortInv(cfg, x, ClientStep(cfg, s, step).value, n)
  {
    hide ReadMessage, WriteMessage, Misread, HeaderNeed, DoClientRead, DoPollRead, HeaderDone, FrameTakes, HeaderTakes,
         DoClientWrite, ShortInv, Works;
    match step
    case ClientRead(k) => ShortReadKept(cfg, x, s, k, n);
    case PollRead(available, ended) => ShortPollKept(cfg, x, s, available, ended, n);
    case ClientWrite(k) => ShortWriteHello(cfg, x, s, k, n);
    case _ => ShortClientEnds(cfg, x, s, step, n);
  }

  lemma ShortReadKept(cfg: Config, x: Script, s: Session, k: nat, n: nat)
    requires Works(cfg, x) && ShortInv(cfg, x, s, n) && s.client.status == Running && CanClientRead(cfg, s, k)
    ensures ShortInv(cfg, x, DoClientRead(cfg, s, k), n)
  {
    hide DoClientRead, Works, CanClientRead, ShortClient;
    if s.client.pc == ReadingHeader {
      ShortReadHeader(cfg, x, s, k, n);
    } else {
      ShortReadReply(cfg, x, s, k, n);
    }
    ReadLeavesServer(cfg, s, k);
  }

  lemma ShortPollKept(cfg: Config, x: Script, s: Session, available: nat, ended: bool, n: nat)
    requires ShortInv(cfg, x, s, n) && s.client.status == Running && CanPollRead(cfg, s, available, ended)
    ensures ShortInv(cfg, x, DoPollRead(cfg, s, available, ended), n)
  {
    ShortPollRead(cfg, x, s, available, ended, n);
    PollLeavesServer(cfg, s, available, ended);
    hide DoPollRead, CanPollRead, ShortClient;
  }

  lemma ShortWriteHello(cfg: Config, x: Script, s: Session, k: nat, n: nat)
    requires ShortInv(cfg, x, s, n) && s.client.status == Running && CanClientWrite(s, k)
    ensures ShortInv(cfg, x, DoClientWrite(s, k), n)
  {
    hide Misread, HeaderNeed, HeaderDone;
  }

  /** An error, or a full disk. */
  lemma ShortClientEnds(cfg: Config, x: Script, s: Session, step: Step, n: nat)
    requires ShortInv(cfg, x, s, n) && s.client.status == Running
    requires (step.DiskFull? || step.ClientError?) && ClientStep(cfg, s, step).Some?
    ensures ShortInv(cfg, x, ClientStep(cfg, s, step).value, n)
  {
    hide Misread, HeaderNeed, HeaderDone, Resize, Sent, HeaderBytes, DoClientRead, DoPollRead, DoClientWrite, Plain;
  }

  lemma ReadLeavesServer(cfg: Config, s: Session, k: nat)
    requires CanClientRead(cfg, s, k)
    ensures var s' := DoClientRead(cfg, s, k); s'.server == s.server && s'.down == s.down && s'.upPos == s.upPos
  {
  }

  lemma PollLeavesServer(cfg: Config, s: Session, available: nat, ended: bool)
    requires CanPollRead(cfg, s, available, ended)
    ensures var s' := DoPollRead(cfg, s, available, ended);
            s'.server == s.server && s'.down == s.down && s'.upPos == s.upPos
  {
  }

  lemma ShortKept(cfg: Config, x: Script, s: Session, step: Step, n: nat)
    requires Works(cfg, x) && ShortInv(cfg, x, s, n) && Apply(cfg, s, step).Some?
    ensures ShortInv(cfg, x, Apply(cfg, s, step).value, n) && Apply(cfg, s, step).value.short == s.short
  {
    ShortSticks(cfg, s, step);
    NotSendingHeader(cfg, s, n);
    assert s.cutAt.Some? ==> s.cutAt.value <= |s.down|;
    hide ShortServer, ShortClient, ServerStep, ClientStep, Works;
    if OfServer(step) {
      ShortServerKept(cfg, x, s, step, n);
      ShortClientWaits(cfg, x, s, ServerStep(cfg, s, step).value, n);
    } else if !step.Cut? {
      ShortClientKept(cfg, x, s, step, n);
    } else {
      CutKept(cfg, x, s, step.at, n);
    }
  }

  lemma NotSendingHeader(cfg: Config, s: Session, n: nat)
    requires ShortServer(cfg, s, n)
    ensures s.server.pc != SendingHeader
  {
  }

  lemma CutKept(cfg: Config, x: Script, s: Session, at: nat, n: nat)
    requires ShortInv(cfg, x, s, n) && s.cutAt == None && s.downPos <= at <= |s.down|
    ensures ShortInv(cfg, x, s.(cutAt := Some(at)), n)
  {
    hide Misread, HeaderDone, HeaderNeed, Resize, Kept, Sent, Plain;
  }

  lemma AnyKept(cfg: Config, x: Script, s: Session, step: Step)
    requires Works(cfg, x) && cfg.Valid() && AnyInv(cfg, x, s) && Apply(cfg, s, step).Some?
    ensures AnyInv(cfg, x, Apply(cfg, s, step).value)
  {
    hide Inv, ShortInv, ClientStep, HeaderStops;
    ShortSticks(cfg, s, step);
    if s.short.Some? {
      ShortKept(cfg, x, s, step, s.short.value);
    } else if StopsShort(cfg, s, step) {
      HeaderStopsInv(cfg, x, s, step.k);
    } else {
      ApplyInv(cfg, x, s, step);
    }
  }

  /** Only a write of the header that stops short makes a header short. */
  lemma ShortSticks(cfg: Config, s: Session, step: Step)
    requires Apply(cfg, s, step).Some?
    ensures step.WriteHeader? ==> s.server.status == Running && s.server.pc == SendingHeader && s.server.out != []
    ensures Apply(cfg, s, step).value.short
         == if StopsShort(cfg, s, step) then Some(|s.down| + step.k) else s.short
  {
  }

  lemma {:induction false} ExecInv(cfg: Config, s: Session, steps: seq<Step>)
    requires cfg.Valid() && AnyInv(cfg, ScriptOf(cfg), s) && Exec(cfg, s, steps).Some?
    ensures AnyInv(cfg, ScriptOf(cfg), Exec(cfg, s, steps).value)
    decreases |steps|
  {
    hide AnyInv, Works, ScriptOf, Apply;
    if steps == [] {
    } else {
      ScriptWorks(cfg);
      AnyKept(cfg, ScriptOf(cfg), s, steps[0]);
      ExecInv(cfg, Apply(cfg, s, steps[0]).value, steps[1..]);
    }
  }

  /** A download of what comes behind a misread header, that ended at the end of the stream: what it has
      is what was sent behind that header if and only if the server had copied all of the file and
      nothing was cut off; and it never is the file, nor as long as the file. */
  lemma ShiftedEnd(cfg: Config, x: Script, s: Session, n: nat)
    requires ShortInv(cfg, x, s, n) && s.client.ending == Some(EndOfStream)
    ensures s.down != []
    ensures var need := HeaderNeed(Value(cfg.num, s.down[0]));
            && n < need <= |Sent(cfg, n)| && Misread(cfg, n, s.client.info.value, need)
            && |s.client.received| < |cfg.file|
            && (s.client.received == Sent(cfg, n)[need..] <==> s.server.off == |cfg.file| && s.Limit() == |s.down|)
  {
    EndedShifted(cfg, x, s, n);
    var (need, sent) := (HeaderNeed(Value(cfg.num, s.down[0])), Sent(cfg, n));
    MisreadIsLonger(cfg, n, s.client.info.value, need);
    SentLength(cfg, n);
    hide Misread, HeaderNeed, Sent, ShortInv, Shifted;
    assert s.downPos == |sent| ==> sent[need..s.downPos] == sent[need..];
  }

  lemma SentLength(cfg: Config, n: nat)
    requires n < |HeaderBytes(cfg.info)|
    ensures |Sent(cfg, n)| == n + |cfg.file|
  {
  }

  lemma EndedShifted(cfg: Config, x: Script, s: Session, n: nat)
    requires ShortInv(cfg, x, s, n) && s.client.ending == Some(EndOfStream)
    ensures s.down != [] && n < |HeaderBytes(cfg.info)| && |s.down| == n + s.server.off && s.server.off <= |cfg.file|
    ensures var need := HeaderNeed(Value(cfg.num, s.down[0]));
            && Misread(cfg, n, s.client.info.value, need) && Shifted(cfg, s, n, need)
            && s.downPos == s.Limit() <= |s.down|
  {
    hide Misread, Resize, HeaderNeed;
  }

  /** A header that is read although it was cut short takes more than was sent of it. */
  lemma MisreadIsLonger(cfg: Config, n: nat, info: DataSrvInfo, need: nat)
    requires n < |HeaderBytes(cfg.info)| && Misread(cfg, n, info, need)
    ensures n < need
  {
    if need <= n {
      assert Sent(cfg, n)[..need] == HeaderBytes(cfg.info)[..need];
      HeaderCutShort(cfg.info, need);
    }
  }
}
