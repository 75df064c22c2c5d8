/** What a header that did not go out whole does to a download: with encryption both sides wait for each
    other; without, the client may take the start of the file for the rest of the header, and what comes
    behind it for the file. */
module ShortDelivery {
  import opened Wrappers
  import opened Bytes
  import opened Noise
  import opened Framing
  import opened Models
  import opened Session
  import opened SessionSafety
  import opened ShortHeader
  import opened SessionDelivery

  // ----- with encryption -----

  /** Nobody fails, and nothing goes on: the only things that can still happen are that the client reads
      the rest of what went out of the header, an error on either side, and the end of the connection. */
  lemma ShortHeaderHangs(cfg: Config, s: Session, step: Step)
    requires cfg.Valid() && cfg.info.encrypted && Reachable(cfg, s) && s.short.Some? && Apply(cfg, s, step).Some?
    ensures var s' := Apply(cfg, s, step).value;
            && (|| step.ServerError? || step.ClientError? || step.Cut?
                || (step.ClientRead? && s.downPos < s'.downPos <= s.short.value))
            && s'.short == s.short
            && s'.server.pc == ReceivingHello && s'.client.pc == ReadingHeader && s'.client.disk == None
            && (!step.ServerError? ==> s'.server.status == s.server.status)
            && (!step.ClientError? && |cfg.info.dataName| <= MAX_NAME ==> s'.client.status == s.client.status)
  {
    ReachableInv(cfg, s);
    var x := ScriptOf(cfg);
    hide ScriptOf;
    ShortKept(cfg, x, s, step, s.short.value);
    hide Works, Apply, ReadMessage, WriteMessage, ServerStep, ClientStep;
    OnlyErrors(cfg, x, s, step, s.short.value);
  }

  lemma OnlyErrors(cfg: Config, x: Script, s: Session, step: Step, n: nat)
    requires ShortInv(cfg, x, s, n) && cfg.info.encrypted && Apply(cfg, s, step).Some?
    ensures var s' := Apply(cfg, s, step).value;
            && (|| step.ServerError? || step.ClientError? || step.Cut?
                || (step.ClientRead? && s.downPos < s'.downPos))
            && (!step.ServerError? ==> s'.server.status == s.server.status)
            && (!step.ClientError? && |cfg.info.dataName| <= MAX_NAME ==> s'.client.status == s.client.status)
  {
    hide ReadMessage, WriteMessage, DoPollRead, DoPollWrite;
    if OfServer(step) {
      OnlyCopies(cfg, x, s, step, n);
    } else if step.ClientRead? {
      var m := s.downPos + step.k;
      assert s.client.got + s.down[s.downPos..m] == s.down[..m];
      if |cfg.info.dataName| <= MAX_NAME {
        HeaderNotDone(cfg, s, n, m);
      }
    }
  }

  lemma HeaderNotDone(cfg: Config, s: Session, n: nat, m: nat)
    requires ShortServer(cfg, s, n) && cfg.info.encrypted && 0 < m <= |s.down| && |cfg.info.dataName| <= MAX_NAME
    ensures !HeaderDone(cfg.num, s.down[..m])
  {
    assert s.down[..m][0] == Byte(HeaderBytes(cfg.info)[0]);
  }

  // ----- without -----

  /** What the client takes for the header, exactly. */
  lemma MisreadExact(cfg: Config, n: nat, info: DataSrvInfo)
    requires n < |HeaderBytes(cfg.info)| && Sent(cfg, n) != []
    ensures var (sent, need) := (Sent(cfg, n), HeaderNeed(Sent(cfg, n)[0]));
            Misread(cfg, n, info, need) <==>
              need <= |sent| && ReadHeader(sent) == Ok(Parsed(info, sent[need..]))
  {
    var (sent, need) := (Sent(cfg, n), HeaderNeed(Sent(cfg, n)[0]));
    if need <= |sent| {
      ReadHeaderExact(sent, info, sent[need..]);
      ReadHeaderExact(sent[..need], info, []);
      assert sent[..need][1..need] == sent[1..need];
    }
  }

  /** A client that has got past a header that was cut short took other bytes than the header's for it,
      and all it has received, and has on its disk, came behind those; none of it is there if they do
      not make a header, or one that says encryption. */
  lemma ShiftedDownload(cfg: Config, s: Session)
    requires cfg.Valid() && !cfg.info.encrypted && Reachable(cfg, s) && s.short.Some?
    ensures s.client.received != [] || s.client.disk.Some? ==> s.client.pc == Draining
    ensures s.client.pc == Draining ==>
              var (n, sent) := (s.short.value, Sent(cfg, s.short.value));
              && sent != []
              && var need := HeaderNeed(sent[0]);
                 && n < need <= |sent| && s.client.info.Some? && !s.client.info.value.encrypted
                 && ReadHeader(sent) == Ok(Parsed(s.client.info.value, sent[need..]))
                 && s.client.received <= sent[need..]
                 && (s.client.status == Finished ==>
                       s.client.disk == Some(Resize(Kept(s.client), s.client.info.value.dataLength)))
                 && (s.client.ending == Some(EndOfStream) ==>
                       (s.client.received == sent[need..] <==> s.server.off == |cfg.file| && NothingCutOff(s)))
  {
    ReachableInv(cfg, s);
    var x := ScriptOf(cfg);
    hide ScriptOf, Works, Sent;
    if s.client.pc == Draining {
      ShiftedFacts(cfg, x, s, s.short.value);
    }
  }

  lemma ShiftedFacts(cfg: Config, x: Script, s: Session, n: nat)
    requires ShortInv(cfg, x, s, n) && s.client.pc == Draining
    ensures var sent := Sent(cfg, n);
            && sent != []
            && var need := HeaderNeed(sent[0]);
               && n < need <= |sent| && !s.client.info.value.encrypted
               && ReadHeader(sent) == Ok(Parsed(s.client.info.value, sent[need..]))
               && s.client.received <= sent[need..]
               && (s.client.ending == Some(EndOfStream) ==>
                     (s.client.received == sent[need..] <==> s.server.off == |cfg.file| && NothingCutOff(s)))
  {
    var sent := Sent(cfg, n);
    FirstByte(cfg, s, n);
    var need := HeaderNeed(sent[0]);
    MisreadExact(cfg, n, s.client.info.value);
    MisreadIsLonger(cfg, n, s.client.info.value, need);
    if s.client.ending == Some(EndOfStream) {
      ShiftedEnd(cfg, x, s, n);
    }
    hide Resize, Misread, ReadHeader, HeaderNeed, Sent;
    assert sent[need..][..|s.client.received|] == s.client.received;
  }

  /** The stored file of such a download is what came behind the misread header, cut off or filled up with
      zeros to the length that header says. If all was copied and arrived, it is the served file if and only
      if that makes the served file. */
  lemma ShiftedFile(cfg: Config, s: Session)
    requires cfg.Valid() && !cfg.info.encrypted && Reachable(cfg, s) && s.short.Some?
    requires s.client.ending == Some(EndOfStream) && s.server.off == |cfg.file| && NothingCutOff(s)
    ensures s.client.info.Some?
    ensures var sent := Sent(cfg, s.short.value);
            && sent != []
            && HeaderNeed(sent[0]) <= |sent|
            && (s.client.disk == Some(cfg.file) <==>
                  Resize(sent[HeaderNeed(sent[0])..], s.client.info.value.dataLength) == cfg.file)
  {
    ReachableInv(cfg, s);
    hide ScriptOf, Works, Sent, Reachable, Resize;
    ShiftedDownload(cfg, s);
  }

  /** When only the name was cut, the stored file, however the copy ended, is the served file if and only
      if that is all zeros. */
  lemma CutNameFile(cfg: Config, s: Session)
    requires cfg.Valid() && !cfg.info.encrypted && Reachable(cfg, s) && |cfg.info.dataName| <= MAX_NAME
    requires s.short.Some? && s.short.value >= 20 && s.client.status == Finished
    ensures s.client.disk == Some(cfg.file) <==> AllZero(cfg.file)
  {
    var n := s.short.value;
    FinishedDraining(cfg, s);
    hide Reachable, HeaderBytes, ReadHeader, Resize, Kept, AllZero, HeaderNeed;
    ShiftedDownload(cfg, s);
    ShortNameWrite(cfg.info, n, cfg.file);
    KeptIsReceived(s.client);
    ZerosOnly(cfg.file, |HeaderBytes(cfg.info)| - n, Kept(s.client));
  }

  lemma FinishedDraining(cfg: Config, s: Session)
    requires cfg.Valid() && Reachable(cfg, s) && s.short.Some? && s.client.status == Finished
    ensures s.client.pc == Draining && s.short.value < |HeaderBytes(cfg.info)|
  {
    ReachableInv(cfg, s);
    hide ScriptOf, Works, Reachable, HeaderBytes;
  }

  lemma KeptIsReceived(cl: Client)
    ensures Kept(cl) <= cl.received
  {
  }

  /** A part of a file from further on, filled up with zeros, is the file only if that is all zeros. */
  lemma ZerosOnly(file: seq<byte>, missing: nat, kept: seq<byte>)
    requires 1 <= missing <= |file| && kept <= file[missing..]
    ensures Resize(kept, |file|) == file <==> AllZero(file)
  {
    if Resize(kept, |file|) == file {
      forall i | 0 <= i < |file|
        ensures file[i] == 0
      {
        ZeroAt(file, missing, kept, i);
      }
    }
  }

  lemma {:induction false} ZeroAt(file: seq<byte>, missing: nat, kept: seq<byte>, i: nat)
    requires 1 <= missing <= |file| && kept <= file[missing..] && Resize(kept, |file|) == file && i < |file|
    ensures file[i] == 0
    decreases |file| - i
  {
    if i < |kept| {
      ZeroAt(file, missing, kept, i + missing);
    }
  }

  lemma FirstByte(cfg: Config, s: Session, n: nat)
    requires ShortServer(cfg, s, n) && s.down != []
    ensures Sent(cfg, n) != [] && Value(cfg.num, s.down[0]) == Sent(cfg, n)[0]
  {
    DownIsSent(cfg, s, n);
    assert Values(cfg.num, s.down[0..1]) == Sent(cfg, n)[0..1];
  }

  /** What the client receives is a prefix of the file in all runs in which just the first `n` bytes of
      the header go out, if and only if those and the file do not make an unencrypted header, or what is
      left behind it happens to be a prefix of the file. */
  lemma PrefixExactly(cfg: Config, n: nat)
    requires cfg.Valid() && !cfg.info.encrypted && n < |HeaderBytes(cfg.info)|
    requires cfg.writerCap >= 1 && cfg.readerCap >= 1
    ensures (forall s :: Reachable(cfg, s) && s.short == Some(n) ==> s.client.received <= cfg.file) <==>
              match ReadHeader(Sent(cfg, n))
              case Err(_) => true
              case Ok(Parsed(info, rest)) => info.encrypted || rest <= cfg.file
  {
    forall s | Reachable(cfg, s) && s.short == Some(n) && !(s.client.received <= cfg.file)
      ensures ReadHeader(Sent(cfg, n)).Ok? && !ReadHeader(Sent(cfg, n)).value.value.encrypted
      ensures !(ReadHeader(Sent(cfg, n)).value.rest <= cfg.file)
    {
      ShiftedDownload(cfg, s);
      assert s.client.received <= ReadHeader(Sent(cfg, n)).value.rest;
    }
    if ReadHeader(Sent(cfg, n)).Ok? && !ReadHeader(Sent(cfg, n)).value.value.encrypted {
      var s := ShiftedRun(cfg, n);
    }
  }

  // ----- the run that shows it -----

  /** Any part of the header can be all of it that goes out. */
  lemma ShortHappens(cfg: Config, n: nat) returns (s: Session)
    requires n < |HeaderBytes(cfg.info)|
    ensures Reachable(cfg, s) && s.short == Some(n) && s.server.status == Running
    ensures s.client == Initial(cfg).client && s.downPos == 0 && s.cutAt == None
    ensures !cfg.info.encrypted ==> s.server.pc == Copying && s.server.off == 0 && s.server.chunk == []
  {
    s := Initial(cfg);
    InitialReachable(cfg);
    hide Reachable, SerializeInfo;
    if n == 0 {
      ReachableStep(cfg, s, WriteHeader(0));
      s := Apply(cfg, s, WriteHeader(0)).value;
    } else {
      ReachableStep(cfg, s, WriteHeader(1));
      s := Apply(cfg, s, WriteHeader(1)).value;
      ReachableStep(cfg, s, WriteHeader(n - 1));
      s := Apply(cfg, s, WriteHeader(n - 1)).value;
    }
  }

  /** The server copies the rest of the file, byte by byte, and stops. */
  lemma {:induction false} CopyAll(cfg: Config, s: Session) returns (s': Session)
    requires !cfg.info.encrypted && cfg.writerCap >= 1 && Reachable(cfg, s) && s.server.status == Running
    requires s.server.pc == Copying && s.server.off <= |cfg.file| && s.server.chunk == []
    ensures Reachable(cfg, s') && s'.server.status == Finished && s'.server.off == |cfg.file|
    ensures s' == s.(server := s'.server, down := s'.down)
    decreases |cfg.file| - s.server.off
  {
    hide Reachable;
    if s.server.off == |cfg.file| {
      ReachableStep(cfg, s, ServerDone);
      s' := Apply(cfg, s, ServerDone).value;
    } else {
      ReachableStep(cfg, s, Fill(1));
      var s1 := Apply(cfg, s, Fill(1)).value;
      ReachableStep(cfg, s1, PollWrite(1));
      var s2 := Apply(cfg, s1, PollWrite(1)).value;
      hide Apply;
      s' := CopyAll(cfg, s2);
    }
  }

  /** The client takes the rest of what there is, byte by byte. */
  lemma {:induction false} DrainAll(cfg: Config, s: Session) returns (s': Session)
    requires cfg.Valid() && !cfg.info.encrypted && cfg.readerCap >= 1 && Reachable(cfg, s) && s.short.Some?
    requires s.client.status == Running && s.client.pc == Draining && s.cutAt == None
    ensures Reachable(cfg, s') && s'.short == s.short && s'.server == s.server && s'.down == s.down
    ensures s'.client.pc == Draining && s'.client.status == Running && s'.downPos == |s'.down| && s'.cutAt == None
    decreases |s.down| - s.downPos
  {
    ReachableInv(cfg, s);
    hide ScriptOf, Works, Reachable, Misread;
    if s.downPos == |s.down| {
      s' := s;
    } else {
      OneByte(cfg, s);
      ReachableStep(cfg, s, PollRead(1, false));
      hide AnyInv, Apply, DoPollRead;
      s' := DrainAll(cfg, DoPollRead(cfg, s, 1, false));
    }
  }

  lemma OneByte(cfg: Config, s: Session)
    requires cfg.readerCap >= 1 && s.client.info.Some? && !s.client.info.value.encrypted
    requires s.client.status == Running && s.client.pc == Draining && s.cutAt == None && s.downPos < |s.down|
    ensures Apply(cfg, s, PollRead(1, false)) == Some(DoPollRead(cfg, s, 1, false))
    ensures var s' := DoPollRead(cfg, s, 1, false);
            && s'.downPos == s.downPos + 1 && s' == s.(client := s'.client, downPos := s'.downPos)
            && s'.client.pc == Draining && s'.client.status == Running
  {
  }

  lemma ShiftedRun(cfg: Config, n: nat) returns (s: Session)
    requires cfg.Valid() && !cfg.info.encrypted && n < |HeaderBytes(cfg.info)|
    requires cfg.writerCap >= 1 && cfg.readerCap >= 1
    requires ReadHeader(Sent(cfg, n)).Ok? && !ReadHeader(Sent(cfg, n)).value.value.encrypted
    ensures Reachable(cfg, s) && s.short == Some(n) && s.server.off == |cfg.file| && s.server.status == Finished
    ensures s.client.received == ReadHeader(Sent(cfg, n)).value.rest
    ensures s.client.pc == Draining && s.client.status == Running && s.downPos == |s.down| && s.cutAt == None
    ensures s.client.info.Some? && !s.client.info.value.encrypted
  {
    s := ShortHappens(cfg, n);
    s := CopyAll(cfg, s);
    s := HeaderTaken(cfg, n, s);
    s := DrainAll(cfg, s);
    ReachableInv(cfg, s);
    ShiftedDownload(cfg, s);
    hide ScriptOf, Works, ReadHeader;
    assert |s.client.received| == |ReadHeader(Sent(cfg, n)).value.rest|;
  }

  /** And the run can go on to the end of the stream. */
  lemma ShiftedHappens(cfg: Config, n: nat) returns (s: Session)
    requires cfg.Valid() && !cfg.info.encrypted && n < |HeaderBytes(cfg.info)|
    requires cfg.writerCap >= 1 && cfg.readerCap >= 1
    requires ReadHeader(Sent(cfg, n)).Ok? && !ReadHeader(Sent(cfg, n)).value.value.encrypted
    ensures Reachable(cfg, s) && s.short == Some(n) && s.client.ending == Some(EndOfStream)
    ensures s.server.off == |cfg.file| && NothingCutOff(s)
    ensures var Parsed(info, rest) := ReadHeader(Sent(cfg, n)).value;
            s.client.disk == Some(Resize(rest, info.dataLength))
  {
    var s0 := ShiftedRun(cfg, n);
    hide ReadHeader, Reachable;
    s := Apply(cfg, s0, PollRead(0, true)).value;
    ReachableStep(cfg, s0, PollRead(0, true));
    ShiftedDownload(cfg, s);
  }

  /** The client reads all that it takes for the header. */
  lemma HeaderTaken(cfg: Config, n: nat, s: Session) returns (s': Session)
    requires cfg.Valid() && !cfg.info.encrypted && Reachable(cfg, s) && s.short == Some(n)
    requires s.server.status == Finished && s.client == Initial(cfg).client && s.downPos == 0 && s.cutAt == None
    requires ReadHeader(Sent(cfg, n)).Ok? && !ReadHeader(Sent(cfg, n)).value.value.encrypted
    ensures Reachable(cfg, s') && s'.short == s.short && s'.server == s.server && s'.down == s.down
    ensures s'.client.pc == Draining && s'.client.status == Running && s'.cutAt == None
  {
    ReachableInv(cfg, s);
    hide ScriptOf, Works, Reachable, SerializeInfo, DeserializeInfo;
    var sent := Sent(cfg, n);
    var Parsed(info, rest) := ReadHeader(sent).value;
    ReadHeaderExact(sent, info, rest);
    var need := HeaderNeed(sent[0]);
    DownIsSent(cfg, s, n);
    assert |s.down| == |sent| && sent[..|sent|] == sent;
    MisreadExact(cfg, n, info);
    assert s.down[0..need] == s.down[..need] && Values(cfg.num, s.down[..need]) == sent[..need];
    assert Value(cfg.num, s.down[0]) == sent[0] by {
      FirstByte(cfg, s, n);
    }
    hide ReadHeader, AnyInv, Sent, Values, Misread, Apply, Initial;
    FirstOctetTaken(cfg, s);
    ReachableStep(cfg, s, ClientRead(1));
    var s1 := Apply(cfg, s, ClientRead(1)).value;
    HeaderRead(cfg, s, need, info);
    ReachableStep(cfg, s1, ClientRead(need - 1));
    s' := Apply(cfg, s1, ClientRead(need - 1)).value;
  }

  lemma FirstOctetTaken(cfg: Config, s: Session)
    requires s.client == Initial(cfg).client && s.downPos == 0 && s.cutAt == None && s.down != []
    requires Value(cfg.num, s.down[0]) > 0
    ensures Apply(cfg, s, ClientRead(1)) == Some(s.(downPos := 1, client := s.client.(got := [s.down[0]])))
  {
    assert s.client.got + s.down[0..1] == [s.down[0]];
  }

  lemma HeaderRead(cfg: Config, s: Session, need: nat, info: DataSrvInfo)
    requires s.client == Initial(cfg).client && s.cutAt == None && 1 < need <= |s.down|
    requires need == HeaderNeed(Value(cfg.num, s.down[0])) && !info.encrypted
    requires ReadHeader(Values(cfg.num, s.down[..need])) == Ok(Parsed(info, []))
    ensures var s1 := s.(downPos := 1, client := s.client.(got := [s.down[0]]));
            var r := Apply(cfg, s1, ClientRead(need - 1));
            && r.Some? && r.value == s1.(client := r.value.client, downPos := need)
            && r.value.client.pc == Draining && r.value.client.status == Running
  {
    hide ReadHeader, Values;
    assert [s.down[0]] + s.down[1..need] == s.down[..need];
    assert s.down[..need][0] == s.down[0];
  }
}
