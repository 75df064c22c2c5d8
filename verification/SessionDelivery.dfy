/** What every run of a connection delivers: the part of the file the client has, exactly when it has
    all of it, and what is in the download file in the end. */
module SessionDelivery {
  import opened Wrappers
  import opened Bytes
  import opened Noise
  import opened Framing
  import opened EncryptedStream
  import opened Models
  import opened Session
  import opened SessionSafety
  import opened SessionLosses
  import opened ShortHeader

  /** `s` can be reached by some run. */
  ghost predicate Reachable(cfg: Config, s: Session) {
    exists steps :: Exec(cfg, Initial(cfg), steps) == Some(s)
  }

  lemma {:induction false} ExecAppend(cfg: Config, s: Session, steps: seq<Step>, last: Step)
    requires Exec(cfg, s, steps).Some?
    ensures Exec(cfg, s, steps + [last]) == Apply(cfg, Exec(cfg, s, steps).value, last)
    decreases |steps|
  {
    hide Apply;
    if steps == [] {
      assert [last][1..] == [];
      assert steps + [last] == [last];
    } else {
      assert (steps + [last])[1..] == steps[1..] + [last];
      ExecAppend(cfg, Apply(cfg, s, steps[0]).value, steps[1..], last);
    }
  }

  lemma ReachableStep(cfg: Config, s: Session, step: Step)
    requires Reachable(cfg, s) && Apply(cfg, s, step).Some?
    ensures Reachable(cfg, Apply(cfg, s, step).value)
  {
    hide Apply, Exec;
    var steps :| Exec(cfg, Initial(cfg), steps) == Some(s);
    ExecAppend(cfg, Initial(cfg), steps, step);
  }

  lemma InitialReachable(cfg: Config)
    ensures Reachable(cfg, Initial(cfg))
  {
    assert Exec(cfg, Initial(cfg), []) == Some(Initial(cfg));
  }

  lemma {:induction false} ReachableRun(cfg: Config, s: Session, steps: seq<Step>)
    requires Reachable(cfg, s) && Exec(cfg, s, steps).Some?
    ensures Reachable(cfg, Exec(cfg, s, steps).value)
    decreases |steps|
  {
    hide Reachable, Apply;
    if steps == [] {
    } else {
      ReachableStep(cfg, s, steps[0]);
      ReachableRun(cfg, Apply(cfg, s, steps[0]).value, steps[1..]);
    }
  }

  lemma ReachableInv(cfg: Config, s: Session)
    requires cfg.Valid() && Reachable(cfg, s)
    ensures AnyInv(cfg, ScriptOf(cfg), s) && Works(cfg, ScriptOf(cfg))
  {
    hide AnyInv, Works, ScriptOf;
    var steps :| Exec(cfg, Initial(cfg), steps) == Some(s);
    assert AnyInv(cfg, ScriptOf(cfg), Initial(cfg)) by {
      InitialInv(cfg);
      assert Initial(cfg).short == None;
      AnyIsInv(cfg, ScriptOf(cfg), Initial(cfg));
    }
    ExecInv(cfg, Initial(cfg), steps);
    ScriptWorks(cfg);
  }

  lemma WholeInv(cfg: Config, s: Session)
    requires cfg.Valid() && Reachable(cfg, s) && s.short == None
    ensures Inv(cfg, ScriptOf(cfg), s) && Works(cfg, ScriptOf(cfg))
  {
    hide Reachable, ScriptOf, Inv, ShortInv, Works;
    ReachableInv(cfg, s);
  }

  lemma AnyIsInv(cfg: Config, x: Script, s: Session)
    requires s.short == None
    ensures AnyInv(cfg, x, s) <==> Inv(cfg, x, s)
  {
  }

  /** With encryption, a header that did not go out whole leaves both sides where they are: the client
      reads it, the server waits for the client. */
  lemma ShortEncrypted(cfg: Config, s: Session)
    requires cfg.Valid() && cfg.info.encrypted && Reachable(cfg, s) && s.short.Some?
    ensures var (sv, cl) := (s.server, s.client);
            && sv.pc == ReceivingHello && sv.attempts == [] && sv.status != Refused
            && |s.down| < |HeaderBytes(cfg.info)|
            && cl.pc == ReadingHeader && cl.received == [] && cl.nonce == 0 && cl.disk == None && cl.ending == None
            && (cl.status == Running || cl.status == Failed)
  {
    ReachableInv(cfg, s);
    hide ScriptOf, Works;
  }

  /** Whatever the interleaving, the splits, the polls and the failures: what the client has taken
      out of the stream is a prefix of the server's file; on an unencrypted connection, as long as the
      header went out whole. */
  lemma ReceivedIsPrefix(cfg: Config, s: Session)
    requires cfg.Valid() && Reachable(cfg, s) && (cfg.info.encrypted || s.short == None)
    ensures s.client.received <= cfg.file
  {
    if s.short.Some? {
      ShortEncrypted(cfg, s);
    } else {
      hide ServerInv, Works, ScriptOf;
      ReachableInv(cfg, s);
    }
  }

  /** The nonces are in step: the client has decrypted exactly the first `nonce` of the frames that
      were sealed, in order and once each; every one of them went out whole; what it received is
      what they carried. */
  lemma NoncesInStep(cfg: Config, s: Session)
    requires cfg.Valid() && cfg.info.encrypted && Reachable(cfg, s)
    ensures s.client.nonce <= |s.server.attempts|
    ensures forall i :: 0 <= i < s.client.nonce ==> s.server.attempts[i].Complete()
    ensures s.client.received == Carried(s.server.attempts[..s.client.nonce])
  {
    hide Works, ScriptOf, ServerReads, ServerScript, ClientReads, ClientScript, ClientDisk;
    var (polls, m) := (s.server.attempts, s.client.nonce);
    if s.short.Some? {
      ShortEncrypted(cfg, s);
      assert polls[..m] == [];
      return;
    }
    ReachableInv(cfg, s);
    assert forall i :: 0 <= i < m ==> polls[..m][i] == polls[i];
    PollsPrefix(cfg.file, polls, m);
    CarriedFromFile(cfg.file, polls[..m]);
    assert cfg.file[..0] == [] && polls[..0] == [];
  }

  /** The chunks of a list of polls, one after the other. */
  function Carried(polls: seq<Attempt>): seq<byte> {
    if polls == [] then [] else Carried(polls[..|polls| - 1]) + polls[|polls| - 1].chunk
  }

  lemma {:induction false} CarriedFromFile(file: seq<byte>, polls: seq<Attempt>)
    requires PollsFrom(file, polls) && AllComplete(polls)
    ensures CompletedLen(polls) <= |file| && Carried(polls) == file[..CompletedLen(polls)]
    decreases |polls|
  {
    if polls == [] {
    } else {
      var (before, last) := (polls[..|polls| - 1], polls[|polls| - 1]);
      CarriedFromFile(file, before);
      var off := CompletedLen(before);
      assert file[..off] + last.chunk == file[..off + |last.chunk|];
    }
  }

  /** On the wire every chunk costs 18 bytes more than it carries. */
  lemma {:induction false} FramesCost(polls: seq<Attempt>)
    requires AllComplete(polls)
    ensures FramesLen(polls) == CompletedLen(polls) + 18 * |polls|
    decreases |polls|
  {
    if polls == [] {
    } else {
      FramesCost(polls[..|polls| - 1]);
    }
  }

  /** Every ciphertext fits the 65535-byte buffer and the 16-bit length, and once every poll has
      completed, the wire carries the file so far and 18 bytes for each of its chunks. */
  lemma WireCost(cfg: Config, s: Session)
    requires cfg.Valid() && cfg.info.encrypted && Reachable(cfg, s) && s.server.pc == Copying
    ensures forall i :: 0 <= i < |s.server.attempts| ==> |s.server.attempts[i].chunk| + TAG_LEN <= MAX_CHUNK_SIZE
    ensures AllComplete(s.server.attempts) ==>
              |s.down| == |HeaderBytes(cfg.info)| + 99 + s.server.off + 18 * |s.server.attempts|
  {
    if s.short.Some? {
      ShortEncrypted(cfg, s);
      assert false;
    }
    ReachableInv(cfg, s);
    hide ServerInv, ClientInv, Shape, ScriptOf;
    WireCostSoFar(cfg, ScriptOf(cfg), s);
  }

  lemma WireCostSoFar(cfg: Config, x: Script, s: Session)
    requires Shape(cfg, x) && ServerInv(cfg, x, s) && cfg.info.encrypted && s.server.pc == Copying
    ensures forall i :: 0 <= i < |s.server.attempts| ==> |s.server.attempts[i].chunk| + TAG_LEN <= MAX_CHUNK_SIZE
    ensures AllComplete(s.server.attempts) ==>
              |s.down| == |HeaderBytes(cfg.info)| + 99 + s.server.off + 18 * |s.server.attempts|
  {
    var polls := s.server.attempts;
    hide ServerReads, Wire;
    assert s.down == s.down + [];
    WireLength(cfg.file, FileKey(x), polls);
    if AllComplete(polls) {
      FramesCost(polls);
    }
    forall i | 0 <= i < |polls|
      ensures |polls[i].chunk| + TAG_LEN <= MAX_CHUNK_SIZE
    {
      NthPoll(cfg.file, polls, i);
    }
  }

  // ----- exact delivery -----

  /** How much of what was written can still reach the client after it took `downPos` octets. */
  predicate NothingCutOff(s: Session) {
    s.Limit() == |s.down|
  }

  /** The client has the whole file exactly when the server has gone through all of it, every write
      poll on the way wrote its whole frame, and the client has decrypted every frame. */
  lemma WholeFile(cfg: Config, x: Script, s: Session)
    requires Inv(cfg, x, s) && cfg.info.encrypted && s.client.pc == Draining
    ensures s.client.received == cfg.file <==>
            s.server.off == |cfg.file| && AllComplete(s.server.attempts) && s.client.nonce == |s.server.attempts|
  {
    hide ServerReads, ServerScript, ClientReads, ClientScript, ClientDisk, Wire;
    var (polls, m) := (s.server.attempts, s.client.nonce);
    if m < |polls| {
      NthPoll(cfg.file, polls, m);
    } else {
      assert polls[..m] == polls;
      PollsPrefix(cfg.file, polls, m);
    }
  }

  /** Counting octets: all that was written is what the delivered frames hold, what polls lost, and
      what the client has not taken. */
  lemma OctetsCount(cfg: Config, x: Script, s: Session)
    requires Shape(cfg, x) && Inv(cfg, x, s) && cfg.info.encrypted && s.client.pc == Draining
    ensures var polls := s.server.attempts;
            && s.downPos == FileStart(cfg, x) + FramesLen(polls[..s.client.nonce]) + s.client.lost
            && |s.down| <= FileStart(cfg, x) + FramesLen(polls)
            && (AllComplete(polls) <==> |s.down| == FileStart(cfg, x) + FramesLen(polls))
            && FramesLen(polls[..s.client.nonce]) + (|polls| - s.client.nonce) <= FramesLen(polls)
  {
    hide ServerReads, ClientReads, ClientScript, ClientDisk, Wire;
    assert s.down == s.down + [];
    WireLength(cfg.file, FileKey(x), s.server.attempts);
    PollsPrefix(cfg.file, s.server.attempts, s.client.nonce);
  }

  lemma {:induction false} ExecLosses(cfg: Config, s: Session, steps: seq<Step>)
    requires cfg.Valid() && cfg.info.encrypted && AnyInv(cfg, ScriptOf(cfg), s) && Exec(cfg, s, steps).Some?
    requires s.short == None ==> Losses(cfg, s)
    ensures Exec(cfg, s, steps).value.short == None ==> Losses(cfg, Exec(cfg, s, steps).value)
    decreases |steps|
  {
    if steps == [] {
    } else {
      var (x, s1) := (ScriptOf(cfg), Apply(cfg, s, steps[0]).value);
      hide ScriptOf, Losses, Inv, ShortInv, Apply, Works;
      ScriptWorks(cfg);
      AnyKept(cfg, x, s, steps[0]);
      ShortSticks(cfg, s, steps[0]);
      if s1.short == None {
        LossesKept(cfg, x, s, steps[0]);
      }
      ExecLosses(cfg, s1, steps[1..]);
    }
  }

  lemma ReachableLosses(cfg: Config, s: Session)
    requires cfg.Valid() && cfg.info.encrypted && Reachable(cfg, s) && s.short == None
    ensures Losses(cfg, s)
  {
    hide AnyInv, Losses, ScriptOf;
    var steps :| Exec(cfg, Initial(cfg), steps) == Some(s);
    InitialReachable(cfg);
    ReachableInv(cfg, Initial(cfg));
    InitialLosses(cfg);
    ExecLosses(cfg, Initial(cfg), steps);
  }

  /** Every chunk that was sealed fits the client's buffer. */
  predicate ChunksFit(cfg: Config, s: Session) {
    forall i :: 0 <= i < |s.server.attempts| ==> |s.server.attempts[i].chunk| <= cfg.readerCap
  }

  /** When the copy on the client's side has ended, with the end of the stream or with a frame that does
      not decrypt, the download has the whole file if and only if the server had copied all of it, every
      write poll wrote all of its frame, every chunk fitted the client's buffer, no read poll was pending
      after it had taken something, and nothing was cut off on the way. */
  lemma DeliveryExact(cfg: Config, s: Session)
    requires cfg.Valid() && cfg.info.encrypted && Reachable(cfg, s)
    requires s.client.ending == Some(EndOfStream) || s.client.ending == Some(BadFrame)
    ensures s.client.received == cfg.file <==>
            && s.server.off == |cfg.file|
            && AllComplete(s.server.attempts) && ChunksFit(cfg, s)
            && s.client.dropped == 0
            && NothingCutOff(s)
  {
    if s.short.Some? {
      ShortEncrypted(cfg, s);
      assert false;
    }
    ReachableInv(cfg, s);
    ReachableLosses(cfg, s);
    var x := ScriptOf(cfg);
    hide Reachable, ScriptOf, Inv, Losses, Shape, AllComplete, ChunksFit, NothingCutOff;
    EndedDraining(cfg, x, s);
    if s.client.received == cfg.file {
      WholeFileLosesNothing(cfg, s);
      WholeFileFits(cfg, x, s);
    } else if s.server.off == |cfg.file| && AllComplete(s.server.attempts) && ChunksFit(cfg, s)
              && s.client.dropped == 0 && NothingCutOff(s) {
      AllArrived(cfg, x, s);
    }
  }

  lemma WholeFileFits(cfg: Config, x: Script, s: Session)
    requires Inv(cfg, x, s) && cfg.info.encrypted && s.client.pc == Draining && Losses(cfg, s)
    requires s.client.received == cfg.file && s.client.lost == 0
    ensures s.server.off == |cfg.file| && AllComplete(s.server.attempts) && ChunksFit(cfg, s) && s.client.dropped == 0
  {
    WholeFile(cfg, x, s);
    hide Inv, AllComplete;
  }

  lemma EndedDraining(cfg: Config, x: Script, s: Session)
    requires Inv(cfg, x, s) && s.client.ending.Some?
    ensures s.client.pc == Draining && s.client.status == Finished
    ensures s.client.ending == Some(EndOfStream) ==> s.downPos == s.Limit()
  {
    hide ServerInv, ClientReads, ClientHasPolls, ClientHasPlain;
  }

  lemma AllArrived(cfg: Config, x: Script, s: Session)
    requires Shape(cfg, x) && Inv(cfg, x, s) && cfg.info.encrypted && Losses(cfg, s)
    requires s.client.ending == Some(EndOfStream) || s.client.ending == Some(BadFrame)
    requires s.server.off == |cfg.file| && AllComplete(s.server.attempts) && ChunksFit(cfg, s)
    requires s.client.dropped == 0 && NothingCutOff(s)
    ensures s.client.received == cfg.file
  {
    EndedDraining(cfg, x, s);
    WholeFile(cfg, x, s);
    OctetsCount(cfg, x, s);
    hide Inv, Shape, FramesLen;
    var polls := s.server.attempts;
    assert s.client.lost == 0;
  }

  /** Before the end, too: once the client has the whole file, nothing was lost on the way. */
  lemma WholeFileLosesNothing(cfg: Config, s: Session)
    requires cfg.Valid() && cfg.info.encrypted && Reachable(cfg, s) && s.client.pc == Draining
    requires s.client.received == cfg.file
    ensures AllComplete(s.server.attempts) && s.client.lost == 0 && NothingCutOff(s) && s.downPos == |s.down|
  {
    if s.short.Some? {
      ShortEncrypted(cfg, s);
      assert false;
    }
    ReachableInv(cfg, s);
    var x := ScriptOf(cfg);
    hide ScriptOf, Works, ServerInv, ClientReads, ClientScript, ClientHasPolls, FramesLen;
    WholeFile(cfg, x, s);
    OctetsCount(cfg, x, s);
    assert s.server.attempts[..s.client.nonce] == s.server.attempts;
  }

  /** The same without encryption, where polls neither seal nor lose anything, but where a header that
      did not go out whole costs the start of the file: whatever the client then takes for the file is
      shorter than the file. */
  lemma PlainDeliveryExact(cfg: Config, s: Session)
    requires cfg.Valid() && !cfg.info.encrypted && Reachable(cfg, s)
    requires s.client.ending == Some(EndOfStream)
    ensures s.client.received == cfg.file <==> s.server.off == |cfg.file| && NothingCutOff(s) && s.short == None
  {
    ReachableInv(cfg, s);
    hide ScriptOf, ServerReads, ClientReads, ClientScript;
    if s.short.Some? {
      ShiftedEnd(cfg, ScriptOf(cfg), s, s.short.value);
    } else {
      assert s.down + [] == s.down;
    }
  }

  // ----- the download file -----

  /** `download_to_file` returns Ok once the copy has ended, whatever ended it. The file then has the
      announced length; it starts with what was received and kept, a prefix of the served file; and
      everything behind that is zeros. */
  lemma DownloadedFile(cfg: Config, s: Session)
    requires cfg.Valid() && Reachable(cfg, s) && s.client.status == Finished
    requires cfg.info.encrypted || s.short == None
    ensures s.client.disk.Some?
    ensures var (disk, kept) := (s.client.disk.value, Kept(s.client));
            && |disk| == |cfg.file|
            && kept <= cfg.file && kept <= disk
            && (forall i :: |kept| <= i < |disk| ==> disk[i] == 0)
            && (disk == cfg.file <==> forall i :: |kept| <= i < |cfg.file| ==> cfg.file[i] == 0)
  {
    hide ScriptOf, Works, ServerInv, ClientReads, ClientScript;
    if s.short.Some? {
      ShortEncrypted(cfg, s);
      assert false;
    }
    ReachableInv(cfg, s);
    ReceivedIsPrefix(cfg, s);
    var (disk, kept) := (s.client.disk.value, Kept(s.client));
    assert kept <= cfg.file;
    if forall i :: |kept| <= i < |cfg.file| ==> cfg.file[i] == 0 {
      assert disk == cfg.file;
    }
  }

  /** On an encrypted connection no download ends, and returns Ok, because of an error of the stream:
      `poll_read` panics on that. */
  lemma StreamErrorsEndNoDownload(cfg: Config, s: Session)
    requires cfg.Valid() && cfg.info.encrypted && Reachable(cfg, s)
    ensures s.client.ending != Some(StreamError)
  {
    if s.short.Some? {
      ShortEncrypted(cfg, s);
    } else {
      ReachableLosses(cfg, s);
    }
  }

  /** The first `kept` bytes of what was received, then zeros, up to the announced length. */
  predicate StoredUpTo(disk: Option<seq<byte>>, received: seq<byte>, kept: nat, length: nat)
    requires kept <= |received|
  {
    && disk.Some? && |disk.value| == length
    && forall i :: 0 <= i < length ==> disk.value[i] == if i < kept then received[i] else 0
  }

  /** What an error makes of a client `cl`. */
  predicate EndsBy(cl: Client, step: Step, cl': Client) {
    if cl.pc != Draining then step.ClientError? && cl.disk == None && cl' == cl.(status := Failed)
    else
      && cl.info.Some? && cl.disk == Some(cl.received)
      && if step.ClientError? && cl.info.value.encrypted then cl' == cl.(status := Panicked)
         else
           && cl' == cl.(status := Finished, ending := cl'.ending, disk := cl'.disk)
           && cl'.ending == Some(if step.DiskFull? then DiskError(step.kept) else StreamError)
           && (step.DiskFull? ==> step.kept <= |cl.received|)
           && StoredUpTo(cl'.disk, cl.received, if step.DiskFull? then step.kept else |cl.received|,
                         cl.info.value.dataLength)
  }

  /** Before the download an error fails the client, and there is no file. During the download, an error of
      an encrypted stream is a panic, and the file stays as it is: what was received. An error of the stream
      without encryption, or of the disk, ends the copy as if it were done: the download returns Ok over
      what came, or what the disk kept, and zeros. */
  lemma ErrorEnds(cfg: Config, s: Session, step: Step)
    requires cfg.Valid() && Reachable(cfg, s) && (step.ClientError? || step.DiskFull?)
    requires Apply(cfg, s, step).Some?
    ensures var cl' := Apply(cfg, s, step).value.client;
            Apply(cfg, s, step).value == s.(client := cl') && EndsBy(s.client, step, cl')
  {
    ReachableInv(cfg, s);
    hide Reachable, AnyInv, ScriptOf, Works, EndsBy;
    RunningClient(cfg, ScriptOf(cfg), s);
    ErrorStep(cfg, s, step);
  }

  lemma ErrorStep(cfg: Config, s: Session, step: Step)
    requires Apply(cfg, s, step).Some? && (step.ClientError? || step.DiskFull?)
    requires s.client.pc == Draining ==> s.client.info.Some? && s.client.disk == Some(s.client.received)
    requires s.client.pc != Draining ==> s.client.disk == None
    ensures var cl' := Apply(cfg, s, step).value.client;
            Apply(cfg, s, step).value == s.(client := cl') && EndsBy(s.client, step, cl')
  {
    hide DoClientRead, DoPollRead, DoClientWrite, ServerStep;
  }

  /** Every finished download, with or without a whole header: the file has the length that the client was
      told, and holds all that was received (or, after an error of the disk, what the disk kept) and zeros. */
  lemma FinishedFile(cfg: Config, s: Session)
    requires cfg.Valid() && Reachable(cfg, s) && s.client.status == Finished
    ensures s.client.info.Some? && s.client.ending.Some?
    ensures var (cl, ending) := (s.client, s.client.ending.value);
            && (ending.DiskError? ==> ending.kept <= |cl.received|)
            && StoredUpTo(cl.disk, cl.received, if ending.DiskError? then ending.kept else |cl.received|,
                          cl.info.value.dataLength)
  {
    ReachableInv(cfg, s);
    hide Reachable, ScriptOf, Works;
    StoredClient(cfg, ScriptOf(cfg), s);
  }

  lemma StoredClient(cfg: Config, x: Script, s: Session)
    requires AnyInv(cfg, x, s) && s.client.status == Finished
    ensures s.client.info.Some? && s.client.ending.Some?
    ensures s.client.disk == Some(Resize(Kept(s.client), s.client.info.value.dataLength))
    ensures s.client.ending.value.DiskError? ==> s.client.ending.value.kept <= |s.client.received|
  {
    hide Resize, Kept, Misread, HeaderNeed;
  }

  /** And the server's side fails, whatever it was at, and writes nothing, by an error of its own or of the
      approver. */
  lemma ServerErrorEnds(cfg: Config, s: Session, step: Step)
    requires Apply(cfg, s, step).Some? && (step.ServerError? || step.ApproverError?)
    ensures Apply(cfg, s, step) == Some(s.(server := s.server.(status := Failed)))
  {
  }

  /** A message of the handshake that is whole and does not open fails whichever side reads it, and nothing is
      written. */
  lemma BadMessageFails(cfg: Config, s: Session, step: Step)
    requires Apply(cfg, s, step).Some?
    requires
      || (step.ServerRead? &&
          var (got, pc) := (s.server.got + s.up[s.upPos..s.upPos + step.k], s.server.pc);
          FrameDone(cfg.num, got)
          && ReadMessage(s.server.noise, if pc == ReceivingHello then MSG1 else MSG3, got[2..]) == None)
      || (step.ClientRead? && s.client.pc == ReceivingReply &&
          var got := s.client.got + s.down[s.downPos..s.downPos + step.k];
          FrameDone(cfg.num, got) && ReadMessage(s.client.noise, MSG2, got[2..]) == None)
    ensures var s' := Apply(cfg, s, step).value;
            && s'.down == s.down && s'.up == s.up
            && (step.ServerRead? ==> s'.server.status == Failed && s'.client == s.client)
            && (step.ClientRead? ==> s'.client.status == Failed && s'.server == s.server && s'.client.disk == s.client.disk)
  {
    hide ReadMessage, WriteMessage, DoPollRead, DoPollWrite, ReadHeader;
  }

  lemma RunningClient(cfg: Config, x: Script, s: Session)
    requires AnyInv(cfg, x, s) && s.client.status == Running
    ensures s.client.pc == Draining ==> s.client.info.Some? && s.client.disk == Some(s.client.received)
    ensures s.client.pc != Draining ==> s.client.disk == None
  {
  }

  /** No download file is created, and none is truncated, until the header is in and, on an encrypted
      connection, the server has approved; a refused client never touches it. */
  lemma FileUntouchedBeforeApproval(cfg: Config, s: Session)
    requires cfg.Valid() && Reachable(cfg, s) && s.client.disk.Some?
    ensures s.server.pc == Copying && (s.short == None ==> s.client.info == Some(cfg.info))
    ensures cfg.info.encrypted ==> s.server.approved
  {
    hide ScriptOf, Works, ServerReads, ClientReads, ClientScript;
    ReachableInv(cfg, s);
  }

  /** On an encrypted connection an octet behind the verdict is on the wire only if the verdict was
      an approval; and a refused client gets the header, the reply and the refusing byte, no more. */
  lemma FileOctetsNeedApproval(cfg: Config, s: Session)
    requires cfg.Valid() && cfg.info.encrypted && Reachable(cfg, s)
    ensures |s.down| > |HeaderBytes(cfg.info)| + 99 ==> s.server.pc == Copying && s.server.approved
    ensures s.server.status == Refused ==>
              |s.down| == |HeaderBytes(cfg.info)| + 99 && s.down[|s.down| - 1] == Byte(0)
    ensures s.client.status == Refused ==> s.server.status == Refused && !s.server.approved
  {
    if s.short.Some? {
      ShortEncrypted(cfg, s);
      return;
    }
    ReachableInv(cfg, s);
    hide Inv, ScriptOf, Shape;
    OctetsNeedApproval(cfg, ScriptOf(cfg), s);
  }

  lemma OctetsNeedApproval(cfg: Config, x: Script, s: Session)
    requires Shape(cfg, x) && Inv(cfg, x, s) && cfg.info.encrypted
    ensures |s.down| > |HeaderBytes(cfg.info)| + 99 ==> s.server.pc == Copying && s.server.approved
    ensures s.server.status == Refused ==>
              |s.down| == |HeaderBytes(cfg.info)| + 99 && s.down[|s.down| - 1] == Byte(0)
    ensures s.client.status == Refused ==> s.server.status == Refused && !s.server.approved
  {
    hide ServerReads, Wire, Frame, ClientDisk, ClientScript;
    DownFollowsScript(cfg, x, s);
    assert s.server.out == [] ==> s.down + [] == s.down;
  }

  /** The server has the client's own static public key when it asks the approver, and the two ends
      of the transport phase hold the same key. */
  lemma ApproverSeesClientKey(cfg: Config, s: Session)
    requires cfg.Valid() && cfg.info.encrypted && Reachable(cfg, s)
    ensures (s.server.pc == Submitting || s.server.pc == Awaiting || s.server.pc == SendingVerdict || s.server.pc == Copying)
            ==> s.server.noise.rs == PublicKey(cfg.keys.sc)
    ensures s.client.pc == Draining ==> s.server.pc == Copying && ClientKey(s.client) == ServerKey(s.server)
  {
    if s.short.Some? {
      ShortEncrypted(cfg, s);
    } else {
      ReachableInv(cfg, s);
      hide ScriptOf, ServerScript, ClientScript;
    }
  }

  /** The step machines take the steps of the two `key_exchange` functions: when the server is through with
      its exchange, the outcome, and what it wrote behind the header, is what `ServerExchange` says of what
      it has read. */
  lemma ExchangeIsServers(cfg: Config, s: Session)
    requires cfg.Valid() && cfg.info.encrypted && Reachable(cfg, s)
    requires s.server.pc == Copying || s.server.status == Refused
    ensures s.upPos <= |s.up| && |HeaderBytes(cfg.info)| <= |s.down|
    ensures var (result, out) := ServerExchange(cfg.num, s.up[..s.upPos], cfg.keys.es, cfg.keys.ss, Interactive,
                                                _ => Some(s.server.approved));
            && result == (if s.server.status == Refused then ClientNotAccepted else Established(s.server.noise))
            && out <= s.down[|HeaderBytes(cfg.info)|..]
  {
    if s.short.Some? {
      ShortEncrypted(cfg, s);
      assert false;
    }
    var x := ScriptOf(cfg);
    hide Reachable, Inv, ScriptOf, Works, ServerExchange, HeaderBytes, Write1, Write2, Write3;
    WholeInv(cfg, s);
    NamesOfScript(cfg);
    ServerHalf(cfg.num, cfg.keys, _ => Some(s.server.approved));
    ServerPart(cfg, x, s);
  }

  lemma NamesOfScript(cfg: Config)
    ensures var (x, k) := (ScriptOf(cfg), cfg.keys);
            && x.header == Plain(HeaderBytes(cfg.info)) && x.hello == Frame(Write1(k).out)
            && x.reply == Frame(Write2(k).out) && x.identity == Frame(Write3(k).out)
            && x.server3 == Server3(k) && x.client3 == Write3(k).hs
  {
  }

  lemma ServerPart(cfg: Config, x: Script, s: Session)
    requires Works(cfg, x) && Inv(cfg, x, s) && cfg.info.encrypted
    requires s.server.pc == Copying || s.server.status == Refused
    ensures s.upPos <= |s.up| && s.up[..s.upPos] == x.hello + x.identity && s.server.noise == x.server3
    ensures s.server.approved <==> s.server.status != Refused
    ensures |x.header| <= |s.down| && x.reply + ApprovalByte(s.server.approved) <= s.down[|x.header|..]
  {
    hide ClientReads, ClientDisk, ReadMessage, WriteMessage, Frame, Wire;
    UpFollowsScript(cfg, x, s);
    var front := x.header + x.reply + ApprovalByte(s.server.approved);
    assert s.down + [] == s.down;
    assert front <= s.down && front[|x.header|..] == x.reply + ApprovalByte(s.server.approved);
  }

  /** And when the client is, what it wrote is all that `ClientExchange` writes on what came behind the
      header, and its outcome is that one's; the file starts where that one stops reading. */
  lemma ExchangeIsClients(cfg: Config, s: Session)
    requires cfg.Valid() && cfg.info.encrypted && Reachable(cfg, s)
    requires s.client.pc == Draining || s.client.status == Refused
    ensures |HeaderBytes(cfg.info)| + 99 <= |s.down|
    ensures var result := if s.client.status == Refused then ClientNotAccepted else Established(s.client.noise);
            ClientExchange(cfg.num, s.down[|HeaderBytes(cfg.info)|..], cfg.keys.ec, cfg.keys.sc)
            == (result, s.up, s.down[|HeaderBytes(cfg.info)| + 99..])
  {
    if s.short.Some? {
      ShortEncrypted(cfg, s);
      assert false;
    }
    var (x, n) := (ScriptOf(cfg), |HeaderBytes(cfg.info)|);
    hide Reachable, Inv, ScriptOf, Works, ClientExchange, HeaderBytes, Write1, Write2, Write3, Frame, ApprovalByte, Plain;
    WholeInv(cfg, s);
    NamesOfScript(cfg);
    ClientPart(cfg, x, s);
    var later := s.down[n + 99..];
    ClientHalf(cfg.num, cfg.keys, s.client.status != Refused, later);
    assert s.down[n..] == Frame(Write2(cfg.keys).out) + ApprovalByte(s.client.status != Refused) + later;
  }

  lemma ClientPart(cfg: Config, x: Script, s: Session)
    requires Works(cfg, x) && Inv(cfg, x, s) && cfg.info.encrypted
    requires s.client.pc == Draining || s.client.status == Refused
    ensures s.up == x.hello + x.identity && s.client.noise == x.client3
    ensures var n := |x.header|;
            && n + 99 <= |s.down|
            && s.down[n..] == x.reply + ApprovalByte(s.client.status != Refused) + s.down[n + 99..]
  {
    hide ServerReads, ClientDisk, ReadMessage, WriteMessage, Frame, Wire;
    DownFollowsScript(cfg, x, s);
    var n := |x.header|;
    assert s.up + [] == s.up;
    assert |s.down| >= n + 99 by {
      hide ServerInv;
    }
    assert s.down[n..n + 98] == x.reply[..98] == x.reply;
    assert s.down[n..] == s.down[n..n + 98] + [s.down[n + 98]] + s.down[n + 99..];
  }

  /** A file name of more than 236 bytes stops every download at a header that went out whole; past
      that header the client holds the very header that was sent. */
  lemma LongNamesStopAtHeader(cfg: Config, s: Session)
    requires cfg.Valid() && Reachable(cfg, s) && s.short == None
    ensures |cfg.info.dataName| > MAX_NAME ==> s.client.pc == ReadingHeader && s.client.disk == None
    ensures s.client.pc != ReadingHeader ==> s.client.info == Some(cfg.info)
  {
    hide ScriptOf, Works, ServerInv, ClientReads, ClientScript;
    ReachableInv(cfg, s);
  }
}
