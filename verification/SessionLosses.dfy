/** What the client of an encrypted connection loses, and why: every octet that a poll took without
    delivering it was taken by a poll that was then pending, or by the last poll of all. */
module SessionLosses {
  import opened Wrappers
  import opened Bytes
  import opened Noise
  import opened Framing
  import opened EncryptedStream
  import opened Models
  import opened Session
  import opened SessionSafety

  /** The write poll whose frame the client waits for did not write all of it. */
  predicate Unfinished(s: Session) {
    s.client.nonce < |s.server.attempts| && !s.server.attempts[s.client.nonce].Complete()
  }

  /** Or its chunk is too large for the client's buffer. */
  predicate Oversized(cfg: Config, s: Session) {
    s.client.nonce < |s.server.attempts| && |s.server.attempts[s.client.nonce].chunk| > cfg.readerCap
  }

  predicate Losses(cfg: Config, s: Session) {
    var cl := s.client;
    && cl.dropped <= cl.lost
    && cl.nonce <= |s.server.attempts|
    && (forall i :: 0 <= i < cl.nonce ==> |s.server.attempts[i].chunk| <= cfg.readerCap)
    && cl.ending != Some(StreamError)
    && (cl.ending != Some(BadFrame) && cl.ending != Some(EndOfStream) ==> cl.lost == cl.dropped)
    && (cl.ending == Some(BadFrame) ==> cl.lost > cl.dropped && (cl.dropped == 0 ==> Unfinished(s) || Oversized(cfg, s)))
    && (cl.ending == Some(EndOfStream) && cl.dropped == 0 && cl.lost > 0 ==> s.Limit() < |s.down| || Unfinished(s))
  }

  // ----- what lies ahead -----

  /** What a list of polls put on the wire starts with what its first `m` put there. */
  lemma {:induction false} WireStarts(key: Key, polls: seq<Attempt>, m: nat)
    requires m <= |polls|
    ensures Wire(key, polls[..m]) <= Wire(key, polls)
    decreases |polls|
  {
    if m == |polls| {
      assert polls[..m] == polls;
    } else {
      assert polls[..|polls| - 1][..m] == polls[..m];
      WireStarts(key, polls[..|polls| - 1], m);
    }
  }

  lemma AllCompletePrefix(polls: seq<Attempt>, m: nat)
    requires AllComplete(polls) && m <= |polls|
    ensures AllComplete(polls[..m])
  {
  }

  /** Behind the frames of the first `m` polls comes the frame of poll `m`. */
  lemma {:induction false} WireAt(file: seq<byte>, key: Key, polls: seq<Attempt>, m: nat)
    requires PollsFrom(file, polls) && AllComplete(polls) && m < |polls|
    ensures FramesLen(polls[..m]) + |polls[m].chunk| + 18 <= |Wire(key, polls)|
    ensures Wire(key, polls)[FramesLen(polls[..m])..][..|polls[m].chunk| + 18] == SealedFrame(key, m, polls[m].chunk)
    decreases |polls|
  {
    var (before, last) := (polls[..|polls| - 1], polls[|polls| - 1]);
    AllCompletePrefix(polls, |polls| - 1);
    WireLength(file, key, before);
    var frame := SealedFrame(key, |polls| - 1, last.chunk);
    assert Piece(key, |polls| - 1, last) == frame;
    assert Wire(key, polls) == Wire(key, before) + frame;
    if m == |polls| - 1 {
      assert (Wire(key, before) + frame)[FramesLen(before)..] == frame;
    } else {
      assert before[..m] == polls[..m];
      WireAt(file, key, before, m);
      var n := FramesLen(polls[..m]);
      assert (Wire(key, before) + frame)[n..][..|polls[m].chunk| + 18]
          == Wire(key, before)[n..][..|polls[m].chunk| + 18];
    }
  }

  lemma FrameCutShort(cfg: Config, x: Script, nonce: nat, chunk: seq<byte>, k: nat)
    requires |chunk| <= MAX_PLAINTEXT && k < |chunk| + 18
    ensures Recv(cfg.num, SealedFrame(FileKey(x), nonce, chunk)[..k]) == EndOfFile
  {
  }

  /** Before a client that has lost nothing lies the frame that it waits for, if that went out whole, and
      nothing if there is none. */
  lemma FrameAhead(cfg: Config, x: Script, s: Session)
    requires Shape(cfg, x) && Inv(cfg, x, s) && cfg.info.encrypted && s.client.pc == Draining && s.client.lost == 0
    ensures s.client.nonce == |s.server.attempts| ==> s.downPos == |s.down|
    ensures s.client.nonce < |s.server.attempts| && s.server.attempts[s.client.nonce].Complete() ==>
              var poll := s.server.attempts[s.client.nonce];
              && 1 <= |poll.chunk| <= MAX_PLAINTEXT
              && s.downPos + |poll.chunk| + 18 <= |s.down|
              && s.down[s.downPos..s.downPos + |poll.chunk| + 18] == SealedFrame(FileKey(x), s.client.nonce, poll.chunk)
  {
    hide ServerReads, ClientReads, ClientScript, ClientDisk, Wire, SealedFrame;
    var (polls, m) := (s.server.attempts, s.client.nonce);
    var (front, wire) := (x.header + x.reply + ApprovalByte(true), Wire(FileKey(x), polls));
    assert s.down == s.down + [] == front + wire;
    if m == |polls| {
      WireLength(cfg.file, FileKey(x), polls);
      assert polls[..m] == polls;
    } else if polls[m].Complete() {
      NthPoll(cfg.file, polls, m);
      NthOnWire(cfg.file, FileKey(x), polls, m);
      Behind(front, wire, FramesLen(polls[..m]), |polls[m].chunk| + 18);
    }
  }

  lemma Behind<T>(front: seq<T>, s: seq<T>, n: nat, len: nat)
    requires n + len <= |s|
    ensures (front + s)[|front| + n..|front| + n + len] == s[n..n + len]
  {
  }

  lemma NthOnWire(file: seq<byte>, key: Key, polls: seq<Attempt>, m: nat)
    requires PollsFrom(file, polls) && m < |polls| && AllComplete(polls[..m]) && polls[m].Complete()
    ensures var (n, len, wire) := (FramesLen(polls[..m]), |polls[m].chunk| + 18, Wire(key, polls));
            n + len <= |wire| && wire[n..n + len] == SealedFrame(key, m, polls[m].chunk)
  {
    var (n, len, first) := (FramesLen(polls[..m]), |polls[m].chunk| + 18, polls[..m + 1]);
    assert first[..m] == polls[..m] && first[m] == polls[m];
    FirstComplete(polls, m);
    PollsPrefix(file, polls, m + 1);
    hide Wire, SealedFrame, PollsFrom, FramesLen, AllComplete;
    WireAt(file, key, first, m);
    WireStarts(key, polls, m + 1);
    PartOfStart(Wire(key, first), Wire(key, polls), n, len);
  }

  lemma FirstComplete(polls: seq<Attempt>, m: nat)
    requires m < |polls| && AllComplete(polls[..m]) && polls[m].Complete()
    ensures AllComplete(polls[..m + 1])
  {
    assert forall i :: 0 <= i < m ==> polls[..m][i] == polls[i];
  }

  lemma PartOfStart<T>(start: seq<T>, all: seq<T>, n: nat, len: nat)
    requires start <= all && n + len <= |start|
    ensures start[n..][..len] == all[n..n + len]
  {
  }

  /** A poll of such a client before a whole frame: it gets it if it can take all of it, and is not told
      that the stream has ended. */
  lemma PollBeforeFrame(cfg: Config, x: Script, s: Session, available: nat, ended: bool)
    requires Works(cfg, x) && Inv(cfg, x, s) && cfg.info.encrypted && s.client.lost == 0
    requires s.client.nonce < |s.server.attempts| && !Unfinished(s) && CanPollRead(cfg, s, available, ended)
    ensures var arrived := s.down[s.downPos..s.downPos + available];
            var r := DecodePoll(cfg.num, ClientKey(s.client), s.client.nonce, cfg.readerCap, arrived, ended);
            && (available >= |s.server.attempts[s.client.nonce].chunk| + 18 ==> Recv(cfg.num, arrived).Payload?)
            && (Recv(cfg.num, arrived).Payload? && !Oversized(cfg, s) ==> r.Got?)
  {
    hide ServerInv, ClientReads, ClientScript, ClientDisk, SealedFrame, Frame, Seal, Open, ReadMessage, WriteMessage;
    var arrived := s.down[s.downPos..s.downPos + available];
    FrameAhead(cfg, x, s);
    var poll := s.server.attempts[s.client.nonce];
    var frame := SealedFrame(FileKey(x), s.client.nonce, poll.chunk);
    if available < |frame| {
      SliceOfSlice(s.down, s.downPos, |frame|, 0, available);
      FrameCutShort(cfg, x, s.client.nonce, poll.chunk, available);
    } else {
      SliceOfSlice(s.down, s.downPos, available, 0, |frame|);
      assert arrived == frame + arrived[|frame|..];
      SealedFrameDecodes(cfg.num, FileKey(x), s.client.nonce, cfg.readerCap, poll.chunk, arrived[|frame|..], ended);
    }
  }

  // ----- every step keeps account -----

  lemma InitialLosses(cfg: Config)
    ensures Losses(cfg, Initial(cfg))
  {
  }

  /** What the server does, and the end of the connection, change nothing about it. */
  lemma LossesStay(cfg: Config, s: Session, s': Session)
    requires Losses(cfg, s) && s'.client == s.client && s.server.attempts <= s'.server.attempts
    requires |s.down| <= |s'.down| && s.Limit() <= |s.down|
    requires s.cutAt == s'.cutAt || (s.cutAt == None && s'.down == s.down)
    requires s.cutAt.None? && s.client.ending == Some(EndOfStream) ==> s'.down == s.down
    ensures Losses(cfg, s')
  {
  }

  lemma PollReadLosses(cfg: Config, x: Script, s: Session, available: nat, ended: bool)
    requires Works(cfg, x) && Inv(cfg, x, s) && cfg.info.encrypted && s.client.status == Running
    requires Losses(cfg, s) && CanPollRead(cfg, s, available, ended)
    ensures Losses(cfg, DoPollRead(cfg, s, available, ended))
  {
    hide Inv, Works, Open, SealedFrame, DecodePoll, DoPollRead, Recv, TakenByPoll, Losses;
    var arrived := s.down[s.downPos..s.downPos + available];
    RunningNotEnded(cfg, x, s);
    if Recv(cfg.num, arrived).Payload?
       && DecodePoll(cfg.num, ClientKey(s.client), s.client.nonce, cfg.readerCap, arrived, ended).Got? {
      PollDelivers(cfg, x, s, available, ended);
      DeliveredFits(cfg, s, available, ended);
      DeliveredLosses(cfg, s, DoPollRead(cfg, s, available, ended));
    } else {
      NothingRead(cfg, arrived);
      if s.client.lost == 0 && available > 0 && !Unfinished(s) {
        WastedPoll(cfg, x, s, available, ended);
      }
      WastedLosses(cfg, s, available, ended);
    }
  }

  lemma DeliveredLosses(cfg: Config, s: Session, s': Session)
    requires Losses(cfg, s) && s.client.ending == None && s.client.nonce < |s.server.attempts|
    requires var poll := s.server.attempts[s.client.nonce];
             s' == s.(downPos := s.downPos + |poll.chunk| + 18,
                      client := Receive(s.client.(nonce := s.client.nonce + 1), poll.chunk))
    requires |s'.client.received| <= |s.client.received| + cfg.readerCap
    ensures Losses(cfg, s')
  {
  }

  lemma WastedPoll(cfg: Config, x: Script, s: Session, available: nat, ended: bool)
    requires Works(cfg, x) && Inv(cfg, x, s) && cfg.info.encrypted && s.client.lost == 0
    requires CanPollRead(cfg, s, available, ended) && available > 0 && !Unfinished(s)
    ensures s.client.nonce < |s.server.attempts|
    ensures var arrived := s.down[s.downPos..s.downPos + available];
            var r := DecodePoll(cfg.num, ClientKey(s.client), s.client.nonce, cfg.readerCap, arrived, ended);
            && (Recv(cfg.num, arrived).Payload? && !Oversized(cfg, s) ==> r.Got?)
            && (s.downPos + available == |s.down| ==> Recv(cfg.num, arrived).Payload?)
  {
    FrameAhead(cfg, x, s);
    hide ReadMessage, WriteMessage, Works, ClientReads, ServerReads, ClientDisk, SealedFrame, Frame, Open, Wire,
         ServerScript, ClientScript, Recv;
    assert s.client.nonce < |s.server.attempts|;
    PollBeforeFrame(cfg, x, s, available, ended);
  }

  lemma RunningNotEnded(cfg: Config, x: Script, s: Session)
    requires Inv(cfg, x, s) && s.client.status == Running
    ensures s.client.ending == None && s.Limit() <= |s.down| && s.downPos <= s.Limit()
    ensures s.client.pc == Draining ==> s.client.info == Some(cfg.info)
  {
  }

  /** A payload takes its length at least; nothing there is no payload. */
  lemma NothingRead(cfg: Config, arrived: seq<Octet>)
    ensures Recv(cfg.num, arrived).Payload? ==> TakenByPoll(cfg.num, arrived) >= 2 && |arrived| >= 2
    ensures Recv(cfg.num, arrived).EndOfFile? ==> TakenByPoll(cfg.num, arrived) == |arrived|
  {
  }

  lemma DeliveredFits(cfg: Config, s: Session, available: nat, ended: bool)
    requires s.downPos + available <= |s.down| && s.client.info.Some? && s.client.info.value.encrypted
    requires var arrived := s.down[s.downPos..s.downPos + available];
             && Recv(cfg.num, arrived).Payload?
             && DecodePoll(cfg.num, ClientKey(s.client), s.client.nonce, cfg.readerCap, arrived, ended).Got?
    ensures |DoPollRead(cfg, s, available, ended).client.received| <= |s.client.received| + cfg.readerCap
  {
  }

  /** A poll that delivers nothing. */
  lemma WastedLosses(cfg: Config, s: Session, available: nat, ended: bool)
    requires Losses(cfg, s) && CanPollRead(cfg, s, available, ended) && s.client.info.value.encrypted
    requires s.client.ending == None && s.Limit() <= |s.down| && s.downPos <= s.Limit()
    requires var arrived := s.down[s.downPos..s.downPos + available];
             var r := DecodePoll(cfg.num, ClientKey(s.client), s.client.nonce, cfg.readerCap, arrived, ended);
             && (Recv(cfg.num, arrived).Payload? ==> !r.Got? && TakenByPoll(cfg.num, arrived) >= 2)
             && (s.client.lost == 0 && available > 0 && !Unfinished(s) && !Oversized(cfg, s) ==> Recv(cfg.num, arrived).EndOfFile?)
             && (s.client.lost == 0 && available > 0 && !Unfinished(s) && s.downPos + available == |s.down| ==>
                   Recv(cfg.num, arrived).Payload?)
    ensures Losses(cfg, DoPollRead(cfg, s, available, ended))
  {
    hide Recv, TakenByPoll, Open, Resize;
  }

  lemma LossesKept(cfg: Config, x: Script, s: Session, step: Step)
    requires Works(cfg, x) && cfg.Valid() && Inv(cfg, x, s) && cfg.info.encrypted && Losses(cfg, s)
    requires Apply(cfg, s, step).Some? && !StopsShort(cfg, s, step)
    ensures Losses(cfg, Apply(cfg, s, step).value)
  {
    ApplyInv(cfg, x, s, step);
    hide Works, Losses, ServerInv, ServerStep, ClientStep;
    if step.Cut? || OfServer(step) {
      if OfServer(step) {
        ServerStepFrame(cfg, x, s, step);
      }
      EndedIsClosed(cfg, x, s);
      LossesStay(cfg, s, Apply(cfg, s, step).value);
    } else if step.PollRead? {
      InfoIsKnown(cfg, x, s, step);
      PollReadLosses(cfg, x, s, step.available, step.ended);
    } else {
      QuietLosses(cfg, x, s, step);
    }
  }

  lemma EndedIsClosed(cfg: Config, x: Script, s: Session)
    requires Inv(cfg, x, s)
    ensures s.Limit() <= |s.down| && (s.client.ending == Some(EndOfStream) ==> s.Closed())
  {
    hide ServerInv, ClientReads, ClientHasPolls, ClientHasPlain;
  }

  lemma InfoIsKnown(cfg: Config, x: Script, s: Session, step: Step)
    requires Inv(cfg, x, s) && s.client.status == Running && step.PollRead? && ClientStep(cfg, s, step).Some?
    ensures CanPollRead(cfg, s, step.available, step.ended)
    ensures ClientStep(cfg, s, step) == Some(DoPollRead(cfg, s, step.available, step.ended))
  {
    hide ServerInv, ClientReads, ClientHasPolls, ClientHasPlain, DoPollRead;
  }

  /** Other steps of the client deliver nothing and lose nothing. */
  lemma QuietLosses(cfg: Config, x: Script, s: Session, step: Step)
    requires Inv(cfg, x, s) && Losses(cfg, s) && cfg.info.encrypted && s.client.status == Running
    requires !OfServer(step) && !step.Cut? && !step.PollRead? && ClientStep(cfg, s, step).Some?
    ensures Losses(cfg, ClientStep(cfg, s, step).value)
  {
    RunningNotEnded(cfg, x, s);
    QuietStep(cfg, s, step);
    hide Inv, ClientStep;
  }

  lemma QuietStep(cfg: Config, s: Session, step: Step)
    requires !OfServer(step) && !step.Cut? && !step.PollRead? && ClientStep(cfg, s, step).Some?
    requires s.client.ending == None
    requires s.client.pc == Draining ==> s.client.info == Some(cfg.info) && cfg.info.encrypted
    ensures var (s', cl, cl') := (ClientStep(cfg, s, step).value, s.client, ClientStep(cfg, s, step).value.client);
            && s'.server == s.server && s'.down == s.down && s'.cutAt == s.cutAt
            && cl'.lost == cl.lost && cl'.dropped == cl.dropped && cl'.nonce == cl.nonce
            && (cl'.ending == None || cl'.ending.value.DiskError?)
  {
    hide ReadMessage, WriteMessage, ReadHeader, FrameDone, HeaderDone, Resize, Kept, Values, FrameTakes, HeaderTakes;
  }
}
