/** The objects that poll (`EncryptedStream`) and the steps of a connection (`Session`) go together: each poll
    of an encrypted stream that holds what the connection holds is a step of the connection. */
module SessionStreams {
  import opened Wrappers
  import opened Noise
  import opened Framing
  import opened EncryptedStream
  import opened Session

  /** The client's stream: the same key and nonce, and before it all that can still arrive. */
  ghost predicate ReadsFor(stream: EncryptedReadStream, s: Session)
    reads stream, stream.underlying
  {
    && s.downPos <= s.Limit() <= |s.down|
    && stream.key == ClientKey(s.client) && stream.nonce == s.client.nonce
    && stream.underlying.rest == s.down[s.downPos..s.Limit()]
  }

  /** The server's stream: the same key, a nonce for each poll so far, and behind it all that was written. */
  ghost predicate WritesFor(stream: EncryptedWriteStream, s: Session)
    reads stream, stream.underlying
  {
    && stream.key == ServerKey(s.server) && stream.nonce == |s.server.attempts|
    && stream.underlying.written == s.down
  }

  /** What a poll that returns `r` makes of the client: it panics, goes on as it was, has ended with a bad frame
      or with the end of the stream, or has received more. */
  predicate ClientAfter(num: Numeric, cl: Client, r: Option<ReadPoll>, cl': Client) {
    match r
    case None => cl' == cl.(status := Panicked)
    case Some(ReadPending) => cl'.status == Running && cl'.received == cl.received
    case Some(DecryptionError) =>
      cl'.status == Finished && cl'.ending == Some(BadFrame) && cl'.received == cl.received
    case Some(Got(data)) =>
      if data == [] then cl'.status == Finished && cl'.ending == Some(EndOfStream) && cl'.received == cl.received
      else
        && cl'.status == Running && cl'.received == cl.received + Values(num, data)
        && cl'.disk == Some(cl'.received)
  }

  /** A poll of the client's stream. If it panics, which is when the stream ends with an error before a whole
      frame, that is the step `ClientError`; the file is left as it is. Else it is the step `PollRead`, and
      what it returns says what becomes of the client. */
  method ClientPolls(cfg: Config, s: Session, stream: EncryptedReadStream, available: nat, ended: bool)
      returns (r: Option<ReadPoll>, s': Session)
    requires ReadsFor(stream, s) && s.client.status == Running
    requires CanPollRead(cfg, s, available, ended) && s.client.info.value.encrypted
    modifies stream`nonce, stream.underlying
    ensures r == None <==>
              && ended && stream.underlying.broken
              && Recv(cfg.num, s.down[s.downPos..s.downPos + available]).EndOfFile?
    ensures Apply(cfg, s, if r == None then ClientError else PollRead(available, ended)) == Some(s')
    ensures ClientAfter(cfg.num, s.client, r, s'.client)
    ensures r != None && s'.client.status == Running ==> ReadsFor(stream, s')
  {
    ghost var (rest, arrived) := (stream.underlying.rest, s.down[s.downPos..s.downPos + available]);
    HeadOfPart(s.down, s.downPos, s.Limit(), available);
    ClientSteps(cfg, s, available, ended);
    assert stream.key == ClientKey(s.client) && stream.nonce == s.client.nonce && rest[..available] == arrived;
    assert rest == s.down[s.downPos..s.Limit()];
    hide ReadsFor, DoPollRead, ClientFails, Apply, DecodePoll, TakenByPoll, Recv, CanPollRead, ClientAfter, ClientKey;
    r := stream.PollRead(cfg.num, cfg.readerCap, available, ended);
    if r == None {
      s' := s.(client := ClientFails(s.client));
    } else {
      s' := DoPollRead(cfg, s, available, ended);
      PollTells(cfg, s, available, ended);
      if s'.client.status == Running {
        StillReads(stream, s, s', TakenByPoll(cfg.num, arrived));
      }
    }
  }

  lemma StillReads(stream: EncryptedReadStream, s: Session, s': Session, n: nat)
    requires s.downPos + n <= s.Limit() <= |s.down| && s' == s.(client := s'.client, downPos := s.downPos + n)
    requires stream.key == ClientKey(s'.client) && stream.nonce == s'.client.nonce
    requires stream.underlying.rest == s.down[s.downPos..s.Limit()][n..]
    ensures ReadsFor(stream, s')
  {
    TailOfPart(s.down, s.downPos, s.Limit(), n);
  }

  lemma HeadOfPart<T>(s: seq<T>, a: nat, b: nat, n: nat)
    requires a + n <= b <= |s|
    ensures s[a..b][..n] == s[a..a + n]
  {
  }

  lemma TailOfPart<T>(s: seq<T>, a: nat, b: nat, n: nat)
    requires a + n <= b <= |s|
    ensures s[a..b][n..] == s[a + n..b]
  {
  }

  lemma ClientSteps(cfg: Config, s: Session, available: nat, ended: bool)
    requires s.client.status == Running && CanPollRead(cfg, s, available, ended) && s.client.info.value.encrypted
    ensures Apply(cfg, s, ClientError) == Some(s.(client := ClientFails(s.client)))
    ensures ClientAfter(cfg.num, s.client, None, ClientFails(s.client))
    ensures Apply(cfg, s, PollRead(available, ended)) == Some(DoPollRead(cfg, s, available, ended))
  {
    hide DoPollRead;
  }

  /** The poll as a step: what it takes off the stream, its nonce, and what it makes of the client. */
  lemma PollTells(cfg: Config, s: Session, available: nat, ended: bool)
    requires s.client.status == Running && CanPollRead(cfg, s, available, ended) && s.client.info.value.encrypted
    ensures var arrived := s.down[s.downPos..s.downPos + available];
            var r := DecodePoll(cfg.num, ClientKey(s.client), s.client.nonce, cfg.readerCap, arrived, ended);
            var s' := DoPollRead(cfg, s, available, ended);
            && s' == s.(client := s'.client, downPos := s.downPos + TakenByPoll(cfg.num, arrived))
            && ClientKey(s'.client) == ClientKey(s.client)
            && ClientAfter(cfg.num, s.client, Some(r), s'.client)
            && (s'.client.status == Running ==>
                  s'.client.nonce == s.client.nonce + if Recv(cfg.num, arrived).Payload? && r.Got? then 1 else 0)
  {
    hide Recv, Open, TakenByPoll, Resize, Values;
  }

  /** What a poll that returns `r` makes of the server: it panics, fails, stays at its chunk, or goes on behind
      it. */
  predicate ServerAfter(sv: Server, r: WritePoll, sv': Server) {
    match r
    case WritePanic => sv' == sv.(status := Panicked)
    case WriteError => sv'.status == Failed
    case WritePending => sv'.status == Running && sv'.off == sv.off && sv'.chunk == sv.chunk
    case WriteReady(reported) =>
      && sv'.status == Running && sv'.off == sv.off + |sv.chunk| && sv'.chunk == []
      && reported == |sv.chunk| + 18
  }

  /** A poll of the server's stream: the step `PollWrite`, and then `ServerError` if the stream fails in the
      middle of it. It panics exactly on a chunk of more than 65519 bytes or after 2^64 - 1 polls. If it is
      ready, the copy goes on behind the chunk; if it is pending, with the same chunk and the next nonce. */
  method ServerPolls(cfg: Config, s: Session, stream: EncryptedWriteStream, accept: nat)
      returns (r: WritePoll, s': Session)
    requires WritesFor(stream, s) && cfg.info.encrypted
    requires s.server.pc == Copying && s.server.status == Running && s.server.chunk != []
    modifies stream`nonce, stream.underlying
    ensures Exec(cfg, s, if r == WriteError then [PollWrite(old(stream.underlying.room)), ServerError]
                         else [PollWrite(accept)]) == Some(s')
    ensures WritesFor(stream, s')
    ensures r == WritePanic <==> |s.server.chunk| > 65519 || |s.server.attempts| >= 0xFFFF_FFFF_FFFF_FFFF
    ensures ServerAfter(s.server, r, s'.server)
  {
    var room := stream.underlying.room;
    assert stream.key == ServerKey(s.server) && stream.nonce == |s.server.attempts|;
    assert stream.underlying.written == s.down;
    hide WritesFor, SealedFrame, DoPollWrite, Apply, Exec, ServerKey;
    r := stream.PollWrite(s.server.chunk, accept);
    if r == WriteError {
      s' := DoPollWrite(cfg, s, room);
      OnePoll(cfg, s, room);
      TwoSteps(cfg, s, room);
      FailedKey(s'.server);
      s' := s'.(server := s'.server.(status := Failed));
    } else {
      s' := DoPollWrite(cfg, s, accept);
      OnePoll(cfg, s, accept);
      OneStep(cfg, s, accept);
    }
    StillWrites(stream, s');
  }

  lemma FailedKey(sv: Server)
    ensures ServerKey(sv.(status := Failed)) == ServerKey(sv)
  {
  }

  lemma StillWrites(stream: EncryptedWriteStream, s: Session)
    requires stream.key == ServerKey(s.server) && stream.nonce == |s.server.attempts|
    requires stream.underlying.written == s.down
    ensures WritesFor(stream, s)
  {
  }

  /** What a poll does that seals. */
  lemma OnePoll(cfg: Config, s: Session, n: nat)
    requires cfg.info.encrypted && s.server.chunk != []
    ensures var (sv, s') := (s.server, DoPollWrite(cfg, s, n));
            if CanSeal(|sv.attempts|, sv.chunk) then
              var frame := SealedFrame(ServerKey(sv), |sv.attempts|, sv.chunk);
              && s'.down == s.down + frame[..Min(n, |frame|)]
              && ServerKey(s'.server) == ServerKey(sv) && |s'.server.attempts| == |sv.attempts| + 1
              && s'.server.status == sv.status && s'.server.pc == sv.pc
              && s'.server.off == (if n < |frame| then sv.off else sv.off + |sv.chunk|)
              && s'.server.chunk == (if n < |frame| then sv.chunk else [])
            else s' == s.(server := sv.(status := Panicked)) && ServerKey(s'.server) == ServerKey(sv)
  {
    hide SealedFrame;
  }

  lemma OneStep(cfg: Config, s: Session, accept: nat)
    requires s.server.pc == Copying && s.server.status == Running && s.server.chunk != []
    ensures Exec(cfg, s, [PollWrite(accept)]) == Some(DoPollWrite(cfg, s, accept))
  {
    hide DoPollWrite;
    assert [PollWrite(accept)][1..] == [];
    assert Apply(cfg, s, PollWrite(accept)) == Some(DoPollWrite(cfg, s, accept));
    hide Apply;
  }

  lemma TwoSteps(cfg: Config, s: Session, n: nat)
    requires s.server.pc == Copying && s.server.status == Running && s.server.chunk != []
    ensures var s' := DoPollWrite(cfg, s, n);
            s'.server.status == Running ==>
              Exec(cfg, s, [PollWrite(n), ServerError]) == Some(s'.(server := s'.server.(status := Failed)))
  {
    hide DoPollWrite;
    var s' := DoPollWrite(cfg, s, n);
    assert [PollWrite(n), ServerError][1..] == [ServerError] && [ServerError][1..] == [];
    assert Apply(cfg, s, PollWrite(n)) == Some(s');
    if s'.server.status == Running {
      assert Apply(cfg, s', ServerError) == Some(s'.(server := s'.server.(status := Failed)));
      hide Apply;
      assert Exec(cfg, s', [ServerError]) == Some(s'.(server := s'.server.(status := Failed)));
    }
  }
}
