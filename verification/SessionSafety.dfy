/** What every step of a connection keeps, and what it says about the file that arrives. */
module SessionSafety {
  import opened Wrappers
  import opened Bytes
  import opened Noise
  import opened Framing
  import opened EncryptedStream
  import opened Models
  import opened Session

  // ----- the undisturbed exchange -----

  /** The octets each side writes before the file, and the handshake states in between. */
  datatype Script = Script(
    header: seq<Octet>, hello: seq<Octet>, reply: seq<Octet>, identity: seq<Octet>,
    server0: Handshake, server2: Handshake, server3: Handshake,
    client0: Handshake, client1: Handshake, client3: Handshake)

  function ScriptOf(cfg: Config): Script {
    var k := cfg.keys;
    Script(Plain(HeaderBytes(cfg.info)), Frame(Write1(k).out), Frame(Write2(k).out), Frame(Write3(k).out),
           Server0(k), Write2(k).hs, Server3(k), Client0(k), Write1(k).hs, Write3(k).hs)
  }

  /** Where the file starts on the wire. */
  function FileStart(cfg: Config, x: Script): nat {
    if cfg.info.encrypted then |x.header| + |x.reply| + 1 else |x.header|
  }

  function FileKey(x: Script): Key {
    ToInitiator(x.server3.sym.ck)
  }

  /** Both sides write frames of these sizes. */
  predicate Shape(cfg: Config, x: Script) {
    && |x.hello| == 2 + LEN1 && |x.reply| == 2 + LEN2 && |x.identity| == 2 + LEN3
    && x.header == Plain(HeaderBytes(cfg.info))
    && x.hello == Frame(x.hello[2..]) && x.reply == Frame(x.reply[2..]) && x.identity == Frame(x.identity[2..])
  }

  /** Each message of the exchange is accepted and leads to the next. */
  predicate Works(cfg: Config, x: Script) {
    && Shape(cfg, x)
    && (match ReadMessage(x.server0, MSG1, x.hello[2..])
        case None => false
        case Some(h) => WriteMessage(h, MSG2) == Written(x.reply[2..], x.server2))
    && ReadMessage(x.server2, MSG3, x.identity[2..]) == Some(x.server3)
    && WriteMessage(x.client0, MSG1) == Written(x.hello[2..], x.client1)
    && (match ReadMessage(x.client1, MSG2, x.reply[2..])
        case None => false
        case Some(h) => WriteMessage(h, MSG3) == Written(x.identity[2..], x.client3))
    && x.client3.sym == x.server3.sym
    && x.server3.rs == PublicKey(cfg.keys.sc)
  }

  lemma ScriptWorks(cfg: Config)
    ensures Works(cfg, ScriptOf(cfg))
  {
    HandshakeAgreement(cfg.keys);
    assert Frame(Write1(cfg.keys).out)[2..] == Write1(cfg.keys).out;
    assert Frame(Write2(cfg.keys).out)[2..] == Write2(cfg.keys).out;
    assert Frame(Write3(cfg.keys).out)[2..] == Write3(cfg.keys).out;
  }

  // ----- lists of write polls -----

  /** The bytes of the file that completed polls carried. */
  function CompletedLen(polls: seq<Attempt>): nat {
    if polls == [] then 0
    else CompletedLen(polls[..|polls| - 1])
         + if polls[|polls| - 1].Complete() then |polls[|polls| - 1].chunk| else 0
  }

  /** The length of the frames of all polls, had every one been written in full. */
  function FramesLen(polls: seq<Attempt>): nat {
    if polls == [] then 0 else FramesLen(polls[..|polls| - 1]) + |polls[|polls| - 1].chunk| + 18
  }

  /** What the polls put on the wire. */
  function Wire(key: Key, polls: seq<Attempt>): seq<Octet> {
    if polls == [] then []
    else Wire(key, polls[..|polls| - 1]) + Piece(key, |polls| - 1, polls[|polls| - 1])
  }

  function Piece(key: Key, nonce: nat, poll: Attempt): seq<Octet> {
    SealedFrame(key, nonce, poll.chunk)[..Min(poll.sent, |poll.chunk| + 18)]
  }

  predicate AllComplete(polls: seq<Attempt>) {
    forall i :: 0 <= i < |polls| ==> polls[i].Complete()
  }

  /** Every poll sealed a non-empty chunk that fits, taken from the file just behind what the
      completed polls before it carried. */
  predicate PollsFrom(file: seq<byte>, polls: seq<Attempt>) {
    polls == [] ||
    (var before := polls[..|polls| - 1];
     var last := polls[|polls| - 1];
     var off := CompletedLen(before);
     && PollsFrom(file, before)
     && last.sent <= |last.chunk| + 18
     && 1 <= |last.chunk| <= MAX_PLAINTEXT
     && off + |last.chunk| <= |file| && last.chunk == file[off..off + |last.chunk|])
  }

  lemma PollsPrefix(file: seq<byte>, polls: seq<Attempt>, m: nat)
    requires PollsFrom(file, polls) && m <= |polls|
    ensures PollsFrom(file, polls[..m]) && CompletedLen(polls[..m]) <= |file|
    ensures CompletedLen(polls[..m]) <= CompletedLen(polls)
    ensures FramesLen(polls[..m]) + (|polls| - m) <= FramesLen(polls)
    decreases |polls|
  {
    if m == |polls| {
      assert polls[..m] == polls;
      if polls != [] {
        PollsPrefix(file, polls[..|polls| - 1], |polls| - 1);
        assert polls[..|polls| - 1][..|polls| - 1] == polls[..|polls| - 1];
      }
    } else {
      assert polls[..|polls| - 1][..m] == polls[..m];
      PollsPrefix(file, polls[..|polls| - 1], m);
    }
  }

  lemma NthPoll(file: seq<byte>, polls: seq<Attempt>, m: nat)
    requires PollsFrom(file, polls) && m < |polls|
    ensures var off := CompletedLen(polls[..m]);
            var poll := polls[m];
            && poll.sent <= |poll.chunk| + 18
            && 1 <= |poll.chunk| <= MAX_PLAINTEXT
            && off + |poll.chunk| <= |file| && poll.chunk == file[off..off + |poll.chunk|]
    ensures FramesLen(polls[..m + 1]) == FramesLen(polls[..m]) + |polls[m].chunk| + 18
    ensures CompletedLen(polls[..m + 1])
         == CompletedLen(polls[..m]) + if polls[m].Complete() then |polls[m].chunk| else 0
  {
    PollsPrefix(file, polls, m + 1);
    assert polls[..m + 1][..m] == polls[..m];
  }

  /** Every octet on the wire is of a length or of the frame of one poll, and the last octet of a
      frame is there only if that poll wrote all of it. */
  lemma {:induction false} WireOctet(key: Key, polls: seq<Attempt>, o: Octet)
    requires o in Wire(key, polls) && o.Cipher? && o.key == key
    requires forall i :: 0 <= i < |polls| ==> polls[i].sent <= |polls[i].chunk| + 18
    ensures o.nonce < |polls| && o.plain == Plain(polls[o.nonce].chunk)
    ensures o.i == |o.plain| + TAG_LEN - 1 ==> polls[o.nonce].Complete()
    decreases |polls|
  {
    var (before, last) := (polls[..|polls| - 1], polls[|polls| - 1]);
    var piece := Piece(key, |polls| - 1, last);
    if o in piece {
      var j :| 0 <= j < |piece| && piece[j] == o;
      assert j >= 2 && o == Seal(key, |polls| - 1, [], Plain(last.chunk))[j - 2];
    } else {
      WireOctet(key, before, o);
    }
  }

  lemma WireLength(file: seq<byte>, key: Key, polls: seq<Attempt>)
    requires PollsFrom(file, polls)
    ensures |Wire(key, polls)| <= FramesLen(polls)
    ensures |Wire(key, polls)| == FramesLen(polls) <==> AllComplete(polls)
    decreases |polls|
  {
  }

  lemma PollBounds(file: seq<byte>, polls: seq<Attempt>)
    requires PollsFrom(file, polls)
    ensures forall i :: 0 <= i < |polls| ==> polls[i].sent <= |polls[i].chunk| + 18
    decreases |polls|
  {
  }

  // ----- the invariant -----

  /** All that the server has written and is about to write. */
  function ServerScript(cfg: Config, x: Script, sv: Server): seq<Octet> {
    match sv.pc
    case SendingHeader => x.header
    case ReceivingHello => x.header
    case SendingVerdict => x.header + x.reply + ApprovalByte(sv.approved)
    case Copying =>
      if cfg.info.encrypted then x.header + x.reply + ApprovalByte(true) + Wire(FileKey(x), sv.attempts)
      else x.header + Plain(cfg.file[..Min(sv.off, |cfg.file|)])
    case _ => x.header + x.reply
  }

  predicate ServerReads(cfg: Config, x: Script, s: Session) {
    var sv := s.server;
    s.upPos <= |s.up| &&
    match sv.pc
    case SendingHeader => sv.noise == x.server0 && sv.got == [] && s.upPos == 0
    case ReceivingHello =>
      sv.noise == x.server0 && sv.got == s.up[..s.upPos] && |sv.got| < |x.hello|
    case SendingReply => sv.noise == x.server2 && sv.got == [] && s.upPos == |x.hello|
    case ReceivingStatic =>
      && sv.noise == x.server2
      && |x.hello| <= s.upPos && sv.got == s.up[|x.hello|..s.upPos] && |sv.got| < |x.identity|
    case _ =>
      cfg.info.encrypted ==> sv.noise == x.server3 && s.upPos == |x.hello| + |x.identity|
  }

  predicate ServerCopies(cfg: Config, sv: Server) {
    if sv.pc == Copying then
      && sv.off + |sv.chunk| <= |cfg.file|
      && sv.chunk == cfg.file[sv.off..sv.off + |sv.chunk|]
      && PollsFrom(cfg.file, sv.attempts)
      && if cfg.info.encrypted then sv.off == CompletedLen(sv.attempts) && sv.approved else sv.attempts == []
    else sv.off == 0 && sv.chunk == [] && sv.attempts == []
  }

  predicate ServerInv(cfg: Config, x: Script, s: Session) {
    var sv := s.server;
    && s.down + sv.out == ServerScript(cfg, x, sv)
    && (sv.out != [] ==> ServerSends(sv.pc))
    && (sv.out == [] && ServerSends(sv.pc) ==> sv.status == Refused)
    && (sv.status == Refused ==> sv.pc == SendingVerdict && sv.out == [] && !sv.approved)
    && (sv.status == Finished ==> sv.pc == Copying && sv.chunk == [] && sv.off == |cfg.file|)
    && (sv.pc != SendingHeader && sv.pc != Copying ==> cfg.info.encrypted)
    && ServerReads(cfg, x, s)
    && ServerCopies(cfg, sv)
  }

  function ClientScript(cfg: Config, x: Script, cl: Client): seq<Octet> {
    match cl.pc
    case ReadingHeader => []
    case SendingHello => x.hello
    case ReceivingReply => x.hello
    case Draining => if cfg.info.encrypted then x.hello + x.identity else []
    case _ => x.hello + x.identity
  }

  predicate ClientReads(cfg: Config, x: Script, s: Session) {
    var cl := s.client;
    match cl.pc
    case ReadingHeader =>
      && cl.noise == x.client0 && s.downPos <= |x.header|
      && s.downPos <= |s.down| && cl.got == s.down[..s.downPos]
      && (cl.status == Running ==> !HeaderDone(cfg.num, cl.got))
    case SendingHello => cl.noise == x.client1 && s.downPos == |x.header| && cl.got == []
    case ReceivingReply =>
      && cl.noise == x.client1
      && |x.header| <= s.downPos <= |s.down| && cl.got == s.down[|x.header|..s.downPos] && |cl.got| < |x.reply|
    case SendingStatic => cl.noise == x.client3 && cl.got == [] && s.downPos == |x.header| + |x.reply|
    case AwaitingVerdict =>
      && cl.noise == x.client3
      && s.downPos == |x.header| + |x.reply| + |cl.got|
      && (cl.status == Running ==> cl.got == [])
      && (cl.got != [] ==>
            |cl.got| == 1 && s.downPos <= |s.down| && cl.got[0] == s.down[s.downPos - 1] && cl.status == Refused)
    case Draining => true
  }

  /** What the client has of the file: the chunks of the first `nonce` polls, all of them complete;
      and every octet it took is a delivered one or a lost one. */
  predicate ClientHasPolls(cfg: Config, x: Script, s: Session) {
    var (cl, polls) := (s.client, s.server.attempts);
    && cl.noise == x.client3
    && cl.nonce <= |polls|
    && AllComplete(polls[..cl.nonce])
    && CompletedLen(polls[..cl.nonce]) <= |cfg.file|
    && cl.received == cfg.file[..CompletedLen(polls[..cl.nonce])]
    && s.downPos == FileStart(cfg, x) + FramesLen(polls[..cl.nonce]) + cl.lost
  }

  predicate ClientHasPlain(cfg: Config, x: Script, s: Session) {
    && |s.client.received| <= s.server.off <= |cfg.file|
    && s.client.received == cfg.file[..|s.client.received|]
    && s.downPos == FileStart(cfg, x) + |s.client.received|
    && s.client.lost == 0
  }

  predicate ClientDisk(cfg: Config, s: Session) {
    var cl := s.client;
    if cl.status == Finished then
      && cl.ending.Some?
      && (cl.ending.value.DiskError? ==> cl.ending.value.kept <= |cl.received|)
      && cl.disk == Some(Resize(Kept(cl), cfg.info.dataLength))
      && (cl.ending == Some(EndOfStream) ==> s.Closed() && s.downPos == s.Limit())
    else cl.ending == None && cl.disk == Some(cl.received) && cl.status != Refused
  }

  predicate ClientInv(cfg: Config, x: Script, s: Session) {
    var cl := s.client;
    && s.downPos <= s.Limit() <= |s.down|
    && s.up + cl.out == ClientScript(cfg, x, cl)
    && (cl.out != [] ==> cl.pc == SendingHello || cl.pc == SendingStatic)
    && (cl.status == Running && (cl.pc == SendingHello || cl.pc == SendingStatic) ==> cl.out != [])
    && (cl.status == Refused ==> cl.pc == AwaitingVerdict && cl.got == [Byte(0)])
    && (cl.pc != ReadingHeader ==> cl.info == Some(cfg.info) && |cfg.info.dataName| <= MAX_NAME)
    && (cl.pc != ReadingHeader && cl.pc != Draining ==> cfg.info.encrypted)
    && ClientReads(cfg, x, s)
    && if cl.pc == Draining then
         && s.server.pc == Copying
         && ClientDisk(cfg, s)
         && if cfg.info.encrypted then ClientHasPolls(cfg, x, s) else ClientHasPlain(cfg, x, s)
       else
         && cl.received == [] && cl.nonce == 0 && cl.lost == 0
         && cl.disk == None && cl.ending == None && cl.status != Finished && cl.status != Panicked
  }

  predicate Inv(cfg: Config, x: Script, s: Session) {
    ServerInv(cfg, x, s) && ClientInv(cfg, x, s)
  }

  lemma InitialInv(cfg: Config)
    requires cfg.Valid()
    ensures Inv(cfg, ScriptOf(cfg), Initial(cfg))
  {
  }

  // ----- the server's steps keep the invariant -----

  /** The client's side of the invariant survives anything the server does. */
  lemma ServerLeavesClient(cfg: Config, x: Script, s: Session, s': Session)
    requires ClientInv(cfg, x, s)
    requires s' == s.(server := s'.server, down := s'.down, upPos := s'.upPos)
    requires s.down <= s'.down
    requires s.server.pc == Copying ==> s'.server.pc == Copying
    requires s.server.attempts <= s'.server.attempts && s.server.off <= s'.server.off <= |cfg.file|
    requires s.server.status == Running
    ensures ClientInv(cfg, x, s')
  {
    assert forall n: nat :: n <= |s.down| ==> s'.down[..n] == s.down[..n];
    assert forall a: nat, n: nat :: a <= n <= |s.down| ==> s'.down[a..n] == s.down[a..n];
    var m := s.client.nonce;
    if m <= |s.server.attempts| {
      assert s'.server.attempts[..m] == s.server.attempts[..m];
    }
  }

  lemma ServerWriteInv(cfg: Config, x: Script, s: Session, k: nat)
    requires Shape(cfg, x) && ServerInv(cfg, x, s) && s.server.status == Running && CanServerWrite(s, k)
    ensures ServerInv(cfg, x, DoServerWrite(cfg, s, k))
  {
    hide ReadMessage, WriteMessage;
    var s' := DoServerWrite(cfg, s, k);
    var out := s.server.out;
    assert out[..k] + out[k..] == out;
    assert s'.down + out[k..] == s.down + out;
    if k == |out| {
      assert s'.down == s.down + out;
      assert s'.down + [] == s'.down;
      assert cfg.file[0..0] == [] && Plain(cfg.file[..0]) == [];
      assert x.header + x.reply + ApprovalByte(true) + [] == x.header + x.reply + ApprovalByte(true);
      assert x.header + [] == x.header;
      assert s.server.pc == SendingReply ==> s'.server.got == s'.up[|x.hello|..s'.upPos];
    }
  }

  /** While a frame is being read bit by bit, the reader knows its end. */
  lemma PartOfFrame(num: Numeric, frame: seq<Octet>, got: seq<Octet>, k: nat)
    requires |frame| >= 3 && |frame[2..]| <= MAX_CHUNK_SIZE && frame == Frame(frame[2..])
    requires got <= frame && |got| < |frame| && FrameTakes(num, got, k)
    ensures |got| + k <= |frame|
    ensures FrameDone(num, frame[..|got| + k]) <==> |got| + k == |frame|
  {
    assert frame + [] == frame;
    FrameHeader(num, frame[2..], []);
    assert |got| >= 2 ==> got[0] == frame[0] && got[1] == frame[1];
  }

  lemma UpFollowsScript(cfg: Config, x: Script, s: Session)
    requires ClientInv(cfg, x, s)
    ensures s.up <= x.hello + x.identity
  {
  }

  /** A part of a stream that follows a script is the same part of the script. */
  lemma PartOfScript(up: seq<Octet>, first: seq<Octet>, second: seq<Octet>, n: nat)
    requires up <= first + second
    ensures n <= |up| && n <= |first| ==> up[..n] == first[..n]
    ensures |first| + n <= |up| && n <= |second| ==> up[|first|..|first| + n] == second[..n]
  {
  }

  lemma Adjacent<T>(s: seq<T>, a: nat, b: nat, c: nat)
    requires a <= b <= c <= |s|
    ensures s[a..b] + s[b..c] == s[a..c]
  {
  }

  /** What the server has after reading `k` more octets of a frame is that much of the frame. */
  lemma ServerReadsOn(cfg: Config, x: Script, s: Session, k: nat, from: nat, frame: seq<Octet>)
    requires Shape(cfg, x) && s.up <= x.hello + x.identity
    requires s.upPos <= |s.up| && from + |s.server.got| == s.upPos && s.server.got == s.up[from..s.upPos]
    requires CanServerRead(cfg, s, k) && |s.server.got| < |frame|
    requires (from == 0 && frame == x.hello) || (from == |x.hello| && frame == x.identity)
    ensures |s.server.got| + k <= |frame|
    ensures s.server.got + s.up[s.upPos..s.upPos + k] == frame[..|s.server.got| + k] == s.up[from..s.upPos + k]
    ensures FrameDone(cfg.num, frame[..|s.server.got| + k]) <==> |s.server.got| + k == |frame|
  {
    hide Frame, ReadMessage, WriteMessage, FrameDone, FrameLength;
    var got := s.server.got;
    PartOfScript(s.up, x.hello, x.identity, |got|);
    assert got == frame[..|got|];
    PartOfFrame(cfg.num, frame, got, k);
    PartOfScript(s.up, x.hello, x.identity, |got| + k);
    Adjacent(s.up, from, s.upPos, s.upPos + k);
  }

  /** The frame the server is reading. */
  function Expected(x: Script, pc: ServerPc): seq<Octet> {
    if pc == ReceivingHello then x.hello else x.identity
  }

  lemma ServerReadsMore(cfg: Config, x: Script, s: Session, k: nat)
    requires Shape(cfg, x) && s.up <= x.hello + x.identity
    requires ServerInv(cfg, x, s) && s.server.status == Running && CanServerRead(cfg, s, k)
    requires |s.server.got| + k < |Expected(x, s.server.pc)|
    ensures ServerInv(cfg, x, DoServerRead(cfg, s, k))
  {
    hide ReadMessage, WriteMessage;
    ServerReadsOn(cfg, x, s, k, if s.server.pc == ReceivingHello then 0 else |x.hello|, Expected(x, s.server.pc));
  }

  lemma ServerHelloInv(cfg: Config, x: Script, s: Session, k: nat)
    requires Works(cfg, x) && s.up <= x.hello + x.identity
    requires ServerInv(cfg, x, s) && s.server.status == Running && CanServerRead(cfg, s, k)
    requires s.server.pc == ReceivingHello && |s.server.got| + k == |x.hello|
    ensures ServerInv(cfg, x, DoServerRead(cfg, s, k))
  {
    hide ReadMessage, WriteMessage, FrameDone, FrameTakes, Frame;
    ServerReadsOn(cfg, x, s, k, 0, x.hello);
    assert x.hello[..|x.hello|] == x.hello;
  }

  lemma ServerIdentityInv(cfg: Config, x: Script, s: Session, k: nat)
    requires Works(cfg, x) && s.up <= x.hello + x.identity
    requires ServerInv(cfg, x, s) && s.server.status == Running && CanServerRead(cfg, s, k)
    requires s.server.pc == ReceivingStatic && |s.server.got| + k == |x.identity|
    ensures ServerInv(cfg, x, DoServerRead(cfg, s, k))
  {
    hide ReadMessage, WriteMessage, FrameDone, FrameTakes, Frame;
    ServerReadsOn(cfg, x, s, k, |x.hello|, x.identity);
    assert x.identity[..|x.identity|] == x.identity;
  }

  lemma ServerReadInv(cfg: Config, x: Script, s: Session, k: nat)
    requires Works(cfg, x) && s.up <= x.hello + x.identity
    requires ServerInv(cfg, x, s) && s.server.status == Running && CanServerRead(cfg, s, k)
    ensures ServerInv(cfg, x, DoServerRead(cfg, s, k))
  {
    hide ReadMessage, WriteMessage, ServerGot, DoServerRead, Frame;
    ServerReadsOn(cfg, x, s, k, if s.server.pc == ReceivingHello then 0 else |x.hello|, Expected(x, s.server.pc));
    if |s.server.got| + k < |Expected(x, s.server.pc)| {
      ServerReadsMore(cfg, x, s, k);
    } else if s.server.pc == ReceivingHello {
      ServerHelloInv(cfg, x, s, k);
    } else {
      ServerIdentityInv(cfg, x, s, k);
    }
  }

  lemma PollWritePlain(cfg: Config, x: Script, s: Session, accept: nat)
    requires ServerInv(cfg, x, s) && s.server.pc == Copying && s.server.status == Running && s.server.chunk != []
    requires !cfg.info.encrypted
    ensures ServerInv(cfg, x, DoPollWrite(cfg, s, accept))
  {
    hide SealedFrame, Wire, PollsFrom;
    var (sv, s') := (s.server, DoPollWrite(cfg, s, accept));
    var n := Min(accept, |sv.chunk|);
    assert cfg.file[..sv.off] + sv.chunk[..n] == cfg.file[..sv.off + n];
    assert Plain(cfg.file[..sv.off]) + Plain(sv.chunk[..n]) == Plain(cfg.file[..sv.off + n]);
    assert s'.down == x.header + Plain(cfg.file[..sv.off]) + Plain(sv.chunk[..n])
        == x.header + (Plain(cfg.file[..sv.off]) + Plain(sv.chunk[..n]));
    assert s'.down + [] == s'.down;
  }

  lemma PollWriteSealed(cfg: Config, x: Script, s: Session, accept: nat)
    requires ServerInv(cfg, x, s) && s.server.pc == Copying && s.server.status == Running && s.server.chunk != []
    requires cfg.info.encrypted && CanSeal(|s.server.attempts|, s.server.chunk)
    ensures ServerInv(cfg, x, DoPollWrite(cfg, s, accept))
  {
    var s' := DoPollWrite(cfg, s, accept);
    ReadsStay(cfg, x, s, s');
    SealedScript(cfg, x, s, accept);
    SealedCopies(cfg, x, s, accept);
    hide ServerReads, ServerScript, ServerCopies, SealedFrame;
  }

  lemma SealedScript(cfg: Config, x: Script, s: Session, accept: nat)
    requires ServerInv(cfg, x, s) && s.server.pc == Copying && s.server.chunk != []
    requires cfg.info.encrypted && CanSeal(|s.server.attempts|, s.server.chunk)
    ensures var s' := DoPollWrite(cfg, s, accept); s'.down + s'.server.out == ServerScript(cfg, x, s'.server)
  {
    hide SealedFrame, ServerReads, ServerCopies;
    var (sv, s') := (s.server, DoPollWrite(cfg, s, accept));
    var (before, after) := (sv.attempts, s'.server.attempts);
    assert FileKey(x) == ServerKey(sv) by {
      CopyingKey(cfg, x, s);
    }
    var front := x.header + x.reply + ApprovalByte(true);
    var piece := Piece(FileKey(x), |before|, after[|before|]);
    assert after[..|after| - 1] == before;
    assert Wire(FileKey(x), after) == Wire(FileKey(x), before) + piece;
    hide Wire, Piece;
    assert s.down + [] == s.down && s'.down + [] == s'.down;
    assert front + Wire(FileKey(x), before) + piece == front + (Wire(FileKey(x), before) + piece);
  }

  lemma CopyingKey(cfg: Config, x: Script, s: Session)
    requires ServerInv(cfg, x, s) && s.server.pc == Copying && cfg.info.encrypted
    ensures FileKey(x) == ServerKey(s.server)
  {
  }

  /** One more poll takes its chunk from where the last complete one left off. */
  lemma SealedCopies(cfg: Config, x: Script, s: Session, accept: nat)
    requires ServerInv(cfg, x, s) && s.server.pc == Copying && s.server.chunk != []
    requires cfg.info.encrypted && CanSeal(|s.server.attempts|, s.server.chunk)
    ensures ServerCopies(cfg, DoPollWrite(cfg, s, accept).server)
  {
    hide SealedFrame, ServerReads, ServerScript;
    var (before, after) := (s.server.attempts, DoPollWrite(cfg, s, accept).server.attempts);
    assert after[..|after| - 1] == before;
  }

  lemma ReadsStay(cfg: Config, x: Script, s: Session, s': Session)
    requires ServerReads(cfg, x, s) && s'.up == s.up && s'.upPos == s.upPos
    requires s'.server.pc == s.server.pc && s'.server.noise == s.server.noise && s'.server.got == s.server.got
    ensures ServerReads(cfg, x, s')
  {
  }

  lemma PollWritePanics(cfg: Config, x: Script, s: Session, accept: nat)
    requires ServerInv(cfg, x, s) && s.server.pc == Copying && s.server.status == Running && s.server.chunk != []
    requires cfg.info.encrypted && !CanSeal(|s.server.attempts|, s.server.chunk)
    ensures ServerInv(cfg, x, DoPollWrite(cfg, s, accept))
  {
  }

  lemma ServerControlInv(cfg: Config, x: Script, s: Session, step: Step)
    requires ServerInv(cfg, x, s) && s.server.status == Running
    requires OfServer(step) && !step.WriteHeader? && !step.ServerWrite? && !step.ServerRead? && !step.PollWrite?
    requires ServerStep(cfg, s, step).Some?
    ensures ServerInv(cfg, x, ServerStep(cfg, s, step).value)
  {
    assert s.down + [] == s.down;
  }

  lemma ServerStepInv(cfg: Config, x: Script, s: Session, step: Step)
    requires Works(cfg, x) && Inv(cfg, x, s) && s.server.status == Running
    requires OfServer(step) && ServerStep(cfg, s, step).Some? && !StopsShort(cfg, s, step)
    ensures ServerInv(cfg, x, ServerStep(cfg, s, step).value)
  {
    hide ServerInv, DoPollWrite, ReadMessage, WriteMessage, DoServerRead, DoServerWrite, ServerWrote, ServerGot;
    match step
    case WriteHeader(k) => ServerWriteInv(cfg, x, s, k);
    case ServerWrite(k) => ServerWriteInv(cfg, x, s, k);
    case ServerRead(k) =>
      UpFollowsScript(cfg, x, s);
      ServerReadInv(cfg, x, s, k);
    case PollWrite(accept) =>
      if !cfg.info.encrypted {
        PollWritePlain(cfg, x, s, accept);
      } else if CanSeal(|s.server.attempts|, s.server.chunk) {
        PollWriteSealed(cfg, x, s, accept);
      } else {
        PollWritePanics(cfg, x, s, accept);
      }
    case _ => ServerControlInv(cfg, x, s, step);
  }

  // ----- the client's steps keep the invariant -----

  lemma ClientLeavesServer(cfg: Config, x: Script, s: Session, s': Session)
    requires ServerInv(cfg, x, s)
    requires s' == s.(client := s'.client, up := s'.up, downPos := s'.downPos)
    requires s.up <= s'.up
    ensures ServerInv(cfg, x, s')
  {
  }

  /** What has come down so far starts with the header, then the reply, then the verdict; and the
      approving verdict is there only when the server has started on the file. */
  lemma DownFollowsScript(cfg: Config, x: Script, s: Session)
    requires Shape(cfg, x) && ServerInv(cfg, x, s)
    ensures forall n: nat :: n <= |x.header| && n <= |s.down| ==> s.down[..n] == x.header[..n]
    ensures cfg.info.encrypted ==> forall n: nat :: n <= |x.reply| && |x.header| + n <= |s.down| ==>
              s.down[|x.header|..|x.header| + n] == x.reply[..n]
    ensures cfg.info.encrypted && |s.down| > |x.header| + |x.reply| ==>
              var verdict := s.down[|x.header| + |x.reply|];
              || (verdict == Byte(1) && s.server.pc == Copying)
              || (verdict == Byte(0) && s.server.pc == SendingVerdict && s.server.status != Running)
  {
    hide ServerReads, Wire;
    var all := ServerScript(cfg, x, s.server);
    assert s.down == all[..|s.down|];
    assert all[..|x.header|] == x.header;
    forall n: nat | cfg.info.encrypted && n <= |x.reply| && |x.header| + n <= |s.down|
      ensures s.down[|x.header|..|x.header| + n] == x.reply[..n]
    {
      assert n > 0 ==> all[|x.header|..][..n] == x.reply[..n];
      assert s.down[|x.header|..|x.header| + n] == all[|x.header|..][..n];
    }
  }

  lemma ClientWriteInv(cfg: Config, x: Script, s: Session, k: nat)
    requires Shape(cfg, x) && ClientInv(cfg, x, s) && s.client.status == Running && CanClientWrite(s, k)
    ensures ClientInv(cfg, x, DoClientWrite(s, k))
  {
    hide Frame;
    var s' := DoClientWrite(s, k);
    var out := s.client.out;
    assert out[..k] + out[k..] == out;
    assert s'.up + out[k..] == s.up + out;
    if k == |out| {
      assert s'.up == s.up + out && s'.up + [] == s'.up;
      assert s.client.pc == SendingHello ==> s.down[|x.header|..s.downPos] == [];
    }
  }

  lemma ValuesOfPlain(num: Numeric, s: seq<byte>)
    ensures Values(num, Plain(s)) == s
  {
  }

  /** While the header is being read bit by bit, its first byte tells the end. */
  lemma PartOfHeader(cfg: Config, x: Script, s: Session, k: nat)
    requires Shape(cfg, x) && ServerInv(cfg, x, s)
    requires s.client.pc == ReadingHeader && s.downPos <= |x.header| && s.downPos <= |s.down|
    requires s.client.got == s.down[..s.downPos] && !HeaderDone(cfg.num, s.client.got) && CanClientRead(cfg, s, k)
    ensures var n := s.downPos + k;
            var got := s.client.got + s.down[s.downPos..n];
            && n <= |x.header| && n <= |s.down| && got == s.down[..n] == x.header[..n]
            && (HeaderDone(cfg.num, got) <==> n == HeaderNeed(|SerializeInfo(cfg.info)| % 256))
            && (|cfg.info.dataName| <= MAX_NAME ==> (HeaderDone(cfg.num, got) <==> n == |x.header|))
            && Values(cfg.num, got) == HeaderBytes(cfg.info)[..n]
  {
    hide ServerInv;
    var n := s.downPos + k;
    DownFollowsScript(cfg, x, s);
    assert s.client.got != [] ==> s.client.got[0] == x.header[0];
    assert n <= |x.header|;
    assert s.down[..s.downPos] + s.down[s.downPos..n] == s.down[..n];
    hide CanClientRead, Shape;
    HeaderPrefix(cfg, x.header, n);
  }

  lemma HeaderPrefix(cfg: Config, header: seq<Octet>, n: nat)
    requires header == Plain(HeaderBytes(cfg.info)) && 0 < n <= |header|
    ensures HeaderDone(cfg.num, header[..n]) <==> n == HeaderNeed(|SerializeInfo(cfg.info)| % 256)
    ensures |cfg.info.dataName| <= MAX_NAME ==> (HeaderDone(cfg.num, header[..n]) <==> n == |header|)
    ensures Values(cfg.num, header[..n]) == HeaderBytes(cfg.info)[..n]
  {
    assert header[..n][0] == Byte(|SerializeInfo(cfg.info)| % 256);
    assert header[..n] == Plain(HeaderBytes(cfg.info)[..n]);
    ValuesOfPlain(cfg.num, HeaderBytes(cfg.info)[..n]);
  }

  lemma HeaderNotThere(cfg: Config, x: Script, s: Session, k: nat)
    requires Shape(cfg, x) && Inv(cfg, x, s)
    requires s.client.status == Running && s.client.pc == ReadingHeader && CanClientRead(cfg, s, k)
    requires |cfg.info.dataName| <= MAX_NAME ==> s.downPos + k < |x.header|
    ensures ClientInv(cfg, x, DoClientRead(cfg, s, k))
  {
    hide ReadMessage, WriteMessage, ServerInv, HeaderDone, ReadHeader, Values, Frame;
    PartOfHeader(cfg, x, s, k);
    HeaderCutShort(cfg.info, s.downPos + k);
  }

  lemma HeaderThere(cfg: Config, x: Script, s: Session, k: nat)
    requires Works(cfg, x) && Inv(cfg, x, s) && cfg.Valid()
    requires s.client.status == Running && s.client.pc == ReadingHeader && CanClientRead(cfg, s, k)
    requires |cfg.info.dataName| <= MAX_NAME && s.downPos + k == |x.header|
    ensures ClientInv(cfg, x, DoClientRead(cfg, s, k))
  {
    HeaderGives(cfg, x, s, k);
    DownWhilePlain(cfg, x, s);
    assert s.server.off <= |cfg.file| && Shape(cfg, x);
    hide Works, Shape, ServerInv, ClientInv, DoClientRead;
    BehindHeader(cfg, x, s, DoClientRead(cfg, s, k));
  }

  lemma BehindHeader(cfg: Config, x: Script, s: Session, s': Session)
    requires Shape(cfg, x) && ClientInv(cfg, x, s) && s.client.status == Running && s.client.pc == ReadingHeader
    requires |cfg.info.dataName| <= MAX_NAME && |x.header| <= s.Limit() && s.server.off <= |cfg.file|
    requires !cfg.info.encrypted && |s.down| >= |x.header| ==> s.server.pc == Copying
    requires var cl := s.client.(got := [], info := Some(cfg.info));
             s' == s.(downPos := |x.header|,
                      client := if !cfg.info.encrypted then StartDraining(cl)
                                else cl.(pc := SendingHello, out := x.hello, noise := x.client1))
    ensures ClientInv(cfg, x, s')
  {
    hide Frame, HeaderBytes, HeaderDone;
    assert s.up + [] == s.up == [] && [] + x.hello == x.hello;
    assert cfg.file[..0] == [];
  }

  /** The last octets of the header make the client go on. */
  lemma HeaderGives(cfg: Config, x: Script, s: Session, k: nat)
    requires Works(cfg, x) && Inv(cfg, x, s)
    requires s.client.status == Running && s.client.pc == ReadingHeader && CanClientRead(cfg, s, k)
    requires |cfg.info.dataName| <= MAX_NAME && s.downPos + k == |x.header|
    ensures var cl := s.client.(got := [], info := Some(cfg.info));
            DoClientRead(cfg, s, k)
            == s.(downPos := |x.header|,
                  client := if !cfg.info.encrypted then StartDraining(cl)
                            else cl.(pc := SendingHello, out := x.hello, noise := x.client1))
  {
    assert WriteMessage(x.client0, MSG1) == Written(x.hello[2..], x.client1) && Shape(cfg, x);
    PartOfHeader(cfg, x, s, k);
    HeaderCutShort(cfg.info, s.downPos + k);
    hide ReadMessage, WriteMessage, ServerInv, HeaderDone, ReadHeader, Values, Frame, SerializeInfo, ClientDisk, Works,
         ClientHasPolls, ClientHasPlain, ClientScript;
    assert HeaderBytes(cfg.info)[..|x.header|] == HeaderBytes(cfg.info);
  }

  lemma DownWhilePlain(cfg: Config, x: Script, s: Session)
    requires ServerInv(cfg, x, s)
    ensures !cfg.info.encrypted && |s.down| >= |x.header| ==> s.server.pc == Copying
  {
  }

  /** What the client has after reading `k` more octets of the reply is that much of the reply. */
  lemma ClientReadsOn(cfg: Config, x: Script, s: Session, k: nat)
    requires Shape(cfg, x) && ServerInv(cfg, x, s) && cfg.info.encrypted
    requires s.client.pc == ReceivingReply && CanClientRead(cfg, s, k)
    requires |x.header| <= s.downPos <= |s.down| && |s.client.got| < |x.reply|
    requires s.client.got == s.down[|x.header|..s.downPos]
    ensures |s.client.got| + k <= |x.reply|
    ensures s.client.got + s.down[s.downPos..s.downPos + k]
         == x.reply[..|s.client.got| + k] == s.down[|x.header|..s.downPos + k]
    ensures FrameDone(cfg.num, x.reply[..|s.client.got| + k]) <==> |s.client.got| + k == |x.reply|
  {
    hide ServerInv, Frame, FrameDone, FrameTakes;
    var got := s.client.got;
    DownFollowsScript(cfg, x, s);
    assert got == x.reply[..|got|];
    PartOfFrame(cfg.num, x.reply, got, k);
    Adjacent(s.down, |x.header|, s.downPos, s.downPos + k);
    assert s.down[|x.header|..|x.header| + (|got| + k)] == x.reply[..|got| + k];
  }

  lemma ClientReplyInv(cfg: Config, x: Script, s: Session, k: nat)
    requires Works(cfg, x) && Inv(cfg, x, s)
    requires s.client.status == Running && s.client.pc == ReceivingReply && CanClientRead(cfg, s, k)
    ensures ClientInv(cfg, x, DoClientRead(cfg, s, k))
  {
    hide ReadMessage, WriteMessage, ServerInv, FrameDone, FrameTakes, Frame;
    ClientReadsOn(cfg, x, s, k);
    assert x.reply[..|x.reply|] == x.reply;
    assert s.up + [] == s.up;
  }

  lemma ClientVerdictInv(cfg: Config, x: Script, s: Session, k: nat)
    requires Works(cfg, x) && Inv(cfg, x, s)
    requires s.client.status == Running && s.client.pc == AwaitingVerdict && CanClientRead(cfg, s, k)
    ensures ClientInv(cfg, x, DoClientRead(cfg, s, k))
  {
    hide ReadMessage, WriteMessage, Frame;
    DownFollowsScript(cfg, x, s);
    assert s.down[s.downPos..s.downPos + 1] == [s.down[s.downPos]];
    assert cfg.file[..0] == [] && s.server.attempts[..0] == [];
  }

  // ----- the polls that read the file -----

  /** A payload that opens under the client's next nonce is the frame of that very poll, which wrote
      all of it. */
  lemma OpensOnlyNextFrame(cfg: Config, x: Script, s: Session, from: nat, to: nat, plain: seq<Octet>)
    requires Shape(cfg, x) && Inv(cfg, x, s) && cfg.info.encrypted && s.client.pc == Draining
    requires x.client3.sym == x.server3.sym
    requires s.downPos <= from <= to <= |s.down|
    requires s.down[from..to] == Seal(ClientKey(s.client), s.client.nonce, [], plain)
    ensures s.client.nonce < |s.server.attempts|
    ensures s.server.attempts[s.client.nonce].Complete()
    ensures plain == Plain(s.server.attempts[s.client.nonce].chunk)
  {
    hide ServerReads, ReadMessage, WriteMessage, ClientReads, ClientScript, ClientDisk, Frame, AllComplete,
         CompletedLen, FramesLen, PollsFrom, Wire;
    var sealed := Seal(ClientKey(s.client), s.client.nonce, [], plain);
    var last := s.down[to - 1];
    assert last == s.down[from..to][to - from - 1] == sealed[|sealed| - 1];
    var polls := s.server.attempts;
    var front := x.header + x.reply + ApprovalByte(true);
    assert s.down == s.down + [] == front + Wire(FileKey(x), polls);
    assert last == Wire(FileKey(x), polls)[to - 1 - |front|];
    PollBounds(cfg.file, polls);
    WireOctet(FileKey(x), polls, last);
  }

  lemma SliceOfSlice<T>(s: seq<T>, a: nat, n: nat, i: nat, j: nat)
    requires a + n <= |s| && i <= j <= n
    ensures s[a..a + n][i..j] == s[a + i..a + j]
  {
    var (left, right) := (s[a..a + n][i..j], s[a + i..a + j]);
    assert |left| == |right|;
    forall k | 0 <= k < j - i
      ensures left[k] == right[k]
    {
      assert left[k] == s[a..a + n][i + k] == s[a + (i + k)];
      assert right[k] == s[(a + i) + k];
    }
  }

  lemma PollOpens(cfg: Config, x: Script, s: Session, available: nat, plain: seq<Octet>)
    requires Works(cfg, x) && Inv(cfg, x, s) && cfg.info.encrypted && CanPollRead(cfg, s, available, false)
    requires var arrived := s.down[s.downPos..s.downPos + available];
             && Recv(cfg.num, arrived).Payload?
             && Open(ClientKey(s.client), s.client.nonce, [], Recv(cfg.num, arrived).payload) == Some(plain)
    ensures s.client.nonce < |s.server.attempts|
    ensures var (poll, arrived) := (s.server.attempts[s.client.nonce], s.down[s.downPos..s.downPos + available]);
            && poll.Complete() && poll.chunk != [] && plain == Plain(poll.chunk)
            && TakenByPoll(cfg.num, arrived) == |poll.chunk| + 18 <= available
  {
    hide ReadMessage, WriteMessage, ServerReads, ClientReads, ServerScript, ClientScript, ClientDisk, Frame, Wire,
         Seal, AllComplete, CompletedLen, FramesLen, PollsFrom, Open;
    var arrived := s.down[s.downPos..s.downPos + available];
    var n := FrameLength(cfg.num, arrived);
    SliceOfSlice(s.down, s.downPos, available, 2, n);
    assert arrived[2..n] == Seal(ClientKey(s.client), s.client.nonce, [], plain);
    OpensOnlyNextFrame(cfg, x, s, s.downPos + 2, s.downPos + n, plain);
    NthPoll(cfg.file, s.server.attempts, s.client.nonce);
  }

  /** A poll that returns data delivers the next chunk and takes just its frame. */
  lemma PollDelivers(cfg: Config, x: Script, s: Session, available: nat, ended: bool)
    requires Works(cfg, x) && Inv(cfg, x, s) && cfg.info.encrypted && CanPollRead(cfg, s, available, ended)
    requires var arrived := s.down[s.downPos..s.downPos + available];
             && Recv(cfg.num, arrived).Payload?
             && DecodePoll(cfg.num, ClientKey(s.client), s.client.nonce, cfg.readerCap, arrived, ended).Got?
    ensures s.client.nonce < |s.server.attempts|
    ensures var poll := s.server.attempts[s.client.nonce];
            && poll.Complete() && poll.chunk != [] && |poll.chunk| + 18 <= available
            && DoPollRead(cfg, s, available, ended)
               == s.(downPos := s.downPos + |poll.chunk| + 18,
                     client := Receive(s.client.(nonce := s.client.nonce + 1), poll.chunk))
  {
    hide ServerInv, ClientReads, ClientScript, ClientHasPolls, ClientDisk, Works, Open, TakenByPoll, Recv, Seal;
    var (cl, arrived) := (s.client, s.down[s.downPos..s.downPos + available]);
    var data := DecodePoll(cfg.num, ClientKey(cl), cl.nonce, cfg.readerCap, arrived, ended).data;
    PollOpens(cfg, x, s, available, data);
    ValuesOfPlain(cfg.num, s.server.attempts[cl.nonce].chunk);
  }

  lemma NextPollKeepsCount(cfg: Config, x: Script, s: Session, s': Session)
    requires Inv(cfg, x, s) && cfg.info.encrypted && s.client.pc == Draining && s.client.nonce < |s.server.attempts|
    requires s.server.attempts[s.client.nonce].Complete()
    requires var poll := s.server.attempts[s.client.nonce];
             s' == s.(downPos := s.downPos + |poll.chunk| + 18,
                      client := Receive(s.client.(nonce := s.client.nonce + 1), poll.chunk))
    ensures ClientHasPolls(cfg, x, s')
  {
    hide ReadMessage, WriteMessage, ServerReads, ClientReads, ServerScript, ClientScript, Wire;
    var (polls, m) := (s.server.attempts, s.client.nonce);
    NthPoll(cfg.file, polls, m);
    var done := polls[..m + 1];
    forall i | 0 <= i < |done|
      ensures done[i].Complete()
    {
      assert i < m ==> polls[..m][i] == polls[i];
    }
    var off := CompletedLen(polls[..m]);
    Adjacent(cfg.file, 0, off, off + |polls[m].chunk|);
    assert cfg.file[..off] == cfg.file[0..off];
  }

  lemma PollReadDelivered(cfg: Config, x: Script, s: Session, available: nat, ended: bool)
    requires Works(cfg, x) && Inv(cfg, x, s) && s.client.status == Running && cfg.info.encrypted
    requires CanPollRead(cfg, s, available, ended)
    requires var arrived := s.down[s.downPos..s.downPos + available];
             && Recv(cfg.num, arrived).Payload?
             && DecodePoll(cfg.num, ClientKey(s.client), s.client.nonce, cfg.readerCap, arrived, ended).Got?
    ensures ClientInv(cfg, x, DoPollRead(cfg, s, available, ended))
  {
    PollDelivers(cfg, x, s, available, ended);
    hide ServerInv, Works, DoPollRead, DecodePoll, Recv, ClientHasPolls, ReadMessage, WriteMessage;
    NextPollKeepsCount(cfg, x, s, DoPollRead(cfg, s, available, ended));
  }

  lemma PollReadWasted(cfg: Config, x: Script, s: Session, available: nat, ended: bool)
    requires Inv(cfg, x, s) && cfg.Valid() && s.client.status == Running && cfg.info.encrypted
    requires CanPollRead(cfg, s, available, ended)
    requires var arrived := s.down[s.downPos..s.downPos + available];
             Recv(cfg.num, arrived).Payload? ==>
               !DecodePoll(cfg.num, ClientKey(s.client), s.client.nonce, cfg.readerCap, arrived, ended).Got?
    ensures ClientInv(cfg, x, DoPollRead(cfg, s, available, ended))
  {
    hide ReadMessage, WriteMessage, ServerInv, AllComplete, CompletedLen, FramesLen, Open, Resize, FrameLength;
  }

  /** What comes down on an unencrypted connection is the next part of the file. */
  lemma PlainArrives(cfg: Config, x: Script, s: Session, available: nat)
    requires ServerInv(cfg, x, s) && !cfg.info.encrypted && s.server.pc == Copying
    requires ClientHasPlain(cfg, x, s) && s.downPos + available <= |s.down|
    ensures var n := |s.client.received|;
            && n + available <= s.server.off <= |cfg.file|
            && s.client.received + Values(cfg.num, s.down[s.downPos..s.downPos + available])
               == cfg.file[..n + available]
  {
    hide ServerReads, PollsFrom, Wire;
    var n := |s.client.received|;
    var arrived := s.down[s.downPos..s.downPos + available];
    assert s.down == s.down + [] == x.header + Plain(cfg.file[..s.server.off]);
    assert arrived == Plain(cfg.file[n..n + available]);
    ValuesOfPlain(cfg.num, cfg.file[n..n + available]);
    assert cfg.file[..n] + cfg.file[n..n + available] == cfg.file[..n + available];
  }

  lemma PollReadPlainInv(cfg: Config, x: Script, s: Session, available: nat, ended: bool)
    requires Inv(cfg, x, s) && cfg.Valid() && s.client.status == Running && !cfg.info.encrypted
    requires CanPollRead(cfg, s, available, ended)
    ensures ClientInv(cfg, x, DoPollRead(cfg, s, available, ended))
  {
    PlainArrives(cfg, x, s, available);
    hide ReadMessage, WriteMessage, ServerInv, ClientHasPolls, Values, Resize, DecodePoll, TakenByPoll;
  }

  lemma ClientControlInv(cfg: Config, x: Script, s: Session, step: Step)
    requires ClientInv(cfg, x, s) && cfg.Valid() && s.client.status == Running
    requires !OfServer(step) && !step.Cut? && !step.ClientWrite? && !step.ClientRead? && !step.PollRead?
    requires ClientStep(cfg, s, step).Some?
    ensures ClientInv(cfg, x, ClientStep(cfg, s, step).value)
  {
    hide ReadMessage, WriteMessage, Frame;
  }

  lemma ClientStepInv(cfg: Config, x: Script, s: Session, step: Step)
    requires Works(cfg, x) && Inv(cfg, x, s) && cfg.Valid() && s.client.status == Running
    requires !OfServer(step) && !step.Cut? && ClientStep(cfg, s, step).Some?
    ensures ClientInv(cfg, x, ClientStep(cfg, s, step).value)
  {
    hide ClientReads, ServerInv, ClientScript, ReadMessage, WriteMessage, DoPollRead, DoClientRead, DoClientWrite,
         ClientWrote, ClientGot, ClientHasPolls, ClientHasPlain;
    match step
    case ClientWrite(k) => ClientWriteInv(cfg, x, s, k);
    case ClientRead(k) =>
      if s.client.pc == ReadingHeader {
        ReadHeaderInv(cfg, x, s, k);
      } else if s.client.pc == ReceivingReply {
        ClientReplyInv(cfg, x, s, k);
      } else {
        ClientVerdictInv(cfg, x, s, k);
      }
    case PollRead(available, ended) =>
      if cfg.info.encrypted {
        var arrived := s.down[s.downPos..s.downPos + available];
        if Recv(cfg.num, arrived).Payload?
           && DecodePoll(cfg.num, ClientKey(s.client), s.client.nonce, cfg.readerCap, arrived, ended).Got? {
          PollReadDelivered(cfg, x, s, available, ended);
        } else {
          PollReadWasted(cfg, x, s, available, ended);
        }
      } else {
        PollReadPlainInv(cfg, x, s, available, ended);
      }
    case _ => ClientControlInv(cfg, x, s, step);
  }

  lemma ReadHeaderInv(cfg: Config, x: Script, s: Session, k: nat)
    requires Works(cfg, x) && Inv(cfg, x, s) && cfg.Valid()
    requires s.client.status == Running && s.client.pc == ReadingHeader && CanClientRead(cfg, s, k)
    ensures ClientInv(cfg, x, DoClientRead(cfg, s, k))
  {
    hide ReadMessage, WriteMessage, ServerReads, ClientGot, ReadHeader, Values, Frame;
    PartOfHeader(cfg, x, s, k);
    if |cfg.info.dataName| <= MAX_NAME && s.downPos + k == |x.header| {
      HeaderThere(cfg, x, s, k);
    } else {
      HeaderNotThere(cfg, x, s, k);
    }
  }

  // ----- every run -----

  lemma CutInv(cfg: Config, x: Script, s: Session, at: nat)
    requires Inv(cfg, x, s) && s.cutAt == None && s.downPos <= at <= |s.down|
    ensures Inv(cfg, x, s.(cutAt := Some(at)))
  {
    hide ReadMessage, WriteMessage, ServerScript, ClientScript, CompletedLen, FramesLen, PollsFrom, Frame;
  }

  lemma ApplyInv(cfg: Config, x: Script, s: Session, step: Step)
    requires Works(cfg, x) && cfg.Valid() && Inv(cfg, x, s) && Apply(cfg, s, step).Some?
    requires !StopsShort(cfg, s, step)
    ensures Inv(cfg, x, Apply(cfg, s, step).value)
  {
    hide ServerReads, ServerCopies, ClientReads, ReadMessage, WriteMessage, ServerStep, ClientStep;
    var s' := Apply(cfg, s, step).value;
    if step.Cut? {
      CutInv(cfg, x, s, step.at);
    } else if OfServer(step) {
      ServerStepInv(cfg, x, s, step);
      ServerStepFrame(cfg, x, s, step);
      ServerLeavesClient(cfg, x, s, s');
    } else {
      ClientStepInv(cfg, x, s, step);
      ClientStepFrame(cfg, x, s, step);
      ClientLeavesServer(cfg, x, s, s');
    }
  }

  /** A server step writes to `down`, reads from `up`, and moves on in the file. */
  lemma ServerStepFrame(cfg: Config, x: Script, s: Session, step: Step)
    requires ServerInv(cfg, x, s) && s.server.status == Running && OfServer(step) && ServerStep(cfg, s, step).Some?
    requires !StopsShort(cfg, s, step)
    ensures var s' := ServerStep(cfg, s, step).value;
            && s' == s.(server := s'.server, down := s'.down, upPos := s'.upPos)
            && s.down <= s'.down
            && (s.server.pc == Copying ==> s'.server.pc == Copying)
            && s.server.attempts <= s'.server.attempts && s.server.off <= s'.server.off <= |cfg.file|
  {
    hide ServerReads, ServerScript, ReadMessage, WriteMessage;
  }

  lemma ClientStepFrame(cfg: Config, x: Script, s: Session, step: Step)
    requires !OfServer(step) && !step.Cut? && ClientStep(cfg, s, step).Some?
    ensures var s' := ClientStep(cfg, s, step).value;
            s' == s.(client := s'.client, up := s'.up, downPos := s'.downPos) && s.up <= s'.up
  {
  }
}
