/** One connection as two step machines over two byte streams: the server's task for it
    (src/server/mod.rs, src/encrypted_stream/server.rs) and the client's `download_to_file`
    (src/client.rs, src/encrypted_stream/client.rs). Any interleaving of the two, any split of the
    streams, any behaviour of the polls below the encrypted stream, and failures at any point. */
module Session {
  import opened Wrappers
  import opened Bytes
  import opened Noise
  import opened Framing
  import opened EncryptedStream
  import opened Models

  /** What is fixed for one connection: the header the server sends, the file it serves, the keys
      the two sides generate, and the buffer sizes of the two copy loops. */
  datatype Config = Config(info: DataSrvInfo, file: seq<byte>, keys: Secrets, writerCap: nat, readerCap: nat,
                           num: Numeric)
  {
    /** The header announces the length of the file (src/server/mod.rs:217, 408). */
    ghost predicate Valid() {
      info.dataLength == |file|
    }
  }

  datatype Status = Running | Finished | Refused | Failed | Panicked

  /** One call of `poll_write` on the encrypted stream: the chunk it sealed, and how many octets of
      the frame the stream below accepted. */
  datatype Attempt = Attempt(chunk: seq<byte>, sent: nat) {
    predicate Complete() {
      sent == |chunk| + 18
    }
  }

  datatype ServerPc =
    | SendingHeader | ReceivingHello | SendingReply | ReceivingStatic
    | Submitting | Awaiting | SendingVerdict | Copying

  /** `out` is what a `write_all` in progress still has to write, `got` what a `recv` in progress has
      read; `off` and `chunk` are the position in the file and the buffer of the copy loop. */
  datatype Server = Server(
    pc: ServerPc, status: Status, out: seq<Octet>, got: seq<Octet>, noise: Handshake, approved: bool,
    off: nat, chunk: seq<byte>, attempts: seq<Attempt>)

  datatype ClientPc = ReadingHeader | SendingHello | ReceivingReply | SendingStatic | AwaitingVerdict | Draining

  /** Why the copy into the download file ended; a disk error left only `kept` bytes in the file. */
  datatype Ending = EndOfStream | BadFrame | StreamError | DiskError(kept: nat)

  /** `lost` counts the octets that polls took off the stream without delivering them, and `dropped` those
      of them that were taken by polls that were then pending; `disk` is the download file, None until the
      client creates it. */
  datatype Client = Client(
    pc: ClientPc, status: Status, out: seq<Octet>, got: seq<Octet>, noise: Handshake, info: Option<DataSrvInfo>,
    nonce: nat, received: seq<byte>, lost: nat, dropped: nat, disk: Option<seq<byte>>,
    ending: Option<Ending>)

  /** `down` is all the server ever wrote and `downPos` how much of it the client took, `up` and
      `upPos` the same the other way. After the connection broke, only the first `cutAt` octets of
      `down` can still arrive. If a write of the header stopped short, only the first `short` octets of
      the header went out. */
  datatype Session = Session(
    server: Server, client: Client, down: seq<Octet>, downPos: nat, up: seq<Octet>, upPos: nat, cutAt: Option<nat>,
    short: Option<nat>)
  {
    function Limit(): nat {
      if cutAt.Some? then cutAt.value else |down|
    }

    /** The client sees the end of the stream behind what is left of `down`. */
    predicate Closed() {
      server.status != Running || cutAt.Some?
    }
  }

  function Initial(cfg: Config): Session {
    Session(
      Server(SendingHeader, Running, Plain(HeaderBytes(cfg.info)), [], Server0(cfg.keys), false, 0, [], []),
      Client(ReadingHeader, Running, [], [], Client0(cfg.keys), None, 0, [], 0, 0, None, None),
      [], 0, [], 0, None, None)
  }

  datatype Step =
    | WriteHeader(k: nat) | ServerWrite(k: nat) | ServerRead(k: nat)
    | Submit | Verdict(approved: bool) | ApproverError
    | Fill(c: nat) | PollWrite(accept: nat) | ServerDone | ServerError
    | ClientWrite(k: nat) | ClientRead(k: nat)
    | PollRead(available: nat, ended: bool) | ClientError | DiskFull(kept: nat)
    | Cut(at: nat)

  // ----- reading a frame or a header bit by bit -----

  /** `read_exact` never asks for more than is missing: of the length first, then of the payload. */
  predicate FrameTakes(num: Numeric, got: seq<Octet>, k: nat) {
    k >= 1 && |got| + k <= if |got| < 2 then 2 else FrameLength(num, got)
  }

  predicate FrameDone(num: Numeric, got: seq<Octet>) {
    |got| >= 2 && |got| == FrameLength(num, got)
  }

  function Values(num: Numeric, s: seq<Octet>): (v: seq<byte>)
    ensures |v| == |s|
  {
    seq(|s|, i requires 0 <= i < |s| => Value(num, s[i]))
  }

  predicate HeaderTakes(num: Numeric, got: seq<Octet>, k: nat) {
    k >= 1 && |got| + k <= if got == [] then 1 else HeaderNeed(Value(num, got[0]))
  }

  predicate HeaderDone(num: Numeric, got: seq<Octet>) {
    got != [] && |got| == HeaderNeed(Value(num, got[0]))
  }

  // ----- the server -----

  function ServerWrote(cfg: Config, sv: Server): Server {
    if sv.out != [] then sv
    else
      match sv.pc
      case SendingHeader => sv.(pc := if cfg.info.encrypted then ReceivingHello else Copying)
      case SendingReply => sv.(pc := ReceivingStatic)
      case _ => if sv.approved then sv.(pc := Copying) else sv.(status := Refused)
  }

  function ServerGot(cfg: Config, sv: Server): Server {
    if !FrameDone(cfg.num, sv.got) then sv
    else if sv.pc == ReceivingHello then
      (match ReadMessage(sv.noise, MSG1, sv.got[2..])
       case None => sv.(status := Failed)
       case Some(h) =>
         var w := WriteMessage(h, MSG2);
         sv.(pc := SendingReply, got := [], out := Frame(w.out), noise := w.hs))
    else
      (match ReadMessage(sv.noise, MSG3, sv.got[2..])
       case None => sv.(status := Failed)
       case Some(h) => sv.(pc := Submitting, got := [], noise := h))
  }

  /** `futures::io::copy` drops from its buffer what the write reported, and no more than is there. */
  function Consumed(buffered: nat, reported: nat): nat {
    if reported < buffered then reported else buffered
  }

  /** The key of the frames: the responder's sending key. */
  function ServerKey(sv: Server): Key {
    ToInitiator(sv.noise.sym.ck)
  }

  function DoPollWrite(cfg: Config, s: Session, accept: nat): Session {
    var sv := s.server;
    if !cfg.info.encrypted then
      var n := Min(accept, |sv.chunk|);
      s.(down := s.down + Plain(sv.chunk[..n]), server := sv.(off := sv.off + n, chunk := sv.chunk[n..]))
    else if !CanSeal(|sv.attempts|, sv.chunk) then
      s.(server := sv.(status := Panicked))
    else
      var frame := SealedFrame(ServerKey(sv), |sv.attempts|, sv.chunk);
      var n := Min(accept, |frame|);
      var used := if accept < |frame| then 0 else Consumed(|sv.chunk|, |frame|);
      s.(down := s.down + frame[..n],
         server := sv.(attempts := sv.attempts + [Attempt(sv.chunk, n)], off := sv.off + used, chunk := sv.chunk[used..]))
  }

  /** What the next `write` of the header is given: the length byte, then the encoding. */
  function HeaderPiece(cfg: Config, sv: Server): nat {
    if |sv.out| == |HeaderBytes(cfg.info)| then 1 else |sv.out|
  }

  predicate StopsShort(cfg: Config, s: Session, step: Step) {
    step.WriteHeader? && step.k < HeaderPiece(cfg, s.server)
  }

  /** A `write` of the header took only `k` octets. `write_to_stream` does not notice, and the server goes
      on as if all had gone out. (A stream that takes nothing of the length byte takes nothing of the
      encoding either.) */
  function HeaderStops(cfg: Config, s: Session, k: nat): Session
    requires k <= |s.server.out|
  {
    s.(down := s.down + s.server.out[..k],
       server := ServerWrote(cfg, s.server.(out := [])),
       short := Some(|s.down| + k))
  }

  predicate ServerSends(pc: ServerPc) {
    pc == SendingHeader || pc == SendingReply || pc == SendingVerdict
  }

  predicate CanServerWrite(s: Session, k: nat) {
    ServerSends(s.server.pc) && 1 <= k <= |s.server.out|
  }

  function DoServerWrite(cfg: Config, s: Session, k: nat): Session
    requires CanServerWrite(s, k)
  {
    s.(down := s.down + s.server.out[..k],
       server := ServerWrote(cfg, s.server.(out := s.server.out[k..])))
  }

  predicate CanServerRead(cfg: Config, s: Session, k: nat) {
    && (s.server.pc == ReceivingHello || s.server.pc == ReceivingStatic)
    && s.upPos + k <= |s.up| && FrameTakes(cfg.num, s.server.got, k)
  }

  function DoServerRead(cfg: Config, s: Session, k: nat): Session
    requires CanServerRead(cfg, s, k)
  {
    s.(upPos := s.upPos + k,
       server := ServerGot(cfg, s.server.(got := s.server.got + s.up[s.upPos..s.upPos + k])))
  }

  predicate CanFill(cfg: Config, s: Session, c: nat) {
    s.server.pc == Copying && s.server.chunk == [] && 1 <= c <= cfg.writerCap && s.server.off + c <= |cfg.file|
  }

  function ServerStep(cfg: Config, s: Session, step: Step): Option<Session> {
    var sv := s.server;
    match step
    case WriteHeader(k) =>
      if sv.pc != SendingHeader || sv.out == [] || k > HeaderPiece(cfg, sv) then None
      else if k == HeaderPiece(cfg, sv) then Some(DoServerWrite(cfg, s, k))
      else Some(HeaderStops(cfg, s, k))
    case ServerWrite(k) =>
      if CanServerWrite(s, k) && sv.pc != SendingHeader then Some(DoServerWrite(cfg, s, k)) else None
    case ServerRead(k) => if CanServerRead(cfg, s, k) then Some(DoServerRead(cfg, s, k)) else None
    case Submit => if sv.pc == Submitting then Some(s.(server := sv.(pc := Awaiting))) else None
    case Verdict(approved) =>
      if sv.pc == Awaiting
      then Some(s.(server := sv.(pc := SendingVerdict, approved := approved, out := ApprovalByte(approved))))
      else None
    case ApproverError =>
      if sv.pc == Submitting || sv.pc == Awaiting then Some(s.(server := sv.(status := Failed))) else None
    case Fill(c) =>
      if CanFill(cfg, s, c) then Some(s.(server := sv.(chunk := cfg.file[sv.off..sv.off + c]))) else None
    case PollWrite(accept) =>
      if sv.pc == Copying && sv.chunk != [] then Some(DoPollWrite(cfg, s, accept)) else None
    case ServerDone =>
      if sv.pc == Copying && sv.chunk == [] && sv.off == |cfg.file|
      then Some(s.(server := sv.(status := Finished)))
      else None
    case _ => Some(s.(server := sv.(status := Failed)))
  }

  // ----- the client -----

  /** `set_len`: cut off what is too long, fill up with zeros what is too short. */
  function Resize(s: seq<byte>, length: nat): (r: seq<byte>)
    ensures |r| == length
  {
    if |s| >= length then s[..length] else s + seq(length - |s|, _ => 0)
  }

  predicate AllZero(s: seq<byte>) {
    forall i :: 0 <= i < |s| ==> s[i] == 0
  }

  /** What was there up to the new length stays, and what is added is zeros. */
  lemma ResizeContents(s: seq<byte>, length: nat)
    ensures Resize(s, length)[..Min(|s|, length)] == s[..Min(|s|, length)]
    ensures forall i :: |s| <= i < length ==> Resize(s, length)[i] == 0
  {
  }

  function Kept(cl: Client): seq<byte> {
    match cl.ending
    case Some(DiskError(kept)) => if kept <= |cl.received| then cl.received[..kept] else cl.received
    case _ => cl.received
  }

  /** The copy has ended, for whatever reason: `select!` in `download_to_file` drops its result, the
      file is set to the announced length, and the download returns Ok. */
  function Conclude(cl: Client, ending: Ending): Client
    requires cl.info.Some?
  {
    var c := cl.(status := Finished, ending := Some(ending));
    c.(disk := Some(Resize(Kept(c), cl.info.value.dataLength)))
  }

  function StartDraining(cl: Client): Client {
    cl.(pc := Draining, got := [], disk := Some([]))
  }

  function ClientWrote(cl: Client): Client {
    if cl.out != [] then cl
    else cl.(pc := if cl.pc == SendingHello then ReceivingReply else AwaitingVerdict)
  }

  function ClientGot(cfg: Config, cl: Client): Client {
    match cl.pc
    case ReadingHeader =>
      if !HeaderDone(cfg.num, cl.got) then cl
      else
        (match ReadHeader(Values(cfg.num, cl.got))
         case Err(_) => cl.(status := Failed)
         case Ok(Parsed(info, _)) =>
           if !info.encrypted then StartDraining(cl.(info := Some(info)))
           else
             var w := WriteMessage(cl.noise, MSG1);
             cl.(pc := SendingHello, got := [], info := Some(info), out := Frame(w.out), noise := w.hs))
    case ReceivingReply =>
      if !FrameDone(cfg.num, cl.got) then cl
      else
        (match ReadMessage(cl.noise, MSG2, cl.got[2..])
         case None => cl.(status := Failed)
         case Some(h) =>
           var w := WriteMessage(h, MSG3);
           cl.(pc := SendingStatic, got := [], out := Frame(w.out), noise := w.hs))
    case _ =>
      if cl.got == [] then cl
      else if Value(cfg.num, cl.got[0]) != 1 then cl.(status := Refused)
      else StartDraining(cl)
  }

  predicate ClientTakes(num: Numeric, cl: Client, k: nat) {
    match cl.pc
    case ReadingHeader => HeaderTakes(num, cl.got, k)
    case ReceivingReply => FrameTakes(num, cl.got, k)
    case AwaitingVerdict => k == 1
    case _ => false
  }

  function ClientKey(cl: Client): Key {
    ToInitiator(cl.noise.sym.ck)
  }

  function Receive(cl: Client, data: seq<byte>): Client {
    cl.(received := cl.received + data, disk := Some(cl.received + data))
  }

  function DoPollRead(cfg: Config, s: Session, available: nat, ended: bool): Session
    requires s.downPos + available <= |s.down| && s.client.info.Some?
  {
    var cl := s.client;
    var arrived := s.down[s.downPos..s.downPos + available];
    if !cl.info.value.encrypted then
      if arrived == [] then s.(client := Conclude(cl, EndOfStream))
      else s.(downPos := s.downPos + available, client := Receive(cl, Values(cfg.num, arrived)))
    else
      var n := TakenByPoll(cfg.num, arrived);
      var wasted := cl.(lost := cl.lost + n);
      s.(downPos := s.downPos + n,
         client := match DecodePoll(cfg.num, ClientKey(cl), cl.nonce, cfg.readerCap, arrived, ended)
                   case ReadPending => wasted.(dropped := cl.dropped + n)
                   case DecryptionError => Conclude(wasted, BadFrame)
                   case Got(data) =>
                     if data == [] then Conclude(wasted, EndOfStream)
                     else Receive(cl.(nonce := cl.nonce + 1), Values(cfg.num, data)))
  }

  predicate CanClientWrite(s: Session, k: nat) {
    (s.client.pc == SendingHello || s.client.pc == SendingStatic) && 1 <= k <= |s.client.out|
  }

  function DoClientWrite(s: Session, k: nat): Session
    requires CanClientWrite(s, k)
  {
    s.(up := s.up + s.client.out[..k], client := ClientWrote(s.client.(out := s.client.out[k..])))
  }

  predicate CanClientRead(cfg: Config, s: Session, k: nat) {
    ClientTakes(cfg.num, s.client, k) && s.downPos + k <= s.Limit() && s.downPos + k <= |s.down|
  }

  function DoClientRead(cfg: Config, s: Session, k: nat): Session
    requires CanClientRead(cfg, s, k)
  {
    s.(downPos := s.downPos + k,
       client := ClientGot(cfg, s.client.(got := s.client.got + s.down[s.downPos..s.downPos + k])))
  }

  /** A poll can be given any part of what has arrived, and can meet the end only behind all of it. */
  predicate CanPollRead(cfg: Config, s: Session, available: nat, ended: bool) {
    && s.client.pc == Draining && s.client.info.Some?
    && s.downPos + available <= s.Limit() && s.downPos + available <= |s.down|
    && (ended ==> s.Closed() && s.downPos + available == s.Limit())
    && (!s.client.info.value.encrypted ==> available <= cfg.readerCap && (available > 0 || ended))
  }

  /** A read or write error, or an end of file during the handshake; `poll_read` panics on it. */
  function ClientFails(cl: Client): Client {
    if cl.pc != Draining || cl.info.None? then cl.(status := Failed)
    else if cl.info.value.encrypted then cl.(status := Panicked)
    else Conclude(cl, StreamError)
  }

  function ClientStep(cfg: Config, s: Session, step: Step): Option<Session> {
    var cl := s.client;
    match step
    case ClientWrite(k) => if CanClientWrite(s, k) then Some(DoClientWrite(s, k)) else None
    case ClientRead(k) => if CanClientRead(cfg, s, k) then Some(DoClientRead(cfg, s, k)) else None
    case PollRead(available, ended) =>
      if CanPollRead(cfg, s, available, ended) then Some(DoPollRead(cfg, s, available, ended)) else None
    case DiskFull(kept) =>
      if cl.pc == Draining && cl.info.Some? && kept <= |cl.received|
      then Some(s.(client := Conclude(cl, DiskError(kept))))
      else None
    case _ => Some(s.(client := ClientFails(cl)))
  }

  // ----- runs -----

  predicate OfServer(step: Step) {
    step.WriteHeader? || step.ServerWrite? || step.ServerRead? || step.Submit? || step.Verdict? || step.ApproverError?
    || step.Fill? || step.PollWrite? || step.ServerDone? || step.ServerError?
  }

  /** One step of the connection; None when the step is not possible in `s`. */
  function Apply(cfg: Config, s: Session, step: Step): Option<Session> {
    if step.Cut? then
      if s.cutAt.Some? || step.at < s.downPos || step.at > |s.down| then None else Some(s.(cutAt := Some(step.at)))
    else if OfServer(step) then
      if s.server.status != Running then None else ServerStep(cfg, s, step)
    else
      if s.client.status != Running then None else ClientStep(cfg, s, step)
  }

  function Exec(cfg: Config, s: Session, steps: seq<Step>): Option<Session>
    decreases |steps|
  {
    if steps == [] then Some(s)
    else
      match Apply(cfg, s, steps[0])
      case None => None
      case Some(s') => Exec(cfg, s', steps[1..])
  }
}
