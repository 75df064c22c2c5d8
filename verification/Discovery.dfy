/** src/client.rs: how a client gathers the servers' replies to its broadcast and picks one. */
module Discovery {
  import opened Wrappers
  import opened Bytes
  import opened Models

  datatype SocketAddr = SocketAddr(host: nat, port: u16)

  /** What the UDP socket yields before the time is up. */
  datatype Arrival = Datagram(bytes: seq<byte>, peer: SocketAddr) | RecvError

  /** A stored copy of the receive buffer, and whom the datagram came from. */
  datatype Heard = Heard(bytes: seq<byte>, peer: SocketAddr)

  datatype FindError = RecvFailed | BadReply(cause: DecodeError) | NoServersFound | NoneSelected

  const BUF_SIZE := 100

  /** The longest server name whose reply fits the buffer. */
  const MAX_SERVER_NAME := 90

  type Buffer = s: seq<byte> | |s| == BUF_SIZE witness seq(BUF_SIZE, _ => 0)

  function Zeros(): Buffer {
    seq(BUF_SIZE, _ => 0)
  }

  /** A datagram lands at the front of the buffer; what does not fit is lost, and what it does not
      cover stays as it was. */
  function Overlay(buf: Buffer, datagram: seq<byte>): Buffer {
    if |datagram| >= BUF_SIZE then datagram[..BUF_SIZE] else datagram + buf[|datagram|..]
  }

  function Listen(arrivals: seq<Arrival>, buf: Buffer): Result<seq<Heard>, FindError> {
    if arrivals == [] then Ok([])
    else
      match arrivals[0]
      case RecvError => Err(RecvFailed)
      case Datagram(bytes, peer) =>
        var buf' := Overlay(buf, bytes);
        Before([Heard(buf', peer)], Listen(arrivals[1..], buf'))
  }

  function Before(earlier: seq<Heard>, r: Result<seq<Heard>, FindError>): Result<seq<Heard>, FindError> {
    match r
    case Err(e) => Err(e)
    case Ok(later) => Ok(earlier + later)
  }

  lemma BeforeNothing(r: Result<seq<Heard>, FindError>)
    ensures Before([], r) == r
  {
    assert r.Ok? ==> [] + r.value == r.value;
  }

  lemma BeforeBefore(a: seq<Heard>, b: seq<Heard>, r: Result<seq<Heard>, FindError>)
    ensures Before(a, Before(b, r)) == Before(a + b, r)
  {
    assert r.Ok? ==> a + (b + r.value) == a + b + r.value;
  }

  method Land(buf: array<byte>, datagram: seq<byte>)
    requires buf.Length == BUF_SIZE
    modifies buf
    ensures buf[..] == Overlay(old(buf[..]), datagram)
  {
    var n := 0;
    while n < buf.Length && n < |datagram|
      invariant n <= buf.Length && n <= |datagram|
      invariant forall i :: 0 <= i < n ==> buf[i] == datagram[i]
      invariant forall i :: n <= i < buf.Length ==> buf[i] == old(buf[i])
    {
      buf[n] := datagram[n];
      n := n + 1;
    }
  }

  class UdpSocket {
    var arrivals: seq<Arrival>

    constructor (s: seq<Arrival>)
      ensures arrivals == s
    {
      arrivals := s;
    }

    /** Takes the next arrival into `buf`; None when the time is up. */
    method RecvFrom(buf: array<byte>) returns (r: Option<Result<SocketAddr, FindError>>)
      requires buf.Length == BUF_SIZE
      modifies this, buf
      ensures old(arrivals) == [] ==> r == None && arrivals == [] && buf[..] == old(buf[..])
      ensures old(arrivals) != [] ==> arrivals == old(arrivals)[1..]
      ensures old(arrivals) != [] ==>
                match old(arrivals)[0]
                case RecvError => r == Some(Err(RecvFailed)) && buf[..] == old(buf[..])
                case Datagram(bytes, peer) => r == Some(Ok(peer)) && buf[..] == Overlay(old(buf[..]), bytes)
    {
      if arrivals == [] {
        return None;
      }
      var arrival := arrivals[0];
      arrivals := arrivals[1..];
      match arrival {
        case RecvError =>
          return Some(Err(RecvFailed));
        case Datagram(bytes, peer) =>
          Land(buf, bytes);
          return Some(Ok(peer));
      }
    }
  }

  /** `read_replies_for`: one buffer for all datagrams, a copy of the whole of it for each. */
  method ReadRepliesFor(sock: UdpSocket) returns (r: Result<seq<Heard>, FindError>)
    modifies sock
    ensures r == Listen(old(sock.arrivals), Zeros())
  {
    var buf := new byte[BUF_SIZE](_ => 0);
    assert buf[..] == Zeros();
    var replies: seq<Heard> := [];
    BeforeNothing(Listen(sock.arrivals, buf[..]));
    while true
      invariant Before(replies, Listen(sock.arrivals, buf[..])) == Listen(old(sock.arrivals), Zeros())
      decreases |sock.arrivals|
    {
      ghost var earlier := replies;
      var got := sock.RecvFrom(buf);
      match got {
        case None =>
          assert replies + [] == replies;
          return Ok(replies);
        case Some(Err(e)) => return Err(e);
        case Some(Ok(peer)) =>
          replies := replies + [Heard(buf[..], peer)];
          BeforeBefore(earlier, [Heard(buf[..], peer)], Listen(sock.arrivals, buf[..]));
      }
    }
  }

  // ----- the reused buffer -----

  /** Whatever earlier replies have left in the buffer, a reply comes out of it as it was sent exactly
      if the server's name has at most 90 bytes; a longer one does not decode at all. */
  lemma OverlaidReply(reply: DiscoveryReply, buf: Buffer)
    ensures DeserializeReply(Overlay(buf, SerializeReply(reply))) == Ok(reply)
       <==> |reply.serverName| <= 90
    ensures |reply.serverName| > 90 ==> DeserializeReply(Overlay(buf, SerializeReply(reply))).Err?
  {
    var n := |SerializeReply(reply)|;
    if n <= BUF_SIZE {
      ReplyRoundTrip(reply, buf[n..]);
      assert Overlay(buf, SerializeReply(reply)) == SerializeReply(reply) + buf[n..];
    } else {
      ReplyCutShort(reply, BUF_SIZE);
    }
  }

  /** A datagram that decodes by itself decodes the same out of the buffer. */
  lemma OverlaidDatagram(bytes: seq<byte>, buf: Buffer)
    requires |bytes| <= BUF_SIZE && DeserializeReply(bytes).Ok?
    ensures DeserializeReply(Overlay(buf, bytes)) == DeserializeReply(bytes)
  {
    ReplyIgnoresTail(bytes, buf[|bytes|..]);
    assert Overlay(buf, bytes) == bytes + buf[|bytes|..];
  }

  /** One that does not may be taken for an earlier reply: any shortened copy of the reply before it,
      an empty datagram included, is heard as that reply, from its own sender's address. */
  lemma StaleEcho(reply: DiscoveryReply, cut: nat, buf: Buffer, peer1: SocketAddr, peer2: SocketAddr)
    requires |reply.serverName| <= MAX_SERVER_NAME && cut < |SerializeReply(reply)|
    ensures DeserializeReply(SerializeReply(reply)[..cut]).Err?
    ensures var arrivals := [Datagram(SerializeReply(reply), peer1), Datagram(SerializeReply(reply)[..cut], peer2)];
            match Listen(arrivals, buf)
            case Ok(heard) => |heard| == 2 && heard[1].peer == peer2 && DeserializeReply(heard[1].bytes) == Ok(reply)
            case Err(_) => false
  {
    ReplyCutShort(reply, cut);
    var s := SerializeReply(reply);
    var arrivals := [Datagram(s, peer1), Datagram(s[..cut], peer2)];
    var buf1 := Overlay(buf, s);
    var buf2 := Overlay(buf1, s[..cut]);
    assert buf2 == buf1;
    OverlaidReply(reply, buf);
    assert arrivals[1..] == [Datagram(s[..cut], peer2)];
    assert arrivals[1..][1..] == [];
    assert Listen(arrivals[1..][1..], buf2) == Ok([]);
    assert Listen(arrivals[1..], buf1) == Before([Heard(buf2, peer2)], Ok([]));
    assert Listen(arrivals, buf) == Before([Heard(buf1, peer1)], Listen(arrivals[1..], buf1));
  }

  /** What of a datagram fits the buffer. */
  function Fitting(datagram: seq<byte>): (s: seq<byte>)
    ensures |s| <= BUF_SIZE && s <= datagram
  {
    datagram[..Min(|datagram|, BUF_SIZE)]
  }

  /** A datagram can be heard as a reply, with the right bytes behind it in the buffer, exactly if what fits
      the buffer of it is one itself or is a shortened copy of one; the fresh buffer is right for the empty
      datagram, which is heard as the reply of a nameless server on port 0. */
  lemma HeardAsReplyExactly(datagram: seq<byte>)
    ensures (exists buf: Buffer :: DeserializeReply(Overlay(buf, datagram)).Ok?) <==>
              DeserializeReply(Fitting(datagram)).Ok? || exists reply :: ShortenedCopy(Fitting(datagram), reply)
    ensures DeserializeReply([]).Err? && DeserializeReply(Overlay(Zeros(), [])) == Ok(DiscoveryReply([], 0))
  {
    var heard := Fitting(datagram);
    assert forall buf: Buffer :: Overlay(buf, datagram) == Overlay(buf, heard);
    hide DeserializeReply, Overlay, Fitting;
    if buf: Buffer :| DeserializeReply(Overlay(buf, datagram)).Ok? {
      HeardIsReply(heard, buf);
    }
    if DeserializeReply(heard).Ok? {
      OverlaidDatagram(heard, Zeros());
      assert Overlay(Zeros(), datagram) == Overlay(Zeros(), heard);
    }
    if reply :| ShortenedCopy(heard, reply) {
      var buf := CopyIsHeard(heard, reply);
      assert Overlay(buf, datagram) == Overlay(buf, heard);
    }
    NamelessReply();
  }

  lemma CopyIsHeard(datagram: seq<byte>, reply: DiscoveryReply) returns (buf: Buffer)
    requires |datagram| <= BUF_SIZE && ShortenedCopy(datagram, reply)
    ensures DeserializeReply(Overlay(buf, datagram)) == Ok(reply)
  {
    var s := SerializeReply(reply);
    buf := s + Zeros()[|s|..];
    assert Overlay(buf, datagram) == Overlay(Zeros(), s);
    OverlaidReply(reply, Zeros());
  }

  predicate ShortenedCopy(datagram: seq<byte>, reply: DiscoveryReply) {
    |reply.serverName| <= MAX_SERVER_NAME && datagram <= SerializeReply(reply)
  }

  lemma HeardIsReply(datagram: seq<byte>, buf: Buffer)
    requires |datagram| <= BUF_SIZE && DeserializeReply(Overlay(buf, datagram)).Ok?
    ensures var reply := DeserializeReply(Overlay(buf, datagram)).value;
            DeserializeReply(datagram) == Ok(reply) || ShortenedCopy(datagram, reply)
  {
    var heard := Overlay(buf, datagram);
    var reply := DeserializeReply(heard).value;
    var s := SerializeReply(reply);
    DecodedReplyIsEncoded(heard, reply);
    assert heard[..|datagram|] == datagram && heard[..|s|] == s;
    if |s| <= |datagram| {
      assert datagram[..|s|] == s;
      DecodedReplyIsEncoded(datagram, reply);
    } else {
      assert s[..|datagram|] == datagram;
    }
  }

  lemma NamelessReply()
    ensures DeserializeReply([]).Err? && DeserializeReply(Overlay(Zeros(), [])) == Ok(DiscoveryReply([], 0))
  {
    var nameless := DiscoveryReply([], 0);
    var ten: seq<byte> := seq(10, _ => 0);
    assert LittleEndian(0, 8) == seq(8, _ => 0) by {
      AllZeros(8);
    }
    assert LittleEndian(0, 2) == seq(2, _ => 0) by {
      AllZeros(2);
    }
    assert SerializeReply(nameless) == ten;
    assert Overlay(Zeros(), []) == ten + Zeros()[10..];
    ReplyRoundTrip(nameless, Zeros()[10..]);
  }

  lemma {:induction false} AllZeros(width: nat)
    ensures LittleEndian(0, width) == seq(width, _ => 0)
  {
    if width == 0 {
    } else {
      AllZeros(width - 1);
      assert LittleEndian(0, width) == [0] + LittleEndian(0, width - 1);
    }
  }

  // ----- choosing a server -----

  function Servers(heard: seq<Heard>): Result<seq<SocketAddr>, FindError> {
    if heard == [] then Ok([])
    else
      match DeserializeReply(heard[0].bytes)
      case Err(e) => Err(BadReply(e))
      case Ok(reply) =>
        match Servers(heard[1..])
        case Err(e) => Err(e)
        case Ok(later) => Ok([SocketAddr(heard[0].peer.host, reply.tcpPort)] + later)
  }

  function First(servers: seq<SocketAddr>, wanted: SocketAddr -> bool): Option<SocketAddr> {
    if servers == [] then None
    else if wanted(servers[0]) then Some(servers[0])
    else First(servers[1..], wanted)
  }

  predicate FirstAt(servers: seq<SocketAddr>, wanted: SocketAddr -> bool, k: nat)
    requires k < |servers|
  {
    wanted(servers[k]) && forall j :: 0 <= j < k ==> !wanted(servers[j])
  }

  /** There is nothing found before the first wanted server, and nothing at all only if none is wanted. */
  lemma {:induction false} FirstIsFirst(servers: seq<SocketAddr>, wanted: SocketAddr -> bool) returns (k: nat)
    ensures match First(servers, wanted)
            case Some(a) => k < |servers| && servers[k] == a && FirstAt(servers, wanted, k)
            case None => forall j :: 0 <= j < |servers| ==> !wanted(servers[j])
    decreases |servers|
  {
    k := 0;
    if servers != [] && !wanted(servers[0]) {
      var later := servers[1..];
      k := FirstIsFirst(later, wanted);
      assert forall j :: 0 < j < |servers| ==> servers[j] == later[j - 1];
      k := k + 1;
    }
  }

  /** `find_server`, up to the connection it makes to its result. */
  function FindServer(arrivals: seq<Arrival>, wanted: SocketAddr -> bool): Result<SocketAddr, FindError> {
    match Listen(arrivals, Zeros())
    case Err(e) => Err(e)
    case Ok(heard) =>
      match Servers(heard)
      case Err(e) => Err(e)
      case Ok(servers) =>
        if servers == [] then Err(NoServersFound)
        else
          match First(servers, wanted)
          case None => Err(NoneSelected)
          case Some(a) => Ok(a)
  }

  /** The buffer after the first `k` arrivals. */
  function BufferAfter(arrivals: seq<Arrival>, buf: Buffer, k: nat): Buffer
    requires k <= |arrivals|
  {
    if k == 0 then buf
    else
      match arrivals[k - 1]
      case RecvError => BufferAfter(arrivals, buf, k - 1)
      case Datagram(bytes, _) => Overlay(BufferAfter(arrivals, buf, k - 1), bytes)
  }

  predicate AllDatagrams(arrivals: seq<Arrival>) {
    forall k :: 0 <= k < |arrivals| ==> arrivals[k].Datagram?
  }

  /** What is stored for arrival `k` decodes, and to whom it leads. */
  predicate Replies(arrivals: seq<Arrival>, buf: Buffer, k: nat)
    requires k < |arrivals|
  {
    DeserializeReply(BufferAfter(arrivals, buf, k + 1)).Ok?
  }

  function ServerAt(arrivals: seq<Arrival>, buf: Buffer, k: nat): SocketAddr
    requires k < |arrivals| && arrivals[k].Datagram? && Replies(arrivals, buf, k)
  {
    SocketAddr(arrivals[k].peer.host, DeserializeReply(BufferAfter(arrivals, buf, k + 1)).value.tcpPort)
  }

  lemma {:induction false} BufferFromSecond(arrivals: seq<Arrival>, buf: Buffer, k: nat)
    requires arrivals != [] && arrivals[0].Datagram? && k < |arrivals|
    ensures BufferAfter(arrivals, buf, k + 1) == BufferAfter(arrivals[1..], Overlay(buf, arrivals[0].bytes), k)
  {
    if k == 0 {
      assert BufferAfter(arrivals, buf, 0) == buf;
    } else {
      BufferFromSecond(arrivals, buf, k - 1);
    }
  }

  /** What `read_replies_for` returns for arrivals of any kind: nothing but an error if a receive failed,
      and else for each datagram the buffer as it was then. */
  lemma {:induction false} ListenExactly(arrivals: seq<Arrival>, buf: Buffer)
    ensures Listen(arrivals, buf).Ok? <==> AllDatagrams(arrivals)
    ensures Listen(arrivals, buf).Err? ==> Listen(arrivals, buf) == Err(RecvFailed)
    ensures Listen(arrivals, buf).Ok? ==>
              && |Listen(arrivals, buf).value| == |arrivals|
              && forall k :: 0 <= k < |arrivals| ==>
                   Listen(arrivals, buf).value[k] == Heard(BufferAfter(arrivals, buf, k + 1), arrivals[k].peer)
    decreases |arrivals|
  {
    if arrivals == [] {
    } else if arrivals[0].RecvError? {
      assert !AllDatagrams(arrivals);
    } else {
      var (later, buf') := (arrivals[1..], Overlay(buf, arrivals[0].bytes));
      ListenExactly(later, buf');
      assert AllDatagrams(arrivals) <==> AllDatagrams(later) by {
        assert forall k :: 0 < k < |arrivals| ==> arrivals[k] == later[k - 1];
      }
      if Listen(later, buf').Ok? {
        forall k | 0 <= k < |arrivals|
          ensures Listen(arrivals, buf).value[k] == Heard(BufferAfter(arrivals, buf, k + 1), arrivals[k].peer)
        {
          BufferFromSecond(arrivals, buf, k);
          assert k > 0 ==> Listen(arrivals, buf).value[k] == Listen(later, buf').value[k - 1];
        }
      }
    }
  }

  lemma {:induction false} ServersExactly(heard: seq<Heard>)
    ensures Servers(heard).Ok? <==> forall k :: 0 <= k < |heard| ==> DeserializeReply(heard[k].bytes).Ok?
    ensures Servers(heard).Err? ==> Servers(heard).error.BadReply?
    ensures Servers(heard).Ok? ==>
              && |Servers(heard).value| == |heard|
              && forall k :: 0 <= k < |heard| ==>
                   && DeserializeReply(heard[k].bytes).Ok?
                   && Servers(heard).value[k]
                      == SocketAddr(heard[k].peer.host, DeserializeReply(heard[k].bytes).value.tcpPort)
    decreases |heard|
  {
    hide DeserializeReply;
    if heard == [] {
    } else {
      ServersExactly(heard[1..]);
      assert forall k :: 0 < k < |heard| ==> heard[k] == heard[1..][k - 1];
    }
  }

  predicate Found(arrivals: seq<Arrival>, wanted: SocketAddr -> bool, server: SocketAddr, k: nat)
    requires AllDatagrams(arrivals) && forall j :: 0 <= j < |arrivals| ==> Replies(arrivals, Zeros(), j)
  {
    && k < |arrivals| && ServerAt(arrivals, Zeros(), k) == server && wanted(server)
    && forall j :: 0 <= j < k ==> !wanted(ServerAt(arrivals, Zeros(), j))
  }

  /** The search for a server, whatever arrives: it fails for a receive error if there is one; else for a
      bad reply if what is stored for any datagram does not decode, stray datagrams included; else it
      finds exactly the first wanted server, and says so if none is wanted. */
  lemma FindServerOnAnything(arrivals: seq<Arrival>, wanted: SocketAddr -> bool, server: SocketAddr)
    ensures var (all, r) := (forall k :: 0 <= k < |arrivals| ==> Replies(arrivals, Zeros(), k),
                             FindServer(arrivals, wanted));
            && (r == Err(RecvFailed) <==> !AllDatagrams(arrivals))
            && (r.Err? && r.error.BadReply? <==> AllDatagrams(arrivals) && !all)
            && (r == Err(NoServersFound) <==> arrivals == [])
            && (AllDatagrams(arrivals) && all ==>
                  && (r == Ok(server) <==> exists k: nat :: Found(arrivals, wanted, server, k))
                  && (r == Err(NoneSelected) <==>
                        && arrivals != []
                        && forall k :: 0 <= k < |arrivals| ==> !wanted(ServerAt(arrivals, Zeros(), k))))
  {
    hide DeserializeReply, Listen, Servers, BufferAfter, First;
    ListenExactly(arrivals, Zeros());
    if AllDatagrams(arrivals) {
      var heard := Listen(arrivals, Zeros()).value;
      ServersExactly(heard);
      assert forall k :: 0 <= k < |arrivals| ==>
               (Replies(arrivals, Zeros(), k) <==> DeserializeReply(heard[k].bytes).Ok?);
      if Servers(heard).Ok? {
        var servers := Servers(heard).value;
        assert forall k :: 0 <= k < |arrivals| ==> servers[k] == ServerAt(arrivals, Zeros(), k);
        var k0 := FirstIsFirst(servers, wanted);
        forall k: nat | Found(arrivals, wanted, server, k)
          ensures First(servers, wanted) == Some(server)
        {
          assert wanted(servers[k]);
          assert k == k0;
        }
        if First(servers, wanted) == Some(server) {
          assert Found(arrivals, wanted, server, k0);
        }
      }
    }
  }

  // ----- a network on which only servers answer -----

  datatype Answer = Answer(reply: DiscoveryReply, peer: SocketAddr) {
    function Server(): SocketAddr {
      SocketAddr(peer.host, reply.tcpPort)
    }

    predicate Fits() {
      |reply.serverName| <= MAX_SERVER_NAME
    }
  }

  function Arrivals(answers: seq<Answer>): seq<Arrival> {
    if answers == [] then []
    else [Datagram(SerializeReply(answers[0].reply), answers[0].peer)] + Arrivals(answers[1..])
  }

  function Addresses(answers: seq<Answer>): (s: seq<SocketAddr>)
    ensures |s| == |answers| && forall k :: 0 <= k < |answers| ==> s[k] == answers[k].Server()
  {
    if answers == [] then [] else [answers[0].Server()] + Addresses(answers[1..])
  }

  /** Whatever replies came before: if all names fit, each answer yields its server's address, in the
      order of arrival; one name that does not fit, and no address is obtained at all. */
  lemma {:induction false} AnswersHeard(answers: seq<Answer>, buf: Buffer)
    ensures Listen(Arrivals(answers), buf).Ok?
    ensures var servers := Servers(Listen(Arrivals(answers), buf).value);
            if forall k :: 0 <= k < |answers| ==> answers[k].Fits() then servers == Ok(Addresses(answers))
            else servers.Err? && servers.error.BadReply?
    decreases |answers|
  {
    if answers == [] {
    } else {
      var (a, others) := (answers[0], answers[1..]);
      var buf' := Overlay(buf, SerializeReply(a.reply));
      hide DeserializeReply, SerializeReply, Overlay;
      OverlaidReply(a.reply, buf);
      AnswersHeard(others, buf');
      assert Arrivals(answers)[1..] == Arrivals(others);
      var heard := Listen(Arrivals(others), buf').value;
      assert ([Heard(buf', a.peer)] + heard)[1..] == heard;
      assert Listen(Arrivals(answers), buf) == Ok([Heard(buf', a.peer)] + heard);
      if forall k :: 0 <= k < |answers| ==> answers[k].Fits() {
        assert forall k :: 0 <= k < |others| ==> others[k] == answers[k + 1];
        assert answers[0].Fits();
      } else {
        var k :| 0 <= k < |answers| && !answers[k].Fits();
        assert k > 0 ==> others[k - 1] == answers[k];
      }
    }
  }

  /** The client finds exactly the first wanted server to answer. It is told that there are none
      exactly if nobody answered; and a single server whose name has more than 90 bytes makes the
      search fail for all, wherever it comes in. */
  lemma FindServerExact(answers: seq<Answer>, wanted: SocketAddr -> bool, server: SocketAddr)
    ensures var fit := forall k :: 0 <= k < |answers| ==> answers[k].Fits();
            var r := FindServer(Arrivals(answers), wanted);
            && (!fit <==> r.Err? && r.error.BadReply?)
            && (r == Err(NoServersFound) <==> answers == [])
            && (fit ==>
                  (r == Ok(server) <==> exists k: nat :: k < |answers| && answers[k].Server() == server
                                                         && FirstAt(Addresses(answers), wanted, k)))
  {
    AnswersHeard(answers, Zeros());
    var servers := Addresses(answers);
    hide Listen, Servers, Arrivals, Addresses;
    var k0 := FirstIsFirst(servers, wanted);
    if First(servers, wanted).Some? {
      assert answers[k0].Server() == servers[k0];
    }
    forall k: nat | k < |answers| && FirstAt(servers, wanted, k)
      ensures First(servers, wanted) == Some(answers[k].Server())
    {
      assert wanted(servers[k]);
      assert k == k0;
    }
  }
}
